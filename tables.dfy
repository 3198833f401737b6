/**
 * `table.to_json`: the container's entries, then `tblCaption` and
 * `tblDescription` assigned into the output when the table properties
 * carry them and the options do not drop them.
 *
 * These methods are the imperative rendering of the assignments into the
 * output dict (`elements/table.py:49-67`); each is proved equal to its function in
 * `Serialize` (`TableJson`, `Captioned`, `Described`), and the rules those
 * functions follow are proved in `ContainerSpec` (`TableNeedsPr`,
 * `CaptionRule`, `DescriptionRule`).
 */
module Tables {
  import opened Runtime
  import opened Json
  import opened Xml
  import opened Kinds
  import opened Options
  import FieldJson
  import opened Serialize

  method TableToJson(env: Env, e: Elem) returns (r: Result<Json>)
    requires e.kind == Table
    ensures r == TableJson(env, e)
  {
    var fields := ContainerFields(env, e);
    if fields.Err? {
      return Err(fields.error);
    }
    var out := fields.value;
    var pr := FirstChild(e.node, W_tblPr);
    if pr.None? {
      return Err(TblPrMissing);
    }
    var withCaption := CaptionInto(env.o, out, FirstChild(pr.value, W_tblCaption));
    if withCaption.Err? {
      return Err(withCaption.error);
    }
    var withDesc := DescriptionInto(env.o, withCaption.value, FirstChild(pr.value, W_tblDescription));
    if withDesc.Err? {
      return Err(withDesc.error);
    }
    r := Ok(JObj(withDesc.value));
  }

  /** The caption assignment, in place on the output entries. */
  method CaptionInto(o: Options, out: seq<(string, Json)>, caption: Option<Node>) returns (r: Result<seq<(string, Json)>>)
    ensures r == Captioned(o, out, caption)
  {
    var fields := out;
    if caption.Some? {
      if "val" !in caption.value.props {
        return Err(AttributeError("val"));
      }
      var v := caption.value.props["val"];
      if !FieldJson.PropTruthy(v) && Flag(o, "ignore-empty-table-caption", true) {
      } else {
        fields := Set(fields, "tblCaption", RawJson(v));
      }
    }
    r := Ok(fields);
  }

  /** The description assignment; a missing value only fails when it would be emitted. */
  method DescriptionInto(o: Options, out: seq<(string, Json)>, desc: Option<Node>) returns (r: Result<seq<(string, Json)>>)
    ensures r == Described(o, out, desc)
  {
    var fields := out;
    if desc.Some? {
      var probe := if "val" in desc.value.props then desc.value.props["val"] else PNone;
      if !FieldJson.PropTruthy(probe) && Flag(o, "ignore-empty-table-description", true) {
      } else {
        if "val" !in desc.value.props {
          return Err(AttributeError("val"));
        }
        fields := Set(fields, "tblDescription", RawJson(desc.value.props["val"]));
      }
    }
    r := Ok(fields);
  }
}
