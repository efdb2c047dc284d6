// validate_fast_export_payload (app/blueprints/estimates/validators.py): a
// saved summary export must carry "cells", "totals" or "controls" as an
// object, at the top level or under "summary_export".
module ExportValidator {
  import opened Wrappers
  import opened Json

  const NotAnObject := "payload: must be a JSON object"
  const NothingRequired := "cells or totals or controls: required object"

  /** isinstance(v, dict) for the result of dict.get. */
  predicate IsDict(v: Option<Json>)
  {
    v.Some? && v.value.JObj?
  }

  /** has_dict(root, key). */
  predicate HasDict(root: Json, key: string)
  {
    IsDict(Member(root, key))
  }

  function ValidateFastExportPayload(payload: Json): (errs: seq<string>)
    ensures |errs| <= 1
    ensures !payload.JObj? ==> errs == [NotAnObject]
  {
    if !payload.JObj? then [NotAnObject]
    else
      var se := Member(payload, "summary_export");
      var seDict := IsDict(se);
      var cellsOk := HasDict(payload, "cells") || (seDict && HasDict(se.value, "cells"));
      var totalsOk := HasDict(payload, "totals") || (seDict && HasDict(se.value, "totals"));
      var ctrlsOk := HasDict(payload, "controls") || (seDict && HasDict(se.value, "controls"));
      if cellsOk || totalsOk || ctrlsOk then [] else [NothingRequired]
  }

  /** The object reached from j by following the keys of path, one dict
      lookup at a time; every step must land on an object. */
  predicate ObjectAt(j: Json, path: seq<string>)
    decreases |path|
  {
    j.JObj? &&
    (path == [] ||
     (var v := Get(j.entries, path[0]); v.Some? && ObjectAt(v.value, path[1..])))
  }

  /** The six places where the required object may sit. */
  const Accepted: seq<seq<string>> := [
    ["cells"], ["totals"], ["controls"],
    ["summary_export", "cells"], ["summary_export", "totals"], ["summary_export", "controls"]
  ]

  lemma ObjectAtOne(j: Json, key: string)
    ensures ObjectAt(j, [key]) <==> j.JObj? && HasDict(j, key)
  {
    assert [key][1..] == [];
  }

  lemma ObjectAtTwo(j: Json, outer: string, key: string)
    ensures ObjectAt(j, [outer, key]) <==>
      j.JObj? && IsDict(Member(j, outer)) && HasDict(Member(j, outer).value, key)
  {
    assert [outer, key][1..] == [key];
    if Member(j, outer).Some? {
      ObjectAtOne(Member(j, outer).value, key);
    }
  }

  lemma SomeAccepted(payload: Json)
    ensures (exists p :: p in Accepted && ObjectAt(payload, p)) <==>
      (ObjectAt(payload, Accepted[0]) || ObjectAt(payload, Accepted[1]) || ObjectAt(payload, Accepted[2]) ||
       ObjectAt(payload, Accepted[3]) || ObjectAt(payload, Accepted[4]) || ObjectAt(payload, Accepted[5]))
  {
    if exists p :: p in Accepted && ObjectAt(payload, p) {
      var p :| p in Accepted && ObjectAt(payload, p);
      var i :| 0 <= i < 6 && Accepted[i] == p;
    }
  }

  /** A payload is accepted exactly when an object sits at one of the six
      accepted places; otherwise exactly one message explains why. */
  lemma ValidateMeaning(payload: Json)
    ensures ValidateFastExportPayload(payload) == [] <==>
      exists p :: p in Accepted && ObjectAt(payload, p)
    ensures payload.JObj? && ValidateFastExportPayload(payload) != [] ==>
      ValidateFastExportPayload(payload) == [NothingRequired]
  {
    SomeAccepted(payload);
    ObjectAtOne(payload, "cells");
    ObjectAtOne(payload, "totals");
    ObjectAtOne(payload, "controls");
    ObjectAtTwo(payload, "summary_export", "cells");
    ObjectAtTwo(payload, "summary_export", "totals");
    ObjectAtTwo(payload, "summary_export", "controls");
  }

  /** An empty object counts; an array under the same key does not. */
  lemma ValidateExamples()
    ensures ValidateFastExportPayload(JObj([("cells", JObj([]))])) == []
    ensures ValidateFastExportPayload(JObj([("summary_export", JObj([("totals", JObj([]))]))])) == []
    ensures ValidateFastExportPayload(JObj([("cells", JArr([]))])) == [NothingRequired]
    ensures ValidateFastExportPayload(JArr([])) == [NotAnObject]
  {
    assert Keys([("cells", JArr([]))]) == ["cells"];
  }
}
