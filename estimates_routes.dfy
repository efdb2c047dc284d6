// The estimates blueprint (app/blueprints/estimates/routes.py): field
// coercion on create and update, the saved-summary CSV export and the
// quantised totals of the index CSV. The database session, Flask responses
// and the PDF rendering are outside the model.
module EstimatesRoutes {
  import opened Wrappers
  import opened Text
  import opened Json
  import NumParse

  /** What makes a handler fail with a 500: calling .get/.strip on a value of
      the wrong type, or Decimal() on text that is not a number. */
  datatype Failure = AttributeError | InvalidOperation

  /** x.get(k) in Python: fails unless x is a dict. */
  function PyGet(x: Json, k: string): (r: Result<Option<Json>, Failure>)
    ensures r.Ok? <==> x.JObj?
    ensures r.Ok? ==> r.value == Get(x.entries, k)
  {
    if x.JObj? then Ok(Get(x.entries, k)) else Err(AttributeError)
  }

  // ---- create / update field coercion

  /** (v or "").strip(): the stripped text; a falsy value reads as "", a
      truthy value that is not text fails. */
  function StripText(v: Option<Json>): (r: Result<string, Failure>)
    ensures r.Ok? ==> Trimmed(r.value)
    ensures v.Some? && v.value.JStr? ==> r == Ok(Trim(v.value.s))
    ensures (v.None? || !Truthy(v.value)) ==> r == Ok("")
    ensures r.Err? <==> v.Some? && Truthy(v.value) && !v.value.JStr?
    ensures r.Err? ==> r.error == AttributeError
  {
    TrimTrimmed(if v.Some? && v.value.JStr? then v.value.s else "");
    if v.None? || !Truthy(v.value) then Ok("")
    else if v.value.JStr? then Ok(Trim(v.value.s))
    else Err(AttributeError)
  }

  /** _s(v): the stripped text, None when nothing is left. */
  function OptionalText(v: Option<Json>): (r: Result<Option<string>, Failure>)
    ensures r.Ok? && r.value.Some? ==> r.value.value != [] && Trimmed(r.value.value)
    ensures v.Some? && v.value.JStr? ==>
      r == Ok(if NoSpaceFree(v.value.s) then None else Some(Trim(v.value.s)))
  {
    TrimEmpty(if v.Some? && v.value.JStr? then v.value.s else "");
    match StripText(v)
    case Err(e) => Err(e)
    case Ok(t) => Ok(if t == [] then None else Some(t))
  }

  /** int(customer_id) if str(customer_id or "").isdigit() else None. A JSON
      number prints its digits only when it is a positive integer; text is
      read when it is a non-empty run of digits. */
  function CustomerId(v: Option<Json>): (r: Option<int>)
    ensures r.Some? ==> r.value >= 0
    ensures v.Some? && v.value.JStr? && !AllDigits(v.value.s) ==> r.None?
    ensures v.Some? && v.value.JInt? && v.value.i <= 0 ==> r.None?
    ensures v.Some? && !v.value.JInt? && !v.value.JStr? ==> r.None?
  {
    if v.None? then None
    else match v.value
      case JInt(i) => if i > 0 then Some(i) else None
      case JStr(s) => if s != [] && AllDigits(s) then Some(NumParse.DigitsValue(s)) else None
      case _ => None
  }

  /** customer_id round-trips through its decimal text; signs, blanks and
      other characters give None; the result is never negative. */
  lemma CustomerIdMeaning(v: Option<Json>, n: nat)
    ensures CustomerId(v).Some? ==> CustomerId(v).value >= 0
    ensures CustomerId(Some(JStr(NumParse.NatToString(n)))) == Some(n)
    ensures n > 0 ==> CustomerId(Some(JInt(n))) == Some(n)
    ensures v.Some? && v.value.JStr? && !AllDigits(v.value.s) ==> CustomerId(v).None?
    ensures CustomerId(Some(JStr(""))).None? && CustomerId(Some(JInt(0))).None?
  {
    NumParse.NatToStringRoundTrip(n);
  }

  /** The values a create or update request writes. */
  datatype EstimateFields = EstimateFields(
    name: string,
    customerId: Option<int>,
    projectAddress: Option<string>,
    projectRef: Option<string>)

  /** Why a create or update is refused. */
  datatype RequestError = NameRequired | Crash(f: Failure)

  /** The name is missing, falsy or whitespace only. */
  predicate BlankName(v: Option<Json>)
  {
    v.None? || !Truthy(v.value) || (v.value.JStr? && NoSpaceFree(v.value.s))
  }

  /** Reads the request body: get_json(silent=True) or {} (None stands for
      a body that does not parse), then name, customer_id and the two
      optional texts in that order. */
  function ParseFields(body: Option<Json>): (r: Result<EstimateFields, RequestError>)
    ensures r.Ok? ==> r.value.name != [] && Trimmed(r.value.name)
    ensures var data := OrElse(body, JObj([]));
      r == Err(NameRequired) <==> data.JObj? && BlankName(Get(data.entries, "name"))
  {
    var data := OrElse(body, JObj([]));
    match PyGet(data, "name")
    case Err(e) => Err(Crash(e))
    case Ok(nm) =>
      match StripText(nm)
      case Err(e) => Err(Crash(e))
      case Ok(name) =>
        TrimEmpty(if nm.Some? && nm.value.JStr? then nm.value.s else "");
        if name == [] then Err(NameRequired) else WithName(data, name)
  }

  /** The fields after an accepted name: customer_id, then the two optional
      texts in that order. */
  function WithName(data: Json, name: string): (r: Result<EstimateFields, RequestError>)
    requires data.JObj?
    ensures r.Ok? ==> r.value.name == name
    ensures r != Err(NameRequired)
  {
    var cid := CustomerId(Get(data.entries, "customer_id"));
    match OptionalText(Get(data.entries, "project_address"))
    case Err(e) => Err(Crash(e))
    case Ok(addr) =>
      match OptionalText(Get(data.entries, "project_ref"))
      case Err(e) => Err(Crash(e))
      case Ok(pref) => Ok(EstimateFields(name, cid, addr, pref))
  }

  /** An accepted name is the stripped text of the body's "name"; a missing
      body, an empty object or a name of blanks are refused. */
  lemma ParseFieldsNameRule(body: Option<Json>)
    ensures ParseFields(None) == Err(NameRequired)
    ensures ParseFields(Some(JObj([("name", JStr(" \t "))]))) == Err(NameRequired)
    ensures ParseFields(body).Ok? ==>
      Get(OrElse(body, JObj([])).entries, "name").Some?
      && Get(OrElse(body, JObj([])).entries, "name").value.JStr?
      && ParseFields(body).value.name == Trim(Get(OrElse(body, JObj([])).entries, "name").value.s)
  {
    NoBodyRefused();
    BlankNameRefused();
    if ParseFields(body).Ok? {
      AcceptedName(body);
    }
  }

  lemma NoBodyRefused()
    ensures ParseFields(None) == Err(NameRequired)
  {
    assert Get(OrElse(None, JObj([])).entries, "name") == None;
  }

  lemma BlankNameRefused()
    ensures ParseFields(Some(JObj([("name", JStr(" \t "))]))) == Err(NameRequired)
  {
    var data := JObj([("name", JStr(" \t "))]);
    assert NoSpaceFree(" \t ");
    assert Get(data.entries, "name") == Some(JStr(" \t "));
  }

  lemma AcceptedName(body: Option<Json>)
    requires ParseFields(body).Ok?
    ensures Get(OrElse(body, JObj([])).entries, "name").Some?
    ensures Get(OrElse(body, JObj([])).entries, "name").value.JStr?
    ensures ParseFields(body).value.name == Trim(Get(OrElse(body, JObj([])).entries, "name").value.s)
  {
    var data := OrElse(body, JObj([]));
    var nm := Get(data.entries, "name");
    assert StripText(nm).Ok? && StripText(nm).value == ParseFields(body).value.name;
    assert nm.Some? && Truthy(nm.value);
  }

  /** A stored estimate; the fields the two routes write. */
  class Estimate {
    var name: string
    var customerId: Option<int>
    var projectAddress: Option<string>
    var projectRef: Option<string>
    var status: string
    var settingsSnapshot: Json
    var workPayload: Json
    var userId: int
    var orgId: Option<int>

    constructor(f: EstimateFields, snapshot: Json, userId: int, orgId: Option<int>)
      ensures name == f.name && customerId == f.customerId
      ensures projectAddress == f.projectAddress && projectRef == f.projectRef
      ensures status == "draft" && workPayload == JObj([]) && settingsSnapshot == snapshot
      ensures this.userId == userId && this.orgId == orgId
    {
      name := f.name;
      customerId := f.customerId;
      projectAddress := f.projectAddress;
      projectRef := f.projectRef;
      status := "draft";
      settingsSnapshot := snapshot;
      workPayload := JObj([]);
      this.userId := userId;
      this.orgId := orgId;
    }
  }

  /** The settings row as stored, used only when it is an object. */
  function Snapshot(settings: Option<Json>): (r: Json)
    ensures r.JObj?
    ensures settings.Some? && settings.value.JObj? ==> r == settings.value
  {
    if settings.Some? && settings.value.JObj? then settings.value else JObj([])
  }

  /** POST /estimates/: a new draft with an empty work payload and a copy of
      the admin settings, owned by the caller and the caller's org. */
  method Create(body: Option<Json>, settings: Option<Json>, userId: int, orgId: Option<int>)
    returns (r: Result<Estimate, RequestError>)
    ensures r.Err? ==> ParseFields(body) == Err(r.error)
    ensures r.Ok? ==> fresh(r.value)
    ensures r.Ok? ==>
      ParseFields(body) ==
        Ok(EstimateFields(r.value.name, r.value.customerId, r.value.projectAddress, r.value.projectRef))
    ensures r.Ok? ==>
      r.value.status == "draft" && r.value.workPayload == JObj([]) &&
      r.value.settingsSnapshot == Snapshot(settings) &&
      r.value.userId == userId && r.value.orgId == orgId
  {
    var parsed := ParseFields(body);
    if parsed.Err? {
      return Err(parsed.error);
    }
    var est := new Estimate(parsed.value, Snapshot(settings), userId, orgId);
    return Ok(est);
  }

  /** The four assignments of the update route. */
  method Apply(est: Estimate, f: EstimateFields)
    modifies est`name, est`customerId, est`projectAddress, est`projectRef
    ensures f == EstimateFields(est.name, est.customerId, est.projectAddress, est.projectRef)
  {
    est.name := f.name;
    est.projectAddress := f.projectAddress;
    est.projectRef := f.projectRef;
    est.customerId := f.customerId;
  }

  /** PUT /estimates/<id>: a refused update changes nothing; an accepted one
      rewrites the four edited fields and nothing else. */
  method Update(est: Estimate, body: Option<Json>) returns (r: Result<(), RequestError>)
    modifies est`name, est`customerId, est`projectAddress, est`projectRef
    ensures r.Err? ==> ParseFields(body) == Err(r.error) && unchanged(est)
    ensures r.Ok? ==>
      ParseFields(body) == Ok(EstimateFields(est.name, est.customerId, est.projectAddress, est.projectRef))
  {
    var parsed := ParseFields(body);
    if parsed.Err? {
      return Err(parsed.error);
    }
    Apply(est, parsed.value);
    return Ok(());
  }

  // ---- saved summary export (CSV)

  /** Python `a or b` on JSON values. */
  function Or(a: Json, b: Json): Json
  {
    if Truthy(a) then a else b
  }

  /** The summary the export reads: estimateData.summary_export, then
      summary_export, summary_totals, summary, summary_snapshot, the first
      truthy one, else the whole payload. A work payload or an estimateData
      that is truthy but not an object makes `.get` fail. */
  function ResolveSummary(workPayload: Json): (r: Result<Json, Failure>)
    ensures r.Ok? <==>
      (!Truthy(workPayload) ||
       (workPayload.JObj? &&
        (var ed := Get(workPayload.entries, "estimateData");
         ed.None? || !Truthy(ed.value) || ed.value.JObj?)))
  {
    var payload := Or(workPayload, JObj([]));
    if !payload.JObj? then Err(AttributeError)
    else
      var ed := OrElse(Get(payload.entries, "estimateData"), JObj([]));
      if !ed.JObj? then Err(AttributeError)
      else
        var first := OrElse(Get(ed.entries, "summary_export"), JNull);
        var candidates := [
          first,
          OrElse(Get(payload.entries, "summary_export"), JNull),
          OrElse(Get(payload.entries, "summary_totals"), JNull),
          OrElse(Get(payload.entries, "summary"), JNull),
          OrElse(Get(payload.entries, "summary_snapshot"), JNull)];
        Ok(Or(candidates[0], Or(candidates[1], Or(candidates[2], Or(candidates[3], Or(candidates[4], payload))))))
  }

  /** _get_controls / _get_cells: the object under `key` in the nested export
      (summary_export when that is an object, else summaryExport), else the
      one at the top level; anything else, including a summary that is not an
      object, gives None. */
  function Section(s: Json, key: string): (r: Option<seq<(string, Json)>>)
    ensures r.Some? ==> s.JObj?
    ensures r.Some? ==>
      (exists se :: (se == Member(s, "summary_export") || se == Member(s, "summaryExport")) &&
        se.Some? && Member(se.value, key) == Some(JObj(r.value))) ||
      Member(s, key) == Some(JObj(r.value))
    ensures NestedHas(s, key) ==> r == Some(Member(Nested(s).value, key).value.entries)
    ensures s.JObj? && !NestedHas(s, key) && IsObject(Member(s, key)) ==> r == Some(Member(s, key).value.entries)
    ensures r.None? <==> !s.JObj? || (!NestedHas(s, key) && !IsObject(Member(s, key)))
  {
    if !s.JObj? then None
    else
      var se := Nested(s);
      if se.Some? && IsObject(Member(se.value, key)) then Some(Member(se.value, key).value.entries)
      else if IsObject(Member(s, key)) then Some(Member(s, key).value.entries)
      else None
  }

  predicate IsObject(v: Option<Json>)
  {
    v.Some? && v.value.JObj?
  }

  /** The nested export: summary_export when that is an object, else
      whatever summaryExport holds. */
  function Nested(s: Json): (r: Option<Json>)
    ensures IsObject(Member(s, "summary_export")) ==> r == Member(s, "summary_export")
    ensures !IsObject(Member(s, "summary_export")) ==> r == Member(s, "summaryExport")
  {
    if IsObject(Member(s, "summary_export")) then Member(s, "summary_export") else Member(s, "summaryExport")
  }

  /** The nested export holds an object under the key. */
  predicate NestedHas(s: Json, key: string)
  {
    Nested(s).Some? && IsObject(Member(Nested(s).value, key))
  }

  /** One CSV line: section, key, value. */
  datatype Row = Row(section: string, key: string, value: Json)

  const Header := Row("section", "key", JStr("value"))

  const ControlOrder: seq<string> := [
    "labor_rate", "margin_percent", "overhead_percent", "misc_percent",
    "small_tools_percent", "large_tools_percent", "waste_theft_percent", "sales_tax_percent"]

  const CellOrder: seq<string> := HoursCells + MaterialCells + PriceCells + DaysCells

  const HoursCells: seq<string> := [
    "labor-hours-pricing-sheet", "summaryAdjustedHours", "summaryAdditionalHours",
    "summaryTotalHours", "summaryTotalLaborCost"]

  const MaterialCells: seq<string> := [
    "material-cost-price-sheet", "miscMaterialValue", "smallToolsValue", "largeToolsValue",
    "wasteTheftValue", "taxableMaterialValue", "salesTaxValue", "totalMaterialCostValue"]

  const PriceCells: seq<string> := [
    "djeValue", "primeCostValue", "overheadValue", "breakEvenValue", "markupValue",
    "profitMarginValue", "estimatedSalesPriceValue"]

  const DaysCells: seq<string> := ["oneManDays", "twoManDays", "fourManDays"]

  /** The rows of the first loop: each key of `order` present in the dict. */
  function FixedRows(section: string, order: seq<string>, es: seq<(string, Json)>): seq<Row>
    decreases |order|
  {
    if order == [] then []
    else
      var k := order[|order| - 1];
      FixedRows(section, order[..|order| - 1], es) +
        (if HasKey(es, k) then [Row(section, k, Get(es, k).value)] else [])
  }

  /** The rows of the second loop: each entry, in dict order, whose key is
      not in `order`. */
  function RestRows(section: string, order: seq<string>, es: seq<(string, Json)>): seq<Row>
    decreases |es|
  {
    if es == [] then []
    else
      var e := es[|es| - 1];
      RestRows(section, order, es[..|es| - 1]) +
        (if e.0 !in order then [Row(section, e.0, e.1)] else [])
  }

  function SectionRows(section: string, order: seq<string>, es: seq<(string, Json)>): seq<Row>
  {
    FixedRows(section, order, es) + RestRows(section, order, es)
  }

  /** summary["totals"] when the summary is an object holding an object there. */
  function Totals(summary: Json): Option<seq<(string, Json)>>
  {
    if summary.JObj? && IsObject(Member(summary, "totals")) then Some(Member(summary, "totals").value.entries) else None
  }

  /** The CSV lines for the three sections found in the summary: an empty
      section writes nothing, and totals are written only without cells. */
  function CsvRows(controls: Option<seq<(string, Json)>>, cells: Option<seq<(string, Json)>>,
                   totals: Option<seq<(string, Json)>>): seq<Row>
  {
    [Header] + ControlsRows(controls) + CellsRows(cells) + TotalsRows(cells, totals)
  }

  function ControlsRows(controls: Option<seq<(string, Json)>>): seq<Row>
  {
    if controls.Some? && controls.value != [] then SectionRows("controls", ControlOrder, controls.value) else []
  }

  function CellsRows(cells: Option<seq<(string, Json)>>): seq<Row>
  {
    if cells.Some? && cells.value != [] then SectionRows("cells", CellOrder, cells.value) else []
  }

  /** The totals are written, in dict order, only when there are no cells. */
  function TotalsRows(cells: Option<seq<(string, Json)>>, totals: Option<seq<(string, Json)>>): seq<Row>
  {
    if (cells.None? || cells.value == []) && totals.Some? && totals.value != [] then RestRows("totals", [], totals.value) else []
  }

  /** The whole CSV for a work payload. */
  function SummaryCsv(workPayload: Json): (r: Result<seq<Row>, Failure>)
    ensures r.Err? <==> ResolveSummary(workPayload).Err?
    ensures r.Err? ==> r.error == ResolveSummary(workPayload).error
  {
    match ResolveSummary(workPayload)
    case Err(e) => Err(e)
    case Ok(summary) => Ok(CsvRows(Section(summary, "controls"), Section(summary, "cells"), Totals(summary)))
  }

  /** No string occurs twice. */
  predicate NoDup(s: seq<string>)
  {
    forall i, j :: 0 <= i < j < |s| ==> s[i] != s[j]
  }

  /** list.index(k): the first position of k. */
  function Pos(s: seq<string>, k: string): (r: nat)
    requires k in s
    ensures r < |s| && s[r] == k
    ensures forall j :: 0 <= j < r ==> s[j] != k
  {
    if s[0] == k then 0 else 1 + Pos(s[1..], k)
  }

  lemma PosPrefix(s: seq<string>, m: nat, k: string)
    requires m <= |s| && k in s[..m]
    ensures Pos(s, k) == Pos(s[..m], k)
  {
    var p := Pos(s[..m], k);
    assert s[p] == k;
  }

  lemma PosLast(s: seq<string>)
    requires NoDup(s) && s != []
    ensures Pos(s, s[|s| - 1]) == |s| - 1
  {
  }

  /** Every fixed row names a key of `order` held by the dict, with its value. */
  predicate FixedSound(section: string, order: seq<string>, es: seq<(string, Json)>, f: seq<Row>)
  {
    forall i :: 0 <= i < |f| ==>
      f[i].key in order && HasKey(es, f[i].key) && f[i] == Row(section, f[i].key, Get(es, f[i].key).value)
  }

  /** The fixed rows follow the positions of their keys in `order`. */
  predicate FixedOrdered(order: seq<string>, f: seq<Row>)
  {
    forall i, j :: 0 <= i < j < |f| ==> Before(order, f[i].key, f[j].key)
  }

  /** a and b both occur in s, a first. */
  predicate Before(s: seq<string>, a: string, b: string)
  {
    a in s && b in s && Pos(s, a) < Pos(s, b)
  }

  lemma {:induction false} FixedRowsSound(section: string, order: seq<string>, es: seq<(string, Json)>)
    ensures FixedSound(section, order, es, FixedRows(section, order, es))
    decreases |order|
  {
    if order != [] {
      var n := |order|;
      var o := order[..n - 1];
      var last := order[n - 1];
      FixedRowsSound(section, o, es);
      var f0 := FixedRows(section, o, es);
      var f := FixedRows(section, order, es);
      forall i | 0 <= i < |f|
        ensures f[i].key in order && HasKey(es, f[i].key) && f[i] == Row(section, f[i].key, Get(es, f[i].key).value)
      {
        if i < |f0| {
          assert f[i] == f0[i];
          var q :| 0 <= q < |o| && o[q] == f0[i].key;
          assert order[q] == o[q];
        }
      }
    }
  }

  /** Every key of `order` held by the dict has a row. */
  predicate FixedComplete(order: seq<string>, es: seq<(string, Json)>, f: seq<Row>)
  {
    forall k :: k in order && HasKey(es, k) ==> exists i :: 0 <= i < |f| && f[i].key == k
  }

  lemma {:induction false} FixedRowsComplete(section: string, order: seq<string>, es: seq<(string, Json)>)
    ensures FixedComplete(order, es, FixedRows(section, order, es))
    decreases |order|
  {
    if order != [] {
      var n := |order|;
      var o := order[..n - 1];
      var last := order[n - 1];
      FixedRowsComplete(section, o, es);
      var f0 := FixedRows(section, o, es);
      var f := FixedRows(section, order, es);
      assert FixedComplete(o, es, f0);
      forall k | k in order && HasKey(es, k)
        ensures exists i :: 0 <= i < |f| && f[i].key == k
      {
        if k == last {
          assert f[|f| - 1].key == k;
        } else {
          var q :| 0 <= q < n && order[q] == k;
          assert k in o by { assert o[q] == k; }
          var i :| 0 <= i < |f0| && f0[i].key == k;
          assert f[i] == f0[i];
        }
      }
    }
  }

  lemma {:induction false} FixedRowsOrdered(section: string, order: seq<string>, es: seq<(string, Json)>)
    requires NoDup(order)
    ensures FixedOrdered(order, FixedRows(section, order, es))
    decreases |order|
  {
    if order != [] {
      var o := order[..|order| - 1];
      assert NoDup(o);
      FixedRowsOrdered(section, o, es);
      FixedOrderedStep(section, order, es);
    } else {
      assert FixedRows(section, order, es) == [];
    }
  }

  /** The inductive step of FixedRowsOrdered. */
  lemma FixedOrderedStep(section: string, order: seq<string>, es: seq<(string, Json)>)
    requires order != [] && NoDup(order)
    requires FixedOrdered(order[..|order| - 1], FixedRows(section, order[..|order| - 1], es))
    ensures FixedOrdered(order, FixedRows(section, order, es))
  {
    var o := order[..|order| - 1];
    FixedRowsSound(section, o, es);
    var f0 := FixedRows(section, o, es);
    var f := FixedRows(section, order, es);
    forall i, j | 0 <= i < j < |f|
      ensures Before(order, f[i].key, f[j].key)
    {
      FixedOrderedPair(section, order, es, f0, f, i, j);
    }
  }

  /** One pair of FixedRowsOrdered, from the order of the rows for `order`
      without its last key. */
  lemma FixedOrderedPair(section: string, order: seq<string>, es: seq<(string, Json)>, f0: seq<Row>, f: seq<Row>, i: int, j: int)
    requires order != [] && NoDup(order)
    requires f0 == FixedRows(section, order[..|order| - 1], es) && f == FixedRows(section, order, es)
    requires FixedSound(section, order[..|order| - 1], es, f0) && FixedOrdered(order[..|order| - 1], f0)
    requires 0 <= i < j < |f|
    ensures Before(order, f[i].key, f[j].key)
  {
    var n := |order|;
    var o := order[..n - 1];
    var last := order[n - 1];
    assert f == f0 + (if HasKey(es, last) then [Row(section, last, Get(es, last).value)] else []);
    assert f[i] == f0[i];
    var a := f[i].key;
    assert a in o;
    PosPrefix(order, n - 1, a);
    if j < |f0| {
      assert f[j] == f0[j];
      var b := f[j].key;
      assert b in o;
      PosPrefix(order, n - 1, b);
    } else {
      PosLast(order);
      assert f[j].key == last;
    }
  }

  lemma KeysPrefix(es: seq<(string, Json)>, m: nat)
    requires m <= |es|
    ensures Keys(es[..m]) == Keys(es)[..m]
  {
  }

  /** Every other row names a key outside `order` held by the dict, with its value. */
  predicate RestSound(section: string, order: seq<string>, es: seq<(string, Json)>, g: seq<Row>)
  {
    forall i :: 0 <= i < |g| ==>
      g[i].key !in order && HasKey(es, g[i].key) && g[i] == Row(section, g[i].key, Get(es, g[i].key).value)
  }

  /** Every key of the dict outside `order` has a row. */
  ghost predicate RestComplete(order: seq<string>, es: seq<(string, Json)>, g: seq<Row>)
  {
    forall k :: HasKey(es, k) && k !in order ==> exists i :: 0 <= i < |g| && g[i].key == k
  }

  /** The other rows follow the dict's order. */
  predicate RestOrdered(es: seq<(string, Json)>, g: seq<Row>)
  {
    forall i, j :: 0 <= i < j < |g| ==> Before(Keys(es), g[i].key, g[j].key)
  }

  lemma {:induction false} RestRowsSound(section: string, order: seq<string>, es: seq<(string, Json)>)
    requires UniqueKeys(es)
    ensures RestSound(section, order, es, RestRows(section, order, es))
    decreases |es|
  {
    if es != [] {
      var n := |es|;
      var e0 := es[..n - 1];
      assert UniqueKeys(e0);
      RestRowsSound(section, order, e0);
      var g0 := RestRows(section, order, e0);
      var g := RestRows(section, order, es);
      assert RestSound(section, order, e0, g0);
      KeysPrefix(es, n - 1);
      GetUnique(es, n - 1);
      forall i | 0 <= i < |g|
        ensures g[i].key !in order && HasKey(es, g[i].key) && g[i] == Row(section, g[i].key, Get(es, g[i].key).value)
      {
        if i < |g0| {
          assert g[i] == g0[i];
          var k := g0[i].key;
          assert HasKey(e0, k);
          var p := Pos(Keys(e0), k);
          assert Keys(es)[p] == k;
          GetUnique(e0, p);
          GetUnique(es, p);
        } else {
          assert Keys(es)[n - 1] == es[n - 1].0;
        }
      }
    }
  }

  lemma {:induction false} RestRowsComplete(section: string, order: seq<string>, es: seq<(string, Json)>)
    ensures RestComplete(order, es, RestRows(section, order, es))
    decreases |es|
  {
    if es != [] {
      var n := |es|;
      var e0 := es[..n - 1];
      RestRowsComplete(section, order, e0);
      var g0 := RestRows(section, order, e0);
      var g := RestRows(section, order, es);
      assert RestComplete(order, e0, g0);
      KeysPrefix(es, n - 1);
      forall k | HasKey(es, k) && k !in order
        ensures exists i :: 0 <= i < |g| && g[i].key == k
      {
        if k == es[n - 1].0 {
          assert g[|g| - 1].key == k;
        } else {
          var q :| 0 <= q < n && Keys(es)[q] == k;
          assert q < n - 1;
          assert Keys(e0)[q] == k;
          var i :| 0 <= i < |g0| && g0[i].key == k;
          assert g[i] == g0[i];
        }
      }
    }
  }

  lemma {:induction false} RestRowsOrdered(section: string, order: seq<string>, es: seq<(string, Json)>)
    requires UniqueKeys(es)
    ensures RestOrdered(es, RestRows(section, order, es))
    decreases |es|
  {
    if es != [] {
      var e0 := es[..|es| - 1];
      assert UniqueKeys(e0);
      RestRowsOrdered(section, order, e0);
      RestOrderedStep(section, order, es);
    } else {
      assert RestRows(section, order, es) == [];
    }
  }

  /** The inductive step of RestRowsOrdered. */
  lemma RestOrderedStep(section: string, order: seq<string>, es: seq<(string, Json)>)
    requires es != [] && UniqueKeys(es)
    requires RestOrdered(es[..|es| - 1], RestRows(section, order, es[..|es| - 1]))
    ensures RestOrdered(es, RestRows(section, order, es))
  {
    var e0 := es[..|es| - 1];
    RestRowsSound(section, order, e0);
    var g0 := RestRows(section, order, e0);
    var g := RestRows(section, order, es);
    forall i, j | 0 <= i < j < |g|
      ensures Before(Keys(es), g[i].key, g[j].key)
    {
      RestOrderedPair(section, order, es, g0, g, i, j);
    }
  }

  /** One pair of RestRowsOrdered, from the order of the rows without the
      dict's last entry. */
  lemma RestOrderedPair(section: string, order: seq<string>, es: seq<(string, Json)>, g0: seq<Row>, g: seq<Row>, i: int, j: int)
    requires es != [] && UniqueKeys(es)
    requires g0 == RestRows(section, order, es[..|es| - 1]) && g == RestRows(section, order, es)
    requires RestSound(section, order, es[..|es| - 1], g0) && RestOrdered(es[..|es| - 1], g0)
    requires 0 <= i < j < |g|
    ensures Before(Keys(es), g[i].key, g[j].key)
  {
    var n := |es|;
    var e0 := es[..n - 1];
    assert g == g0 + (if es[n - 1].0 !in order then [Row(section, es[n - 1].0, es[n - 1].1)] else []);
    assert g[i] == g0[i];
    if j < |g0| {
      assert g[j] == g0[j];
      PosInPrefix(es, g0[i].key, g0[j].key);
    } else {
      assert g[j].key == es[n - 1].0;
      PosBeforeLast(es, g0[i].key);
    }
  }

  /** Keys of the dict without its last entry keep their positions. */
  lemma PosInPrefix(es: seq<(string, Json)>, a: string, b: string)
    requires es != [] && UniqueKeys(es)
    requires HasKey(es[..|es| - 1], a) && HasKey(es[..|es| - 1], b)
    requires Pos(Keys(es[..|es| - 1]), a) < Pos(Keys(es[..|es| - 1]), b)
    ensures HasKey(es, a) && HasKey(es, b) && Pos(Keys(es), a) < Pos(Keys(es), b)
  {
    var n := |es|;
    var ks := Keys(es);
    KeysPrefix(es, n - 1);
    PosPrefix(ks, n - 1, a);
    PosPrefix(ks, n - 1, b);
  }

  /** A key of the dict without its last entry comes before the last key. */
  lemma PosBeforeLast(es: seq<(string, Json)>, a: string)
    requires es != [] && UniqueKeys(es)
    requires HasKey(es[..|es| - 1], a)
    ensures HasKey(es, a) && HasKey(es, es[|es| - 1].0) && Pos(Keys(es), a) < Pos(Keys(es), es[|es| - 1].0)
  {
    var n := |es|;
    var ks := Keys(es);
    KeysPrefix(es, n - 1);
    assert NoDup(ks);
    PosLast(ks);
    PosPrefix(ks, n - 1, a);
    assert ks[n - 1] == es[n - 1].0;
  }

  lemma SectionRowsValues(section: string, order: seq<string>, es: seq<(string, Json)>)
    requires UniqueKeys(es)
    ensures var rows := SectionRows(section, order, es);
      forall i :: 0 <= i < |rows| ==>
        rows[i].section == section && HasKey(es, rows[i].key) && rows[i].value == Get(es, rows[i].key).value
  {
    var f := FixedRows(section, order, es);
    var g := RestRows(section, order, es);
    FixedRowsSound(section, order, es);
    RestRowsSound(section, order, es);
    var rows := f + g;
    forall i | 0 <= i < |rows|
      ensures rows[i].section == section && HasKey(es, rows[i].key) && rows[i].value == Get(es, rows[i].key).value
    {
      RowValue(section, order, es, f, g, i);
    }
    assert SectionRows(section, order, es) == rows;
  }

  /** One row of SectionRowsValues. */
  lemma RowValue(section: string, order: seq<string>, es: seq<(string, Json)>, f: seq<Row>, g: seq<Row>, i: int)
    requires FixedSound(section, order, es, f) && RestSound(section, order, es, g)
    requires 0 <= i < |f + g|
    ensures (f + g)[i].section == section && HasKey(es, (f + g)[i].key) && (f + g)[i].value == Get(es, (f + g)[i].key).value
  {
    if i < |f| {
      assert (f + g)[i] == f[i];
    } else {
      assert (f + g)[i] == g[i - |f|];
    }
  }

  lemma SectionRowsCover(section: string, order: seq<string>, es: seq<(string, Json)>)
    requires UniqueKeys(es)
    ensures var rows := SectionRows(section, order, es);
      forall k :: (exists i :: 0 <= i < |rows| && rows[i].key == k) <==> HasKey(es, k)
  {
    var f := FixedRows(section, order, es);
    var g := RestRows(section, order, es);
    FixedRowsSound(section, order, es);
    RestRowsSound(section, order, es);
    FixedRowsComplete(section, order, es);
    RestRowsComplete(section, order, es);
    var rows := f + g;
    assert SectionRows(section, order, es) == rows;
    forall k ensures (exists i :: 0 <= i < |rows| && rows[i].key == k) <==> HasKey(es, k) {
      CoverKey(section, order, es, f, g, k);
    }
  }

  /** One key of SectionRowsCover. */
  lemma CoverKey(section: string, order: seq<string>, es: seq<(string, Json)>, f: seq<Row>, g: seq<Row>, k: string)
    requires FixedSound(section, order, es, f) && RestSound(section, order, es, g)
    requires FixedComplete(order, es, f) && RestComplete(order, es, g)
    ensures (exists i :: 0 <= i < |f + g| && (f + g)[i].key == k) <==> HasKey(es, k)
  {
    var rows := f + g;
    if exists i :: 0 <= i < |rows| && rows[i].key == k {
      var i :| 0 <= i < |rows| && rows[i].key == k;
      if i < |f| { assert rows[i] == f[i]; } else { assert rows[i] == g[i - |f|]; }
    }
    if HasKey(es, k) {
      if k in order {
        var i :| 0 <= i < |f| && f[i].key == k;
        assert rows[i] == f[i];
      } else {
        var i :| 0 <= i < |g| && g[i].key == k;
        assert rows[|f| + i] == g[i];
      }
    }
  }

  lemma SectionRowsDistinct(section: string, order: seq<string>, es: seq<(string, Json)>)
    requires NoDup(order) && UniqueKeys(es)
    ensures var rows := SectionRows(section, order, es);
      forall i, j :: 0 <= i < j < |rows| ==> rows[i].key != rows[j].key
  {
    var f := FixedRows(section, order, es);
    var g := RestRows(section, order, es);
    FixedRowsSound(section, order, es);
    FixedRowsOrdered(section, order, es);
    RestRowsSound(section, order, es);
    RestRowsOrdered(section, order, es);
    assert FixedSound(section, order, es, f) && FixedOrdered(order, f);
    assert RestSound(section, order, es, g) && RestOrdered(es, g);
    var rows := f + g;
    forall i, j | 0 <= i < j < |rows| ensures rows[i].key != rows[j].key {
      if j < |f| {
        assert rows[i] == f[i] && rows[j] == f[j];
      } else if i >= |f| {
        assert rows[i] == g[i - |f|] && rows[j] == g[j - |f|];
      } else {
        assert rows[i] == f[i] && rows[j] == g[j - |f|];
      }
    }
  }

  /** Each key of the section is written exactly once, with its value: the
      rows hold precisely the keys of the dict, none twice. */
  lemma SectionRowsExactlyOnce(section: string, order: seq<string>, es: seq<(string, Json)>)
    requires NoDup(order) && UniqueKeys(es)
    ensures var rows := SectionRows(section, order, es);
      (forall k :: (exists i :: 0 <= i < |rows| && rows[i].key == k) <==> HasKey(es, k)) &&
      (forall i, j :: 0 <= i < j < |rows| ==> rows[i].key != rows[j].key) &&
      (forall i :: 0 <= i < |rows| ==>
        rows[i].section == section && HasKey(es, rows[i].key) && rows[i].value == Get(es, rows[i].key).value)
  {
    SectionRowsValues(section, order, es);
    SectionRowsCover(section, order, es);
    SectionRowsDistinct(section, order, es);
  }

  /** The fixed-order keys come first, in the fixed order; the others follow
      in dict order. */
  lemma SectionRowsOrder(section: string, order: seq<string>, es: seq<(string, Json)>)
    requires NoDup(order) && UniqueKeys(es)
    ensures var rows := SectionRows(section, order, es);
      (forall i, j :: 0 <= i < j < |rows| && rows[j].key in order ==>
        rows[i].key in order && Pos(order, rows[i].key) < Pos(order, rows[j].key)) &&
      (forall i, j :: 0 <= i < j < |rows| && rows[i].key !in order ==>
        rows[j].key !in order && HasKey(es, rows[i].key) && HasKey(es, rows[j].key) &&
        Pos(Keys(es), rows[i].key) < Pos(Keys(es), rows[j].key))
  {
    var f := FixedRows(section, order, es);
    var g := RestRows(section, order, es);
    FixedRowsSound(section, order, es);
    FixedRowsOrdered(section, order, es);
    RestRowsSound(section, order, es);
    RestRowsOrdered(section, order, es);
    assert FixedSound(section, order, es, f) && FixedOrdered(order, f);
    assert RestSound(section, order, es, g) && RestOrdered(es, g);
    FixedRowsFirst(section, order, es, f, g);
    RestRowsInOrder(section, order, es, f, g);
  }

  /** A row whose key is in `order` has only fixed rows, earlier in `order`, before it. */
  lemma FixedRowsFirst(section: string, order: seq<string>, es: seq<(string, Json)>, f: seq<Row>, g: seq<Row>)
    requires FixedSound(section, order, es, f) && FixedOrdered(order, f) && RestSound(section, order, es, g)
    ensures forall i, j :: 0 <= i < j < |f + g| && (f + g)[j].key in order ==>
      (f + g)[i].key in order && Pos(order, (f + g)[i].key) < Pos(order, (f + g)[j].key)
  {
    var rows := f + g;
    forall i, j | 0 <= i < j < |rows| && rows[j].key in order
      ensures rows[i].key in order && Pos(order, rows[i].key) < Pos(order, rows[j].key)
    {
      if j < |f| {
        assert rows[i] == f[i] && rows[j] == f[j];
      } else {
        assert false;
      }
    }
  }

  /** A row whose key is outside `order` has only such rows, later in the dict, after it. */
  lemma RestRowsInOrder(section: string, order: seq<string>, es: seq<(string, Json)>, f: seq<Row>, g: seq<Row>)
    requires FixedSound(section, order, es, f) && RestSound(section, order, es, g) && RestOrdered(es, g)
    ensures forall i, j :: 0 <= i < j < |f + g| && (f + g)[i].key !in order ==>
      (f + g)[j].key !in order && HasKey(es, (f + g)[i].key) && HasKey(es, (f + g)[j].key) &&
      Pos(Keys(es), (f + g)[i].key) < Pos(Keys(es), (f + g)[j].key)
  {
    var rows := f + g;
    forall i, j | 0 <= i < j < |rows| && rows[i].key !in order
      ensures rows[j].key !in order && HasKey(es, rows[i].key) && HasKey(es, rows[j].key) &&
        Pos(Keys(es), rows[i].key) < Pos(Keys(es), rows[j].key)
    {
      if i >= |f| {
        assert rows[i] == g[i - |f|] && rows[j] == g[j - |f|];
      } else {
        assert false;
      }
    }
  }

  /** A key's length and first character, which already tell the keys of
      the two fixed lists apart. */
  function Signature(s: string): int
    requires s != []
  {
    |s| * 65536 + s[0] as int
  }

  /** Every row of the second loop is in its section. */
  lemma {:induction false} RestRowsSection(section: string, order: seq<string>, es: seq<(string, Json)>)
    ensures forall i :: 0 <= i < |RestRows(section, order, es)| ==> RestRows(section, order, es)[i].section == section
    decreases |es|
  {
    if es != [] {
      RestRowsSection(section, order, es[..|es| - 1]);
    }
  }

  /** With no fixed order, the second loop writes every entry. */
  lemma {:induction false} RestRowsAll(section: string, es: seq<(string, Json)>)
    ensures |RestRows(section, [], es)| == |es|
    decreases |es|
  {
    if es != [] {
      RestRowsAll(section, es[..|es| - 1]);
    }
  }

  /** Every row written for a section is in that section. */
  lemma SectionRowsSection(section: string, order: seq<string>, es: seq<(string, Json)>)
    ensures forall i :: 0 <= i < |SectionRows(section, order, es)| ==> SectionRows(section, order, es)[i].section == section
  {
    FixedRowsSound(section, order, es);
    RestRowsSection(section, order, es);
    var f: seq<Row> := FixedRows(section, order, es);
    var g: seq<Row> := RestRows(section, order, es);
    forall i: int | 0 <= i < |f + g|
      ensures (f + g)[i].section == section
    {
      if i >= |f| {
        assert (f + g)[i] == g[i - |f|];
      }
    }
  }

  /** Where a section comes in the export: controls, then cells, then totals. */
  function SectionRank(section: string): int
  {
    if section == "controls" then 0 else if section == "cells" then 1 else 2
  }

  /** Every row is in the given section. */
  predicate AllIn(rs: seq<Row>, section: string)
  {
    forall i :: 0 <= i < |rs| ==> rs[i].section == section
  }

  /** The section of each line of the header followed by the three parts. */
  lemma LayoutSections(c: seq<Row>, d: seq<Row>, t: seq<Row>)
    requires AllIn(c, "controls") && AllIn(d, "cells") && AllIn(t, "totals")
    ensures var rows := [Header] + c + d + t;
      forall i :: 1 <= i < |rows| ==>
        rows[i].section == (if i <= |c| then "controls" else if i <= |c| + |d| then "cells" else "totals")
  {
    var rows := [Header] + c + d + t;
    forall i: int | 1 <= i < |rows|
      ensures rows[i].section == (if i <= |c| then "controls" else if i <= |c| + |d| then "cells" else "totals")
    {
      if i <= |c| {
        assert rows[i] == c[i - 1];
      } else if i <= |c| + |d| {
        assert rows[i] == d[i - 1 - |c|];
      } else {
        assert rows[i] == t[i - 1 - |c| - |d|];
      }
    }
  }

  /** The header, then the controls, cells and totals parts, in that order;
      a totals row is present exactly when the totals part is not empty. */
  lemma Layout(c: seq<Row>, d: seq<Row>, t: seq<Row>)
    requires AllIn(c, "controls") && AllIn(d, "cells") && AllIn(t, "totals")
    ensures var rows := [Header] + c + d + t;
      && rows[0] == Header
      && (forall i :: 1 <= i < |rows| ==> rows[i].section == "controls" || rows[i].section == "cells" || rows[i].section == "totals")
      && (forall i, j :: 1 <= i < j < |rows| ==> SectionRank(rows[i].section) <= SectionRank(rows[j].section))
      && ((exists i :: 1 <= i < |rows| && rows[i].section == "totals") <==> t != [])
  {
    var rows := [Header] + c + d + t;
    LayoutSections(c, d, t);
    if t != [] {
      assert rows[1 + |c| + |d|].section == "totals";
    }
  }

  /** The export CSV starts with its header; the controls rows come first,
      then the cells rows, then the totals rows; and totals rows are written
      exactly when there are no cells and the totals are a non-empty object. */
  lemma CsvRowsMeaning(controls: Option<seq<(string, Json)>>, cells: Option<seq<(string, Json)>>,
                       totals: Option<seq<(string, Json)>>)
    ensures var rows := CsvRows(controls, cells, totals);
      && rows[0] == Header
      && (forall i :: 1 <= i < |rows| ==> rows[i].section == "controls" || rows[i].section == "cells" || rows[i].section == "totals")
      && (forall i, j :: 1 <= i < j < |rows| ==> SectionRank(rows[i].section) <= SectionRank(rows[j].section))
      && ((exists i :: 1 <= i < |rows| && rows[i].section == "totals") <==>
          (cells.None? || cells.value == []) && totals.Some? && totals.value != [])
  {
    if controls.Some? && controls.value != [] {
      SectionRowsSection("controls", ControlOrder, controls.value);
    }
    if cells.Some? && cells.value != [] {
      SectionRowsSection("cells", CellOrder, cells.value);
    }
    if (cells.None? || cells.value == []) && totals.Some? && totals.value != [] {
      RestRowsSection("totals", [], totals.value);
      RestRowsAll("totals", totals.value);
    }
    var c, d, t := ControlsRows(controls), CellsRows(cells), TotalsRows(cells, totals);
    assert AllIn(c, "controls") && AllIn(d, "cells") && AllIn(t, "totals");
    assert t != [] <==> (cells.None? || cells.value == []) && totals.Some? && totals.value != [];
    Layout(c, d, t);
  }

  /** The controls list names no key twice. */
  lemma ControlOrderDistinct()
    ensures NoDup(ControlOrder)
  {
    var sigs := seq(|ControlOrder|, i requires 0 <= i < |ControlOrder| => Signature(ControlOrder[i]));
    assert sigs == [Signature(ControlOrder[0]), Signature(ControlOrder[1])] + sigs[2..];
  }

  /** Two lists without duplicates and without a common entry join into one. */
  lemma NoDupJoin(a: seq<string>, b: seq<string>)
    requires NoDup(a) && NoDup(b)
    requires forall x :: x in a ==> x !in b
    ensures NoDup(a + b)
  {
    forall i, j | 0 <= i < j < |a + b|
      ensures (a + b)[i] != (a + b)[j]
    {
      if j >= |a| && i < |a| {
        assert (a + b)[i] in a && (a + b)[j] in b;
      }
    }
  }

  /** No group of the cells list names a key twice. */
  lemma CellGroupsDistinct()
    ensures NoDup(HoursCells) && NoDup(MaterialCells) && NoDup(PriceCells) && NoDup(DaysCells)
  {
  }

  /** No key of the cells list is in two groups. */
  lemma CellGroupsDisjoint()
    ensures forall x :: x in HoursCells ==> x !in MaterialCells
    ensures forall x :: x in HoursCells + MaterialCells ==> x !in PriceCells
    ensures forall x :: x in HoursCells + MaterialCells + PriceCells ==> x !in DaysCells
  {
  }

  /** The cells list names no key twice. */
  lemma CellOrderDistinct()
    ensures NoDup(CellOrder)
  {
    CellGroupsDistinct();
    CellGroupsDisjoint();
    NoDupJoin(HoursCells, MaterialCells);
    NoDupJoin(HoursCells + MaterialCells, PriceCells);
    NoDupJoin(HoursCells + MaterialCells + PriceCells, DaysCells);
  }

  /** csv.writer over a StringIO buffer: the rows written so far. */
  class CsvWriter {
    var rows: seq<Row>

    constructor()
      ensures rows == []
    {
      rows := [];
    }

    method WriteRow(r: Row)
      modifies this
      ensures rows == old(rows) + [r]
    {
      rows := rows + [r];
    }
  }

  /** The two loops for one section: the present fixed-order keys, then the
      other keys in dict order. */
  method WriteSection(w: CsvWriter, section: string, order: seq<string>, es: seq<(string, Json)>)
    modifies w
    ensures w.rows == old(w.rows) + SectionRows(section, order, es)
  {
    WriteFixed(w, section, order, es);
    WriteRest(w, section, order, es);
  }

  /** The first loop: each key of `order` that the section holds. */
  method WriteFixed(w: CsvWriter, section: string, order: seq<string>, es: seq<(string, Json)>)
    modifies w
    ensures w.rows == old(w.rows) + FixedRows(section, order, es)
  {
    var i := 0;
    while i < |order|
      invariant 0 <= i <= |order|
      invariant w.rows == old(w.rows) + FixedRows(section, order[..i], es)
    {
      var k := order[i];
      ghost var written := FixedRows(section, order[..i], es);
      FixedRowsStep(section, order, es, i);
      if HasKey(es, k) {
        w.WriteRow(Row(section, k, Get(es, k).value));
        assert w.rows == old(w.rows) + (written + [Row(section, k, Get(es, k).value)]);
      }
      i := i + 1;
    }
    assert order[..i] == order;
  }

  /** The second loop: each entry whose key is not in `order`. */
  method WriteRest(w: CsvWriter, section: string, order: seq<string>, es: seq<(string, Json)>)
    modifies w
    ensures w.rows == old(w.rows) + RestRows(section, order, es)
  {
    var j := 0;
    while j < |es|
      invariant 0 <= j <= |es|
      invariant w.rows == old(w.rows) + RestRows(section, order, es[..j])
    {
      RestRowsStep(section, order, es, j);
      if es[j].0 !in order {
        w.WriteRow(Row(section, es[j].0, es[j].1));
      }
      j := j + 1;
    }
    assert es[..j] == es;
  }

  lemma FixedRowsStep(section: string, order: seq<string>, es: seq<(string, Json)>, i: int)
    requires 0 <= i < |order|
    ensures FixedRows(section, order[..i + 1], es)
      == FixedRows(section, order[..i], es) + (if HasKey(es, order[i]) then [Row(section, order[i], Get(es, order[i]).value)] else [])
  {
    assert order[..i + 1][..i] == order[..i];
  }

  lemma RestRowsStep(section: string, order: seq<string>, es: seq<(string, Json)>, j: int)
    requires 0 <= j < |es|
    ensures RestRows(section, order, es[..j + 1])
      == RestRows(section, order, es[..j]) + (if es[j].0 !in order then [Row(section, es[j].0, es[j].1)] else [])
  {
    assert es[..j + 1][..j] == es[..j];
  }

  /** The writes of the export route once the sections are known. */
  method WriteCsv(controls: Option<seq<(string, Json)>>, cells: Option<seq<(string, Json)>>,
                  totals: Option<seq<(string, Json)>>) returns (rows: seq<Row>)
    ensures rows == CsvRows(controls, cells, totals)
  {
    var w := new CsvWriter();
    w.WriteRow(Header);
    if controls.Some? && controls.value != [] {
      WriteSection(w, "controls", ControlOrder, controls.value);
    }
    assert w.rows == [Header] + ControlsRows(controls);
    if cells.Some? && cells.value != [] {
      WriteSection(w, "cells", CellOrder, cells.value);
    }
    assert w.rows == [Header] + ControlsRows(controls) + CellsRows(cells);
    if (cells.None? || cells.value == []) && totals.Some? && totals.value != [] {
      WriteRest(w, "totals", [], totals.value);
    }
    return w.rows;
  }

  /** GET /estimates/<id>/export/summary.csv: the header, the controls rows,
      the cells rows and, only when there are no cells, the totals rows. */
  method ExportSummaryCsv(workPayload: Json) returns (r: Result<seq<Row>, Failure>)
    ensures r == SummaryCsv(workPayload)
  {
    var resolved := ResolveSummary(workPayload);
    if resolved.Err? {
      return Err(resolved.error);
    }
    var summary := resolved.value;
    var rows := WriteCsv(Section(summary, "controls"), Section(summary, "cells"), Totals(summary));
    return Ok(rows);
  }

  // ---- estimates index CSV: the two quantised totals

  /** to_dec(v): None and "" read as 0; numbers as themselves; other text
      through Decimal(), which fails on anything that is not a number, as it
      does on booleans, lists and objects. */
  function ToDec(v: Option<Json>): (r: Result<real, Failure>)
    ensures v.None? || v == Some(JNull) || v == Some(JStr("")) ==> r == Ok(0.0)
    ensures v.Some? && v.value.JInt? ==> r == Ok(v.value.i as real)
    ensures v.Some? && (v.value.JBool? || v.value.JArr? || v.value.JObj?) ==> r == Err(InvalidOperation)
    ensures v.Some? && v.value.JFloat? ==> r == Ok(v.value.r)
    ensures v.Some? && v.value.JStr? && v.value.s != "" && NumParse.PyDecimal(v.value.s).None? ==> r == Err(InvalidOperation)
    ensures v.Some? && v.value.JStr? && AllDigits(v.value.s) && v.value.s != "" ==> r == Ok(NumParse.DigitsValue(v.value.s) as real)
  {
    assert v.Some? && v.value.JStr? && AllDigits(v.value.s) && v.value.s != "" ==>
      NumParse.PyDecimal(v.value.s) == Some(NumParse.DigitsValue(v.value.s) as real) by {
      if v.Some? && v.value.JStr? && AllDigits(v.value.s) && v.value.s != "" {
        NumParse.PyDecimalOfDigits(v.value.s);
      }
    }
    if v.None? then Ok(0.0)
    else match v.value
      case JNull => Ok(0.0)
      case JInt(i) => Ok(i as real)
      case JFloat(x) => Ok(x)
      case JStr(t) =>
        (if t == "" then Ok(0.0)
         else
           match NumParse.PyDecimal(t)
           case None => Err(InvalidOperation)
           case Some(x) => Ok(x))
      case _ => Err(InvalidOperation)
  }

  /** The saved material total and labor hours of one estimate, read from
      payload.totals with `or {}` at each level. */
  function SavedTotals(workPayload: Json): Result<(real, real), Failure>
  {
    var payload := Or(workPayload, JObj([]));
    if !payload.JObj? then Err(AttributeError)
    else
      var totals := OrElse(Get(payload.entries, "totals"), JObj([]));
      if !totals.JObj? then Err(AttributeError)
      else
        match ToDec(Get(totals.entries, "material_cost_price_sheet"))
        case Err(e) => Err(e)
        case Ok(m) =>
          match ToDec(Get(totals.entries, "labor_hours_pricing_sheet"))
          case Err(e) => Err(e)
          case Ok(l) => Ok((m, l))
  }

  /** The two figures of an index CSV line: q2 of the material total and q4
      of the labor hours. */
  function IndexTotals(workPayload: Json): Result<(real, real), Failure>
  {
    match SavedTotals(workPayload)
    case Err(e) => Err(e)
    case Ok((m, l)) => Ok((NumParse.QuantizeHalfUp(m, 2), NumParse.QuantizeHalfUp(l, 4)))
  }

  /** An estimate without saved totals lists 0 and 0, and so does one whose
      totals are blank text. */
  lemma SavedTotalsDefaults()
    ensures SavedTotals(JObj([])) == Ok((0.0, 0.0))
    ensures SavedTotals(JNull) == Ok((0.0, 0.0))
    ensures SavedTotals(JObj([("totals", JObj([("material_cost_price_sheet", JStr(""))]))])) == Ok((0.0, 0.0))
  {
    var t := [("material_cost_price_sheet", JStr(""))];
    assert Get(t, "material_cost_price_sheet") == Some(JStr(""));
    assert Get(t, "labor_hours_pricing_sheet") == None by {
      assert Keys(t) == ["material_cost_price_sheet"];
    }
  }

  /** The listed figures are within half a cent and half of 0.0001 hour of
      the saved ones; quantising 0 gives 0. */
  lemma IndexTotalsMeaning(workPayload: Json)
    ensures IndexTotals(workPayload).Ok? <==> SavedTotals(workPayload).Ok?
    ensures IndexTotals(workPayload).Ok? ==>
      (var (m, l) := SavedTotals(workPayload).value;
       var (qm, ql) := IndexTotals(workPayload).value;
       -0.005 <= qm - m <= 0.005 && -0.00005 <= ql - l <= 0.00005)
    ensures SavedTotals(workPayload) == Ok((0.0, 0.0)) ==> IndexTotals(workPayload) == Ok((0.0, 0.0))
  {
    if SavedTotals(workPayload).Ok? {
      var (m, l) := SavedTotals(workPayload).value;
      NumParse.QuantizeClose(m, 2);
      NumParse.QuantizeClose(l, 4);
      assert NumParse.Pow10(2) == 100 && NumParse.Pow10(4) == 10000;
    }
  }
}
