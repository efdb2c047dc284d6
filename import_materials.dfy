// The bulk materials importer (db/import_materials.py): the workbook is
// checked against the unit rule, its columns are normalized, and the rows
// are upserted into materials on the normalized (type, description) key
// among active rows, in pages of 1000 rows per INSERT statement, inside one
// transaction. The importer reports an estimate of the inserted rows from
// the active-row counts before and after.
//
// The workbook is given as rows of cells: a text cell as Some(its str()
// text) and an empty cell as None; a number cell as a Json number. The
// materials table is a sequence of records; the unique index
// ux_materials_active_norm_key is the Valid predicate of the table.
module ImportMaterials {
  import opened Wrappers
  import opened Text
  import opened Json
  import NumParse

  // ----- clean_str and to_decimal -----

  /** clean_str: None is ""; otherwise the stripped text, except that "nan"
      and "none" in any letter case are "". */
  function CleanStr(value: Option<string>): (r: string)
    ensures r == [] || (value.Some? && r == Trim(value.value))
    ensures Lower(r) != "nan" && Lower(r) != "none"
  {
    if value.None? then ""
    else
      var s := Trim(value.value);
      if Lower(s) == "nan" || Lower(s) == "none" then "" else s
  }

  /** The cleaned text has no whitespace at its ends, and cleaning it again
      changes nothing. */
  lemma CleanStrIdempotent(value: Option<string>)
    ensures Trimmed(CleanStr(value))
    ensures CleanStr(Some(CleanStr(value))) == CleanStr(value)
  {
    var c := CleanStr(value);
    if c == [] {
      TrimOfTrimmed(c);
    } else {
      TrimTrimmed(value.value);
      TrimOfTrimmed(c);
    }
  }

  lemma TrimOfTrimmed(s: string)
    requires Trimmed(s)
    ensures Trim(s) == s
  {
    TrimProps(s);
  }

  /** The placeholders pandas and Python print for a missing value clean to
      "" in any letter case and with surrounding whitespace; other text is
      kept. */
  lemma CleanStrPlaceholders()
    ensures CleanStr(Some("NaN")) == ""
    ensures CleanStr(Some(" None")) == ""
    ensures CleanStr(Some("nano")) == "nano"
  {
    TrimOfTrimmed("NaN");
    TrimOfTrimmed("nano");
    assert TrimStart(" None") == TrimStart("None");
    TrimOfTrimmed("None");
  }

  /** to_decimal: the default for a value that cleans to "" or that
      Decimal() refuses, otherwise the decimal it denotes. */
  function ToDecimal(value: Option<string>, default: real): (d: real)
  {
    var s := CleanStr(value);
    if s == "" then default else NumParse.PyDecimal(s).GetOr(default)
  }

  /** A missing, blank or placeholder value gives the default. */
  lemma ToDecimalBlank(value: Option<string>, default: real)
    requires value.None? || NoSpaceFree(value.value)
    ensures ToDecimal(value, default) == default
  {
    if value.Some? {
      TrimEmpty(value.value);
    }
  }

  /** Text Decimal() refuses gives the default. */
  lemma ToDecimalRefused(value: Option<string>, default: real)
    requires value.Some? && NumParse.PyDecimal(value.value).None?
    ensures ToDecimal(value, default) == default
  {
    var v := value.value;
    if CleanStr(value) != "" {
      TrimTrimmed(v);
      TrimOfTrimmed(Trim(v));
      assert Trim(Trim(v)) == Trim(v);
    }
  }

  /** A plain run of digits gives its value. */
  lemma ToDecimalDigits(value: Option<string>, default: real)
    requires value.Some? && value.value != [] && AllDigits(value.value)
    ensures ToDecimal(value, default) == NumParse.DigitsValue(value.value) as real
  {
    var v := value.value;
    TrimOfTrimmed(v);
    NumParse.PyDecimalOfDigits(v);
    assert Lower(v)[0] == v[0];
  }

  // ----- the unit rule -----

  /** `isin({1, 100, 1000})` on one cell of the raw unit column: a number
      equal to one of them (True counts as 1); text and empty cells fail. */
  predicate UnitValid(cell: Json)
  {
    match cell
    case JInt(i) => i == 1 || i == 100 || i == 1000
    case JFloat(x) => x == 1.0 || x == 100.0 || x == 1000.0
    case JBool(b) => b
    case _ => false
  }

  /** The unit as the integer column holds it once the rule has passed. */
  function UnitValue(cell: Json): (u: int)
    requires UnitValid(cell)
    ensures u == 1 || u == 100 || u == 1000
  {
    match cell
    case JInt(i) => i
    case JFloat(x) => x.Floor
    case JBool(_) => 1
  }

  /** `.unique().tolist()` of the failing cells: each failing value once,
      in the order of its first row. */
  function BadUnits(cells: seq<Json>): (bad: seq<Json>)
    ensures forall i :: 0 <= i < |bad| ==> !UnitValid(bad[i]) && bad[i] in cells
    ensures forall i :: 0 <= i < |cells| && !UnitValid(cells[i]) ==> cells[i] in bad
    ensures forall i, j :: 0 <= i < j < |bad| ==> bad[i] != bad[j]
    ensures bad == [] <==> forall i :: 0 <= i < |cells| ==> UnitValid(cells[i])
  {
    if cells == [] then []
    else
      var init := cells[..|cells| - 1];
      var c := cells[|cells| - 1];
      var rest := BadUnits(init);
      assert forall i :: 0 <= i < |init| ==> init[i] == cells[i];
      if !UnitValid(c) && c !in rest then rest + [c] else rest
  }

  // ----- column normalization -----

  /** One workbook row, after the column renames. */
  datatype SheetRow = SheetRow(
    materialType: Option<string>,
    sku: Option<string>,
    manufacturer: Option<string>,
    itemDescription: Option<string>,
    vendor: Option<string>,
    price: Json,
    laborUnit: Json,
    unitQuantitySize: Json,
    materialCostCode: Option<string>,
    matCostCodeDesc: Option<string>,
    laborCostCode: Option<string>,
    laborCostCodeDesc: Option<string>)

  /** `astype(str).str.strip()` as written: an empty cell is NaN, whose
      str() is "nan", and the later NaN-to-None replacement no longer sees it. */
  function TextAsWritten(cell: Option<string>): (r: Option<string>)
    ensures r.Some?
  {
    Some(Trim(cell.GetOr("nan")))
  }

  /** The text columns with the evident intent of "replace NaN with None":
      an empty cell is written as NULL and a present one stripped. */
  function TextCell(cell: Option<string>): (r: Option<string>)
    ensures r.None? <==> cell.None?
    ensures r.Some? ==> r.value == Trim(cell.value) && Trimmed(r.value)
  {
    if cell.None? then None
    else
      TrimTrimmed(cell.value);
      Some(Trim(cell.value))
  }

  /** An empty description cell is stored as the text "nan" as written,
      where NULL was meant. */
  lemma EmptyCellBecomesNan()
    ensures TextAsWritten(None) == Some("nan")
    ensures TextCell(None).None?
  {
    var none: Option<string> := None;
    assert none.GetOr("nan") == "nan";
    NanKept();
    assert TextCell(none).None?;
  }

  lemma NanKept()
    ensures Trim("nan") == "nan"
  {
    TrimKeepsTrimmed("nan");
  }

  /** `pd.to_numeric(errors="coerce")`: numbers as they are, numeric text
      parsed, anything else NaN (None). */
  function NumericCell(cell: Json): Option<real>
  {
    match cell
    case JInt(i) => Some(i as real)
    case JFloat(x) => Some(x)
    case JBool(b) => Some(if b then 1.0 else 0.0)
    case JStr(s) => NumParse.PyDecimal(s)
    case _ => None
  }

  /** A materials row. */
  datatype Record = Record(
    materialType: Option<string>,
    sku: Option<string>,
    manufacturer: Option<string>,
    itemDescription: Option<string>,
    vendor: Option<string>,
    price: real,
    laborUnit: real,
    unitQuantitySize: int,
    materialCostCode: Option<string>,
    matCostCodeDesc: Option<string>,
    laborCostCode: Option<string>,
    laborCostCodeDesc: Option<string>,
    isActive: bool)

  /** The row tuple the importer writes, with the constant is_active = true. */
  function PrepareRow(r: SheetRow): (w: Record)
    requires UnitValid(r.unitQuantitySize)
    ensures w.isActive
    ensures w.price == NumericCell(r.price).GetOr(0.0) && w.laborUnit == NumericCell(r.laborUnit).GetOr(0.0)
    ensures w.unitQuantitySize == 1 || w.unitQuantitySize == 100 || w.unitQuantitySize == 1000
    ensures w.materialType.None? <==> r.materialType.None?
    ensures w.itemDescription.None? <==> r.itemDescription.None?
    ensures w.materialCostCode == r.materialCostCode && w.matCostCodeDesc == r.matCostCodeDesc
    ensures w.laborCostCode == r.laborCostCode && w.laborCostCodeDesc == r.laborCostCodeDesc
  {
    Record(
      TextCell(r.materialType), TextCell(r.sku), TextCell(r.manufacturer),
      TextCell(r.itemDescription), TextCell(r.vendor),
      NumericCell(r.price).GetOr(0.0), NumericCell(r.laborUnit).GetOr(0.0),
      UnitValue(r.unitQuantitySize),
      r.materialCostCode, r.matCostCodeDesc, r.laborCostCode, r.laborCostCodeDesc,
      true)
  }

  function Units(sheet: seq<SheetRow>): (cells: seq<Json>)
    ensures |cells| == |sheet| && forall i :: 0 <= i < |sheet| ==> cells[i] == sheet[i].unitQuantitySize
  {
    seq(|sheet|, i requires 0 <= i < |sheet| => sheet[i].unitQuantitySize)
  }

  /** The module-level preparation: the unit rule raises with the distinct
      failing values before anything else; otherwise every row is
      normalized as written. */
  function Prepare(sheet: seq<SheetRow>): (r: Result<seq<Record>, seq<Json>>)
    ensures r.Err? <==> exists i :: 0 <= i < |sheet| && !UnitValid(sheet[i].unitQuantitySize)
    ensures r.Err? ==> r.error == BadUnits(Units(sheet)) && r.error != []
    ensures r.Ok? ==> |r.value| == |sheet| && forall i :: 0 <= i < |sheet| ==> r.value[i] == PrepareRowAsWritten(sheet[i])
    ensures r.Ok? ==> forall i :: 0 <= i < |r.value| ==> NoCostCodes(r.value[i])
  {
    var bad := BadUnits(Units(sheet));
    if bad != [] then Err(bad)
    else Ok(seq(|sheet|, i requires 0 <= i < |sheet| => PrepareRowAsWritten(sheet[i])))
  }

  /** `df.head(limit)`: the first `limit` rows; a negative limit drops that
      many rows from the end; no limit keeps every row. */
  function Head<T>(rows: seq<T>, limit: Option<int>): (r: seq<T>)
    ensures limit.None? ==> r == rows
    ensures limit.Some? && limit.value >= 0 ==> r == rows[..if limit.value < |rows| then limit.value else |rows|]
    ensures limit.Some? && limit.value < 0 ==> r == rows[..if -limit.value < |rows| then |rows| + limit.value else 0]
    ensures |r| <= |rows| && r == rows[..|r|]
  {
    if limit.None? then rows
    else if limit.value >= 0 then rows[..if limit.value < |rows| then limit.value else |rows|]
    else rows[..if -limit.value < |rows| then |rows| + limit.value else 0]
  }

  // ----- the upsert -----

  /** The index expression (lower(trim(material_type)), lower(trim(item_description)));
      a NULL in either part never conflicts. */
  function NormKey(r: Record): Option<(string, string)>
  {
    if r.materialType.None? || r.itemDescription.None? then None
    else Some((Lower(SqlTrim(r.materialType.value)), Lower(SqlTrim(r.itemDescription.value))))
  }

  /** A prepared row's key is its stripped type and description, lower-cased. */
  lemma PreparedKey(r: SheetRow)
    requires UnitValid(r.unitQuantitySize) && r.materialType.Some? && r.itemDescription.Some?
    ensures NormKey(PrepareRow(r)) == Some((Lower(Trim(r.materialType.value)), Lower(Trim(r.itemDescription.value))))
  {
    var w := PrepareRow(r);
    var t, d := Trim(r.materialType.value), Trim(r.itemDescription.value);
    assert w.materialType == Some(t) && w.itemDescription == Some(d);
    SqlTrimOfTrimmed(t);
    SqlTrimOfTrimmed(d);
  }

  lemma SqlTrimOfTrimmed(s: string)
    requires Trimmed(s)
    ensures SqlTrim(s) == s
  {
    assert SqlTrimStart(s) == s;
    assert SqlTrimEnd(s) == s;
  }

  /** The unique index: no two active rows share a non-NULL key. */
  ghost predicate Valid(rows: seq<Record>)
  {
    forall i, j :: 0 <= i < j < |rows| && rows[i].isActive && rows[j].isActive && NormKey(rows[i]).Some? ==>
      NormKey(rows[i]) != NormKey(rows[j])
  }

  /** The active row holding the key, if any. */
  function FindActive(rows: seq<Record>, key: (string, string)): (r: Option<nat>)
    ensures r.Some? ==> r.value < |rows| && rows[r.value].isActive && NormKey(rows[r.value]) == Some(key)
    ensures r.None? ==> forall i :: 0 <= i < |rows| && rows[i].isActive ==> NormKey(rows[i]) != Some(key)
  {
    if rows == [] then None
    else if rows[0].isActive && NormKey(rows[0]) == Some(key) then Some(0)
    else
      var k := FindActive(rows[1..], key);
      assert forall i :: 1 <= i < |rows| ==> rows[i] == rows[1..][i - 1];
      if k.None? then None else Some(k.value + 1)
  }

  /** DO UPDATE SET: the listed fields come from the new row; the type, the
      description and is_active stay. */
  function Merge(old_: Record, w: Record): (m: Record)
    ensures m.materialType == old_.materialType && m.itemDescription == old_.itemDescription
    ensures m.isActive == old_.isActive && NormKey(m) == NormKey(old_)
    ensures m.sku == w.sku && m.manufacturer == w.manufacturer && m.vendor == w.vendor
    ensures m.price == w.price && m.laborUnit == w.laborUnit && m.unitQuantitySize == w.unitQuantitySize
    ensures m.materialCostCode == w.materialCostCode && m.matCostCodeDesc == w.matCostCodeDesc
    ensures m.laborCostCode == w.laborCostCode && m.laborCostCodeDesc == w.laborCostCodeDesc
  {
    old_.(sku := w.sku, manufacturer := w.manufacturer, vendor := w.vendor,
          price := w.price, laborUnit := w.laborUnit, unitQuantitySize := w.unitQuantitySize,
          materialCostCode := w.materialCostCode, matCostCodeDesc := w.matCostCodeDesc,
          laborCostCode := w.laborCostCode, laborCostCodeDesc := w.laborCostCodeDesc)
  }

  /** One row of the statement: update the active row with its key, or
      insert it as an active row. */
  function UpsertRow(rows: seq<Record>, w: Record): seq<Record>
  {
    var hit := if NormKey(w).Some? then FindActive(rows, NormKey(w).value) else None;
    if hit.Some? then rows[hit.value := Merge(rows[hit.value], w)]
    else rows + [w.(isActive := true)]
  }

  function UpsertAllRows(rows: seq<Record>, batch: seq<Record>): seq<Record>
  {
    if batch == [] then rows
    else UpsertRow(UpsertAllRows(rows, batch[..|batch| - 1]), batch[|batch| - 1])
  }

  function ActiveCount(rows: seq<Record>): nat
  {
    if rows == [] then 0
    else ActiveCount(rows[..|rows| - 1]) + (if rows[|rows| - 1].isActive then 1 else 0)
  }

  lemma {:induction false} ActiveCountUpdate(rows: seq<Record>, i: int, x: Record)
    requires 0 <= i < |rows| && rows[i].isActive == x.isActive
    ensures ActiveCount(rows[i := x]) == ActiveCount(rows)
    decreases |rows|
  {
    if i < |rows| - 1 {
      assert rows[i := x][..|rows| - 1] == rows[..|rows| - 1][i := x];
      ActiveCountUpdate(rows[..|rows| - 1], i, x);
    } else {
      assert rows[i := x][..|rows| - 1] == rows[..|rows| - 1];
    }
  }

  /** One row of the statement either updates in place, keeping every row's
      is_active, or adds one active row; the unique index still holds. */
  lemma UpsertRowProps(rows: seq<Record>, w: Record)
    requires Valid(rows)
    ensures Valid(UpsertRow(rows, w))
    ensures var r := UpsertRow(rows, w);
      (|r| == |rows| && ActiveCount(r) == ActiveCount(rows))
      || (|r| == |rows| + 1 && ActiveCount(r) == ActiveCount(rows) + 1 && r[..|rows|] == rows && r[|rows|].isActive)
  {
    var hit := if NormKey(w).Some? then FindActive(rows, NormKey(w).value) else None;
    var r := UpsertRow(rows, w);
    if hit.Some? {
      ActiveCountUpdate(rows, hit.value, Merge(rows[hit.value], w));
      assert forall i :: 0 <= i < |r| ==> r[i].isActive == rows[i].isActive && NormKey(r[i]) == NormKey(rows[i]);
    } else {
      assert r[..|rows|] == rows;
      forall i, j | 0 <= i < j < |r| && r[i].isActive && r[j].isActive && NormKey(r[i]).Some?
        ensures NormKey(r[i]) != NormKey(r[j])
      {
        if j == |rows| {
          assert NormKey(r[j]) == NormKey(w);
          assert r[i] == rows[i];
        } else {
          assert r[i] == rows[i] && r[j] == rows[j];
        }
      }
    }
  }

  /** The whole batch keeps the index and only adds active rows at the end;
      the number of rows it adds is exactly the growth of the active count. */
  lemma {:induction false} UpsertAllProps(rows: seq<Record>, batch: seq<Record>)
    requires Valid(rows)
    ensures var r := UpsertAllRows(rows, batch);
      && Valid(r) && |r| >= |rows|
      && ActiveCount(r) - ActiveCount(rows) == |r| - |rows|
  {
    if batch != [] {
      var mid := UpsertAllRows(rows, batch[..|batch| - 1]);
      UpsertAllProps(rows, batch[..|batch| - 1]);
      UpsertRowProps(mid, batch[|batch| - 1]);
    }
  }

  /** Two rows of one statement (a page of 1000) with the same key make
      PostgreSQL refuse the statement: ON CONFLICT DO UPDATE cannot touch
      the same row twice. */
  predicate PageClash(batch: seq<Record>)
  {
    exists i, j :: 0 <= i < j < |batch| && i / 1000 == j / 1000 && NormKey(batch[i]).Some? && NormKey(batch[i]) == NormKey(batch[j])
  }

  /** The row tuple as written: the five stripped text columns of
      TextAsWritten, never NULL; the four cost-code columns NULL, because
      the first column selection drops them and they are added back empty;
      otherwise the columns of PrepareRow. */
  function PrepareRowAsWritten(r: SheetRow): (w: Record)
    requires UnitValid(r.unitQuantitySize)
    ensures w.materialType == TextAsWritten(r.materialType) && w.sku == TextAsWritten(r.sku)
    ensures w.manufacturer == TextAsWritten(r.manufacturer) && w.vendor == TextAsWritten(r.vendor)
    ensures w.itemDescription == TextAsWritten(r.itemDescription)
    ensures w.materialType.Some? && w.itemDescription.Some? && NormKey(w).Some?
    ensures w.isActive
    ensures w.price == NumericCell(r.price).GetOr(0.0) && w.laborUnit == NumericCell(r.laborUnit).GetOr(0.0)
    ensures w.unitQuantitySize == 1 || w.unitQuantitySize == 100 || w.unitQuantitySize == 1000
    ensures w.materialCostCode.None? && w.matCostCodeDesc.None?
    ensures w.laborCostCode.None? && w.laborCostCodeDesc.None?
  {
    PrepareRow(r).(
      materialType := TextAsWritten(r.materialType), sku := TextAsWritten(r.sku),
      manufacturer := TextAsWritten(r.manufacturer), itemDescription := TextAsWritten(r.itemDescription),
      vendor := TextAsWritten(r.vendor),
      materialCostCode := None, matCostCodeDesc := None, laborCostCode := None, laborCostCodeDesc := None)
  }

  /** A sheet row carrying the material cost code "M-1": as written the
      importer writes NULL for it and, on a conflict, overwrites the code
      the stored row had; with the columns kept, the code is written. */
  lemma CostCodesWiped(stored: Record, r: SheetRow)
    requires UnitValid(r.unitQuantitySize) && r.materialCostCode == Some("M-1")
    requires stored.materialCostCode == Some("M-1")
    ensures PrepareRowAsWritten(r).materialCostCode == None
    ensures Merge(stored, PrepareRowAsWritten(r)).materialCostCode == None
    ensures Merge(stored, PrepareRowAsWritten(r)).materialCostCode != stored.materialCostCode
    ensures PrepareRow(r).materialCostCode == Some("M-1")
    ensures Merge(stored, PrepareRow(r)).materialCostCode == stored.materialCostCode
  {
  }

  /** Two rows of one type whose description cells are both empty: as
      written both carry the description "nan", share a key, and the
      statement fails; with NULL descriptions they never conflict. */
  lemma EmptyDescriptionsClash(a: SheetRow, b: SheetRow)
    requires UnitValid(a.unitQuantitySize) && UnitValid(b.unitQuantitySize)
    requires a.materialType == b.materialType && a.itemDescription.None? && b.itemDescription.None?
    ensures PageClash([PrepareRowAsWritten(a), PrepareRowAsWritten(b)])
    ensures !PageClash([PrepareRow(a), PrepareRow(b)])
  {
    var batch := [PrepareRowAsWritten(a), PrepareRowAsWritten(b)];
    assert NormKey(batch[0]).Some? && NormKey(batch[0]) == NormKey(batch[1]);
    assert 0 / 1000 == 1 / 1000;
  }

  /** What _upsert_materials ends with. */
  datatype Outcome =
    | DryRun
    | MissingIndex
    | UpsertFailed(reraised: bool)
    | Done(before: nat, after: nat, inserted: nat)

  /** The `max(0, after - before)` estimate. */
  function InsertedEstimate(before: nat, after: nat): (n: nat)
    ensures after >= before ==> n == after - before
    ensures after < before ==> n == 0
  {
    if after > before then after - before else 0
  }

  /** The materials table and whether its unique index exists. */
  class MaterialsDb {
    var rows: seq<Record>
    var hasIndex: bool

    constructor (rows0: seq<Record>, hasIndex0: bool)
      ensures rows == rows0 && hasIndex == hasIndex0
    {
      rows := rows0;
      hasIndex := hasIndex0;
    }

    /** _upsert_materials: a dry run stops before connecting; a missing
        index stops before writing; a page with two rows of one key fails
        the statement and the transaction is rolled back; otherwise every
        row is upserted and the estimate is the number of rows added. */
    method Upsert(batch: seq<Record>, dryRun: bool, failFast: bool) returns (out: Outcome)
      requires Valid(rows)
      modifies this`rows
      ensures Valid(rows)
      ensures dryRun ==> out == DryRun && rows == old(rows)
      ensures !dryRun && !hasIndex ==> out == MissingIndex && rows == old(rows)
      ensures !dryRun && hasIndex && PageClash(batch) ==> out == UpsertFailed(failFast) && rows == old(rows)
      ensures !dryRun && hasIndex && !PageClash(batch) ==>
        && rows == UpsertAllRows(old(rows), batch)
        && out == Done(ActiveCount(old(rows)), ActiveCount(rows), InsertedEstimate(ActiveCount(old(rows)), ActiveCount(rows)))
      ensures (forall j :: 0 <= j < |batch| ==> NoCostCodes(batch[j])) ==>
        forall i :: 0 <= i < |rows| && (i >= |old(rows)| || rows[i] != old(rows)[i]) ==> NoCostCodes(rows[i])
    {
      if dryRun {
        return DryRun;
      }
      if !hasIndex {
        return MissingIndex;
      }
      var before := ActiveCount(rows);
      if PageClash(batch) {
        return UpsertFailed(failFast);
      }
      ghost var start := rows;
      for i := 0 to |batch|
        invariant rows == UpsertAllRows(start, batch[..i])
      {
        assert batch[..i + 1][..i] == batch[..i];
        rows := UpsertRow(rows, batch[i]);
      }
      assert batch[..|batch|] == batch;
      UpsertAllProps(start, batch);
      if forall j :: 0 <= j < |batch| ==> NoCostCodes(batch[j]) {
        UpsertAllClearsCostCodes(start, batch);
      }
      var after := ActiveCount(rows);
      out := Done(before, after, InsertedEstimate(before, after));
    }

    /** The script: the unit rule (checked when the module loads, so also
        on a dry run), then the first `limit` rows, then the upsert. */
    method Run(sheet: seq<SheetRow>, limit: Option<int>, dryRun: bool, failFast: bool)
      returns (r: Result<Outcome, seq<Json>>)
      requires Valid(rows)
      modifies this`rows
      ensures Valid(rows)
      ensures Prepare(sheet).Err? ==> r == Err(Prepare(sheet).error) && rows == old(rows)
      ensures Prepare(sheet).Ok? ==> r.Ok?
      ensures Prepare(sheet).Ok? && dryRun ==> r.value == DryRun && rows == old(rows)
      ensures Prepare(sheet).Ok? && !dryRun && !hasIndex ==> r.value == MissingIndex && rows == old(rows)
      ensures Prepare(sheet).Ok? && !dryRun && hasIndex && PageClash(Head(Prepare(sheet).value, limit)) ==>
        r.value == UpsertFailed(failFast) && rows == old(rows)
      ensures Prepare(sheet).Ok? && !dryRun && hasIndex && !PageClash(Head(Prepare(sheet).value, limit)) ==>
        && rows == UpsertAllRows(old(rows), Head(Prepare(sheet).value, limit))
        && r.value.Done? && r.value.before == ActiveCount(old(rows)) && r.value.after == ActiveCount(rows)
        && |old(rows)| + r.value.inserted == |rows|
        && forall i :: 0 <= i < |rows| && (i >= |old(rows)| || rows[i] != old(rows)[i]) ==> NoCostCodes(rows[i])
    {
      var prepared := Prepare(sheet);
      if prepared.Err? {
        return Err(prepared.error);
      }
      ghost var start := rows;
      var batch := Head(prepared.value, limit);
      assert forall j :: 0 <= j < |batch| ==> batch[j] == prepared.value[j];
      assert forall j :: 0 <= j < |batch| ==> NoCostCodes(batch[j]);
      var out := Upsert(batch, dryRun, failFast);
      if !dryRun && hasIndex && !PageClash(batch) {
        EstimateCountsNewRows(start, batch);
      }
      return Ok(out);
    }
  }

  /** Every cost-code column of the row is NULL. */
  predicate NoCostCodes(w: Record)
  {
    w.materialCostCode.None? && w.matCostCodeDesc.None? && w.laborCostCode.None? && w.laborCostCodeDesc.None?
  }

  /** A batch whose rows carry no cost codes leaves every row it inserts
      or changes without cost codes, and never shortens the table. */
  lemma {:induction false} UpsertAllClearsCostCodes(rows: seq<Record>, batch: seq<Record>)
    requires forall j :: 0 <= j < |batch| ==> NoCostCodes(batch[j])
    ensures var r := UpsertAllRows(rows, batch);
      && |r| >= |rows|
      && forall i :: 0 <= i < |r| && (i >= |rows| || r[i] != rows[i]) ==> NoCostCodes(r[i])
  {
    if batch != [] {
      var init, w := batch[..|batch| - 1], batch[|batch| - 1];
      assert forall j :: 0 <= j < |init| ==> init[j] == batch[j];
      UpsertAllClearsCostCodes(rows, init);
      var mid := UpsertAllRows(rows, init);
      var r := UpsertRow(mid, w);
      assert NoCostCodes(w);
      forall i | 0 <= i < |r| && (i >= |rows| || r[i] != rows[i])
        ensures NoCostCodes(r[i])
      {
        if i < |mid| && r[i] == mid[i] {
          assert i >= |rows| || mid[i] != rows[i];
        }
      }
    }
  }

  /** The estimate never goes negative and counts exactly the rows the
      batch appended, each of them active. */
  lemma EstimateCountsNewRows(rows: seq<Record>, batch: seq<Record>)
    requires Valid(rows)
    ensures var r := UpsertAllRows(rows, batch);
      && InsertedEstimate(ActiveCount(rows), ActiveCount(r)) == |r| - |rows|
      && forall i :: |rows| <= i < |r| ==> r[i].isActive
  {
    UpsertAllNewRowsActive(rows, batch);
    UpsertAllProps(rows, batch);
  }

  lemma {:induction false} UpsertAllNewRowsActive(rows: seq<Record>, batch: seq<Record>)
    requires Valid(rows)
    ensures var r := UpsertAllRows(rows, batch);
      |r| >= |rows| && forall i :: |rows| <= i < |r| ==> r[i].isActive
  {
    if batch != [] {
      var mid := UpsertAllRows(rows, batch[..|batch| - 1]);
      UpsertAllNewRowsActive(rows, batch[..|batch| - 1]);
      UpsertAllProps(rows, batch[..|batch| - 1]);
      UpsertRowProps(mid, batch[|batch| - 1]);
      var hit := if NormKey(batch[|batch| - 1]).Some? then FindActive(mid, NormKey(batch[|batch| - 1]).value) else None;
      if hit.Some? {
        assert hit.value < |mid|;
      }
    }
  }

  /** A batch run twice adds nothing the second time: every key it carries
      is then already held by an active row. */
  lemma SecondRunAddsNothing(rows: seq<Record>, w: Record)
    requires Valid(rows) && NormKey(w).Some?
    ensures |UpsertRow(UpsertRow(rows, w), w)| == |UpsertRow(rows, w)|
  {
    var r := UpsertRow(rows, w);
    var k := NormKey(w).value;
    var hit := FindActive(rows, k);
    if hit.None? {
      assert r[|rows|].isActive && NormKey(r[|rows|]) == Some(k);
      assert FindActive(r, k).Some?;
    } else {
      assert r[hit.value].isActive && NormKey(r[hit.value]) == Some(k);
      assert FindActive(r, k).Some?;
    }
  }
}
