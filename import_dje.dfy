// The bulk DJE (direct job expense) importer (db/import_dje_items.py): the
// text columns are stripped with placeholder texts turned into NULL, the cost
// is coerced to a number, and the rows are upserted into dje_items on the
// normalized (category, description, vendor) key among active rows, in
// pages of 1000 rows per INSERT statement, inside one transaction.
//
// Cells are given as their str() text (None for an empty cell or None);
// the table is a sequence of records and the unique index
// ux_dje_items_active_norm_key is its Valid predicate. The is_active column
// of the workbook is mapped by to_bool but never written: every written row
// is active.
module ImportDje {
  import opened Wrappers
  import opened Text
  import opened Json
  import ImportMaterials

  /** to_bool: an empty or blank cell is true; otherwise true exactly for
      the stripped, lower-cased words true, t, yes, y and 1. */
  function ToBool(x: Option<string>): (b: bool)
    ensures x.None? ==> b
    ensures x.Some? && TrueWord(Lower(Trim(x.value))) ==> b
    ensures x.Some? && Lower(Trim(x.value)) == "false" ==> !b
  {
    if x.None? || NoSpaceFree(x.value) then
      assert x.Some? ==> Trim(x.value) == [] by {
        if x.Some? { TrimEmpty(x.value); }
      }
      true
    else TrueWord(Lower(Trim(x.value)))
  }

  predicate TrueWord(s: string)
  {
    s == "true" || s == "t" || s == "yes" || s == "y" || s == "1"
  }

  /** to_bool ignores letter case. */
  lemma ToBoolIgnoresCase(s: string)
    ensures ToBool(Some(Lower(s))) == ToBool(Some(s))
  {
    var l := Lower(s);
    assert NoSpaceFree(l) <==> NoSpaceFree(s) by { LowerKeepsShape(s); }
    var t := Lower(Trim(s));
    assert Trim(l) == t by { LowerTrimCommute(s); }
    assert Lower(t) == t by {
      LowerIsLowered(Trim(s));
      LowerIsLowered(t);
    }
  }

  /** to_bool ignores whitespace around the word. */
  lemma ToBoolIgnoresBlanks(s: string)
    ensures ToBool(Some(" " + s + " ")) == ToBool(Some(s))
  {
    TrimPadded(s);
    SpacesPadded(s);
  }

  /** A word other than the five listed is false, whatever its case. */
  lemma ToBoolOtherWords(s: string)
    requires !NoSpaceFree(s) && !TrueWord(Lower(Trim(s)))
    ensures !ToBool(Some(s)) && !ToBool(Some(Lower(s))) && !ToBool(Some(" " + s + " "))
  {
    ToBoolIgnoresCase(s);
    ToBoolIgnoresBlanks(s);
  }

  /** The placeholder texts the cleanup turns into NULL, matched exactly. */
  predicate Placeholder(s: string)
  {
    s == "" || s == "nan" || s == "None" || s == "NaN"
  }

  /** `astype(str).str.strip()`, then the placeholders to None. A missing
      cell prints as "None" or "nan", so it becomes None too. */
  function TextClean(cell: Option<string>): (r: Option<string>)
    ensures cell.None? ==> r.None?
    ensures cell.Some? && !Placeholder(Trim(cell.value)) ==> r == Some(Trim(cell.value))
    ensures cell.Some? && Placeholder(Trim(cell.value)) ==> r.None?
    ensures r.Some? ==> r.value != [] && Trimmed(r.value) && !Placeholder(r.value)
  {
    if cell.None? then None
    else
      var s := Trim(cell.value);
      TrimTrimmed(cell.value);
      if Placeholder(s) then None else Some(s)
  }

  /** The placeholder match is case-sensitive, unlike clean_str of the
      materials importer: "NONE" survives here and is dropped there. */
  lemma PlaceholderCaseSensitive()
    ensures TextClean(Some("NONE")) == Some("NONE")
    ensures ImportMaterials.CleanStr(Some("NONE")) == ""
  {
    ImportMaterials.TrimOfTrimmed("NONE");
  }

  /** Cleaning a cleaned value again changes nothing. */
  lemma TextCleanIdempotent(cell: Option<string>)
    ensures TextClean(TextClean(cell)) == TextClean(cell)
  {
    var r := TextClean(cell);
    if r.Some? {
      ImportMaterials.TrimOfTrimmed(r.value);
    }
  }

  /** One workbook row, after the renames. */
  datatype SheetRow = SheetRow(
    category: Option<string>,
    subcategory: Option<string>,
    description: Option<string>,
    vendor: Option<string>,
    defaultUnitCost: Json,
    costCode: Option<string>)

  /** A dje_items row. */
  datatype Record = Record(
    category: Option<string>,
    subcategory: Option<string>,
    description: Option<string>,
    vendor: Option<string>,
    defaultUnitCost: real,
    costCode: Option<string>,
    isActive: bool)

  /** The row tuple the importer writes, with the constant is_active = true. */
  function PrepareRow(r: SheetRow): (w: Record)
    ensures w.isActive
    ensures w.category == TextClean(r.category) && w.description == TextClean(r.description)
    ensures w.vendor == TextClean(r.vendor)
    ensures w.defaultUnitCost == ImportMaterials.NumericCell(r.defaultUnitCost).GetOr(0.0)
  {
    Record(
      TextClean(r.category), TextClean(r.subcategory), TextClean(r.description),
      TextClean(r.vendor), ImportMaterials.NumericCell(r.defaultUnitCost).GetOr(0.0),
      TextClean(r.costCode), true)
  }

  function Prepare(sheet: seq<SheetRow>): (rows: seq<Record>)
    ensures |rows| == |sheet| && forall i :: 0 <= i < |sheet| ==> rows[i] == PrepareRow(sheet[i])
  {
    seq(|sheet|, i requires 0 <= i < |sheet| => PrepareRow(sheet[i]))
  }

  // ----- the upsert -----

  /** The index expression; a NULL category or description never conflicts,
      and a NULL vendor counts as ''. */
  function NormKey(r: Record): Option<(string, string, string)>
  {
    if r.category.None? || r.description.None? then None
    else Some((
      Lower(SqlTrim(r.category.value)),
      Lower(SqlTrim(r.description.value)),
      if r.vendor.None? then "" else Lower(SqlTrim(r.vendor.value))))
  }

  /** Rows that differ only in a missing versus an empty vendor share a key. */
  lemma NullVendorIsEmpty(r: Record)
    ensures NormKey(r.(vendor := None)) == NormKey(r.(vendor := Some("")))
  {
  }

  ghost predicate Valid(rows: seq<Record>)
  {
    forall i, j :: 0 <= i < j < |rows| && rows[i].isActive && rows[j].isActive && NormKey(rows[i]).Some? ==>
      NormKey(rows[i]) != NormKey(rows[j])
  }

  function FindActive(rows: seq<Record>, key: (string, string, string)): (r: Option<nat>)
    ensures r.Some? ==> r.value < |rows| && rows[r.value].isActive && NormKey(rows[r.value]) == Some(key)
    ensures r.None? ==> forall i :: 0 <= i < |rows| && rows[i].isActive ==> NormKey(rows[i]) != Some(key)
  {
    if rows == [] then None
    else if rows[0].isActive && NormKey(rows[0]) == Some(key) then Some(0)
    else
      var k := FindActive(rows[1..], key);
      assert forall i :: 1 <= i < |rows| ==> rows[i] == rows[1..][i - 1];
      if k.None? then None else Some(k.value + 1)
  }

  /** DO UPDATE SET: only the subcategory, the cost and the cost code. */
  function Merge(old_: Record, w: Record): (m: Record)
    ensures m.category == old_.category && m.description == old_.description && m.vendor == old_.vendor
    ensures m.isActive == old_.isActive && NormKey(m) == NormKey(old_)
    ensures m.subcategory == w.subcategory && m.defaultUnitCost == w.defaultUnitCost && m.costCode == w.costCode
  {
    old_.(subcategory := w.subcategory, defaultUnitCost := w.defaultUnitCost, costCode := w.costCode)
  }

  function UpsertRow(rows: seq<Record>, w: Record): seq<Record>
  {
    var hit := if NormKey(w).Some? then FindActive(rows, NormKey(w).value) else None;
    if hit.Some? then rows[hit.value := Merge(rows[hit.value], w)]
    else rows + [w.(isActive := true)]
  }

  function UpsertAllRows(rows: seq<Record>, batch: seq<Record>): seq<Record>
  {
    if batch == [] then rows
    else UpsertRow(UpsertAllRows(rows, batch[..|batch| - 1]), batch[|batch| - 1])
  }

  function ActiveCount(rows: seq<Record>): nat
  {
    if rows == [] then 0
    else ActiveCount(rows[..|rows| - 1]) + (if rows[|rows| - 1].isActive then 1 else 0)
  }

  lemma {:induction false} ActiveCountUpdate(rows: seq<Record>, i: int, x: Record)
    requires 0 <= i < |rows| && rows[i].isActive == x.isActive
    ensures ActiveCount(rows[i := x]) == ActiveCount(rows)
    decreases |rows|
  {
    if i < |rows| - 1 {
      assert rows[i := x][..|rows| - 1] == rows[..|rows| - 1][i := x];
      ActiveCountUpdate(rows[..|rows| - 1], i, x);
    } else {
      assert rows[i := x][..|rows| - 1] == rows[..|rows| - 1];
    }
  }

  /** One row either updates the active row of its key in place or adds
      one active row; the unique index still holds. */
  lemma UpsertRowProps(rows: seq<Record>, w: Record)
    requires Valid(rows)
    ensures Valid(UpsertRow(rows, w))
    ensures var r := UpsertRow(rows, w);
      (|r| == |rows| && ActiveCount(r) == ActiveCount(rows))
      || (|r| == |rows| + 1 && ActiveCount(r) == ActiveCount(rows) + 1 && r[|rows|].isActive)
  {
    var hit := if NormKey(w).Some? then FindActive(rows, NormKey(w).value) else None;
    var r := UpsertRow(rows, w);
    if hit.Some? {
      ActiveCountUpdate(rows, hit.value, Merge(rows[hit.value], w));
      assert forall i :: 0 <= i < |r| ==> r[i].isActive == rows[i].isActive && NormKey(r[i]) == NormKey(rows[i]);
    } else {
      assert r[..|rows|] == rows;
      forall i, j | 0 <= i < j < |r| && r[i].isActive && r[j].isActive && NormKey(r[i]).Some?
        ensures NormKey(r[i]) != NormKey(r[j])
      {
        if j == |rows| {
          assert NormKey(r[j]) == NormKey(w);
          assert r[i] == rows[i];
        } else {
          assert r[i] == rows[i] && r[j] == rows[j];
        }
      }
    }
  }

  /** The batch keeps the index, and the growth of the active count is the
      number of rows it adds. */
  lemma {:induction false} UpsertAllProps(rows: seq<Record>, batch: seq<Record>)
    requires Valid(rows)
    ensures var r := UpsertAllRows(rows, batch);
      && Valid(r) && |r| >= |rows|
      && ActiveCount(r) - ActiveCount(rows) == |r| - |rows|
  {
    if batch != [] {
      var mid := UpsertAllRows(rows, batch[..|batch| - 1]);
      UpsertAllProps(rows, batch[..|batch| - 1]);
      UpsertRowProps(mid, batch[|batch| - 1]);
    }
  }

  /** Two rows of one page with the same key fail the statement. */
  predicate PageClash(batch: seq<Record>)
  {
    exists i, j :: 0 <= i < j < |batch| && i / 1000 == j / 1000 && NormKey(batch[i]).Some? && NormKey(batch[i]) == NormKey(batch[j])
  }

  /** A row the table refuses whatever else happens: category and
      description are NOT NULL, and default_unit_cost has a CHECK that it
      is not negative. PostgreSQL checks these on the proposed row before
      it looks for a conflict, so the statement fails either way. */
  predicate Refused(w: Record)
  {
    w.category.None? || w.description.None? || w.defaultUnitCost < 0.0
  }

  predicate BatchRefused(batch: seq<Record>)
  {
    exists i :: 0 <= i < |batch| && Refused(batch[i])
  }

  /** A category or description cell that is empty or a placeholder text
      gives a row the table refuses, as does a negative cost. */
  lemma PlaceholderRowRefused(r: SheetRow)
    requires r.category.None? || Placeholder(Trim(r.category.value))
      || r.description.None? || Placeholder(Trim(r.description.value))
      || ImportMaterials.NumericCell(r.defaultUnitCost).GetOr(0.0) < 0.0
    ensures Refused(PrepareRow(r))
  {
  }

  /** Every row a successful batch adds has a category and a description. */
  lemma {:induction false} AcceptedRowsComplete(rows: seq<Record>, batch: seq<Record>)
    requires !BatchRefused(batch)
    ensures var r := UpsertAllRows(rows, batch);
      |r| >= |rows| && forall i :: |rows| <= i < |r| ==> r[i].category.Some? && r[i].description.Some? && r[i].defaultUnitCost >= 0.0
  {
    if batch != [] {
      var init := batch[..|batch| - 1];
      assert !BatchRefused(init) by {
        forall i | 0 <= i < |init| ensures !Refused(init[i]) {
          assert init[i] == batch[i];
        }
      }
      AcceptedRowsComplete(rows, init);
      var mid := UpsertAllRows(rows, init);
      var w := batch[|batch| - 1];
      assert !Refused(w);
      var hit := if NormKey(w).Some? then FindActive(mid, NormKey(w).value) else None;
      if hit.Some? {
        assert UpsertAllRows(rows, batch) == mid[hit.value := Merge(mid[hit.value], w)];
      } else {
        assert UpsertAllRows(rows, batch) == mid + [w.(isActive := true)];
      }
    }
  }

  /** The estimate is the number of rows the batch added, never negative. */
  lemma EstimateCountsNewRows(rows: seq<Record>, batch: seq<Record>)
    requires Valid(rows)
    ensures var r := UpsertAllRows(rows, batch);
      ImportMaterials.InsertedEstimate(ActiveCount(rows), ActiveCount(r)) == |r| - |rows|
  {
    UpsertAllProps(rows, batch);
  }

  /** The dje_items table and whether its unique index exists. */
  class DjeDb {
    var rows: seq<Record>
    var hasIndex: bool

    constructor (rows0: seq<Record>, hasIndex0: bool)
      ensures rows == rows0 && hasIndex == hasIndex0
    {
      rows := rows0;
      hasIndex := hasIndex0;
    }

    /** _upsert_dje: a dry run stops before connecting; the guardrail stops
        a table without its index before the count; a page with two rows of
        one key, or a row the table refuses, fails and the transaction is
        rolled back; otherwise every row is upserted. */
    method Upsert(batch: seq<Record>, dryRun: bool, failFast: bool) returns (out: ImportMaterials.Outcome)
      requires Valid(rows)
      modifies this`rows
      ensures Valid(rows)
      ensures dryRun ==> out == ImportMaterials.DryRun && rows == old(rows)
      ensures !dryRun && !hasIndex ==> out == ImportMaterials.MissingIndex && rows == old(rows)
      ensures !dryRun && hasIndex && (PageClash(batch) || BatchRefused(batch)) ==>
        out == ImportMaterials.UpsertFailed(failFast) && rows == old(rows)
      ensures !dryRun && hasIndex && !PageClash(batch) && !BatchRefused(batch) ==>
        && rows == UpsertAllRows(old(rows), batch)
        && out == ImportMaterials.Done(ActiveCount(old(rows)), ActiveCount(rows),
             ImportMaterials.InsertedEstimate(ActiveCount(old(rows)), ActiveCount(rows)))
    {
      if dryRun {
        return ImportMaterials.DryRun;
      }
      if !hasIndex {
        return ImportMaterials.MissingIndex;
      }
      var before := ActiveCount(rows);
      if PageClash(batch) || BatchRefused(batch) {
        return ImportMaterials.UpsertFailed(failFast);
      }
      UpsertEach(batch);
      var after := ActiveCount(rows);
      out := ImportMaterials.Done(before, after, ImportMaterials.InsertedEstimate(before, after));
    }

    /** The INSERT statements, one row after another in sheet order. */
    method UpsertEach(batch: seq<Record>)
      requires Valid(rows)
      modifies this`rows
      ensures rows == UpsertAllRows(old(rows), batch)
      ensures Valid(rows) && ActiveCount(rows) - ActiveCount(old(rows)) == |rows| - |old(rows)|
    {
      ghost var start := rows;
      for i := 0 to |batch|
        invariant rows == UpsertAllRows(start, batch[..i])
      {
        assert batch[..i + 1][..i] == batch[..i];
        rows := UpsertRow(rows, batch[i]);
      }
      assert batch[..|batch|] == batch;
      UpsertAllProps(start, batch);
    }

    /** The script: the first `limit` prepared rows, then the upsert. */
    method Run(sheet: seq<SheetRow>, limit: Option<int>, dryRun: bool, failFast: bool) returns (out: ImportMaterials.Outcome)
      requires Valid(rows)
      modifies this`rows
      ensures Valid(rows)
      ensures dryRun ==> out == ImportMaterials.DryRun && rows == old(rows)
      ensures !dryRun && !hasIndex ==> out == ImportMaterials.MissingIndex && rows == old(rows)
      ensures var batch := ImportMaterials.Head(Prepare(sheet), limit);
        !dryRun && hasIndex && (PageClash(batch) || BatchRefused(batch)) ==>
        out == ImportMaterials.UpsertFailed(failFast) && rows == old(rows)
      ensures var batch := ImportMaterials.Head(Prepare(sheet), limit);
        !dryRun && hasIndex && !PageClash(batch) && !BatchRefused(batch) ==>
        && rows == UpsertAllRows(old(rows), batch)
        && out.Done? && out.before == ActiveCount(old(rows)) && out.after == ActiveCount(rows)
        && |old(rows)| + out.inserted == |rows|
        && forall i :: |old(rows)| <= i < |rows| ==> rows[i].category.Some? && rows[i].description.Some?
    {
      ghost var start := rows;
      var batch := ImportMaterials.Head(Prepare(sheet), limit);
      out := Upsert(batch, dryRun, failFast);
      if !dryRun && hasIndex && !PageClash(batch) && !BatchRefused(batch) {
        EstimateCountsNewRows(start, batch);
        AcceptedRowsComplete(start, batch);
      }
    }
  }
}
