// The labor adjustments page (app/static/js/adjustments.js): two tables
// of rows (a label, a percent select and an hours input), the Labor
// Adjustments table and the Additional Labor table. Each table grows one
// blank row when text is typed into its last row, rebuilds its list in
// estimateData from its rows, turns a chosen percent into hours, and is
// reset to its base rows; the page keeps estimateData.totals.
//
// Each row keeps the numbers its inputs read as (parseFloat(...) || 0);
// toFixed formatting, the storage round trip of estimateData, the painting
// of header cells from storage, focus handling and event wiring are not
// modelled.
module Adjustments {
  import opened Wrappers
  import opened Text
  import opened NumParse
  import Storage

  /** One row: its data-row attribute, the label text, the percent its
      select holds (0 to 100) and the hours its input reads as. */
  datatype Row = Row(dataRow: int, caption: string, percent: nat, hours: real)

  /** One entry of estimateData.adjustments / estimateData.additionalLabor. */
  datatype LaborItem = LaborItem(caption: string, percent: real, hours: real)

  const DefaultLabels: seq<string> := [
    "Building Conditions", "Change Orders", "Embedded and exposed Wiring",
    "Construction Schedule", "Job Location", "Safety", "Teamwork",
    "Temperature", "Materials Handler", "Subcontract Supervision"]

  const AdditionalLabels: seq<string> := [
    "As-Built Drawings", "Overtime Hours", "Environmentally Hazardous Material Disposal",
    "Excavation, Trenching, and Backfill", "Superintendent", "Materials Handler",
    "Testing/QAQC", "Safety", "Subcontract Supervision", "Training"]

  /** The percent select's options, built by createRow's loop. */
  method PercentOptions() returns (opts: seq<nat>)
    ensures |opts| == 101
    ensures forall i :: 0 <= i < 101 ==> opts[i] == i
  {
    opts := [];
    var i := 0;
    while i <= 100
      invariant 0 <= i <= 101 && |opts| == i
      invariant forall k :: 0 <= k < i ==> opts[k] == k
    {
      opts := opts + [i];
      i := i + 1;
    }
  }

  /** The select value after `select.value = p`: p when it names one of the
      options 0 to 100, otherwise no option is chosen and the value reads
      as 0. */
  function SelectPercent(p: real): (r: nat)
    ensures r <= 100
    ensures r as real == p <==> 0.0 <= p <= 100.0 && p.Floor as real == p
    ensures r as real != p ==> r == 0
  {
    if 0.0 <= p <= 100.0 && p.Floor as real == p then p.Floor else 0
  }

  /** A label that trims to nothing (`value.trim() === ''`): all of it is
      whitespace, by Text.TrimEmpty. */
  predicate Blank(caption: string)
  {
    NoSpaceFree(caption)
  }

  lemma BlankIsTrimEmpty(caption: string)
    ensures Blank(caption) <==> Trim(caption) == []
  {
    TrimEmpty(caption);
  }

  function EntryOf(r: Row): LaborItem
  {
    LaborItem(r.caption, r.percent as real, r.hours)
  }

  /** The list rebuilt from the rows, one entry per row in order. */
  function Entries(rows: seq<Row>): (es: seq<LaborItem>)
    ensures |es| == |rows|
    ensures forall i :: 0 <= i < |rows| ==> es[i] == EntryOf(rows[i])
  {
    if rows == [] then [] else Entries(rows[..|rows| - 1]) + [EntryOf(rows[|rows| - 1])]
  }

  /** The sum of the hours of the rows. */
  function SumHours(rows: seq<Row>): real
  {
    if rows == [] then 0.0 else SumHours(rows[..|rows| - 1]) + rows[|rows| - 1].hours
  }

  /** The sum of the hours of the rebuilt list is the rows' total. */
  lemma {:induction false} SumHoursOfEntries(rows: seq<Row>)
    ensures SumHours(rows) == SumEntryHours(Entries(rows))
  {
    if rows != [] {
      SumHoursOfEntries(rows[..|rows| - 1]);
      assert Entries(rows)[..|rows| - 1] == Entries(rows[..|rows| - 1]);
    }
  }

  function SumEntryHours(es: seq<LaborItem>): real
  {
    if es == [] then 0.0 else SumEntryHours(es[..|es| - 1]) + es[|es| - 1].hours
  }

  /** What the reset keeps of the rows: those whose data-row is below keep,
      with percent and hours zeroed and the label left as it is. */
  function TrimZero(rows: seq<Row>, keep: int): (r: seq<Row>)
    ensures |r| <= |rows|
    ensures forall i :: 0 <= i < |r| ==> r[i].dataRow < keep && r[i].percent == 0 && r[i].hours == 0.0
  {
    if rows == [] then []
    else
      var init := TrimZero(rows[..|rows| - 1], keep);
      var last := rows[|rows| - 1];
      if last.dataRow >= keep then init else init + [last.(percent := 0, hours := 0.0)]
  }

  /** The reset keeps exactly the rows below the limit: each kept row is an
      old row zeroed, and each old row below the limit is kept. */
  lemma {:induction false} TrimZeroMeaning(rows: seq<Row>, keep: int)
    ensures forall i :: 0 <= i < |TrimZero(rows, keep)| ==>
      exists j :: 0 <= j < |rows| && TrimZero(rows, keep)[i] == rows[j].(percent := 0, hours := 0.0)
    ensures forall j :: 0 <= j < |rows| && rows[j].dataRow < keep ==> rows[j].(percent := 0, hours := 0.0) in TrimZero(rows, keep)
  {
    if rows != [] {
      var init := rows[..|rows| - 1];
      TrimZeroMeaning(init, keep);
      var r, ri := TrimZero(rows, keep), TrimZero(init, keep);
      forall i | 0 <= i < |r|
        ensures exists j :: 0 <= j < |rows| && r[i] == rows[j].(percent := 0, hours := 0.0)
      {
        if i < |ri| {
          assert r[i] == ri[i];
          var j :| 0 <= j < |init| && ri[i] == init[j].(percent := 0, hours := 0.0);
          assert rows[j] == init[j];
          assert 0 <= j < |rows| && r[i] == rows[j].(percent := 0, hours := 0.0);
        } else {
          var k := |rows| - 1;
          assert r == ri + [rows[k].(percent := 0, hours := 0.0)];
          assert 0 <= k < |rows| && r[i] == rows[k].(percent := 0, hours := 0.0);
        }
      }
      forall j | 0 <= j < |rows| && rows[j].dataRow < keep
        ensures rows[j].(percent := 0, hours := 0.0) in r
      {
        if j < |init| {
          assert init[j] == rows[j];
          assert rows[j].(percent := 0, hours := 0.0) in ri;
        }
      }
      assert forall i :: 0 <= i < |r| ==> exists j :: 0 <= j < |rows| && r[i] == rows[j].(percent := 0, hours := 0.0);
    } else {
      assert TrimZero(rows, keep) == [];
    }
  }

  /** The reset keeps every row below the limit, in order, with its label. */
  lemma {:induction false} TrimZeroKeepsBase(rows: seq<Row>, keep: int)
    requires forall i :: 0 <= i < |rows| ==> rows[i].dataRow < keep
    ensures |TrimZero(rows, keep)| == |rows|
    ensures forall i :: 0 <= i < |rows| ==> TrimZero(rows, keep)[i] == rows[i].(percent := 0, hours := 0.0)
  {
    if rows != [] {
      TrimZeroKeepsBase(rows[..|rows| - 1], keep);
    }
  }

  /** The hours a chosen percent gives: that share of the base hours. */
  function PercentHours(p: nat, base: real): (h: real)
    ensures p == 0 ==> h == 0.0
    ensures p == 100 ==> h == base
    ensures base >= 0.0 && p <= 100 ==> 0.0 <= h <= base
  {
    (p as real / 100.0) * base
  }

  /** Keeps the characters of s that are digits or ".". */
  function NumberChars(s: string): (r: string)
    ensures forall i :: 0 <= i < |r| ==> IsDigit(r[i]) || r[i] == '.'
    ensures |r| <= |s|
    ensures forall i :: 0 <= i < |s| && (IsDigit(s[i]) || s[i] == '.') ==> s[i] in r
    ensures r == [] <==> forall i :: 0 <= i < |s| ==> !IsDigit(s[i]) && s[i] != '.'
  {
    if s == [] then []
    else if IsDigit(s[0]) || s[0] == '.' then [s[0]] + NumberChars(s[1..])
    else NumberChars(s[1..])
  }

  /** getEstimatedLaborHours: the cell text stripped of everything but
      digits and ".", read by parseFloat, 0 for NaN. A minus sign is
      stripped too, so the base is never negative. */
  function EstimatedLaborHours(cell: string): (h: real)
    ensures h >= 0.0
    ensures NumberChars(cell) == [] ==> h == 0.0
    ensures AllDigits(NumberChars(cell)) && NumberChars(cell) != [] ==> h == DigitsValue(NumberChars(cell)) as real
  {
    var k := NumberChars(cell);
    assert AllDigits(k) && k != [] ==> JsParseFloat(k) == Some(DigitsValue(k) as real) by {
      if AllDigits(k) && k != [] { JsParseFloatOfDigits(k); }
    }
    assert JsParseFloat(k).Some? ==> JsParseFloat(k).value >= 0.0 by {
      assert k == [] || (!IsSpace(k[0]) && k[0] != '-' && k[0] != '+');
      JsParseFloatUnsigned(k);
    }
    JsParseFloat(k).GetOr(0.0)
  }

  /** A plain digit string reads as its value. */
  lemma {:induction false} EstimatedOfDigits(s: string)
    requires AllDigits(s) && s != []
    ensures EstimatedLaborHours(s) == DigitsValue(s) as real
  {
    assert NumberChars(s) == s by { NumberCharsKeeps(s); }
    JsParseFloatOfDigits(s);
  }

  /** A minus sign in front of the hours is dropped with the other
      characters that are neither digits nor ".". */
  lemma {:induction false} EstimatedIgnoresMinus(s: string)
    ensures EstimatedLaborHours("-" + s) == EstimatedLaborHours(s)
  {
    var m := "-" + s;
    assert m[0] == '-' && m[1..] == s;
    assert NumberChars(m) == NumberChars(s);
  }

  /** The filter works character by character, so it splits over a
      concatenation. */
  lemma {:induction false} NumberCharsAppend(a: string, b: string)
    ensures NumberChars(a + b) == NumberChars(a) + NumberChars(b)
  {
    if a != [] {
      assert (a + b)[0] == a[0] && (a + b)[1..] == a[1..] + b;
      NumberCharsAppend(a[1..], b);
    } else {
      assert a + b == b;
    }
  }

  lemma {:induction false} NumberCharsKeeps(s: string)
    requires forall i :: 0 <= i < |s| ==> IsDigit(s[i]) || s[i] == '.'
    ensures NumberChars(s) == s
  {
    if s != [] {
      NumberCharsKeeps(s[1..]);
    }
  }

  /** The rows a reset leaves: every row but the last kept from the base
      set with percent and hours zeroed, and a last row with a blank label
      and no hours. */
  predicate ResetRows(rows: seq<Row>, keep: int)
  {
    && rows != []
    && (forall i :: 0 <= i < |rows| - 1 ==>
         rows[i].dataRow < keep && rows[i].percent == 0 && rows[i].hours == 0.0)
    && Blank(rows[|rows| - 1].caption)
    && rows[|rows| - 1].hours == 0.0
  }

  /** The rows a page load builds for one table: one row per saved entry
      (label, percent as the select takes it, hours), then a blank row when
      the last saved label is not blank; with nothing saved, the default
      labels and a blank row. Data-rows count from 0 and the last label is
      blank. */
  predicate FilledFrom(rows: seq<Row>, saved: seq<LaborItem>, defaults: seq<string>)
  {
    && (saved != [] ==> |rows| == |saved| + (if Blank(saved[|saved| - 1].caption) then 0 else 1))
    && (saved == [] ==> |rows| == |defaults| + 1)
    && (forall i :: 0 <= i < |rows| ==> rows[i].dataRow == i)
    && (forall i :: 0 <= i < |saved| && i < |rows| ==>
         rows[i] == Row(i, saved[i].caption, SelectPercent(saved[i].percent), saved[i].hours))
    && (saved == [] ==> forall i :: 0 <= i < |defaults| && i < |rows| ==> rows[i] == Row(i, defaults[i], 0, 0.0))
    && rows != [] && Blank(rows[|rows| - 1].caption)
  }

  /** One of the two tables with its autogrow memory (adjLastGrown /
      addLastGrown). */
  class LaborTable {
    var rows: seq<Row>
    var lastGrown: int

    constructor()
      ensures rows == [] && lastGrown == -1
    {
      rows := [];
      lastGrown := -1;
    }

    /** createRow / createAdditionalRow: a row whose data-row is the row
        count, with the label, percent 0 and hours 0. */
    method CreateRow(caption: string)
      modifies this`rows
      ensures rows == old(rows) + [Row(|old(rows)|, caption, 0, 0.0)]
    {
      rows := rows + [Row(|rows|, caption, 0, 0.0)];
    }

    /** Typing text into row pos's label: the label is set; when the row is
        the last one, the text is not blank and its data-row differs from
        the last one that grew the table, one blank row is appended and the
        data-row is remembered. */
    method OnTextInput(pos: nat, text: string)
      requires pos < |rows|
      modifies this
      ensures var grows := pos == |old(rows)| - 1 && !Blank(text) && old(rows)[pos].dataRow != old(lastGrown);
        var edited := old(rows)[pos := old(rows)[pos].(caption := text)];
        && (grows ==> rows == edited + [Row(|old(rows)|, "", 0, 0.0)] && lastGrown == old(rows)[pos].dataRow)
        && (!grows ==> rows == edited && lastGrown == old(lastGrown))
    {
      rows := rows[pos := rows[pos].(caption := text)];
      var idx := rows[pos].dataRow;
      var isLast := pos == |rows| - 1;
      if isLast && !Blank(text) && idx != lastGrown {
        CreateRow("");
        lastGrown := idx;
      }
    }

    /** The hours input left or confirmed with Enter: parseFloat of its
        text, 0 when that is NaN. */
    method SetHours(pos: nat, text: string)
      requires pos < |rows|
      modifies this`rows
      ensures rows == old(rows)[pos := old(rows)[pos].(hours := JsParseFloat(text).GetOr(0.0))]
    {
      rows := rows[pos := rows[pos].(hours := JsParseFloat(text).GetOr(0.0))];
    }

    /** A percent chosen in row pos: the row's hours become that share of
        the base. */
    method SetPercent(pos: nat, p: nat, base: real)
      requires pos < |rows| && p <= 100
      modifies this`rows
      ensures rows == old(rows)[pos := old(rows)[pos].(percent := p, hours := PercentHours(p, base))]
    {
      rows := rows[pos := rows[pos].(percent := p, hours := PercentHours(p, base))];
    }

    /** The push loop of updateFooterTotals / updateAdditionalLaborTotals:
        the list rebuilt from scratch, one entry per row, and the sum of
        the hours. */
    method Collect() returns (entries: seq<LaborItem>, total: real)
      ensures entries == Entries(rows)
      ensures total == SumHours(rows)
    {
      entries := [];
      total := 0.0;
      var i := 0;
      while i < |rows|
        invariant 0 <= i <= |rows|
        invariant entries == Entries(rows[..i])
        invariant total == SumHours(rows[..i])
      {
        assert rows[..i + 1][..i] == rows[..i];
        entries := entries + [EntryOf(rows[i])];
        total := total + rows[i].hours;
        i := i + 1;
      }
      assert rows[..i] == rows;
    }

    /** ensureTrailingBlankRow: a blank row is appended unless the last row
        already has a blank label. */
    method EnsureTrailingBlank()
      modifies this`rows
      ensures rows != [] && Blank(rows[|rows| - 1].caption)
      ensures rows == old(rows) || rows == old(rows) + [Row(|old(rows)|, "", 0, 0.0)]
      ensures old(rows) != [] && Blank(old(rows)[|old(rows)| - 1].caption) ==> rows == old(rows)
    {
      if rows == [] || !Blank(rows[|rows| - 1].caption) {
        CreateRow("");
      }
    }

    /** The end of a reset, once the rows are trimmed and zeroed: a
        trailing blank row made sure of and autogrowth re-armed. */
    method FinishReset(keep: int)
      requires forall i :: 0 <= i < |rows| ==>
        rows[i].dataRow < keep && rows[i].percent == 0 && rows[i].hours == 0.0
      modifies this
      ensures ResetRows(rows, keep) && lastGrown == -1
      ensures rows == old(rows) || rows == old(rows) + [Row(|old(rows)|, "", 0, 0.0)]
    {
      EnsureTrailingBlank();
      lastGrown := -1;
    }

    /** The rows of populateAdjustmentTable before the trailing-row check:
        one row per saved entry (label, percent as the select takes it,
        hours), then a blank row when the last saved label is not blank;
        with nothing saved, the default labels and a blank row. */
    method FillRows(saved: seq<LaborItem>, defaults: seq<string>)
      modifies this`rows
      ensures FilledFrom(rows, saved, defaults)
    {
      rows := [];
      if |saved| > 0 {
        var i := 0;
        while i < |saved|
          invariant 0 <= i <= |saved| && |rows| == i
          invariant forall k :: 0 <= k < i ==>
            rows[k] == Row(k, saved[k].caption, SelectPercent(saved[k].percent), saved[k].hours)
        {
          CreateRow(saved[i].caption);
          rows := rows[i := rows[i].(percent := SelectPercent(saved[i].percent), hours := saved[i].hours)];
          i := i + 1;
        }
        if !Blank(saved[|saved| - 1].caption) {
          CreateRow("");
        }
      } else {
        var i := 0;
        while i < |defaults|
          invariant 0 <= i <= |defaults| && |rows| == i
          invariant forall k :: 0 <= k < i ==> rows[k] == Row(k, defaults[k], 0, 0.0)
        {
          CreateRow(defaults[i]);
          i := i + 1;
        }
        CreateRow("");
      }
    }

    /** The reset's trim and zeroing: rows whose data-row is keep or more
        are removed, and the others get percent 0 and hours 0. */
    method TrimAndZero(keep: int)
      modifies this`rows
      ensures rows == TrimZero(old(rows), keep)
    {
      var kept: seq<Row> := [];
      var i := 0;
      while i < |rows|
        invariant 0 <= i <= |rows|
        invariant kept == TrimZero(rows[..i], keep)
      {
        assert rows[..i + 1][..i] == rows[..i];
        if rows[i].dataRow < keep {
          kept := kept + [rows[i].(percent := 0, hours := 0.0)];
        }
        i := i + 1;
      }
      assert rows[..i] == rows;
      rows := kept;
    }
  }

  /** Whether a "Reset All" timestamp is still to be consumed: one is set
      and it is not the one this session has seen. */
  predicate ShouldConsume(last: Option<string>, seen: Option<string>)
  {
    last.Some? && last.value != "" && last != seen
  }

  /** A timestamp, once consumed and recorded as seen, is not consumed
      again; a new timestamp is. */
  lemma ConsumedOnce(last: Option<string>, seen: Option<string>, next: string)
    requires ShouldConsume(last, seen)
    ensures !ShouldConsume(last, last)
    ensures next != "" && Some(next) != last ==> ShouldConsume(Some(next), last)
  {
  }

  class Page {
    const adj: LaborTable
    const add: LaborTable
    /** The text of the Estimated Labor Hours cell. */
    var estText: string
    /** estimateData.adjustments and estimateData.additionalLabor. */
    var adjustments: seq<LaborItem>
    var additionalLabor: seq<LaborItem>
    /** estimateData.totals. */
    var estimated: real
    var adjTotal: real
    var additional: real
    var final: real
    /** The Total Adjusted Hours figure the additional table reads as its base. */
    var adjustedBase: real

    ghost predicate Valid()
      reads this
    {
      adj != add
    }

    constructor(est: string)
      ensures Valid() && estText == est
      ensures adj.rows == [] && add.rows == [] && adj.lastGrown == -1 && add.lastGrown == -1
      ensures final == 0.0 && estimated == 0.0 && adjTotal == 0.0 && additional == 0.0
      ensures fresh(adj) && fresh(add)
    {
      adj := new LaborTable();
      add := new LaborTable();
      estText := est;
      adjustments := [];
      additionalLabor := [];
      estimated := 0.0;
      adjTotal := 0.0;
      additional := 0.0;
      final := 0.0;
      adjustedBase := 0.0;
    }

    /** updateFooterTotals: the adjustments list rebuilt, its hours summed,
        the base read from the Estimated Labor Hours cell, and the final
        total is base + adjustments + additional. */
    method UpdateFooterTotals()
      modifies this
      ensures adjustments == Entries(adj.rows) && adjTotal == SumHours(adj.rows)
      ensures estimated == EstimatedLaborHours(estText)
      ensures final == estimated + adjTotal + additional
      ensures adjustedBase == estimated + adjTotal
      ensures additional == old(additional) && additionalLabor == old(additionalLabor) && estText == old(estText)
    {
      var base := EstimatedLaborHours(estText);
      var entries, total := adj.Collect();
      adjustments := entries;
      estimated := base;
      adjTotal := total;
      final := base + total + additional;
      adjustedBase := base + total;
    }

    /** updateAdditionalLaborTotals: the additional list rebuilt, its hours
        summed, and the final total is estimated + adjustments + additional. */
    method UpdateAdditionalLaborTotals()
      modifies this
      ensures additionalLabor == Entries(add.rows) && additional == SumHours(add.rows)
      ensures final == estimated + adjTotal + additional
      ensures estimated == old(estimated) && adjTotal == old(adjTotal) && adjustments == old(adjustments)
      ensures adjustedBase == old(adjustedBase) && estText == old(estText)
    {
      var entries, total := add.Collect();
      additionalLabor := entries;
      additional := total;
      final := estimated + adjTotal + total;
    }

    /** Text typed into a label of the adjustments table. */
    method OnAdjTextInput(pos: nat, text: string)
      requires Valid() && pos < |adj.rows|
      modifies this, adj
      ensures Valid()
      ensures var grows := pos == |old(adj.rows)| - 1 && !Blank(text) && old(adj.rows)[pos].dataRow != old(adj.lastGrown);
        var edited := old(adj.rows)[pos := old(adj.rows)[pos].(caption := text)];
        && (grows ==> adj.rows == edited + [Row(|old(adj.rows)|, "", 0, 0.0)] && adj.lastGrown == old(adj.rows)[pos].dataRow)
        && (!grows ==> adj.rows == edited && adj.lastGrown == old(adj.lastGrown))
      ensures add.rows == old(add.rows) && estText == old(estText)
      ensures adjustments == Entries(adj.rows) && adjTotal == SumHours(adj.rows)
      ensures estimated == EstimatedLaborHours(estText)
      ensures final == estimated + adjTotal + additional
    {
      adj.OnTextInput(pos, text);
      UpdateFooterTotals();
    }

    /** A percent chosen in the adjustments table: hours from the base in
        the Estimated Labor Hours cell. */
    method OnAdjPercentChange(pos: nat, p: nat)
      requires Valid() && pos < |adj.rows| && p <= 100
      modifies this, adj
      ensures Valid()
      ensures adj.rows == old(adj.rows)[pos := old(adj.rows)[pos].(percent := p, hours := PercentHours(p, EstimatedLaborHours(old(estText))))]
      ensures adjustments == Entries(adj.rows) && adjTotal == SumHours(adj.rows)
      ensures estText == old(estText) && estimated == EstimatedLaborHours(estText)
      ensures adjustedBase == estimated + adjTotal
      ensures add.rows == old(add.rows) && additional == old(additional) && additionalLabor == old(additionalLabor)
      ensures final == estimated + adjTotal + additional
    {
      adj.SetPercent(pos, p, EstimatedLaborHours(estText));
      UpdateFooterTotals();
    }

    /** A percent chosen in the additional table: hours from the adjusted
        total. */
    method OnAddPercentChange(pos: nat, p: nat)
      requires Valid() && pos < |add.rows| && p <= 100
      modifies this, add
      ensures Valid()
      ensures add.rows == old(add.rows)[pos := old(add.rows)[pos].(percent := p, hours := PercentHours(p, old(adjustedBase)))]
      ensures additionalLabor == Entries(add.rows) && additional == SumHours(add.rows)
      ensures adj.rows == old(adj.rows) && adjustments == old(adjustments) && adjTotal == old(adjTotal)
      ensures estText == old(estText) && estimated == old(estimated) && adjustedBase == old(adjustedBase)
      ensures final == estimated + adjTotal + additional
    {
      add.SetPercent(pos, p, adjustedBase);
      UpdateAdditionalLaborTotals();
    }

    /** Page load: both tables filled from the saved lists (or the default
        labels), their totals computed, a trailing blank row made sure of,
        and autogrowth armed. */
    method Populate(savedAdj: seq<LaborItem>, savedAdd: seq<LaborItem>)
      requires Valid()
      modifies this, adj, add
      ensures Valid()
      ensures FilledFrom(adj.rows, savedAdj, DefaultLabels) && FilledFrom(add.rows, savedAdd, AdditionalLabels)
      ensures adj.lastGrown == -1 && add.lastGrown == -1
      ensures adjustments == Entries(adj.rows) && additionalLabor == Entries(add.rows)
      ensures estText == old(estText) && estimated == EstimatedLaborHours(estText)
      ensures adjTotal == SumHours(adj.rows) && additional == SumHours(add.rows)
      ensures final == estimated + adjTotal + additional
    {
      adj.FillRows(savedAdj, DefaultLabels);
      UpdateFooterTotals();
      adj.EnsureTrailingBlank();
      adj.lastGrown := -1;
      add.FillRows(savedAdd, AdditionalLabels);
      UpdateAdditionalLaborTotals();
      add.EnsureTrailingBlank();
      add.lastGrown := -1;
    }

    /** resetAdjustmentsPage: rows past the base sets removed, percents and
        hours zeroed, both lists and totals recomputed, a trailing blank row
        made sure of in each table, and autogrowth re-armed. */
    method ResetPage()
      requires Valid()
      modifies this, adj, add
      ensures Valid()
      ensures ResetRows(adj.rows, |DefaultLabels|) && ResetRows(add.rows, |AdditionalLabels|)
      ensures var kept := TrimZero(old(adj.rows), |DefaultLabels|);
        adj.rows == kept || adj.rows == kept + [Row(|kept|, "", 0, 0.0)]
      ensures var kept := TrimZero(old(add.rows), |AdditionalLabels|);
        add.rows == kept || add.rows == kept + [Row(|kept|, "", 0, 0.0)]
      ensures adjustments == Entries(TrimZero(old(adj.rows), |DefaultLabels|))
      ensures additionalLabor == Entries(TrimZero(old(add.rows), |AdditionalLabels|))
      ensures estText == old(estText) && estimated == EstimatedLaborHours(estText)
      ensures adj.lastGrown == -1 && add.lastGrown == -1
      ensures adjTotal == 0.0 && additional == 0.0
      ensures final == estimated
    {
      adj.TrimAndZero(|DefaultLabels|);
      add.TrimAndZero(|AdditionalLabels|);
      ZeroHoursSum(adj.rows);
      ZeroHoursSum(add.rows);
      UpdateFooterTotals();
      UpdateAdditionalLaborTotals();
      adj.FinishReset(|DefaultLabels|);
      add.FinishReset(|AdditionalLabels|);
    }

    /** consumeSummaryReset: a "Reset All" timestamp in localStorage that
        this session has not seen resets the page and is recorded as seen;
        otherwise nothing happens. */
    method ConsumeSummaryReset(ls: Storage.LocalStorage, session: Storage.LocalStorage) returns (consumed: bool)
      requires Valid() && session.Valid() && ls != session
      modifies this, adj, add, session
      ensures Valid() && session.Valid()
      ensures consumed <==> ShouldConsume(ls.GetItem("ee.reset"), old(session.GetItem("ee.reset.seen@adjustments")))
      ensures consumed ==> session.items == Storage.Put(old(session.items), "ee.reset.seen@adjustments", ls.GetItem("ee.reset").value)
      ensures consumed ==> adjTotal == 0.0 && additional == 0.0 && final == estimated
      ensures !consumed ==> session.items == old(session.items)
    {
      var last := ls.GetItem("ee.reset");
      var seen := session.GetItem("ee.reset.seen@adjustments");
      consumed := ShouldConsume(last, seen);
      if consumed {
        ResetPage();
        session.SetItem("ee.reset.seen@adjustments", last.value);
      }
    }
  }

  lemma {:induction false} ZeroHoursSum(rows: seq<Row>)
    requires forall i :: 0 <= i < |rows| ==> rows[i].hours == 0.0
    ensures SumHours(rows) == 0.0
  {
    if rows != [] {
      ZeroHoursSum(rows[..|rows| - 1]);
    }
  }
}
