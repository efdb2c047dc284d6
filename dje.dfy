// The direct-job-expense grid script (app/static/js/dje.js): the loose
// number reader, the per-row extension, the multiplier clean-up, the
// option lists of the category / subcategory / description selects, the
// caches in front of the three lookups, the rows collected for saving,
// row autogrowth and the reset back to ten blank rows.
//
// The table is a sequence of lines, each carrying its data-row index and
// the values of its cells; the lookups are function-typed parameters
// standing for the server's answers. DOM construction, event wiring,
// currency formatting and the restore of saved values (which waits on
// the lookups) are not modelled.
module Dje {
  import opened Wrappers
  import opened Text
  import opened NumParse
  import opened Estimator

  // ----- toNum -----

  /** toNum reads cells like toNumberLoose: a digit string is its value, a
      currency sign in front and separators are ignored, and null, NaN and
      a blank cell are 0. */
  lemma {:induction false} ToNumReadsCells(s: string)
    requires AllDigits(s) && s != []
    ensures ToNumberLoose(JsString(s)) == DigitsValue(s) as real
    ensures ToNumberLoose(JsString("$" + s)) == DigitsValue(s) as real
    ensures ToNumberLoose(JsNull) == 0.0 && ToNumberLoose(JsNumber(None)) == 0.0
    ensures ToNumberLoose(JsString("")) == 0.0
  {
    ToNumberLooseOfDigits(s);
    DollarIgnored(s);
    BlankIsZero();
  }

  // ----- recalcRow -----

  function Max(a: real, b: real): real
  {
    if a >= b then a else b
  }

  /** The extension recalcRow writes: quantity and cost floored at 0 and
      the multiplier at 1 before they are multiplied. */
  function Ext(q: real, m: real, c: real): (e: real)
    ensures e >= 0.0
    ensures q <= 0.0 || c <= 0.0 ==> e == 0.0
  {
    var q0 := Max(0.0, q);
    var m1 := Max(1.0, m);
    var c0 := Max(0.0, c);
    assert q0 * m1 >= 0.0;
    q0 * m1 * c0
  }

  /** On cells already in range the extension is the plain product. */
  lemma ExtOfInRange(q: real, m: real, c: real)
    requires q >= 0.0 && m >= 1.0 && c >= 0.0
    ensures Ext(q, m, c) == q * m * c
  {
  }

  /** More quantity never lowers the extension. */
  lemma ExtMonotone(q1: real, q2: real, m: real, c: real)
    requires q1 <= q2
    ensures Ext(q1, m, c) <= Ext(q2, m, c)
  {
    var m1 := Max(1.0, m);
    var c0 := Max(0.0, c);
    assert m1 * c0 >= 0.0;
    assert Max(0.0, q1) <= Max(0.0, q2);
    assert (Max(0.0, q2) - Max(0.0, q1)) * (m1 * c0) >= 0.0;
    assert Max(0.0, q1) * m1 * c0 == Max(0.0, q1) * (m1 * c0);
    assert Max(0.0, q2) * m1 * c0 == Max(0.0, q2) * (m1 * c0);
  }

  /** The extension of one line from its cell texts and the cost it shows. */
  function LineExt(qty: string, multi: string, cost: real): real
  {
    Ext(ToNumberLoose(JsString(qty)), ToNumberLoose(JsString(multi)), cost)
  }

  // ----- sanitizeMultiInput -----

  /** sanitizeMultiInput: the digits of the input read by parseInt, raised
      to at least 1; "1" when there are no digits. */
  function SanitizeMulti(s: string): (r: string)
    ensures Canonical(r) && DigitsValue(r) >= 1
  {
    var d := Digits(s);
    match JsParseInt(d)
    case None => "1"
    case Some(n) =>
      var k: nat := if n < 1 then 1 else n;
      NatToStringRoundTrip(k);
      NatToString(k)
  }

  /** A multiplier that is already a canonical integer of at least 1 is
      kept; input without digits becomes "1". */
  lemma SanitizeMultiKeeps(s: string)
    ensures Canonical(s) && DigitsValue(s) >= 1 ==> SanitizeMulti(s) == s
    ensures Digits(s) == [] ==> SanitizeMulti(s) == "1"
  {
    if Canonical(s) && DigitsValue(s) >= 1 {
      ParseIntOfDigits(s);
      CanonicalRoundTrip(s);
    }
    if Digits(s) == [] {
      assert JsParseInt([]) == None;
    }
  }

  /** Sanitizing twice is sanitizing once. */
  lemma SanitizeMultiIdempotent(s: string)
    ensures SanitizeMulti(SanitizeMulti(s)) == SanitizeMulti(s)
  {
    SanitizeMultiKeeps(SanitizeMulti(s));
  }

  // ----- populateSelect -----

  /** An entry of an option list: a plain string (categories and
      subcategories) or an object (descriptions) with an id, an optional
      label and description, and whether its active flag is false. */
  datatype Item =
    | Str(s: string)
    | Obj(id: string, labelText: Option<string>, description: Option<string>, inactive: bool)

  datatype Opt = Opt(value: string, text: string, selected: bool)

  /** The blank first option every list starts with. */
  const Placeholder := Opt("", "Select…", false)

  predicate Active(it: Item)
  {
    it.Str? || !it.inactive
  }

  /** The option an item becomes: its value, its label (label, else
      description, else id) and whether it is the selected id. */
  function OptionOf(it: Item, selectedId: string): (o: Opt)
    ensures o.selected <==> selectedId != "" && o.value == selectedId
  {
    var value := if it.Str? then it.s else it.id;
    var text := if it.Str? then it.s else it.labelText.GetOr(it.description.GetOr(it.id));
    Opt(value, text, selectedId != "" && selectedId == value)
  }

  /** The options after the placeholder: one per active item, in order. */
  function Shown(items: seq<Item>, selectedId: string): (r: seq<Opt>)
    ensures |r| <= |items|
  {
    if items == [] then []
    else
      var r0 := Shown(items[..|items| - 1], selectedId);
      var last := items[|items| - 1];
      if Active(last) then r0 + [OptionOf(last, selectedId)] else r0
  }

  /** The options shown are exactly those of the active items. */
  lemma {:induction false} ShownMembers(items: seq<Item>, selectedId: string)
    ensures forall o :: o in Shown(items, selectedId) ==> exists it :: it in items && Active(it) && o == OptionOf(it, selectedId)
    ensures forall it :: it in items && Active(it) ==> OptionOf(it, selectedId) in Shown(items, selectedId)
  {
    if items != [] {
      var init, last := items[..|items| - 1], items[|items| - 1];
      ShownMembers(init, selectedId);
      assert items == init + [last];
      var r, r0 := Shown(items, selectedId), Shown(init, selectedId);
      forall o | o in r ensures exists it :: it in items && Active(it) && o == OptionOf(it, selectedId) {
        if o in r0 {
          var it :| it in init && Active(it) && o == OptionOf(it, selectedId);
          assert it in items;
        } else {
          assert last in items && Active(last) && o == OptionOf(last, selectedId);
        }
      }
      forall it | it in items && Active(it) ensures OptionOf(it, selectedId) in r {
        if it in init {
          assert OptionOf(it, selectedId) in r0;
        } else {
          assert it == last;
        }
      }
    }
  }

  /** populateSelect: the placeholder, then the options of the active
      items; an option is selected exactly when its value is the non-blank
      selected id. */
  method PopulateSelect(items: seq<Item>, selectedId: string) returns (opts: seq<Opt>)
    ensures opts == [Placeholder] + Shown(items, selectedId)
    ensures forall k :: 0 < k < |opts| ==> (opts[k].selected <==> selectedId != "" && opts[k].value == selectedId)
  {
    opts := [Placeholder];
    var i := 0;
    while i < |items|
      invariant 0 <= i <= |items|
      invariant opts == [Placeholder] + Shown(items[..i], selectedId)
    {
      ShownStep(items, i, selectedId);
      var it := items[i];
      if Active(it) {
        opts := opts + [OptionOf(it, selectedId)];
      }
      i := i + 1;
    }
    assert items[..i] == items;
    ShownSelected(items, selectedId);
    forall k | 0 < k < |opts|
      ensures opts[k].selected <==> selectedId != "" && opts[k].value == selectedId
    {
      assert opts[k] == Shown(items, selectedId)[k - 1];
    }
  }

  /** One more item adds its option when it is active. */
  lemma ShownStep(items: seq<Item>, i: int, selectedId: string)
    requires 0 <= i < |items|
    ensures Shown(items[..i + 1], selectedId)
      == if Active(items[i]) then Shown(items[..i], selectedId) + [OptionOf(items[i], selectedId)] else Shown(items[..i], selectedId)
  {
    assert items[..i + 1][..i] == items[..i];
  }

  /** Every shown option is selected exactly when its value is the
      non-blank selected id. */
  lemma ShownSelected(items: seq<Item>, selectedId: string)
    ensures forall k :: 0 <= k < |Shown(items, selectedId)| ==>
      (Shown(items, selectedId)[k].selected <==> selectedId != "" && Shown(items, selectedId)[k].value == selectedId)
  {
    var r := Shown(items, selectedId);
    ShownMembers(items, selectedId);
    forall k | 0 <= k < |r| ensures r[k].selected <==> selectedId != "" && r[k].value == selectedId {
      assert r[k] in r;
    }
  }

  // ----- the lookup caches -----

  datatype Desc = Desc(id: string, description: string, cost: real)

  /** The description cache key: category and subcategory joined by "::". */
  function DescKey(category: string, subcategory: string): string
  {
    category + "::" + subcategory
  }

  /** The joined key does not tell the pair apart: a "::" inside either
      name lets two different pairs share one cache entry. */
  lemma DescKeyShared(a: string, b: string, c: string)
    ensures DescKey(a + "::" + b, c) == DescKey(a, b + "::" + c)
  {
  }

  class Caches {
    var cats: seq<string>
    var subCache: map<string, seq<string>>
    var descCache: map<string, seq<Desc>>

    constructor()
      ensures cats == [] && subCache == map[] && descCache == map[]
    {
      cats := [];
      subCache := map[];
      descCache := map[];
    }

    /** loadCats: the held list when it is non-empty, else the server's
        list, which is then held. */
    method LoadCats(server: seq<string>) returns (list: seq<string>, fetched: bool)
      modifies this`cats
      ensures fetched <==> old(cats) == []
      ensures !fetched ==> list == old(cats) && cats == old(cats)
      ensures fetched ==> list == server && cats == server
    {
      if |cats| > 0 {
        return cats, false;
      }
      cats := server;
      return cats, true;
    }

    /** loadSubs: [] for a blank category without asking the server; the
        cached list when there is one; otherwise the server's list, which
        is then cached under the category. */
    method LoadSubs(category: string, server: string -> seq<string>) returns (list: seq<string>, fetched: bool)
      modifies this`subCache
      ensures fetched <==> category != "" && category !in old(subCache)
      ensures category == "" ==> list == [] && subCache == old(subCache)
      ensures category != "" && category in old(subCache) ==> list == old(subCache)[category] && subCache == old(subCache)
      ensures fetched ==> list == server(category) && subCache == old(subCache)[category := list]
    {
      if category == "" {
        return [], false;
      }
      if category in subCache {
        return subCache[category], false;
      }
      list := server(category);
      subCache := subCache[category := list];
      fetched := true;
    }

    /** loadDescs: [] when either name is blank, without asking the server;
        the list cached under the joined key when there is one; otherwise
        the server's list, which is then cached under that key. */
    method LoadDescs(category: string, subcategory: string, server: (string, string) -> seq<Desc>)
      returns (list: seq<Desc>, fetched: bool)
      modifies this`descCache
      ensures var key := DescKey(category, subcategory);
        && (fetched <==> category != "" && subcategory != "" && key !in old(descCache))
        && (category == "" || subcategory == "" ==> list == [] && descCache == old(descCache))
        && (category != "" && subcategory != "" && key in old(descCache) ==>
              list == old(descCache)[key] && descCache == old(descCache))
        && (fetched ==> list == server(category, subcategory) && descCache == old(descCache)[key := list])
    {
      var key := DescKey(category, subcategory);
      if category == "" || subcategory == "" {
        return [], false;
      }
      if key in descCache {
        return descCache[key], false;
      }
      list := server(category, subcategory);
      descCache := descCache[key := list];
      fetched := true;
    }
  }

  // ----- rows collected for saving -----

  /** A table row as the collector sees it: the data-row attribute of its
      first element that has one (None when no element has), and the
      values of its inputs and selects (None when the element is missing). */
  datatype DomRow = DomRow(
    dataRow: Option<string>,
    notes: Option<string>,
    cat: Option<string>,
    sub: Option<string>,
    desc: Option<string>,
    qty: Option<string>,
    multi: Option<string>)

  /** One saved row of estimateData.costs.dje_rows. */
  datatype SavedRow = SavedRow(notes: string, catId: string, subId: string, descId: string, qty: string, multi: string)

  /** `el?.value || d`: a missing element or an empty value reads as d. */
  function OrElse(v: Option<string>, d: string): (r: string)
    ensures v.Some? && v.value != "" ==> r == v.value
    ensures v.None? || v.value == "" ==> r == d
  {
    if v.None? || v.value == "" then d else v.value
  }

  /** The slot a row is saved at: its data-row read by parseInt (an empty
      attribute reads as -1); None when there is no data-row, it does not
      parse, or it is negative. */
  function RowIndex(tr: DomRow): (r: Option<nat>)
    ensures r.Some? <==> tr.dataRow.Some? && JsParseInt(tr.dataRow.value).Some? && JsParseInt(tr.dataRow.value).value >= 0
    ensures r.Some? ==> r.value as int == JsParseInt(tr.dataRow.value).value
    ensures tr.dataRow.Some? && AllDigits(tr.dataRow.value) && tr.dataRow.value != [] ==> r == Some(DigitsValue(tr.dataRow.value))
  {
    assert JsParseInt("") == None by { assert TrimStart("") == ""; }
    assert tr.dataRow.Some? && AllDigits(tr.dataRow.value) && tr.dataRow.value != [] ==>
      JsParseInt(tr.dataRow.value) == Some(DigitsValue(tr.dataRow.value)) by {
      if tr.dataRow.Some? && AllDigits(tr.dataRow.value) && tr.dataRow.value != [] {
        ParseIntOfDigits(tr.dataRow.value);
      }
    }
    if tr.dataRow.None? then None
    else match JsParseInt(OrElse(tr.dataRow, "-1"))
      case None => None
      case Some(i) => if i < 0 then None else Some(i)
  }

  /** The values a row is saved with; a missing or empty multiplier is "1". */
  function Saved(tr: DomRow): SavedRow
  {
    SavedRow(OrElse(tr.notes, ""), OrElse(tr.cat, ""), OrElse(tr.sub, ""), OrElse(tr.desc, ""),
             OrElse(tr.qty, ""), OrElse(tr.multi, "1"))
  }

  /** n empty slots of a JavaScript array. */
  function Holes(n: nat): (r: seq<Option<SavedRow>>)
    ensures |r| == n && forall k :: 0 <= k < n ==> r[k].None?
  {
    seq(n, _ => None)
  }

  /** `rows[i] = r`: slot i is set, the array growing with empty slots
      when i lies beyond its end. */
  function Place(rows: seq<Option<SavedRow>>, i: nat, r: SavedRow): (out: seq<Option<SavedRow>>)
    ensures |out| == if i < |rows| then |rows| else i + 1
    ensures forall k :: 0 <= k < |out| ==> out[k] == if k == i then Some(r) else if k < |rows| then rows[k] else None
  {
    if i < |rows| then rows[i := Some(r)] else rows + Holes(i - |rows|) + [Some(r)]
  }

  /** The array after the collecting loop over the rows in table order. */
  function Fill(trs: seq<DomRow>): seq<Option<SavedRow>>
  {
    if trs == [] then []
    else
      var init := Fill(trs[..|trs| - 1]);
      var tr := trs[|trs| - 1];
      match RowIndex(tr)
      case None => init
      case Some(i) => Place(init, i, Saved(tr))
  }

  /** The row saved at slot k: that of the last table row whose data-row
      reads as k, if any. */
  function LastAt(trs: seq<DomRow>, k: nat): Option<SavedRow>
  {
    if trs == [] then None
    else
      var tr := trs[|trs| - 1];
      if RowIndex(tr) == Some(k) then Some(Saved(tr)) else LastAt(trs[..|trs| - 1], k)
  }

  /** The trailing empty slots popped. */
  function PopTrailing(rows: seq<Option<SavedRow>>): (r: seq<Option<SavedRow>>)
    ensures |r| <= |rows| && r == rows[..|r|]
    ensures r == [] || r[|r| - 1].Some?
    ensures forall k :: |r| <= k < |rows| ==> rows[k].None?
  {
    if rows != [] && rows[|rows| - 1].None? then PopTrailing(rows[..|rows| - 1]) else rows
  }

  /** Every slot of the filled array holds the row of the last table row
      placed there, and no table row is placed beyond its end. */
  lemma {:induction false} FillLastAt(trs: seq<DomRow>)
    ensures forall k: nat :: k < |Fill(trs)| ==> Fill(trs)[k] == LastAt(trs, k)
    ensures forall k: nat :: k >= |Fill(trs)| ==> LastAt(trs, k).None?
  {
    if trs != [] {
      FillLastAt(trs[..|trs| - 1]);
    }
  }

  /** djeCollectRowsFromDOM: each row with a usable data-row is put at
      that slot, later rows winning, and trailing empty slots are popped. */
  method CollectRows(trs: seq<DomRow>) returns (rows: seq<Option<SavedRow>>)
    ensures rows == PopTrailing(Fill(trs))
  {
    rows := [];
    var j := 0;
    while j < |trs|
      invariant 0 <= j <= |trs|
      invariant rows == Fill(trs[..j])
    {
      assert trs[..j + 1][..j] == trs[..j];
      var tr := trs[j];
      var i := RowIndex(tr);
      if i.Some? {
        rows := Place(rows, i.value, Saved(tr));
      }
      j := j + 1;
    }
    assert trs[..j] == trs;
    while |rows| > 0 && rows[|rows| - 1].None?
      invariant PopTrailing(rows) == PopTrailing(Fill(trs))
    {
      rows := rows[..|rows| - 1];
    }
  }

  /** What the collector saves: slot k holds the row of the last table row
      whose data-row reads as k (empty when there is none), nothing lies
      beyond the last such slot, and the last entry is never empty. */
  lemma CollectRowsSaves(trs: seq<DomRow>)
    ensures PopTrailing(Fill(trs)) == [] || PopTrailing(Fill(trs))[|PopTrailing(Fill(trs))| - 1].Some?
    ensures forall k: nat :: k < |PopTrailing(Fill(trs))| ==> PopTrailing(Fill(trs))[k] == LastAt(trs, k)
    ensures forall k: nat :: k >= |PopTrailing(Fill(trs))| ==> LastAt(trs, k).None?
  {
    var f := Fill(trs);
    var r := PopTrailing(f);
    FillLastAt(trs);
    assert forall k: nat :: k < |r| ==> r[k] == f[k];
    assert forall k: nat :: |r| <= k < |f| ==> f[k].None?;
  }

  /** A row without a data-row is never saved. */
  lemma {:induction false} RowWithoutIndexSkipped(trs: seq<DomRow>, tr: DomRow)
    requires tr.dataRow.None?
    ensures Fill(trs + [tr]) == Fill(trs)
  {
    assert (trs + [tr])[..|trs|] == trs;
  }

  // ----- the table -----

  /** One table line: its data-row index, the cell values and the cost and
      extension it shows. */
  datatype Line = Line(
    index: int,
    notes: string,
    cat: string,
    sub: string,
    desc: string,
    qty: string,
    multi: string,
    cost: real,
    ext: real)

  /** A line as appendRow builds it and the reset leaves it. */
  function BlankLine(i: int): Line
  {
    Line(i, "", "", "", "", "", "1", 0.0, 0.0)
  }

  function BlankLines(n: nat): (r: seq<Line>)
    ensures |r| == n && forall k :: 0 <= k < n ==> r[k] == BlankLine(k)
  {
    seq(n, k => BlankLine(k))
  }

  /** The lines carry data-row indices 0, 1, 2, ... in table order. */
  predicate Numbered(lines: seq<Line>)
  {
    forall k :: 0 <= k < |lines| ==> lines[k].index == k
  }

  /** The sum of the extensions shown. */
  function SumExt(lines: seq<Line>): real
  {
    if lines == [] then 0.0 else SumExt(lines[..|lines| - 1]) + lines[|lines| - 1].ext
  }

  lemma {:induction false} SumExtNonNegative(lines: seq<Line>)
    requires forall k :: 0 <= k < |lines| ==> lines[k].ext >= 0.0
    ensures SumExt(lines) >= 0.0
  {
    if lines != [] {
      SumExtNonNegative(lines[..|lines| - 1]);
    }
  }

  lemma {:induction false} SumExtBlank(n: nat)
    ensures SumExt(BlankLines(n)) == 0.0
  {
    if n > 0 {
      SumExtBlank(n - 1);
      assert BlankLines(n)[..n - 1] == BlankLines(n - 1);
    }
  }

  /** At least ten lines numbered in order, every extension non-negative. */
  predicate TableShape(lines: seq<Line>)
  {
    |lines| >= 10 && Numbered(lines) && forall k :: 0 <= k < |lines| ==> lines[k].ext >= 0.0
  }

  /** Showing a new non-negative extension on one line keeps the shape. */
  lemma SetExtKeepsShape(lines: seq<Line>, i: nat, e: real)
    requires TableShape(lines) && i < |lines| && e >= 0.0
    ensures TableShape(lines[i := lines[i].(ext := e)])
  {
  }

  class Table {
    var lines: seq<Line>
    /** The header total, also written to estimateData.costs.dje. */
    var total: real

    /** The page keeps at least ten lines numbered in order, and every
        extension shown is non-negative. */
    ghost predicate Valid()
      reads this
    {
      TableShape(lines)
    }

    /** The page opens with max(10, number of saved rows) blank lines. */
    constructor(savedCount: nat)
      ensures Valid()
      ensures lines == BlankLines(if savedCount > 10 then savedCount else 10) && total == 0.0
    {
      lines := BlankLines(if savedCount > 10 then savedCount else 10);
      total := 0.0;
    }

    /** ensureAutogrow(idx): one blank line numbered idx + 1 is appended
        exactly when the last line's data-row is idx. */
    method EnsureAutogrow(idx: int)
      modifies this`lines
      ensures var grows := |old(lines)| > 0 && old(lines)[|old(lines)| - 1].index == idx;
        && (grows ==> lines == old(lines) + [BlankLine(idx + 1)])
        && (!grows ==> lines == old(lines))
      ensures old(Valid()) ==> Valid()
    {
      if |lines| > 0 && lines[|lines| - 1].index == idx {
        lines := lines + [BlankLine(idx + 1)];
      }
    }

    /** updateHeaderTotal: the sum of the extensions shown. */
    method UpdateHeaderTotal()
      requires Valid()
      modifies this`total
      ensures total == SumExt(lines) && total >= 0.0
    {
      var acc := 0.0;
      var j := 0;
      while j < |lines|
        invariant 0 <= j <= |lines|
        invariant acc == SumExt(lines[..j])
      {
        assert lines[..j + 1][..j] == lines[..j];
        acc := acc + lines[j].ext;
        j := j + 1;
      }
      assert lines[..j] == lines;
      SumExtNonNegative(lines);
      total := acc;
    }

    /** recalcRow(i): line i's extension from its quantity, multiplier
        and cost; then the header total. */
    method RecalcRow(i: int)
      requires Valid()
      modifies this
      ensures Valid()
      ensures 0 <= i < |old(lines)| ==>
        lines == old(lines)[i := old(lines)[i].(ext := LineExt(old(lines)[i].qty, old(lines)[i].multi, old(lines)[i].cost))]
      ensures !(0 <= i < |old(lines)|) ==> lines == old(lines)
      ensures total == SumExt(lines) && total >= 0.0
    {
      if 0 <= i < |lines| {
        var l := lines[i];
        var e := LineExt(l.qty, l.multi, l.cost);
        SetExtKeepsShape(lines, i, e);
        lines := lines[i := l.(ext := e)];
      }
      UpdateHeaderTotal();
    }

    /** The reset button: lines 0 to 49 are blanked in turn. Clearing a
        line's quantity fires its input handler, which grows the table when
        that line is the last, so the walk never runs out of lines. The
        table is then cut back to its first ten lines and the total
        recomputed: ten blank lines and a total of 0 remain. */
    method Reset()
      requires Valid()
      modifies this
      ensures Valid()
      ensures lines == BlankLines(10) && total == 0.0
    {
      var i := 0;
      while i < 50
        invariant 0 <= i <= 50
        invariant Valid() && i < |lines|
        invariant forall k :: 0 <= k < i ==> lines[k] == BlankLine(k)
      {
        lines := lines[i := BlankLine(i)];
        EnsureAutogrow(i);
        i := i + 1;
      }
      lines := lines[..10];
      assert lines == BlankLines(10);
      SumExtBlank(10);
      UpdateHeaderTotal();
    }
  }
}
