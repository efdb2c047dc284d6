// The estimator grid script (app/static/js/estimator.js): HTML escaping,
// the loose number parsers, quantity clean-up, the per-row extension
// math, row autogrowth guarded by the set of expanded indices, the reset
// to the ten base rows, and reading the saved grid back from storage.
//
// The grid is a sequence of rows, each carrying its data-row index and the
// values of its cells; DOM construction, focus handling, debounced saves
// and the description fetches are not modelled.
module Estimator {
  import opened Wrappers
  import opened Text
  import opened NumParse
  import opened Json
  import opened Storage
  import Keys
  import Calculations

  // ----- escapeHtml -----

  /** `s.replaceAll(c, r)` for a one-character pattern. */
  function ReplaceAll(s: string, c: char, r: string): string
  {
    if s == [] then []
    else (if s[0] == c then r else [s[0]]) + ReplaceAll(s[1..], c, r)
  }

  /** escapeHtml(s): "&" first, then <, >, " and '. */
  function EscapeHtml(s: string): string
  {
    ReplaceAll(ReplaceAll(ReplaceAll(ReplaceAll(ReplaceAll(
      s, '&', "&amp;"), '<', "&lt;"), '>', "&gt;"), '"', "&quot;"), '\'', "&#039;")
  }

  /** The entity a character is written as, or the character itself. */
  function EscapeChar(c: char): string
  {
    if c == '&' then "&amp;"
    else if c == '<' then "&lt;"
    else if c == '>' then "&gt;"
    else if c == '"' then "&quot;"
    else if c == '\'' then "&#039;"
    else [c]
  }

  /** Escaping character by character, in one pass. */
  function EscapeAll(s: string): string
  {
    if s == [] then [] else EscapeChar(s[0]) + EscapeAll(s[1..])
  }

  lemma {:induction false} ReplaceAllAppend(a: string, b: string, c: char, r: string)
    ensures ReplaceAll(a + b, c, r) == ReplaceAll(a, c, r) + ReplaceAll(b, c, r)
  {
    if a == [] {
      assert a + b == b;
    } else {
      assert (a + b)[0] == a[0];
      assert (a + b)[1..] == a[1..] + b;
      ReplaceAllAppend(a[1..], b, c, r);
    }
  }

  lemma {:induction false} ReplaceAllAbsent(s: string, c: char, r: string)
    requires forall i :: 0 <= i < |s| ==> s[i] != c
    ensures ReplaceAll(s, c, r) == s
  {
    if s != [] {
      ReplaceAllAbsent(s[1..], c, r);
    }
  }

  lemma EscapeHtmlAppend(a: string, b: string)
    ensures EscapeHtml(a + b) == EscapeHtml(a) + EscapeHtml(b)
  {
    var s1a, s1b := ReplaceAll(a, '&', "&amp;"), ReplaceAll(b, '&', "&amp;");
    ReplaceAllAppend(a, b, '&', "&amp;");
    var s2a, s2b := ReplaceAll(s1a, '<', "&lt;"), ReplaceAll(s1b, '<', "&lt;");
    ReplaceAllAppend(s1a, s1b, '<', "&lt;");
    var s3a, s3b := ReplaceAll(s2a, '>', "&gt;"), ReplaceAll(s2b, '>', "&gt;");
    ReplaceAllAppend(s2a, s2b, '>', "&gt;");
    var s4a, s4b := ReplaceAll(s3a, '"', "&quot;"), ReplaceAll(s3b, '"', "&quot;");
    ReplaceAllAppend(s3a, s3b, '"', "&quot;");
    ReplaceAllAppend(s4a, s4b, '\'', "&#039;");
  }

  lemma ReplaceAllSingle(c: char, p: char, r: string)
    ensures ReplaceAll([c], p, r) == if c == p then r else [c]
  {
    assert [c][0] == c && [c][1..] == [];
  }

  /** On one character the five replacements give its entity: an entity
      written by one step holds none of the later patterns. */
  lemma EscapeHtmlChar(c: char)
    ensures EscapeHtml([c]) == EscapeChar(c)
  {
    var e := EscapeChar(c);
    EntityChars(c);
    ReplaceAllSingle(c, '&', "&amp;");
    var s1 := ReplaceAll([c], '&', "&amp;");
    if c == '&' { ReplaceAllAbsent(s1, '<', "&lt;"); } else { ReplaceAllSingle(c, '<', "&lt;"); }
    var s2 := ReplaceAll(s1, '<', "&lt;");
    if c == '&' || c == '<' { ReplaceAllAbsent(s2, '>', "&gt;"); } else { ReplaceAllSingle(c, '>', "&gt;"); }
    var s3 := ReplaceAll(s2, '>', "&gt;");
    if c == '&' || c == '<' || c == '>' { ReplaceAllAbsent(s3, '"', "&quot;"); } else { ReplaceAllSingle(c, '"', "&quot;"); }
    var s4 := ReplaceAll(s3, '"', "&quot;");
    if c == '&' || c == '<' || c == '>' || c == '"' { ReplaceAllAbsent(s4, '\'', "&#039;"); } else { ReplaceAllSingle(c, '\'', "&#039;"); }
  }

  /** Replacing "&" first makes the five passes the same as escaping each
      character once: no entity is escaped again. */
  lemma {:induction false} EscapeHtmlOnePass(s: string)
    ensures EscapeHtml(s) == EscapeAll(s)
  {
    if s == [] {
    } else {
      assert s == [s[0]] + s[1..];
      EscapeHtmlAppend([s[0]], s[1..]);
      EscapeHtmlChar(s[0]);
      EscapeHtmlOnePass(s[1..]);
    }
  }

  predicate Special(c: char)
  {
    c == '<' || c == '>' || c == '"' || c == '\''
  }

  /** The entity s begins with, as the character it stands for and its
      length: &amp; &lt; &gt; &quot; and &#039;. */
  function EntityAt(s: string): Option<(char, nat)>
  {
    if |s| >= 4 && s[0] == '&' && s[1] == 'l' && s[2] == 't' && s[3] == ';' then Some(('<', 4))
    else if |s| >= 4 && s[0] == '&' && s[1] == 'g' && s[2] == 't' && s[3] == ';' then Some(('>', 4))
    else if |s| >= 5 && s[0] == '&' && s[1] == 'a' && s[2] == 'm' && s[3] == 'p' && s[4] == ';' then Some(('&', 5))
    else if |s| >= 6 && s[0] == '&' && s[1] == 'q' && s[2] == 'u' && s[3] == 'o' && s[4] == 't' && s[5] == ';' then Some(('"', 6))
    else if |s| >= 6 && s[0] == '&' && s[1] == '#' && s[2] == '0' && s[3] == '3' && s[4] == '9' && s[5] == ';' then Some(('\'', 6))
    else None
  }

  predicate StartsEntity(s: string)
  {
    EntityAt(s).Some?
  }

  /** The characters of each entity: only the first is "&", none is one of
      < > " ', and the entity is read back as its character. */
  lemma EntityChars(c: char)
    ensures var e := EscapeChar(c);
      && (forall k :: 0 <= k < |e| ==> !Special(e[k]))
      && (forall k :: 0 < k < |e| ==> e[k] != '&')
      && (c == '&' || Special(c) ==> |e| >= 4 && e[0] == '&')
      && (c != '&' && !Special(c) ==> e == [c])
  {
  }

  lemma EntityOfEscape(c: char, rest: string)
    ensures EntityAt(EscapeChar(c) + rest)
            == if c == '&' || Special(c) then Some((c, |EscapeChar(c)|)) else None
  {
    var t := EscapeChar(c) + rest;
    if c == '&' {
      assert t[0] == '&' && t[1] == 'a' && t[2] == 'm' && t[3] == 'p' && t[4] == ';';
    } else if c == '<' {
      assert t[0] == '&' && t[1] == 'l' && t[2] == 't' && t[3] == ';';
    } else if c == '>' {
      assert t[0] == '&' && t[1] == 'g' && t[2] == 't' && t[3] == ';';
    } else if c == '"' {
      assert t[0] == '&' && t[1] == 'q' && t[2] == 'u' && t[3] == 'o' && t[4] == 't' && t[5] == ';';
    } else if c == '\'' {
      assert t[0] == '&' && t[1] == '#' && t[2] == '0' && t[3] == '3' && t[4] == '9' && t[5] == ';';
    } else {
      assert t[0] == c;
    }
  }

  /** Reading entities back: the inverse of escaping. */
  function Unescape(s: string): string
    decreases |s|
  {
    if s == [] then []
    else match EntityAt(s)
      case Some((c, n)) => [c] + Unescape(s[n..])
      case None => [s[0]] + Unescape(s[1..])
  }

  lemma UnescapeStep(c: char, rest: string)
    ensures Unescape(EscapeChar(c) + rest) == [c] + Unescape(rest)
  {
    var e := EscapeChar(c);
    var t := e + rest;
    EntityOfEscape(c, rest);
    EntityChars(c);
    assert t[|e|..] == rest;
    if c != '&' && !Special(c) {
      assert t[0] == c && t[1..] == rest;
    }
  }

  /** Unescaping the output of escapeHtml gives back the input, so no two
      strings escape alike. */
  lemma {:induction false} EscapeRoundTrip(s: string)
    ensures Unescape(EscapeHtml(s)) == s
  {
    EscapeHtmlOnePass(s);
    EscapeAllRoundTrip(s);
  }

  lemma {:induction false} EscapeAllRoundTrip(s: string)
    ensures Unescape(EscapeAll(s)) == s
  {
    if s != [] {
      UnescapeStep(s[0], EscapeAll(s[1..]));
      EscapeAllRoundTrip(s[1..]);
    }
  }

  /** The output of escapeHtml holds none of < > " ' and every "&" in it
      begins one of the five entities. */
  lemma {:induction false} EscapeHtmlSafe(s: string)
    ensures forall i :: 0 <= i < |EscapeHtml(s)| ==> !Special(EscapeHtml(s)[i])
    ensures forall i :: 0 <= i < |EscapeHtml(s)| && EscapeHtml(s)[i] == '&' ==> StartsEntity(EscapeHtml(s)[i..])
  {
    EscapeHtmlOnePass(s);
    EscapeAllSafe(s);
  }

  lemma {:induction false} EscapeAllSafe(s: string)
    ensures forall i :: 0 <= i < |EscapeAll(s)| ==> !Special(EscapeAll(s)[i])
    ensures forall i :: 0 <= i < |EscapeAll(s)| && EscapeAll(s)[i] == '&' ==> StartsEntity(EscapeAll(s)[i..])
  {
    if s != [] {
      EscapeAllSafe(s[1..]);
      var e, t := EscapeChar(s[0]), EscapeAll(s[1..]);
      var r := e + t;
      assert r == EscapeAll(s);
      EntityChars(s[0]);
      EntityOfEscape(s[0], t);
      forall i | 0 <= i < |r|
        ensures !Special(r[i])
        ensures r[i] == '&' ==> StartsEntity(r[i..])
      {
        if i < |e| {
          assert r[i] == e[i];
          assert !Special(e[i]);
          if i == 0 {
            assert r[i..] == r;
            assert r[0] == '&' ==> s[0] == '&' || Special(s[0]);
          } else {
            assert e[i] != '&';
          }
        } else {
          var j := i - |e|;
          assert r[i] == t[j];
          assert !Special(t[j]);
          assert r[i..] == t[j..];
          assert t[j] == '&' ==> StartsEntity(t[j..]);
        }
      }
    }
  }

  // ----- loose number parsing -----

  /** The values the helpers receive: null, a number (None for NaN or an
      infinity), or a string. */
  datatype JsValue = JsNull | JsNumber(n: Option<real>) | JsString(s: string)

  /** toNumberLoose: null is 0; a number is itself when finite, else 0; a
      string loses "$" and ",", is trimmed and read by parseFloat, with 0
      for NaN. */
  function ToNumberLoose(v: JsValue): real
  {
    match v
    case JsNull => 0.0
    case JsNumber(n) => n.GetOr(0.0)
    case JsString(s) => JsParseFloat(Trim(RemoveChars(s, {'$', ','}))).GetOr(0.0)
  }

  /** toIntLoose: 0 for anything not above 0, else the floor. */
  function ToIntLoose(v: JsValue): (n: int)
    ensures n >= 0
    ensures ToNumberLoose(v) <= 0.0 ==> n == 0
    ensures ToNumberLoose(v) > 0.0 ==> n as real <= ToNumberLoose(v) < n as real + 1.0
  {
    var x := ToNumberLoose(v);
    if x <= 0.0 then 0 else x.Floor
  }

  /** A digit string is already trimmed and has nothing to remove. */
  lemma {:induction false} CleanDigits(s: string)
    requires AllDigits(s) && s != []
    ensures Trim(RemoveChars(s, {'$', ','})) == s
  {
    assert RemoveChars(s, {'$', ','}) == s;
    assert !IsSpace(s[0]) && !IsSpace(s[|s| - 1]);
    assert TrimStart(s) == s;
    assert TrimEnd(s) == s;
  }

  /** A currency sign in front is removed before parsing. */
  lemma DollarIgnored(s: string)
    ensures ToNumberLoose(JsString("$" + s)) == ToNumberLoose(JsString(s))
  {
    var d := "$" + s;
    assert d[0] == '$' && d[1..] == s;
    assert RemoveChars(d, {'$', ','}) == RemoveChars(s, {'$', ','});
  }

  /** The loose parsers read a digit string as its value. */
  lemma {:induction false} ToNumberLooseOfDigits(s: string)
    requires AllDigits(s) && s != []
    ensures ToNumberLoose(JsString(s)) == DigitsValue(s) as real
    ensures ToIntLoose(JsString(s)) == DigitsValue(s)
  {
    assert ToNumberLoose(JsString(s)) == DigitsValue(s) as real by {
      CleanDigits(s);
      JsParseFloatOfDigits(s);
    }
    IntOfWhole(JsString(s), DigitsValue(s));
  }

  /** A value that reads as a whole number n >= 0 is read by toIntLoose as n. */
  lemma IntOfWhole(v: JsValue, n: nat)
    requires ToNumberLoose(v) == n as real
    ensures ToIntLoose(v) == n
  {
  }

  /** Null and a blank cell read as 0. */
  lemma BlankIsZero()
    ensures ToNumberLoose(JsString("")) == 0.0 && ToIntLoose(JsString("")) == 0
    ensures ToNumberLoose(JsNull) == 0.0 && ToIntLoose(JsNull) == 0
  {
    assert Trim(RemoveChars("", {'$', ','})) == "";
    assert JsParseFloat("") == None;
  }

  // ----- quantity clean-up -----

  /** `replace(/^0+(?=\d)/, '')` on a digit string: leading zeros go while
      a digit follows them. */
  function StripLeadingZeros(d: string): (r: string)
    requires AllDigits(d)
    ensures AllDigits(r) && |r| <= |d|
    ensures (d == []) == (r == [])
    ensures r != [] ==> DigitsValue(r) == DigitsValue(d) && Canonical(r)
    decreases |d|
  {
    if |d| >= 2 && d[0] == '0' then
      DropLeadingZero(d);
      StripLeadingZeros(d[1..])
    else
      d
  }

  /** A leading zero adds nothing to a digit string's value. */
  lemma {:induction false} DropLeadingZero(d: string)
    requires AllDigits(d) && |d| >= 2 && d[0] == '0'
    ensures DigitsValue(d[1..]) == DigitsValue(d)
    decreases |d|
  {
    if |d| > 2 {
      DropLeadingZero(d[..|d| - 1]);
      assert d[..|d| - 1][1..] == d[1..][..|d| - 2];
    }
  }

  /** sanitizeQtyInput: digits only, then no superfluous leading zero. */
  function SanitizeQty(s: string): (r: string)
    ensures r == [] || Canonical(r)
  {
    StripLeadingZeros(Digits(s))
  }

  /** Sanitizing an already sanitized quantity changes nothing. */
  lemma SanitizeQtyIdempotent(s: string)
    ensures SanitizeQty(SanitizeQty(s)) == SanitizeQty(s)
  {
    var r := SanitizeQty(s);
    assert Digits(r) == r;
  }

  /** formatQtyOnBlur: "" without digits, else String(parseInt(digits)). */
  function FormatQtyOnBlur(s: string): (r: string)
    ensures r == [] <==> Digits(s) == []
    ensures r != [] ==> AllDigits(r) && (r[0] == '0' ==> DigitsValue(Digits(s)) == 0)
  {
    var d := Digits(s);
    if d == [] then "" else NatToString(DigitsValue(d))
  }

  /** Blur formatting gives the same text as live sanitizing: the decimal
      rendering of the digits' value, or blank when there are none. */
  lemma FormatQtyMatchesSanitize(s: string)
    ensures FormatQtyOnBlur(s) == SanitizeQty(s)
    ensures FormatQtyOnBlur(s) == [] <==> Digits(s) == []
  {
    var d := Digits(s);
    if d != [] {
      var r := SanitizeQty(s);
      CanonicalRoundTrip(r);
    }
  }

  // ----- row math -----

  /** Mat Ext = qty * price and Labor Hrs = qty * labor unit * labor adj. */
  function Extend(qty: int, price: real, laborUnit: real, laborAdj: real): (real, real)
  {
    (qty as real * price, qty as real * laborUnit * laborAdj)
  }

  /** One row's recalculation from its cells: qty through toIntLoose, the
      other cells through toNumberLoose, and an adjustment of 1 when the
      row has no adjustment select. */
  function RowMath(qty: string, costEa: string, laborUnit: string, laborAdj: Option<string>): (real, real)
  {
    var ladj := if laborAdj.Some? then ToNumberLoose(JsString(laborAdj.value)) else 1.0;
    Extend(ToIntLoose(JsString(qty)), ToNumberLoose(JsString(costEa)), ToNumberLoose(JsString(laborUnit)), ladj)
  }

  /** The row math is the server's calc_line with the labor hours per unit
      scaled by the adjustment; a zero quantity gives 0 for both, and the
      extension grows linearly with the quantity. */
  lemma ExtendMatchesServer(qty: int, price: real, laborUnit: real, laborAdj: real)
    ensures Extend(qty, price, laborUnit, laborAdj).0
      == Calculations.CalcLine("", Some(qty as real), Some(price), Some(laborUnit * laborAdj), None).materialTotal
    ensures Extend(qty, price, laborUnit, laborAdj).1
      == Calculations.CalcLine("", Some(qty as real), Some(price), Some(laborUnit * laborAdj), None).laborTotal
    ensures Extend(0, price, laborUnit, laborAdj) == (0.0, 0.0)
    ensures Extend(qty + 1, price, laborUnit, laborAdj).0 == Extend(qty, price, laborUnit, laborAdj).0 + price
  {
    var l := Calculations.CalcLine("", Some(qty as real), Some(price), Some(laborUnit * laborAdj), None);
    assert l.quantity == qty as real && l.price == price && l.laborHours == laborUnit * laborAdj;
    assert qty as real * laborUnit * laborAdj == qty as real * (laborUnit * laborAdj);
    assert (qty + 1) as real * price == qty as real * price + price;
  }

  /** A quantity that does not read as positive contributes nothing. */
  lemma RowMathNonPositiveQty(qty: string, costEa: string, laborUnit: string, laborAdj: Option<string>)
    requires ToNumberLoose(JsString(qty)) <= 0.0
    ensures RowMath(qty, costEa, laborUnit, laborAdj) == (0.0, 0.0)
  {
  }

  // ----- saved grid -----

  /** loadGridFromStorage: the rows array of a saved {v: 1, rows: [...]};
      null for a missing or empty item, for text JSON.parse refuses
      (parse gives None), and for any other shape. A JavaScript number is
      either JInt or JFloat here. */
  function LoadGrid(raw: Option<string>, parse: string -> Option<Json>): (rows: Option<seq<Json>>)
    ensures raw.None? || raw.value == "" ==> rows.None?
    ensures rows.Some? ==> raw.Some? && parse(raw.value).Some? && parse(raw.value).value.JObj?
    ensures rows.Some? ==> Get(parse(raw.value).value.entries, "rows") == Some(JArr(rows.value))
  {
    if raw.None? || raw.value == "" then None
    else match parse(raw.value)
      case Some(JObj(es)) =>
        var v := Get(es, "v");
        var rs := Get(es, "rows");
        if (v == Some(JInt(1)) || v == Some(JFloat(1.0))) && rs.Some? && rs.value.JArr? then Some(rs.value.items)
        else None
      case _ => None
  }

  /** What saveGridToStorage writes reads back as the same rows; a
      version other than 1 reads as null. */
  lemma LoadGridReadsSave(text: string, parse: string -> Option<Json>, rows: seq<Json>, other: Json)
    requires text != ""
    requires parse(text) == Some(JObj([("v", JInt(1)), ("rows", JArr(rows))]))
    ensures LoadGrid(Some(text), parse) == Some(rows)
    ensures LoadGrid(None, parse).None? && LoadGrid(Some(""), parse).None?
  {
    var es := [("v", JInt(1)), ("rows", JArr(rows))];
    assert Get(es, "v") == Some(JInt(1));
    assert Get(es, "rows") == Some(JArr(rows));
  }

  /** A saved object with another version reads as null. */
  lemma LoadGridRejectsVersion(text: string, parse: string -> Option<Json>, rows: seq<Json>, v: int)
    requires text != "" && v != 1
    requires parse(text) == Some(JObj([("v", JInt(v)), ("rows", JArr(rows))]))
    ensures LoadGrid(Some(text), parse).None?
  {
    var es := [("v", JInt(v)), ("rows", JArr(rows))];
    assert Get(es, "v") == Some(JInt(v));
  }

  // ----- the grid -----

  /** One grid row: its data-row index and its cell values. */
  datatype Row = Row(
    index: int,
    notes: string,
    materialType: string,
    descValue: string,
    qty: string,
    laborAdj: string,
    costEa: string,
    matExt: real,
    laborUnit: string,
    laborHrs: real,
    unit: string)

  /** A row as appendBlankRow builds it and resetEstimate leaves it. */
  function BlankRow(index: int): Row
  {
    Row(index, "", "", "", "", "1", "", 0.0, "", 0.0, "")
  }

  /** getMaxRowIndex: the largest data-row, -1 when there is none above. */
  function MaxIndex(rows: seq<Row>): (m: int)
    ensures m >= -1
    ensures forall i :: 0 <= i < |rows| ==> rows[i].index <= m
  {
    if rows == [] then -1
    else
      var m := MaxIndex(rows[..|rows| - 1]);
      var last := rows[|rows| - 1].index;
      if last > m then last else m
  }

  lemma MaxIndexAppend(rows: seq<Row>, r: Row)
    ensures MaxIndex(rows + [r]) == if r.index > MaxIndex(rows) then r.index else MaxIndex(rows)
  {
    assert (rows + [r])[..|rows|] == rows;
  }

  /** resetEstimate's rows: those with index 10 or more removed, the rest
      blanked in place. */
  function ResetRows(rows: seq<Row>): (r: seq<Row>)
    ensures |r| <= |rows|
    ensures forall i :: 0 <= i < |r| ==> r[i].index < 10 && r[i] == BlankRow(r[i].index)
  {
    if rows == [] then []
    else
      var init := ResetRows(rows[..|rows| - 1]);
      var last := rows[|rows| - 1];
      if last.index >= 10 then init else init + [BlankRow(last.index)]
  }

  /** The grid rows 0, 1, ..., n - 1 as the page first shows them. */
  function BaseRows(n: nat): (r: seq<Row>)
    ensures |r| == n
    ensures forall i :: 0 <= i < n ==> r[i] == BlankRow(i)
  {
    if n == 0 then [] else BaseRows(n - 1) + [BlankRow(n - 1)]
  }

  /** Resetting a grid numbered 0, 1, ... in order leaves the first ten
      base rows (all of them when there are fewer). */
  lemma {:induction false} ResetNumberedGrid(rows: seq<Row>)
    requires forall i :: 0 <= i < |rows| ==> rows[i].index == i
    ensures ResetRows(rows) == BaseRows(if |rows| < 10 then |rows| else 10)
  {
    if rows != [] {
      var init := rows[..|rows| - 1];
      ResetNumberedGrid(init);
      if |rows| > 10 {
        assert rows[|rows| - 1].index >= 10;
      }
    }
  }

  class Grid {
    var rows: seq<Row>
    var expanded: set<int>

    /** Every expanded index lies below the current last index: once a row
        has grown the grid, it is no longer the last row. */
    ghost predicate Valid()
      reads this
    {
      forall e :: e in expanded ==> e < MaxIndex(rows)
    }

    /** The page starts with the ten base rows and nothing expanded. */
    constructor()
      ensures Valid()
      ensures rows == BaseRows(10) && expanded == {}
    {
      rows := BaseRows(10);
      expanded := {};
    }

    /** appendBlankRow(index) */
    method AppendBlankRow(index: int)
      modifies this`rows
      ensures rows == old(rows) + [BlankRow(index)]
    {
      rows := rows + [BlankRow(index)];
    }

    /** autogrowIfLast(idx): a non-negative idx equal to the largest index
        and not yet expanded is recorded, and one blank row numbered one
        past it is appended; anything else changes nothing. */
    method AutogrowIfLast(idx: int)
      requires Valid()
      modifies this
      ensures Valid()
      ensures var grows := idx >= 0 && idx == MaxIndex(old(rows)) && idx !in old(expanded);
        && (grows ==> rows == old(rows) + [BlankRow(idx + 1)] && expanded == old(expanded) + {idx})
        && (!grows ==> rows == old(rows) && expanded == old(expanded))
    {
      if idx < 0 {
        return;
      }
      var max := MaxIndex(rows);
      if idx != max {
        return;
      }
      if idx in expanded {
        return;
      }
      Grow(idx);
    }

    /** The growth step both handlers share: idx is recorded as expanded
        and a blank row numbered one past it is appended, which keeps every
        expanded index below the new last one. */
    method Grow(idx: int)
      requires Valid() && idx == MaxIndex(rows) && idx !in expanded
      modifies this
      ensures Valid()
      ensures rows == old(rows) + [BlankRow(idx + 1)] && expanded == old(expanded) + {idx}
    {
      expanded := expanded + {idx};
      MaxIndexAppend(rows, BlankRow(idx + 1));
      AppendBlankRow(idx + 1);
    }

    /** handleNotesInput: the same rule for the notes cell of row idx, but
        only for text that is not blank after trimming, and without the
        idx >= 0 test (a missing data-row reads as -1). */
    method HandleNotesInput(idx: int, text: string)
      requires Valid()
      modifies this
      ensures Valid()
      ensures var grows := Trim(text) != [] && idx == MaxIndex(old(rows)) && idx !in old(expanded);
        && (grows ==> rows == old(rows) + [BlankRow(idx + 1)] && expanded == old(expanded) + {idx})
        && (!grows ==> rows == old(rows) && expanded == old(expanded))
    {
      if Trim(text) == [] {
        return;
      }
      if idx == MaxIndex(rows) && idx !in expanded {
        Grow(idx);
      }
    }

    /** resetEstimate(): the rows numbered 10 or more are removed and the
        others blanked, the expanded set is cleared, and the totals and
        grid keys of the current namespace are removed from storage. */
    method ResetEstimate(ls: LocalStorage, eid: Option<string>)
      requires ls.Valid()
      modifies this, ls
      ensures Valid() && ls.Valid()
      ensures rows == ResetRows(old(rows)) && expanded == {}
      ensures ls.items == Drop(Drop(old(ls.items), Keys.KeysFor(eid).totalsKey), Keys.KeysFor(eid).gridKey)
    {
      var kept: seq<Row> := [];
      var i := 0;
      while i < |rows|
        invariant 0 <= i <= |rows|
        invariant kept == ResetRows(rows[..i])
      {
        assert rows[..i + 1][..i] == rows[..i];
        if rows[i].index < 10 {
          kept := kept + [BlankRow(rows[i].index)];
        }
        i := i + 1;
      }
      assert rows[..i] == rows;
      rows := kept;
      expanded := {};
      var k := Keys.KeysFor(eid);
      ls.RemoveItem(k.totalsKey);
      ls.RemoveItem(k.gridKey);
    }
  }

  /** The expanded-set guard never blocks a row that is last: in a valid
      grid the last index is never in the set, so growth happens exactly
      when the index is the last one. */
  lemma GuardFollowsFromLast(rows: seq<Row>, expanded: set<int>, idx: int)
    requires forall e :: e in expanded ==> e < MaxIndex(rows)
    requires idx == MaxIndex(rows)
    ensures idx !in expanded
  {
  }
}
