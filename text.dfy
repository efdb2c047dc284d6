// Character classes and string helpers shared by the Python and JavaScript
// models: whitespace trimming, whitespace-run collapsing, ASCII lower-casing,
// digit filtering, prefix/suffix/substring tests and comma splitting.
//
// Whitespace is the ASCII set that both Python's str.strip()/\s and
// JavaScript's trim()/\s agree on; digits and letters are ASCII.
module Text {
  import opened Wrappers

  predicate IsSpace(c: char)
  {
    c == ' ' || c == '\t' || c == '\n' || c == '\r' || c == '\U{000B}' || c == '\U{000C}'
  }

  predicate IsDigit(c: char) { '0' <= c <= '9' }

  predicate IsLetter(c: char) { 'A' <= c <= 'Z' || 'a' <= c <= 'z' }

  predicate IsUpper(c: char) { 'A' <= c <= 'Z' }

  function LowerChar(c: char): char
  {
    if IsUpper(c) then (c as int + 32) as char else c
  }

  /** str.lower() / String.toLowerCase() on ASCII letters. */
  function Lower(s: string): (r: string)
    ensures |r| == |s|
    ensures forall i :: 0 <= i < |s| ==> r[i] == LowerChar(s[i])
  {
    seq(|s|, i requires 0 <= i < |s| => LowerChar(s[i]))
  }

  predicate IsLowered(s: string)
  {
    forall i :: 0 <= i < |s| ==> !IsUpper(s[i])
  }

  lemma LowerIsLowered(s: string)
    ensures IsLowered(Lower(s))
    ensures IsLowered(s) ==> Lower(s) == s
  {
  }

  predicate AllDigits(s: string)
  {
    forall i :: 0 <= i < |s| ==> IsDigit(s[i])
  }

  predicate NoSpace(s: string)
  {
    forall i :: 0 <= i < |s| ==> !IsSpace(s[i])
  }

  /** Drops the leading whitespace. */
  function TrimStart(s: string): (r: string)
    ensures |r| <= |s|
    ensures r == [] || !IsSpace(r[0])
  {
    if s == [] || !IsSpace(s[0]) then s else TrimStart(s[1..])
  }

  /** What TrimStart drops is whitespace. */
  lemma {:induction false} TrimStartDropsSpaces(s: string)
    ensures forall i :: 0 <= i < |s| - |TrimStart(s)| ==> IsSpace(s[i])
    ensures TrimStart(s) == s[|s| - |TrimStart(s)|..]
  {
    if s != [] && IsSpace(s[0]) {
      TrimStartDropsSpaces(s[1..]);
      assert forall i :: 1 <= i < |s| ==> s[1..][i - 1] == s[i];
      assert s[1..][|s| - 1 - |TrimStart(s)|..] == s[|s| - |TrimStart(s)|..];
    }
  }

  /** Drops the trailing whitespace. */
  function TrimEnd(s: string): (r: string)
    ensures |r| <= |s| && r == s[..|r|]
    ensures r == [] || !IsSpace(r[|r| - 1])
  {
    if s == [] || !IsSpace(s[|s| - 1]) then s else TrimEnd(s[..|s| - 1])
  }

  /** What TrimEnd drops is whitespace. */
  lemma {:induction false} TrimEndDropsSpaces(s: string)
    ensures forall i :: |TrimEnd(s)| <= i < |s| ==> IsSpace(s[i])
  {
    if s != [] && IsSpace(s[|s| - 1]) {
      TrimEndDropsSpaces(s[..|s| - 1]);
    }
  }

  /** PostgreSQL trim(): spaces only. */
  function SqlTrim(s: string): string
  {
    SqlTrimEnd(SqlTrimStart(s))
  }

  function SqlTrimStart(s: string): (r: string)
    ensures |r| <= |s|
  {
    if s != [] && s[0] == ' ' then SqlTrimStart(s[1..]) else s
  }

  function SqlTrimEnd(s: string): (r: string)
    ensures |r| <= |s|
  {
    if s != [] && s[|s| - 1] == ' ' then SqlTrimEnd(s[..|s| - 1]) else s
  }

  /** str.strip() / String.prototype.trim(). */
  function Trim(s: string): string
  {
    TrimEnd(TrimStart(s))
  }

  /** Neither end of the string is whitespace. */
  predicate Trimmed(s: string)
  {
    s == [] || (!IsSpace(s[0]) && !IsSpace(s[|s| - 1]))
  }

  lemma TrimProps(s: string)
    ensures Trimmed(Trim(s))
    ensures exists a, b :: 0 <= a <= b <= |s| && Trim(s) == s[a..b]
    ensures Trimmed(s) ==> Trim(s) == s
    ensures Trim(s) == [] <==> NoSpaceFree(s)
  {
    TrimTrimmed(s);
    TrimIsSlice(s);
    if Trimmed(s) {
      TrimKeepsTrimmed(s);
    }
    TrimEmpty(s);
  }

  /** The stripped text is a slice of the input. */
  lemma TrimIsSlice(s: string)
    ensures Trim(s) == s[|s| - |TrimStart(s)|..|s| - |TrimStart(s)| + |Trim(s)|]
  {
    TrimStartDropsSpaces(s);
    var t := TrimStart(s);
    var u := TrimEnd(t);
    var k := |s| - |t|;
    assert t == s[k..] && u == t[..|u|];
    assert s[k..][..|u|] == s[k..k + |u|];
  }

  /** The stripped text has no whitespace at either end. */
  lemma TrimTrimmed(s: string)
    ensures Trimmed(Trim(s))
  {
    TrimStartDropsSpaces(s);
    var t := TrimStart(s);
    var u := TrimEnd(t);
    if u != [] {
      assert u[0] == t[0];
    }
  }

  /** Stripping leaves nothing exactly when the text is all whitespace. */
  lemma TrimEmpty(s: string)
    ensures Trim(s) == [] <==> NoSpaceFree(s)
  {
    var t := TrimStart(s);
    TrimStartDropsSpaces(s);
    if Trim(s) == [] {
      TrimEndDropsSpaces(t);
      assert t == [];
    }
  }

  /** The string is empty or all whitespace (Python: `not s.strip()`). */
  predicate NoSpaceFree(s: string)
  {
    forall i :: 0 <= i < |s| ==> IsSpace(s[i])
  }

  /** Every whitespace character is a plain space and no two are adjacent. */
  predicate Collapsed(s: string)
  {
    forall i :: 0 <= i < |s| && IsSpace(s[i]) ==> s[i] == ' ' && (i + 1 < |s| ==> !IsSpace(s[i + 1]))
  }

  /** re.sub(r"\s+", " ", s) / s.replace(/\s+/g, " "). */
  function Collapse(s: string): (r: string)
    decreases |s|
  {
    if s == [] then []
    else if IsSpace(s[0]) then [' '] + Collapse(TrimStart(s[1..]))
    else [s[0]] + Collapse(s[1..])
  }

  lemma {:induction false} CollapseIsCollapsed(s: string)
    ensures Collapsed(Collapse(s))
    ensures Collapse(s) != [] && IsSpace(Collapse(s)[0]) ==> IsSpace(s[0])
    decreases |s|
  {
    if s == [] {
    } else if IsSpace(s[0]) {
      var t := TrimStart(s[1..]);
      CollapseIsCollapsed(t);
      var r := Collapse(s);
      assert r == [' '] + Collapse(t);
      forall i | 0 <= i < |r| && IsSpace(r[i])
        ensures r[i] == ' ' && (i + 1 < |r| ==> !IsSpace(r[i + 1]))
      {
        if i == 0 && 1 < |r| {
          assert r[1] == Collapse(t)[0];
        }
        if i > 0 {
          assert r[i] == Collapse(t)[i - 1];
        }
      }
    } else {
      CollapseIsCollapsed(s[1..]);
      var r := Collapse(s);
      forall i | 0 <= i < |r| && IsSpace(r[i])
        ensures r[i] == ' ' && (i + 1 < |r| ==> !IsSpace(r[i + 1]))
      {
        assert i > 0;
        assert r[i] == Collapse(s[1..])[i - 1];
      }
    }
  }

  lemma {:induction false} CollapseFixesCollapsed(s: string)
    requires Collapsed(s)
    ensures Collapse(s) == s
    decreases |s|
  {
    if s != [] {
      assert Collapsed(s[1..]) by {
        forall i | 0 <= i < |s[1..]| && IsSpace(s[1..][i])
          ensures s[1..][i] == ' ' && (i + 1 < |s[1..]| ==> !IsSpace(s[1..][i + 1]))
        {
          assert s[1..][i] == s[i + 1];
        }
      }
      if IsSpace(s[0]) {
        if |s| > 1 {
          assert !IsSpace(s[1..][0]);
        }
        assert TrimStart(s[1..]) == s[1..];
      }
      CollapseFixesCollapsed(s[1..]);
    }
  }

  /** A collapsed string stays collapsed when cut to a slice. */
  lemma CollapsedSlice(s: string, a: int, b: int)
    requires Collapsed(s) && 0 <= a <= b <= |s|
    ensures Collapsed(s[a..b])
  {
    var t := s[a..b];
    forall i | 0 <= i < |t| && IsSpace(t[i])
      ensures t[i] == ' ' && (i + 1 < |t| ==> !IsSpace(t[i + 1]))
    {
      assert t[i] == s[a + i];
      if i + 1 < |t| { assert t[i + 1] == s[a + i + 1]; }
    }
  }

  /** Collapsing keeps the first and last characters when they are not whitespace. */
  lemma {:induction false} CollapseKeepsTrimmed(s: string)
    requires Trimmed(s)
    ensures Trimmed(Collapse(s))
    ensures |Collapse(s)| <= |s|
    decreases |s|
  {
    CollapseEnds(s);
  }

  lemma CollapseEnds(s: string)
    ensures |Collapse(s)| <= |s|
    ensures s != [] ==> Collapse(s) != []
    ensures s != [] && !IsSpace(s[0]) ==> Collapse(s)[0] == s[0]
    ensures s != [] && !IsSpace(s[|s| - 1]) ==> Collapse(s)[|Collapse(s)| - 1] == s[|s| - 1]
  {
    CollapseShorter(s);
    CollapseLast(s);
  }

  /** Collapsing never lengthens. */
  lemma {:induction false} CollapseShorter(s: string)
    ensures |Collapse(s)| <= |s|
    decreases |s|
  {
    if s != [] {
      if IsSpace(s[0]) {
        CollapseShorter(TrimStart(s[1..]));
      } else {
        CollapseShorter(s[1..]);
      }
    }
  }

  /** A last character that is not whitespace stays last. */
  lemma {:induction false} CollapseLast(s: string)
    ensures s != [] && !IsSpace(s[|s| - 1]) ==> Collapse(s)[|Collapse(s)| - 1] == s[|s| - 1]
    decreases |s|
  {
    if s != [] && !IsSpace(s[|s| - 1]) {
      var last := s[|s| - 1];
      if IsSpace(s[0]) {
        var t := TrimStart(s[1..]);
        TrimStartDropsSpaces(s[1..]);
        assert s[1..][|s| - 2] == last;
        assert t != [] && t[|t| - 1] == last;
        CollapseLast(t);
      } else if |s| > 1 {
        assert s[1..][|s[1..]| - 1] == last;
        CollapseLast(s[1..]);
      }
    }
  }

  /** Collapsing never introduces an upper-case letter. */
  lemma {:induction false} CollapseKeepsLowered(s: string)
    requires IsLowered(s)
    ensures IsLowered(Collapse(s))
    decreases |s|
  {
    if s != [] {
      if IsSpace(s[0]) {
        var t := TrimStart(s[1..]);
        assert IsLowered(t) by {
          TrimStartDropsSpaces(s[1..]);
          SuffixLowered(s, |s| - |t|);
          assert s[|s| - |t|..] == t;
        }
        CollapseKeepsLowered(t);
      } else {
        assert IsLowered(s[1..]) by { SuffixLowered(s, 1); }
        CollapseKeepsLowered(s[1..]);
      }
      CollapseLoweredStep(s);
    }
  }

  lemma CollapseLoweredStep(s: string)
    requires s != [] && !IsUpper(s[0])
    requires IsSpace(s[0]) ==> IsLowered(Collapse(TrimStart(s[1..])))
    requires !IsSpace(s[0]) ==> IsLowered(Collapse(s[1..]))
    ensures IsLowered(Collapse(s))
  {
    if IsSpace(s[0]) {
      ConsLowered(' ', Collapse(TrimStart(s[1..])));
    } else {
      ConsLowered(s[0], Collapse(s[1..]));
    }
  }

  lemma SuffixLowered(s: string, k: nat)
    requires IsLowered(s) && k <= |s|
    ensures IsLowered(s[k..])
  {
    forall i | 0 <= i < |s| - k ensures !IsUpper(s[k..][i]) {
      assert s[k..][i] == s[k + i];
    }
  }

  lemma ConsLowered(c: char, r: string)
    requires !IsUpper(c) && IsLowered(r)
    ensures IsLowered([c] + r)
  {
    forall i | 0 < i < |r| + 1 ensures !IsUpper(([c] + r)[i]) {
      assert ([c] + r)[i] == r[i - 1];
    }
  }

  /** Lower-casing never turns a non-space into a space or back. */
  lemma LowerKeepsShape(s: string)
    ensures Trimmed(s) ==> Trimmed(Lower(s))
    ensures forall i :: 0 <= i < |s| ==> (IsSpace(Lower(s)[i]) <==> IsSpace(s[i]))
  {
  }

  /**
   * The collapse-and-trim cleaning used by clean_str and collapseSpaces:
   * its result has no whitespace at either end, no whitespace other than
   * single spaces, and cleaning it again changes nothing.
   */
  function CollapseTrim(s: string): string
  {
    Trim(Collapse(s))
  }

  /** The cleaned text has no whitespace at its ends and only single spaces inside. */
  lemma CollapseTrimShape(s: string)
    ensures Trimmed(CollapseTrim(s)) && Collapsed(CollapseTrim(s))
  {
    var c := Collapse(s);
    CollapseIsCollapsed(s);
    TrimmedCollapsedShape(c);
    TrimProps(c);
  }

  /** Cleaning twice is cleaning once. */
  lemma CollapseTrimIdempotent(s: string)
    ensures CollapseTrim(CollapseTrim(s)) == CollapseTrim(s)
  {
    var t := CollapseTrim(s);
    CollapseTrimShape(s);
    CollapseFixesCollapsed(t);
    TrimProps(t);
  }

  /** Nothing is left exactly when the input is all whitespace. */
  lemma CollapseTrimEmpty(s: string)
    ensures CollapseTrim(s) == [] <==> NoSpaceFree(s)
  {
    TrimProps(Collapse(s));
    CollapseBlank(s);
  }

  /** Trimming a collapsed string leaves it collapsed. */
  lemma TrimmedCollapsedShape(c: string)
    requires Collapsed(c)
    ensures Collapsed(Trim(c))
  {
    var t := TrimStart(c);
    TrimStartDropsSpaces(c);
    CollapsedSlice(c, |c| - |t|, |c|);
    CollapsedSlice(t, 0, |TrimEnd(t)|);
  }

  /** Collapsing leaves a string with no non-space character exactly when the input had none. */
  lemma {:induction false} CollapseBlank(s: string)
    ensures NoSpaceFree(Collapse(s)) <==> NoSpaceFree(s)
    decreases |s|
  {
    if s != [] {
      if IsSpace(s[0]) {
        var t := TrimStart(s[1..]);
        TrimStartDropsSpaces(s[1..]);
        CollapseBlank(t);
        assert Collapse(s)[1..] == Collapse(t);
        if NoSpaceFree(t) {
          assert t == [];
        }
      } else {
        assert !NoSpaceFree(s);
        assert Collapse(s)[0] == s[0];
      }
    }
  }

  /** The digits of s, in order (re.findall(r"\d", s) joined; s.replace(/\D/g, "")). */
  function Digits(s: string): (r: string)
    ensures AllDigits(r)
    ensures |r| <= |s|
    ensures AllDigits(s) ==> r == s
  {
    if s == [] then []
    else if IsDigit(s[0]) then [s[0]] + Digits(s[1..])
    else Digits(s[1..])
  }

  lemma {:induction false} DigitsAppend(a: string, b: string)
    ensures Digits(a + b) == Digits(a) + Digits(b)
    decreases |a|
  {
    if a != [] {
      assert (a + b)[0] == a[0];
      assert (a + b)[1..] == a[1..] + b;
      DigitsAppend(a[1..], b);
      if IsDigit(a[0]) {
        assert Digits(a + b) == [a[0]] + Digits(a[1..] + b);
      } else {
        assert Digits(a + b) == Digits(a[1..] + b);
      }
    } else {
      assert a + b == b;
    }
  }

  predicate StartsWith(s: string, p: string)
  {
    |p| <= |s| && s[..|p|] == p
  }

  predicate EndsWith(s: string, p: string)
  {
    |p| <= |s| && s[|s| - |p|..] == p
  }

  /** Python's `t in s` / JavaScript's s.includes(t) for strings. */
  predicate Contains(s: string, t: string)
  {
    exists i :: 0 <= i <= |s| - |t| && OccursAt(s, t, i)
  }

  predicate OccursAt(s: string, t: string, i: int)
  {
    0 <= i <= |s| - |t| && s[i..i + |t|] == t
  }

  predicate HasChar(s: string, c: char)
  {
    exists i :: 0 <= i < |s| && s[i] == c
  }

  /** Index of the first occurrence of c, if any. */
  function IndexOf(s: string, c: char): (r: Option<nat>)
    ensures r.None? <==> !HasChar(s, c)
    ensures r.Some? ==> r.value < |s| && s[r.value] == c && !HasChar(s[..r.value], c)
  {
    if s == [] then None
    else if s[0] == c then Some(0)
    else
      var k := IndexOf(s[1..], c);
      if k.None? then
        assert !HasChar(s, c) by {
          forall i | 0 <= i < |s| ensures s[i] != c {
            if i > 0 { assert s[i] == s[1..][i - 1]; }
          }
        }
        None
      else
        var p := s[..k.value + 1];
        assert p == [s[0]] + s[1..][..k.value];
        assert !HasChar(p, c) by {
          forall i | 0 <= i < |p| ensures p[i] != c {
            if i > 0 { assert p[i] == s[1..][..k.value][i - 1]; }
          }
        }
        Some(k.value + 1)
  }

  /**
   * JavaScript's s.split(c) for a one-character separator: the pieces between
   * separators, in order; there is always at least one piece.
   */
  function Split(s: string, c: char): (parts: seq<string>)
    ensures |parts| >= 1
    ensures forall k :: 0 <= k < |parts| ==> !HasChar(parts[k], c)
    decreases |s|
  {
    match IndexOf(s, c)
    case None => [s]
    case Some(k) => [s[..k]] + Split(s[k + 1..], c)
  }

  /** Leading whitespace is dropped from the front only. */
  lemma {:induction false} TrimStartAppend(x: string, y: string)
    requires !NoSpaceFree(x)
    ensures TrimStart(x + y) == TrimStart(x) + y
    decreases |x|
  {
    assert (x + y)[0] == x[0];
    if IsSpace(x[0]) {
      assert (x + y)[1..] == x[1..] + y;
      assert !NoSpaceFree(x[1..]) by {
        var i :| 0 <= i < |x| && !IsSpace(x[i]);
        assert x[1..][i - 1] == x[i];
      }
      TrimStartAppend(x[1..], y);
    }
  }

  /** A trailing run of whitespace collapses to one space. */
  lemma {:induction false} CollapseAppendSpaces(m: string, b: string)
    requires m == [] || !IsSpace(m[|m| - 1])
    requires b != [] && NoSpaceFree(b)
    ensures Collapse(m + b) == Collapse(m) + [' ']
    decreases |m|
  {
    if m == [] {
      assert m + b == b;
      assert TrimStart(b[1..]) == [] by { TrimAllSpaces(b[1..]); }
      assert Collapse(b) == [' '] + Collapse([]);
    } else if !IsSpace(m[0]) {
      CollapseAppendSpaces(m[1..], b);
      CollapseConsWord(m, b);
    } else {
      var rest := m[1..];
      assert rest != [] && rest[|rest| - 1] == m[|m| - 1];
      TrimStartKeepsLast(rest);
      CollapseAppendSpaces(TrimStart(rest), b);
      CollapseConsSpace(m, b);
    }
  }

  /** One step of CollapseAppendSpaces past a character that is kept. */
  lemma {:induction false} CollapseConsWord(m: string, b: string)
    requires m != [] && !IsSpace(m[0])
    requires Collapse(m[1..] + b) == Collapse(m[1..]) + [' ']
    ensures Collapse(m + b) == Collapse(m) + [' ']
  {
    assert (m + b)[0] == m[0];
    assert (m + b)[1..] == m[1..] + b;
  }

  /** One step of CollapseAppendSpaces past a run of whitespace. */
  lemma {:induction false} CollapseConsSpace(m: string, b: string)
    requires m != [] && IsSpace(m[0]) && !NoSpaceFree(m[1..])
    requires Collapse(TrimStart(m[1..]) + b) == Collapse(TrimStart(m[1..])) + [' ']
    ensures Collapse(m + b) == Collapse(m) + [' ']
  {
    var t := TrimStart(m[1..]);
    CollapseSpaceHead(m, b);
    assert Collapse(m) == [' '] + Collapse(t);
    assert [' '] + (Collapse(t) + [' ']) == ([' '] + Collapse(t)) + [' '];
  }

  /** A leading run of whitespace collapses to one space before the rest. */
  lemma CollapseSpaceHead(m: string, b: string)
    requires m != [] && IsSpace(m[0]) && !NoSpaceFree(m[1..])
    ensures Collapse(m + b) == [' '] + Collapse(TrimStart(m[1..]) + b)
  {
    var mb := m + b;
    assert mb[0] == m[0] && mb[1..] == m[1..] + b;
    TrimStartAppend(m[1..], b);
  }

  /** A string that does not end in whitespace keeps its last character
      through TrimStart. */
  lemma {:induction false} TrimStartKeepsLast(s: string)
    requires s != [] && !IsSpace(s[|s| - 1])
    ensures !NoSpaceFree(s)
    ensures TrimStart(s) != [] && TrimStart(s)[|TrimStart(s)| - 1] == s[|s| - 1]
  {
    var t := TrimStart(s);
    TrimStartDropsSpaces(s);
    assert t != [];
    assert t[|t| - 1] == s[|s| - 1];
  }

  /** Trimming leaves a trimmed string as it is. */
  lemma TrimKeepsTrimmed(s: string)
    requires Trimmed(s)
    ensures Trim(s) == s
  {
    assert TrimStart(s) == s;
    assert TrimEnd(s) == s;
  }

  /** A space added at both ends is trimmed away again. */
  lemma TrimPadded(s: string)
    ensures Trim(" " + s + " ") == Trim(s)
  {
    assert " " + s + " " == [' '] + (s + [' ']);
    TrimSpaceFront(s + [' ']);
    TrimSpaceBack(s);
  }

  /** A string padded with spaces is all whitespace exactly when it was. */
  lemma SpacesPadded(s: string)
    ensures NoSpaceFree(" " + s + " ") <==> NoSpaceFree(s)
  {
    var p := " " + s + " ";
    if NoSpaceFree(s) {
      forall i | 0 <= i < |p| ensures IsSpace(p[i]) {
        if 0 < i < |p| - 1 { assert p[i] == s[i - 1]; }
      }
    }
    if NoSpaceFree(p) {
      forall i | 0 <= i < |s| ensures IsSpace(s[i]) {
        assert s[i] == p[i + 1];
      }
    }
  }

  /** Trimming ignores one extra space at either end. */
  lemma TrimSpaceFront(x: string)
    ensures Trim([' '] + x) == Trim(x)
  {
    assert ([' '] + x)[1..] == x;
    assert TrimStart([' '] + x) == TrimStart(x);
  }

  lemma {:induction false} TrimSpaceBack(x: string)
    ensures Trim(x + [' ']) == Trim(x)
  {
    if NoSpaceFree(x) {
      assert NoSpaceFree(x + [' ']) by {
        forall i | 0 <= i < |x + [' ']|
          ensures IsSpace((x + [' '])[i])
        {
          if i < |x| { assert (x + [' '])[i] == x[i]; }
        }
      }
      TrimAllSpaces(x + [' ']);
      TrimAllSpaces(x);
    } else {
      TrimStartAppend(x, [' ']);
      var t := TrimStart(x);
      assert TrimStart(x + [' ']) == t + [' '];
      assert t != [];
      TrimEndSpace(t);
    }
  }

  lemma {:induction false} TrimEndSpace(t: string)
    ensures TrimEnd(t + [' ']) == TrimEnd(t)
  {
    var u := t + [' '];
    assert IsSpace(u[|u| - 1]);
    assert u[..|u| - 1] == t;
  }

  lemma {:induction false} TrimAllSpaces(x: string)
    requires NoSpaceFree(x)
    ensures TrimStart(x) == []
  {
    if x != [] {
      TrimAllSpaces(x[1..]);
    }
  }

  /** Collapsing and trimming give the same text whether or not the input was
      trimmed first. */
  lemma CollapseTrimOfTrim(s: string)
    ensures CollapseTrim(Trim(s)) == CollapseTrim(s)
  {
    var t := TrimStart(s);
    CollapseTrimOfTrimStart(s);
    CollapseTrimOfTrimEnd(t);
  }

  lemma CollapseTrimOfTrimStart(s: string)
    ensures Trim(Collapse(TrimStart(s))) == Trim(Collapse(s))
  {
    if s != [] && IsSpace(s[0]) {
      var t := TrimStart(s[1..]);
      assert TrimStart(s) == t;
      assert Collapse(s) == [' '] + Collapse(t);
      TrimSpaceFront(Collapse(t));
    }
  }

  lemma CollapseTrimOfTrimEnd(t: string)
    ensures Trim(Collapse(TrimEnd(t))) == Trim(Collapse(t))
  {
    var m := TrimEnd(t);
    var b := t[|m|..];
    assert t == m + b;
    if b != [] {
      TrimEndDropsSpaces(t);
      assert NoSpaceFree(b) by {
        forall j | 0 <= j < |b| ensures IsSpace(b[j]) {
          assert b[j] == t[|m| + j];
        }
      }
      CollapseAppendSpaces(m, b);
      TrimSpaceBack(Collapse(m));
    }
  }

  /** Lower-casing and stripping can be done in either order. */
  lemma LowerTrimCommute(s: string)
    ensures Trim(Lower(s)) == Lower(Trim(s))
  {
    LowerTrimStart(s);
    LowerTrimEnd(TrimStart(s));
  }

  lemma {:induction false} LowerTrimStart(s: string)
    ensures TrimStart(Lower(s)) == Lower(TrimStart(s))
    decreases |s|
  {
    var l := Lower(s);
    if s == [] {
      assert l == [];
    } else if IsSpace(s[0]) {
      assert IsSpace(l[0]);
      assert l[1..] == Lower(s[1..]);
      LowerTrimStart(s[1..]);
    } else {
      assert !IsSpace(l[0]);
      assert TrimStart(l) == l;
    }
  }

  lemma {:induction false} LowerTrimEnd(s: string)
    ensures TrimEnd(Lower(s)) == Lower(TrimEnd(s))
    decreases |s|
  {
    var l := Lower(s);
    if s == [] {
      assert l == [];
    } else if IsSpace(s[|s| - 1]) {
      var init := s[..|s| - 1];
      assert IsSpace(l[|s| - 1]);
      assert TrimEnd(s) == TrimEnd(init);
      LowerPrefix(s, |s| - 1);
      assert TrimEnd(l) == TrimEnd(Lower(init));
      LowerTrimEnd(init);
    } else {
      assert !IsSpace(l[|s| - 1]);
      assert TrimEnd(l) == l;
    }
  }

  lemma LowerPrefix(s: string, n: nat)
    requires n <= |s|
    ensures Lower(s)[..n] == Lower(s[..n])
  {
    assert forall i :: 0 <= i < n ==> Lower(s)[..n][i] == LowerChar(s[i]);
  }

  /** `s.replace(/[...]/g, '')`: every character of the class removed. */
  function RemoveChars(s: string, bad: set<char>): (r: string)
    ensures |r| <= |s|
    ensures forall i :: 0 <= i < |r| ==> r[i] !in bad
    ensures (forall i :: 0 <= i < |s| ==> s[i] !in bad) ==> r == s
  {
    if s == [] then []
    else if s[0] in bad then RemoveChars(s[1..], bad)
    else [s[0]] + RemoveChars(s[1..], bad)
  }
}
