// Server-side field validators and normalisers (app/utils/validators.py).
// The regular expressions are written out as predicates over the pattern's
// own structure. Python's re.match with a trailing `$` also matches just
// before a final "\n", which the email and city checks keep.
module Validators {
  import opened Wrappers
  import opened Text

  /** clean_str(val, max_len): collapse whitespace runs, trim, None when
      nothing is left, otherwise the first max_len characters. */
  function CleanStr(val: Option<string>, maxLen: nat): (r: Option<string>)
    ensures val.None? ==> r.None?
    ensures r.Some? ==> 0 < |r.value| <= maxLen || (maxLen == 0 && r.value == [])
  {
    if val.None? then None
    else
      var s := CollapseTrim(val.value);
      if s == [] then None else Some(s[..if |s| <= maxLen then |s| else maxLen])
  }

  /** The cleaned value is missing exactly when the input is all whitespace;
      otherwise it is a prefix of the collapsed, trimmed input, the whole of
      it when it fits. */
  lemma CleanStrMeaning(val: string, maxLen: nat)
    ensures CleanStr(Some(val), maxLen).None? <==> NoSpaceFree(val)
    ensures CleanStr(Some(val), maxLen).Some? ==>
      (var r := CleanStr(Some(val), maxLen).value;
       r == CollapseTrim(val)[..|r|] && (|CollapseTrim(val)| <= maxLen ==> r == CollapseTrim(val)))
  {
    CollapseTrimEmpty(val);
  }

  /** The cleaned text has no whitespace other than single spaces, does not
      start with one, and cleaning it again with the same limit changes nothing
      unless the cut left a space at its end. */
  lemma CleanStrShape(val: string, maxLen: nat)
    ensures CleanStr(Some(val), maxLen).Some? && maxLen > 0 ==>
      (var r := CleanStr(Some(val), maxLen).value;
       r != [] && Collapsed(r) && !IsSpace(r[0]) &&
       (Trimmed(r) ==> CleanStr(Some(r), maxLen) == Some(r)))
  {
    if CleanStr(Some(val), maxLen).None? || maxLen == 0 { return; }
    var s := CollapseTrim(val);
    CollapseTrimShape(val);
    var r := CleanStr(Some(val), maxLen).value;
    assert r == s[0..|r|];
    CollapsedSlice(s, 0, |r|);
    assert r[0] == s[0];
    if Trimmed(r) {
      CollapseFixesCollapsed(r);
      TrimProps(r);
      assert CollapseTrim(r) == r;
    }
  }

  // ---- e-mail: ^[^@\s]+@[^@\s]+\.[^@\s]+$

  /** Every character is in [^@\s]. */
  predicate NoAtNoSpace(s: string)
  {
    forall i :: 0 <= i < |s| ==> s[i] != '@' && !IsSpace(s[i])
  }

  /** `[^@\s]+\.[^@\s]+`: a dot with at least one character on either side. */
  predicate DomainShape(d: string)
  {
    NoAtNoSpace(d) && exists p :: 0 < p < |d| - 1 && d[p] == '.'
  }

  /** `[^@\s]+@` followed by a domain. */
  predicate EmailShape(s: string)
  {
    exists k :: 0 < k < |s| && s[k] == '@' && NoAtNoSpace(s[..k]) && DomainShape(s[k + 1..])
  }

  /** Python's `$`: the pattern may also end just before a final newline. */
  predicate PyEmailMatch(s: string)
  {
    EmailShape(s) || (|s| > 0 && s[|s| - 1] == '\n' && EmailShape(s[..|s| - 1]))
  }

  /** is_valid_email(val): empty or None is accepted. */
  function IsValidEmail(val: Option<string>): bool
  {
    val.None? || val.value == "" || PyEmailMatch(val.value)
  }

  /** A matching address has exactly one "@", no whitespace, and a dot inside
      the domain part. */
  lemma EmailShapeMeaning(s: string)
    requires EmailShape(s)
    ensures NoSpace(s)
    ensures exists k :: 0 < k < |s| - 3 && s[k] == '@' && (forall i :: 0 <= i < |s| && i != k ==> s[i] != '@')
  {
    var k :| 0 < k < |s| && s[k] == '@' && NoAtNoSpace(s[..k]) && DomainShape(s[k + 1..]);
    forall i | 0 <= i < |s| ensures !IsSpace(s[i]) && (i != k ==> s[i] != '@') {
      if i < k { assert s[..k][i] == s[i]; }
      if i > k { assert s[k + 1..][i - k - 1] == s[i]; }
    }
  }

  /** The newline allowance: "a@b.co\n" passes the server check. */
  lemma TrailingNewlineAccepted()
    ensures IsValidEmail(Some("a@b.co\n"))
    ensures !EmailShape("a@b.co\n")
  {
    var s := "a@b.co\n";
    assert s[..|s| - 1] == "a@b.co";
    var t := "a@b.co";
    assert t[..1] == "a" && t[2..] == "b.co";
    assert DomainShape(t[2..]) by { assert t[2..][1] == '.'; }
    assert EmailShape(t);
    assert !EmailShape(s) by {
      forall k | 0 < k < |s| && s[k] == '@' ensures !NoAtNoSpace(s[k + 1..]) {
        assert k < 6;
        assert s[k + 1..][5 - k] == '\n';
      }
    }
  }

  // ---- phone

  /** The digits of the input, without a leading "1" when there are eleven. */
  function PhoneDigits(s: string): (d: string)
    ensures AllDigits(d)
  {
    var d := Digits(s);
    if |d| == 11 && d[0] == '1' then d[1..] else d
  }

  /** "(ddd) ddd-dddd". */
  function FormatPhone(d: string): (r: string)
    requires |d| == 10
    ensures |r| == 14
  {
    "(" + d[0..3] + ") " + d[3..6] + "-" + d[6..]
  }

  /** normalize_phone(val). */
  function NormalizePhone(val: Option<string>): (r: Option<string>)
    ensures r.Some? <==> val.Some? && val.value != "" && |PhoneDigits(val.value)| == 10
    ensures r.Some? ==> r.value == FormatPhone(PhoneDigits(val.value))
  {
    if val.None? || val.value == "" then None
    else
      var d := PhoneDigits(val.value);
      if |d| != 10 then None else Some(FormatPhone(d))
  }

  /** Reading the digits back out of a formatted number gives the digits. */
  lemma FormatPhoneDigits(d: string)
    requires |d| == 10 && AllDigits(d)
    ensures Digits(FormatPhone(d)) == d
  {
    var a, b, c := d[0..3], d[3..6], d[6..];
    assert a + b + c == d by { SplitThree(d, 3, 6); }
    assert AllDigits(a) && AllDigits(b) && AllDigits(c) by {
      forall i | 0 <= i < 3 ensures IsDigit(a[i]) && IsDigit(b[i]) { assert a[i] == d[i] && b[i] == d[3 + i]; }
      forall i | 0 <= i < 4 ensures IsDigit(c[i]) { assert c[i] == d[6 + i]; }
    }
    assert Digits("(") == [] && Digits(") ") == [] && Digits("-") == [];
    var x1 := "(" + a;
    assert Digits(x1) == a by { DigitsAppend("(", a); }
    var x2 := x1 + ") ";
    assert Digits(x2) == a by { DigitsAppend(x1, ") "); }
    var x3 := x2 + b;
    assert Digits(x3) == a + b by { DigitsAppend(x2, b); }
    var x4 := x3 + "-";
    assert Digits(x4) == a + b by { DigitsAppend(x3, "-"); }
    var x5 := x4 + c;
    assert Digits(x5) == a + b + c by { DigitsAppend(x4, c); }
    assert x5 == FormatPhone(d);
  }

  lemma SplitThree(d: string, i: nat, j: nat)
    requires i <= j <= |d|
    ensures d[..i] + d[i..j] + d[j..] == d
  {
  }

  /** A normalised number is a fixed point: normalising it again returns it. */
  lemma NormalizePhoneIdempotent(val: Option<string>)
    requires NormalizePhone(val).Some?
    ensures NormalizePhone(NormalizePhone(val)) == NormalizePhone(val)
  {
    var d := PhoneDigits(val.value);
    FormatPhoneDigits(d);
  }

  // ---- city: ^[A-Za-z][A-Za-z .'\-]{0,98}[A-Za-z.]?$

  predicate CityMid(c: char) { IsLetter(c) || c == ' ' || c == '.' || c == '\'' || c == '-' }

  predicate CityEnd(c: char) { IsLetter(c) || c == '.' }

  predicate AllCityMid(s: string)
  {
    forall i :: 0 <= i < |s| ==> CityMid(s[i])
  }

  /** The pattern with m repetitions of the middle class: the optional last
      character either absent or present. */
  predicate CitySplit(s: string, m: int)
  {
    0 <= m <= 98 && |s| >= 1 && IsLetter(s[0]) &&
    ((|s| == 1 + m && AllCityMid(s[1..])) ||
     (|s| == 2 + m && AllCityMid(s[1..1 + m]) && CityEnd(s[1 + m])))
  }

  predicate CityRegex(s: string)
  {
    exists m :: 0 <= m <= 98 && CitySplit(s, m)
  }

  /** The pattern accepts a letter followed by at most 99 characters of
      [A-Za-z .'-], except that the 100th character must be a letter or dot. */
  lemma CityRegexMeaning(s: string)
    ensures CityRegex(s) <==>
      1 <= |s| <= 100 && IsLetter(s[0]) && AllCityMid(s[1..]) && (|s| == 100 ==> CityEnd(s[99]))
  {
    if 1 <= |s| <= 100 && IsLetter(s[0]) && AllCityMid(s[1..]) && (|s| == 100 ==> CityEnd(s[99])) {
      if |s| <= 99 {
        assert CitySplit(s, |s| - 1);
      } else {
        assert s[1..1 + 98] == s[1..][..98];
        assert CitySplit(s, 98);
      }
    }
    if CityRegex(s) {
      var m :| 0 <= m <= 98 && CitySplit(s, m);
      if |s| == 2 + m {
        assert forall i :: 1 <= i < 1 + m ==> s[1..1 + m][i - 1] == s[i];
        assert forall i :: 1 <= i < |s| ==> s[1..][i - 1] == s[i];
      }
    }
  }

  predicate PyCityMatch(s: string)
  {
    CityRegex(s) || (|s| > 0 && s[|s| - 1] == '\n' && CityRegex(s[..|s| - 1]))
  }

  /** is_valid_city(val): empty or None is accepted. */
  function IsValidCity(val: Option<string>): bool
  {
    val.None? || val.value == "" || PyCityMatch(val.value)
  }

  // ---- state and zip, matched on the stripped value

  /** is_valid_state(val): exactly two ASCII letters after strip. */
  function IsValidState(val: Option<string>): (ok: bool)
    ensures val.Some? && val.value != "" ==>
      (ok <==> |Trim(val.value)| == 2 && IsLetter(Trim(val.value)[0]) && IsLetter(Trim(val.value)[1]))
  {
    if val.None? || val.value == "" then true
    else
      var t := Trim(val.value);
      |t| == 2 && IsLetter(t[0]) && IsLetter(t[1])
  }

  /** ^\d{5}(-\d{4})?$ */
  predicate ZipShape(t: string)
  {
    (|t| == 5 && AllDigits(t)) || (|t| == 10 && AllDigits(t[..5]) && t[5] == '-' && AllDigits(t[6..]))
  }

  /** is_valid_zip(val): five digits with an optional "-dddd", after strip. */
  function IsValidZip(val: Option<string>): (ok: bool)
    ensures val.Some? && val.value != "" ==> (ok <==> ZipShape(Trim(val.value)))
  {
    val.None? || val.value == "" || ZipShape(Trim(val.value))
  }

  /** Every validator accepts a missing or empty value. */
  lemma EmptyAccepted()
    ensures IsValidEmail(None) && IsValidEmail(Some(""))
    ensures IsValidCity(None) && IsValidCity(Some(""))
    ensures IsValidState(None) && IsValidState(Some(""))
    ensures IsValidZip(None) && IsValidZip(Some(""))
  {
  }

  // ---- city from address

  /** address.split(",", 1)[1]: everything after the first comma. */
  function AfterFirstComma(s: string): Option<string>
  {
    match IndexOf(s, ',')
    case None => None
    case Some(k) => Some(s[k + 1..])
  }

  /** derive_city_from_address(address). */
  function DeriveCityFromAddress(address: Option<string>): (r: Option<string>)
    ensures address.None? || address == Some("") || !HasChar(address.value, ',') ==> r.None?
    ensures r.Some? ==> 0 < |r.value| <= 100 && !IsSpace(r.value[0])
    ensures address.Some? && HasChar(address.value, ',') ==>
      r == CleanStr(Some(Trim(AfterFirstComma(address.value).value)), 100)
  {
    if address.None? || address.value == "" then None
    else
      match AfterFirstComma(address.value)
      case None => None
      case Some(after) =>
        CleanStrShape(Trim(after), 100);
        CleanStr(Some(Trim(after)), 100)
  }

  /** The trim before clean_str changes nothing: clean_str trims anyway. */
  lemma CleanStrOfTrimmed(s: string, maxLen: nat)
    ensures CleanStr(Some(Trim(s)), maxLen) == CleanStr(Some(s), maxLen)
  {
    CollapseTrimOfTrim(s);
  }
}
