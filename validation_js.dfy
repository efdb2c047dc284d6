// The browser twins of the server validators (app/static/js/validation.js).
// JavaScript's `$` does not accept a trailing newline, and the phone
// normaliser answers "" where the server answers None.
module ClientValidation {
  import opened Wrappers
  import opened Text
  import Validators

  /** collapseSpaces(s, maxLen): a falsy input gives ""; maxLen cuts only
      when it is a positive number (None stands for any non-number). */
  function CollapseSpaces(s: Option<string>, maxLen: Option<int>): (r: string)
  {
    if s.None? || s.value == "" then ""
    else
      var t := CollapseTrim(s.value);
      if maxLen.Some? && maxLen.value > 0 && |t| > maxLen.value then t[..maxLen.value] else t
  }

  /** The result is the cleaned text, cut to maxLen when that is a positive
      number; without a positive limit nothing is cut. */
  lemma CollapseSpacesMeaning(s: string, maxLen: Option<int>)
    ensures var r := CollapseSpaces(Some(s), maxLen);
      (r == [] <==> NoSpaceFree(s)) &&
      r == CollapseTrim(s)[..|r|] &&
      (maxLen.Some? && maxLen.value > 0 ==> |r| <= maxLen.value) &&
      ((maxLen.None? || maxLen.value <= 0) ==> r == CollapseTrim(s))
  {
    CollapseTrimEmpty(s);
  }

  /** With a positive limit the browser and the server clean a value alike,
      the server's None showing as "". */
  lemma CollapseSpacesMatchesServer(s: string, maxLen: nat)
    requires maxLen > 0
    ensures CollapseSpaces(Some(s), Some(maxLen)) == Validators.CleanStr(Some(s), maxLen).GetOr("")
  {
    if s == "" {
      CollapseTrimEmpty(s);
    }
  }

  /** validateEmail(s): empty accepted, otherwise the pattern must match the
      whole string. */
  function ValidateEmail(s: Option<string>): bool
  {
    s.None? || s.value == "" || Validators.EmailShape(s.value)
  }

  /** Whatever the browser accepts, the server accepts too; the converse fails
      for a trailing newline. */
  lemma ValidateEmailStricter(s: Option<string>)
    ensures ValidateEmail(s) ==> Validators.IsValidEmail(s)
    ensures ValidateEmail(Some("a@b.co")) && !ValidateEmail(Some("a@b.co\n"))
    ensures Validators.IsValidEmail(Some("a@b.co\n"))
  {
    Validators.TrailingNewlineAccepted();
    var t := "a@b.co";
    assert t[..1] == "a" && t[2..] == "b.co";
    assert Validators.DomainShape(t[2..]) by { assert t[2..][1] == '.'; }
  }

  /** normalizePhone(s): "(ddd) ddd-dddd" or "" for anything else. */
  function NormalizePhone(s: Option<string>): (r: string)
  {
    if s.None? || s.value == "" then ""
    else
      var d := Validators.PhoneDigits(s.value);
      if |d| != 10 then "" else Validators.FormatPhone(d)
  }

  /** Same digit rules and format as the server, "" standing for None. */
  lemma NormalizePhoneMatchesServer(s: Option<string>)
    ensures NormalizePhone(s) == Validators.NormalizePhone(s).GetOr("")
    ensures NormalizePhone(s) == "" <==> Validators.NormalizePhone(s).None?
  {
  }

  /** The output is "" or fourteen characters, and normalising a valid output
      again returns it. */
  lemma NormalizePhoneShape(s: Option<string>)
    ensures |NormalizePhone(s)| == 0 || |NormalizePhone(s)| == 14
    ensures NormalizePhone(s) != "" ==> NormalizePhone(Some(NormalizePhone(s))) == NormalizePhone(s)
  {
    if NormalizePhone(s) != "" {
      Validators.NormalizePhoneIdempotent(s);
    }
  }
}
