// The customers library page: the checks the add form and the edit modal
// make before sending a customer, and the city the add form derives from
// the address.
module CustomersIndex {
  import opened Wrappers
  import opened Text
  import ClientValidation
  import Validators

  // ---------------------------------------------------------------------
  // deriveCity
  // ---------------------------------------------------------------------

  /** deriveCity: the trimmed text between the first and second comma, None when there is none. */
  function DeriveCity(address: Option<string>): Option<string>
  {
    if address.None? || address.value == "" then None
    else
      var parts := Split(address.value, ',');
      if |parts| >= 2 then
        var c := Trim(parts[1]);
        if c == "" then None else Some(c)
      else None
  }

  /** The first comma of x + "," + w is the one after x. */
  lemma {:induction false} FirstComma(x: string, w: string)
    requires !HasChar(x, ',')
    ensures IndexOf(x + [','] + w, ',') == Some(|x|)
  {
    var s := x + [','] + w;
    if x != [] {
      assert s[1..] == x[1..] + [','] + w;
      assert !HasChar(x[1..], ',') by {
        forall i | 0 <= i < |x[1..]| ensures x[1..][i] != ',' {
          assert x[1..][i] == x[i + 1];
        }
      }
      FirstComma(x[1..], w);
      assert s[0] == x[0];
    }
  }

  /** The first part of y + rest is y when rest is empty or starts with a comma. */
  lemma FirstPart(y: string, rest: string)
    requires !HasChar(y, ',') && (rest == [] || rest[0] == ',')
    ensures Split(y + rest, ',')[0] == y
  {
    if rest == [] {
      assert y + rest == y;
      assert IndexOf(y, ',') == None;
    } else {
      assert y + rest == y + [','] + rest[1..];
      FirstComma(y, rest[1..]);
      assert (y + rest)[..|y|] == y;
    }
  }

  /** The city is the second comma-separated part, trimmed, or None when that is blank. */
  lemma DeriveCitySecondPart(x: string, y: string, rest: string)
    requires !HasChar(x, ',') && !HasChar(y, ',') && (rest == [] || rest[0] == ',')
    ensures DeriveCity(Some(x + [','] + y + rest)) == if NoSpaceFree(y) then None else Some(Trim(y))
  {
    var a := x + [','] + y + rest;
    assert a == x + [','] + (y + rest);
    FirstComma(x, y + rest);
    assert a[|x| + 1..] == y + rest;
    FirstPart(y, rest);
    TrimEmpty(y);
  }

  /** Without a comma there is no city; a city is trimmed, non-empty and has no comma. */
  lemma DeriveCityMeaning(address: Option<string>)
    ensures address.None? || !HasChar(address.value, ',') ==> DeriveCity(address).None?
    ensures DeriveCity(address).Some? ==>
      var c := DeriveCity(address).value;
      c != "" && Trimmed(c) && !HasChar(c, ',')
  {
    if address.Some? && address.value != "" {
      var parts := Split(address.value, ',');
      if |parts| >= 2 {
        TrimTrimmed(parts[1]);
        TrimNoNewChar(parts[1], ',');
      }
    }
  }

  /** Trimming keeps out a character the text did not have. */
  lemma TrimNoNewChar(s: string, c: char)
    requires !HasChar(s, c)
    ensures !HasChar(Trim(s), c)
  {
    TrimIsSlice(s);
    var k := |s| - |TrimStart(s)|;
    forall i | 0 <= i < |Trim(s)| ensures Trim(s)[i] != c {
      assert Trim(s)[i] == s[k + i];
    }
  }

  /** The server keeps all of a clean text after the first comma. */
  lemma ServerKeepsRest(x: string, w: string)
    requires !HasChar(x, ',') && w != [] && |w| <= 100 && Trimmed(w) && Collapsed(w)
    ensures Validators.DeriveCityFromAddress(Some(x + [','] + w)) == Some(w)
  {
    var a := x + [','] + w;
    FirstComma(x, w);
    assert a[|x| + 1..] == w;
    assert HasChar(a, ',') by { assert a[|x|] == ','; }
    TrimKeepsTrimmed(w);
    CollapseFixesCollapsed(w);
  }

  /**
   * The browser keeps only the text up to the second comma, the server all
   * of the text after the first: "a,b,c" gives "b" here and "b,c" there.
   */
  lemma DeriveCityDiffersFromServer()
    ensures DeriveCity(Some("a,b,c")) == Some("b")
    ensures Validators.DeriveCityFromAddress(Some("a,b,c")) == Some("b,c")
  {
    BrowserCityOfSample();
    ServerCityOfSample();
  }

  lemma BrowserCityOfSample()
    ensures DeriveCity(Some("a,b,c")) == Some("b")
  {
    assert "a,b,c" == "a" + [','] + "b" + ",c";
    assert "b"[0] == 'b' && !IsSpace("b"[0]);
    assert !HasChar("b", ',') && !NoSpaceFree("b");
    DeriveCitySecondPart("a", "b", ",c");
    TrimKeepsTrimmed("b");
  }

  lemma ServerCityOfSample()
    ensures Validators.DeriveCityFromAddress(Some("a,b,c")) == Some("b,c")
  {
    var w := "b,c";
    assert "a,b,c" == "a" + [','] + w;
    assert Trimmed(w) && Collapsed(w) by {
      assert !IsSpace(w[0]) && !IsSpace(w[1]) && !IsSpace(w[2]);
    }
    ServerKeepsRest("a", w);
  }

  // ---------------------------------------------------------------------
  // The add form and the edit modal
  // ---------------------------------------------------------------------

  /** The form's raw values; a missing element reads as "". */
  datatype CustomerForm = CustomerForm(
    name: string, contact: string, email: string, phone: string, address: string, notes: string)

  /** The JSON sent; None is null. */
  datatype Payload = Payload(
    name: string, primaryContact: Option<string>, email: Option<string>, phone: Option<string>,
    address: Option<string>, notes: Option<string>, city: Option<string>)

  datatype Refusal = NameRequired | InvalidEmail | InvalidPhone

  /** v(id) then collapseSpaces(·, maxLen). */
  function Cleaned(raw: string, maxLen: nat): string
  {
    ClientValidation.CollapseSpaces(Some(Trim(raw)), Some(maxLen))
  }

  /** `x || null` */
  function OrNull(s: string): Option<string>
  {
    if s == "" then None else Some(s)
  }

  /** A cleaned value is empty exactly when the raw text is blank, and never longer than the limit. */
  lemma CleanedMeaning(raw: string, maxLen: nat)
    requires maxLen > 0
    ensures Cleaned(raw, maxLen) == "" <==> NoSpaceFree(raw)
    ensures |Cleaned(raw, maxLen)| <= maxLen
  {
    ClientValidation.CollapseSpacesMeaning(Trim(raw), Some(maxLen));
    TrimEmpty(raw);
    TrimEmpty(Trim(raw));
  }

  /** The name, email and phone rules both forms apply, in order; the city is left unset. */
  function Validate(f: CustomerForm): Result<Payload, Refusal>
  {
    var name := Cleaned(f.name, 255);
    var email := Cleaned(f.email, 255);
    var phone := Cleaned(f.phone, 32);
    if name == "" then Err(NameRequired)
    else if email != "" && !ClientValidation.ValidateEmail(Some(email)) then Err(InvalidEmail)
    else if phone != "" && ClientValidation.NormalizePhone(Some(phone)) == "" then Err(InvalidPhone)
    else
      Ok(Payload(name, OrNull(Cleaned(f.contact, 255)), OrNull(email),
                 OrNull(if phone == "" then "" else ClientValidation.NormalizePhone(Some(phone))),
                 OrNull(Cleaned(f.address, 300)), OrNull(Cleaned(f.notes, 2000)), None))
  }

  /**
   * A customer is refused for a blank name, then for an email the page's
   * pattern rejects, then for a phone that does not normalise, and accepted
   * otherwise; what is sent
   * has a name, an email the server accepts and a phone already in its
   * normal form.
   */
  lemma ValidateMeaning(f: CustomerForm)
    ensures Validate(f) == Err(NameRequired) <==> NoSpaceFree(f.name)
    ensures Validate(f) == Err(InvalidEmail) <==>
      !NoSpaceFree(f.name) && !ClientValidation.ValidateEmail(Some(Cleaned(f.email, 255)))
    ensures Validate(f) == Err(InvalidPhone) <==>
      !NoSpaceFree(f.name) && ClientValidation.ValidateEmail(Some(Cleaned(f.email, 255)))
      && !NoSpaceFree(f.phone) && ClientValidation.NormalizePhone(Some(Cleaned(f.phone, 32))) == ""
    ensures Validate(f).Ok? <==>
      !NoSpaceFree(f.name) && ClientValidation.ValidateEmail(Some(Cleaned(f.email, 255)))
      && (NoSpaceFree(f.phone) || ClientValidation.NormalizePhone(Some(Cleaned(f.phone, 32))) != "")
    ensures Validate(f).Ok? ==>
      var p := Validate(f).value;
      && p.name != "" && |p.name| <= 255
      && Validators.IsValidEmail(p.email)
      && (p.phone.Some? ==> |p.phone.value| == 14 && ClientValidation.NormalizePhone(p.phone) == p.phone.value)
      && (p.phone.None? <==> NoSpaceFree(f.phone))
      && (p.address.None? <==> NoSpaceFree(f.address))
      && p.city.None?
  {
    CleanedMeaning(f.name, 255);
    CleanedMeaning(f.phone, 32);
    CleanedMeaning(f.address, 300);
    var email := Cleaned(f.email, 255);
    var phone := Cleaned(f.phone, 32);
    if Validate(f).Ok? {
      ClientValidation.ValidateEmailStricter(OrNull(email));
      if phone != "" {
        ClientValidation.NormalizePhoneShape(Some(phone));
      }
    }
  }

  /** addCustomer: the checks, then the city derived from the cleaned address. */
  method AddCustomer(f: CustomerForm) returns (r: Result<Payload, Refusal>)
    ensures r.Err? <==> Validate(f).Err?
    ensures r.Err? ==> r == Validate(f)
    ensures r.Ok? ==> r.value == Validate(f).value.(city := DeriveCity(r.value.address))
  {
    var name := Cleaned(f.name, 255);
    if name == "" {
      return Err(NameRequired);
    }
    var email := Cleaned(f.email, 255);
    if email != "" && !ClientValidation.ValidateEmail(Some(email)) {
      return Err(InvalidEmail);
    }
    var phone := Cleaned(f.phone, 32);
    if phone != "" {
      var normalized := ClientValidation.NormalizePhone(Some(phone));
      if normalized == "" {
        return Err(InvalidPhone);
      }
      phone := normalized;
    }
    var payload := Payload(name, OrNull(Cleaned(f.contact, 255)), OrNull(email), OrNull(phone),
                           OrNull(Cleaned(f.address, 300)), OrNull(Cleaned(f.notes, 2000)), None);
    if payload.city.None? {
      var c := DeriveCity(payload.address);
      if c.Some? {
        payload := payload.(city := c);
      }
    }
    return Ok(payload);
  }

  /** A city is derived exactly when the cleaned address has a non-blank second part. */
  lemma AddedCityFromAddress(f: CustomerForm, x: string, y: string, rest: string)
    requires Validate(f).Ok?
    requires Cleaned(f.address, 300) == x + [','] + y + rest
    requires !HasChar(x, ',') && !HasChar(y, ',') && (rest == [] || rest[0] == ',')
    ensures DeriveCity(Validate(f).value.address) == if NoSpaceFree(y) then None else Some(Trim(y))
  {
    DeriveCitySecondPart(x, y, rest);
  }

  datatype EditOutcome = NoCustomer | Rejected(why: Refusal) | Put(id: int, payload: Payload)

  /** The page's state: the customer the edit modal was opened for (0 when none). */
  class CustomersPage {
    var editingId: int

    constructor()
      ensures editingId == 0
    {
      editingId := 0;
    }

    /** The edit button: Number(data-customer-id), 0 standing for a missing or unreadable id. */
    method OnEditClicked(id: int)
      modifies this
      ensures editingId == id
    {
      editingId := id;
    }

    /** saveEdit: nothing without a customer; otherwise the same rules as adding, and no city. */
    method SaveEdit(f: CustomerForm) returns (out: EditOutcome)
      ensures editingId == 0 ==> out == NoCustomer
      ensures editingId != 0 ==> match Validate(f)
        case Err(e) => out == Rejected(e)
        case Ok(p) => out == Put(editingId, p)
    {
      var id := editingId;
      if id == 0 {
        return NoCustomer;
      }
      var name := Cleaned(f.name, 255);
      var email := Cleaned(f.email, 255);
      var phone := Cleaned(f.phone, 32);
      var payload := Payload(name, OrNull(Cleaned(f.contact, 255)), OrNull(email), OrNull(phone),
                             OrNull(Cleaned(f.address, 300)), OrNull(Cleaned(f.notes, 2000)), None);
      if payload.name == "" {
        return Rejected(NameRequired);
      }
      if payload.email.Some? && !ClientValidation.ValidateEmail(payload.email) {
        return Rejected(InvalidEmail);
      }
      if payload.phone.Some? {
        var normalized := ClientValidation.NormalizePhone(payload.phone);
        if normalized == "" {
          return Rejected(InvalidPhone);
        }
        payload := payload.(phone := Some(normalized));
      }
      return Put(id, payload);
    }
  }
}
