// The materials library page (app/static/js/materials_index.js): the add
// form's payload and its required-field checks, the edit modal's payload and
// checks, the "+ New category…" insertion into the category select, and the
// two numeric field helpers.
//
// A form is the values of its inputs; the category select is a class whose
// option values and selected value the insertion updates. Requests, alerts,
// modals and the redirect after saving are not modelled; toFixed(2) is kept
// abstract: Some(x) stands for the text x.toFixed(2) and None for "".
module MaterialsIndex {
  import opened Wrappers
  import opened Text
  import opened NumParse

  /** The value of the "+ New category…" option. */
  const NewSentinel: string := "__new__"

  /** The unit sizes the add form accepts, as the select's texts. */
  const UnitSizeTexts: seq<string> := ["1", "100", "1000"]

  /** The unit sizes the edit modal accepts, as numbers. */
  const UnitSizes: set<int> := {1, 100, 1000}

  // ----- serializePayload -----

  /** The values of the add form's inputs, and the payload built from them
      (the same fields under the server's names). */
  datatype MaterialForm = MaterialForm(
    materialType: string, description: string, sku: string, manufacturer: string, vendor: string,
    price: string, laborUnit: string, unitQtySize: string,
    materialCostCode: string, matCostCodeDesc: string, laborCostCode: string, laborCostCodeDesc: string,
    isActive: bool)

  /** serializePayload: every text field trimmed; price, labor unit and unit
      size sent as typed. */
  function SerializePayload(f: MaterialForm): MaterialForm
  {
    f.(materialType := Trim(f.materialType), description := Trim(f.description), sku := Trim(f.sku),
       manufacturer := Trim(f.manufacturer), vendor := Trim(f.vendor),
       materialCostCode := Trim(f.materialCostCode), matCostCodeDesc := Trim(f.matCostCodeDesc),
       laborCostCode := Trim(f.laborCostCode), laborCostCodeDesc := Trim(f.laborCostCodeDesc))
  }

  /** The text fields of a form are free of surrounding whitespace. */
  predicate TextTrimmed(f: MaterialForm)
  {
    Trimmed(f.materialType) && Trimmed(f.description) && Trimmed(f.sku) && Trimmed(f.manufacturer)
    && Trimmed(f.vendor) && Trimmed(f.materialCostCode) && Trimmed(f.matCostCodeDesc)
    && Trimmed(f.laborCostCode) && Trimmed(f.laborCostCodeDesc)
  }

  /** The payload's text fields are trimmed and its numeric fields are
      exactly what was typed (surrounding whitespace included). */
  lemma SerializePayloadFields(f: MaterialForm)
    ensures TextTrimmed(SerializePayload(f))
    ensures SerializePayload(f).price == f.price && SerializePayload(f).laborUnit == f.laborUnit
    ensures SerializePayload(f).unitQtySize == f.unitQtySize && SerializePayload(f).isActive == f.isActive
  {
    TrimTrimmed(f.materialType); TrimTrimmed(f.description); TrimTrimmed(f.sku);
    TrimTrimmed(f.manufacturer); TrimTrimmed(f.vendor); TrimTrimmed(f.materialCostCode);
    TrimTrimmed(f.matCostCodeDesc); TrimTrimmed(f.laborCostCode); TrimTrimmed(f.laborCostCodeDesc);
  }

  /** Serializing a payload again gives it back. */
  lemma SerializePayloadIdempotent(f: MaterialForm)
    ensures SerializePayload(SerializePayload(f)) == SerializePayload(f)
  {
    SerializePayloadFields(f);
    var p := SerializePayload(f);
    TrimKeepsTrimmed(p.materialType); TrimKeepsTrimmed(p.description); TrimKeepsTrimmed(p.sku);
    TrimKeepsTrimmed(p.manufacturer); TrimKeepsTrimmed(p.vendor); TrimKeepsTrimmed(p.materialCostCode);
    TrimKeepsTrimmed(p.matCostCodeDesc); TrimKeepsTrimmed(p.laborCostCode); TrimKeepsTrimmed(p.laborCostCodeDesc);
  }

  /** A form whose text is already trimmed is sent as it is. */
  lemma SerializePayloadKeepsTrimmed(f: MaterialForm)
    requires TextTrimmed(f)
    ensures SerializePayload(f) == f
  {
    TrimKeepsTrimmed(f.materialType); TrimKeepsTrimmed(f.description); TrimKeepsTrimmed(f.sku);
    TrimKeepsTrimmed(f.manufacturer); TrimKeepsTrimmed(f.vendor); TrimKeepsTrimmed(f.materialCostCode);
    TrimKeepsTrimmed(f.matCostCodeDesc); TrimKeepsTrimmed(f.laborCostCode); TrimKeepsTrimmed(f.laborCostCodeDesc);
  }

  // ----- onAdd -----

  /** The entries of the "Please complete: …" alert. */
  datatype AddMissing =
    | MissingCategory         // "Category"
    | MissingDescription      // "Description"
    | MissingPrice            // "Price"
    | MissingLaborUnit        // "Labor Unit"
    | MissingUnitQtySize      // "Unit Qty Size"
    | UnitQtySizeNotAllowed   // "Unit Qty Size must be 1, 100, or 1000"

  /** The position of each check in the order onAdd runs them. */
  function Rank(e: AddMissing): nat
  {
    match e
    case MissingCategory => 0
    case MissingDescription => 1
    case MissingPrice => 2
    case MissingLaborUnit => 3
    case MissingUnitQtySize => 4
    case UnitQtySizeNotAllowed => 5
  }

  /** The list with `e` pushed onto it when `failed` holds. */
  function Push(errs: seq<AddMissing>, failed: bool, e: AddMissing): seq<AddMissing>
  {
    if failed then errs + [e] else errs
  }

  /** Whether the check that reports `e` fails on the form. */
  predicate Fails(f: MaterialForm, e: AddMissing)
  {
    match e
    case MissingCategory => f.materialType == ""
    case MissingDescription => f.description == ""
    case MissingPrice => f.price == ""
    case MissingLaborUnit => f.laborUnit == ""
    case MissingUnitQtySize => f.unitQtySize == ""
    case UnitQtySizeNotAllowed => f.unitQtySize !in UnitSizeTexts
  }

  /** The checks of onAdd, in the order it runs them. */
  const Checks: seq<AddMissing> :=
    [MissingCategory, MissingDescription, MissingPrice, MissingLaborUnit, MissingUnitQtySize, UnitQtySizeNotAllowed]

  /** Running the checks `cs` in order, pushing the entry of each one that fails. */
  function Failing(f: MaterialForm, cs: seq<AddMissing>): seq<AddMissing>
  {
    if cs == [] then [] else Push(Failing(f, cs[..|cs| - 1]), Fails(f, cs[|cs| - 1]), cs[|cs| - 1])
  }

  /** The alert's entries for a form, in the order they are collected; the
      values are checked as typed, without trimming. */
  function AddErrors(f: MaterialForm): seq<AddMissing>
  {
    Failing(f, Checks)
  }

  /** The entries are exactly the failing checks. */
  lemma {:induction false} FailingMembers(f: MaterialForm, cs: seq<AddMissing>)
    ensures forall x :: x in Failing(f, cs) <==> x in cs && Fails(f, x)
  {
    if cs != [] {
      FailingMembers(f, cs[..|cs| - 1]);
      assert cs == cs[..|cs| - 1] + [cs[|cs| - 1]];
    }
  }

  /** The entries sit in the order of the checks. */
  predicate Ranked(errs: seq<AddMissing>)
  {
    forall i, j :: 0 <= i < j < |errs| ==> Rank(errs[i]) < Rank(errs[j])
  }

  /** Checks run in rank order report in rank order. */
  lemma {:induction false} FailingRanked(f: MaterialForm, cs: seq<AddMissing>)
    requires Ranked(cs)
    ensures Ranked(Failing(f, cs))
  {
    if cs != [] {
      var init, last := cs[..|cs| - 1], cs[|cs| - 1];
      FailingRanked(f, init);
      FailingMembers(f, init);
      assert forall x :: x in init ==> Rank(x) < Rank(last) by {
        forall x | x in init ensures Rank(x) < Rank(last) {
          var i :| 0 <= i < |init| && init[i] == x;
          assert cs[i] == x;
        }
      }
    }
  }

  /** Each entry appears exactly when its check fails, the entries follow
      the order of the checks, and the form passes exactly when every field
      is filled and the unit size is one of the three. An empty unit size
      gets both of its entries. */
  lemma AddErrorsMeaning(f: MaterialForm)
    ensures var errs := AddErrors(f);
      && (MissingCategory in errs <==> f.materialType == "")
      && (MissingDescription in errs <==> f.description == "")
      && (MissingPrice in errs <==> f.price == "")
      && (MissingLaborUnit in errs <==> f.laborUnit == "")
      && (MissingUnitQtySize in errs <==> f.unitQtySize == "")
      && (UnitQtySizeNotAllowed in errs <==> f.unitQtySize !in UnitSizeTexts)
      && Ranked(errs)
      && (errs == [] <==> f.materialType != "" && f.description != "" && f.price != ""
                          && f.laborUnit != "" && f.unitQtySize in UnitSizeTexts)
      && (f.unitQtySize == "" ==> MissingUnitQtySize in errs && UnitQtySizeNotAllowed in errs)
  {
    FailingMembers(f, Checks);
    FailingRanked(f, Checks);
    var errs := AddErrors(f);
    assert Checks[0] == MissingCategory && Checks[1] == MissingDescription && Checks[2] == MissingPrice;
    assert Checks[3] == MissingLaborUnit && Checks[4] == MissingUnitQtySize && Checks[5] == UnitQtySizeNotAllowed;
    if errs == [] {
      assert !Fails(f, MissingCategory) && !Fails(f, MissingDescription) && !Fails(f, MissingPrice);
      assert !Fails(f, MissingLaborUnit) && !Fails(f, UnitQtySizeNotAllowed);
    } else {
      assert Fails(f, errs[0]) by { assert errs[0] in errs; }
      assert "" !in UnitSizeTexts;
    }
  }

  /** Running one more check pushes its entry when it fails. */
  lemma FailingStep(f: MaterialForm, cs: seq<AddMissing>, k: nat)
    requires k < |cs|
    ensures Failing(f, cs[..k + 1]) == Push(Failing(f, cs[..k]), Fails(f, cs[k]), cs[k])
  {
    assert cs[..k + 1][..k] == cs[..k];
  }

  /** The required-field checks of onAdd, pushing onto the list one by one. */
  method CheckAdd(f: MaterialForm) returns (errors: seq<AddMissing>)
    ensures errors == AddErrors(f)
  {
    errors := [];
    FailingStep(f, Checks, 0);
    if f.materialType == "" { errors := errors + [MissingCategory]; }
    assert errors == Failing(f, Checks[..1]);
    FailingStep(f, Checks, 1);
    if f.description == "" { errors := errors + [MissingDescription]; }
    assert errors == Failing(f, Checks[..2]);
    FailingStep(f, Checks, 2);
    if f.price == "" { errors := errors + [MissingPrice]; }
    assert errors == Failing(f, Checks[..3]);
    FailingStep(f, Checks, 3);
    if f.laborUnit == "" { errors := errors + [MissingLaborUnit]; }
    assert errors == Failing(f, Checks[..4]);
    FailingStep(f, Checks, 4);
    if f.unitQtySize == "" { errors := errors + [MissingUnitQtySize]; }
    assert errors == Failing(f, Checks[..5]);
    FailingStep(f, Checks, 5);
    if f.unitQtySize !in UnitSizeTexts { errors := errors + [UnitQtySizeNotAllowed]; }
    assert Checks[..6] == Checks;
  }

  /** What onAdd does: alert the missing entries, or post the payload. */
  datatype AddOutcome = Alerted(errors: seq<AddMissing>) | Posted(payload: MaterialForm)

  /** onAdd up to the request: nothing is posted unless every check passes,
      and then the serialized form is. */
  method OnAdd(f: MaterialForm) returns (out: AddOutcome)
    ensures out.Alerted? <==> AddErrors(f) != []
    ensures out.Alerted? ==> out.errors == AddErrors(f)
    ensures out.Posted? ==> out.payload == SerializePayload(f) && out.payload.unitQtySize in UnitSizeTexts
  {
    var errors := CheckAdd(f);
    if |errors| > 0 {
      return Alerted(errors);
    }
    AddErrorsMeaning(f);
    out := Posted(SerializePayload(f));
  }

  /** The checks look at the untrimmed values, so a category of blanks
      passes them and is posted as an empty type. */
  lemma BlankCategoryPosted(f: MaterialForm)
    requires f.materialType == " " && f.description != "" && f.price != "" && f.laborUnit != ""
    requires f.unitQtySize == "100"
    ensures AddErrors(f) == []
    ensures SerializePayload(f).materialType == ""
  {
    assert AddErrors(f) == [] by { AddErrorsMeaning(f); }
    assert Trim(" ") == "" by { assert TrimStart(" ") == ""; }
  }

  // ----- edit modal -----

  /** The PUT payload of the edit modal: text trimmed, price and labor unit
      read by parseFloat and the unit size by parseInt (None for NaN). */
  datatype EditPayload = EditPayload(
    description: string, sku: string, manufacturer: string, vendor: string,
    price: Option<real>, laborUnit: Option<real>, unitQtySize: Option<int>,
    materialCostCode: string, matCostCodeDesc: string, laborCostCode: string, laborCostCodeDesc: string,
    isActive: bool)

  function EditPayloadOf(f: MaterialForm): EditPayload
  {
    EditPayload(Trim(f.description), Trim(f.sku), Trim(f.manufacturer), Trim(f.vendor),
      JsParseFloat(f.price), JsParseFloat(f.laborUnit), JsParseInt(f.unitQtySize),
      Trim(f.materialCostCode), Trim(f.matCostCodeDesc), Trim(f.laborCostCode), Trim(f.laborCostCodeDesc),
      f.isActive)
  }

  datatype EditRefusal =
    | DescriptionRequired   // "Description is required."
    | UnitQtySizeInvalid    // "Unit Qty Size must be 1, 100, or 1000."

  /** The save handler of the edit modal up to the request. */
  function SaveEdit(f: MaterialForm): (r: Result<EditPayload, EditRefusal>)
    ensures NoSpaceFree(f.description) ==> r == Err(DescriptionRequired)
    ensures r.Ok? ==> r.value == EditPayloadOf(f) && r.value.unitQtySize.Some? && r.value.unitQtySize.value in UnitSizes
  {
    TrimEmpty(f.description);
    var p := EditPayloadOf(f);
    if p.description == "" then Err(DescriptionRequired)
    else if p.unitQtySize.None? || p.unitQtySize.value !in UnitSizes then Err(UnitQtySizeInvalid)
    else Ok(p)
  }

  /** The description is checked first; a payload is sent exactly when the
      trimmed description is not empty and the unit size parses to 1, 100 or
      1000; the payload then carries that unit size. */
  lemma SaveEditMeaning(f: MaterialForm)
    ensures SaveEdit(f) == Err(DescriptionRequired) <==> NoSpaceFree(f.description)
    ensures SaveEdit(f).Ok? <==>
      !NoSpaceFree(f.description) && JsParseInt(f.unitQtySize).Some? && JsParseInt(f.unitQtySize).value in UnitSizes
    ensures SaveEdit(f).Ok? ==> SaveEdit(f).value == EditPayloadOf(f) && SaveEdit(f).value.unitQtySize.value in UnitSizes
  {
    TrimEmpty(f.description);
  }

  /** parseInt("100 units") reads the leading 100. */
  lemma HundredUnitsParses()
    ensures JsParseInt("100 units") == Some(100)
  {
    assert "100 units" == "100" + " units";
    JsParseIntLeading("100", " units");
    DigitsHundred();
  }

  lemma DigitsHundred()
    ensures DigitsValue("100") == 100
  {
    assert "100"[..2] == "10" && "10"[..1] == "1" && "1"[..0] == "";
  }

  /** parseInt reads the leading number only, so the edit modal takes a unit
      size the add form refuses. */
  lemma EditTakesLooserUnitSize(f: MaterialForm)
    requires f.unitQtySize == "100 units" && !NoSpaceFree(f.description)
    ensures SaveEdit(f).Ok? && SaveEdit(f).value.unitQtySize == Some(100)
    ensures UnitQtySizeNotAllowed in AddErrors(f)
  {
    HundredUnitsParses();
    SaveEditMeaning(f);
    AddErrorsMeaning(f);
    LongUnitSizeRefused(f.unitQtySize);
  }

  /** Every allowed unit size is at most four characters long. */
  lemma LongUnitSizeRefused(s: string)
    requires |s| > 4
    ensures s !in UnitSizeTexts
  {
    assert |UnitSizeTexts[0]| == 1 && |UnitSizeTexts[1]| == 3 && |UnitSizeTexts[2]| == 4;
  }

  // ----- "+ New category…" -----

  /** A category option other than the blank one and the sentinel has the
      name, compared case-insensitively. */
  predicate CategoryExists(options: seq<string>, name: string)
  {
    exists i :: 0 <= i < |options| && options[i] != "" && options[i] != NewSentinel && Lower(options[i]) == Lower(name)
  }

  /** findIndex of the sentinel option. */
  function SentinelIndex(options: seq<string>): (r: Option<nat>)
    ensures r.None? <==> NewSentinel !in options
    ensures r.Some? ==> r.value < |options| && options[r.value] == NewSentinel && NewSentinel !in options[..r.value]
  {
    if options == [] then None
    else if options[0] == NewSentinel then Some(0)
    else
      var k := SentinelIndex(options[1..]);
      if k.None? then None
      else
        assert options[..k.value + 1] == [options[0]] + options[1..][..k.value];
        Some(k.value + 1)
  }

  /** Where select.add puts the new option: before the sentinel, or at the
      end when there is none. */
  function InsertionPoint(options: seq<string>): (k: nat)
    ensures k <= |options|
  {
    match SentinelIndex(options)
    case Some(i) => i
    case None => |options|
  }

  function InsertAt(options: seq<string>, k: nat, x: string): (r: seq<string>)
    requires k <= |options|
  {
    options[..k] + [x] + options[k..]
  }

  /** The category select: its option values and the selected value. */
  class CategorySelect {
    var options: seq<string>
    var value: string

    constructor(options: seq<string>, value: string)
      ensures this.options == options && this.value == value
    {
      this.options := options;
      this.value := value;
    }

    /** addNewMaterialCategory: refused on a case-insensitive duplicate;
        otherwise inserted before the sentinel (or last) and selected. */
    method AddNewCategory(name: string) returns (ok: bool)
      modifies this
      ensures ok <==> !CategoryExists(old(options), name)
      ensures ok ==> options == InsertAt(old(options), InsertionPoint(old(options)), name) && value == name
      ensures !ok ==> options == old(options) && value == old(value)
    {
      if CategoryExists(options, name) {
        return false;
      }
      var k := InsertionPoint(options);
      options := InsertAt(options, k, name);
      value := name;
      ok := true;
    }

    /** The confirm button of the modal: the typed name is trimmed and must
        not be empty. */
    method OnConfirm(input: string) returns (r: Result<string, NewCategoryRefusal>)
      modifies this
      ensures r == Err(NameRequired) <==> NoSpaceFree(input)
      ensures r == Err(AlreadyExists) <==> !NoSpaceFree(input) && CategoryExists(old(options), Trim(input))
      ensures r.Ok? ==>
        r.value == Trim(input) && value == Trim(input)
        && options == InsertAt(old(options), InsertionPoint(old(options)), Trim(input))
      ensures r.Err? ==> options == old(options) && value == old(value)
    {
      var name := Trim(input);
      TrimEmpty(input);
      if name == "" {
        return Err(NameRequired);
      }
      var ok := AddNewCategory(name);
      if ok {
        r := Ok(name);
      } else {
        r := Err(AlreadyExists);
      }
    }

    /** Closing the modal while the sentinel is still selected clears the
        selection. */
    method OnModalHidden()
      modifies this
      ensures value == (if old(value) == NewSentinel then "" else old(value))
      ensures options == old(options)
    {
      if value == NewSentinel {
        value := "";
      }
    }
  }

  datatype NewCategoryRefusal =
    | NameRequired    // "Name is required."
    | AlreadyExists   // "That category already exists."

  /** The inserted option sits at the insertion point, every other option
      keeps its order, and the sentinel (if any) follows the new one. */
  lemma InsertCategoryShape(options: seq<string>, name: string)
    ensures var k := InsertionPoint(options);
      var r := InsertAt(options, k, name);
      && |r| == |options| + 1 && r[k] == name
      && r[..k] == options[..k] && r[k + 1..] == options[k..]
      && (NewSentinel in options ==> k + 1 < |r| && r[k + 1] == NewSentinel)
      && (NewSentinel !in options ==> r == options + [name])
  {
    var k := InsertionPoint(options);
    var r := InsertAt(options, k, name);
    assert r[k + 1..] == options[k..];
    if NewSentinel in options {
      assert r[k + 1] == options[k];
    }
  }

  /** Once a name is added, adding it again in any letter case is refused. */
  lemma AddedCategoryRefusedAgain(options: seq<string>, name: string, again: string)
    requires name != "" && name != NewSentinel && Lower(again) == Lower(name)
    ensures CategoryExists(InsertAt(options, InsertionPoint(options), name), again)
  {
    var k := InsertionPoint(options);
    var r := InsertAt(options, k, name);
    assert r[k] == name;
  }

  // ----- numeric helpers -----

  /** toTwoDecimals: parseFloat of the text; None (the empty text) when it is
      not a finite number, Some(x) for x.toFixed(2). */
  function ToTwoDecimals(s: string): Option<real>
  {
    JsParseFloat(s)
  }

  /** Blank and non-numeric text format to "", a digit string to its value. */
  lemma ToTwoDecimalsMeaning(s: string)
    ensures TrimStart(s) == [] ==> ToTwoDecimals(s) == None
    ensures TrimStart(s) != [] && IsLetter(TrimStart(s)[0]) ==> ToTwoDecimals(s) == None
    ensures AllDigits(s) && s != [] ==> ToTwoDecimals(s) == Some(DigitsValue(s) as real)
  {
    if TrimStart(s) == [] || IsLetter(TrimStart(s)[0]) {
      JsParseFloatNoNumber(s);
    }
    if AllDigits(s) && s != [] {
      JsParseFloatOfDigits(s);
    }
  }

  /** The at most two digits `\d{0,2}` takes. */
  function UpTo2(d: string): (r: string)
  {
    if |d| <= 2 then d else d[..2]
  }

  /** clampTwoDecimalsInput on the field's text: when the text starts with
      digits, keep them and, after a ".", at most two more digits; text that
      does not start with a digit is left as it is. */
  function ClampTwoDecimals(s: string): string
  {
    var ip := LeadingDigits(s);
    if ip == [] then s
    else
      var rest := s[|ip|..];
      if rest != [] && rest[0] == '.' then ip + "." + UpTo2(LeadingDigits(rest[1..]))
      else ip
  }

  /** Gluing a prefix, a point and the text after the point back together
      gives a prefix of the text. */
  lemma GluedPrefix(s: string, ip: string, f: string)
    requires |ip| + 1 + |f| <= |s| && s[..|ip|] == ip && s[|ip|] == '.'
    requires s[|ip| + 1..|ip| + 1 + |f|] == f
    ensures ip + "." + f == s[..|ip| + 1 + |f|]
  {
    var r := ip + "." + f;
    forall i | 0 <= i < |r|
      ensures r[i] == s[i]
    {
      if i < |ip| {
        assert r[i] == ip[i] == s[..|ip|][i];
      } else if i > |ip| {
        assert r[i] == f[i - |ip| - 1] == s[|ip| + 1..|ip| + 1 + |f|][i - |ip| - 1];
      }
    }
  }

  /** The at most two digits after the point are digits. */
  lemma UpTo2Digits(d: string)
    requires AllDigits(d)
    ensures AllDigits(UpTo2(d)) && |UpTo2(d)| <= 2 && UpTo2(d) == d[..|UpTo2(d)|]
  {
  }

  /** The shape of a clamped text with a point after its digit run. */
  lemma ClampedWithPoint(s: string, ip: string, f: string)
    requires |ip| + 1 + |f| <= |s| && s[..|ip|] == ip && s[|ip|] == '.'
    requires s[|ip| + 1..|ip| + 1 + |f|] == f && AllDigits(f) && |f| <= 2
    ensures var r := ip + "." + f;
      && r == s[..|r|] && r[..|ip|] == ip
      && r[|ip|] == '.' && |r| <= |ip| + 3 && AllDigits(r[|ip| + 1..])
  {
    GluedPrefix(s, ip, f);
    var r := ip + "." + f;
    assert r[..|ip|] == ip && r[|ip| + 1..] == f;
  }

  /** The shape of the clamped text: a prefix of the text that keeps the
      whole digit run and at most two digits after the point. */
  predicate ClampShape(s: string, ip: string, r: string)
  {
    && |r| <= |s| && r == s[..|r|] && |ip| <= |r| && r[..|ip|] == ip
    && (|r| == |ip| || (r[|ip|] == '.' && |r| <= |ip| + 3 && AllDigits(r[|ip| + 1..])))
  }

  /** A text with a point after its digit run is clamped to that shape. */
  lemma ClampPointCase(s: string)
    requires LeadingDigits(s) != [] && |s| > |LeadingDigits(s)| && s[|LeadingDigits(s)|] == '.'
    ensures ClampShape(s, LeadingDigits(s), ClampTwoDecimals(s))
  {
    var ip := LeadingDigits(s);
    var rest := s[|ip|..];
    var d := LeadingDigits(rest[1..]);
    var f := UpTo2(d);
    UpTo2Digits(d);
    assert f == s[|ip| + 1..|ip| + 1 + |f|] by {
      assert d == rest[1..][..|d|];
    }
    ClampedWithPoint(s, ip, f);
  }

  /** The clamped text is a prefix of the text that keeps its whole run of
      leading digits and has at most two digits after the point; text that
      does not start with a digit is kept. */
  lemma ClampTwoDecimalsMeaning(s: string)
    ensures LeadingDigits(s) == [] ==> ClampTwoDecimals(s) == s
    ensures LeadingDigits(s) != [] ==> ClampShape(s, LeadingDigits(s), ClampTwoDecimals(s))
  {
    var ip := LeadingDigits(s);
    if ip != [] {
      if |s| > |ip| && s[|ip|] == '.' {
        ClampPointCase(s);
      } else {
        assert ClampTwoDecimals(s) == ip;
      }
    }
  }

  /** Clamping while typing is idempotent: a clamped text stays as it is. */
  lemma ClampTwoDecimalsIdempotent(s: string)
    ensures ClampTwoDecimals(ClampTwoDecimals(s)) == ClampTwoDecimals(s)
  {
    var ip := LeadingDigits(s);
    if ip != [] {
      var rest := s[|ip|..];
      if rest != [] && rest[0] == '.' {
        var f := UpTo2(LeadingDigits(rest[1..]));
        var r := ip + "." + f;
        assert r == ip + ("." + f);
        LeadingDigitsThen(ip, "." + f);
        assert r[|ip|..] == "." + f;
        LeadingDigitsOfDigits(f);
        assert ("." + f)[1..] == f;
      } else {
        LeadingDigitsOfDigits(ip);
        assert ip[|ip|..] == [];
      }
    }
  }
}
