// The admin settings page: reading the form into the settings document
// (collectSettings), writing a stored document back into the form
// (applyToForm), and which fields get autosave handlers.
module AdminSettings {
  import opened Wrappers
  import opened Text
  import opened NumParse

  /** The kind of a form element, which decides whether getVal trims. */
  datatype Kind = SelectBox | NumberInput | TextInput

  /** A form element: its kind and its current value. */
  datatype Field = Field(kind: Kind, value: string)

  /** The org fields: the document key and the element id. */
  const OrgFields: seq<(string, string)> := [
    ("company_name", "orgCompanyName"), ("legal_name", "orgLegalName"),
    ("contact_name", "orgContactName"), ("email", "orgEmail"), ("phone", "orgPhone"),
    ("website", "orgWebsite"), ("address1", "orgAddress1"), ("address2", "orgAddress2"),
    ("city", "orgCity"), ("state", "orgState"), ("zip", "orgZip"),
    ("license_no", "orgLicense"), ("proposal_footer", "proposalFooter")]

  const LaborRateId: string := "settingLaborRate"

  /** The integer pricing fields: the document key, the element id and the default. */
  const PercentFields: seq<(string, string, int)> := [
    ("overhead_percent", "settingOverheadPercent", 30),
    ("margin_percent", "settingProfitMarginPercent", 10),
    ("sales_tax_percent", "settingSalesTaxPercent", 8),
    ("misc_percent", "settingMiscPercent", 10),
    ("small_tools_percent", "settingSmallToolsPercent", 5),
    ("large_tools_percent", "settingLargeToolsPercent", 3),
    ("waste_theft_percent", "settingWasteTheftPercent", 10)]

  /** The elements that get the autosave handlers, as the page lists them. */
  const AutosaveIds: seq<string> := [
    "orgCompanyName", "orgLegalName", "orgContactName", "orgEmail", "orgPhone", "orgWebsite",
    "orgAddress1", "orgAddress2", "orgCity", "orgState", "orgZip", "orgLicense", "proposalFooter",
    "settingLaborRate", "settingOverheadPercent", "settingProfitMarginPercent", "settingSalesTaxPercent",
    "settingMiscPercent", "settingSmallToolsPercent", "settingLargeToolsPercent", "settingWasteTheftPercent"]

  // ---------------------------------------------------------------------
  // Reading the form
  // ---------------------------------------------------------------------

  /** getVal: "" for a missing element; only text inputs are trimmed. */
  function GetVal(fields: map<string, Field>, id: string): string
  {
    if id !in fields then ""
    else
      match fields[id].kind
      case SelectBox => fields[id].value
      case NumberInput => fields[id].value
      case TextInput => Trim(fields[id].value)
  }

  /** Selects and number inputs are read as they are; text inputs come back trimmed. */
  lemma GetValMeaning(fields: map<string, Field>, id: string)
    ensures id !in fields ==> GetVal(fields, id) == ""
    ensures id in fields && !fields[id].kind.TextInput? ==> GetVal(fields, id) == fields[id].value
    ensures id in fields && fields[id].kind.TextInput? ==>
      && Trimmed(GetVal(fields, id))
      && (Trimmed(fields[id].value) ==> GetVal(fields, id) == fields[id].value)
      && (GetVal(fields, id) == "" <==> NoSpaceFree(fields[id].value))
  {
    if id in fields && fields[id].kind.TextInput? {
      TrimTrimmed(fields[id].value);
      TrimEmpty(fields[id].value);
      if Trimmed(fields[id].value) {
        TrimKeepsTrimmed(fields[id].value);
      }
    }
  }

  /** toInt: the default for blank text or text parseInt cannot read. */
  function ToInt(v: string, d: int): int
  {
    var s := Trim(v);
    if s == "" then d
    else
      match JsParseInt(s)
      case Some(n) => n
      case None => d
  }

  /** toFloat: the default for blank text or text parseFloat cannot read. */
  function ToFloat(v: string, d: real): real
  {
    var s := Trim(v);
    if s == "" then d
    else
      match JsParseFloat(s)
      case Some(x) => x
      case None => d
  }

  /** A text that starts with a letter once trimmed. */
  predicate LetterFirst(v: string)
  {
    Trim(v) != "" && IsLetter(Trim(v)[0])
  }

  /** The trimmed text is its own leading-whitespace strip. */
  lemma TrimStartOfTrim(v: string)
    ensures TrimStart(Trim(v)) == Trim(v)
  {
    TrimTrimmed(v);
  }

  /** toInt gives the default for blank or wordy text, and a digit string's value. */
  lemma ToIntMeaning(v: string, d: int)
    ensures NoSpaceFree(v) ==> ToInt(v, d) == d
    ensures LetterFirst(v) ==> ToInt(v, d) == d
    ensures AllDigits(v) && v != [] ==> ToInt(v, d) == DigitsValue(v)
    ensures ToInt(v, d) == d || JsParseInt(Trim(v)) == Some(ToInt(v, d))
  {
    TrimEmpty(v);
    if LetterFirst(v) {
      TrimStartOfTrim(v);
      assert JsIntPrefix(Trim(v)) == None;
    }
    if AllDigits(v) && v != [] {
      DigitsTrimmed(v);
      ParseIntOfDigits(v);
    }
  }

  /** toFloat gives the default for blank or wordy text, and a digit string's value. */
  lemma ToFloatMeaning(v: string, d: real)
    ensures NoSpaceFree(v) ==> ToFloat(v, d) == d
    ensures LetterFirst(v) ==> ToFloat(v, d) == d
    ensures AllDigits(v) && v != [] ==> ToFloat(v, d) == DigitsValue(v) as real
    ensures ToFloat(v, d) == d || JsParseFloat(Trim(v)) == Some(ToFloat(v, d))
  {
    TrimEmpty(v);
    if LetterFirst(v) {
      TrimStartOfTrim(v);
      JsParseFloatNoNumber(Trim(v));
    }
    if AllDigits(v) && v != [] {
      DigitsTrimmed(v);
      JsParseFloatOfDigits(v);
    }
  }

  /** A digit string has nothing to trim. */
  lemma DigitsTrimmed(v: string)
    requires AllDigits(v) && v != []
    ensures Trim(v) == v
  {
    assert !IsSpace(v[0]) && !IsSpace(v[|v| - 1]);
    TrimKeepsTrimmed(v);
  }

  /** The pricing block of the settings document. */
  datatype Pricing = Pricing(
    laborRate: real, overheadPercent: int, marginPercent: int, salesTaxPercent: int,
    miscPercent: int, smallToolsPercent: int, largeToolsPercent: int, wasteTheftPercent: int)

  /** The k-th integer pricing field, in the order of PercentFields. */
  function Percent(p: Pricing, k: nat): int
    requires k < 7
  {
    match k
    case 0 => p.overheadPercent
    case 1 => p.marginPercent
    case 2 => p.salesTaxPercent
    case 3 => p.miscPercent
    case 4 => p.smallToolsPercent
    case 5 => p.largeToolsPercent
    case _ => p.wasteTheftPercent
  }

  /** The settings document collectSettings builds; org pairs keys with values. */
  datatype Collected = Collected(version: int, org: seq<(string, string)>, pricing: Pricing)

  /** The k-th integer pricing field as read from the form. */
  function ReadPercent(fields: map<string, Field>, k: nat): int
    requires k < 7
  {
    ToInt(GetVal(fields, PercentFields[k].1), PercentFields[k].2)
  }

  /** collectSettings */
  function CollectSettings(fields: map<string, Field>): Collected
  {
    var org := seq(|OrgFields|, i requires 0 <= i < |OrgFields| => (OrgFields[i].0, GetVal(fields, OrgFields[i].1)));
    Collected(1, org, Pricing(
      ToFloat(GetVal(fields, LaborRateId), 0.0),
      ReadPercent(fields, 0), ReadPercent(fields, 1), ReadPercent(fields, 2), ReadPercent(fields, 3),
      ReadPercent(fields, 4), ReadPercent(fields, 5), ReadPercent(fields, 6)))
  }

  /** The pricing a form with nothing usable in it yields. */
  const DefaultPricing: Pricing := Pricing(0.0, 30, 10, 8, 10, 5, 3, 10)

  /** A pricing field the form leaves blank or missing. */
  predicate Blank(fields: map<string, Field>, id: string)
  {
    id !in fields || NoSpaceFree(fields[id].value)
  }

  /** The document is version 1 and carries every org key in order with the form's value. */
  lemma CollectSettingsOrg(fields: map<string, Field>)
    ensures var c := CollectSettings(fields);
      && c.version == 1
      && |c.org| == |OrgFields|
      && (forall i :: 0 <= i < |OrgFields| ==> c.org[i] == (OrgFields[i].0, GetVal(fields, OrgFields[i].1)))
  {
  }

  /** Blank or missing pricing fields take their defaults. */
  lemma CollectSettingsDefaults(fields: map<string, Field>)
    ensures var p := CollectSettings(fields).pricing;
      && (Blank(fields, LaborRateId) ==> p.laborRate == DefaultPricing.laborRate)
      && (forall k :: 0 <= k < 7 && Blank(fields, PercentFields[k].1) ==> Percent(p, k) == Percent(DefaultPricing, k))
  {
    var p := CollectSettings(fields).pricing;
    if Blank(fields, LaborRateId) {
      BlankReadsBlank(fields, LaborRateId);
      ToFloatMeaning(GetVal(fields, LaborRateId), 0.0);
    }
    forall k | 0 <= k < 7 && Blank(fields, PercentFields[k].1)
      ensures Percent(p, k) == Percent(DefaultPricing, k)
    {
      ReadPercentBlank(fields, k);
      PercentOfCollected(fields, k);
      DefaultPercent(k);
    }
  }

  /** A blank integer field reads as its default. */
  lemma ReadPercentBlank(fields: map<string, Field>, k: nat)
    requires k < 7 && Blank(fields, PercentFields[k].1)
    ensures ReadPercent(fields, k) == PercentFields[k].2
  {
    BlankReadsBlank(fields, PercentFields[k].1);
    ToIntMeaning(GetVal(fields, PercentFields[k].1), PercentFields[k].2);
  }

  /** The k-th integer field of the document is the k-th field read. */
  lemma PercentOfCollected(fields: map<string, Field>, k: nat)
    requires k < 7
    ensures Percent(CollectSettings(fields).pricing, k) == ReadPercent(fields, k)
  {
  }

  /** The default pricing agrees with the per-field defaults. */
  lemma DefaultPercent(k: nat)
    requires k < 7
    ensures Percent(DefaultPricing, k) == PercentFields[k].2
  {
  }

  /** A blank or missing field reads as blank text. */
  lemma BlankReadsBlank(fields: map<string, Field>, id: string)
    requires Blank(fields, id)
    ensures NoSpaceFree(GetVal(fields, id))
  {
    if id in fields && fields[id].kind.TextInput? {
      TrimEmpty(fields[id].value);
    }
  }

  /** An empty form collects to the default pricing. */
  lemma EmptyFormDefaults()
    ensures CollectSettings(map[]).pricing == DefaultPricing
  {
    CollectSettingsDefaults(map[]);
    var p := CollectSettings(map[]).pricing;
    assert Percent(p, 0) == 30 && Percent(p, 1) == 10 && Percent(p, 2) == 8 && Percent(p, 3) == 10;
    assert Percent(p, 4) == 5 && Percent(p, 5) == 3 && Percent(p, 6) == 10;
  }

  // ---------------------------------------------------------------------
  // Writing a stored document into the form
  // ---------------------------------------------------------------------

  /** A value of the stored document: missing (null or undefined), a number with its String() text, or a string. */
  datatype Value = Missing | Number(text: string) | Str(text: string)

  /** The stored document's org and pricing objects; an absent key is Missing. */
  datatype Stored = Stored(org: map<string, Value>, pricing: map<string, Value>)

  function Lookup(m: map<string, Value>, key: string): Value
  {
    if key in m then m[key] else Missing
  }

  /** `v ?? el.value`: None keeps the element's value. */
  function TextOf(v: Value): Option<string>
  {
    if v.Missing? then None else Some(v.text)
  }

  /** The setVal calls applyToForm makes, in order: element id and value. */
  function Writes(s: Stored): (ws: seq<(string, Option<string>)>)
    ensures |ws| == |AutosaveIds|
  {
    var labor := Lookup(s.pricing, "labor_rate");
    seq(|OrgFields|, i requires 0 <= i < |OrgFields| => (OrgFields[i].1, TextOf(Lookup(s.org, OrgFields[i].0))))
    + [(LaborRateId, if labor.Number? then Some(labor.text) else None)]
    + seq(|PercentFields|, k requires 0 <= k < |PercentFields| => (PercentFields[k].1, TextOf(Lookup(s.pricing, PercentFields[k].0))))
  }

  /** One setVal on the map of elements. */
  function SetField(fields: map<string, Field>, id: string, v: Option<string>): (r: map<string, Field>)
    ensures r.Keys == fields.Keys
  {
    if id in fields && v.Some? then fields[id := Field(fields[id].kind, v.value)] else fields
  }

  /** The setVal calls applied one after another. */
  function ApplyAll(fields: map<string, Field>, ws: seq<(string, Option<string>)>): (r: map<string, Field>)
    ensures r.Keys == fields.Keys
  {
    if ws == [] then fields
    else SetField(ApplyAll(fields, ws[..|ws| - 1]), ws[|ws| - 1].0, ws[|ws| - 1].1)
  }

  predicate DistinctIds(ws: seq<(string, Option<string>)>)
  {
    forall i, j :: 0 <= i < j < |ws| ==> ws[i].0 != ws[j].0
  }

  /**
   * Applying writes to distinct elements keeps the set of elements and their
   * kinds, puts each written value in its element, and leaves the rest alone.
   */
  lemma {:induction false} ApplyAllMeaning(fields: map<string, Field>, ws: seq<(string, Option<string>)>)
    requires DistinctIds(ws)
    ensures var r := ApplyAll(fields, ws);
      && r.Keys == fields.Keys
      && (forall id :: id in fields ==> r[id].kind == fields[id].kind)
      && (forall j :: 0 <= j < |ws| && ws[j].0 in fields ==>
            r[ws[j].0].value == (if ws[j].1.Some? then ws[j].1.value else fields[ws[j].0].value))
      && (forall id :: id in fields && (forall j :: 0 <= j < |ws| ==> ws[j].0 != id) ==> r[id] == fields[id])
  {
    if ws != [] {
      var init := ws[..|ws| - 1];
      var last := ws[|ws| - 1];
      assert DistinctIds(init);
      ApplyAllMeaning(fields, init);
      var p := ApplyAll(fields, init);
      var r := ApplyAll(fields, ws);
      assert r == SetField(p, last.0, last.1);
      forall j | 0 <= j < |ws| && ws[j].0 in fields
        ensures r[ws[j].0].value == (if ws[j].1.Some? then ws[j].1.value else fields[ws[j].0].value)
      {
        if j < |ws| - 1 {
          assert init[j] == ws[j];
          assert ws[j].0 != last.0;
        } else {
          forall i | 0 <= i < |init|
            ensures init[i].0 != last.0
          {
            assert init[i] == ws[i];
          }
        }
      }
      forall id | id in fields && (forall j :: 0 <= j < |ws| ==> ws[j].0 != id)
        ensures r[id] == fields[id]
      {
        forall i | 0 <= i < |init|
          ensures init[i].0 != id
        {
          assert init[i] == ws[i];
        }
      }
    }
  }

  /** applyToForm touches exactly the autosaved elements, each once. */
  lemma WritesCoverAutosave(s: Stored)
    ensures forall j :: 0 <= j < |AutosaveIds| ==> Writes(s)[j].0 == AutosaveIds[j]
    ensures DistinctIds(Writes(s))
  {
    var ws := Writes(s);
    assert forall j :: 0 <= j < |AutosaveIds| ==> ws[j].0 == AutosaveIds[j];
    AutosaveIdsDistinct();
  }

  /** No element is listed twice for autosave. */
  lemma AutosaveIdsDistinct()
    ensures forall i, j :: 0 <= i < j < |AutosaveIds| ==> AutosaveIds[i] != AutosaveIds[j]
  {
  }

  /** The form's elements, as the page holds them. */
  class SettingsForm {
    var fields: map<string, Field>

    constructor(initial: map<string, Field>)
      ensures fields == initial
    {
      fields := initial;
    }

    /** setVal: a missing element or a null value changes nothing. */
    method SetVal(id: string, v: Option<string>)
      modifies this
      ensures fields == SetField(old(fields), id, v)
      ensures v.None? || id !in old(fields) ==> fields == old(fields)
      ensures id in old(fields) && v.Some? ==> fields[id] == Field(old(fields)[id].kind, v.value)
    {
      if id in fields && v.Some? {
        fields := fields[id := Field(fields[id].kind, v.value)];
      }
    }

    /** applyToForm: the setVal calls of Writes, in order. */
    method ApplyToForm(s: Stored)
      modifies this
      ensures fields == ApplyAll(old(fields), Writes(s))
    {
      SetVals(Writes(s));
    }

    /** The given setVal calls, one after another. */
    method SetVals(ws: seq<(string, Option<string>)>)
      modifies this
      ensures fields == ApplyAll(old(fields), ws)
    {
      var i := 0;
      while i < |ws|
        invariant 0 <= i <= |ws|
        invariant fields == ApplyAll(old(fields), ws[..i])
      {
        assert ws[..i + 1][..i] == ws[..i];
        SetVal(ws[i].0, ws[i].1);
        i := i + 1;
      }
      assert ws[..i] == ws;
    }
  }

  /** The j-th write lands in its element, since no other write names it. */
  lemma AppliedAt(fields: map<string, Field>, s: Stored, j: nat)
    requires j < |AutosaveIds| && AutosaveIds[j] in fields
    ensures var w := Writes(s)[j];
      && w.0 == AutosaveIds[j]
      && ApplyAll(fields, Writes(s))[w.0].value == (if w.1.Some? then w.1.value else fields[w.0].value)
      && ApplyAll(fields, Writes(s))[w.0].kind == fields[w.0].kind
  {
    WritesCoverAutosave(s);
    ApplyAllMeaning(fields, Writes(s));
  }

  /** The write applyToForm makes for the labor rate. */
  lemma WriteOfLaborRate(s: Stored)
    ensures Writes(s)[|OrgFields|].1
         == (if Lookup(s.pricing, "labor_rate").Number? then Some(Lookup(s.pricing, "labor_rate").text) else None)
  {
  }

  /** The write applyToForm makes for the k-th integer pricing field. */
  lemma WriteOfPercent(s: Stored, k: nat)
    requires k < 7
    ensures Writes(s)[|OrgFields| + 1 + k].1 == TextOf(Lookup(s.pricing, PercentFields[k].0))
  {
  }

  /** The write applyToForm makes for the i-th org field. */
  lemma WriteOfOrg(s: Stored, i: nat)
    requires i < |OrgFields|
    ensures Writes(s)[i].1 == TextOf(Lookup(s.org, OrgFields[i].0))
  {
  }

  /** A labor rate that is not a number leaves its element as it was. */
  lemma LaborRateOnlyWhenNumeric(fields: map<string, Field>, s: Stored)
    requires !Lookup(s.pricing, "labor_rate").Number?
    requires LaborRateId in fields
    ensures ApplyAll(fields, Writes(s))[LaborRateId] == fields[LaborRateId]
  {
    AppliedAt(fields, s, |OrgFields|);
    WriteOfLaborRate(s);
  }

  /** A null or missing pricing value leaves its element as it was. */
  lemma MissingPercentKeeps(fields: map<string, Field>, s: Stored, k: nat)
    requires k < 7 && Lookup(s.pricing, PercentFields[k].0).Missing?
    requires PercentFields[k].1 in fields
    ensures ApplyAll(fields, Writes(s))[PercentFields[k].1] == fields[PercentFields[k].1]
  {
    assert AutosaveIds[|OrgFields| + 1 + k] == PercentFields[k].1;
    AppliedAt(fields, s, |OrgFields| + 1 + k);
    WriteOfPercent(s, k);
  }

  /** An element holding a number's decimal text reads back as that number. */
  lemma ReadPercentOfDigits(fields: map<string, Field>, k: nat, n: nat)
    requires k < 7 && PercentFields[k].1 in fields && fields[PercentFields[k].1].value == NatToString(n)
    ensures ReadPercent(fields, k) == n
  {
    var t := NatToString(n);
    DigitsTrimmed(t);
    assert GetVal(fields, PercentFields[k].1) == t;
    ToIntMeaning(t, PercentFields[k].2);
    NatToStringRoundTrip(n);
  }

  /**
   * A stored non-negative whole percentage survives the trip into the form
   * and back: collecting after applying reads the same number.
   */
  lemma PercentRoundTrip(fields: map<string, Field>, s: Stored, k: nat, n: nat)
    requires k < 7 && PercentFields[k].1 in fields
    requires Lookup(s.pricing, PercentFields[k].0) in {Number(NatToString(n)), Str(NatToString(n))}
    ensures Percent(CollectSettings(ApplyAll(fields, Writes(s))).pricing, k) == n
  {
    var r := ApplyAll(fields, Writes(s));
    assert AutosaveIds[|OrgFields| + 1 + k] == PercentFields[k].1;
    AppliedAt(fields, s, |OrgFields| + 1 + k);
    WriteOfPercent(s, k);
    ReadPercentOfDigits(r, k, n);
    PercentOfCollected(r, k);
  }

  /** A stored org text that needs no trimming survives the trip into the form and back. */
  lemma OrgRoundTrip(fields: map<string, Field>, s: Stored, i: nat, t: string)
    requires i < |OrgFields| && OrgFields[i].1 in fields
    requires Lookup(s.org, OrgFields[i].0) == Str(t) && Trimmed(t)
    ensures CollectSettings(ApplyAll(fields, Writes(s))).org[i] == (OrgFields[i].0, t)
  {
    var r := ApplyAll(fields, Writes(s));
    assert AutosaveIds[i] == OrgFields[i].1;
    AppliedAt(fields, s, i);
    WriteOfOrg(s, i);
    GetValMeaning(r, OrgFields[i].1);
    CollectSettingsOrg(r);
  }

  // ---------------------------------------------------------------------
  // Autosave
  // ---------------------------------------------------------------------

  /** The elements that get change and blur handlers: none without write permission. */
  function AutosaveBound(canWrite: bool, present: set<string>): (bound: seq<string>)
  {
    if !canWrite then [] else Present(AutosaveIds, present)
  }

  /** The listed ids whose element exists, in order. */
  function Present(ids: seq<string>, present: set<string>): seq<string>
  {
    if ids == [] then []
    else Present(ids[..|ids| - 1], present) + (if ids[|ids| - 1] in present then [ids[|ids| - 1]] else [])
  }

  lemma {:induction false} PresentMembers(ids: seq<string>, present: set<string>)
    ensures forall id :: id in Present(ids, present) <==> id in ids && id in present
  {
    if ids != [] {
      PresentMembers(ids[..|ids| - 1], present);
      assert ids == ids[..|ids| - 1] + [ids[|ids| - 1]];
    }
  }

  /** Without write permission nothing is bound; with it, every listed element present is. */
  lemma AutosaveBoundMeaning(canWrite: bool, present: set<string>)
    ensures !canWrite ==> AutosaveBound(canWrite, present) == []
    ensures canWrite ==> forall id :: id in AutosaveBound(canWrite, present) <==> id in AutosaveIds && id in present
  {
    PresentMembers(AutosaveIds, present);
  }
}
