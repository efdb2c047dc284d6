// The DJE (direct job expense) library page: the category and subcategory
// selects with their "+ New ..." modal, the add and edit forms' checks and
// payloads, and the label of the delete dialog.
module DjeIndex {
  import opened Wrappers
  import opened Text
  import opened NumParse
  import MaterialsIndex

  const NewSentinel: string := MaterialsIndex.NewSentinel

  // ---------------------------------------------------------------------
  // clamp2 and the numbers the forms send
  // ---------------------------------------------------------------------

  /**
   * clamp2 of an input's value: None stands for the empty text it returns
   * for a missing, empty or non-finite value, Some(x) for x.toFixed(2).
   */
  function Clamp2(v: Option<string>): Option<real>
  {
    if v.None? || v.value == "" then None else JsNumber(v.value)
  }

  /** What clamp2 gives for each kind of input. */
  lemma Clamp2Meaning(v: Option<string>)
    ensures (v.None? || v == Some("")) ==> Clamp2(v) == None
    ensures v.Some? && v.value != "" && NoSpaceFree(v.value) ==> Clamp2(v) == Some(0.0)
    ensures v.Some? && v.value != [] && AllDigits(v.value) ==> Clamp2(v) == Some(DigitsValue(v.value) as real)
    ensures v.Some? && !NoSpaceFree(v.value) ==> Clamp2(v) == Clamp2(Some(Trim(v.value)))
  {
    if v.Some? && v.value != [] && AllDigits(v.value) {
      JsNumberOfDigits(v.value);
    }
    if v.Some? && !NoSpaceFree(v.value) {
      JsNumberTrim(v.value);
      TrimEmpty(v.value);
    }
  }

  /** The cost check: the trimmed text is empty or not a finite number. */
  predicate CostInvalid(raw: string)
  {
    Trim(raw) == "" || JsNumber(Trim(raw)).None?
  }

  /**
   * A cost passes the check exactly when it is not blank and reads as a
   * number; a blank cost is refused although Number reads it as 0.
   */
  lemma CostInvalidMeaning(raw: string)
    ensures CostInvalid(raw) <==> NoSpaceFree(raw) || JsNumber(raw).None?
    ensures NoSpaceFree(raw) ==> CostInvalid(raw) && JsNumber(raw) == Some(0.0)
  {
    TrimEmpty(raw);
    JsNumberTrim(raw);
  }

  /** After the check, clamp2 of the raw text gives the number checked. */
  lemma CheckedCostClamps(raw: string)
    requires !CostInvalid(raw)
    ensures Clamp2(Some(raw)).Some?
    ensures Clamp2(Some(raw)) == JsNumber(Trim(raw))
  {
    JsNumberTrim(raw);
    assert raw != "" by {
      assert raw == "" ==> Trim(raw) == "";
    }
  }

  // ---------------------------------------------------------------------
  // Subcategory options filtered by category
  // ---------------------------------------------------------------------

  /** An option of the server-rendered subcategory select and its data-cat. */
  datatype SubOpt = SubOpt(v: string, cat: string)

  /** The options allSubOpts keeps: a real value and a category. */
  predicate Pooled(o: SubOpt)
  {
    o.v != "" && o.v != NewSentinel && o.cat != ""
  }

  /** allSubOpts: the rendered options in order, without the placeholders. */
  function SubPool(opts: seq<SubOpt>): seq<SubOpt>
  {
    if opts == [] then []
    else (if Pooled(opts[0]) then [opts[0]] else []) + SubPool(opts[1..])
  }

  lemma {:induction false} SubPoolMembers(opts: seq<SubOpt>)
    ensures forall o :: o in SubPool(opts) <==> o in opts && Pooled(o)
  {
    if opts != [] {
      SubPoolMembers(opts[1..]);
      assert opts == [opts[0]] + opts[1..];
    }
  }

  /** The option belongs to the category, compared ignoring case. */
  predicate SameCategory(o: SubOpt, cat: string)
  {
    Lower(o.cat) == Lower(cat)
  }

  /** The values populateSubOptions lists for a category, in pool order. */
  function Matching(pool: seq<SubOpt>, cat: string): seq<string>
  {
    if pool == [] then []
    else
      var last := pool[|pool| - 1];
      Matching(pool[..|pool| - 1], cat) + (if SameCategory(last, cat) then [last.v] else [])
  }

  /** Exactly the values of the category's options are listed. */
  lemma {:induction false} MatchingMembers(pool: seq<SubOpt>, cat: string)
    ensures forall v :: v in Matching(pool, cat) <==> exists o :: o in pool && SameCategory(o, cat) && o.v == v
  {
    if pool != [] {
      var init := pool[..|pool| - 1];
      MatchingMembers(init, cat);
      assert pool == init + [pool[|pool| - 1]];
    }
  }

  /** Adding an option lists it under its own category and nowhere else. */
  lemma AddedSubcategoryListed(pool: seq<SubOpt>, name: string, cat: string, other: string)
    ensures Matching(pool + [SubOpt(name, cat)], other)
         == Matching(pool, other) + (if Lower(cat) == Lower(other) then [name] else [])
  {
    assert (pool + [SubOpt(name, cat)])[..|pool|] == pool;
  }

  /** The duplicate test of addNewSubcategory, ignoring case. */
  predicate SubExists(pool: seq<SubOpt>, cat: string, name: string)
  {
    exists o :: o in pool && Lower(o.cat) == Lower(cat) && Lower(o.v) == Lower(name)
  }

  /** A subcategory once added is refused again, in any case. */
  lemma AddedSubcategoryRefusedAgain(pool: seq<SubOpt>, cat: string, name: string, cat2: string, name2: string)
    requires Lower(cat2) == Lower(cat) && Lower(name2) == Lower(name)
    ensures SubExists(pool + [SubOpt(name, cat)], cat2, name2)
  {
    assert SubOpt(name, cat) in pool + [SubOpt(name, cat)];
  }

  /** The same name stays free under every other category. */
  lemma SubcategoriesScoped(pool: seq<SubOpt>, cat: string, name: string, other: string, n: string)
    requires Lower(other) != Lower(cat)
    ensures SubExists(pool + [SubOpt(name, cat)], other, n) <==> SubExists(pool, other, n)
  {
    if SubExists(pool + [SubOpt(name, cat)], other, n) {
      var o :| o in pool + [SubOpt(name, cat)] && Lower(o.cat) == Lower(other) && Lower(o.v) == Lower(n);
      assert o in pool;
    }
  }

  // ---------------------------------------------------------------------
  // The two selects and the "+ New ..." modal
  // ---------------------------------------------------------------------

  /** newMode with newCatCtx: what the open modal adds. */
  datatype NewMode = CategoryMode | SubcategoryMode(cat: string)

  datatype ConfirmRefusal = NameRequired | CategoryTaken | SubcategoryTaken

  datatype ConfirmOutcome = Added(name: string) | Refused(why: ConfirmRefusal) | Ignored

  /** The category select, the subcategory select and the modal's mode. */
  class CatalogForm {
    var catOptions: seq<string>
    var catValue: string
    var pool: seq<SubOpt>
    var subOptions: seq<string>
    var subValue: string
    var subDisabled: bool
    var mode: Option<NewMode>

    /** The subcategory select starts with its placeholder and ends with the sentinel. */
    predicate Valid()
      reads this
    {
      |subOptions| >= 2 && subOptions[0] == "" && subOptions[|subOptions| - 1] == NewSentinel
    }

    /** Page load: allSubOpts is read, then resetSubSelect(true). */
    constructor(cats: seq<string>, cat: string, rendered: seq<SubOpt>)
      ensures catOptions == cats && catValue == cat && pool == SubPool(rendered)
      ensures subOptions == ["", NewSentinel] && subValue == "" && subDisabled
      ensures mode.None?
      ensures Valid()
    {
      catOptions := cats;
      catValue := cat;
      pool := SubPool(rendered);
      subOptions := ["", NewSentinel];
      subValue := "";
      subDisabled := true;
      mode := None;
    }

    /** resetSubSelect: only the two fixed options remain. */
    method ResetSubSelect(disable: bool)
      modifies this
      ensures subOptions == ["", NewSentinel] && subValue == "" && subDisabled == disable
      ensures catOptions == old(catOptions) && catValue == old(catValue)
      ensures pool == old(pool) && mode == old(mode)
      ensures Valid()
    {
      subOptions := ["", NewSentinel];
      subValue := "";
      subDisabled := disable;
    }

    /** populateSubOptions: the category's subcategories, before the sentinel. */
    method PopulateSubOptions(catVal: string)
      modifies this
      ensures subOptions == [""] + Matching(pool, catVal) + [NewSentinel]
      ensures subValue == "" && !subDisabled
      ensures catOptions == old(catOptions) && catValue == old(catValue)
      ensures pool == old(pool) && mode == old(mode)
      ensures Valid()
    {
      ResetSubSelect(false);
      var i := 0;
      while i < |pool|
        invariant 0 <= i <= |pool|
        invariant subOptions == [""] + Matching(pool[..i], catVal) + [NewSentinel]
        invariant subValue == "" && !subDisabled
        invariant catOptions == old(catOptions) && catValue == old(catValue)
        invariant pool == old(pool) && mode == old(mode)
      {
        var o := pool[i];
        assert pool[..i + 1][..i] == pool[..i];
        if Lower(o.cat) == Lower(catVal) {
          subOptions := MaterialsIndex.InsertAt(subOptions, |subOptions| - 1, o.v);
        }
        i := i + 1;
      }
      assert pool[..i] == pool;
    }

    /** addNewCategory: refused when the name exists, else inserted before the sentinel and selected. */
    method AddNewCategory(name: string) returns (ok: bool)
      modifies this
      ensures ok <==> !MaterialsIndex.CategoryExists(old(catOptions), name)
      ensures ok ==> catOptions == MaterialsIndex.InsertAt(old(catOptions), MaterialsIndex.InsertionPoint(old(catOptions)), name)
      ensures ok ==> catValue == name && subOptions == [""] + Matching(pool, name) + [NewSentinel]
      ensures ok ==> subValue == "" && !subDisabled
      ensures !ok ==> catOptions == old(catOptions) && catValue == old(catValue)
      ensures !ok ==> subOptions == old(subOptions) && subValue == old(subValue) && subDisabled == old(subDisabled)
      ensures pool == old(pool) && mode == old(mode)
      ensures old(Valid()) ==> Valid()
    {
      if MaterialsIndex.CategoryExists(catOptions, name) {
        return false;
      }
      catOptions := MaterialsIndex.InsertAt(catOptions, MaterialsIndex.InsertionPoint(catOptions), name);
      catValue := name;
      PopulateSubOptions(name);
      return true;
    }

    /** addNewSubcategory: refused when the category has it, else pooled, listed before the sentinel and selected. */
    method AddNewSubcategory(cat: string, name: string) returns (ok: bool)
      requires Valid()
      modifies this
      ensures ok <==> !SubExists(old(pool), cat, name)
      ensures ok ==> pool == old(pool) + [SubOpt(name, cat)]
      ensures ok ==> subOptions == MaterialsIndex.InsertAt(old(subOptions), |old(subOptions)| - 1, name) && subValue == name
      ensures !ok ==> pool == old(pool) && subOptions == old(subOptions) && subValue == old(subValue)
      ensures catOptions == old(catOptions) && catValue == old(catValue)
      ensures subDisabled == old(subDisabled) && mode == old(mode)
      ensures Valid()
    {
      if exists o :: o in pool && Lower(o.cat) == Lower(cat) && Lower(o.v) == Lower(name) {
        return false;
      }
      pool := pool + [SubOpt(name, cat)];
      subOptions := MaterialsIndex.InsertAt(subOptions, |subOptions| - 1, name);
      subValue := name;
      return true;
    }

    /** The modal's confirm button: a trimmed, non-empty name is added under the open mode. */
    method OnConfirm(input: string) returns (out: ConfirmOutcome)
      requires Valid()
      modifies this
      ensures out == Refused(NameRequired) <==> NoSpaceFree(input)
      ensures out.Added? ==> out.name == Trim(input) && old(mode).Some?
      ensures old(mode) == Some(CategoryMode) && !NoSpaceFree(input) ==>
        (out.Added? <==> !MaterialsIndex.CategoryExists(old(catOptions), Trim(input)))
      ensures old(mode) == Some(CategoryMode) && out.Added? ==>
        catOptions == MaterialsIndex.InsertAt(old(catOptions), MaterialsIndex.InsertionPoint(old(catOptions)), out.name)
        && catValue == out.name && subOptions == [""] + Matching(pool, out.name) + [NewSentinel]
      ensures old(mode).Some? && old(mode).value.SubcategoryMode? && !NoSpaceFree(input) ==>
        (out.Added? <==> !SubExists(old(pool), old(mode).value.cat, Trim(input)))
      ensures old(mode).Some? && old(mode).value.SubcategoryMode? && out.Added? ==>
        pool == old(pool) + [SubOpt(out.name, old(mode).value.cat)] && subValue == out.name
      ensures old(mode).None? && !NoSpaceFree(input) ==> out == Ignored
      ensures !out.Added? ==>
        && catOptions == old(catOptions) && catValue == old(catValue)
        && pool == old(pool) && subOptions == old(subOptions) && subValue == old(subValue)
      ensures subDisabled == old(subDisabled) || out.Added?
      ensures mode == old(mode)
      ensures Valid()
    {
      TrimEmpty(input);
      var name := Trim(input);
      if name == "" {
        return Refused(NameRequired);
      }
      match mode
      case None =>
        out := Ignored;
      case Some(CategoryMode) =>
        var ok := AddNewCategory(name);
        out := if ok then Added(name) else Refused(CategoryTaken);
      case Some(SubcategoryMode(cat)) =>
        var ok := AddNewSubcategory(cat, name);
        out := if ok then Added(name) else Refused(SubcategoryTaken);
    }

    /** onCategoryChanged: clear, open the category modal, or list the category's subcategories. */
    method OnCategoryChanged(v: string)
      modifies this
      ensures catValue == v && catOptions == old(catOptions) && pool == old(pool)
      ensures v == "" ==> subOptions == ["", NewSentinel] && subValue == "" && subDisabled && mode == old(mode)
      ensures v == NewSentinel ==>
        && mode == Some(CategoryMode)
        && subOptions == old(subOptions) && subValue == old(subValue) && subDisabled == old(subDisabled)
      ensures v != "" && v != NewSentinel ==>
        && subOptions == [""] + Matching(pool, v) + [NewSentinel]
        && subValue == "" && !subDisabled && mode == old(mode)
      ensures old(Valid()) ==> Valid()
    {
      catValue := v;
      if v == "" {
        ResetSubSelect(true);
      } else if v == NewSentinel {
        mode := Some(CategoryMode);
      } else {
        PopulateSubOptions(v);
      }
    }

    /** onSubcategoryChanged: the sentinel opens the modal for the chosen category, or is undone when none is chosen. */
    method OnSubcategoryChanged(v: string)
      modifies this
      ensures subValue == (if v == NewSentinel && catValue == "" then "" else v)
      ensures mode == (if v == NewSentinel && catValue != "" then Some(SubcategoryMode(catValue)) else old(mode))
      ensures catOptions == old(catOptions) && catValue == old(catValue) && pool == old(pool)
      ensures subOptions == old(subOptions) && subDisabled == old(subDisabled)
    {
      subValue := v;
      if v != NewSentinel {
        return;
      }
      if catValue == "" {
        subValue := "";
        return;
      }
      mode := Some(SubcategoryMode(catValue));
    }

    /** The modal's hidden handler: a choice of the sentinel left behind is undone. */
    method OnModalHidden()
      modifies this
      ensures mode.None?
      ensures old(mode) == Some(CategoryMode) && old(catValue) == NewSentinel ==>
        catValue == "" && subOptions == ["", NewSentinel] && subValue == "" && subDisabled
      ensures !(old(mode) == Some(CategoryMode) && old(catValue) == NewSentinel) ==>
        catValue == old(catValue) && subOptions == old(subOptions) && subDisabled == old(subDisabled)
        && subValue == (if old(mode).Some? && old(mode).value.SubcategoryMode? && old(subValue) == NewSentinel then "" else old(subValue))
      ensures catOptions == old(catOptions) && pool == old(pool)
      ensures old(Valid()) ==> Valid()
    {
      var m := mode;
      if m == Some(CategoryMode) && catValue == NewSentinel {
        catValue := "";
        ResetSubSelect(true);
      }
      if m.Some? && m.value.SubcategoryMode? && subValue == NewSentinel {
        subValue := "";
      }
      mode := None;
    }

    /** The reset button's effect on the two selects. */
    method OnReset()
      modifies this
      ensures catValue == "" && subOptions == ["", NewSentinel] && subValue == "" && subDisabled
      ensures catOptions == old(catOptions) && pool == old(pool) && mode == old(mode)
      ensures Valid()
    {
      catValue := "";
      ResetSubSelect(true);
    }
  }

  // ---------------------------------------------------------------------
  // The add form and the edit modal
  // ---------------------------------------------------------------------

  datatype ItemError = CategoryRequired | SubcategoryRequired | DescriptionRequired | UnitCostInvalid

  /** The add form's values; isActive is None when the checkbox is missing. */
  datatype ItemForm = ItemForm(
    category: string, subcategory: string, description: string,
    unitCost: string, costCode: string, isActive: Option<bool>)

  /** The checks both forms make, in order. */
  function EditErrors(description: string, unitCost: string): seq<ItemError>
  {
    (if Trim(description) == "" then [DescriptionRequired] else [])
    + (if CostInvalid(unitCost) then [UnitCostInvalid] else [])
  }

  /** createItem's checks, in order. */
  function CreateErrors(f: ItemForm): seq<ItemError>
  {
    (if f.category == "" then [CategoryRequired] else [])
    + (if f.subcategory == "" then [SubcategoryRequired] else [])
    + EditErrors(f.description, f.unitCost)
  }

  function Rank(e: ItemError): nat
  {
    match e
    case CategoryRequired => 0
    case SubcategoryRequired => 1
    case DescriptionRequired => 2
    case UnitCostInvalid => 3
  }

  /** The errors of the four checks whose flags are set, in the form's order. */
  function Flagged(a: bool, b: bool, c: bool, d: bool): seq<ItemError>
  {
    (if a then [CategoryRequired] else []) + (if b then [SubcategoryRequired] else [])
    + ((if c then [DescriptionRequired] else []) + (if d then [UnitCostInvalid] else []))
  }

  /** Each error is listed exactly when its flag is set. */
  lemma FlaggedMembers(a: bool, b: bool, c: bool, d: bool)
    ensures CategoryRequired in Flagged(a, b, c, d) <==> a
    ensures SubcategoryRequired in Flagged(a, b, c, d) <==> b
    ensures DescriptionRequired in Flagged(a, b, c, d) <==> c
    ensures UnitCostInvalid in Flagged(a, b, c, d) <==> d
  {
  }

  /** The errors are listed in strictly increasing rank. */
  lemma FlaggedRanked(a: bool, b: bool, c: bool, d: bool)
    ensures var l := Flagged(a, b, c, d);
      forall i, j :: 0 <= i < j < |l| ==> Rank(l[i]) < Rank(l[j])
  {
    var l := Flagged(a, b, c, d);
    forall i, j | 0 <= i < j < |l|
      ensures Rank(l[i]) < Rank(l[j])
    {
      assert Rank(l[i]) + (|l| - i) <= 4 && Rank(l[j]) + (|l| - j) <= 4;
    }
  }

  /** Which errors are reported: each exactly when its field fails. */
  lemma CreateErrorsMeaning(f: ItemForm)
    ensures CategoryRequired in CreateErrors(f) <==> f.category == ""
    ensures SubcategoryRequired in CreateErrors(f) <==> f.subcategory == ""
    ensures DescriptionRequired in CreateErrors(f) <==> NoSpaceFree(f.description)
    ensures UnitCostInvalid in CreateErrors(f) <==> NoSpaceFree(f.unitCost) || JsNumber(f.unitCost).None?
  {
    FlaggedMembers(f.category == "", f.subcategory == "", Trim(f.description) == "", CostInvalid(f.unitCost));
    TrimEmpty(f.description);
    CostInvalidMeaning(f.unitCost);
  }

  /** A form passes exactly when every field passes. */
  lemma CreateErrorsNone(f: ItemForm)
    ensures CreateErrors(f) == [] <==>
      f.category != "" && f.subcategory != "" && !NoSpaceFree(f.description) && !CostInvalid(f.unitCost)
  {
    TrimEmpty(f.description);
  }

  /** The errors are listed once each, in the form's order, the edit checks last. */
  lemma CreateErrorsOrdered(f: ItemForm)
    ensures forall i, j :: 0 <= i < j < |CreateErrors(f)| ==> Rank(CreateErrors(f)[i]) < Rank(CreateErrors(f)[j])
    ensures EditErrors(f.description, f.unitCost) == CreateErrors(f)[|CreateErrors(f)| - |EditErrors(f.description, f.unitCost)|..]
  {
    FlaggedRanked(f.category == "", f.subcategory == "", Trim(f.description) == "", CostInvalid(f.unitCost));
  }

  /** createItem's checks pushed one by one. */
  method CollectCreateErrors(f: ItemForm) returns (errs: seq<ItemError>)
    ensures errs == CreateErrors(f)
  {
    var description := Trim(f.description);
    var costStr := Trim(f.unitCost);
    errs := [];
    if f.category == "" {
      errs := errs + [CategoryRequired];
    }
    if f.subcategory == "" {
      errs := errs + [SubcategoryRequired];
    }
    var head := errs;
    if description == "" {
      errs := errs + [DescriptionRequired];
    }
    if costStr == "" || JsNumber(costStr).None? {
      errs := errs + [UnitCostInvalid];
    }
    assert errs == head + EditErrors(f.description, f.unitCost);
  }

  /** The JSON the add form posts; cost is the number before toFixed(2) rounding. */
  datatype CreatePayload = CreatePayload(
    category: string, subcategory: string, description: string,
    cost: real, costCode: string, isActive: bool)

  /** createItem: the errors, or the payload to post. */
  function CreateItem(f: ItemForm): Result<CreatePayload, seq<ItemError>>
  {
    var errs := CreateErrors(f);
    if errs != [] then Err(errs)
    else
      CheckedCostClamps(f.unitCost);
      Ok(CreatePayload(f.category, f.subcategory, Trim(f.description), Clamp2(Some(f.unitCost)).value,
                       Trim(f.costCode), f.isActive.GetOr(true)))
  }

  /** A form is posted exactly when it passes the checks, with the checked number and trimmed texts. */
  lemma CreateItemMeaning(f: ItemForm)
    ensures CreateItem(f).Err? <==> CreateErrors(f) != []
    ensures CreateItem(f).Err? ==> CreateItem(f).error == CreateErrors(f)
    ensures CreateItem(f).Ok? ==>
      var p := CreateItem(f).value;
      && p.category == f.category && p.category != ""
      && p.subcategory == f.subcategory && p.subcategory != ""
      && p.description == Trim(f.description) && p.description != "" && Trimmed(p.description)
      && Some(p.cost) == JsNumber(f.unitCost)
      && p.costCode == Trim(f.costCode)
      && (f.isActive.None? ==> p.isActive)
  {
    CreateErrorsNone(f);
    if CreateErrors(f) == [] {
      CheckedCostClamps(f.unitCost);
      JsNumberTrim(f.unitCost);
      TrimTrimmed(f.description);
    }
  }

  /** The JSON the edit modal puts. */
  datatype EditPayload = EditPayload(description: string, cost: real, costCode: string, isActive: bool)

  datatype EditOutcome = NoItem | Rejected(errors: seq<ItemError>) | Put(id: string, payload: EditPayload)

  /** saveEdit: nothing without an id, the errors, or the payload to put. */
  function SaveEdit(id: Option<string>, description: string, unitCost: string, costCode: string, isActive: Option<bool>): EditOutcome
  {
    if id.None? || id.value == "" then NoItem
    else
      var errs := EditErrors(description, unitCost);
      if errs != [] then Rejected(errs)
      else
        CheckedCostClamps(unitCost);
        Put(id.value, EditPayload(Trim(description), Clamp2(Some(unitCost)).value, Trim(costCode), isActive.GetOr(false)))
  }

  /** An edit is put exactly when there is an item and its fields pass; a missing checkbox means inactive. */
  lemma SaveEditMeaning(id: Option<string>, description: string, unitCost: string, costCode: string, isActive: Option<bool>)
    ensures var r := SaveEdit(id, description, unitCost, costCode, isActive);
      && (r.NoItem? <==> id.None? || id.value == "")
      && (r.Rejected? ==> r.errors == EditErrors(description, unitCost) && r.errors != [])
      && (r.Put? <==> id.Some? && id.value != "" && !NoSpaceFree(description) && !CostInvalid(unitCost))
      && (r.Put? ==>
            && r.id == id.value && r.payload.description == Trim(description)
            && Some(r.payload.cost) == JsNumber(unitCost) && r.payload.costCode == Trim(costCode)
            && (isActive.None? ==> !r.payload.isActive))
  {
    TrimEmpty(description);
    if !CostInvalid(unitCost) {
      CheckedCostClamps(unitCost);
      JsNumberTrim(unitCost);
    }
  }

  // ---------------------------------------------------------------------
  // The delete dialog
  // ---------------------------------------------------------------------

  /** [cat, sub].filter(Boolean).join(' / ') */
  function JoinParts(cat: string, sub: string): string
  {
    if cat == "" then sub
    else if sub == "" then cat
    else cat + " / " + sub
  }

  /** openDelete's name: the description, else the category path, else "this item". */
  function DeleteLabel(desc: string, cat: string, sub: string): string
  {
    var d := Trim(desc);
    if d != "" then d
    else
      var path := JoinParts(Trim(cat), Trim(sub));
      if path != "" then path else "this item"
  }

  /** The label is never empty and each source of it is used in turn. */
  lemma DeleteLabelMeaning(desc: string, cat: string, sub: string)
    ensures DeleteLabel(desc, cat, sub) != ""
    ensures !NoSpaceFree(desc) ==> DeleteLabel(desc, cat, sub) == Trim(desc)
    ensures NoSpaceFree(desc) && !NoSpaceFree(cat) && !NoSpaceFree(sub) ==>
      DeleteLabel(desc, cat, sub) == Trim(cat) + " / " + Trim(sub)
    ensures NoSpaceFree(desc) && NoSpaceFree(cat) && !NoSpaceFree(sub) ==> DeleteLabel(desc, cat, sub) == Trim(sub)
    ensures NoSpaceFree(desc) && !NoSpaceFree(cat) && NoSpaceFree(sub) ==> DeleteLabel(desc, cat, sub) == Trim(cat)
    ensures NoSpaceFree(desc) && NoSpaceFree(cat) && NoSpaceFree(sub) ==> DeleteLabel(desc, cat, sub) == "this item"
  {
    TrimEmpty(desc);
    TrimEmpty(cat);
    TrimEmpty(sub);
  }
}
