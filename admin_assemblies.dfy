// The admin screens for assemblies (app/blueprints/admin/assemblies.py): the
// featured filter of the list, the is_featured checkbox, the add-component
// form (every error collected before anything is written) and the
// ownership check in front of component (de)activation. Each POST ends in a
// redirect; the model reports the flashed messages and where it redirects.
module AdminAssemblies {
  import opened Wrappers
  import opened Text
  import NumParse
  import opened Assemblies

  /** The list filter: "yes" keeps featured rows, "no" keeps the others, any
      other value (already stripped and lower-cased) keeps every row. */
  function FeaturedFilter(rows: seq<AssemblyRow>, featured: string): (r: seq<AssemblyRow>)
    ensures featured != "yes" && featured != "no" ==> r == rows
    ensures featured == "yes" || featured == "no" ==>
      && (forall i :: 0 <= i < |r| ==> r[i] in rows && r[i].isFeatured == (featured == "yes"))
      && (forall i :: 0 <= i < |rows| && rows[i].isFeatured == (featured == "yes") ==> rows[i] in r)
  {
    if featured == "yes" || featured == "no" then KeepFeatured(rows, featured == "yes") else rows
  }

  function KeepFeatured(rows: seq<AssemblyRow>, want: bool): (r: seq<AssemblyRow>)
    ensures |r| <= |rows|
    ensures forall i :: 0 <= i < |r| ==> r[i] in rows && r[i].isFeatured == want
    ensures forall i :: 0 <= i < |rows| && rows[i].isFeatured == want ==> rows[i] in r
  {
    if rows == [] then []
    else
      var rest := KeepFeatured(rows[..|rows| - 1], want);
      var a := rows[|rows| - 1];
      if a.isFeatured == want then rest + [a] else rest
  }

  /** "yes" and "no" split the list: every row lands in exactly one of them. */
  lemma {:induction false} FeaturedSplit(rows: seq<AssemblyRow>)
    ensures |FeaturedFilter(rows, "yes")| + |FeaturedFilter(rows, "no")| == |rows|
  {
    if rows != [] {
      FeaturedSplit(rows[..|rows| - 1]);
    }
  }

  /** The is_featured checkbox: checked when the form sends "on", "true" or "1". */
  function IsFeatured(v: Option<string>): (b: bool)
    ensures b <==> v.Some? && v.value in {"on", "true", "1"}
  {
    v.Some? && (v.value == "on" || v.value == "true" || v.value == "1")
  }

  /** The form errors add_component flashes, in the order it collects them. */
  datatype FormError = MaterialRequired | QtyNotPositive | QtyNotNumber | SortNotInteger

  function ErrorMessage(e: FormError): string
  {
    match e
    case MaterialRequired => "Material is required."
    case QtyNotPositive => "Quantity must be > 0."
    case QtyNotNumber => "Quantity must be a number > 0."
    case SortNotInteger => "Sort order must be an integer."
  }

  /** float() of the stripped quantity field; None when it raises. */
  function QtyOf(raw: Option<string>): Option<real>
  {
    NumParse.PyDecimal(Trim(raw.GetOr("")))
  }

  /** The stripped sort_order field: None when blank, else int() of it, which
      may fail (the inner None). */
  function SortOf(raw: Option<string>): Option<Option<int>>
  {
    var s := Trim(raw.GetOr(""));
    if s == [] then None else Some(NumParse.PyInt(s))
  }

  /** int((form.get("material_id") or "0").strip() or "0"), 0 on ValueError. */
  function MaterialIdOf(raw: Option<string>): int
  {
    var s := Trim(if raw.Some? && raw.value != "" then raw.value else "0");
    NumParse.PyInt(if s == "" then "0" else s).GetOr(0)
  }

  /** A missing or blank material id reads as 0. */
  lemma MaterialIdBlank(raw: Option<string>)
    requires raw.None? || NoSpaceFree(raw.value)
    ensures MaterialIdOf(raw) == 0
  {
    assert Trim("0") == "0";
    if raw.Some? && raw.value != "" {
      TrimEmpty(raw.value);
    }
    NumParse.ParseIntOfDigits("0");
  }

  /** The parsed form, when it has no errors. */
  datatype ComponentForm = ComponentForm(materialId: int, qty: real, sortOrder: Option<int>)

  /** The errors of the add-component form for the parsed fields, in the
      order they are collected: the material id, then the quantity (None when
      float() raises), then the sort order (None when blank, Some(None) when
      int() raises). */
  function FormErrors(materialId: int, qty: Option<real>, sort: Option<Option<int>>): seq<FormError>
  {
    (if materialId <= 0 then [MaterialRequired] else [])
    + (if qty.None? then [QtyNotNumber] else if qty.value <= 0.0 then [QtyNotPositive] else [])
    + (if sort == Some(None) then [SortNotInteger] else [])
  }

  /** Each message appears exactly when its own check fails (the quantity
      gets one of its two messages, never both), and the form is clean
      exactly when every field is acceptable. */
  lemma FormErrorsMeaning(materialId: int, qty: Option<real>, sort: Option<Option<int>>)
    ensures var errs := FormErrors(materialId, qty, sort);
      && (MaterialRequired in errs <==> materialId <= 0)
      && (QtyNotNumber in errs <==> qty.None?)
      && (QtyNotPositive in errs <==> qty.Some? && qty.value <= 0.0)
      && (SortNotInteger in errs <==> sort == Some(None))
      && |errs| <= 3
      && (errs == [] <==> materialId > 0 && qty.Some? && qty.value > 0.0 && sort != Some(None))
  {
  }

  /** The checks on the parsed fields, appending to errs step by step. */
  method CollectErrors(materialId: int, qty: Option<real>, sort: Option<Option<int>>)
    returns (errs: seq<FormError>, form: ComponentForm)
    ensures errs == FormErrors(materialId, qty, sort)
    ensures errs == [] ==> form == ComponentForm(materialId, qty.value, if sort.None? then None else sort.value)
  {
    errs := [];
    if materialId <= 0 {
      errs := errs + [MaterialRequired];
    }
    var q := 0.0;
    if qty.Some? {
      q := qty.value;
      if q <= 0.0 {
        errs := errs + [QtyNotPositive];
      }
    } else {
      errs := errs + [QtyNotNumber];
    }
    var sortOrder: Option<int> := None;
    if sort.Some? {
      if sort.value.Some? {
        sortOrder := sort.value;
      } else {
        errs := errs + [SortNotInteger];
      }
    }
    form := ComponentForm(materialId, q, sortOrder);
  }

  /** The three form fields as add_component parses them. */
  datatype ParsedForm = ParsedForm(materialId: int, qty: Option<real>, sort: Option<Option<int>>)

  function ParseForm(materialRaw: Option<string>, qtyRaw: Option<string>, sortRaw: Option<string>): (p: ParsedForm)
  {
    ParsedForm(MaterialIdOf(materialRaw), QtyOf(qtyRaw), SortOf(sortRaw))
  }

  /** Where a POST redirects, and the messages it flashes. */
  datatype Outcome = Outcome(flashes: seq<string>, target: Target)
  datatype Target = NewAssembly | EditAssembly(id: int)

  /** The add-component route: an unknown assembly goes back to the "new"
      page; form errors are all flashed and nothing is written; otherwise the
      service adds the component. */
  method AddComponentRoute(c: Catalog, assemblyId: int, p: ParsedForm)
    returns (out: Outcome)
    requires c.Valid()
    modifies c`components
    ensures c.Valid()
    ensures !(1 <= assemblyId <= |c.assemblies|) ==> out == Outcome(["Assembly not found."], NewAssembly) && c.components == old(c.components)
    ensures 1 <= assemblyId <= |c.assemblies| ==> out.target == EditAssembly(assemblyId)
    ensures 1 <= assemblyId <= |c.assemblies| && FormErrors(p.materialId, p.qty, p.sort) != [] ==>
      out.flashes == Messages(FormErrors(p.materialId, p.qty, p.sort)) && c.components == old(c.components)
    ensures c.components != old(c.components) ==> (NewLink(old(c.components), c.components, assemblyId)
      && c.components[|c.components| - 1] == ComponentRow(assemblyId, p.materialId, p.qty.value, if p.sort.None? then None else p.sort.value, true))
    ensures 1 <= assemblyId <= |c.assemblies| && FormErrors(p.materialId, p.qty, p.sort) == [] ==>
      if p.materialId !in c.materials then
        out.flashes == ["Material " + NumParse.IntToString(p.materialId) + " not found."] && c.components == old(c.components)
      else if LinkTaken(old(c.components), 0, assemblyId, p.materialId) then
        out.flashes == ["Component already exists on this assembly (active)."] && c.components == old(c.components)
      else
        out.flashes == ["Component added."]
        && c.components == old(c.components) + [ComponentRow(assemblyId, p.materialId, p.qty.value, if p.sort.None? then None else p.sort.value, true)]
  {
    if !(1 <= assemblyId <= |c.assemblies|) {
      return Outcome(["Assembly not found."], NewAssembly);
    }
    var errs, form := CollectErrors(p.materialId, p.qty, p.sort);
    FormErrorsMeaning(p.materialId, p.qty, p.sort);
    out := Submit(c, assemblyId, errs, form);
  }

  /** The components gained one active link of the assembly, to a real
      material, with a positive quantity. */
  ghost predicate NewLink(before: seq<ComponentRow>, after: seq<ComponentRow>, assemblyId: int)
  {
    |after| == |before| + 1 && after[..|before|] == before
    && after[|before|].assemblyId == assemblyId && after[|before|].materialId > 0
    && after[|before|].qty > 0.0 && after[|before|].isActive
  }

  /** The second half of the add-component route: flash the form errors, or
      hand the parsed form to the service. */
  method Submit(c: Catalog, assemblyId: int, errs: seq<FormError>, form: ComponentForm) returns (out: Outcome)
    requires c.Valid() && 1 <= assemblyId <= |c.assemblies|
    requires errs == [] ==> form.materialId > 0 && form.qty > 0.0
    modifies c`components
    ensures c.Valid()
    ensures out.target == EditAssembly(assemblyId)
    ensures errs != [] ==> out.flashes == Messages(errs) && c.components == old(c.components)
    ensures c.components == old(c.components) || c.components == old(c.components) + [ComponentRow(assemblyId, form.materialId, form.qty, form.sortOrder, true)]
    ensures c.components != old(c.components) ==> errs == [] && NewLink(old(c.components), c.components, assemblyId)
    ensures errs == [] && form.materialId !in c.materials ==>
      out.flashes == ["Material " + NumParse.IntToString(form.materialId) + " not found."] && c.components == old(c.components)
    ensures errs == [] && form.materialId in c.materials && LinkTaken(old(c.components), 0, assemblyId, form.materialId) ==>
      out.flashes == ["Component already exists on this assembly (active)."] && c.components == old(c.components)
    ensures errs == [] && form.materialId in c.materials && !LinkTaken(old(c.components), 0, assemblyId, form.materialId) ==>
      out.flashes == ["Component added."]
      && c.components == old(c.components) + [ComponentRow(assemblyId, form.materialId, form.qty, form.sortOrder, true)]
  {
    if errs != [] {
      return Outcome(Messages(errs), EditAssembly(assemblyId));
    }
    var r := c.AddComponent(assemblyId, form.materialId, form.qty, form.sortOrder);
    if r.Ok? {
      out := Outcome(["Component added."], EditAssembly(assemblyId));
    } else {
      out := Outcome([FailureMessage(r.error, true)], EditAssembly(assemblyId));
    }
  }

  /** One flashed message per form error, in order. */
  function Messages(errs: seq<FormError>): (ms: seq<string>)
    ensures |ms| == |errs|
    ensures forall i :: 0 <= i < |errs| ==> ms[i] == ErrorMessage(errs[i])
  {
    seq(|errs|, i requires 0 <= i < |errs| => ErrorMessage(errs[i]))
  }

  /** The text flashed for a service failure: str() of the ServiceError,
      which names the missing row's id, or the route's own message for a
      database error (the add route and the (de)activate routes word it
      differently). */
  function FailureMessage(f: Failure, adding: bool): (m: string)
    ensures f.MaterialNotFound? ==> m == "Material " + NumParse.IntToString(f.id) + " not found."
    ensures f.ComponentNotFound? ==> m == "Component " + NumParse.IntToString(f.id) + " not found."
    ensures f.AssemblyNotFound? ==> m == "Assembly " + NumParse.IntToString(f.id) + " not found"
    ensures f.Integrity? ==> m == if adding then "Database error adding component." else "Database error updating component."
  {
    match f
    case AssemblyNotFound(id) => "Assembly " + NumParse.IntToString(id) + " not found"
    case NameRequired => "Name is required."
    case NameBlank => "Name cannot be blank."
    case DuplicateName => "Duplicate active assembly name."
    case MaterialNotFound(id) => "Material " + NumParse.IntToString(id) + " not found."
    case ComponentExists => "Component already exists on this assembly (active)."
    case ComponentNotFound(id) => "Component " + NumParse.IntToString(id) + " not found."
    case Integrity => if adding then "Database error adding component." else "Database error updating component."
  }

  /** The material id is read back from the flashed message of a missing
      material. */
  lemma MaterialMessageNamesId(id: int)
    ensures var m := FailureMessage(MaterialNotFound(id), true);
      |m| > 20 && m[..9] == "Material " && m[|m| - 11..] == " not found."
      && NumParse.PyInt(m[9..|m| - 11]) == Some(id)
  {
    var t := NumParse.IntToString(id);
    var m := FailureMessage(MaterialNotFound(id), true);
    assert m == "Material " + t + " not found.";
    assert m[9..|m| - 11] == t;
  }

  /** The activate / deactivate routes: a component that does not exist or
      belongs to another assembly than the URL's is refused before the
      service is called. */
  method SetComponentActiveRoute(c: Catalog, assemblyId: int, componentId: int, active: bool) returns (out: Outcome)
    requires c.Valid()
    modifies c`components
    ensures c.Valid()
    ensures out.target == EditAssembly(assemblyId)
    ensures !(1 <= componentId <= |old(c.components)|) || old(c.components)[componentId - 1].assemblyId != assemblyId ==>
      out.flashes == ["Component not found."] && c.components == old(c.components)
    ensures c.components != old(c.components) ==>
      1 <= componentId <= |old(c.components)| && old(c.components)[componentId - 1].assemblyId == assemblyId
      && c.components == old(c.components)[componentId - 1 := old(c.components)[componentId - 1].(isActive := active)]
    ensures 1 <= componentId <= |old(c.components)| && old(c.components)[componentId - 1].assemblyId == assemblyId ==>
      if active && LinkTaken(old(c.components), componentId, assemblyId, old(c.components)[componentId - 1].materialId) then
        out.flashes == ["Database error updating component."] && c.components == old(c.components)
      else
        out.flashes == [if active then "Component reactivated." else "Component deactivated."]
        && c.components == old(c.components)[componentId - 1 := old(c.components)[componentId - 1].(isActive := active)]
  {
    if !(1 <= componentId <= |c.components|) || c.components[componentId - 1].assemblyId != assemblyId {
      return Outcome(["Component not found."], EditAssembly(assemblyId));
    }
    var r := c.SetComponentActive(componentId, active);
    if r.Ok? {
      out := Outcome([if active then "Component reactivated." else "Component deactivated."], EditAssembly(assemblyId));
    } else {
      out := Outcome([FailureMessage(r.error, false)], EditAssembly(assemblyId));
    }
  }
}
