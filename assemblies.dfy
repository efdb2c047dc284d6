// The assembly service (app/services/assemblies.py): the lenient number
// helpers, the live cost roll-up of an assembly's components, and the
// create / update / activate / add-component operations on the catalog.
//
// The database session is a Catalog object whose assembly and component rows
// the operations update; an operation that raises ServiceError (or whose flush
// fails on a unique index and is rolled back) leaves every row as it was.
// Python values read from columns or forms are Json values (a Decimal is a
// JFloat); Decimal arithmetic is exact and is modelled on real.
module Assemblies {
  import opened Wrappers
  import opened Text
  import opened Json
  import NumParse

  /** _to_int_or_default: int(value or 0), kept when positive; the default
      when it is not positive or int() raises. */
  function ToIntOrDefault(value: Json, default: int): (r: int)
    ensures r == default || r > 0
  {
    var v: Option<int> :=
      if !Truthy(value) then Some(0)
      else match value
        case JInt(i) => Some(i)
        case JFloat(x) => Some(NumParse.Trunc(x))
        case JBool(b) => Some(if b then 1 else 0)
        case JStr(s) => NumParse.PyInt(s)
        case _ => None;
    if v.Some? && v.value > 0 then v.value else default
  }

  /** Positive integers pass through; zero, negatives, None, text that is not
      an integer and non-numbers fall back to the default; so with the
      default 1 the divisor is always at least 1. */
  lemma ToIntOrDefaultMeaning(value: Json, default: int)
    ensures value.JInt? ==> ToIntOrDefault(value, default) == if value.i > 0 then value.i else default
    ensures value.JNull? || value.JArr? || value.JObj? ==> ToIntOrDefault(value, default) == default
    ensures value.JStr? && NumParse.PyInt(value.s).None? ==> ToIntOrDefault(value, default) == default
    ensures default >= 1 ==> ToIntOrDefault(value, default) >= 1
  {
  }

  /** _to_decimal: Decimal(str(value or "0")); zero when the conversion raises. */
  function ToDecimal(value: Json): (d: real)
  {
    if !Truthy(value) then 0.0
    else match value
      case JInt(i) => i as real
      case JFloat(x) => x
      case JStr(s) => NumParse.PyDecimal(s).GetOr(0.0)
      case _ => 0.0
  }

  /** None, unparsable text, True (whose str() is "True") and containers all
      read as zero; numbers read as themselves. */
  lemma ToDecimalMeaning(value: Json)
    ensures value.JNull? || value.JBool? || value.JArr? || value.JObj? ==> ToDecimal(value) == 0.0
    ensures value.JStr? && NumParse.PyDecimal(value.s).None? ==> ToDecimal(value) == 0.0
    ensures value.JInt? ==> ToDecimal(value) == value.i as real
    ensures value.JFloat? ==> ToDecimal(value) == value.r
  {
  }

  datatype AssemblyRow = AssemblyRow(
    name: string,
    notes: Option<string>,
    assemblyCode: Option<string>,
    category: Option<string>,
    subcategory: Option<string>,
    isFeatured: bool,
    isActive: bool)

  datatype ComponentRow = ComponentRow(
    assemblyId: int,
    materialId: int,
    qty: real,
    sortOrder: Option<int>,
    isActive: bool)

  /** The material columns the roll-up reads. */
  datatype MaterialRow = MaterialRow(price: Option<real>, laborUnit: Option<real>, unitQuantitySize: int)

  /** One row of the roll-up query: qty_per_assembly, price, labor_unit and
      unit_quantity_size as Python hands them to the loop. */
  datatype RollupRow = RollupRow(qty: Json, price: Json, laborUnit: Json, unitQty: Json)

  function Column(v: Option<real>): Json
  {
    if v.Some? then JFloat(v.value) else JNull
  }

  function RowOf(c: ComponentRow, m: MaterialRow): RollupRow
  {
    RollupRow(JFloat(c.qty), Column(m.price), Column(m.laborUnit), JInt(m.unitQuantitySize))
  }

  /** The components the roll-up query selects. */
  predicate Selected(c: ComponentRow, materials: map<int, MaterialRow>, assemblyId: int)
  {
    c.assemblyId == assemblyId && c.isActive && c.materialId in materials
  }

  /** The roll-up query: active components of the assembly joined with their
      materials (whether or not the material itself is active). */
  function RollupRows(components: seq<ComponentRow>, materials: map<int, MaterialRow>, assemblyId: int): (rows: seq<RollupRow>)
    ensures |rows| <= |components|
  {
    if components == [] then []
    else
      var c := components[|components| - 1];
      var rest := RollupRows(components[..|components| - 1], materials, assemblyId);
      if Selected(c, materials, assemblyId) then rest + [RowOf(c, materials[c.materialId])] else rest
  }

  /** The per-unit divisor of a row. */
  function Divisor(row: RollupRow): (u: real)
    ensures u >= 1.0
  {
    ToIntOrDefault(row.unitQty, 1) as real
  }

  /** qty times a per-unit share of an amount. */
  function Share(q: real, x: real, u: real): real
    requires u >= 1.0
  {
    q * (x / u)
  }

  /** qty * price_each for one row. */
  function MaterialTerm(row: RollupRow): real
  {
    Share(ToDecimal(row.qty), ToDecimal(row.price), Divisor(row))
  }

  /** qty * labor_each for one row. */
  function LaborTerm(row: RollupRow): real
  {
    Share(ToDecimal(row.qty), ToDecimal(row.laborUnit), Divisor(row))
  }

  function MaterialSum(rows: seq<RollupRow>): real
  {
    if rows == [] then 0.0 else MaterialSum(rows[..|rows| - 1]) + MaterialTerm(rows[|rows| - 1])
  }

  function LaborSum(rows: seq<RollupRow>): real
  {
    if rows == [] then 0.0 else LaborSum(rows[..|rows| - 1]) + LaborTerm(rows[|rows| - 1])
  }

  /** The dict get_assembly_rollup returns. */
  datatype Rollup = Rollup(assemblyId: int, materialCostTotal: real, laborHoursTotal: real, componentCount: nat)

  /** The roll-up of a set of rows: both sums quantised half-up to 4 places,
      and the number of rows. */
  function RollupOf(assemblyId: int, rows: seq<RollupRow>): Rollup
  {
    Rollup(assemblyId, NumParse.QuantizeHalfUp(MaterialSum(rows), 4), NumParse.QuantizeHalfUp(LaborSum(rows), 4), |rows|)
  }

  /** The sums split over a concatenation, so the order in which the query
      returns rows does not matter to the totals' parts. */
  lemma {:induction false} SumsAppend(a: seq<RollupRow>, b: seq<RollupRow>)
    ensures MaterialSum(a + b) == MaterialSum(a) + MaterialSum(b)
    ensures LaborSum(a + b) == LaborSum(a) + LaborSum(b)
  {
    if b == [] {
      assert a + b == a;
    } else {
      assert (a + b)[..|a + b| - 1] == a + b[..|b| - 1];
      SumsAppend(a, b[..|b| - 1]);
    }
  }

  /** An assembly without selected components rolls up to zero. */
  lemma RollupOfNothing(assemblyId: int)
    ensures RollupOf(assemblyId, []) == Rollup(assemblyId, 0.0, 0.0, 0)
  {
  }

  /** The roll-up counts every row it sums, and each total is within half of
      0.0001 of the exact sum. */
  lemma RollupMeaning(assemblyId: int, rows: seq<RollupRow>)
    ensures var r := RollupOf(assemblyId, rows);
      && r.assemblyId == assemblyId && r.componentCount == |rows|
      && -0.00005 <= r.materialCostTotal - MaterialSum(rows) <= 0.00005
      && -0.00005 <= r.laborHoursTotal - LaborSum(rows) <= 0.00005
  {
    NumParse.QuantizeClose4(MaterialSum(rows));
    NumParse.QuantizeClose4(LaborSum(rows));
  }

  predicate NonNegativeRow(row: RollupRow)
  {
    ToDecimal(row.qty) >= 0.0 && ToDecimal(row.price) >= 0.0 && ToDecimal(row.laborUnit) >= 0.0
  }

  predicate NonNegativeRows(rows: seq<RollupRow>)
  {
    forall i :: 0 <= i < |rows| ==> NonNegativeRow(rows[i])
  }

  /** Non-negative quantities, prices and labor units give non-negative totals. */
  lemma {:induction false} SumsNonNegative(rows: seq<RollupRow>)
    requires NonNegativeRows(rows)
    ensures MaterialSum(rows) >= 0.0 && LaborSum(rows) >= 0.0
  {
    if rows != [] {
      var init := rows[..|rows| - 1];
      assert NonNegativeRows(init) by {
        forall i | 0 <= i < |init| ensures init[i] == rows[i] { }
      }
      SumsNonNegative(init);
      TermsNonNegative(rows[|rows| - 1]);
    }
  }

  lemma TermsNonNegative(r: RollupRow)
    requires NonNegativeRow(r)
    ensures MaterialTerm(r) >= 0.0 && LaborTerm(r) >= 0.0
  {
    ShareNonNegative(ToDecimal(r.qty), ToDecimal(r.price), Divisor(r));
    ShareNonNegative(ToDecimal(r.qty), ToDecimal(r.laborUnit), Divisor(r));
  }

  lemma ShareNonNegative(q: real, x: real, u: real)
    requires q >= 0.0 && x >= 0.0 && u >= 1.0
    ensures Share(q, x, u) >= 0.0
  {
  }

  lemma RollupNonNegative(assemblyId: int, rows: seq<RollupRow>)
    requires NonNegativeRows(rows)
    ensures RollupOf(assemblyId, rows).materialCostTotal >= 0.0
    ensures RollupOf(assemblyId, rows).laborHoursTotal >= 0.0
  {
    SumsNonNegative(rows);
    NumParse.QuantizeHalfUpBounds(MaterialSum(rows), 4);
    NumParse.QuantizeHalfUpBounds(LaborSum(rows), 4);
  }

  /** Adding a component that the query does not select (inactive, or on
      another assembly) leaves the roll-up as it was; adding a selected one
      adds exactly its own terms and one to the count. */
  lemma RollupAddComponent(components: seq<ComponentRow>, materials: map<int, MaterialRow>, assemblyId: int, c: ComponentRow)
    ensures !Selected(c, materials, assemblyId) ==>
      RollupRows(components + [c], materials, assemblyId) == RollupRows(components, materials, assemblyId)
    ensures Selected(c, materials, assemblyId) ==>
      RollupRows(components + [c], materials, assemblyId)
        == RollupRows(components, materials, assemblyId) + [RowOf(c, materials[c.materialId])]
    ensures Selected(c, materials, assemblyId) ==>
      |RollupRows(components + [c], materials, assemblyId)| == |RollupRows(components, materials, assemblyId)| + 1
    ensures Selected(c, materials, assemblyId) ==>
      MaterialSum(RollupRows(components + [c], materials, assemblyId))
        == MaterialSum(RollupRows(components, materials, assemblyId)) + MaterialTerm(RowOf(c, materials[c.materialId]))
    ensures Selected(c, materials, assemblyId) ==>
      LaborSum(RollupRows(components + [c], materials, assemblyId))
        == LaborSum(RollupRows(components, materials, assemblyId)) + LaborTerm(RowOf(c, materials[c.materialId]))
  {
    assert (components + [c])[..|components|] == components;
    if Selected(c, materials, assemblyId) {
      SumsAppendOne(RollupRows(components, materials, assemblyId), RowOf(c, materials[c.materialId]));
    }
  }

  lemma SumsAppendOne(rows: seq<RollupRow>, r: RollupRow)
    ensures MaterialSum(rows + [r]) == MaterialSum(rows) + MaterialTerm(r)
    ensures LaborSum(rows + [r]) == LaborSum(rows) + LaborTerm(r)
  {
    assert (rows + [r])[..|rows|] == rows;
  }

  /** The terms of a component's row, in the columns' own values (a NULL
      price or labor unit counts as zero). */
  lemma RowTerms(c: ComponentRow, m: MaterialRow)
    ensures MaterialTerm(RowOf(c, m)) == c.qty * (m.price.GetOr(0.0) / Divisor(RowOf(c, m)))
    ensures LaborTerm(RowOf(c, m)) == c.qty * (m.laborUnit.GetOr(0.0) / Divisor(RowOf(c, m)))
  {
  }

  datatype Failure =
    | AssemblyNotFound(id: int)    // "Assembly {id} not found"
    | NameRequired                 // "Name is required."
    | NameBlank                    // "Name cannot be blank."
    | DuplicateName                // "Duplicate active assembly name."
    | MaterialNotFound(id: int)    // "Material {id} not found."
    | ComponentExists              // "Component already exists on this assembly (active)."
    | ComponentNotFound(id: int)   // "Component {id} not found."
    | Integrity                    // a unique index refused a flush the code does not catch

  /** `value or None` for optional text. */
  function OrNone(s: Option<string>): (r: Option<string>)
    ensures r.None? <==> s.None? || s.value == ""
    ensures r.Some? ==> r == s
  {
    if s.None? || s.value == "" then None else s
  }

  /** Another active assembly (not the one with id `self`) has this name,
      ignoring letter case: the partial unique index on lower(name). */
  predicate NameTaken(assemblies: seq<AssemblyRow>, self: int, name: string)
  {
    exists j :: 0 <= j < |assemblies| && j + 1 != self && assemblies[j].isActive && Lower(assemblies[j].name) == Lower(name)
  }

  /** The partial unique index on lower(name) over active assemblies. */
  predicate DistinctActiveNames(s: seq<AssemblyRow>)
  {
    forall i, j :: 0 <= i < j < |s| && s[i].isActive && s[j].isActive ==> Lower(s[i].name) != Lower(s[j].name)
  }

  /** Replacing row `id` by one whose name no other active row holds (or an
      inactive one) keeps the index satisfied. */
  lemma ReplaceKeepsNames(s: seq<AssemblyRow>, id: int, a: AssemblyRow)
    requires DistinctActiveNames(s) && 1 <= id <= |s|
    requires a.isActive ==> !NameTaken(s, id, a.name)
    ensures DistinctActiveNames(s[id - 1 := a])
  {
    var t := s[id - 1 := a];
    forall i, j | 0 <= i < j < |t| && t[i].isActive && t[j].isActive
      ensures Lower(t[i].name) != Lower(t[j].name)
    {
      if i == id - 1 {
        assert !(j + 1 != id && s[j].isActive && Lower(s[j].name) == Lower(a.name));
      } else if j == id - 1 {
        assert !(i + 1 != id && s[i].isActive && Lower(s[i].name) == Lower(a.name));
      }
    }
  }

  /** Appending an active row whose name no active row holds keeps the
      index satisfied. */
  lemma AppendKeepsNames(s: seq<AssemblyRow>, a: AssemblyRow)
    requires DistinctActiveNames(s)
    requires a.isActive ==> !NameTaken(s, 0, a.name)
    ensures DistinctActiveNames(s + [a])
  {
    var t := s + [a];
    forall i, j | 0 <= i < j < |t| && t[i].isActive && t[j].isActive
      ensures Lower(t[i].name) != Lower(t[j].name)
    {
      if j == |s| {
        assert !(i + 1 != 0 && s[i].isActive && Lower(s[i].name) == Lower(a.name));
      } else {
        assert t[i] == s[i] && t[j] == s[j];
      }
    }
  }

  /** Another active component links the same assembly and material. */
  predicate LinkTaken(components: seq<ComponentRow>, self: int, assemblyId: int, materialId: int)
  {
    exists j :: 0 <= j < |components| && j + 1 != self && components[j].isActive
      && components[j].assemblyId == assemblyId && components[j].materialId == materialId
  }

  /** The assembly after update_assembly's assignments: each argument given
      (not None) replaces its field, empty optional text becoming None; the
      rest, and is_active, stay. */
  function Updated(a: AssemblyRow, name: Option<string>, notes: Option<string>, assemblyCode: Option<string>,
                   category: Option<string>, subcategory: Option<string>, isFeatured: Option<bool>): (r: AssemblyRow)
    ensures r.name == (if name.Some? then Trim(name.value) else a.name)
    ensures notes.None? ==> r.notes == a.notes
    ensures notes.Some? ==> r.notes == OrNone(notes)
    ensures assemblyCode.None? ==> r.assemblyCode == a.assemblyCode
    ensures assemblyCode.Some? ==> r.assemblyCode == OrNone(assemblyCode)
    ensures category.None? ==> r.category == a.category
    ensures category.Some? ==> r.category == OrNone(category)
    ensures subcategory.None? ==> r.subcategory == a.subcategory
    ensures subcategory.Some? ==> r.subcategory == OrNone(subcategory)
    ensures r.isFeatured == isFeatured.GetOr(a.isFeatured)
    ensures r.isActive == a.isActive
  {
    AssemblyRow(
      if name.Some? then Trim(name.value) else a.name,
      if notes.Some? then OrNone(notes) else a.notes,
      if assemblyCode.Some? then OrNone(assemblyCode) else a.assemblyCode,
      if category.Some? then OrNone(category) else a.category,
      if subcategory.Some? then OrNone(subcategory) else a.subcategory,
      isFeatured.GetOr(a.isFeatured),
      a.isActive)
  }

  /** An update with no arguments changes nothing. */
  lemma UpdateNothing(a: AssemblyRow)
    ensures Updated(a, None, None, None, None, None, None) == a
  {
  }

  class Catalog {
    /** Assembly rows; the assembly with id i is assemblies[i - 1]. */
    var assemblies: seq<AssemblyRow>
    /** Component rows; the component with id i is components[i - 1]. */
    var components: seq<ComponentRow>
    /** Material rows by id; the assembly service only reads them. */
    var materials: map<int, MaterialRow>

    /** The two partial unique indexes: no two active assemblies share a
        lower-cased name, no two active components link the same assembly
        and material. */
    ghost predicate Valid()
      reads this
    {
      && DistinctActiveNames(assemblies)
      && (forall i, j :: 0 <= i < j < |components| && components[i].isActive && components[j].isActive
            ==> components[i].assemblyId != components[j].assemblyId || components[i].materialId != components[j].materialId)
    }

    constructor (materials: map<int, MaterialRow>)
      ensures Valid() && assemblies == [] && components == [] && this.materials == materials
    {
      assemblies, components := [], [];
      this.materials := materials;
    }

    /** get_assembly: the row with the id, refused when there is none or when
        only active rows are wanted and it is inactive. */
    function GetAssembly(id: int, includeInactive: bool): (r: Result<AssemblyRow, Failure>)
      reads this
      ensures r.Err? <==> !(1 <= id <= |assemblies|) || (!includeInactive && !assemblies[id - 1].isActive)
      ensures r.Err? ==> r.error == AssemblyNotFound(id)
      ensures r.Ok? ==> r.value == assemblies[id - 1] && (r.value.isActive || includeInactive)
    {
      if !(1 <= id <= |assemblies|) then Err(AssemblyNotFound(id))
      else if !includeInactive && !assemblies[id - 1].isActive then Err(AssemblyNotFound(id))
      else Ok(assemblies[id - 1])
    }

    /** get_assembly_rollup: the loop over the selected rows, summing
        qty * price / u and qty * labor / u and counting rows. */
    method GetAssemblyRollup(assemblyId: int) returns (r: Rollup)
      ensures r == RollupOf(assemblyId, RollupRows(components, materials, assemblyId))
    {
      var rows := RollupRows(components, materials, assemblyId);
      var materialTotal := 0.0;
      var laborTotal := 0.0;
      var count := 0;
      var i := 0;
      while i < |rows|
        invariant 0 <= i <= |rows|
        invariant count == i
        invariant materialTotal == MaterialSum(rows[..i])
        invariant laborTotal == LaborSum(rows[..i])
      {
        count := count + 1;
        var row := rows[i];
        var u := ToIntOrDefault(row.unitQty, 1) as real;
        var q := ToDecimal(row.qty);
        // qty * price_each and qty * labor_each, with price_each = price / u
        materialTotal := materialTotal + Share(q, ToDecimal(row.price), u);
        laborTotal := laborTotal + Share(q, ToDecimal(row.laborUnit), u);
        assert rows[..i + 1] == rows[..i] + [row];
        SumsAppendOne(rows[..i], row);
        i := i + 1;
      }
      assert rows[..i] == rows;
      r := Rollup(assemblyId, NumParse.QuantizeHalfUp(materialTotal, 4), NumParse.QuantizeHalfUp(laborTotal, 4), count);
    }

    /** create_assembly: a blank name is refused; otherwise a new active row
        with the stripped name and empty optionals as None, unless an active
        assembly already has the name. */
    method CreateAssembly(name: string, notes: Option<string>, assemblyCode: Option<string>,
                          category: Option<string>, subcategory: Option<string>, isFeatured: bool)
      returns (r: Result<int, Failure>)
      requires Valid()
      modifies this`assemblies
      ensures Valid()
      ensures r.Err? ==> assemblies == old(assemblies)
      ensures r == Err(NameRequired) <==> Trim(name) == []
      ensures r == Err(DuplicateName) <==> Trim(name) != [] && NameTaken(old(assemblies), 0, Trim(name))
      ensures r.Ok? <==> Trim(name) != [] && !NameTaken(old(assemblies), 0, Trim(name))
      ensures r.Ok? ==> (r.value == |old(assemblies)| + 1
        && assemblies == old(assemblies) + [AssemblyRow(Trim(name), OrNone(notes), OrNone(assemblyCode), OrNone(category), OrNone(subcategory), isFeatured, true)])
    {
      var n := Trim(name);
      if n == [] {
        return Err(NameRequired);
      }
      if NameTaken(assemblies, 0, n) {
        return Err(DuplicateName);
      }
      var row := AssemblyRow(n, OrNone(notes), OrNone(assemblyCode), OrNone(category), OrNone(subcategory), isFeatured, true);
      AppendKeepsNames(assemblies, row);
      assemblies := assemblies + [row];
      r := Ok(|assemblies|);
    }

    /** update_assembly: a missing id and a blank name are refused; the given
        fields are assigned, and a name clash with another active assembly
        rolls the whole update back. */
    method UpdateAssembly(id: int, name: Option<string>, notes: Option<string>, assemblyCode: Option<string>,
                          category: Option<string>, subcategory: Option<string>, isFeatured: Option<bool>)
      returns (r: Result<AssemblyRow, Failure>)
      requires Valid()
      modifies this`assemblies
      ensures Valid()
      ensures r.Err? ==> assemblies == old(assemblies)
      ensures r == Err(AssemblyNotFound(id)) <==> !(1 <= id <= |old(assemblies)|)
      ensures r == Err(NameBlank) <==> 1 <= id <= |old(assemblies)| && name.Some? && Trim(name.value) == []
      ensures r == Err(DuplicateName) <==> (1 <= id <= |old(assemblies)| && !(name.Some? && Trim(name.value) == [])
        && old(assemblies)[id - 1].isActive
        && NameTaken(old(assemblies), id, Updated(old(assemblies)[id - 1], name, notes, assemblyCode, category, subcategory, isFeatured).name))
      ensures r.Ok? <==> (1 <= id <= |old(assemblies)| && !(name.Some? && Trim(name.value) == [])
        && !(old(assemblies)[id - 1].isActive
          && NameTaken(old(assemblies), id, Updated(old(assemblies)[id - 1], name, notes, assemblyCode, category, subcategory, isFeatured).name)))
      ensures r.Ok? ==> (1 <= id <= |old(assemblies)|
        && r.value == Updated(old(assemblies)[id - 1], name, notes, assemblyCode, category, subcategory, isFeatured)
        && assemblies == old(assemblies)[id - 1 := r.value])
    {
      var got := GetAssembly(id, true);
      if got.Err? {
        return Err(got.error);
      }
      if name.Some? && Trim(name.value) == [] {
        return Err(NameBlank);
      }
      var a := Updated(got.value, name, notes, assemblyCode, category, subcategory, isFeatured);
      if a.isActive && NameTaken(assemblies, id, a.name) {
        return Err(DuplicateName);
      }
      ReplaceKeepsNames(assemblies, id, a);
      assemblies := assemblies[id - 1 := a];
      r := Ok(a);
    }

    /** set_assembly_active: flips is_active; reactivating onto a name that
        another active assembly holds fails on flush. */
    method SetAssemblyActive(id: int, active: bool) returns (r: Result<AssemblyRow, Failure>)
      requires Valid()
      modifies this`assemblies
      ensures Valid()
      ensures r.Err? ==> assemblies == old(assemblies)
      ensures r == Err(AssemblyNotFound(id)) <==> !(1 <= id <= |old(assemblies)|)
      ensures r == Err(Integrity) <==> (1 <= id <= |old(assemblies)| && active
        && NameTaken(old(assemblies), id, old(assemblies)[id - 1].name))
      ensures r.Ok? <==> (1 <= id <= |old(assemblies)| && !(active && NameTaken(old(assemblies), id, old(assemblies)[id - 1].name)))
      ensures r.Ok? ==> (1 <= id <= |old(assemblies)|
        && r.value == old(assemblies)[id - 1].(isActive := active)
        && assemblies == old(assemblies)[id - 1 := r.value])
    {
      var got := GetAssembly(id, true);
      if got.Err? {
        return Err(got.error);
      }
      var a := got.value.(isActive := active);
      if active && NameTaken(assemblies, id, a.name) {
        return Err(Integrity);
      }
      ReplaceKeepsNames(assemblies, id, a);
      assemblies := assemblies[id - 1 := a];
      r := Ok(a);
    }

    /** add_component: the assembly (active or not) and the material must
        exist, and the assembly must not already have an active link to the
        material; the new row is active. */
    method AddComponent(assemblyId: int, materialId: int, qty: real, sortOrder: Option<int>)
      returns (r: Result<int, Failure>)
      requires Valid()
      modifies this`components
      ensures Valid()
      ensures r.Err? ==> components == old(components)
      ensures r == Err(AssemblyNotFound(assemblyId)) <==> !(1 <= assemblyId <= |assemblies|)
      ensures r == Err(MaterialNotFound(materialId)) <==> 1 <= assemblyId <= |assemblies| && materialId !in materials
      ensures r == Err(ComponentExists) <==> (1 <= assemblyId <= |assemblies| && materialId in materials
        && LinkTaken(old(components), 0, assemblyId, materialId))
      ensures r.Ok? <==> (1 <= assemblyId <= |assemblies| && materialId in materials
        && !LinkTaken(old(components), 0, assemblyId, materialId))
      ensures r.Ok? ==> (r.value == |old(components)| + 1
        && components == old(components) + [ComponentRow(assemblyId, materialId, qty, sortOrder, true)])
    {
      var got := GetAssembly(assemblyId, true);
      if got.Err? {
        return Err(got.error);
      }
      if materialId !in materials {
        return Err(MaterialNotFound(materialId));
      }
      if LinkTaken(components, 0, assemblyId, materialId) {
        return Err(ComponentExists);
      }
      components := components + [ComponentRow(assemblyId, materialId, qty, sortOrder, true)];
      r := Ok(|components|);
    }

    /** set_component_active: flips is_active; reactivating a second live
        link of the same material fails on flush. */
    method SetComponentActive(componentId: int, active: bool) returns (r: Result<ComponentRow, Failure>)
      requires Valid()
      modifies this`components
      ensures Valid()
      ensures r.Err? ==> components == old(components)
      ensures r == Err(ComponentNotFound(componentId)) <==> !(1 <= componentId <= |old(components)|)
      ensures r == Err(Integrity) <==> (1 <= componentId <= |old(components)| && active
        && LinkTaken(old(components), componentId, old(components)[componentId - 1].assemblyId, old(components)[componentId - 1].materialId))
      ensures r.Ok? <==> (1 <= componentId <= |old(components)| && !(active
        && LinkTaken(old(components), componentId, old(components)[componentId - 1].assemblyId, old(components)[componentId - 1].materialId)))
      ensures r.Ok? ==> (1 <= componentId <= |old(components)|
        && r.value == old(components)[componentId - 1].(isActive := active)
        && components == old(components)[componentId - 1 := r.value])
    {
      if !(1 <= componentId <= |components|) {
        return Err(ComponentNotFound(componentId));
      }
      var c := components[componentId - 1].(isActive := active);
      if active && LinkTaken(components, componentId, c.assemblyId, c.materialId) {
        return Err(Integrity);
      }
      components := components[componentId - 1 := c];
      r := Ok(c);
    }
  }
}
