// The estimator's material lookups (app/blueprints/estimator/api_materials.py):
// the list of material types, and the per-type item list with each item's
// price and labor per single unit (the catalog prices per 1, 100 or 1000).
// The database queries are given as row lists; their ORDER BY and DISTINCT
// are not modelled, and the JSON results keep full precision (no round()).
module ApiMaterials {
  import opened Wrappers
  import opened Text
  import opened Json
  import NumParse
  import Assemblies

  /** get_material_types: the queried types with falsy ones (None, "") dropped. */
  function MaterialTypes(types: seq<Option<string>>): (r: seq<string>)
    ensures |r| <= |types|
    ensures forall i :: 0 <= i < |r| ==> r[i] != []
    ensures forall i :: 0 <= i < |types| && types[i].Some? && types[i].value != [] ==> types[i].value in r
    ensures forall x :: x in r ==> Some(x) in types
  {
    if types == [] then []
    else
      var rest := MaterialTypes(types[..|types| - 1]);
      var t := types[|types| - 1];
      if t.Some? && t.value != [] then rest + [t.value] else rest
  }

  /** per_each's divisor: `unit or 1`, then int(); non-positive values and
      values int() refuses give 1. */
  function UnitDivisor(unit: Json): (u: int)
    ensures u >= 1
  {
    var v: Option<int> :=
      if !Truthy(unit) then Some(1)
      else match unit
        case JInt(i) => Some(i)
        case JFloat(x) => Some(NumParse.Trunc(x))
        case JBool(b) => Some(if b then 1 else 0)
        case JStr(s) => NumParse.PyInt(s)
        case _ => None;
    if v.Some? && v.value > 0 then v.value else 1
  }

  /** The route's divisor rule agrees with the assembly roll-up's
      _to_int_or_default with default 1, and a positive unit size is used as
      it is. */
  lemma UnitDivisorAgrees(unit: Json)
    ensures UnitDivisor(unit) == Assemblies.ToIntOrDefault(unit, 1)
    ensures unit.JInt? && unit.i > 0 ==> UnitDivisor(unit) == unit.i
    ensures unit.JNull? || (unit.JInt? && unit.i <= 0) ==> UnitDivisor(unit) == 1
  {
  }

  /** A materials row as the query returns it. */
  datatype MaterialRow = MaterialRow(
    id: int,
    materialType: Option<string>,
    itemDescription: Option<string>,
    price: Option<real>,
    laborUnit: Option<real>,
    unitQuantitySize: Json,
    isActive: bool)

  /** One element of the JSON list. */
  datatype Item = Item(
    id: int,
    itemDescription: Option<string>,
    price: real,
    laborUnit: real,
    unitQuantitySize: Json,
    priceEach: real,
    laborEach: real)

  /** per_each: price and labor (None read as 0) divided by the unit divisor. */
  function PerEach(price: Option<real>, labor: Option<real>, unit: Json): (r: (real, real))
    ensures r.0 * UnitDivisor(unit) as real == price.GetOr(0.0)
    ensures r.1 * UnitDivisor(unit) as real == labor.GetOr(0.0)
  {
    var u := UnitDivisor(unit) as real;
    (price.GetOr(0.0) / u, labor.GetOr(0.0) / u)
  }

  /** The result dict for one row. */
  function Shape(row: MaterialRow): (it: Item)
    ensures it.id == row.id && it.itemDescription == row.itemDescription
    ensures it.price == row.price.GetOr(0.0) && it.laborUnit == row.laborUnit.GetOr(0.0)
    ensures it.unitQuantitySize == OrElse(Some(row.unitQuantitySize), JInt(1))
    ensures it.priceEach * UnitDivisor(row.unitQuantitySize) as real == it.price
    ensures it.laborEach * UnitDivisor(row.unitQuantitySize) as real == it.laborUnit
  {
    var (pe, le) := PerEach(row.price, row.laborUnit, row.unitQuantitySize);
    Item(row.id, row.itemDescription, row.price.GetOr(0.0), row.laborUnit.GetOr(0.0),
         if Truthy(row.unitQuantitySize) then row.unitQuantitySize else JInt(1), pe, le)
  }

  /** A catalog priced per 100 reports a hundredth of the price per item. */
  lemma PerHundred(row: MaterialRow)
    requires row.unitQuantitySize == JInt(100)
    ensures Shape(row).priceEach == row.price.GetOr(0.0) / 100.0
    ensures Shape(row).unitQuantitySize == JInt(100)
  {
  }

  /** The rows the description query selects: active, of exactly this type. */
  function OfType(rows: seq<MaterialRow>, t: string): (r: seq<MaterialRow>)
    ensures |r| <= |rows|
    ensures forall i :: 0 <= i < |r| ==> r[i].isActive && r[i].materialType == Some(t) && r[i] in rows
    ensures forall i :: 0 <= i < |rows| && rows[i].isActive && rows[i].materialType == Some(t) ==> rows[i] in r
  {
    if rows == [] then []
    else
      var rest := OfType(rows[..|rows| - 1], t);
      var m := rows[|rows| - 1];
      if m.isActive && m.materialType == Some(t) then rest + [m] else rest
  }

  /** The loop that appends one result dict per row. */
  method BuildResults(rows: seq<MaterialRow>) returns (result: seq<Item>)
    ensures |result| == |rows|
    ensures forall i :: 0 <= i < |rows| ==> result[i] == Shape(rows[i])
  {
    result := [];
    for i := 0 to |rows|
      invariant |result| == i
      invariant forall k :: 0 <= k < i ==> result[k] == Shape(rows[k])
    {
      result := result + [Shape(rows[i])];
    }
  }

  /** get_material_descriptions: a blank or missing type gives the empty
      list; otherwise one item per active row of that type. */
  method GetMaterialDescriptions(typeArg: Option<string>, rows: seq<MaterialRow>) returns (result: seq<Item>)
    ensures NoSpaceFree(typeArg.GetOr("")) ==> result == []
    ensures !NoSpaceFree(typeArg.GetOr("")) ==>
      var selected := OfType(rows, Trim(typeArg.GetOr("")));
      |result| == |selected| && forall i :: 0 <= i < |selected| ==> result[i] == Shape(selected[i])
  {
    var matType := Trim(typeArg.GetOr(""));
    TrimEmpty(typeArg.GetOr(""));
    if matType == [] {
      return [];
    }
    result := BuildResults(OfType(rows, matType));
  }
}
