// The starter-pack seeding service (app/services/persistence.py): every
// workbook row gets a seed_key (the one provided, or one built from the
// normalized identifying columns), materials unit sizes are checked against
// 1, 100 and 1000 before anything is written, each row is classified as
// inserted or updated against the global seed keys already present, and the
// rows are upserted on seed_key.
//
// The workbooks are given as row lists with each cell already read. A text
// column's cell is a Cell: the column may be missing, the cell empty (pandas
// reads it as the float NaN) or hold text. A numeric column's cell is
// Some(number), with None for an empty or non-numeric cell; is_active is
// Some(flag) or None for an empty cell. The global seed rows are a map from
// seed_key to the stored row (the partial unique index on seed_key for
// org_id IS NULL makes it one row per key).
module Persistence {
  import opened Wrappers
  import opened Text
  import NumParse

  /** A text cell as `r.get(column)` hands it over: the column is missing
      (None), the cell is empty (NaN, which is truthy and prints as "nan"),
      or the cell holds text. */
  datatype Cell = Absent | Empty | Text(s: string)

  // ----- _norm and the seed key -----

  /** _norm: None gives ""; otherwise str() of the value, stripped,
      lower-cased, with every whitespace run collapsed to one space. str()
      of an empty cell's NaN is "nan". */
  function Norm(val: Cell): (r: string)
    ensures val.Absent? ==> r == ""
    ensures val.Empty? ==> r == "nan"
  {
    match val
    case Absent => ""
    case Empty => "nan"
    case Text(s) => Collapse(Lower(Trim(s)))
  }

  /** A normalized value has no whitespace at its ends, only single spaces
      inside, and no upper-case letter. */
  lemma NormShape(val: Cell)
    ensures Trimmed(Norm(val)) && Collapsed(Norm(val)) && IsLowered(Norm(val))
  {
    if val.Text? {
      var t := Trim(val.s);
      TrimTrimmed(val.s);
      LowerKeepsShape(t);
      LowerIsLowered(t);
      CollapseKeepsTrimmed(Lower(t));
      CollapseKeepsLowered(Lower(t));
      CollapseIsCollapsed(Lower(t));
    }
  }

  /** Normalizing twice is normalizing once. */
  lemma NormIdempotent(val: Cell)
    ensures Norm(Text(Norm(val))) == Norm(val)
  {
    var n := Norm(val);
    NormShape(val);
    TrimProps(n);
    LowerIsLowered(n);
    CollapseFixesCollapsed(n);
  }

  /** The normalized form ignores case. */
  lemma NormIgnoresCase(s: string)
    ensures Norm(Text(Lower(s))) == Norm(Text(s))
  {
    var t := Trim(s);
    LowerTrimCommute(s);
    LowerIsLowered(t);
    LowerIsLowered(Lower(t));
    assert Lower(Trim(Lower(s))) == Lower(t);
  }

  /** The normalized form ignores whitespace around the value. */
  lemma NormIgnoresEnds(s: string)
    ensures Norm(Text(" " + s + " ")) == Norm(Text(s))
  {
    assert " " + s + " " == [' '] + (s + [' ']);
    TrimSpaceFront(s + [' ']);
    TrimSpaceBack(s);
  }

  /** The parts joined with "|", as the f-string builds the key. */
  function JoinBar(parts: seq<string>): string
    decreases |parts|
  {
    if parts == [] then ""
    else if |parts| == 1 then parts[0]
    else parts[0] + "|" + JoinBar(parts[1..])
  }

  /** Joining keeps one bar per gap, so a key built from two or more parts
      always holds a "|" and is never empty. */
  lemma {:induction false} JoinBarHasBar(parts: seq<string>)
    requires |parts| >= 2
    ensures HasChar(JoinBar(parts), '|')
  {
    var j := JoinBar(parts);
    assert j[|parts[0]|] == '|';
  }

  /** When no part holds a "|", splitting the key on "|" gives the parts
      back, so the key determines every part it was built from. */
  lemma {:induction false} SplitJoinBar(parts: seq<string>)
    requires |parts| >= 1
    requires forall k :: 0 <= k < |parts| ==> !HasChar(parts[k], '|')
    ensures Split(JoinBar(parts), '|') == parts
    decreases |parts|
  {
    if |parts| == 1 {
      assert IndexOf(parts[0], '|').None?;
    } else {
      var p := parts[0];
      var rest := JoinBar(parts[1..]);
      var j := p + "|" + rest;
      IndexOfAfterFree(p, rest);
      assert j[..|p|] == p;
      assert j[|p| + 1..] == rest;
      SplitJoinBar(parts[1..]);
    }
  }

  lemma IndexOfAfterFree(p: string, rest: string)
    requires !HasChar(p, '|')
    ensures IndexOf(p + "|" + rest, '|') == Some(|p|)
  {
    var j := p + "|" + rest;
    assert j[|p|] == '|';
    assert HasChar(j, '|');
    var k := IndexOf(j, '|').value;
  }

  /** The seed_key lambda: a provided text key that is not blank is kept
      as it is; otherwise (no seed_key column, an empty cell, blank text)
      the normalized identifying columns joined with "|". */
  function SeedKey(provided: Cell, identity: seq<Cell>): (key: string)
  {
    if provided.Text? && !NoSpaceFree(provided.s) then provided.s
    else JoinBar(seq(|identity|, i requires 0 <= i < |identity| => Norm(identity[i])))
  }

  /** A provided non-blank key wins; otherwise the key is the "|"-joined
      normal forms, holds a "|" when there are two or more columns, and
      names those normal forms exactly when none of them holds a "|". */
  lemma SeedKeyProps(provided: Cell, identity: seq<Cell>)
    requires |identity| >= 2
    ensures provided.Text? && !NoSpaceFree(provided.s) ==> SeedKey(provided, identity) == provided.s
    ensures !(provided.Text? && !NoSpaceFree(provided.s)) ==>
      var norms := seq(|identity|, i requires 0 <= i < |identity| => Norm(identity[i]));
      && SeedKey(provided, identity) == JoinBar(norms)
      && HasChar(SeedKey(provided, identity), '|')
      && ((forall k :: 0 <= k < |norms| ==> !HasChar(norms[k], '|')) ==> Split(SeedKey(provided, identity), '|') == norms)
    ensures SeedKey(provided, identity) != []
  {
    var norms := seq(|identity|, i requires 0 <= i < |identity| => Norm(identity[i]));
    if !(provided.Text? && !NoSpaceFree(provided.s)) {
      JoinBarHasBar(norms);
      if forall k :: 0 <= k < |norms| ==> !HasChar(norms[k], '|') {
        SplitJoinBar(norms);
      }
    } else {
      assert provided.s != [];
    }
  }

  /** An empty identifying cell enters the key as "nan", a missing column
      as nothing, so the same material gets different keys from a workbook
      with a blank manufacturer cell and from one without that column. */
  lemma EmptyCellKeyedAsNan(materialType: Cell, description: Cell, sku: Cell)
    ensures SeedKey(Absent, [materialType, description, Empty, sku])
      == Norm(materialType) + "|" + (Norm(description) + "|" + ("nan" + "|" + Norm(sku)))
    ensures SeedKey(Absent, [materialType, description, Absent, sku])
      == Norm(materialType) + "|" + (Norm(description) + "|" + ("" + "|" + Norm(sku)))
    ensures SeedKey(Absent, [materialType, description, Empty, sku]) != SeedKey(Absent, [materialType, description, Absent, sku])
  {
    SeedKeyOfFour(materialType, description, Empty, sku);
    SeedKeyOfFour(materialType, description, Absent, sku);
    var x, y, w := Norm(materialType), Norm(description), Norm(sku);
    assert |x + "|" + (y + "|" + ("nan" + "|" + w))| == |x + "|" + (y + "|" + ("" + "|" + w))| + 3;
  }

  /** Without a provided key, four identifying cells key as their normal
      forms joined by "|". */
  lemma SeedKeyOfFour(c0: Cell, c1: Cell, c2: Cell, c3: Cell)
    ensures SeedKey(Absent, [c0, c1, c2, c3]) == Norm(c0) + "|" + (Norm(c1) + "|" + (Norm(c2) + "|" + Norm(c3)))
  {
    var cs := [c0, c1, c2, c3];
    var a := seq(4, i requires 0 <= i < 4 => Norm(cs[i]));
    assert a[0] == Norm(c0) && a[1] == Norm(c1) && a[2] == Norm(c2) && a[3] == Norm(c3);
    assert a == [Norm(c0), Norm(c1), Norm(c2), Norm(c3)];
    JoinBarFour(Norm(c0), Norm(c1), Norm(c2), Norm(c3));
  }

  lemma JoinBarFour(p: string, q: string, r: string, t: string)
    ensures JoinBar([p, q, r, t]) == p + "|" + (q + "|" + (r + "|" + t))
  {
    var parts := [p, q, r, t];
    assert parts[1..] == [q, r, t] && parts[1..][1..] == [r, t] && parts[1..][1..][1..] == [t];
    assert JoinBar([t]) == t;
    assert JoinBar([r, t]) == r + "|" + t;
    assert JoinBar([q, r, t]) == q + "|" + (r + "|" + t);
  }

  // ----- the workbook rows -----

  /** A row of data/Materials_DB_Seed.xlsx after the column renames. */
  datatype MaterialSheetRow = MaterialSheetRow(
    seedKey: Cell,
    materialType: Cell,
    itemDescription: Cell,
    manufacturer: Cell,
    sku: Cell,
    vendor: Cell,
    materialCostCode: Cell,
    matCostCodeDesc: Cell,
    laborCostCode: Cell,
    laborCostCodeDesc: Cell,
    laborUnit: Option<real>,
    price: Option<real>,
    unitQuantitySize: Option<real>,
    isActive: Option<bool>)

  /** A row of data/dje_items.xlsx. */
  datatype DjeSheetRow = DjeSheetRow(
    seedKey: Cell,
    category: Cell,
    subcategory: Cell,
    description: Cell,
    vendor: Cell,
    costCode: Cell,
    defaultUnitCost: Option<real>,
    isActive: Option<bool>)

  function MaterialSeedKey(row: MaterialSheetRow): string
  {
    SeedKey(row.seedKey, [row.materialType, row.itemDescription, row.manufacturer, row.sku])
  }

  function DjeSeedKey(row: DjeSheetRow): string
  {
    SeedKey(row.seedKey, [row.category, row.description, row.vendor])
  }

  /** The unit size column: an empty or non-numeric cell is 1, a number is
      cut to an int toward zero. */
  function UnitSize(cell: Option<real>): (u: int)
    ensures cell.None? ==> u == 1
    ensures cell.Some? ==> -1.0 < cell.value - u as real < 1.0
  {
    if cell.None? then 1 else NumParse.Trunc(cell.value)
  }

  lemma UnitSizeExact(cell: Option<real>)
    ensures cell.Some? && cell.value.Floor as real == cell.value ==> UnitSize(cell) as real == cell.value
  {
    if cell.Some? {
      NumParse.TruncProps(cell.value);
    }
  }

  predicate ValidUnit(u: int) { u == 1 || u == 100 || u == 1000 }

  /** The guard rail: the first row whose unit size is not 1, 100 or 1000. */
  function FirstInvalidUnit(rows: seq<MaterialSheetRow>): (r: Option<nat>)
    ensures r.None? <==> forall i :: 0 <= i < |rows| ==> ValidUnit(UnitSize(rows[i].unitQuantitySize))
    ensures r.Some? ==> (r.value < |rows| && !ValidUnit(UnitSize(rows[r.value].unitQuantitySize))
      && forall i :: 0 <= i < r.value ==> ValidUnit(UnitSize(rows[i].unitQuantitySize)))
  {
    if rows == [] then None
    else if !ValidUnit(UnitSize(rows[0].unitQuantitySize)) then Some(0)
    else
      var k := FirstInvalidUnit(rows[1..]);
      if k.None? then None else Some(k.value + 1)
  }

  // ----- the upsert parameters and the stored rows -----

  /** The value bound to an optional text parameter: NULL, the float NaN of
      an empty cell, or text. */
  datatype Bound = Null | NaN | Str(s: string)

  datatype MaterialParams = MaterialParams(
    materialType: Option<string>,
    itemDescription: Option<string>,
    laborUnit: real,
    price: real,
    unitQuantitySize: int,
    sku: Bound,
    manufacturer: Bound,
    vendor: Bound,
    materialCostCode: Bound,
    matCostCodeDesc: Bound,
    laborCostCode: Bound,
    laborCostCodeDesc: Bound,
    isActive: bool,
    seedPack: string,
    seedVersion: int,
    seedKey: string,
    seededAt: int)

  datatype DjeParams = DjeParams(
    category: string,
    subcategory: Bound,
    description: string,
    defaultUnitCost: real,
    vendor: Bound,
    costCode: Bound,
    isActive: bool,
    seedPack: string,
    seedVersion: int,
    seedKey: string,
    seededAt: int)

  /** Why an import raises; whatever it raises, nothing stays written. */
  datatype ImportError =
    | InvalidUnitSize(seedKey: string)  // "Invalid Unit Qty Size for seed_key=..."
    | NoIsActiveColumn                  // the default True has no fillna()
    | StripOnEmptyCell                  // NaN or "" is NaN, which has no strip()
    | UniqueViolation                   // a row clashes in the system normalised index

  /** `(x or "").strip()`: a missing column gives "", text is stripped, and
      an empty cell raises. */
  function Stripped(x: Cell): (r: Result<string, ImportError>)
    ensures r.Err? <==> x.Empty?
    ensures r.Err? ==> r.error == StripOnEmptyCell
    ensures r.Ok? ==> Trimmed(r.value)
    ensures x.Absent? ==> r == Ok("")
    ensures x.Text? ==> r == Ok(Trim(x.s)) && (r.value == [] <==> NoSpaceFree(x.s))
  {
    TrimTrimmed(if x.Text? then x.s else "");
    TrimEmpty(if x.Text? then x.s else "");
    match x
    case Absent => Ok("")
    case Empty => Err(StripOnEmptyCell)
    case Text(s) => Ok(Trim(s))
  }

  /** `(x or "").strip() or None`: as Stripped, with nothing left giving None. */
  function StrippedOrNone(x: Cell): (r: Result<Option<string>, ImportError>)
    ensures r.Err? <==> x.Empty?
    ensures r.Ok? && r.value.Some? ==> r.value.value != [] && Trimmed(r.value.value)
    ensures r == Ok(None) <==> x.Absent? || (x.Text? && NoSpaceFree(x.s))
    ensures x.Text? && !NoSpaceFree(x.s) ==> r == Ok(Some(Trim(x.s)))
  {
    match Stripped(x)
    case Err(e) => Err(e)
    case Ok(s) => Ok(if s == [] then None else Some(s))
  }

  /** `x or None`: a missing column and an empty text bind NULL, text binds
      itself, and an empty cell's NaN is truthy and is bound as it is. */
  function OrNone(x: Cell): (r: Bound)
    ensures r.Null? <==> x.Absent? || x == Text("")
    ensures r.NaN? <==> x.Empty?
    ensures x.Text? && x.s != [] ==> r == Str(x.s)
  {
    match x
    case Absent => Null
    case Empty => NaN
    case Text(s) => if s == [] then Null else Str(s)
  }

  /** The parameter dict of one materials row; it raises when the material
      type or the description cell is empty. */
  function MaterialParamsOf(row: MaterialSheetRow, key: string, pack: string, version: int, now: int): (r: Result<MaterialParams, ImportError>)
    ensures r.Err? <==> row.materialType.Empty? || row.itemDescription.Empty?
    ensures r.Err? ==> r.error == StripOnEmptyCell
    ensures r.Ok? ==> var p := r.value;
      && p.seedKey == key && p.seedPack == pack && p.seedVersion == version && p.seededAt == now
      && p.laborUnit == row.laborUnit.GetOr(0.0) && p.price == row.price.GetOr(0.0)
      && p.isActive == row.isActive.GetOr(true)
      && (ValidUnit(UnitSize(row.unitQuantitySize)) ==> p.unitQuantitySize == UnitSize(row.unitQuantitySize))
      && Ok(p.materialType) == StrippedOrNone(row.materialType)
      && Ok(p.itemDescription) == StrippedOrNone(row.itemDescription)
      && p.sku == OrNone(row.sku) && p.manufacturer == OrNone(row.manufacturer) && p.vendor == OrNone(row.vendor)
      && p.materialCostCode == OrNone(row.materialCostCode) && p.matCostCodeDesc == OrNone(row.matCostCodeDesc)
      && p.laborCostCode == OrNone(row.laborCostCode) && p.laborCostCodeDesc == OrNone(row.laborCostCodeDesc)
  {
    var u := UnitSize(row.unitQuantitySize);
    var mt := StrippedOrNone(row.materialType);
    var desc := StrippedOrNone(row.itemDescription);
    if mt.Err? then Err(mt.error)
    else if desc.Err? then Err(desc.error)
    else
      Ok(MaterialParams(
        mt.value, desc.value,
        row.laborUnit.GetOr(0.0), row.price.GetOr(0.0),
        if u != 0 then u else 1,
        OrNone(row.sku), OrNone(row.manufacturer), OrNone(row.vendor),
        OrNone(row.materialCostCode), OrNone(row.matCostCodeDesc),
        OrNone(row.laborCostCode), OrNone(row.laborCostCodeDesc),
        row.isActive.GetOr(true), pack, version, key, now))
  }

  /** The parameter dict of one DJE row; it raises when the category or the
      description cell is empty. */
  function DjeParamsOf(row: DjeSheetRow, key: string, pack: string, version: int, now: int): (r: Result<DjeParams, ImportError>)
    ensures r.Err? <==> row.category.Empty? || row.description.Empty?
    ensures r.Err? ==> r.error == StripOnEmptyCell
    ensures r.Ok? ==> var p := r.value;
      && p.seedKey == key && p.seedPack == pack && p.seedVersion == version && p.seededAt == now
      && p.defaultUnitCost == row.defaultUnitCost.GetOr(0.0) && p.isActive == row.isActive.GetOr(true)
      && Ok(p.category) == Stripped(row.category) && Ok(p.description) == Stripped(row.description)
      && p.subcategory == OrNone(row.subcategory) && p.vendor == OrNone(row.vendor) && p.costCode == OrNone(row.costCode)
  {
    var cat := Stripped(row.category);
    var desc := Stripped(row.description);
    if cat.Err? then Err(cat.error)
    else if desc.Err? then Err(desc.error)
    else
      Ok(DjeParams(
        cat.value, OrNone(row.subcategory), desc.value,
        row.defaultUnitCost.GetOr(0.0), OrNone(row.vendor), OrNone(row.costCode),
        row.isActive.GetOr(true), pack, version, key, now))
  }

  /** A stored global seed row: the last parameters written for its key and
      the time the row was first created. */
  datatype Stored<P> = Stored(params: P, createdAt: int)

  /** INSERT ... ON CONFLICT (seed_key) DO UPDATE for one parameter set: a
      new key is created at `now`; an existing key takes the new parameters
      and keeps its creation time. */
  function Upserted<P>(table: map<string, Stored<P>>, key: string, p: P, now: int): (t: map<string, Stored<P>>)
    ensures t.Keys == table.Keys + {key}
    ensures t[key].params == p
    ensures t[key].createdAt == (if key in table then table[key].createdAt else now)
    ensures forall k :: k in table && k != key ==> t[k] == table[k]
  {
    table[key := Stored(p, if key in table then table[key].createdAt else now)]
  }

  /** The batch, one statement per parameter set, keyed by `keys`. */
  function UpsertAll<P>(table: map<string, Stored<P>>, keys: seq<string>, ps: seq<P>, now: int): (t: map<string, Stored<P>>)
    requires |keys| == |ps|
    ensures forall k :: k in table ==> k in t && t[k].createdAt == table[k].createdAt
    ensures forall i :: 0 <= i < |keys| ==> keys[i] in t
  {
    if ps == [] then table
    else Upserted(UpsertAll(table, keys[..|keys| - 1], ps[..|ps| - 1], now), keys[|keys| - 1], ps[|ps| - 1], now)
  }

  /** The keys of a list, as a set. */
  function KeySet(keys: seq<string>): set<string>
  {
    if keys == [] then {} else KeySet(keys[..|keys| - 1]) + {keys[|keys| - 1]}
  }

  lemma {:induction false} KeySetMeaning(keys: seq<string>)
    ensures forall k :: k in KeySet(keys) <==> k in keys
  {
    if keys != [] {
      var init := keys[..|keys| - 1];
      KeySetMeaning(init);
      assert keys == init + [keys[|keys| - 1]];
    }
  }

  /** After the batch the table holds the old keys plus every key of the
      batch; a key of the batch holds the last parameters given for it; a
      row already present keeps its creation time, and a row whose key is
      not in the batch is untouched. */
  lemma UpsertAllProps<P>(table: map<string, Stored<P>>, keys: seq<string>, ps: seq<P>, now: int)
    requires |keys| == |ps|
    ensures UpsertAll(table, keys, ps, now).Keys == table.Keys + KeySet(keys)
    ensures forall k :: k in table ==> UpsertAll(table, keys, ps, now)[k].createdAt == table[k].createdAt
    ensures forall k :: k in table && k !in keys ==> UpsertAll(table, keys, ps, now)[k] == table[k]
    ensures forall i :: 0 <= i < |keys| && keys[i] !in keys[i + 1..] ==>
      keys[i] in UpsertAll(table, keys, ps, now) && UpsertAll(table, keys, ps, now)[keys[i]].params == ps[i]
  {
    UpsertAllKeeps(table, keys, ps, now);
    UpsertAllLastWins(table, keys, ps, now);
  }

  /** The batch adds its keys, keeps every creation time and leaves the
      other rows alone. */
  lemma {:induction false} UpsertAllKeeps<P>(table: map<string, Stored<P>>, keys: seq<string>, ps: seq<P>, now: int)
    requires |keys| == |ps|
    ensures UpsertAll(table, keys, ps, now).Keys == table.Keys + KeySet(keys)
    ensures forall k :: k in table ==> UpsertAll(table, keys, ps, now)[k].createdAt == table[k].createdAt
    ensures forall k :: k in table && k !in keys ==> UpsertAll(table, keys, ps, now)[k] == table[k]
  {
    if ps != [] {
      var n := |ps| - 1;
      var ki := keys[..n];
      UpsertAllKeeps(table, ki, ps[..n], now);
      assert forall k :: (k in keys) == (k in ki || k == keys[n]) by {
        assert keys == ki + [keys[n]];
      }
    }
  }

  /** A key of the batch holds the parameters of its last occurrence. */
  lemma {:induction false} UpsertAllLastWins<P>(table: map<string, Stored<P>>, keys: seq<string>, ps: seq<P>, now: int)
    requires |keys| == |ps|
    ensures forall i :: 0 <= i < |keys| && keys[i] !in keys[i + 1..] ==>
      keys[i] in UpsertAll(table, keys, ps, now) && UpsertAll(table, keys, ps, now)[keys[i]].params == ps[i]
  {
    if ps != [] {
      var n := |ps| - 1;
      var ki := keys[..n];
      UpsertAllLastWins(table, ki, ps[..n], now);
      forall i | 0 <= i < |keys| && keys[i] !in keys[i + 1..]
        ensures keys[i] in UpsertAll(table, keys, ps, now) && UpsertAll(table, keys, ps, now)[keys[i]].params == ps[i]
      {
        if i < n {
          assert keys[i] != keys[n] by { assert keys[i + 1..][n - i - 1] == keys[n]; }
          assert ki[i + 1..] == keys[i + 1..n];
          assert ki[i] == keys[i];
          assert ps[..n][i] == ps[i];
        }
      }
    }
  }

  function MaterialKeys(ps: seq<MaterialParams>): (ks: seq<string>)
    ensures |ks| == |ps| && forall i :: 0 <= i < |ps| ==> ks[i] == ps[i].seedKey
  {
    seq(|ps|, i requires 0 <= i < |ps| => ps[i].seedKey)
  }

  function DjeKeys(ps: seq<DjeParams>): (ks: seq<string>)
    ensures |ks| == |ps| && forall i :: 0 <= i < |ps| ==> ks[i] == ps[i].seedKey
  {
    seq(|ps|, i requires 0 <= i < |ps| => ps[i].seedKey)
  }

  // ----- inserted / updated -----

  /** Keys of the list that are (not) among `existing`, counted one per row. */
  function CountIn(keys: seq<string>, existing: set<string>): nat
  {
    if keys == [] then 0
    else CountIn(keys[..|keys| - 1], existing) + (if keys[|keys| - 1] in existing then 1 else 0)
  }

  function CountOut(keys: seq<string>, existing: set<string>): nat
  {
    if keys == [] then 0
    else CountOut(keys[..|keys| - 1], existing) + (if keys[|keys| - 1] in existing then 0 else 1)
  }

  /** Every row is counted once, on one side. */
  lemma {:induction false} CountsAddUp(keys: seq<string>, existing: set<string>)
    ensures CountIn(keys, existing) + CountOut(keys, existing) == |keys|
    ensures (forall i :: 0 <= i < |keys| ==> keys[i] in existing) ==> CountIn(keys, existing) == |keys|
    ensures (forall i :: 0 <= i < |keys| ==> keys[i] !in existing) ==> CountOut(keys, existing) == |keys|
  {
    if keys != [] {
      CountsAddUp(keys[..|keys| - 1], existing);
    }
  }

  /** The counting loop as written: each row is classified against the set
      of keys loaded before the loop, so a key repeated within the batch is
      counted as inserted every time. An empty key raises. */
  method ClassifyAsWritten(keys: seq<string>, existing: set<string>) returns (r: Option<(nat, nat)>)
    ensures r.None? <==> exists i :: 0 <= i < |keys| && keys[i] == []
    ensures r.Some? ==> r.value == (CountOut(keys, existing), CountIn(keys, existing))
  {
    var inserted, updated := 0, 0;
    for i := 0 to |keys|
      invariant inserted == CountOut(keys[..i], existing) && updated == CountIn(keys[..i], existing)
      invariant forall j :: 0 <= j < i ==> keys[j] != []
    {
      assert keys[..i + 1][..i] == keys[..i];
      if keys[i] == [] {
        return None;
      }
      if keys[i] in existing {
        updated := updated + 1;
      } else {
        inserted := inserted + 1;
      }
    }
    assert keys[..|keys|] == keys;
    return Some((inserted, updated));
  }

  /** A batch that repeats a new key: the counter reports two inserts, but
      the table gains one row, since the second statement updates the row the
      first one created. */
  lemma DuplicateKeyOvercounts<P>(key: string, p: P, now: int)
    ensures CountOut([key, key], {}) == 2
    ensures |UpsertAll(map[], [key, key], [p, p], now).Keys| == 1
  {
    assert [key, key][..1] == [key];
    assert [key][..0] == [];
    assert [p, p][..1] == [p];
    assert [p][..0] == [];
    assert CountOut([key], {}) == 1;
    assert UpsertAll(map[], [key], [p], now).Keys == {key};
    assert UpsertAll(map[], [key, key], [p, p], now).Keys == {key};
  }

  /** The keys a batch adds to the table. */
  function NewKeys(keys: seq<string>, existing: set<string>): set<string>
  {
    KeySet(keys) - existing
  }

  /** One more row: a key not seen yet adds one new key, a seen one none. */
  lemma NewKeysStep(keys: seq<string>, existing: set<string>, i: int)
    requires 0 <= i < |keys|
    ensures keys[i] in existing + NewKeys(keys[..i], existing) ==>
      NewKeys(keys[..i + 1], existing) == NewKeys(keys[..i], existing)
    ensures keys[i] !in existing + NewKeys(keys[..i], existing) ==>
      NewKeys(keys[..i + 1], existing) == NewKeys(keys[..i], existing) + {keys[i]}
      && |NewKeys(keys[..i + 1], existing)| == |NewKeys(keys[..i], existing)| + 1
  {
    assert keys[..i + 1][..i] == keys[..i];
  }

  /** The counting loop with the evident intent: a key already counted in
      this batch counts as updated from then on. The inserted count is the
      number of keys the batch adds. */
  method Classify(keys: seq<string>, existing: set<string>) returns (r: Option<(nat, nat)>)
    ensures r.None? <==> exists i :: 0 <= i < |keys| && keys[i] == []
    ensures r.Some? ==> r.value.0 == |NewKeys(keys, existing)| && r.value.0 + r.value.1 == |keys|
  {
    var inserted, updated := 0, 0;
    var seen := existing;
    for i := 0 to |keys|
      invariant seen == existing + NewKeys(keys[..i], existing)
      invariant inserted == |NewKeys(keys[..i], existing)| && inserted + updated == i
      invariant forall j :: 0 <= j < i ==> |keys[j]| > 0
    {
      if keys[i] == [] {
        return None;
      }
      assert forall j :: 0 <= j < i + 1 ==> |keys[j]| > 0;
      NewKeysStep(keys, existing, i);
      if keys[i] in seen {
        updated := updated + 1;
      } else {
        inserted := inserted + 1;
        seen := seen + {keys[i]};
      }
    }
    assert keys[..|keys|] == keys;
    return Some((inserted, updated));
  }

  /** The corrected count is what the upsert adds: the table grows by
      exactly the inserted count. */
  lemma InsertedIsGrowth<P>(table: map<string, Stored<P>>, keys: seq<string>, ps: seq<P>, now: int)
    requires |keys| == |ps|
    ensures |UpsertAll(table, keys, ps, now).Keys| == |table.Keys| + |NewKeys(keys, table.Keys)|
  {
    UpsertAllProps(table, keys, ps, now);
    var a, b := table.Keys, NewKeys(keys, table.Keys);
    assert a + KeySet(keys) == a + b;
    assert a * b == {};
  }

  /** The inserted count as written is at least the table's growth, and
      equals it when no key repeats within the batch. */
  lemma {:induction false} AsWrittenCountsAtLeastGrowth(keys: seq<string>, existing: set<string>)
    ensures CountOut(keys, existing) >= |NewKeys(keys, existing)|
    ensures (forall i, j :: 0 <= i < j < |keys| ==> keys[i] != keys[j]) ==> CountOut(keys, existing) == |NewKeys(keys, existing)|
  {
    if keys != [] {
      var n := |keys| - 1;
      var init, k := keys[..n], keys[n];
      AsWrittenCountsAtLeastGrowth(init, existing);
      assert keys == init + [k];
      assert KeySet(keys) == KeySet(init) + {k};
      var a, b := NewKeys(init, existing), NewKeys(keys, existing);
      if k in existing || k in a {
        assert b == a;
      } else {
        assert b == a + {k};
      }
      if forall i, j :: 0 <= i < j < |keys| ==> keys[i] != keys[j] {
        assert forall i, j :: 0 <= i < j < |init| ==> init[i] != init[j];
        KeySetMeaning(init);
        assert k !in init by {
          forall i | 0 <= i < |init| ensures init[i] != k { assert init[i] == keys[i]; }
        }
      }
    }
  }

  // ----- the conflict target -----

  /** A unique index: its columns and, for a partial index, its predicate. */
  datatype UniqueIndex = UniqueIndex(name: string, columns: seq<string>, condition: Option<string>)

  /** `ON CONFLICT (columns) [WHERE predicate]`. */
  datatype ConflictTarget = ConflictTarget(columns: seq<string>, condition: Option<string>)

  const GlobalSeed: string := "(is_seed = true) AND (org_id IS NULL)"
  const OrgSeed: string := "(is_seed = true) AND (org_id IS NOT NULL)"

  /** The seed indexes of materials; dje_items has the same two. */
  const MaterialSeedIndexes: seq<UniqueIndex> := [
    UniqueIndex("ux_materials_seed_key_global_true", ["seed_key"], Some(GlobalSeed)),
    UniqueIndex("ux_materials_org_seed_key_seeded_true", ["org_id", "seed_key"], Some(OrgSeed))]

  const DjeSeedIndexes: seq<UniqueIndex> := [
    UniqueIndex("ux_dje_items_seed_key_global_true", ["seed_key"], Some(GlobalSeed)),
    UniqueIndex("ux_dje_items_org_seed_key_seeded_true", ["org_id", "seed_key"], Some(OrgSeed))]

  /** PostgreSQL's arbiter inference for ON CONFLICT (the INSERT reference
      page, "ON CONFLICT Clause"): a unique index is inferred when it has
      exactly the target's columns and is either not partial or covered by
      the predicate the target gives. Predicate implication is taken as
      equality. */
  ghost predicate Arbitrates(t: ConflictTarget, ix: UniqueIndex)
  {
    (forall c :: c in ix.columns <==> c in t.columns) && (ix.condition.None? || ix.condition == t.condition)
  }

  /** The indexes the target infers; none means the statement is refused. */
  ghost function Arbiters(t: ConflictTarget, ixs: seq<UniqueIndex>): (r: seq<UniqueIndex>)
    ensures forall ix :: ix in r <==> ix in ixs && Arbitrates(t, ix)
  {
    if ixs == [] then []
    else (if Arbitrates(t, ixs[0]) then [ixs[0]] else []) + Arbiters(t, ixs[1..])
  }

  /** The target as written: the seed_key column with no predicate. */
  const AsWrittenTarget: ConflictTarget := ConflictTarget(["seed_key"], None)

  /** The target the statement's comment means: the global seed index. */
  const IntendedTarget: ConflictTarget := ConflictTarget(["seed_key"], Some(GlobalSeed))

  /** As written, both seed indexes are partial and the target names no
      predicate, so no index is inferred and the upsert is refused. */
  lemma AsWrittenTargetInfersNothing()
    ensures Arbiters(AsWrittenTarget, MaterialSeedIndexes) == []
    ensures Arbiters(AsWrittenTarget, DjeSeedIndexes) == []
  {
    ArbitersOfTwo(AsWrittenTarget, MaterialSeedIndexes);
    ArbitersOfTwo(AsWrittenTarget, DjeSeedIndexes);
  }

  /** The arbiters of a two-index table, one index at a time. */
  lemma ArbitersOfTwo(t: ConflictTarget, ixs: seq<UniqueIndex>)
    requires |ixs| == 2
    ensures Arbiters(t, ixs) == (if Arbitrates(t, ixs[0]) then [ixs[0]] else []) + (if Arbitrates(t, ixs[1]) then [ixs[1]] else [])
  {
    assert ixs[1..][1..] == [];
    assert Arbiters(t, ixs[1..]) == (if Arbitrates(t, ixs[1]) then [ixs[1]] else []) + Arbiters(t, []);
  }

  /** With the global predicate the target infers exactly the global seed
      index, the one-row-per-key index Upserted relies on. */
  lemma IntendedTargetInfersGlobalIndex()
    ensures Arbiters(IntendedTarget, MaterialSeedIndexes) == [MaterialSeedIndexes[0]]
    ensures Arbiters(IntendedTarget, DjeSeedIndexes) == [DjeSeedIndexes[0]]
  {
    ArbitersOfTwo(IntendedTarget, MaterialSeedIndexes);
    ArbitersOfTwo(IntendedTarget, DjeSeedIndexes);
    assert "org_id" in MaterialSeedIndexes[1].columns && "org_id" !in IntendedTarget.columns;
    assert "org_id" in DjeSeedIndexes[1].columns;
  }

  // ----- the two imports -----

  /** A materials row whose parameter dict raises. */
  predicate MaterialRowRaises(row: MaterialSheetRow)
  {
    row.materialType.Empty? || row.itemDescription.Empty?
  }

  predicate DjeRowRaises(row: DjeSheetRow)
  {
    row.category.Empty? || row.description.Empty?
  }

  /** The parameter dicts of the rows in order, or the row loop's error. */
  function MaterialParamsList(rows: seq<MaterialSheetRow>, pack: string, version: int, now: int): (r: Result<seq<MaterialParams>, ImportError>)
    ensures r.Err? <==> exists i :: 0 <= i < |rows| && MaterialRowRaises(rows[i])
    ensures r.Err? ==> r.error == StripOnEmptyCell
    ensures r.Ok? ==> |r.value| == |rows|
    ensures r.Ok? ==> forall i :: 0 <= i < |rows| ==> Ok(r.value[i]) == MaterialParamsOf(rows[i], MaterialSeedKey(rows[i]), pack, version, now)
  {
    if rows == [] then Ok([])
    else
      var n := |rows| - 1;
      var init := MaterialParamsList(rows[..n], pack, version, now);
      var last := MaterialParamsOf(rows[n], MaterialSeedKey(rows[n]), pack, version, now);
      assert forall i :: 0 <= i < n ==> rows[..n][i] == rows[i];
      if init.Err? then Err(init.error)
      else if last.Err? then Err(last.error)
      else Ok(init.value + [last.value])
  }

  function DjeParamsList(rows: seq<DjeSheetRow>, pack: string, version: int, now: int): (r: Result<seq<DjeParams>, ImportError>)
    ensures r.Err? <==> exists i :: 0 <= i < |rows| && DjeRowRaises(rows[i])
    ensures r.Err? ==> r.error == StripOnEmptyCell
    ensures r.Ok? ==> |r.value| == |rows|
    ensures r.Ok? ==> forall i :: 0 <= i < |rows| ==> Ok(r.value[i]) == DjeParamsOf(rows[i], DjeSeedKey(rows[i]), pack, version, now)
  {
    if rows == [] then Ok([])
    else
      var n := |rows| - 1;
      var init := DjeParamsList(rows[..n], pack, version, now);
      var last := DjeParamsOf(rows[n], DjeSeedKey(rows[n]), pack, version, now);
      assert forall i :: 0 <= i < n ==> rows[..n][i] == rows[i];
      if init.Err? then Err(init.error)
      else if last.Err? then Err(last.error)
      else Ok(init.value + [last.value])
  }

  /** Every row reaches the loop with a key, so the "Missing seed_key"
      errors cannot be raised. */
  lemma SeedKeysNeverEmpty(rows: seq<MaterialSheetRow>, pack: string, version: int, now: int)
    requires MaterialParamsList(rows, pack, version, now).Ok?
    ensures forall i :: 0 <= i < |rows| ==> MaterialKeys(MaterialParamsList(rows, pack, version, now).value)[i] != []
  {
    forall i | 0 <= i < |rows|
      ensures MaterialKeys(MaterialParamsList(rows, pack, version, now).value)[i] != []
    {
      var row := rows[i];
      SeedKeyProps(row.seedKey, [row.materialType, row.itemDescription, row.manufacturer, row.sku]);
    }
  }

  lemma DjeSeedKeysNeverEmpty(rows: seq<DjeSheetRow>, pack: string, version: int, now: int)
    requires DjeParamsList(rows, pack, version, now).Ok?
    ensures forall i :: 0 <= i < |rows| ==> DjeKeys(DjeParamsList(rows, pack, version, now).value)[i] != []
  {
    forall i | 0 <= i < |rows|
      ensures DjeKeys(DjeParamsList(rows, pack, version, now).value)[i] != []
    {
      var row := rows[i];
      SeedKeyProps(row.seedKey, [row.category, row.description, row.vendor]);
    }
  }

  // ----- the system normalised unique indexes -----

  /** ux_materials_active_norm_system: an active global row is indexed by
      its type and description, trimmed of spaces and lower-cased; an
      inactive row, or one with a NULL in either part, is not indexed. */
  function MaterialSystemKey(p: MaterialParams): (k: Option<(string, string)>)
    ensures k.Some? <==> p.isActive && p.materialType.Some? && p.itemDescription.Some?
  {
    if p.isActive && p.materialType.Some? && p.itemDescription.Some? then
      Some((Lower(SqlTrim(p.materialType.value)), Lower(SqlTrim(p.itemDescription.value))))
    else None
  }

  /** ux_dje_active_norm_system: an active global row is indexed by its
      category, description and vendor, trimmed of spaces and lower-cased,
      a NULL vendor counting as "" (the NaN of an empty cell is taken as
      the text "NaN"). */
  function DjeSystemKey(p: DjeParams): (k: Option<(string, string, string)>)
    ensures k.Some? <==> p.isActive
  {
    if !p.isActive then None
    else
      var vendor := match p.vendor
        case Null => ""
        case NaN => Lower("NaN")
        case Str(v) => Lower(SqlTrim(v));
      Some((Lower(SqlTrim(p.category)), Lower(SqlTrim(p.description)), vendor))
  }

  /** A unique index over a table: no two rows in the index share an entry. */
  predicate Unique<P, K(==)>(table: map<string, Stored<P>>, key: P -> Option<K>)
  {
    forall a, b :: a in table && b in table && a != b && key(table[a].params).Some? ==>
      key(table[a].params) != key(table[b].params)
  }

  /** The batch under a unique index PostgreSQL checks row by row: each
      parameter set is written in turn, and the first row whose entry
      clashes fails the statement (None). */
  function UpsertChecked<P, K(==)>(table: map<string, Stored<P>>, keys: seq<string>, ps: seq<P>, now: int, key: P -> Option<K>): Option<map<string, Stored<P>>>
    requires |keys| == |ps|
  {
    if ps == [] then Some(table)
    else
      var m := UpsertChecked(table, keys[..|keys| - 1], ps[..|ps| - 1], now, key);
      if m.None? then None
      else
        var t := Upserted(m.value, keys[|keys| - 1], ps[|ps| - 1], now);
        if Unique(t, key) then Some(t) else None
  }

  /** A batch the index admits leaves the table the unchecked batch leaves,
      and the index still holds. */
  lemma {:induction false} UpsertCheckedProps<P, K>(table: map<string, Stored<P>>, keys: seq<string>, ps: seq<P>, now: int, key: P -> Option<K>)
    requires |keys| == |ps| && Unique(table, key)
    ensures var c := UpsertChecked(table, keys, ps, now, key);
      c.Some? ==> c.value == UpsertAll(table, keys, ps, now) && Unique(c.value, key)
  {
    if ps != [] {
      UpsertCheckedProps(table, keys[..|keys| - 1], ps[..|ps| - 1], now, key);
    }
  }

  /** One more row of the batch: the prefix's table with that row
      upserted, when the index still holds. */
  lemma UpsertCheckedStep<P, K>(table: map<string, Stored<P>>, keys: seq<string>, ps: seq<P>, now: int, key: P -> Option<K>, i: nat, cur: map<string, Stored<P>>)
    requires |keys| == |ps| && i < |ps|
    requires UpsertChecked(table, keys[..i], ps[..i], now, key) == Some(cur)
    ensures var t := Upserted(cur, keys[i], ps[i], now);
      UpsertChecked(table, keys[..i + 1], ps[..i + 1], now, key) == (if Unique(t, key) then Some(t) else None)
  {
    assert keys[..i + 1][..i] == keys[..i] && ps[..i + 1][..i] == ps[..i];
  }

  /** Once a prefix of the batch fails, the whole batch fails. */
  lemma {:induction false} UpsertCheckedFailStays<P, K>(table: map<string, Stored<P>>, keys: seq<string>, ps: seq<P>, now: int, key: P -> Option<K>, n: nat)
    requires |keys| == |ps| && n <= |ps|
    requires UpsertChecked(table, keys[..n], ps[..n], now, key).None?
    ensures UpsertChecked(table, keys, ps, now, key).None?
  {
    if n == |ps| {
      assert keys[..n] == keys && ps[..n] == ps;
    } else {
      var ki, pi := keys[..|keys| - 1], ps[..|ps| - 1];
      assert ki[..n] == keys[..n] && pi[..n] == ps[..n];
      UpsertCheckedFailStays(table, ki, pi, now, key, n);
    }
  }

  /** The first row of a batch written into an empty table is admitted,
      and a second row with another seed key and the same index entry is
      refused. */
  lemma SecondEntryRefused<P, K>(k1: string, k2: string, p1: P, p2: P, now: int, key: P -> Option<K>)
    requires k1 != k2 && key(p1).Some? && key(p1) == key(p2)
    ensures UpsertChecked(map[], [k1], [p1], now, key).Some?
    ensures UpsertChecked(map[], [k1, k2], [p1, p2], now, key).None?
  {
    var empty: map<string, Stored<P>> := map[];
    assert [k1][..0] == [] && [p1][..0] == [];
    var t1 := Upserted(empty, k1, p1, now);
    assert t1.Keys == {k1};
    assert UpsertChecked(empty, [k1], [p1], now, key) == Some(t1);
    assert [k1, k2][..1] == [k1] && [p1, p2][..1] == [p1];
    var t2 := Upserted(t1, k2, p2, now);
    assert t2[k1].params == p1 && t2[k2].params == p2;
    assert !Unique(t2, key);
  }

  /** Two active materials rows of one type and description, differing
      only in manufacturer or sku, cannot both be seeded: the second fails
      the system normalised index. */
  lemma SameMaterialTwiceRefused(k1: string, k2: string, p1: MaterialParams, p2: MaterialParams, now: int)
    requires k1 != k2 && p1.isActive && p2.isActive
    requires p1.materialType.Some? && p1.itemDescription.Some?
    requires p1.materialType == p2.materialType && p1.itemDescription == p2.itemDescription
    ensures UpsertChecked(map[], [k1, k2], [p1, p2], now, MaterialSystemKey).None?
  {
    SecondEntryRefused(k1, k2, p1, p2, now, MaterialSystemKey);
  }

  /** Two active DJE rows of one category, description and vendor cannot
      both be seeded. */
  lemma SameDjeItemTwiceRefused(k1: string, k2: string, p1: DjeParams, p2: DjeParams, now: int)
    requires k1 != k2 && p1.isActive && p2.isActive
    requires p1.category == p2.category && p1.description == p2.description && p1.vendor == p2.vendor
    ensures UpsertChecked(map[], [k1, k2], [p1, p2], now, DjeSystemKey).None?
  {
    SecondEntryRefused(k1, k2, p1, p2, now, DjeSystemKey);
  }

  /** The store of global seed rows of both tables. */
  class SeedStore {
    var materials: map<string, Stored<MaterialParams>>
    var dje: map<string, Stored<DjeParams>>

    /** The system normalised unique indexes hold on both tables. */
    predicate Valid()
      reads this
    {
      Unique(materials, MaterialSystemKey) && Unique(dje, DjeSystemKey)
    }

    constructor (materials0: map<string, Stored<MaterialParams>>, dje0: map<string, Stored<DjeParams>>)
      requires Unique(materials0, MaterialSystemKey) && Unique(dje0, DjeSystemKey)
      ensures Valid()
      ensures materials == materials0 && dje == dje0
    {
      materials := materials0;
      dje := dje0;
    }

    /** The materials statement, executed for each parameter set in turn in
        one transaction: a row that clashes in the system index raises and
        the transaction rolls back. */
    method UpsertMaterials(ps: seq<MaterialParams>, now: int) returns (ok: bool)
      requires Valid()
      modifies this`materials
      ensures Valid()
      ensures var c := UpsertChecked(old(materials), MaterialKeys(ps), ps, now, MaterialSystemKey);
        ok == c.Some? && materials == (if ok then c.value else old(materials))
    {
      var keys := MaterialKeys(ps);
      var start := materials;
      ok := true;
      var i := 0;
      while i < |ps| && ok
        invariant 0 <= i <= |ps|
        invariant ok ==> UpsertChecked(start, keys[..i], ps[..i], now, MaterialSystemKey) == Some(materials)
        invariant !ok ==> UpsertChecked(start, keys, ps, now, MaterialSystemKey).None?
      {
        UpsertCheckedStep(start, keys, ps, now, MaterialSystemKey, i, materials);
        var next := Upserted(materials, keys[i], ps[i], now);
        if Unique(next, MaterialSystemKey) {
          materials := next;
        } else {
          ok := false;
          UpsertCheckedFailStays(start, keys, ps, now, MaterialSystemKey, i + 1);
        }
        i := i + 1;
      }
      if ok {
        assert ps[..|ps|] == ps && keys[..|ps|] == keys;
        UpsertCheckedProps(start, keys, ps, now, MaterialSystemKey);
      } else {
        materials := start;
      }
    }

    /** The DJE statement, executed in the same way. */
    method UpsertDje(ps: seq<DjeParams>, now: int) returns (ok: bool)
      requires Valid()
      modifies this`dje
      ensures Valid()
      ensures var c := UpsertChecked(old(dje), DjeKeys(ps), ps, now, DjeSystemKey);
        ok == c.Some? && dje == (if ok then c.value else old(dje))
    {
      var keys := DjeKeys(ps);
      var start := dje;
      ok := true;
      var i := 0;
      while i < |ps| && ok
        invariant 0 <= i <= |ps|
        invariant ok ==> UpsertChecked(start, keys[..i], ps[..i], now, DjeSystemKey) == Some(dje)
        invariant !ok ==> UpsertChecked(start, keys, ps, now, DjeSystemKey).None?
      {
        UpsertCheckedStep(start, keys, ps, now, DjeSystemKey, i, dje);
        var next := Upserted(dje, keys[i], ps[i], now);
        if Unique(next, DjeSystemKey) {
          dje := next;
        } else {
          ok := false;
          UpsertCheckedFailStays(start, keys, ps, now, DjeSystemKey, i + 1);
        }
        i := i + 1;
      }
      if ok {
        assert ps[..|ps|] == ps && keys[..|ps|] == keys;
        UpsertCheckedProps(start, keys, ps, now, DjeSystemKey);
      } else {
        dje := start;
      }
    }

    /** import_materials_starter_pack: a workbook without an is_active
        column raises at the coercions, a bad unit size raises with that
        row's seed key, and an empty type or description cell raises in the
        row loop, each before anything is written; otherwise every row is
        upserted and the loop's counts are returned (a key repeated in the
        batch counts as inserted each time, see ClassifyAsWritten). */
    method ImportMaterialsStarterPack(rows: seq<MaterialSheetRow>, hasIsActive: bool, pack: string, version: int, now: int)
      returns (r: Result<(nat, nat), ImportError>)
      requires Valid()
      modifies this`materials
      ensures Valid()
      ensures r.Err? ==> materials == old(materials)
      ensures !hasIsActive ==> r == Err(NoIsActiveColumn)
      ensures hasIsActive && FirstInvalidUnit(rows).Some? ==>
        r == Err(InvalidUnitSize(MaterialSeedKey(rows[FirstInvalidUnit(rows).value])))
      ensures hasIsActive && FirstInvalidUnit(rows).None? && (exists i :: 0 <= i < |rows| && MaterialRowRaises(rows[i])) ==>
        r == Err(StripOnEmptyCell)
      ensures hasIsActive && FirstInvalidUnit(rows).None? && MaterialParamsList(rows, pack, version, now).Ok? ==> (
        var ps := MaterialParamsList(rows, pack, version, now).value;
        var c := UpsertChecked(old(materials), MaterialKeys(ps), ps, now, MaterialSystemKey);
        && (c.None? ==> r == Err(UniqueViolation))
        && (c.Some? ==> (
          && r.Ok?
          && materials == UpsertAll(old(materials), MaterialKeys(ps), ps, now)
          && r.value == (CountOut(MaterialKeys(ps), old(materials).Keys), CountIn(MaterialKeys(ps), old(materials).Keys))
          && r.value.0 + r.value.1 == |rows|)))
    {
      if !hasIsActive {
        return Err(NoIsActiveColumn);
      }
      var bad := FirstInvalidUnit(rows);
      if bad.Some? {
        return Err(InvalidUnitSize(MaterialSeedKey(rows[bad.value])));
      }
      var pl := MaterialParamsList(rows, pack, version, now);
      if pl.Err? {
        return Err(pl.error);
      }
      var ps := pl.value;
      SeedKeysNeverEmpty(rows, pack, version, now);
      CountsAddUp(MaterialKeys(ps), materials.Keys);
      var counts := ClassifyAsWritten(MaterialKeys(ps), materials.Keys);
      ghost var start := materials;
      var ok := UpsertMaterials(ps, now);
      if !ok {
        return Err(UniqueViolation);
      }
      UpsertCheckedProps(start, MaterialKeys(ps), ps, now, MaterialSystemKey);
      return Ok(counts.value);
    }

    /** import_dje_starter_pack: a workbook without an is_active column
        raises, and so does an empty category or description cell, before
        anything is written; otherwise every row is upserted on its seed key
        and the loop's counts are returned. */
    method ImportDjeStarterPack(rows: seq<DjeSheetRow>, hasIsActive: bool, pack: string, version: int, now: int)
      returns (r: Result<(nat, nat), ImportError>)
      requires Valid()
      modifies this`dje
      ensures Valid()
      ensures r.Err? ==> dje == old(dje)
      ensures !hasIsActive ==> r == Err(NoIsActiveColumn)
      ensures hasIsActive && (exists i :: 0 <= i < |rows| && DjeRowRaises(rows[i])) ==> r == Err(StripOnEmptyCell)
      ensures hasIsActive && DjeParamsList(rows, pack, version, now).Ok? ==> (
        var ps := DjeParamsList(rows, pack, version, now).value;
        var c := UpsertChecked(old(dje), DjeKeys(ps), ps, now, DjeSystemKey);
        && (c.None? ==> r == Err(UniqueViolation))
        && (c.Some? ==> (
          && r.Ok?
          && dje == UpsertAll(old(dje), DjeKeys(ps), ps, now)
          && r.value == (CountOut(DjeKeys(ps), old(dje).Keys), CountIn(DjeKeys(ps), old(dje).Keys))
          && r.value.0 + r.value.1 == |rows|)))
    {
      if !hasIsActive {
        return Err(NoIsActiveColumn);
      }
      var pl := DjeParamsList(rows, pack, version, now);
      if pl.Err? {
        return Err(pl.error);
      }
      var ps := pl.value;
      DjeSeedKeysNeverEmpty(rows, pack, version, now);
      CountsAddUp(DjeKeys(ps), dje.Keys);
      var counts := ClassifyAsWritten(DjeKeys(ps), dje.Keys);
      ghost var start := dje;
      var ok := UpsertDje(ps, now);
      if !ok {
        return Err(UniqueViolation);
      }
      UpsertCheckedProps(start, DjeKeys(ps), ps, now, DjeSystemKey);
      return Ok(counts.value);
    }
  }
}
