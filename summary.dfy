// The Summary page script (app/static/js/summary.js): the one-time move of
// fast-mode data into a saved estimate's namespace, the margin-to-markup
// table, the overhead dropdown rule, the Step C price build-up and the
// fast-mode reset.
//
// Numbers are reals; toFixed, Intl currency formatting and formatDays are
// presentation and are not modelled. DOM cells are read as the values the
// script parses out of them, and the clock is a parameter.
module Summary {
  import opened Wrappers
  import opened Text
  import opened NumParse
  import opened Storage
  import Keys
  import Calculations

  // ----- FAST -> EID migration -----

  /** JavaScript truthiness of a getItem result: null and "" are falsy. */
  predicate Truthy(v: Option<string>)
  {
    v.Some? && v.value != ""
  }

  /** The storage after migrateFastToEidOnce: without an eid nothing
      changes; otherwise each fast value is copied to its eid key when the
      eid key is empty and the fast value is not. All four reads happen
      before either write. */
  function MigrateResult(es: seq<Entry>, eid: Option<string>): seq<Entry>
  {
    if !Keys.HasEid(eid) then es
    else
      var k := Keys.KeysFor(eid);
      var f := Keys.KeysFor(None);
      var eidTotals, eidEd := Lookup(es, k.totalsKey), Lookup(es, k.estimateDataKey);
      var fastTotals, fastEd := Lookup(es, f.totalsKey), Lookup(es, f.estimateDataKey);
      var es1 := PutIf(es, !Truthy(eidTotals) && Truthy(fastTotals), k.totalsKey, fastTotals.GetOr(""));
      PutIf(es1, !Truthy(eidEd) && Truthy(fastEd), k.estimateDataKey, fastEd.GetOr(""))
  }

  /** A setItem made only when `c` holds. */
  function PutIf(es: seq<Entry>, c: bool, k: string, v: string): seq<Entry>
  {
    if c then Put(es, k, v) else es
  }

  /** migrateFastToEidOnce() */
  method MigrateFastToEidOnce(ls: LocalStorage, eid: Option<string>)
    requires ls.Valid()
    modifies ls
    ensures ls.Valid()
    ensures ls.items == MigrateResult(old(ls.items), eid)
  {
    if !Keys.HasEid(eid) {
      return;
    }
    var k := Keys.KeysFor(eid);
    var f := Keys.KeysFor(None);
    var eidTotals := ls.GetItem(k.totalsKey);
    var eidEd := ls.GetItem(k.estimateDataKey);
    var fastTotals := ls.GetItem(f.totalsKey);
    var fastEd := ls.GetItem(f.estimateDataKey);
    if !Truthy(eidTotals) && Truthy(fastTotals) {
      ls.SetItem(k.totalsKey, fastTotals.value);
    }
    if !Truthy(eidEd) && Truthy(fastEd) {
      ls.SetItem(k.estimateDataKey, fastEd.value);
    }
  }

  /** The migration never overwrites: a key holding a non-empty value keeps
      it, a key other than the two eid keys keeps whatever it held, and a
      fast value that was present is afterwards readable under its eid key.
      Without an eid the storage is untouched. */
  lemma MigrateNeverOverwrites(es: seq<Entry>, eid: Option<string>, j: string)
    ensures !Keys.HasEid(eid) ==> MigrateResult(es, eid) == es
    ensures Truthy(Lookup(es, j)) ==> Lookup(MigrateResult(es, eid), j) == Lookup(es, j)
    ensures Keys.HasEid(eid) && j != Keys.KeysFor(eid).totalsKey && j != Keys.KeysFor(eid).estimateDataKey
            ==> Lookup(MigrateResult(es, eid), j) == Lookup(es, j)
    ensures Keys.HasEid(eid) && Truthy(Lookup(es, Keys.KeysFor(None).totalsKey))
            ==> Truthy(Lookup(MigrateResult(es, eid), Keys.KeysFor(eid).totalsKey))
    ensures Keys.HasEid(eid) && Truthy(Lookup(es, Keys.KeysFor(None).estimateDataKey))
            ==> Truthy(Lookup(MigrateResult(es, eid), Keys.KeysFor(eid).estimateDataKey))
  {
    if Keys.HasEid(eid) {
      var k := Keys.KeysFor(eid);
      var f := Keys.KeysFor(None);
      var fastTotals, fastEd := Lookup(es, f.totalsKey), Lookup(es, f.estimateDataKey);
      var c1 := !Truthy(Lookup(es, k.totalsKey)) && Truthy(fastTotals);
      var c2 := !Truthy(Lookup(es, k.estimateDataKey)) && Truthy(fastEd);
      var es1 := PutIf(es, c1, k.totalsKey, fastTotals.GetOr(""));
      assert k.totalsKey != k.estimateDataKey by {
        assert k.totalsKey[|k.totalsKey| - 1] == 's';
        assert k.estimateDataKey[|k.estimateDataKey| - 1] == 'a';
      }
      LookupPutIf(es, c1, k.totalsKey, fastTotals.GetOr(""), j);
      LookupPutIf(es, c1, k.totalsKey, fastTotals.GetOr(""), k.totalsKey);
      LookupPutIf(es, c1, k.totalsKey, fastTotals.GetOr(""), k.estimateDataKey);
      LookupPutIf(es1, c2, k.estimateDataKey, fastEd.GetOr(""), j);
      LookupPutIf(es1, c2, k.estimateDataKey, fastEd.GetOr(""), k.totalsKey);
      LookupPutIf(es1, c2, k.estimateDataKey, fastEd.GetOr(""), k.estimateDataKey);
    }
  }

  lemma LookupPutIf(es: seq<Entry>, c: bool, k: string, v: string, x: string)
    ensures Lookup(PutIf(es, c, k, v), x) == if c && x == k then Some(v) else Lookup(es, x)
  {
    if c {
      LookupPut(es, k, v, x);
    }
  }

  // ----- margin -> markup -----

  /** The margins the table defines: 1 to 25, 30, 40, 50 and 100. */
  predicate InTable(margin: int)
  {
    (1 <= margin <= 25) || margin == 30 || margin == 40 || margin == 50 || margin == 100
  }

  /** The table as the script builds it: 1 / (1 - m/100) for the listed
      margins below 100, and 200.0 for 100. `?? 1` gives 1 for any other
      margin. */
  function MarkupAsWritten(margin: int): (k: real)
    ensures k >= 1.0
  {
    if margin == 100 then 200.0
    else if InTable(margin) then
      Calculations.ReciprocalAtLeastOne(1.0 - margin as real / 100.0);
      1.0 / (1.0 - margin as real / 100.0)
    else 1.0
  }

  /** The table with the 100% entry set to the guard-rail multiplier 2.0
      that the server's margin_to_markup uses. */
  function Markup(margin: int): (k: real)
    ensures k >= 1.0
  {
    if margin == 100 then 2.0
    else if InTable(margin) then
      Calculations.ReciprocalAtLeastOne(1.0 - margin as real / 100.0);
      1.0 / (1.0 - margin as real / 100.0)
    else 1.0
  }

  /** On every margin of the table the corrected multiplier is the
      server's; outside the table it is 1. */
  lemma MarkupMatchesServer(margin: int)
    ensures InTable(margin) ==> Markup(margin) == Calculations.MarginToMarkup(Some(margin as real))
    ensures !InTable(margin) ==> Markup(margin) == 1.0 && MarkupAsWritten(margin) == 1.0
    ensures margin != 100 ==> MarkupAsWritten(margin) == Markup(margin)
  {
  }

  /** As written, a 100% margin multiplies the break-even cost by 200,
      a hundred times what the server charges for the same margin. */
  lemma HundredPercentMarginAsWritten(breakEven: real)
    requires breakEven > 0.0
    ensures SalesPriceAt(breakEven, MarkupAsWritten(100)) == 200.0 * breakEven
    ensures Calculations.EstimatedSalesPrice(Some(breakEven), Some(100.0)) == 2.0 * breakEven
    ensures SalesPriceAt(breakEven, MarkupAsWritten(100))
            == 100.0 * Calculations.EstimatedSalesPrice(Some(breakEven), Some(100.0))
    ensures SalesPriceAt(breakEven, Markup(100)) == Calculations.EstimatedSalesPrice(Some(breakEven), Some(100.0))
  {
  }

  /** profitValue = breakEven * (k - 1) and the price is breakEven plus it. */
  function SalesPriceAt(breakEven: real, markup: real): real
  {
    breakEven + breakEven * (markup - 1.0)
  }

  // ----- percentages and the overhead dropdown -----

  /** normalizePercent(value, fallback): parseInt(value, 10) when it is a
      number that is not negative, else the fallback. A missing value
      parses as NaN. */
  function NormalizePercent(value: Option<string>, fallback: int): (r: int)
    ensures value.Some? && JsParseInt(value.value).Some? && JsParseInt(value.value).value >= 0
            ==> r == JsParseInt(value.value).value
    ensures !(value.Some? && JsParseInt(value.value).Some? && JsParseInt(value.value).value >= 0)
            ==> r == fallback
  {
    if value.None? then fallback
    else match JsParseInt(value.value)
      case Some(n) => if n >= 0 then n else fallback
      case None => fallback
  }

  /** A plain digit string normalizes to its value. */
  lemma NormalizePercentOfDigits(s: string, fallback: int)
    requires AllDigits(s) && s != []
    ensures NormalizePercent(Some(s), fallback) == DigitsValue(s)
  {
    ParseIntOfDigits(s);
  }

  /** `parseInt(select.value) || 0`: NaN and 0 both give 0. */
  function SelectPercent(value: string): (r: int)
    ensures JsParseInt(value).Some? ==> r == JsParseInt(value).value
    ensures JsParseInt(value).None? ==> r == 0
  {
    match JsParseInt(value)
      case Some(n) => n
      case None => 0
  }

  /** The overhead percentages the dropdown offers. */
  predicate AllowedOverhead(p: int)
  {
    p == 10 || p == 15 || p == 20 || p == 25 || p == 30 || p == 35 || p == 40
  }

  /** On load: the stored overhead is normalized with fallback 30 and saved
      back; the dropdown shows it when it is one of the offered values and
      30 otherwise. (The dropdown tests the decimal string of the number,
      which is the same as testing the number.) */
  function OverheadOnLoad(stored: Option<string>): (r: (int, int))
  {
    var persisted := NormalizePercent(stored, 30);
    (persisted, if AllowedOverhead(persisted) then persisted else 30)
  }

  /** On change: the selected text normalized with fallback 30, and 30 in
      place of anything not offered. */
  function OverheadOnChange(selected: string): (p: int)
  {
    var pct := NormalizePercent(Some(selected), 30);
    if AllowedOverhead(pct) then pct else 30
  }

  /** The dropdown always shows, and a change always stores, an offered
      value; an offered value comes through unchanged. On load the saved
      value is not clamped: a stored 12 stays 12 in storage while the
      dropdown shows 30. */
  lemma OverheadClamp(stored: Option<string>, selected: string)
    ensures AllowedOverhead(OverheadOnLoad(stored).1)
    ensures AllowedOverhead(OverheadOnChange(selected))
    ensures OverheadOnLoad(stored).0 >= 0
    ensures AllowedOverhead(OverheadOnLoad(stored).0) ==> OverheadOnLoad(stored).1 == OverheadOnLoad(stored).0
    ensures AllDigits(selected) && selected != [] && AllowedOverhead(DigitsValue(selected))
            ==> OverheadOnChange(selected) == DigitsValue(selected)
  {
    if AllDigits(selected) && selected != [] {
      NormalizePercentOfDigits(selected, 30);
    }
  }

  /** A stored overhead that is not offered is kept in storage while the
      dropdown shows 30. */
  lemma OverheadStoredUnclamped(s: string)
    requires AllDigits(s) && s != [] && !AllowedOverhead(DigitsValue(s))
    ensures OverheadOnLoad(Some(s)) == (DigitsValue(s), 30)
  {
    NormalizePercentOfDigits(s, 30);
  }

  // ----- Step C -----

  datatype StepC = StepC(
    misc: real,
    smallTools: real,
    largeTools: real,
    wasteTheft: real,
    taxable: real,
    salesTax: real,
    totalMaterial: real,
    primeCost: real,
    overheadCost: real,
    breakEven: real,
    markup: real,
    profit: real,
    salesPrice: real,
    finalHours: real,
    oneManDays: real,
    twoManDays: real,
    fourManDays: real)

  /** The overhead percent: the saved number when there is one, else the
      dropdown's `parseInt(value, 10) || 30`. */
  function OverheadPercent(saved: Option<int>, selectValue: string): (r: int)
    ensures saved.Some? ==> r == saved.value
    ensures saved.None? ==> r != 0
  {
    if saved.Some? then saved.value
    else match JsParseInt(selectValue)
      case Some(n) => if n != 0 then n else 30
      case None => 30
  }

  /** With nothing saved, step C uses the percent the dropdown holds, which
      is the value its change handler stores when that value is offered. */
  lemma OverheadPercentFromDropdown(selectValue: string)
    requires AllDigits(selectValue) && selectValue != [] && AllowedOverhead(DigitsValue(selectValue))
    ensures OverheadPercent(None, selectValue) == DigitsValue(selectValue)
    ensures OverheadPercent(None, selectValue) == OverheadOnChange(selectValue)
  {
    ParseIntOfDigits(selectValue);
    NormalizePercentOfDigits(selectValue, 30);
  }

  /** updateStepCMaterialSummary: the four adders on the material base,
      tax on the taxable amount, the prime cost, overhead, break-even,
      markup, profit and price, and the crew-day views of the final hours. */
  function UpdateStepC(
    base: real, misc: int, small: int, large: int, waste: int, tax: int,
    laborCost: real, dje: real, overheadPercent: int, margin: int,
    estimated: real, adjusted: real, additional: real): (s: StepC)
    ensures s.markup >= 1.0
    ensures s.salesPrice == s.breakEven * s.markup
    ensures s.breakEven >= 0.0 ==> s.salesPrice >= s.breakEven && s.profit >= 0.0
    ensures s.twoManDays * 2.0 == s.oneManDays && s.oneManDays * 8.0 == s.finalHours
  {
    var miscV := (misc as real / 100.0) * base;
    var smallV := (small as real / 100.0) * base;
    var largeV := (large as real / 100.0) * base;
    var wasteV := (waste as real / 100.0) * base;
    var taxable := base + miscV + smallV + largeV + wasteV;
    var salesTax := (tax as real / 100.0) * taxable;
    var totalMaterial := taxable + salesTax;
    var prime := laborCost + totalMaterial + dje;
    var overhead := (overheadPercent as real / 100.0) * prime;
    var breakEven := prime + overhead;
    var k := MarkupAsWritten(margin);
    var profit := breakEven * (k - 1.0);
    var finalHours := estimated + adjusted + additional;
    var oneMan := finalHours / 8.0;
    var twoMan := oneMan / 2.0;
    StepC(miscV, smallV, largeV, wasteV, taxable, salesTax, totalMaterial,
          prime, overhead, breakEven, k, profit, breakEven + profit,
          finalHours, oneMan, twoMan, twoMan / 2.0)
  }

  /** The page builds the same prices as the server: its material section
      is material_adders, its overhead is overhead_value, and on a margin
      of the table below 100 its price is estimated_sales_price of the
      break-even; at 100 the script's table entry makes it a hundred times
      that.
      A two-man crew takes half and a four-man crew a quarter of the
      one-man days, which are the final hours over 8. */
  lemma StepCMatchesServer(
    base: real, misc: int, small: int, large: int, waste: int, tax: int,
    laborCost: real, dje: real, overheadPercent: int, margin: int,
    estimated: real, adjusted: real, additional: real)
    ensures var s := UpdateStepC(base, misc, small, large, waste, tax, laborCost, dje,
                                 overheadPercent, margin, estimated, adjusted, additional);
      var a := Calculations.MaterialAdders(Some(base), Some(misc as real), Some(small as real),
                                           Some(large as real), Some(waste as real), Some(tax as real));
      && s.misc == a.misc && s.smallTools == a.smallTools && s.largeTools == a.largeTools
      && s.wasteTheft == a.wasteTheft && s.taxable == a.taxable && s.salesTax == a.salesTax
      && s.totalMaterial == a.totalMaterial
      && s.primeCost == laborCost + a.totalMaterial + dje
      && s.overheadCost == Calculations.OverheadValue(Some(s.primeCost), Some(overheadPercent as real))
      && s.breakEven == s.primeCost + s.overheadCost
      && s.salesPrice == s.breakEven * s.markup
      && (InTable(margin) && margin != 100 ==> s.salesPrice == Calculations.EstimatedSalesPrice(Some(s.breakEven), Some(margin as real)))
      && (margin == 100 ==> s.salesPrice == 100.0 * Calculations.EstimatedSalesPrice(Some(s.breakEven), Some(margin as real)))
      && s.finalHours == estimated + adjusted + additional
      && s.oneManDays * 8.0 == s.finalHours
      && s.twoManDays * 2.0 == s.oneManDays && s.fourManDays * 4.0 == s.oneManDays
  {
    StepCMaterialMatches(base, misc, small, large, waste, tax, laborCost, dje,
                         overheadPercent, margin, estimated, adjusted, additional);
    StepCPriceMatches(base, misc, small, large, waste, tax, laborCost, dje,
                      overheadPercent, margin, estimated, adjusted, additional);
  }

  /** The material section of the page is material_adders. */
  lemma StepCMaterialMatches(
    base: real, misc: int, small: int, large: int, waste: int, tax: int,
    laborCost: real, dje: real, overheadPercent: int, margin: int,
    estimated: real, adjusted: real, additional: real)
    ensures var s := UpdateStepC(base, misc, small, large, waste, tax, laborCost, dje,
                                 overheadPercent, margin, estimated, adjusted, additional);
      var a := Calculations.MaterialAdders(Some(base), Some(misc as real), Some(small as real),
                                           Some(large as real), Some(waste as real), Some(tax as real));
      && s.misc == a.misc && s.smallTools == a.smallTools && s.largeTools == a.largeTools
      && s.wasteTheft == a.wasteTheft && s.taxable == a.taxable && s.salesTax == a.salesTax
      && s.totalMaterial == a.totalMaterial
  {
    var s := UpdateStepC(base, misc, small, large, waste, tax, laborCost, dje,
                         overheadPercent, margin, estimated, adjusted, additional);
    PercentCommutes(base, misc as real);
    PercentCommutes(base, small as real);
    PercentCommutes(base, large as real);
    PercentCommutes(base, waste as real);
    PercentCommutes(s.taxable, tax as real);
  }

  /** The page writes `(pct / 100) * amount`, the server `amount * (pct / 100)`. */
  lemma PercentCommutes(amount: real, pct: real)
    ensures (pct / 100.0) * amount == Calculations.Percent(amount, pct)
  {
  }

  /** Overhead, break-even and price are the server's, and the crew days
      divide the final hours. */
  lemma StepCPriceMatches(
    base: real, misc: int, small: int, large: int, waste: int, tax: int,
    laborCost: real, dje: real, overheadPercent: int, margin: int,
    estimated: real, adjusted: real, additional: real)
    ensures var s := UpdateStepC(base, misc, small, large, waste, tax, laborCost, dje,
                                 overheadPercent, margin, estimated, adjusted, additional);
      && s.primeCost == laborCost + s.totalMaterial + dje
      && s.overheadCost == Calculations.OverheadValue(Some(s.primeCost), Some(overheadPercent as real))
      && s.breakEven == s.primeCost + s.overheadCost
      && s.salesPrice == s.breakEven * s.markup
      && (InTable(margin) && margin != 100 ==> s.salesPrice == Calculations.EstimatedSalesPrice(Some(s.breakEven), Some(margin as real)))
      && (margin == 100 ==> s.salesPrice == 100.0 * Calculations.EstimatedSalesPrice(Some(s.breakEven), Some(margin as real)))
      && s.finalHours == estimated + adjusted + additional
      && s.oneManDays * 8.0 == s.finalHours
      && s.twoManDays * 2.0 == s.oneManDays && s.fourManDays * 4.0 == s.oneManDays
  {
    MarkupMatchesServer(margin);
  }

  /** With non-negative inputs and percentages, every amount is at least
      the one it is built from and the price is at least the break-even. */
  lemma StepCMonotone(
    base: real, misc: int, small: int, large: int, waste: int, tax: int,
    laborCost: real, dje: real, overheadPercent: int, margin: int,
    estimated: real, adjusted: real, additional: real)
    requires base >= 0.0 && misc >= 0 && small >= 0 && large >= 0 && waste >= 0 && tax >= 0
    requires laborCost >= 0.0 && dje >= 0.0 && overheadPercent >= 0
    ensures var s := UpdateStepC(base, misc, small, large, waste, tax, laborCost, dje,
                                 overheadPercent, margin, estimated, adjusted, additional);
      s.totalMaterial >= s.taxable >= base && s.primeCost >= s.totalMaterial
      && s.breakEven >= s.primeCost && s.salesPrice >= s.breakEven
  {
    var s := UpdateStepC(base, misc, small, large, waste, tax, laborCost, dje,
                         overheadPercent, margin, estimated, adjusted, additional);
    assert s.misc >= 0.0 && s.smallTools >= 0.0 && s.largeTools >= 0.0 && s.wasteTheft >= 0.0;
    assert s.salesTax >= 0.0;
    assert s.overheadCost >= 0.0;
    assert s.profit >= 0.0;
  }

  // ----- reset -----

  /** The storage after eeResetAll in fast mode: the three fast keys
      removed and "ee.reset" set to the time stamp. */
  function ResetAllResult(es: seq<Entry>, stamp: string): seq<Entry>
  {
    var f := Keys.KeysFor(None);
    Put(Drop(Drop(Drop(es, f.gridKey), f.totalsKey), f.estimateDataKey), "ee.reset", stamp)
  }

  /** eeResetAll(): with an eid in the URL nothing happens; otherwise the
      fast keys are removed, "ee.reset" records the time, and the session
      flag asks the next Summary load to apply the admin settings. The
      page reload is not modelled. */
  method EeResetAll(ls: LocalStorage, session: LocalStorage, eid: Option<string>, stamp: string)
    requires ls.Valid() && session.Valid() && ls != session
    modifies ls, session
    ensures ls.Valid() && session.Valid()
    ensures Keys.HasEid(eid) ==> ls.items == old(ls.items) && session.items == old(session.items)
    ensures !Keys.HasEid(eid) ==> ls.items == ResetAllResult(old(ls.items), stamp)
    ensures !Keys.HasEid(eid) ==> session.items == Put(old(session.items), "ee.reset.applyFromSettings", "1")
  {
    if Keys.HasEid(eid) {
      return;
    }
    var f := Keys.KeysFor(None);
    ls.RemoveItem(f.gridKey);
    ls.RemoveItem(f.totalsKey);
    ls.RemoveItem(f.estimateDataKey);
    ls.SetItem("ee.reset", stamp);
    session.SetItem("ee.reset.applyFromSettings", "1");
  }

  /** After the fast reset the fast keys read as missing, "ee.reset" reads
      as the stamp, and every other key is as it was. */
  lemma ResetAllEffect(es: seq<Entry>, stamp: string, j: string)
    ensures var f := Keys.KeysFor(None);
      Lookup(ResetAllResult(es, stamp), j)
      == if j == "ee.reset" then Some(stamp)
         else if j == f.gridKey || j == f.totalsKey || j == f.estimateDataKey then None
         else Lookup(es, j)
  {
    var f := Keys.KeysFor(None);
    var d1 := Drop(es, f.gridKey);
    var d2 := Drop(d1, f.totalsKey);
    var d3 := Drop(d2, f.estimateDataKey);
    LookupDrop(es, f.gridKey, j);
    LookupDrop(d1, f.totalsKey, j);
    LookupDrop(d2, f.estimateDataKey, j);
    LookupPut(d3, "ee.reset", stamp, j);
  }
}
