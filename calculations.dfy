// The estimate arithmetic of app/services/calculations.py: one line's
// extension, the totals over many lines, the Step C material adders, overhead,
// and the margin-to-markup conversion that gives the sales price.
//
// Python floats are modelled as reals; `safe_float(v, default)` is the value
// when float(v) succeeds and the default otherwise, so an input is an
// Option<real> whose None stands for a value float() refuses (None, "abc").
module Calculations {
  import opened Wrappers

  function SafeFloat(v: Option<real>): real
  {
    v.GetOr(0.0)
  }

  /** The dict calc_line returns. */
  datatype Line = Line(
    description: string,
    quantity: real,
    price: real,
    laborHours: real,
    materialTotal: real,
    laborTotal: real,
    lineTotal: real)

  /** calc_line: material = qty * price, labor hours = qty * hours per unit,
      and the line total adds the labor hours priced at the hourly rate. */
  function CalcLine(description: string, quantity: Option<real>, price: Option<real>, laborHours: Option<real>, hourlyRate: Option<real>): (l: Line)
    ensures l.description == description
    ensures l.quantity == SafeFloat(quantity) && l.price == SafeFloat(price) && l.laborHours == SafeFloat(laborHours)
    ensures l.materialTotal == l.quantity * l.price
    ensures l.laborTotal == l.quantity * l.laborHours
    ensures l.lineTotal == l.quantity * (l.price + l.laborHours * SafeFloat(hourlyRate))
  {
    var qty := SafeFloat(quantity);
    var cost := SafeFloat(price);
    var lhpu := SafeFloat(laborHours);
    var rate := SafeFloat(hourlyRate);
    var materialTotal := qty * cost;
    var laborTotalHours := qty * lhpu;
    Line(description, qty, cost, lhpu, materialTotal, laborTotalHours, materialTotal + laborTotalHours * rate)
  }

  /** The two dict entries calc_totals reads from a line; None when the key is
      missing or its value is not a number. */
  datatype LineEntry = LineEntry(materialTotal: Option<real>, laborTotal: Option<real>)

  function Entry(l: Line): LineEntry
  {
    LineEntry(Some(l.materialTotal), Some(l.laborTotal))
  }

  function SumMaterial(lines: seq<LineEntry>): real
  {
    if lines == [] then 0.0 else SumMaterial(lines[..|lines| - 1]) + SafeFloat(lines[|lines| - 1].materialTotal)
  }

  function SumHours(lines: seq<LineEntry>): real
  {
    if lines == [] then 0.0 else SumHours(lines[..|lines| - 1]) + SafeFloat(lines[|lines| - 1].laborTotal)
  }

  datatype Totals = Totals(materialTotal: real, laborTotal: real, grandTotal: real)

  /** calc_totals: the summed material, the summed labor hours priced at the
      rate, and their sum. */
  function CalcTotals(lines: seq<LineEntry>, hourlyRate: Option<real>): (t: Totals)
    ensures t.materialTotal == SumMaterial(lines)
    ensures t.laborTotal == SumHours(lines) * SafeFloat(hourlyRate)
    ensures t.grandTotal == t.materialTotal + t.laborTotal
  {
    var rate := SafeFloat(hourlyRate);
    var totalMaterial := SumMaterial(lines);
    var totalLaborH := SumHours(lines);
    Totals(totalMaterial, totalLaborH * rate, totalMaterial + totalLaborH * rate)
  }

  function LineTotals(lines: seq<Line>): real
  {
    if lines == [] then 0.0 else LineTotals(lines[..|lines| - 1]) + lines[|lines| - 1].lineTotal
  }

  function Entries(lines: seq<Line>): (es: seq<LineEntry>)
    ensures |es| == |lines|
  {
    if lines == [] then [] else Entries(lines[..|lines| - 1]) + [Entry(lines[|lines| - 1])]
  }

  /** Lines all priced at one rate. */
  predicate PricedAt(lines: seq<Line>, rate: real)
  {
    forall i :: 0 <= i < |lines| ==> lines[i].lineTotal == lines[i].materialTotal + lines[i].laborTotal * rate
  }

  /** Totalling lines made by calc_line at the same rate gives the sum of their
      line totals: pricing the summed hours equals summing the priced hours. */
  lemma {:induction false} GrandTotalIsSumOfLines(lines: seq<Line>, hourlyRate: Option<real>)
    requires PricedAt(lines, SafeFloat(hourlyRate))
    ensures CalcTotals(Entries(lines), hourlyRate).grandTotal == LineTotals(lines)
  {
    var rate := SafeFloat(hourlyRate);
    if lines != [] {
      var init := lines[..|lines| - 1];
      assert PricedAt(init, rate) by {
        forall i | 0 <= i < |init| ensures init[i] == lines[i] { }
      }
      GrandTotalIsSumOfLines(init, hourlyRate);
      assert lines == init + [lines[|lines| - 1]];
      GrandTotalStep(init, lines[|lines| - 1], hourlyRate);
    }
  }

  lemma GrandTotalStep(init: seq<Line>, last: Line, hourlyRate: Option<real>)
    requires last.lineTotal == last.materialTotal + last.laborTotal * SafeFloat(hourlyRate)
    requires CalcTotals(Entries(init), hourlyRate).grandTotal == LineTotals(init)
    ensures CalcTotals(Entries(init + [last]), hourlyRate).grandTotal == LineTotals(init + [last])
  {
    var lines := init + [last];
    assert lines[..|lines| - 1] == init;
    SumsStep(lines);
    Distribute(SumHours(Entries(init)), last.laborTotal, SafeFloat(hourlyRate), SumHours(Entries(lines)));
  }

  lemma Distribute(h0: real, l: real, rate: real, h1: real)
    requires h1 == h0 + l
    ensures h1 * rate == h0 * rate + l * rate
  {
  }

  /** One more line adds its own material and its own hours to the sums. */
  lemma SumsStep(lines: seq<Line>)
    requires lines != []
    ensures SumMaterial(Entries(lines)) == SumMaterial(Entries(lines[..|lines| - 1])) + lines[|lines| - 1].materialTotal
    ensures SumHours(Entries(lines)) == SumHours(Entries(lines[..|lines| - 1])) + lines[|lines| - 1].laborTotal
  {
    var es := Entries(lines);
    assert es[..|es| - 1] == Entries(lines[..|lines| - 1]);
  }

  /** Each line made by calc_line at one rate is priced at that rate. */
  lemma CalcLinePricedAt(description: string, quantity: Option<real>, price: Option<real>, laborHours: Option<real>, hourlyRate: Option<real>)
    ensures PricedAt([CalcLine(description, quantity, price, laborHours, hourlyRate)], SafeFloat(hourlyRate))
  {
  }

  /** Lines with missing numbers count as zero in the totals. */
  lemma {:induction false} MissingCountsAsZero(lines: seq<LineEntry>, hourlyRate: Option<real>)
    requires forall i :: 0 <= i < |lines| ==> lines[i].materialTotal.None? && lines[i].laborTotal.None?
    ensures CalcTotals(lines, hourlyRate) == Totals(0.0, 0.0, 0.0)
  {
    if lines != [] {
      MissingCountsAsZero(lines[..|lines| - 1], hourlyRate);
    }
  }

  /** The dict material_adders returns. */
  datatype Adders = Adders(
    misc: real,
    smallTools: real,
    largeTools: real,
    wasteTheft: real,
    taxable: real,
    salesTax: real,
    totalMaterial: real)

  /** `amount * (pct / 100)`: a percentage of an amount. */
  function Percent(amount: real, pct: real): (r: real)
    ensures amount >= 0.0 && pct >= 0.0 ==> r >= 0.0
    ensures pct == 0.0 ==> r == 0.0
  {
    amount * (pct / 100.0)
  }

  /** material_adders: four percentage adders on the base, the taxable amount
      (base plus the adders) and sales tax on the taxable amount. */
  function MaterialAdders(base: Option<real>, misc: Option<real>, small: Option<real>, large: Option<real>, waste: Option<real>, tax: Option<real>): (a: Adders)
    ensures a.misc == Percent(SafeFloat(base), SafeFloat(misc))
    ensures a.smallTools == Percent(SafeFloat(base), SafeFloat(small))
    ensures a.largeTools == Percent(SafeFloat(base), SafeFloat(large))
    ensures a.wasteTheft == Percent(SafeFloat(base), SafeFloat(waste))
    ensures a.taxable == SafeFloat(base) + a.misc + a.smallTools + a.largeTools + a.wasteTheft
    ensures a.salesTax == Percent(a.taxable, SafeFloat(tax))
    ensures a.totalMaterial == a.taxable + a.salesTax
  {
    var b := SafeFloat(base);
    var miscV := Percent(b, SafeFloat(misc));
    var smallV := Percent(b, SafeFloat(small));
    var largeV := Percent(b, SafeFloat(large));
    var wasteV := Percent(b, SafeFloat(waste));
    var taxable := b + miscV + smallV + largeV + wasteV;
    var taxV := Percent(taxable, SafeFloat(tax));
    Adders(miscV, smallV, largeV, wasteV, taxable, taxV, taxable + taxV)
  }

  /** In closed form, the taxable amount is the base grown by the summed
      adder percentages, and the total is the taxable amount grown by the
      tax percentage. */
  lemma MaterialAddersClosedForm(base: Option<real>, misc: Option<real>, small: Option<real>, large: Option<real>, waste: Option<real>, tax: Option<real>)
    ensures MaterialAdders(base, misc, small, large, waste, tax).taxable
      == SafeFloat(base) * (1.0 + (SafeFloat(misc) + SafeFloat(small) + SafeFloat(large) + SafeFloat(waste)) / 100.0)
    ensures MaterialAdders(base, misc, small, large, waste, tax).totalMaterial
      == MaterialAdders(base, misc, small, large, waste, tax).taxable * (1.0 + SafeFloat(tax) / 100.0)
  {
    TaxableClosedForm(base, misc, small, large, waste, tax);
    TotalClosedForm(base, misc, small, large, waste, tax);
  }

  lemma TaxableClosedForm(base: Option<real>, misc: Option<real>, small: Option<real>, large: Option<real>, waste: Option<real>, tax: Option<real>)
    ensures MaterialAdders(base, misc, small, large, waste, tax).taxable
      == SafeFloat(base) * (1.0 + (SafeFloat(misc) + SafeFloat(small) + SafeFloat(large) + SafeFloat(waste)) / 100.0)
  {
    PercentsAdd(SafeFloat(base), SafeFloat(misc), SafeFloat(small), SafeFloat(large), SafeFloat(waste));
  }

  lemma TotalClosedForm(base: Option<real>, misc: Option<real>, small: Option<real>, large: Option<real>, waste: Option<real>, tax: Option<real>)
    ensures MaterialAdders(base, misc, small, large, waste, tax).totalMaterial
      == MaterialAdders(base, misc, small, large, waste, tax).taxable * (1.0 + SafeFloat(tax) / 100.0)
  {
    PercentGrows(MaterialAdders(base, misc, small, large, waste, tax).taxable, SafeFloat(tax));
  }

  lemma PercentsAdd(b: real, m: real, s: real, l: real, w: real)
    ensures b + Percent(b, m) + Percent(b, s) + Percent(b, l) + Percent(b, w) == b * (1.0 + (m + s + l + w) / 100.0)
  {
  }

  lemma PercentGrows(x: real, t: real)
    ensures x + Percent(x, t) == x * (1.0 + t / 100.0)
  {
  }

  /** With every percentage zero the total is the base; with a non-negative
      base and non-negative percentages the total is at least the taxable
      amount, which is at least the base. */
  lemma MaterialAddersBounds(base: Option<real>, misc: Option<real>, small: Option<real>, large: Option<real>, waste: Option<real>, tax: Option<real>)
    ensures MaterialAdders(base, Some(0.0), Some(0.0), Some(0.0), Some(0.0), Some(0.0)).taxable == SafeFloat(base)
    ensures MaterialAdders(base, Some(0.0), Some(0.0), Some(0.0), Some(0.0), Some(0.0)).totalMaterial == SafeFloat(base)
    ensures NonNegativeInputs(base, misc, small, large, waste, tax) ==>
      MaterialAdders(base, misc, small, large, waste, tax).taxable >= SafeFloat(base)
    ensures NonNegativeInputs(base, misc, small, large, waste, tax) ==>
      MaterialAdders(base, misc, small, large, waste, tax).totalMaterial >= MaterialAdders(base, misc, small, large, waste, tax).taxable
  {
    MaterialAddersAtZero(base);
    if NonNegativeInputs(base, misc, small, large, waste, tax) {
      MaterialAddersGrow(base, misc, small, large, waste, tax);
    }
  }

  /** The base and every percentage at least zero. */
  predicate NonNegativeInputs(base: Option<real>, misc: Option<real>, small: Option<real>, large: Option<real>, waste: Option<real>, tax: Option<real>)
  {
    SafeFloat(base) >= 0.0 && SafeFloat(misc) >= 0.0 && SafeFloat(small) >= 0.0 && SafeFloat(large) >= 0.0 && SafeFloat(waste) >= 0.0 && SafeFloat(tax) >= 0.0
  }

  lemma MaterialAddersAtZero(base: Option<real>)
    ensures MaterialAdders(base, Some(0.0), Some(0.0), Some(0.0), Some(0.0), Some(0.0)).taxable == SafeFloat(base)
    ensures MaterialAdders(base, Some(0.0), Some(0.0), Some(0.0), Some(0.0), Some(0.0)).totalMaterial == SafeFloat(base)
  {
    var z := Some(0.0);
    assert SafeFloat(z) == 0.0;
    var a := MaterialAdders(base, z, z, z, z, z);
    assert a.misc == 0.0 && a.smallTools == 0.0 && a.largeTools == 0.0 && a.wasteTheft == 0.0;
  }

  lemma MaterialAddersGrow(base: Option<real>, misc: Option<real>, small: Option<real>, large: Option<real>, waste: Option<real>, tax: Option<real>)
    requires NonNegativeInputs(base, misc, small, large, waste, tax)
    ensures MaterialAdders(base, misc, small, large, waste, tax).taxable >= SafeFloat(base)
    ensures MaterialAdders(base, misc, small, large, waste, tax).totalMaterial >= MaterialAdders(base, misc, small, large, waste, tax).taxable
  {
    TaxableGrows(base, misc, small, large, waste, tax);
    TotalGrows(base, misc, small, large, waste, tax);
  }

  lemma TaxableGrows(base: Option<real>, misc: Option<real>, small: Option<real>, large: Option<real>, waste: Option<real>, tax: Option<real>)
    requires NonNegativeInputs(base, misc, small, large, waste, tax)
    ensures MaterialAdders(base, misc, small, large, waste, tax).taxable >= SafeFloat(base)
  {
  }

  lemma TotalGrows(base: Option<real>, misc: Option<real>, small: Option<real>, large: Option<real>, waste: Option<real>, tax: Option<real>)
    requires NonNegativeInputs(base, misc, small, large, waste, tax)
    requires MaterialAdders(base, misc, small, large, waste, tax).taxable >= SafeFloat(base)
    ensures MaterialAdders(base, misc, small, large, waste, tax).totalMaterial >= MaterialAdders(base, misc, small, large, waste, tax).taxable
  {
  }

  /** overhead_value: the overhead percentage of the prime cost. */
  function OverheadValue(primeCost: Option<real>, overheadPercent: Option<real>): (v: real)
    ensures SafeFloat(primeCost) >= 0.0 && SafeFloat(overheadPercent) >= 0.0 ==> v >= 0.0
    ensures SafeFloat(overheadPercent) == 100.0 ==> v == SafeFloat(primeCost)
    ensures SafeFloat(overheadPercent) == 0.0 || SafeFloat(primeCost) == 0.0 ==> v == 0.0
  {
    SafeFloat(primeCost) * (SafeFloat(overheadPercent) / 100.0)
  }

  /** Overhead is additive in the prime cost, zero at 0%, the whole prime cost
      at 100%, and never negative for non-negative inputs. */
  lemma OverheadProps(p1: real, p2: real, pct: Option<real>)
    ensures OverheadValue(Some(p1 + p2), pct) == OverheadValue(Some(p1), pct) + OverheadValue(Some(p2), pct)
    ensures OverheadValue(Some(p1), Some(0.0)) == 0.0
    ensures OverheadValue(Some(p1), Some(100.0)) == p1
    ensures p1 >= 0.0 && SafeFloat(pct) >= 0.0 ==> OverheadValue(Some(p1), pct) >= 0.0
  {
  }

  /** margin_to_markup: a profit margin of 100% or more gives the guard-rail
      multiplier 2.0; otherwise 1 / (1 - m) for the margin fraction m. */
  function MarginToMarkup(marginPercent: Option<real>): (k: real)
    ensures SafeFloat(marginPercent) >= 100.0 ==> k == 2.0
    ensures SafeFloat(marginPercent) < 100.0 ==> k * (1.0 - SafeFloat(marginPercent) / 100.0) == 1.0
    ensures SafeFloat(marginPercent) >= 0.0 ==> k >= 1.0
  {
    var m := SafeFloat(marginPercent) / 100.0;
    if m >= 1.0 then 2.0
    else
      assert m >= 0.0 ==> 1.0 / (1.0 - m) >= 1.0 by {
        if m >= 0.0 { ReciprocalAtLeastOne(1.0 - m); }
      }
      1.0 / (1.0 - m)
  }

  /** estimated_sales_price: the break-even cost times the markup. */
  function EstimatedSalesPrice(breakEven: Option<real>, marginPercent: Option<real>): (price: real)
    ensures SafeFloat(breakEven) >= 0.0 && SafeFloat(marginPercent) >= 0.0 ==> price >= SafeFloat(breakEven)
    ensures SafeFloat(marginPercent) >= 100.0 ==> price == 2.0 * SafeFloat(breakEven)
  {
    var b := SafeFloat(breakEven);
    var k := MarginToMarkup(marginPercent);
    assert b >= 0.0 && k >= 1.0 ==> b * k >= b by {
      if b >= 0.0 && k >= 1.0 {
        assert b * k - b == b * (k - 1.0);
        assert b * (k - 1.0) >= 0.0;
      }
    }
    b * k
  }

  /** Below 100%, the markup turns the margin into a profit share of the
      price: price * (1 - m) is the break-even cost, so (price - cost) / price
      is the margin. At 100% or more the price is twice the cost. A
      non-negative margin never marks down. */
  lemma SalesPriceKeepsMargin(breakEven: real, marginPercent: Option<real>)
    ensures var m := SafeFloat(marginPercent) / 100.0;
      var price := EstimatedSalesPrice(Some(breakEven), marginPercent);
      && (m < 1.0 ==> price * (1.0 - m) == breakEven)
      && (m >= 1.0 ==> price == 2.0 * breakEven)
    ensures SafeFloat(marginPercent) >= 0.0 ==> MarginToMarkup(marginPercent) >= 1.0
    ensures MarginToMarkup(Some(0.0)) == 1.0 && MarginToMarkup(Some(50.0)) == 2.0
  {
    var m := SafeFloat(marginPercent) / 100.0;
    if m < 1.0 {
      var k := 1.0 / (1.0 - m);
      assert k * (1.0 - m) == 1.0;
      calc {
        EstimatedSalesPrice(Some(breakEven), marginPercent) * (1.0 - m);
        breakEven * k * (1.0 - m);
        breakEven * (k * (1.0 - m));
        breakEven;
      }
      if m >= 0.0 {
        assert 1.0 - m <= 1.0;
        ReciprocalAtLeastOne(1.0 - m);
      }
    }
  }

  lemma ReciprocalAtLeastOne(d: real)
    requires 0.0 < d <= 1.0
    ensures 1.0 / d >= 1.0
  {
  }
}
