/** The read-only queries of `SalesReporter`, as functions of the table. */
module Reports {
  import opened Text
  import opened Order
  import opened Aggregate
  import opened Sales

  datatype Option<T> = None | Some(value: T)

  /** How a query fails: a column it reads is missing (pandas `KeyError`), or a
      margin is not finite and cannot be cast to an integer. */
  datatype Error = KeyError(column: string) | IntCastingNaN

  datatype Result<T> = Ok(value: T) | Err(error: Error)

  lemma StrLessIsStrictTotalOrder()
    ensures IsStrictTotalOrder(StrLess)
  {
    forall a ensures !StrLess(a, a) {
      StrLessIrreflexive(a);
    }
    forall a, b, c | StrLess(a, b) && StrLess(b, c) ensures StrLess(a, c) {
      StrLessTransitive(a, b, c);
    }
    forall a, b | a != b ensures StrLess(a, b) || StrLess(b, a) {
      StrLessTotal(a, b);
    }
  }

  /** The groups of `groupby('producto')`: every product once, ascending. */
  function ProductKeys(rows: seq<Sale>): (ks: seq<string>)
    ensures StrictlySorted(ks, StrLess) && NoDup(ks)
    ensures forall p :: p in ks <==> p in Column(rows, Producto)
  {
    StrLessIsStrictTotalOrder();
    SortKeys(Distinct(Column(rows, Producto)), StrLess)
  }

  /** A group-by over `keys` followed by a descending sort. */
  function RankedGroups<K(==, !new)>(keys: seq<K>, rows: seq<Sale>, key: Sale -> K, f: Sale -> real): (r: seq<Entry<K>>)
    requires NoDup(keys)
    requires forall k :: k in keys <==> k in Column(rows, key)
    ensures DistinctKeys(r)
    ensures forall k :: k in Keys(r) <==> k in Column(rows, key)
    ensures forall i :: 0 <= i < |r| ==> r[i].value == SumFor(rows, key, r[i].key, f)
    ensures NonIncreasing(r)
    ensures Total(r) == SumBy(rows, f)
  {
    var g := GroupBy(keys, rows, key, f);
    assert DistinctKeys(g) by {
      forall i, j | 0 <= i < j < |g| ensures g[i].key != g[j].key {
        assert Keys(g)[i] == g[i].key && Keys(g)[j] == g[j].key;
      }
    }
    assert forall i :: 0 <= i < |rows| ==> key(rows[i]) in keys by {
      forall i | 0 <= i < |rows| ensures key(rows[i]) in keys {
        assert Column(rows, key)[i] == key(rows[i]);
      }
    }
    TotalOfGroups(keys, rows, key, f);
    var r := Rank(g);
    RankKeepsKeysDistinct(g);
    SameEntries(r, g);
    assert forall i :: 0 <= i < |r| ==> r[i] in g;
    r
  }

  /** `top_sold_products`: one entry per product holding its units sold, best
      seller first; the entries add up to all units sold. */
  function TopSoldProducts(rows: seq<Sale>): (r: seq<Entry<string>>)
    ensures DistinctKeys(r)
    ensures forall p :: p in Keys(r) <==> p in Column(rows, Producto)
    ensures forall i :: 0 <= i < |r| ==> r[i].value == SumFor(rows, Producto, r[i].key, UnitsOf)
    ensures NonIncreasing(r)
    ensures Total(r) == SumBy(rows, UnitsOf)
  {
    RankedGroups(ProductKeys(rows), rows, Producto, UnitsOf)
  }

  /** `stock_resume`: each product name once, in the order it first appears. */
  function StockResume(rows: seq<Sale>): (names: seq<string>)
    ensures NoDup(names)
    ensures forall p :: p in names <==> p in Column(rows, Producto)
    ensures forall i, j :: 0 <= i < j < |names| ==>
      FirstIndex(Column(rows, Producto), names[i]) < FirstIndex(Column(rows, Producto), names[j])
  {
    Distinct(Column(rows, Producto))
  }

  // ---------------------------------------------------------------------------
  // revenue_percentage_by_product

  datatype Margin = Margin(producto: string, margenBeneficio: int)

  /** The plain mean of `f` over the rows of product `p` (not weighted by units). */
  function MeanFor(rows: seq<Sale>, p: string, f: Sale -> real): real
    requires p in Column(rows, Producto)
  {
    CountForPositive(rows, Producto, p);
    SumFor(rows, Producto, p, f) / CountFor(rows, Producto, p) as real
  }

  /** `margen_beneficio`: the mean profit as a percentage of the mean sale price,
      truncated toward zero. */
  function MarginPercent(avgVenta: real, avgCoste: real): (m: int)
    requires avgVenta != 0.0
    ensures avgVenta == avgCoste ==> m == 0
    ensures avgVenta > 0.0 && avgCoste >= 0.0 ==> m <= 100
    ensures avgVenta > 0.0 && avgCoste <= avgVenta ==> m >= 0
    ensures avgVenta > 0.0 && m > 0 ==> avgCoste < avgVenta
  {
    var x := (avgVenta - avgCoste) / avgVenta * 100.0;
    if avgVenta > 0.0 then
      QuotientBounds(avgVenta - avgCoste, avgVenta);
      Trunc(x)
    else
      Trunc(x)
  }

  lemma QuotientBounds(a: real, b: real)
    requires b > 0.0
    ensures a <= b ==> a / b <= 1.0
    ensures a >= 0.0 ==> a / b >= 0.0
    ensures a <= 0.0 ==> a / b <= 0.0
  {
    var q := a / b;
    assert q * b == a;
    if q > 1.0 {
      assert (q - 1.0) * b > 0.0;
    }
    if q < 0.0 {
      assert (-q) * b > 0.0;
    }
    if q > 0.0 {
      assert q * b > 0.0;
    }
  }

  function MarginsFor(keys: seq<string>, rows: seq<Sale>): (r: Result<seq<Margin>>)
    requires forall p :: p in keys ==> p in Column(rows, Producto)
    ensures r.Ok? <==> forall p :: p in keys ==> MeanFor(rows, p, PrecioVentaOf) != 0.0
    ensures r.Err? ==> r.error == IntCastingNaN
    ensures r.Ok? ==> |r.value| == |keys| && forall i :: 0 <= i < |keys| ==>
      r.value[i] == Margin(keys[i], MarginPercent(MeanFor(rows, keys[i], PrecioVentaOf), MeanFor(rows, keys[i], PrecioCosteOf)))
  {
    if keys == [] then Ok([])
    else
      assert keys == [keys[0]] + keys[1..];
      var avgVenta := MeanFor(rows, keys[0], PrecioVentaOf);
      var rest := MarginsFor(keys[1..], rows);
      if avgVenta == 0.0 || rest.Err? then Err(IntCastingNaN)
      else Ok([Margin(keys[0], MarginPercent(avgVenta, MeanFor(rows, keys[0], PrecioCosteOf)))] + rest.value)
  }

  /** `revenue_percentage_by_product`: one margin per product in ascending name
      order; a product whose mean sale price is 0 gives an infinite or NaN margin,
      and the integer cast of the whole column fails. */
  function RevenuePercentageByProduct(rows: seq<Sale>): (r: Result<seq<Margin>>)
    ensures r.Ok? <==> forall p :: p in Column(rows, Producto) ==> MeanFor(rows, p, PrecioVentaOf) != 0.0
    ensures r.Err? ==> r.error == IntCastingNaN
    ensures r.Ok? ==> |r.value| == |ProductKeys(rows)| && forall i :: 0 <= i < |r.value| ==>
      && r.value[i].producto == ProductKeys(rows)[i]
      && r.value[i].margenBeneficio
         == MarginPercent(MeanFor(rows, r.value[i].producto, PrecioVentaOf), MeanFor(rows, r.value[i].producto, PrecioCosteOf))
  {
    MarginsFor(ProductKeys(rows), rows)
  }

  /** The row count cancels: a product's margin is its total profit over its
      total sales, as a truncated percentage. */
  lemma MarginFromSums(rows: seq<Sale>, p: string)
    requires p in Column(rows, Producto)
    requires SumFor(rows, Producto, p, PrecioVentaOf) != 0.0
    ensures MeanFor(rows, p, PrecioVentaOf) != 0.0
    ensures MarginPercent(MeanFor(rows, p, PrecioVentaOf), MeanFor(rows, p, PrecioCosteOf))
         == Trunc((SumFor(rows, Producto, p, PrecioVentaOf) - SumFor(rows, Producto, p, PrecioCosteOf))
                  / SumFor(rows, Producto, p, PrecioVentaOf) * 100.0)
  {
    CountForPositive(rows, Producto, p);
    var n := CountFor(rows, Producto, p) as real;
    var v := SumFor(rows, Producto, p, PrecioVentaOf);
    var c := SumFor(rows, Producto, p, PrecioCosteOf);
    assert MeanFor(rows, p, PrecioVentaOf) == v / n;
    assert MeanFor(rows, p, PrecioCosteOf) == c / n;
    CountCancels(v, c, n);
  }

  lemma CountCancels(v: real, c: real, n: real)
    requires n > 0.0 && v != 0.0
    ensures v / n != 0.0
    ensures (v / n - c / n) / (v / n) == (v - c) / v
  {
    assert v / n - c / n == (v - c) / n;
  }

  /** Two "camisa" lines sold at 10 and 20 with costs 4 and 8. */
  function CamisaRows(): seq<Sale> {
    [Sale("camisa", Date(1, Monday), 10.0, 4.0, 1, 10.0, 0, 0.0, 0.0, 0.0),
     Sale("camisa", Date(1, Tuesday), 20.0, 8.0, 1, 20.0, 0, 0.0, 0.0, 0.0)]
  }

  lemma CamisaKeys()
    ensures ProductKeys(CamisaRows()) == ["camisa"]
  {
    var c := "camisa";
    var rows := CamisaRows();
    assert Producto(rows[0]) == c && Producto(rows[1]) == c;
    var col := Column(rows, Producto);
    assert col == [c, c];
    assert col[..1] == [c] && [c][..0] == [];
    assert Distinct([c]) == [c];
    StrLessIsStrictTotalOrder();
    assert SortKeys([c], StrLess) == [c] by {
      assert [c][1..] == [];
    }
  }

  /** The camisa lines have a mean profit of 9 on a mean sale price of 15: a
      60% margin, as the margin computation gives it. The final selection of
      an `index` column is assumed to succeed; with a single product the
      merged index may keep the name `producto` and that selection fail. */
  lemma CamisaMargin()
    ensures RevenuePercentageByProduct(CamisaRows()) == Ok([Margin("camisa", 60)])
  {
    var c := "camisa";
    var rows := CamisaRows();
    CamisaKeys();
    var ks := ProductKeys(rows);
    assert rows[..1] == [rows[0]] && rows[..1][..0] == [];
    assert CountFor(rows, Producto, c) == 2;
    assert SumFor(rows, Producto, c, PrecioVentaOf) == 30.0;
    assert SumFor(rows, Producto, c, PrecioCosteOf) == 12.0;
    assert MarginPercent(15.0, 6.0) == 60 by {
      assert (15.0 - 6.0) / 15.0 * 100.0 == 60.0;
    }
    assert MeanFor(rows, c, PrecioVentaOf) == 15.0;
    assert MeanFor(rows, c, PrecioCosteOf) == 6.0;
    assert MarginsFor(ks[1..], rows) == Ok([]);
    assert [Margin(c, 60)] + [] == [Margin(c, 60)];
  }

  // ---------------------------------------------------------------------------
  // weekly_sales_comparative

  /** A growth rate as pandas leaves it: a number, or an infinity when the
      previous week's total is 0 and this week's is not. */
  datatype Rate = Finite(percent: real) | PosInf | NegInf

  datatype WeekSales = WeekSales(semana: int, precioTotal: real, tasaCrecimiento: Rate)

  /** `100 * (cur - prev) / prev`; the NaN of 0/0 is filled with 0. */
  function Growth(prev: real, cur: real): (g: Rate)
    ensures prev != 0.0 ==> g.Finite? && cur == prev + prev * g.percent / 100.0
    ensures prev == 0.0 ==> (g == Finite(0.0) <==> cur == 0.0) && (g == PosInf <==> cur > 0.0)
    ensures prev == 0.0 ==> (g == NegInf <==> cur < 0.0)
  {
    if prev != 0.0 then Finite(100.0 * (cur - prev) / prev)
    else if cur == 0.0 then Finite(0.0)
    else if cur > 0.0 then PosInf
    else NegInf
  }

  /** The groups of `groupby('semana')`: every week number once, ascending. */
  function WeekKeys(rows: seq<Sale>): (ks: seq<int>)
    ensures NoDup(ks) && |ks| <= |rows|
    ensures forall i, j :: 0 <= i < j < |ks| ==> ks[i] < ks[j]
    ensures forall w :: w in ks <==> w in Column(rows, SemanaOf)
  {
    IntLessIsStrictTotalOrder();
    var ks := SortKeys(Distinct(Column(rows, SemanaOf)), IntLess);
    assert forall i, j :: 0 <= i < j < |ks| ==> IntLess(ks[i], ks[j]);
    ks
  }

  function Weeks(r: seq<WeekSales>): (ws: seq<int>)
    ensures |ws| == |r|
  {
    seq(|r|, i requires 0 <= i < |r| => r[i].semana)
  }

  function WeekTotalOf(w: WeekSales): real {
    w.precioTotal
  }

  /** The weekly totals with each week's growth over the row before it. */
  function WithGrowth(g: seq<Entry<int>>): (r: seq<WeekSales>)
    ensures |r| == |g|
    ensures Weeks(r) == Keys(g)
    ensures forall i :: 0 <= i < |r| ==> r[i].precioTotal == g[i].value
    ensures |r| > 0 ==> r[0].tasaCrecimiento == Finite(0.0)
    ensures forall i :: 0 < i < |r| ==> r[i].tasaCrecimiento == Growth(g[i - 1].value, g[i].value)
  {
    seq(|g|, i requires 0 <= i < |g| =>
      WeekSales(g[i].key, g[i].value, if i == 0 then Finite(0.0) else Growth(g[i - 1].value, g[i].value)))
  }

  /** `weekly_sales_comparative`: one row per week number, ascending, with the
      week's sales and its growth over the row before it. The first row's growth
      is 0; a gap in the weeks is not filled, so a row compares with the last
      week that had sales. */
  function WeeklySales(rows: seq<Sale>): (r: seq<WeekSales>)
    ensures Weeks(r) == WeekKeys(rows)
    ensures forall i :: 0 <= i < |r| ==> r[i].precioTotal == SumFor(rows, SemanaOf, r[i].semana, PrecioTotalOf)
    ensures |r| > 0 ==> r[0].tasaCrecimiento == Finite(0.0)
    ensures forall i :: 0 < i < |r| ==> r[i].tasaCrecimiento == Growth(r[i - 1].precioTotal, r[i].precioTotal)
    ensures SumBy(r, WeekTotalOf) == SumBy(rows, PrecioTotalOf)
  {
    var keys := WeekKeys(rows);
    var g := GroupBy(keys, rows, SemanaOf, PrecioTotalOf);
    var r := WithGrowth(g);
    assert forall i :: 0 <= i < |r| ==> r[i].semana == g[i].key by {
      forall i | 0 <= i < |r| ensures r[i].semana == g[i].key {
        assert Weeks(r)[i] == Keys(g)[i];
      }
    }
    WeekTotal(rows, keys, g, r);
    r
  }

  lemma WeekTotal(rows: seq<Sale>, keys: seq<int>, g: seq<Entry<int>>, r: seq<WeekSales>)
    requires keys == WeekKeys(rows) && g == GroupBy(keys, rows, SemanaOf, PrecioTotalOf)
    requires |r| == |g| && forall i :: 0 <= i < |r| ==> r[i].precioTotal == g[i].value
    ensures SumBy(r, WeekTotalOf) == SumBy(rows, PrecioTotalOf)
  {
    assert forall i :: 0 <= i < |rows| ==> SemanaOf(rows[i]) in keys by {
      forall i | 0 <= i < |rows| ensures SemanaOf(rows[i]) in keys {
        assert Column(rows, SemanaOf)[i] == SemanaOf(rows[i]);
      }
    }
    TotalOfGroups(keys, rows, SemanaOf, PrecioTotalOf);
    TotalIsSumBy(g);
    SumByPointwise(r, g, WeekTotalOf, EntryValue);
  }

  /** The weeks of a weekly report are exactly the weeks of the table, ascending. */
  lemma WeeklySalesWeeks(rows: seq<Sale>)
    ensures forall w :: w in Weeks(WeeklySales(rows)) <==> w in Column(rows, SemanaOf)
    ensures forall i, j :: 0 <= i < j < |WeeklySales(rows)| ==> WeeklySales(rows)[i].semana < WeeklySales(rows)[j].semana
  {
    var r := WeeklySales(rows);
    assert forall i :: 0 <= i < |r| ==> r[i].semana == WeekKeys(rows)[i] by {
      forall i | 0 <= i < |r| ensures r[i].semana == WeekKeys(rows)[i] {
        assert Weeks(r)[i] == r[i].semana;
      }
    }
  }

  /** One "falda" line in week 1 for 100 and one in week 3 for 150. */
  function GapWeekRows(): seq<Sale> {
    [Sale("falda", Date(1, Monday), 100.0, 50.0, 1, 100.0, 1, 0.0, 0.0, 0.0),
     Sale("falda", Date(3, Monday), 150.0, 50.0, 1, 150.0, 3, 0.0, 0.0, 0.0)]
  }

  lemma GapWeekKeys()
    ensures WeekKeys(GapWeekRows()) == [1, 3]
  {
    var rows := GapWeekRows();
    assert SemanaOf(rows[0]) == 1 && SemanaOf(rows[1]) == 3;
    assert Column(rows, SemanaOf) == [1, 3];
    WeekKeysOfTwo(rows, 1, 3);
  }

  /** Two rows in different weeks give those two weeks, in ascending order. */
  lemma WeekKeysOfTwo(rows: seq<Sale>, a: int, b: int)
    requires Column(rows, SemanaOf) == [a, b] && a < b
    ensures WeekKeys(rows) == [a, b]
  {
    var ks := WeekKeys(rows);
    assert a in ks && b in ks && |ks| <= 2;
    assert forall w :: w in ks ==> w == a || w == b;
    assert ks[0] == a && ks[1] == b;
  }

  /** With sales only in weeks 1 and 3, week 3's growth of 50% is measured
      against week 1, although week 2 lies between them. */
  lemma GrowthSkipsMissingWeeks()
    ensures WeeklySales(GapWeekRows())
         == [WeekSales(1, 100.0, Finite(0.0)), WeekSales(3, 150.0, Finite(50.0))]
  {
    var rows := GapWeekRows();
    GapWeekKeys();
    assert rows[..1] == [rows[0]] && rows[..1][..0] == [];
    assert SumFor(rows, SemanaOf, 1, PrecioTotalOf) == 100.0;
    assert SumFor(rows, SemanaOf, 3, PrecioTotalOf) == 150.0;
    var r := WeeklySales(rows);
    assert |r| == 2;
    assert Weeks(r)[0] == r[0].semana && Weeks(r)[1] == r[1].semana;
    assert Growth(100.0, 150.0) == Finite(50.0);
  }

  // ---------------------------------------------------------------------------
  // average_sale_price

  /** `average_sale_price`: total sales over the number of rows. An empty table
      gives NaN (numpy's 0/0), modelled as `None`. */
  function AverageSalePrice(rows: seq<Sale>): (avg: Option<real>)
    ensures avg.None? <==> rows == []
    ensures avg.Some? ==> avg.value * |rows| as real == SumBy(rows, PrecioTotalOf)
  {
    Mean(rows, PrecioTotalOf)
  }

  lemma {:induction false} SumByBounds(rows: seq<Sale>, f: Sale -> real, lo: real, hi: real)
    requires forall i :: 0 <= i < |rows| ==> lo <= f(rows[i]) <= hi
    ensures |rows| as real * lo <= SumBy(rows, f) <= |rows| as real * hi
  {
    if rows != [] {
      SumByBounds(rows[..|rows| - 1], f, lo, hi);
    }
  }

  /** The average sale lies between the smallest and the largest invoice total. */
  lemma AverageSalePriceBounds(rows: seq<Sale>, lo: real, hi: real)
    requires rows != []
    requires forall i :: 0 <= i < |rows| ==> lo <= rows[i].precioTotal <= hi
    ensures lo <= AverageSalePrice(rows).value <= hi
  {
    SumByBounds(rows, PrecioTotalOf, lo, hi);
    var n := |rows| as real;
    var avg := AverageSalePrice(rows).value;
    assert avg * n == SumBy(rows, PrecioTotalOf);
  }

  // ---------------------------------------------------------------------------
  // sales_amount_by_weekday

  /** `sales_amount_by_weekday`: the number of rows per weekday name, most
      frequent first; the counts add up to the number of rows. */
  function SalesAmountByWeekday(rows: seq<Sale>): (r: seq<Entry<Weekday>>)
    ensures DistinctKeys(r)
    ensures forall d :: d in Keys(r) <==> d in Column(rows, WeekdayOf)
    ensures forall i :: 0 <= i < |r| ==> r[i].value == CountFor(rows, WeekdayOf, r[i].key) as real
    ensures NonIncreasing(r)
    ensures Total(r) == |rows| as real
  {
    var r := RankedGroups(Distinct(Column(rows, WeekdayOf)), rows, WeekdayOf, One);
    forall i | 0 <= i < |r| ensures r[i].value == CountFor(rows, WeekdayOf, r[i].key) as real {
      SumForOneIsCount(rows, WeekdayOf, r[i].key, One);
    }
    SumByOneIsLength(rows, One);
    r
  }

  // ---------------------------------------------------------------------------
  // revenue_by_product and net_sale_by_product

  /** `revenue_by_product`: one entry per product holding its total profit
      (`ganancia_total` summed), most profitable first. */
  function RevenueByProduct(rows: seq<Sale>): (r: seq<Entry<string>>)
    ensures DistinctKeys(r)
    ensures forall p :: p in Keys(r) <==> p in Column(rows, Producto)
    ensures forall i :: 0 <= i < |r| ==> r[i].value == SumFor(rows, Producto, r[i].key, GananciaTotalOf)
    ensures NonIncreasing(r)
    ensures Total(r) == SumBy(rows, GananciaTotalOf)
  {
    RankedGroups(ProductKeys(rows), rows, Producto, GananciaTotalOf)
  }

  /** `net_sale_by_product`: one entry per product, in ascending name order,
      holding its `venta_neta` summed. */
  function NetSaleByProduct(rows: seq<Sale>): (r: seq<Entry<string>>)
    ensures Keys(r) == ProductKeys(rows)
    ensures forall i :: 0 <= i < |r| ==> r[i].value == SumFor(rows, Producto, r[i].key, VentaNetaOf)
    ensures Total(r) == SumBy(rows, VentaNetaOf)
  {
    var keys := ProductKeys(rows);
    assert forall i :: 0 <= i < |rows| ==> Producto(rows[i]) in keys by {
      forall i | 0 <= i < |rows| ensures Producto(rows[i]) in keys {
        assert Column(rows, Producto)[i] == Producto(rows[i]);
      }
    }
    TotalOfGroups(keys, rows, Producto, VentaNetaOf);
    GroupBy(keys, rows, Producto, VentaNetaOf)
  }

  /** Net sale per product is the product's summed `precio_total`: both columns
      are price times units. */
  lemma NetSaleIsPrecioTotal(t: Table)
    requires WellFormed(t) && PrecioTotal in t.columns && VentaNeta in t.columns
    ensures forall i :: 0 <= i < |NetSaleByProduct(t.rows)| ==>
      NetSaleByProduct(t.rows)[i].value == SumFor(t.rows, Producto, NetSaleByProduct(t.rows)[i].key, PrecioTotalOf)
  {
    var r := NetSaleByProduct(t.rows);
    assert forall i :: 0 <= i < |t.rows| ==> ColumnHolds(t.rows[i], PrecioTotal) && ColumnHolds(t.rows[i], VentaNeta);
    forall i | 0 <= i < |r|
      ensures r[i].value == SumFor(t.rows, Producto, r[i].key, PrecioTotalOf)
    {
      SumForCongruent(t.rows, Producto, r[i].key, VentaNetaOf, PrecioTotalOf);
    }
  }

  /** A product's profit is its net sale less its cost price times units. */
  lemma RevenueIsNetSaleLessCost(t: Table, p: string)
    requires WellFormed(t) && GananciaTotal in t.columns && VentaNeta in t.columns
    ensures SumFor(t.rows, Producto, p, GananciaTotalOf)
         == SumFor(t.rows, Producto, p, VentaNetaOf) - SumFor(t.rows, Producto, p, CosteTotalOf)
  {
    forall i | 0 <= i < |t.rows|
      ensures GananciaTotalOf(t.rows[i]) == VentaNetaOf(t.rows[i]) - CosteTotalOf(t.rows[i])
    {
      var r := t.rows[i];
      assert ColumnHolds(r, GananciaTotal) && ColumnHolds(r, VentaNeta);
      var u := r.unidadesVendidas as real;
      assert (r.precioVenta - r.precioCoste) * u == r.precioVenta * u - r.precioCoste * u;
    }
    SumForDifference(t.rows, Producto, p, GananciaTotalOf, VentaNetaOf, CosteTotalOf);
  }

  // ---------------------------------------------------------------------------
  // clothes_comparative

  /** Names selected as bottom garments. */
  const BottomNames: set<string> := {"pantalon", "falda", "vestido"}
  /** Names excluded from the upper garments. */
  const NotUpperNames: set<string> := {"pantalon", "falda"}

  /** The rows whose product is (`member`) or is not (`!member`) in `names`,
      in table order: `df[df['producto'].isin(names)]` and its negation. */
  function Select(rows: seq<Sale>, names: set<string>, member: bool): (s: seq<Sale>)
    ensures |s| <= |rows|
    ensures forall r :: r in s <==> r in rows && (r.producto in names) == member
    ensures forall r :: multiset(s)[r] == if (r.producto in names) == member then multiset(rows)[r] else 0
  {
    if rows == [] then []
    else
      var n := |rows| - 1;
      assert rows == rows[..n] + [rows[n]];
      Select(rows[..n], names, member) + (if (rows[n].producto in names) == member then [rows[n]] else [])
  }

  /** The filter keeps table order: selecting from two consecutive blocks of
      rows gives the selection from the first block, then from the second. */
  lemma {:induction false} SelectConcat(a: seq<Sale>, b: seq<Sale>, names: set<string>, member: bool)
    ensures Select(a + b, names, member) == Select(a, names, member) + Select(b, names, member)
    decreases |b|
  {
    if b == [] {
      assert a + b == a;
    } else {
      var n := |b| - 1;
      var last := if (b[n].producto in names) == member then [b[n]] else [];
      assert (a + b)[..|a + b| - 1] == a + b[..n] && (a + b)[|a + b| - 1] == b[n];
      SelectConcat(a, b[..n], names, member);
      ConcatAssoc(Select(a, names, member), Select(b[..n], names, member), last);
    }
  }

  function BottomClothes(rows: seq<Sale>): seq<Sale> {
    Select(rows, BottomNames, true)
  }

  function UpperClothes(rows: seq<Sale>): seq<Sale> {
    Select(rows, NotUpperNames, false)
  }

  /** A column mean; NaN (`None`) over no rows. */
  function Mean(rows: seq<Sale>, f: Sale -> real): (m: Option<real>)
    ensures m.None? <==> rows == []
    ensures m.Some? ==> m.value * |rows| as real == SumBy(rows, f)
  {
    if rows == [] then None else Some(SumBy(rows, f) / |rows| as real)
  }

  datatype ClothesSummary = ClothesSummary(
    name: string,
    costeTotal: Option<real>,
    ventasNetas: real,
    ganancias: real,
    costePromedio: Option<real>,
    precioVentaPromedio: Option<real>)

  /** One group's figures as the source computes them: total cost is mean cost
      times units sold, net sales are summed prices times summed units. The
      means, and so the total cost, are NaN (`None`) for an empty group. */
  function Summarize(name: string, rows: seq<Sale>): (s: ClothesSummary)
    ensures s.name == name
    ensures s.costePromedio.None? <==> rows == []
    ensures s.precioVentaPromedio.None? <==> rows == []
    ensures s.costeTotal.None? <==> rows == []
    ensures s.costeTotal.Some? ==>
      s.costeTotal.value * |rows| as real == SumBy(rows, PrecioCosteOf) * SumBy(rows, UnitsOf)
    ensures s.costePromedio == Mean(rows, PrecioCosteOf)
    ensures s.precioVentaPromedio == Mean(rows, PrecioVentaOf)
    ensures s.ventasNetas == SumBy(rows, PrecioVentaOf) * SumBy(rows, UnitsOf)
    ensures s.ganancias == SumBy(rows, GananciaTotalOf)
  {
    var units := SumBy(rows, UnitsOf);
    var coste := Mean(rows, PrecioCosteOf);
    ClothesSummary(
      name,
      if coste.Some? then Some(coste.value * units) else None,
      SumBy(rows, PrecioVentaOf) * units,
      SumBy(rows, GananciaTotalOf),
      coste,
      Mean(rows, PrecioVentaOf))
  }

  /** `clothes_comparative`: upper garments first, then bottom garments. It
      reads `ganancia_total`, which only `revenue_by_product` adds: before that
      the query fails with a missing-column error. */
  function ClothesComparative(t: Table): (r: Result<seq<ClothesSummary>>)
    ensures r.Ok? <==> GananciaTotal in t.columns
    ensures r.Err? ==> r.error == KeyError("ganancia_total")
    ensures r.Ok? ==>
      && |r.value| == 2
      && r.value[0] == Summarize("ropa superior", UpperClothes(t.rows))
      && r.value[1] == Summarize("ropa inferior", BottomClothes(t.rows))
  {
    if GananciaTotal !in t.columns then Err(KeyError("ganancia_total"))
    else Ok([Summarize("ropa superior", UpperClothes(t.rows)), Summarize("ropa inferior", BottomClothes(t.rows))])
  }

  /** Every row falls in at least one group, and exactly the "vestido" rows
      fall in both. */
  lemma ClothesGroupsOverlap(rows: seq<Sale>)
    ensures forall r :: r in rows ==> r in UpperClothes(rows) || r in BottomClothes(rows)
    ensures forall r :: r in rows ==> (r in UpperClothes(rows) && r in BottomClothes(rows) <==> r.producto == "vestido")
  {
  }

  /** Adding a measure over both groups counts the "vestido" rows twice and
      every other row once: every row is in at least one group. */
  lemma {:induction false} ClothesGroupsSum(rows: seq<Sale>, f: Sale -> real)
    ensures SumBy(UpperClothes(rows), f) + SumBy(BottomClothes(rows), f)
         == SumBy(rows, f) + SumFor(rows, Producto, "vestido", f)
  {
    if rows != [] {
      ClothesGroupsSum(rows[..|rows| - 1], f);
      ClothesGroupsStep(rows, f);
    }
  }

  lemma ClothesGroupsStep(rows: seq<Sale>, f: Sale -> real)
    requires rows != []
    ensures var n := |rows| - 1;
      SumBy(UpperClothes(rows), f) + SumBy(BottomClothes(rows), f)
      == SumBy(UpperClothes(rows[..n]), f) + SumBy(BottomClothes(rows[..n]), f)
         + f(rows[n]) + (if rows[n].producto == "vestido" then f(rows[n]) else 0.0)
  {
    SelectLastSum(rows, NotUpperNames, false, f);
    SelectLastSum(rows, BottomNames, true, f);
    BottomNamesSplit(rows[|rows| - 1].producto);
  }

  lemma BottomNamesSplit(name: string)
    ensures name in BottomNames <==> name in NotUpperNames || name == "vestido"
    ensures name in NotUpperNames ==> name != "vestido"
  {
    if name in NotUpperNames {
      assert |name| != |"vestido"|;
    }
  }

  /** Selecting from one more row adds that row's measure when it is selected. */
  lemma SelectLastSum(rows: seq<Sale>, names: set<string>, member: bool, f: Sale -> real)
    requires rows != []
    ensures var n := |rows| - 1;
      SumBy(Select(rows, names, member), f)
      == SumBy(Select(rows[..n], names, member), f) + (if (rows[n].producto in names) == member then f(rows[n]) else 0.0)
  {
    var n := |rows| - 1;
    var x := rows[n];
    var a := Select(rows[..n], names, member);
    if (x.producto in names) == member {
      assert Select(rows, names, member) == a + [x];
      SumBySnoc(a, x, f);
    } else {
      assert Select(rows, names, member) == a + [];
      assert a + [] == a;
    }
  }

  lemma {:induction false} SumByNonNegative(rows: seq<Sale>, f: Sale -> real)
    requires forall i :: 0 <= i < |rows| ==> f(rows[i]) >= 0.0
    ensures SumBy(rows, f) >= 0.0
  {
    if rows != [] {
      SumByNonNegative(rows[..|rows| - 1], f);
    }
  }

  /** On a sanitised table, a group's `ventas netas` (summed prices times summed
      units) is never below its summed price times units: the two agree only
      when cross terms vanish, as for a single row. */
  lemma {:induction false} VentasNetasAtLeastNetSale(rows: seq<Sale>)
    requires forall i :: 0 <= i < |rows| ==> IsSanitized(rows[i])
    ensures SumBy(rows, PrecioVentaOf) * SumBy(rows, UnitsOf) >= SumBy(rows, PrecioTotalOf)
  {
    if rows != [] {
      var n := |rows| - 1;
      var x := rows[n];
      VentasNetasAtLeastNetSale(rows[..n]);
      SumByNonNegative(rows[..n], PrecioVentaOf);
      SumByNonNegative(rows[..n], UnitsOf);
      var p, u := SumBy(rows[..n], PrecioVentaOf), SumBy(rows[..n], UnitsOf);
      var v, w := x.precioVenta, x.unidadesVendidas as real;
      assert x.precioTotal == v * w;
      assert (p + v) * (u + w) == p * u + p * w + v * u + v * w;
      assert p * w >= 0.0 && v * u >= 0.0;
    }
  }
}
