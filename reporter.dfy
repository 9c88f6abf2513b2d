/** `SalesReporter`: the object that owns the sales table. Its constructor
    cleans the table in place, and three of its reports add a derived column to
    the table before reading it; the other reports only read it. */
module Reporter {
  import opened Aggregate
  import opened Sales
  import Reports

  class SalesReporter {
    var df: Table

    /** Every present derived column is up to date and the table is clean. */
    ghost predicate Valid()
      reads this
    {
      WellFormed(df) && Sanitized(df)
    }

    /** Takes the loaded rows and sanitises them. No report has run yet, so
        `ganancia_total` is missing and the garment comparison fails. */
    constructor(rows: seq<Sale>)
      ensures Valid()
      ensures df.columns == {PrecioTotal}
      ensures |df.rows| == |rows|
      ensures forall i :: 0 <= i < |rows| ==> df.rows[i] == SanitizeRow(rows[i])
      ensures Reports.ClothesComparative(df).Err?
    {
      df := Table(rows, {});
      new;
      SanitizeDataframe();
    }

    /** `sanitize_dataframe`: every row is sanitised and `precio_total` is
        (re)computed. A table that is already valid is left as it is. */
    method SanitizeDataframe()
      modifies this
      ensures df.columns == old(df.columns) + {PrecioTotal}
      ensures |df.rows| == |old(df.rows)|
      ensures forall i :: 0 <= i < |df.rows| ==> df.rows[i] == SanitizeRow(old(df.rows[i]))
      ensures Sanitized(df)
      ensures old(df.columns) <= {PrecioTotal, Semana} && old(WellFormed(df)) ==> Valid()
      ensures old(Valid()) ==> df == old(df)
    {
      var rows := df.rows;
      var clean := seq(|rows|, i requires 0 <= i < |rows| => SanitizeRow(rows[i]));
      if WellFormed(df) && Sanitized(df) {
        forall i | 0 <= i < |rows| ensures clean[i] == rows[i] {
          SanitizeRowFixesSanitized(rows[i]);
        }
        assert clean == rows;
      }
      SanitizeTable(df, clean);
      df := Table(clean, df.columns + {PrecioTotal});
    }

    /** `top_sold_products`. */
    method TopSoldProducts() returns (ranking: seq<Entry<string>>)
      requires Valid()
      ensures ranking == Reports.TopSoldProducts(df.rows)
    {
      ranking := Reports.TopSoldProducts(df.rows);
    }

    /** `stock_resume`. */
    method StockResume() returns (names: seq<string>)
      requires Valid()
      ensures names == Reports.StockResume(df.rows)
    {
      names := Reports.StockResume(df.rows);
    }

    /** `revenue_percentage_by_product`. */
    method RevenuePercentageByProduct() returns (margins: Reports.Result<seq<Reports.Margin>>)
      requires Valid()
      ensures margins == Reports.RevenuePercentageByProduct(df.rows)
    {
      margins := Reports.RevenuePercentageByProduct(df.rows);
    }

    /** `weekly_sales_comparative`: stores each row's ISO week in `semana`, then
        reports the weekly totals and their growth. */
    method WeeklySalesComparative() returns (weekly: seq<Reports.WeekSales>)
      requires Valid()
      modifies this
      ensures Valid()
      ensures df.columns == old(df.columns) + {Semana}
      ensures |df.rows| == |old(df.rows)|
      ensures forall i :: 0 <= i < |df.rows| ==>
        df.rows[i] == old(df.rows[i]).(semana := old(df.rows[i]).fechaFactura.isoWeek)
      ensures weekly == Reports.WeeklySales(df.rows)
    {
      var rows := df.rows;
      var dated := seq(|rows|, i requires 0 <= i < |rows| => rows[i].(semana := rows[i].fechaFactura.isoWeek));
      var t := Table(dated, df.columns + {Semana});
      WithColumn(df, t, Semana);
      df := t;
      weekly := Reports.WeeklySales(dated);
    }

    /** `average_sale_price`. */
    method AverageSalePrice() returns (avg: Reports.Option<real>)
      requires Valid()
      ensures avg == Reports.AverageSalePrice(df.rows)
    {
      avg := Reports.AverageSalePrice(df.rows);
    }

    /** `sales_amount_by_weekday`. */
    method SalesAmountByWeekday() returns (counts: seq<Entry<Weekday>>)
      requires Valid()
      ensures counts == Reports.SalesAmountByWeekday(df.rows)
    {
      counts := Reports.SalesAmountByWeekday(df.rows);
    }

    /** `revenue_by_product`: stores the profit per unit and per row, then ranks
        the products by profit. Afterwards the garment comparison can run. */
    method RevenueByProduct() returns (ranking: seq<Entry<string>>)
      requires Valid()
      modifies this
      ensures Valid()
      ensures df.columns == old(df.columns) + {GananciaPorUnidad, GananciaTotal}
      ensures |df.rows| == |old(df.rows)|
      ensures forall i :: 0 <= i < |df.rows| ==>
        var r := old(df.rows[i]);
        df.rows[i] == r.(gananciaPorUnidad := r.precioVenta - r.precioCoste,
                         gananciaTotal := (r.precioVenta - r.precioCoste) * r.unidadesVendidas as real)
      ensures ranking == Reports.RevenueByProduct(df.rows)
      ensures Reports.ClothesComparative(df).Ok?
    {
      AddProfit();
      ranking := Reports.RevenueByProduct(df.rows);
    }

    /** The two column assignments of `revenue_by_product`: profit per unit,
        then profit per row as profit per unit times units. */
    method AddProfit()
      requires Valid()
      modifies this
      ensures Valid()
      ensures df.columns == old(df.columns) + {GananciaPorUnidad, GananciaTotal}
      ensures |df.rows| == |old(df.rows)|
      ensures forall i :: 0 <= i < |df.rows| ==>
        var r := old(df.rows[i]);
        df.rows[i] == r.(gananciaPorUnidad := r.precioVenta - r.precioCoste,
                         gananciaTotal := (r.precioVenta - r.precioCoste) * r.unidadesVendidas as real)
    {
      var rows := df.rows;
      var perUnit := seq(|rows|, i requires 0 <= i < |rows| =>
        rows[i].(gananciaPorUnidad := rows[i].precioVenta - rows[i].precioCoste));
      var t := Table(perUnit, df.columns + {GananciaPorUnidad});
      WithColumn(df, t, GananciaPorUnidad);
      var profited := seq(|perUnit|, i requires 0 <= i < |perUnit| =>
        perUnit[i].(gananciaTotal := perUnit[i].gananciaPorUnidad * perUnit[i].unidadesVendidas as real));
      forall i | 0 <= i < |profited|
        ensures SameOutside(perUnit[i], profited[i], GananciaTotal) && ColumnHolds(profited[i], GananciaTotal)
      {
      }
      var u := Table(profited, t.columns + {GananciaTotal});
      WithColumn(t, u, GananciaTotal);
      df := u;
    }

    /** `net_sale_by_product`: stores each row's net sale, then sums it per
        product; each sum equals the product's summed `precio_total`. */
    method NetSaleByProduct() returns (sales: seq<Entry<string>>)
      requires Valid()
      modifies this
      ensures Valid()
      ensures df.columns == old(df.columns) + {VentaNeta}
      ensures |df.rows| == |old(df.rows)|
      ensures forall i :: 0 <= i < |df.rows| ==>
        df.rows[i] == old(df.rows[i]).(ventaNeta := old(df.rows[i]).precioVenta * old(df.rows[i]).unidadesVendidas as real)
      ensures sales == Reports.NetSaleByProduct(df.rows)
      ensures forall i :: 0 <= i < |sales| ==> sales[i].value == SumFor(df.rows, Producto, sales[i].key, PrecioTotalOf)
    {
      var rows := df.rows;
      var netted := seq(|rows|, i requires 0 <= i < |rows| =>
        rows[i].(ventaNeta := rows[i].precioVenta * rows[i].unidadesVendidas as real));
      var t := Table(netted, df.columns + {VentaNeta});
      WithColumn(df, t, VentaNeta);
      df := t;
      Reports.NetSaleIsPrecioTotal(df);
      sales := Reports.NetSaleByProduct(netted);
    }

    /** `clothes_comparative`: fails until `revenue_by_product` has added
        `ganancia_total`. */
    method ClothesComparative() returns (summary: Reports.Result<seq<Reports.ClothesSummary>>)
      requires Valid()
      ensures summary == Reports.ClothesComparative(df)
      ensures summary.Ok? <==> GananciaTotal in df.columns
    {
      summary := Reports.ClothesComparative(df);
    }
  }
}
