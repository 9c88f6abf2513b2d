/** The sales table of `SalesReporter`: one record per invoice line, the derived
    columns the reports add to it, and the per-row cleaning done at construction. */
module Sales {
  import opened Text

  datatype Weekday = Monday | Tuesday | Wednesday | Thursday | Friday | Saturday | Sunday

  /** An invoice date, reduced to what the reports read from it: its ISO week
      number (without the year) and the name of its day. */
  datatype Date = Date(isoWeek: int, weekday: Weekday)

  /** The columns the class adds to its table after loading. */
  datatype Derived = PrecioTotal | Semana | GananciaPorUnidad | GananciaTotal | VentaNeta

  /** One invoice line. The five loaded columns come first; the value of a
      derived field means something only once its column is in the table. */
  datatype Sale = Sale(
    producto: string,
    fechaFactura: Date,
    precioVenta: real,
    precioCoste: real,
    unidadesVendidas: int,
    precioTotal: real,
    semana: int,
    gananciaPorUnidad: real,
    gananciaTotal: real,
    ventaNeta: real)

  /** The DataFrame: its rows and the derived columns it currently has. */
  datatype Table = Table(rows: seq<Sale>, columns: set<Derived>)

  /** The row's field for column `c` holds what the source computes for it. */
  predicate ColumnHolds(r: Sale, c: Derived) {
    match c
    case PrecioTotal => r.precioTotal == r.precioVenta * r.unidadesVendidas as real
    case Semana => r.semana == r.fechaFactura.isoWeek
    case GananciaPorUnidad => r.gananciaPorUnidad == r.precioVenta - r.precioCoste
    case GananciaTotal => r.gananciaTotal == (r.precioVenta - r.precioCoste) * r.unidadesVendidas as real
    case VentaNeta => r.ventaNeta == r.precioVenta * r.unidadesVendidas as real
  }

  /** Every derived column present in the table is up to date in every row. */
  predicate WellFormed(t: Table) {
    forall i, c :: 0 <= i < |t.rows| && c in t.columns ==> ColumnHolds(t.rows[i], c)
  }

  /** A row as `sanitize_dataframe` leaves it. */
  predicate IsSanitized(r: Sale) {
    && IsFolded(r.producto)
    && r.precioVenta >= 0.0
    && r.unidadesVendidas >= 0
    && ColumnHolds(r, PrecioTotal)
  }

  /** The table once the constructor has run. */
  predicate Sanitized(t: Table) {
    PrecioTotal in t.columns && forall i :: 0 <= i < |t.rows| ==> IsSanitized(t.rows[i])
  }

  /** `s` is `r` with at most the field of column `c` changed. */
  predicate SameOutside(r: Sale, s: Sale, c: Derived) {
    match c
    case PrecioTotal => s == r.(precioTotal := s.precioTotal)
    case Semana => s == r.(semana := s.semana)
    case GananciaPorUnidad => s == r.(gananciaPorUnidad := s.gananciaPorUnidad)
    case GananciaTotal => s == r.(gananciaTotal := s.gananciaTotal)
    case VentaNeta => s == r.(ventaNeta := s.ventaNeta)
  }

  /** Each derived column depends on loaded fields only, so writing one
      column leaves every other column's formula as true as it was. */
  lemma SameOutsideKeepsColumns(r: Sale, s: Sale, c: Derived)
    requires SameOutside(r, s, c)
    ensures forall d :: d != c ==> (ColumnHolds(s, d) <==> ColumnHolds(r, d))
    ensures c != PrecioTotal ==> (IsSanitized(s) <==> IsSanitized(r))
  {
  }

  /** Adding (or rewriting) a derived column other than `precio_total`, row by
      row, keeps a clean, well-formed table clean and well-formed. */
  lemma WithColumn(t: Table, u: Table, c: Derived)
    requires WellFormed(t) && Sanitized(t) && c != PrecioTotal
    requires |u.rows| == |t.rows| && u.columns == t.columns + {c}
    requires forall i :: 0 <= i < |u.rows| ==> SameOutside(t.rows[i], u.rows[i], c) && ColumnHolds(u.rows[i], c)
    ensures WellFormed(u) && Sanitized(u)
  {
    forall i | 0 <= i < |u.rows|
      ensures IsSanitized(u.rows[i])
      ensures forall d :: d in u.columns ==> ColumnHolds(u.rows[i], d)
    {
      SameOutsideKeepsColumns(t.rows[i], u.rows[i], c);
    }
  }

  function AbsReal(x: real): (y: real)
    ensures y >= 0.0 && (y == x || y == -x)
  {
    if x < 0.0 then -x else x
  }

  function AbsInt(x: int): (y: nat)
    ensures y == x || y == -x
  {
    if x < 0 then -x else x
  }

  /** `sanitize_dataframe` on one row: the name is folded, sale price and units
      lose their sign, the cost price is kept as loaded, and the total price
      is set. The date needs no work here: it is already a parsed date. */
  function SanitizeRow(r: Sale): (s: Sale)
    ensures IsSanitized(s)
    ensures s.producto == Fold(r.producto)
    ensures s.precioVenta == r.precioVenta || s.precioVenta == -r.precioVenta
    ensures s.unidadesVendidas == r.unidadesVendidas || s.unidadesVendidas == -r.unidadesVendidas
    ensures s.precioCoste == r.precioCoste && s.fechaFactura == r.fechaFactura
    ensures s.semana == r.semana && s.gananciaPorUnidad == r.gananciaPorUnidad
    ensures s.gananciaTotal == r.gananciaTotal && s.ventaNeta == r.ventaNeta
  {
    WithPrecioTotal(r.(producto := Fold(r.producto),
                       precioVenta := AbsReal(r.precioVenta),
                       unidadesVendidas := AbsInt(r.unidadesVendidas)))
  }

  /** `df['precio_total'] = df['precio_venta'] * df['unidades_vendidas']` on one row. */
  function WithPrecioTotal(r: Sale): (s: Sale)
    ensures ColumnHolds(s, PrecioTotal) && SameOutside(r, s, PrecioTotal)
  {
    r.(precioTotal := r.precioVenta * r.unidadesVendidas as real)
  }

  /** Setting `precio_total` where it already holds changes nothing. */
  lemma WithPrecioTotalKeeps(r: Sale)
    requires ColumnHolds(r, PrecioTotal)
    ensures WithPrecioTotal(r) == r
  {
  }

  /** Sanitising a sanitised row changes nothing. */
  lemma SanitizeRowFixesSanitized(r: Sale)
    requires IsSanitized(r)
    ensures SanitizeRow(r) == r
  {
    FoldOfFolded(r.producto);
    assert r.(producto := Fold(r.producto),
              precioVenta := AbsReal(r.precioVenta),
              unidadesVendidas := AbsInt(r.unidadesVendidas)) == r;
    WithPrecioTotalKeeps(r);
  }

  /** Cleaning every row gives a clean table, and keeps a well-formed table
      well-formed when its only derived columns are `precio_total` and `semana`
      (the others depend on the sale price, which cleaning may change). */
  lemma SanitizeTable(t: Table, clean: seq<Sale>)
    requires |clean| == |t.rows|
    requires forall i :: 0 <= i < |clean| ==> clean[i] == SanitizeRow(t.rows[i])
    ensures Sanitized(Table(clean, t.columns + {PrecioTotal}))
    ensures t.columns <= {PrecioTotal, Semana} && WellFormed(t) ==> WellFormed(Table(clean, t.columns + {PrecioTotal}))
  {
    if t.columns <= {PrecioTotal, Semana} && WellFormed(t) {
      forall i, c | 0 <= i < |clean| && c in t.columns + {PrecioTotal}
        ensures ColumnHolds(clean[i], c)
      {
        SanitizeRowKeepsSemana(t.rows[i]);
      }
    }
  }

  lemma SanitizeRowKeepsSemana(r: Sale)
    ensures ColumnHolds(SanitizeRow(r), PrecioTotal)
    ensures ColumnHolds(r, Semana) ==> ColumnHolds(SanitizeRow(r), Semana)
  {
  }

  /** Sanitising is idempotent on every row. */
  lemma SanitizeRowIdempotent(r: Sale)
    ensures SanitizeRow(SanitizeRow(r)) == SanitizeRow(r)
  {
    SanitizeRowFixesSanitized(SanitizeRow(r));
  }

  /** An invoice line for "Pantalón" with a negative price and negative units. */
  function PantalonRow(): Sale {
    Sale(PantalonName(), Date(1, Monday), -10.0, 4.0, -2, 0.0, 0, 0.0, 0.0, 0.0)
  }

  /** The row is cleaned to "pantalon" at price 10 and 2 units, with cost 4
      kept and a total price of 20. */
  lemma SanitizePantalon()
    ensures SanitizeRow(PantalonRow())
         == Sale("pantalon", Date(1, Monday), 10.0, 4.0, 2, 20.0, 0, 0.0, 0.0, 0.0)
  {
    FoldPantalon();
    assert AbsReal(-10.0) == 10.0 && AbsInt(-2) == 2;
  }

  /** `astype(int)` on a float: truncation toward zero, which differs from
      Dafny's `Floor` on negative non-integers. */
  function Trunc(x: real): (n: int)
    ensures x >= 0.0 ==> n as real <= x < n as real + 1.0
    ensures x < 0.0 ==> n as real - 1.0 < x <= n as real
  {
    if x >= 0.0 then x.Floor else -((-x).Floor)
  }

  lemma TruncRoundsTowardZero()
    ensures Trunc(-2.5) == -2 && (-2.5).Floor == -3
    ensures Trunc(2.5) == 2
  {
  }

  // Column accessors, used as the keys and measures of the group-bys.

  function Producto(r: Sale): string { r.producto }
  function WeekdayOf(r: Sale): Weekday { r.fechaFactura.weekday }
  function SemanaOf(r: Sale): int { r.semana }
  function PrecioVentaOf(r: Sale): real { r.precioVenta }
  function PrecioCosteOf(r: Sale): real { r.precioCoste }
  function UnitsOf(r: Sale): real { r.unidadesVendidas as real }
  function PrecioTotalOf(r: Sale): real { r.precioTotal }
  function GananciaTotalOf(r: Sale): real { r.gananciaTotal }
  function VentaNetaOf(r: Sale): real { r.ventaNeta }
  function CosteTotalOf(r: Sale): real { r.precioCoste * r.unidadesVendidas as real }
  function One(r: Sale): real { 1.0 }
}
