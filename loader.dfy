/** `load_all_data`: the table store (the `DB` dictionary) is filled by safe
    reads, then updated in place by the date pass over every table and by the
    numeric cleaning of the tables the dashboard computes with. */
module Loader {
  import opened Values
  import opened Normalize
  import opened Frames

  /** The seventeen logical tables, the keys of the store. */
  datatype TableId =
    | Ventas | Feriados | Partidos | Costos | Qc | Merma | Caja | Capex | Fijos
    | Forecast | Soberania | Deuda | MenuEng | CxTiempos | Yape | MktSemanal | Diaria

  const AllTables: set<TableId> :=
    {Ventas, Feriados, Partidos, Costos, Qc, Merma, Caja, Capex, Fijos,
     Forecast, Soberania, Deuda, MenuEng, CxTiempos, Yape, MktSemanal, Diaria}

  /** The file key and sheet each table is read from. */
  function SourceOf(t: TableId): (string, string)
  {
    match t
    case Ventas => ("REGISTROS", "BD_Ventas")
    case Feriados => ("REGISTROS", "MASTER_FERIADOS")
    case Partidos => ("REGISTROS", "MASTER_PARTIDOS")
    case Costos => ("COSTOS", "OUT_Costos_Productos")
    case Qc => ("COSTOS", "OUT_QC_Compras_NoConvertibles")
    case Merma => ("INVENTARIO", "OUT_Merma_Valorizada")
    case Caja => ("CAJA", "BD_Caja_Diaria")
    case Capex => ("CAJA", "PARAM_PROYECTOS_CAPEX")
    case Fijos => ("CAJA", "PARAM_COSTOS_FIJOS")
    case Forecast => ("FORECAST", "OUT_Pronostico_Ventas")
    case Soberania => ("FORECAST", "OUT_Soberania_Financiera")
    case Deuda => ("LIBROS", "Libro_Cuentas_Pagar")
    case MenuEng => ("MKT_RESULTADOS", "OUT_Menu_Engineering")
    case CxTiempos => ("MKT_RESULTADOS", "BD_CX_Tiempos")
    case Yape => ("MKT_RESULTADOS", "Data_Clientes_Yape")
    case MktSemanal => ("MKT_REGISTROS", "BD_Marketing_Semanal")
    case Diaria => ("REGISTROS", "Data_Diaria")
  }

  /** Priority-ordered aliases. */
  const SalesAliases: seq<string> := ["Total_Venta", "Total Venta", "total_venta", "Monto"]
  const MarginAliases: seq<string> := ["Margen_%", "Margen %", "Margen_Pct", "Margen", "margen"]
  const PriceAliases: seq<string> := ["Precio_num", "Precio", "Precio_Venta", "PVP", "Precio Carta"]
  const MenuTargets: seq<string> := ["Margen", "Mix_Percent", "Total_Venta", "Precio_num"]
  const YapeRenames: map<string, string> := map["monto" := "Monto", "origen" := "Origen", "fecha" := "Fecha_Operacion"]

  /** Price used when the cost table has no price column. */
  const DefaultPrice: real := 10.0

  function ToNumber(v: Value): Value { Number(ToNumeric(v)) }

  /** Every column of `f` outside `changed` is still in `g`, with the same
      cells. */
  predicate KeepsOthers(f: Frame, g: Frame, changed: seq<string>)
    requires WellFormed(f) && WellFormed(g)
  {
    forall c :: c in f.columns && c !in changed ==> c in g.columns && Column(g, c) == Column(f, c)
  }

  /** Column `dst` of `g` is column `src` of `f`, cleaned row by row. */
  predicate CleanedFrom(f: Frame, src: string, g: Frame, dst: string)
    requires WellFormed(f) && WellFormed(g) && src in f.columns && dst in g.columns && |g.rows| == |f.rows|
  {
    forall i :: 0 <= i < |g.rows| ==> Column(g, dst)[i] == CleanCurrency(Column(f, src)[i])
  }

  /** Column `dst` of `g` holds `v` in every row. */
  predicate Filled(g: Frame, dst: string, v: Value)
    requires WellFormed(g) && dst in g.columns
  {
    forall i :: 0 <= i < |g.rows| ==> Column(g, dst)[i] == v
  }

  /** `df[dst] = df[src].apply(clean_currency)`. */
  function CleanInto(f: Frame, src: string, dst: string): (g: Frame)
    requires WellFormed(f) && src in f.columns
    ensures WellFormed(g) && dst in g.columns && |g.rows| == |f.rows|
    ensures g.columns == if dst in f.columns then f.columns else f.columns + [dst]
    ensures forall i :: 0 <= i < |g.rows| ==> Column(g, dst)[i] == CleanCurrency(Column(f, src)[i])
    ensures KeepsOthers(f, g, [dst])
  {
    SetColumn(f, dst, MapColumn(f, src, CleanCurrency))
  }

  /** The first alias present is cleaned into `dst`; with none, `dst` holds
      the default in every row. No other column changes. */
  function ResolveInto(f: Frame, aliases: seq<string>, dst: string, default: real): (g: Frame)
    requires WellFormed(f)
    ensures WellFormed(g) && dst in g.columns && |g.rows| == |f.rows|
    ensures g.columns == if dst in f.columns then f.columns else f.columns + [dst]
    ensures (forall i :: 0 <= i < |aliases| ==> aliases[i] !in f.columns) ==>
      forall i :: 0 <= i < |g.rows| ==> Column(g, dst)[i] == Number(default)
    ensures FirstPresent(aliases, f.columns).Some? ==> CleanedFrom(f, FirstPresent(aliases, f.columns).value, g, dst)
    ensures KeepsOthers(f, g, [dst])
  {
    match FirstPresent(aliases, f.columns)
    case Some(c) => CleanInto(f, c, dst)
    case None => SetColumn(f, dst, Fill(f, Number(default)))
  }

  /** Step A: sales amount into `Monto` (0.0 without an alias), units coerced
      to numbers when the `Cantidad` column exists. */
  function CleanSales(f: Frame): (g: Frame)
    requires WellFormed(f)
    ensures WellFormed(g) && |g.rows| == |f.rows|
    ensures IsEmpty(f) ==> g == f
    ensures !IsEmpty(f) ==> "Monto" in g.columns
    ensures !IsEmpty(f) ==> g.columns == if "Monto" in f.columns then f.columns else f.columns + ["Monto"]
    ensures !IsEmpty(f) && FirstPresent(SalesAliases, f.columns).Some? ==>
      CleanedFrom(f, FirstPresent(SalesAliases, f.columns).value, g, "Monto")
    ensures !IsEmpty(f) && FirstPresent(SalesAliases, f.columns).None? ==> Filled(g, "Monto", Number(0.0))
    ensures !IsEmpty(f) && "Cantidad" in f.columns ==>
      forall i :: 0 <= i < |g.rows| ==> Column(g, "Cantidad")[i] == ToNumber(Column(f, "Cantidad")[i])
    ensures KeepsOthers(f, g, ["Monto", "Cantidad"])
  {
    if IsEmpty(f) then f
    else
      var g := ResolveInto(f, SalesAliases, "Monto", 0.0);
      if "Cantidad" in g.columns then SetColumn(g, "Cantidad", MapColumn(g, "Cantidad", ToNumber)) else g
  }

  /** An extra column that is not an alias does not change the pick. */
  lemma {:induction false} FirstPresentExtra(aliases: seq<string>, cols: seq<string>, x: string)
    requires x !in aliases
    ensures FirstPresent(aliases, cols + [x]) == FirstPresent(aliases, cols)
  {
    if |aliases| > 0 {
      assert aliases[0] in cols + [x] <==> aliases[0] in cols;
      assert x !in aliases[1..];
      FirstPresentExtra(aliases[1..], cols, x);
    }
  }

  /** The alias picked is one of the aliases. */
  lemma PickedAlias(aliases: seq<string>, cols: seq<string>)
    requires FirstPresent(aliases, cols).Some?
    ensures FirstPresent(aliases, cols).value in aliases
  {
  }

  /** Step B: margin into `Margen_Pct` (0.0 without an alias) and price into
      `Precio_num` (10.0 without an alias). No other column changes. */
  function CleanCosts(f: Frame): (g: Frame)
    requires WellFormed(f)
    ensures WellFormed(g) && |g.rows| == |f.rows|
    ensures IsEmpty(f) ==> g == f
    ensures !IsEmpty(f) ==> "Margen_Pct" in g.columns && "Precio_num" in g.columns
    ensures !IsEmpty(f) && FirstPresent(MarginAliases, f.columns).Some? ==>
      CleanedFrom(f, FirstPresent(MarginAliases, f.columns).value, g, "Margen_Pct")
    ensures !IsEmpty(f) && FirstPresent(MarginAliases, f.columns).None? ==> Filled(g, "Margen_Pct", Number(0.0))
    ensures !IsEmpty(f) && FirstPresent(PriceAliases, f.columns).Some? ==>
      CleanedFrom(f, FirstPresent(PriceAliases, f.columns).value, g, "Precio_num")
    ensures !IsEmpty(f) && FirstPresent(PriceAliases, f.columns).None? ==> Filled(g, "Precio_num", Number(DefaultPrice))
    ensures KeepsOthers(f, g, ["Margen_Pct", "Precio_num"])
  {
    if IsEmpty(f) then f
    else
      var m := ResolveInto(f, MarginAliases, "Margen_Pct", 0.0);
      var g := ResolveInto(m, PriceAliases, "Precio_num", DefaultPrice);
      CostsPick(f, m);
      CostsMargin(f, m, g);
      CostsPrice(f, m, g);
      CostsOthers(f, m, g);
      g
  }

  /** The price step sees the same price alias as the original table. */
  lemma CostsPick(f: Frame, m: Frame)
    requires WellFormed(f)
    requires m == ResolveInto(f, MarginAliases, "Margen_Pct", 0.0)
    ensures FirstPresent(PriceAliases, m.columns) == FirstPresent(PriceAliases, f.columns)
  {
    PriceAliasesNoMargin();
    if "Margen_Pct" !in f.columns {
      FirstPresentExtra(PriceAliases, f.columns, "Margen_Pct");
    }
  }

  lemma PriceAliasesNoMargin()
    ensures "Margen_Pct" !in PriceAliases
  {
  }

  /** The price step leaves the margin column alone. */
  lemma CostsMargin(f: Frame, m: Frame, g: Frame)
    requires WellFormed(f)
    requires m == ResolveInto(f, MarginAliases, "Margen_Pct", 0.0)
    requires g == ResolveInto(m, PriceAliases, "Precio_num", DefaultPrice)
    ensures "Margen_Pct" in g.columns && "Precio_num" in g.columns
    ensures forall i :: 0 <= i < |g.rows| ==> Column(g, "Margen_Pct")[i] == Column(m, "Margen_Pct")[i]
  {
    assert Column(g, "Margen_Pct") == Column(m, "Margen_Pct");
  }

  /** The price column is the cleaned price alias of the original table. */
  lemma CostsPrice(f: Frame, m: Frame, g: Frame)
    requires WellFormed(f)
    requires m == ResolveInto(f, MarginAliases, "Margen_Pct", 0.0)
    requires g == ResolveInto(m, PriceAliases, "Precio_num", DefaultPrice)
    requires FirstPresent(PriceAliases, m.columns) == FirstPresent(PriceAliases, f.columns)
    ensures FirstPresent(PriceAliases, f.columns).Some? ==>
      CleanedFrom(f, FirstPresent(PriceAliases, f.columns).value, g, "Precio_num")
  {
    var pa := FirstPresent(PriceAliases, f.columns);
    if pa.Some? {
      PickedAlias(PriceAliases, f.columns);
      PriceAliasesNoMargin();
      assert pa.value in f.columns && pa.value !in ["Margen_Pct"];
      CleanedThrough(f, m, pa.value, g, "Precio_num");
    }
  }

  /** Cleaning a column that an earlier step left alone is cleaning the
      original column. */
  lemma CleanedThrough(f: Frame, m: Frame, src: string, g: Frame, dst: string)
    requires WellFormed(f) && WellFormed(m) && WellFormed(g)
    requires src in f.columns && src in m.columns && dst in g.columns
    requires |m.rows| == |f.rows| && |g.rows| == |m.rows|
    requires Column(m, src) == Column(f, src) && CleanedFrom(m, src, g, dst)
    ensures CleanedFrom(f, src, g, dst)
  {
  }

  /** The two steps together change only the margin and price columns. */
  lemma CostsOthers(f: Frame, m: Frame, g: Frame)
    requires WellFormed(f)
    requires m == ResolveInto(f, MarginAliases, "Margen_Pct", 0.0)
    requires g == ResolveInto(m, PriceAliases, "Precio_num", DefaultPrice)
    ensures KeepsOthers(f, g, ["Margen_Pct", "Precio_num"])
  {
    forall c | c in f.columns && c !in ["Margen_Pct", "Precio_num"]
      ensures c in g.columns && Column(g, c) == Column(f, c)
    {
      assert Column(m, c) == Column(f, c);
    }
  }

  /** Cleaning of one named column in place, when the table has it. */
  function CleanIfPresent(f: Frame, col: string): (g: Frame)
    requires WellFormed(f)
    ensures WellFormed(g) && |g.rows| == |f.rows|
    ensures IsEmpty(f) || col !in f.columns ==> g == f
    ensures !IsEmpty(f) && col in f.columns ==>
      g.columns == f.columns && CleanedFrom(f, col, g, col)
    ensures KeepsOthers(f, g, [col])
  {
    if !IsEmpty(f) && col in f.columns then CleanInto(f, col, col) else f
  }

  /** Step C: waste amount cleaned into `Monto_Merma`. */
  function CleanWaste(f: Frame): (g: Frame)
    requires WellFormed(f)
    ensures WellFormed(g) && |g.rows| == |f.rows|
    ensures IsEmpty(f) || "Merma_Soles" !in f.columns ==> g == f
    ensures !IsEmpty(f) && "Merma_Soles" in f.columns ==>
      g.columns == (if "Monto_Merma" in f.columns then f.columns else f.columns + ["Monto_Merma"])
      && CleanedFrom(f, "Merma_Soles", g, "Monto_Merma")
    ensures KeepsOthers(f, g, ["Monto_Merma"])
  {
    if !IsEmpty(f) && "Merma_Soles" in f.columns then CleanInto(f, "Merma_Soles", "Monto_Merma") else f
  }

  /** Step D, as a function: each menu target present is cleaned in place
      (cleaning twice is cleaning once, so a repeated target changes
      nothing more); every other column is unchanged. */
  function CleanTargets(f: Frame, targets: seq<string>): (g: Frame)
    requires WellFormed(f)
    ensures WellFormed(g) && |g.rows| == |f.rows| && g.columns == f.columns
    ensures forall c :: c in f.columns && c in targets ==> CleanedFrom(f, c, g, c)
    ensures KeepsOthers(f, g, targets)
    decreases |targets|
  {
    if |targets| == 0 then f
    else
      var init := targets[..|targets| - 1];
      var h := CleanTargets(f, init);
      var t := targets[|targets| - 1];
      if t in h.columns then
        var g := CleanInto(h, t, t);
        TargetsStep(f, init, h, t, g);
        g
      else
        assert forall c :: c in targets <==> c in init || c == t;
        h
  }

  lemma TargetsStep(f: Frame, init: seq<string>, h: Frame, t: string, g: Frame)
    requires WellFormed(f) && WellFormed(h) && |h.rows| == |f.rows| && h.columns == f.columns
    requires forall c :: c in f.columns && c in init ==> CleanedFrom(f, c, h, c)
    requires KeepsOthers(f, h, init)
    requires t in h.columns && g == CleanInto(h, t, t)
    ensures forall c :: c in f.columns && c in init + [t] ==> CleanedFrom(f, c, g, c)
    ensures KeepsOthers(f, g, init + [t])
  {
    forall c | c in f.columns && c in init + [t]
      ensures CleanedFrom(f, c, g, c)
    {
      if c == t {
        forall i | 0 <= i < |g.rows|
          ensures Column(g, c)[i] == CleanCurrency(Column(f, c)[i])
        {
          CleanCurrencyIdempotent(Column(f, c)[i]);
        }
      } else {
        assert Column(g, c) == Column(h, c);
      }
    }
  }

  /** Step E: payment-log columns renamed (`monto`, `origen`, `fecha`), then
      the amount cleaned. */
  function CleanPayments(f: Frame): (g: Frame)
    requires WellFormed(f)
    ensures WellFormed(g) && |g.rows| == |f.rows|
    ensures IsEmpty(f) ==> g == f
    ensures !IsEmpty(f) ==> g.columns == Rename(f, YapeRenames).columns
    ensures !IsEmpty(f) && "Monto" !in Rename(f, YapeRenames).columns ==> g == Rename(f, YapeRenames)
    ensures !IsEmpty(f) && "Monto" in Rename(f, YapeRenames).columns ==>
      CleanedFrom(Rename(f, YapeRenames), "Monto", g, "Monto") && KeepsOthers(Rename(f, YapeRenames), g, ["Monto"])
  {
    if IsEmpty(f) then f
    else
      var r := Rename(f, YapeRenames);
      if "Monto" in r.columns then CleanInto(r, "Monto", "Monto") else r
  }

  /** Every table is present and well formed. */
  ghost predicate StoreValid(m: map<TableId, Table>)
  {
    m.Keys == AllTables
  }

  class Database {
    var tables: map<TableId, Table>

    ghost predicate Valid()
      reads this
    {
      StoreValid(tables)
    }

    /** Part 2: each table holds the safe read of its file and sheet. */
    constructor Load(ids: map<string, string>, fetch: (string, string) -> Option<Grid>)
      ensures Valid()
      ensures forall t :: t in AllTables ==> tables[t] == SafeRead(ids, fetch, SourceOf(t).0, SourceOf(t).1)
    {
      tables := map t | t in AllTables :: SafeRead(ids, fetch, SourceOf(t).0, SourceOf(t).1);
    }

    /** Part 3: every table, in turn, gets the date pass; the candidate
        columns are tried in order and the first one present is used. */
    method CleanDates(dayFirst: Parser, mixed: Parser)
      requires Valid()
      modifies this
      ensures Valid()
      ensures forall k :: k in tables ==> tables[k] == CleanFrameDates(old(tables)[k], dayFirst, mixed)
    {
      tables := DatePassAll(tables, dayFirst, mixed);
    }

    /** Step A: the sales amount and units. */
    method CleanSalesTable()
      requires Valid()
      modifies this
      ensures Valid() && tables == old(tables)[Ventas := CleanSales(old(tables)[Ventas])]
    {
      tables := tables[Ventas := CleanSales(tables[Ventas])];
    }

    /** Step B: the margin and the price. */
    method CleanCostsTable()
      requires Valid()
      modifies this
      ensures Valid() && tables == old(tables)[Costos := CleanCosts(old(tables)[Costos])]
    {
      tables := tables[Costos := CleanCosts(tables[Costos])];
    }

    /** Step C: the waste amount. */
    method CleanWasteTable()
      requires Valid()
      modifies this
      ensures Valid() && tables == old(tables)[Merma := CleanWaste(old(tables)[Merma])]
    {
      tables := tables[Merma := CleanWaste(tables[Merma])];
    }

    /** Step D: the menu-engineering targets. */
    method CleanMenuTable()
      requires Valid()
      modifies this
      ensures Valid() && tables == old(tables)[MenuEng := CleanMenuFrame(old(tables)[MenuEng])]
    {
      if !IsEmpty(tables[MenuEng]) {
        var menu := CleanMenu(tables[MenuEng]);
        tables := tables[MenuEng := menu];
      }
    }

    /** Step E: the payment log. */
    method CleanPaymentsTable()
      requires Valid()
      modifies this
      ensures Valid() && tables == old(tables)[Yape := CleanPayments(old(tables)[Yape])]
    {
      tables := tables[Yape := CleanPayments(tables[Yape])];
    }

    /** Step F: the weekly ad spend. */
    method CleanAdsTable()
      requires Valid()
      modifies this
      ensures Valid() && tables == old(tables)[MktSemanal := CleanAds(old(tables)[MktSemanal])]
    {
      tables := tables[MktSemanal := CleanAds(tables[MktSemanal])];
    }

    /** After step F: the monthly fixed costs. */
    method CleanFixedTable()
      requires Valid()
      modifies this
      ensures Valid() && tables == old(tables)[Fijos := CleanFixed(old(tables)[Fijos])]
    {
      tables := tables[Fijos := CleanFixed(tables[Fijos])];
    }

    /** Steps A to C. */
    method CleanProductTables()
      requires Valid()
      modifies this
      ensures Valid() && tables == ProductsPassed(old(tables))
    {
      CleanSalesTable();
      CleanCostsTable();
      CleanWasteTable();
    }

    /** Steps D to F and the fixed costs. */
    method CleanMarketingTables()
      requires Valid()
      modifies this
      ensures Valid() && tables == MarketingPassed(old(tables))
    {
      CleanMenuTable();
      CleanPaymentsTable();
      CleanAdsTable();
      CleanFixedTable();
    }

    /** Part 4: the numeric cleaning, table by table, in the source's order. */
    method CleanNumeric()
      requires Valid()
      modifies this
      ensures Valid() && tables == NumericPassed(old(tables))
    {
      CleanProductTables();
      CleanMarketingTables();
    }
  }

  /** The date pass over a whole store, one table at a time in any order. */
  method DatePassAll(m: map<TableId, Table>, dayFirst: Parser, mixed: Parser) returns (r: map<TableId, Table>)
    ensures r.Keys == m.Keys
    ensures forall k :: k in m ==> r[k] == CleanFrameDates(m[k], dayFirst, mixed)
  {
    r := m;
    var todo := m.Keys;
    while todo != {}
      invariant todo <= r.Keys && r.Keys == m.Keys
      invariant forall k :: k in r ==> r[k] == if k in todo then m[k] else CleanFrameDates(m[k], dayFirst, mixed)
      decreases todo
    {
      var key :| key in todo;
      var g := DatePassTable(r[key], dayFirst, mixed);
      r := r[key := g];
      todo := todo - {key};
    }
  }

  /** The date pass on one table: the candidate columns are tried in order
      and the first one present is parsed; the loop stops there. */
  method DatePassTable(f: Frame, dayFirst: Parser, mixed: Parser) returns (g: Frame)
    requires WellFormed(f)
    ensures g == CleanFrameDates(f, dayFirst, mixed)
  {
    g := f;
    if !IsEmpty(f) {
      var j := 0;
      while j < |DateColumns|
        invariant 0 <= j <= |DateColumns|
        invariant forall i :: 0 <= i < j ==> DateColumns[i] !in f.columns
        invariant g == f
      {
        if DateColumns[j] in f.columns {
          FirstPresentAt(DateColumns, f.columns, j);
          g := ParseDateColumn(f, DateColumns[j], dayFirst, mixed);
          return;
        }
        j := j + 1;
      }
      assert FirstPresent(DateColumns, f.columns).None?;
    }
  }

  /** Step D, as the source runs it: each menu target, in order, is cleaned
      in place when the table has it. */
  method CleanMenu(f: Frame) returns (g: Frame)
    requires WellFormed(f)
    ensures g == CleanTargets(f, MenuTargets)
  {
    g := f;
    for t := 0 to |MenuTargets|
      invariant WellFormed(g) && g == CleanTargets(f, MenuTargets[..t])
    {
      assert MenuTargets[..t + 1][..t] == MenuTargets[..t];
      if MenuTargets[t] in g.columns {
        g := CleanInto(g, MenuTargets[t], MenuTargets[t]);
      }
    }
    assert MenuTargets[..|MenuTargets|] == MenuTargets;
  }

  /** Step D on the table: an empty table is left alone; otherwise every
      menu target it has is cleaned and no other column changes. */
  function CleanMenuFrame(f: Table): (g: Table)
    ensures IsEmpty(f) ==> g == f
    ensures |g.rows| == |f.rows| && g.columns == f.columns
    ensures !IsEmpty(f) ==> forall c :: c in f.columns && c in MenuTargets ==> CleanedFrom(f, c, g, c)
    ensures KeepsOthers(f, g, MenuTargets)
  {
    if IsEmpty(f) then f else CleanTargets(f, MenuTargets)
  }

  /** The weekly ad spend cleaned in place, when the sheet has it. */
  function CleanAds(f: Table): (g: Table)
    ensures IsEmpty(f) || "Gasto_Ads" !in f.columns ==> g == f
    ensures !IsEmpty(f) && "Gasto_Ads" in f.columns ==>
      g.columns == f.columns && |g.rows| == |f.rows| && CleanedFrom(f, "Gasto_Ads", g, "Gasto_Ads")
    ensures KeepsOthers(f, g, ["Gasto_Ads"])
  {
    CleanIfPresent(f, "Gasto_Ads")
  }

  /** The monthly fixed costs cleaned in place, when the sheet has them. */
  function CleanFixed(f: Table): (g: Table)
    ensures IsEmpty(f) || "Monto_Mensual" !in f.columns ==> g == f
    ensures !IsEmpty(f) && "Monto_Mensual" in f.columns ==>
      g.columns == f.columns && |g.rows| == |f.rows| && CleanedFrom(f, "Monto_Mensual", g, "Monto_Mensual")
    ensures KeepsOthers(f, g, ["Monto_Mensual"])
  {
    CleanIfPresent(f, "Monto_Mensual")
  }

  function ProductsPassed(m: map<TableId, Table>): (r: map<TableId, Table>)
    requires m.Keys == AllTables
    ensures r.Keys == AllTables
  {
    m[Ventas := CleanSales(m[Ventas])][Costos := CleanCosts(m[Costos])][Merma := CleanWaste(m[Merma])]
  }

  function MarketingPassed(m: map<TableId, Table>): (r: map<TableId, Table>)
    requires m.Keys == AllTables
    ensures r.Keys == AllTables
  {
    m[MenuEng := CleanMenuFrame(m[MenuEng])][Yape := CleanPayments(m[Yape])]
     [MktSemanal := CleanAds(m[MktSemanal])][Fijos := CleanFixed(m[Fijos])]
  }

  /** The store after the numeric pass. */
  function NumericPassed(m: map<TableId, Table>): (r: map<TableId, Table>)
    requires m.Keys == AllTables
    ensures r.Keys == AllTables
  {
    MarketingPassed(ProductsPassed(m))
  }

  /** The tables the numeric step rewrites. */
  const ChangedTables: set<TableId> := {Ventas, Costos, Merma, MenuEng, Yape, MktSemanal, Fijos}

  /** The numeric pass rewrites each of its seven tables with that table's
      own cleaning and leaves the other ten as loaded. */
  lemma NumericPassTables(m: map<TableId, Table>)
    requires m.Keys == AllTables
    ensures NumericPassed(m)[Ventas] == CleanSales(m[Ventas])
    ensures NumericPassed(m)[Costos] == CleanCosts(m[Costos])
    ensures NumericPassed(m)[Merma] == CleanWaste(m[Merma])
    ensures NumericPassed(m)[MenuEng] == CleanMenuFrame(m[MenuEng])
    ensures NumericPassed(m)[Yape] == CleanPayments(m[Yape])
    ensures NumericPassed(m)[MktSemanal] == CleanAds(m[MktSemanal])
    ensures NumericPassed(m)[Fijos] == CleanFixed(m[Fijos])
    ensures forall k :: k in AllTables && k !in ChangedTables ==> NumericPassed(m)[k] == m[k]
  {
    NumericProducts(m);
    NumericMarketing(m);
    NumericUntouched(m);
  }

  lemma NumericProducts(m: map<TableId, Table>)
    requires m.Keys == AllTables
    ensures NumericPassed(m)[Ventas] == CleanSales(m[Ventas])
    ensures NumericPassed(m)[Costos] == CleanCosts(m[Costos])
    ensures NumericPassed(m)[Merma] == CleanWaste(m[Merma])
  {
    var p := ProductsPassed(m);
    ProductsTables(m);
    MarketingTables(p);
    assert Ventas !in {MenuEng, Yape, MktSemanal, Fijos};
    assert Costos !in {MenuEng, Yape, MktSemanal, Fijos};
    assert Merma !in {MenuEng, Yape, MktSemanal, Fijos};
  }

  lemma NumericMarketing(m: map<TableId, Table>)
    requires m.Keys == AllTables
    ensures NumericPassed(m)[MenuEng] == CleanMenuFrame(m[MenuEng])
    ensures NumericPassed(m)[Yape] == CleanPayments(m[Yape])
    ensures NumericPassed(m)[MktSemanal] == CleanAds(m[MktSemanal])
    ensures NumericPassed(m)[Fijos] == CleanFixed(m[Fijos])
  {
    var p := ProductsPassed(m);
    ProductsTables(m);
    MarketingTables(p);
    assert p[MenuEng] == m[MenuEng] && p[Yape] == m[Yape] && p[MktSemanal] == m[MktSemanal] && p[Fijos] == m[Fijos];
  }

  lemma NumericUntouched(m: map<TableId, Table>)
    requires m.Keys == AllTables
    ensures forall k :: k in AllTables && k !in ChangedTables ==> NumericPassed(m)[k] == m[k]
  {
    var p := ProductsPassed(m);
    ProductsTables(m);
    MarketingTables(p);
    forall k | k in AllTables && k !in ChangedTables
      ensures NumericPassed(m)[k] == m[k]
    {
      assert k !in {Ventas, Costos, Merma} && k !in {MenuEng, Yape, MktSemanal, Fijos};
    }
  }

  lemma ProductsTables(m: map<TableId, Table>)
    requires m.Keys == AllTables
    ensures ProductsPassed(m)[Ventas] == CleanSales(m[Ventas])
    ensures ProductsPassed(m)[Costos] == CleanCosts(m[Costos])
    ensures ProductsPassed(m)[Merma] == CleanWaste(m[Merma])
    ensures forall k :: k in AllTables && k !in {Ventas, Costos, Merma} ==> ProductsPassed(m)[k] == m[k]
  {
    ThreeUpdates(m, Ventas, CleanSales(m[Ventas]), Costos, CleanCosts(m[Costos]), Merma, CleanWaste(m[Merma]));
  }

  lemma MarketingTables(m: map<TableId, Table>)
    requires m.Keys == AllTables
    ensures MarketingPassed(m)[MenuEng] == CleanMenuFrame(m[MenuEng])
    ensures MarketingPassed(m)[Yape] == CleanPayments(m[Yape])
    ensures MarketingPassed(m)[MktSemanal] == CleanAds(m[MktSemanal])
    ensures MarketingPassed(m)[Fijos] == CleanFixed(m[Fijos])
    ensures forall k :: k in AllTables && k !in {MenuEng, Yape, MktSemanal, Fijos} ==> MarketingPassed(m)[k] == m[k]
  {
    FourUpdates(m, MenuEng, CleanMenuFrame(m[MenuEng]), Yape, CleanPayments(m[Yape]),
                MktSemanal, CleanAds(m[MktSemanal]), Fijos, CleanFixed(m[Fijos]));
  }

  /** Four updates at four distinct keys. */
  lemma FourUpdates<K, V>(m: map<K, V>, a: K, x: V, b: K, y: V, c: K, z: V, d: K, w: V)
    requires a != b && a != c && a != d && b != c && b != d && c != d
    ensures var r := m[a := x][b := y][c := z][d := w];
      r[a] == x && r[b] == y && r[c] == z && r[d] == w && r.Keys == m.Keys + {a, b, c, d}
      && forall k :: k in m && k !in {a, b, c, d} ==> r[k] == m[k]
  {
  }

  /** Three updates at three distinct keys: each key holds its new value and
      every other key its old one. */
  lemma ThreeUpdates<K, V>(m: map<K, V>, a: K, x: V, b: K, y: V, c: K, z: V)
    requires a != b && a != c && b != c
    ensures var r := m[a := x][b := y][c := z];
      r[a] == x && r[b] == y && r[c] == z && r.Keys == m.Keys + {a, b, c}
      && forall k :: k in m && k !in {a, b, c} ==> r[k] == m[k]
  {
  }

  /** After the numeric pass a non-empty sales table has its amount column
      and a non-empty cost table its margin and price columns. */
  lemma NumericPassColumns(m: map<TableId, Table>)
    requires m.Keys == AllTables
    ensures !IsEmpty(m[Ventas]) ==> "Monto" in NumericPassed(m)[Ventas].columns
    ensures !IsEmpty(m[Costos]) ==>
      "Margen_Pct" in NumericPassed(m)[Costos].columns && "Precio_num" in NumericPassed(m)[Costos].columns
  {
    NumericPassTables(m);
  }

  /** Every table read and given the date pass. */
  function DatedReads(ids: map<string, string>, fetch: (string, string) -> Option<Grid>,
                      dayFirst: Parser, mixed: Parser): (m: map<TableId, Table>)
    ensures m.Keys == AllTables
  {
    map t | t in AllTables :: DatedRead(ids, fetch, t, dayFirst, mixed)
  }

  /** One table read and given the date pass. */
  function DatedRead(ids: map<string, string>, fetch: (string, string) -> Option<Grid>, t: TableId,
                     dayFirst: Parser, mixed: Parser): Frame
  {
    CleanFrameDates(SafeRead(ids, fetch, SourceOf(t).0, SourceOf(t).1), dayFirst, mixed)
  }

  /** The whole loader: read, date pass, numeric pass. */
  method LoadAllData(ids: map<string, string>, fetch: (string, string) -> Option<Grid>,
                     dayFirst: Parser, mixed: Parser) returns (db: Database)
    ensures fresh(db) && db.Valid()
    ensures db.tables == NumericPassed(DatedReads(ids, fetch, dayFirst, mixed))
  {
    db := new Database.Load(ids, fetch);
    db.CleanDates(dayFirst, mixed);
    DatedReadsPointwise(db.tables, ids, fetch, dayFirst, mixed);
    db.CleanNumeric();
  }

  lemma DatedReadsPointwise(m: map<TableId, Table>, ids: map<string, string>,
                            fetch: (string, string) -> Option<Grid>, dayFirst: Parser, mixed: Parser)
    requires m.Keys == AllTables
    requires forall t :: t in m ==>
      m[t] == DatedRead(ids, fetch, t, dayFirst, mixed)
    ensures m == DatedReads(ids, fetch, dayFirst, mixed)
  {
    var d := DatedReads(ids, fetch, dayFirst, mixed);
    forall t | t in m
      ensures m[t] == d[t]
    {
    }
    SameEntries(m, d);
  }

  /** Two maps with the same keys and the same value at every key are equal. */
  lemma SameEntries<K, V>(a: map<K, V>, b: map<K, V>)
    requires a.Keys == b.Keys && forall k :: k in a ==> a[k] == b[k]
    ensures a == b
  {
  }

  /** The loop's chosen column is the one the alias rule picks. */
  lemma FirstPresentAt(aliases: seq<string>, headers: seq<string>, j: nat)
    requires j < |aliases| && aliases[j] in headers
    requires forall i :: 0 <= i < j ==> aliases[i] !in headers
    ensures FirstPresent(aliases, headers) == Some(aliases[j])
  {
    var r := FirstPresent(aliases, headers);
    var i :| 0 <= i < |aliases| && aliases[i] == r.value && r.value in headers
             && forall j' :: 0 <= j' < i ==> aliases[j'] !in headers;
    assert i == j;
  }

  // ---------------------------------------------------------------------------
  // Alias priority

  /** `Total_Venta` outranks every other alias, `Monto` included: with both
      present, the cleaned `Total_Venta` is the amount. */
  lemma SalesAmountPriority(f: Frame)
    requires WellFormed(f) && !IsEmpty(f) && "Total_Venta" in f.columns
    ensures forall i :: 0 <= i < |f.rows| ==>
      Column(ResolveInto(f, SalesAliases, "Monto", 0.0), "Monto")[i] == CleanCurrency(Column(f, "Total_Venta")[i])
  {
    assert FirstPresent(SalesAliases, f.columns) == Some("Total_Venta");
  }

  /** A cost table with no price column gets the 10.0 default price. */
  lemma DefaultPriceFill(f: Frame)
    requires WellFormed(f) && !IsEmpty(f)
    requires forall i :: 0 <= i < |PriceAliases| ==> PriceAliases[i] !in f.columns
    ensures forall i :: 0 <= i < |f.rows| ==> Column(CleanCosts(f), "Precio_num")[i] == Number(10.0)
  {
    assert FirstPresent(PriceAliases, f.columns).None?;
  }
}
