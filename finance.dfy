/** The financial-health rules of the overview and treasury tabs: the cost
    ratio clamp, the fixed-cost base, the two break-even variants, the daily
    progress ratio and the treasury directive. */
module Finance {
  import opened Values
  import opened Text
  import opened Normalize
  import opened Frames

  /** Fixed monthly cost used when the fixed-cost sheet is unusable. */
  const FallbackFixedCost: real := 3600.0
  /** Cost ratio used when the parsed ratio is zero. */
  const DefaultRatio: real := 0.6
  /** Contribution margin at or below which the treasury tab reports no target. */
  const MarginFloor: real := 0.05
  /** Overview target when the contribution margin is not positive. */
  const NoMarginTarget: real := 9999.0
  const WaitingMessage: string := "ESPERANDO DATOS... (Ejecuta Colab)"

  // ---------------------------------------------------------------------------
  // The cost ratio

  /** A ratio above 1 is read as a percentage and divided by 100 (once); a
      ratio of exactly 0 is replaced by the default 0.6. */
  function ClampRatio(raw: real): (r: real)
    ensures raw > 1.0 ==> r * 100.0 == raw
    ensures raw <= 1.0 && raw != 0.0 ==> r == raw
    ensures raw == 0.0 ==> r == DefaultRatio
  {
    var v := if raw > 1.0 then raw / 100.0 else raw;
    if v == 0.0 then DefaultRatio else v
  }

  /** A percentage or a fraction between 0 and 100 ends up in (0, 1]. */
  lemma ClampRange(raw: real)
    requires 0.0 <= raw <= 100.0
    ensures 0.0 < ClampRatio(raw) <= 1.0
  {
  }

  /** On that range the clamp is idempotent: a clamped ratio is left alone. */
  lemma ClampIdempotent(raw: real)
    requires 0.0 <= raw <= 100.0
    ensures ClampRatio(ClampRatio(raw)) == ClampRatio(raw)
  {
    ClampRange(raw);
  }

  /** The division happens once only: 6000 gives 60, which a second clamp
      would have turned into 0.6. */
  lemma ClampOnce()
    ensures ClampRatio(6000.0) == 60.0
    ensures ClampRatio(ClampRatio(6000.0)) == 0.6
  {
  }

  lemma ClampExamples()
    ensures ClampRatio(60.0) == 0.6
    ensures ClampRatio(0.6) == 0.6
    ensures ClampRatio(0.0) == 0.6
    ensures ClampRatio(1.0) == 1.0
  {
  }

  /** A parsed ratio read from the sheet's cell: the value `safe_float` gives,
      clamped. */
  function RatioOf(v: Value): real
  {
    ClampRatio(SafeFloat(v))
  }

  /** The sheet default "0.6" parses to the default ratio. */
  lemma DefaultRatioText()
    ensures RatioOf(Text("0.6")) == 0.6
  {
    SixTenthsClean();
    SixTenthsParse();
  }

  lemma SixTenthsParse()
    ensures ParseDecimal("0.6") == Some(0.6)
  {
    var t := "0.6";
    var ip := Before(t, '.');
    assert t[1] == '.' && '.' !in t[..1];
    assert |ip| == 1;
    assert ip == "0";
    assert t[2..] == "6";
    assert "0"[..0] == [] && "6"[..0] == [];
    assert DigitsValue("0") == 0;
    assert DigitsValue("6") == 6;
    assert Pow10(1) == 10;
  }

  lemma SixTenthsClean()
    ensures CleanText("0.6") == "0.6"
  {
    NoMarksUnchanged("0.6");
  }

  /** Text without currency marks or surrounding spaces is left as it is by
      the cleaner. */
  lemma NoMarksUnchanged(t: string)
    requires 'S' !in t && ',' !in t && '%' !in t
    requires |t| > 0 && !IsSpace(t[0]) && !IsSpace(t[|t| - 1])
    ensures CleanText(t) == t
  {
    NotContainsMissingChar(t, "S/", 0);
    ReplaceAllAbsent(t, "S/", "");
    NotContainsMissingChar(t, ",", 0);
    ReplaceAllAbsent(t, ",", "");
    NotContainsMissingChar(t, "%", 0);
    ReplaceAllAbsent(t, "%", "");
    assert StripLeft(t) == t;
    assert StripRight(t) == t;
  }

  // ---------------------------------------------------------------------------
  // The fixed-cost base

  /** pandas' `sum` of a cleaned amount column: numbers add up and missing
      cells are skipped. */
  function SumNumbers(vals: seq<Value>): (r: real)
    ensures (forall i :: 0 <= i < |vals| ==> !vals[i].Number?) ==> r == 0.0
  {
    if |vals| == 0 then 0.0
    else SumNumbers(vals[..|vals| - 1]) + (if vals[|vals| - 1].Number? then vals[|vals| - 1].x else 0.0)
  }

  /** The sum of the monthly fixed costs, or 3600 when the sheet is empty or
      has no `Monto_Mensual` column. */
  function FixedCostBase(fijos: Table): (r: real)
    ensures IsEmpty(fijos) || "Monto_Mensual" !in fijos.columns ==> r == FallbackFixedCost
    ensures !IsEmpty(fijos) && "Monto_Mensual" in fijos.columns ==> r == SumNumbers(Column(fijos, "Monto_Mensual"))
  {
    if !IsEmpty(fijos) && "Monto_Mensual" in fijos.columns then SumNumbers(Column(fijos, "Monto_Mensual"))
    else FallbackFixedCost
  }

  /** The sum splits over a concatenation: the order of the rows does not
      matter to which amounts are added. */
  lemma {:induction false} SumNumbersAppend(a: seq<Value>, b: seq<Value>)
    ensures SumNumbers(a + b) == SumNumbers(a) + SumNumbers(b)
  {
    if |b| == 0 {
      assert a + b == a;
    } else {
      var init := b[..|b| - 1];
      SumNumbersAppend(a, init);
      assert (a + b)[..|a + b| - 1] == a + init;
    }
  }

  /** A cell that is not a number (the NaN of an empty or unparsed amount)
      adds nothing to the sum, wherever it sits. */
  lemma SumNumbersSkipsMissing(a: seq<Value>, v: Value, b: seq<Value>)
    requires !v.Number?
    ensures SumNumbers(a + [v] + b) == SumNumbers(a + b)
  {
    SumNumbersAppend(a + [v], b);
    SumNumbersAppend(a, b);
    assert (a + [v])[..|a|] == a;
  }

  /** Non-negative monthly amounts give a non-negative base. */
  lemma {:induction false} SumNumbersNonNegative(vals: seq<Value>)
    requires forall i :: 0 <= i < |vals| && vals[i].Number? ==> vals[i].x >= 0.0
    ensures SumNumbers(vals) >= 0.0
  {
    if |vals| > 0 {
      SumNumbersNonNegative(vals[..|vals| - 1]);
    }
  }

  /** A sheet with the monthly amounts 1500 and 2100 gives a base of 3600. */
  lemma FixedCostExample()
    ensures FixedCostBase(Frame(["Concepto", "Monto_Mensual"],
                                [[Text("Alquiler"), Number(1500.0)], [Text("Planilla"), Number(2100.0)]])) == 3600.0
  {
    var f := Frame(["Concepto", "Monto_Mensual"], [[Text("Alquiler"), Number(1500.0)], [Text("Planilla"), Number(2100.0)]]);
    assert IndexOf(f.columns, "Monto_Mensual") == 1;
    var c := Column(f, "Monto_Mensual");
    assert c == [Number(1500.0), Number(2100.0)];
    assert c[..1] == [Number(1500.0)];
    assert c[..1][..0] == [];
    assert SumNumbers(c[..1]) == 1500.0;
    assert SumNumbers(c) == 3600.0;
    assert f.columns[1] == "Monto_Mensual";
    assert !IsEmpty(f) && "Monto_Mensual" in f.columns;
  }

  // ---------------------------------------------------------------------------
  // Break-even

  datatype BreakEven = BreakEven(monthly: real, daily: real)

  /** The treasury tab's target: with margin = 1 - ratio above the 0.05
      floor, the monthly target is the fixed base over the margin and the
      daily target a thirtieth of it; otherwise both are 0. */
  function TreasuryBreakEven(base: real, ratio: real): (r: BreakEven)
    ensures 1.0 - ratio > MarginFloor ==> r.monthly * (1.0 - ratio) == base && r.daily * 30.0 == r.monthly
    ensures 1.0 - ratio <= MarginFloor ==> r == BreakEven(0.0, 0.0)
  {
    var margin := 1.0 - ratio;
    if margin > MarginFloor then BreakEven(base / margin, base / margin / 30.0)
    else BreakEven(0.0, 0.0)
  }

  /** The worked example: a 3600 base at a 0.6 cost ratio (margin 0.4) needs
      9000 a month, 300 a day. */
  lemma TreasuryExample()
    ensures TreasuryBreakEven(3600.0, 0.6) == BreakEven(9000.0, 300.0)
  {
  }

  /** A margin of 0.03 is under the floor: no target. */
  lemma TreasuryUnderFloor()
    ensures TreasuryBreakEven(3600.0, 0.97) == BreakEven(0.0, 0.0)
  {
  }

  /** A wider margin never raises the daily target. */
  lemma TreasuryMonotone(base: real, r1: real, r2: real)
    requires base >= 0.0 && 1.0 - r1 > MarginFloor && r2 <= r1
    ensures TreasuryBreakEven(base, r2).daily <= TreasuryBreakEven(base, r1).daily
  {
    var m1, m2 := 1.0 - r1, 1.0 - r2;
    var q1, q2 := base / m1, base / m2;
    assert q1 * m1 == base && q2 * m2 == base;
    assert q1 >= 0.0;
    assert q1 * m2 >= q1 * m1;
    assert (q1 - q2) * m2 == q1 * m2 - q2 * m2;
    assert (q1 - q2) * m2 >= 0.0;
    assert q2 <= q1;
  }

  /** The overview tab's variant: the daily burn over the margin, or 9999
      when the margin is not positive. */
  function OverviewBreakEven(burn: real, ratio: real): (pe: real)
    ensures 1.0 - ratio > 0.0 ==> pe * (1.0 - ratio) == burn
    ensures 1.0 - ratio <= 0.0 ==> pe == NoMarginTarget
  {
    var margin := 1.0 - ratio;
    if margin > 0.0 then burn / margin else NoMarginTarget
  }

  /** The two variants disagree on margins between 0 and the floor: the
      overview still divides, the treasury tab reports no target. */
  lemma VariantsDisagree()
    ensures OverviewBreakEven(100.0, 0.98) == 5000.0
    ensures TreasuryBreakEven(100.0, 0.98) == BreakEven(0.0, 0.0)
  {
  }

  /** A clamped ratio of exactly 1 leaves no margin: the overview falls back
      to 9999. */
  lemma FullCostRatio(burn: real)
    ensures OverviewBreakEven(burn, ClampRatio(100.0)) == NoMarginTarget
  {
  }

  /** Today's sales as a share of the daily target, capped at 1; 0 when
      there is no positive target. */
  function Progress(sales: real, pe: real): (p: real)
    ensures pe <= 0.0 ==> p == 0.0
    ensures pe > 0.0 ==> p <= 1.0
    ensures pe > 0.0 && sales >= 0.0 ==> 0.0 <= p
    ensures pe > 0.0 ==> (p == 1.0 <==> sales >= pe)
    ensures pe > 0.0 && sales < pe ==> p * pe == sales
  {
    if pe > 0.0 then (if sales / pe < 1.0 then sales / pe else 1.0) else 0.0
  }

  // ---------------------------------------------------------------------------
  // The latest treasury row

  /** `row.get(col, default)` on row `i`: the cell when the column exists, the
      default otherwise. */
  function Get(f: Table, i: nat, col: string, default: Value): (v: Value)
    requires i < |f.rows|
    ensures col !in f.columns ==> v == default
    ensures col in f.columns ==> v == Column(f, col)[i]
  {
    if col in f.columns then f.rows[i][IndexOf(f.columns, col)] else default
  }

  /** What the treasury tab computes from the last row of the treasury sheet
      and the fixed-cost base. */
  datatype Snapshot = Snapshot(order: Value, runway: real, burn: real, debt: real,
                               margin: real, target: BreakEven, fixedBase: real)

  function TreasurySnapshot(sob: Table, fijos: Table): (s: Snapshot)
    ensures s.fixedBase == FixedCostBase(fijos)
    ensures IsEmpty(sob) ==>
      s == Snapshot(Text(WaitingMessage), 0.0, 0.0, 0.0, 0.0, BreakEven(0.0, 0.0), FixedCostBase(fijos))
    ensures !IsEmpty(sob) ==> s.margin == 1.0 - RatioOf(Get(sob, |sob.rows| - 1, "Ratio_Costo_Real", Text("0.6")))
    ensures !IsEmpty(sob) ==> s.target == TreasuryBreakEven(FixedCostBase(fijos), 1.0 - s.margin)
    ensures !IsEmpty(sob) ==> s.order == Get(sob, |sob.rows| - 1, "ORDEN_TESORERIA", Text("SIN DATOS"))
  {
    var base := FixedCostBase(fijos);
    if IsEmpty(sob) then Snapshot(Text(WaitingMessage), 0.0, 0.0, 0.0, 0.0, BreakEven(0.0, 0.0), base)
    else
      var last := |sob.rows| - 1;
      var ratio := RatioOf(Get(sob, last, "Ratio_Costo_Real", Text("0.6")));
      Snapshot(Get(sob, last, "ORDEN_TESORERIA", Text("SIN DATOS")),
               SafeFloat(Get(sob, last, "Runway_Dias", Number(0.0))),
               SafeFloat(Get(sob, last, "Burn_Rate_Diario", Number(0.0))),
               SafeFloat(Get(sob, last, "Deuda_TC_Auditada", Number(0.0))),
               1.0 - ratio, TreasuryBreakEven(base, ratio), base)
  }

  /** A treasury sheet without a ratio column falls back to the 0.6 ratio:
      margin 0.4. */
  lemma MissingRatioColumn(sob: Table, fijos: Table)
    requires !IsEmpty(sob) && "Ratio_Costo_Real" !in sob.columns
    ensures TreasurySnapshot(sob, fijos).margin == 0.4
  {
    DefaultRatioText();
  }

  /** The overview tab's daily target from the same sheet (0 without one). */
  function OverviewTarget(sob: Table): (pe: real)
    ensures IsEmpty(sob) ==> pe == 0.0
    ensures !IsEmpty(sob) ==>
      pe == OverviewBreakEven(SafeFloat(Get(sob, |sob.rows| - 1, "Burn_Rate_Diario", Number(0.0))),
                              RatioOf(Get(sob, |sob.rows| - 1, "Ratio_Costo_Real", Text("0.6"))))
  {
    if IsEmpty(sob) then 0.0
    else
      var last := |sob.rows| - 1;
      OverviewBreakEven(SafeFloat(Get(sob, last, "Burn_Rate_Diario", Number(0.0))),
                        RatioOf(Get(sob, last, "Ratio_Costo_Real", Text("0.6"))))
  }

  /** Without a treasury sheet the progress bar is empty. */
  lemma NoSheetNoProgress(sob: Table, sales: real)
    requires IsEmpty(sob)
    ensures Progress(sales, OverviewTarget(sob)) == 0.0
  {
  }

  // ---------------------------------------------------------------------------
  // The treasury directive

  datatype Directive = Alert | Growth | Waiting | Standing

  /** The directive's box, by the first of the words it contains, checked in
      the order ALERTA, CRECIMIENTO, ESPERANDO. */
  function Classify(order: Value): (d: Directive)
    ensures d == Alert <==> Contains(AsText(order), "ALERTA")
    ensures d == Growth <==> !Contains(AsText(order), "ALERTA") && Contains(AsText(order), "CRECIMIENTO")
    ensures d == Waiting <==>
      !Contains(AsText(order), "ALERTA") && !Contains(AsText(order), "CRECIMIENTO") && Contains(AsText(order), "ESPERANDO")
  {
    var t := AsText(order);
    if Contains(t, "ALERTA") then Alert
    else if Contains(t, "CRECIMIENTO") then Growth
    else if Contains(t, "ESPERANDO") then Waiting
    else Standing
  }

  /** An alert wins over any other word in the same directive. */
  lemma AlertWins(pre: string, post: string)
    ensures Classify(Text(pre + "ALERTA" + post)) == Alert
  {
    var t := pre + "ALERTA" + post;
    assert t[|pre|..|pre| + 6] == "ALERTA";
    ContainsAt(t, "ALERTA", |pre|);
  }

  lemma WaitingNoAlert()
    ensures !Contains(WaitingMessage, "ALERTA")
  {
    NotContainsMissingChar(WaitingMessage, "ALERTA", 1);
  }

  lemma WaitingNoGrowth()
    ensures !Contains(WaitingMessage, "CRECIMIENTO")
  {
    NotContainsMissingChar(WaitingMessage, "CRECIMIENTO", 5);
  }

  lemma WaitingSaysWaiting()
    ensures Contains(WaitingMessage, "ESPERANDO")
  {
    assert WaitingMessage[0..9] == "ESPERANDO";
    ContainsAt(WaitingMessage, "ESPERANDO", 0);
  }

  /** The waiting message gets the waiting box. */
  lemma WaitingMessageWaits()
    ensures Classify(Text(WaitingMessage)) == Waiting
  {
    WaitingNoAlert();
    WaitingNoGrowth();
    WaitingSaysWaiting();
  }

  /** Without a treasury sheet the directive is the waiting message. */
  lemma NoSheetWaits(sob: Table, fijos: Table)
    requires IsEmpty(sob)
    ensures Classify(TreasurySnapshot(sob, fijos).order) == Waiting
  {
    WaitingMessageWaits();
  }

  lemma NoDataNoAlert()
    ensures !Contains("SIN DATOS", "ALERTA")
  {
    NotContainsMissingChar("SIN DATOS", "ALERTA", 1);
  }

  lemma NoDataNoGrowth()
    ensures !Contains("SIN DATOS", "CRECIMIENTO")
  {
    NotContainsMissingChar("SIN DATOS", "CRECIMIENTO", 5);
  }

  lemma NoDataNoWaiting()
    ensures !Contains("SIN DATOS", "ESPERANDO")
  {
    NotContainsMissingChar("SIN DATOS", "ESPERANDO", 2);
  }

  /** A sheet without a directive column gives the default box. */
  lemma MissingOrderStands(sob: Table, fijos: Table)
    requires !IsEmpty(sob) && "ORDEN_TESORERIA" !in sob.columns
    ensures Classify(TreasurySnapshot(sob, fijos).order) == Standing
  {
    NoDataNoAlert();
    NoDataNoGrowth();
    NoDataNoWaiting();
  }
}
