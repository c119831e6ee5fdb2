/** The system totals of lines 384-392: the panel count, capture area, DC power and
    monthly energy of the whole array, the savings against the recorded consumption,
    and how these agree with the diagram drawn below them and with the sizing figures
    shown earlier on the page. */
module Totals {
  import opened Rounding
  import opened Catalog
  import opened Ledger
  import opened Limits
  import opened Sizing
  import opened Topology

  /** The four unrounded totals of lines 384-390. */
  datatype SystemTotals = SystemTotals(panels: nat, captureArea: real, powerKW: real, energyKWh: real)

  /** Lines 384-390: panels in the array, their capture area (m2), their DC power (kW)
      and the energy they produce in a 30-day month (kWh) at the site's peak sun hours.
      The panel's area is the one filled in when the catalogue is loaded. */
  function Totals(c: ArrayConfig, p: PanelSpec, hsp: real): (t: SystemTotals)
    requires p.area.Some?
    ensures t.panels == c.inverters * PanelsPerInverter(c)
    ensures t.powerKW == c.inverters as real * InverterPowerKW(c, p)
    ensures t.captureArea == CaptureArea(t.panels as real, p)
    ensures t.energyKWh == 30.0 * hsp * t.powerKW
  {
    var panels := PanelsPerInverter(c) * c.inverters;
    var power := panels as real * p.pmax / 1000.0;
    assert power == c.inverters as real * InverterPowerKW(c, p);
    SystemTotals(panels, panels as real * p.area.value, power, power * hsp * 30.0)
  }

  /** The diagram drawn at line 392 for the same configuration has one panel node per
      panel counted at line 384, plus one node per inverter and per string, and one edge
      per panel and per string. */
  lemma DiagramMatchesTotals(c: ArrayConfig, p: PanelSpec, hsp: real)
    requires p.area.Some?
    ensures var I, S, P := c.inverters, c.stringsPerInverter, c.panelsPerString;
      && |DiagramNodes(I, S, P)| == Totals(c, p, hsp).panels + I * S + I
      && |DiagramEdges(I, S, P)| == Totals(c, p, hsp).panels + I * S
  {
    var I, S, P := c.inverters, c.stringsPerInverter, c.panelsPerString;
    DiagramSize(I, S, P);
    CountIdentity(I, S, P);
  }

  lemma {:induction false} CountIdentity(I: nat, S: nat, P: nat)
    ensures I * (S * (1 + P)) == I * (P * S) + I * S
    ensures I * (1 + S * (1 + P)) == I * (P * S) + I * S + I
  {
    var k := S * (1 + P);
    assert k == S + P * S;
    assert I * k == I * S + I * (P * S);
    assert I * (1 + k) == I + I * k;
  }

  /** The total energy of line 390 and the monthly generation of line 288 are the same
      estimate in different units when they are computed for the same number of panels;
      the generation is only rounded to 0.1 MWh. */
  lemma EnergyMatchesGeneration(c: ArrayConfig, p: PanelSpec, hsp: real)
    requires p.area.Some?
    ensures 1000.0 * ExactGeneration(p, hsp, Totals(c, p, hsp).panels as real) == Totals(c, p, hsp).energyKWh
    ensures Abs(1000.0 * MonthlyGeneration(p, hsp, Totals(c, p, hsp).panels as real) - Totals(c, p, hsp).energyKWh) <= 50.0
  {
    var t := Totals(c, p, hsp);
    var n := t.panels as real;
    var w := p.pmax * hsp;
    assert t.powerKW == n * p.pmax / 1000.0;
    assert t.energyKWh == 30.0 * hsp * (n * p.pmax) / 1000.0;
    assert ExactGeneration(p, hsp, n) == w * n * 30.0 / 1000000.0;
    assert w * n == hsp * (n * p.pmax);
    var e := ExactGeneration(p, hsp, n);
    var g := MonthlyGeneration(p, hsp, n);
    assert Abs(g - e) <= 0.05;
  }

  /** The capture area of the array fits the area typed in exactly when the panel count
      is at most the theoretical count of line 300. */
  lemma AreaFits(c: ArrayConfig, p: PanelSpec, hsp: real, available: real)
    requires p.area.Some? && p.area.value > 0.0
    ensures Totals(c, p, hsp).captureArea <= available <==>
            Totals(c, p, hsp).panels as real <= MaxPanelsForArea(available, p)
  {
    var n := Totals(c, p, hsp).panels as real;
    var a := p.area.value;
    assert Totals(c, p, hsp).captureArea == n * a;
    assert MaxPanelsForArea(available, p) == available / a;
    assert n * a / a == n;
    DivAtMostIff(n * a, available, a);
  }

  /** The unrounded savings of line 391: the monthly energy as a percentage of the
      average monthly consumption. Line 269 shows the totals only when the table has a
      row, and every row has a positive consumption, so the division is defined. */
  function ExactSavings(energyKWh: real, rs: seq<Record>): (pct: real)
    requires AllAcceptable(rs) && rs != []
    ensures pct * (AverageDaily(rs) * 30.0) == 100.0 * energyKWh
    ensures energyKWh >= 0.0 ==> pct >= 0.0
  {
    AverageDailyPositive(rs);
    var m := AverageDaily(rs) * 30.0;
    assert 100.0 * energyKWh / m * m == 100.0 * energyKWh;
    100.0 * energyKWh / m
  }

  /** Line 391: the savings, percent, rounded to two decimals. */
  function SavingsPercent(energyKWh: real, rs: seq<Record>): (pct: real)
    requires AllAcceptable(rs) && rs != []
    ensures Abs(pct - ExactSavings(energyKWh, rs)) <= 0.005
    ensures energyKWh >= 0.0 ==> pct >= 0.0
  {
    AverageDailyPositive(rs);
    Round2(ExactSavings(energyKWh, rs))
  }

  /** An array whose monthly energy equals the average monthly consumption shows
      exactly 100 % savings. */
  lemma {:induction false} FullCoverage(rs: seq<Record>)
    requires AllAcceptable(rs) && rs != []
    ensures SavingsPercent(AverageDaily(rs) * 30.0, rs) == 100.0
  {
    AverageDailyPositive(rs);
    var m := AverageDaily(rs) * 30.0;
    assert ExactSavings(m, rs) == 100.0;
    RoundToScaleExact(10000, 100.0);
    assert 10000 as real / 100.0 == 100.0;
  }

  /** More energy never shows smaller savings. */
  lemma {:induction false} SavingsMonotone(e: real, e': real, rs: seq<Record>)
    requires AllAcceptable(rs) && rs != [] && e <= e'
    ensures SavingsPercent(e, rs) <= SavingsPercent(e', rs)
  {
    AverageDailyPositive(rs);
    var m := AverageDaily(rs) * 30.0;
    ScaleMonotone(100.0 * e, 100.0 * e', m);
    RoundToScaleMonotone(ExactSavings(e, rs), ExactSavings(e', rs), 100.0);
  }

  /** Each extra inverter adds one inverter's panels and one inverter's power. */
  lemma OneMoreInverter(c: ArrayConfig, p: PanelSpec, hsp: real)
    requires p.area.Some?
    ensures var c' := c.(inverters := c.inverters + 1);
      && Totals(c', p, hsp).panels == Totals(c, p, hsp).panels + PanelsPerInverter(c)
      && Totals(c', p, hsp).powerKW == Totals(c, p, hsp).powerKW + InverterPowerKW(c, p)
  {
    var c' := c.(inverters := c.inverters + 1);
    assert PanelsPerInverter(c') == PanelsPerInverter(c);
    assert InverterPowerKW(c', p) == InverterPowerKW(c, p);
  }
}
