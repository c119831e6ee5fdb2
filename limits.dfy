/** The inverter and string limit checks of lines 316-366: inverter load, DC string
    voltage, DC current per MPPT input, and the informational AC output current.
    Each displayed figure is rounded with Python's round before it is compared. */
module Limits {
  import opened Catalog
  import opened Rounding

  /** The three number inputs of the inverter section (each entered as a whole
      number, at least 1 in the form). */
  datatype ArrayConfig = ArrayConfig(inverters: nat, panelsPerString: nat, stringsPerInverter: nat)

  /** Line 322: the panels wired to one inverter, every string holding the same
      number of panels. */
  function PanelsPerInverter(c: ArrayConfig): (n: nat)
    ensures n == 0 <==> c.panelsPerString == 0 || c.stringsPerInverter == 0
    ensures c.stringsPerInverter >= 1 ==> n >= c.panelsPerString
    ensures c.panelsPerString >= 1 ==> n >= c.stringsPerInverter
  {
    c.panelsPerString * c.stringsPerInverter
  }

  /** Line 324: the DC power connected to one inverter, kW. */
  function InverterPowerKW(c: ArrayConfig, p: PanelSpec): (kw: real)
    ensures kw * 1000.0 == PanelsPerInverter(c) as real * p.pmax
    ensures p.pmax >= 0.0 ==> kw >= 0.0
  {
    PanelsPerInverter(c) as real * p.pmax / 1000.0
  }

  /** The unrounded inverter load of line 328, percent. */
  function ExactLoad(c: ArrayConfig, p: PanelSpec, inv: InverterSpec): real
    requires inv.pmaxKwp > 0.0
  {
    InverterPowerKW(c, p) / inv.pmaxKwp * 100.0
  }

  /** Line 328: the inverter load, percent, rounded to one decimal. */
  function LoadPercent(c: ArrayConfig, p: PanelSpec, inv: InverterSpec): (pct: real)
    requires inv.pmaxKwp > 0.0
    ensures Abs(pct - PanelsPerInverter(c) as real * p.pmax / 10.0 / inv.pmaxKwp) <= 0.05
  {
    var exact := ExactLoad(c, p, inv);
    assert exact == PanelsPerInverter(c) as real * p.pmax / 10.0 / inv.pmaxKwp;
    Round1(exact)
  }

  /** Line 330: the load bar is green. It is green exactly when the unrounded load
      is at most 100.05 %: 100.05 itself is a tie that rounds to the even 100.0. */
  predicate LoadWithinRating(c: ArrayConfig, p: PanelSpec, inv: InverterSpec): (ok: bool)
    requires inv.pmaxKwp > 0.0
    ensures ok <==> ExactLoad(c, p, inv) <= 100.05
  {
    RoundToScaleAtMost(ExactLoad(c, p, inv), 10.0, 100.0, 1000);
    LoadPercent(c, p, inv) <= 100.0
  }

  /** The unrounded open-circuit voltage of one string. */
  function StringVoc(c: ArrayConfig, p: PanelSpec): real
  {
    p.voc * c.panelsPerString as real
  }

  /** Line 347: the open-circuit voltage of one string, rounded to one decimal. */
  function DcStringVoltage(c: ArrayConfig, p: PanelSpec): (v: real)
    ensures Abs(v - p.voc * c.panelsPerString as real) <= 0.05
  {
    Round1(StringVoc(c, p))
  }

  /** Line 348: the voltage bar is green. Whatever the limit, a green bar means the
      unrounded string voltage is at most 0.05 V over it, and a string voltage at least
      0.05 V under it always shows green. */
  predicate VoltageWithinLimit(c: ArrayConfig, p: PanelSpec, inv: InverterSpec): (ok: bool)
    ensures ok ==> StringVoc(c, p) <= inv.vmaxMpp + 0.05
    ensures StringVoc(c, p) <= inv.vmaxMpp - 0.05 ==> ok
  {
    DcStringVoltage(c, p) <= inv.vmaxMpp
  }

  /** The unrounded current of the strings sharing one MPPT input. */
  function MpptImp(c: ArrayConfig, p: PanelSpec): real
  {
    p.imp * c.stringsPerInverter as real
  }

  /** Line 365: the current into one MPPT input, rounded to two decimals. */
  function DcMpptCurrent(c: ArrayConfig, p: PanelSpec): (i: real)
    ensures Abs(i - p.imp * c.stringsPerInverter as real) <= 0.005
  {
    Round2(MpptImp(c, p))
  }

  /** Line 366: the current bar is green. Whatever the limit, a green bar means the
      unrounded MPPT current is at most 0.005 A over it, and a current at least 0.005 A
      under it always shows green. */
  predicate CurrentWithinLimit(c: ArrayConfig, p: PanelSpec, inv: InverterSpec): (ok: bool)
    ensures ok ==> MpptImp(c, p) <= inv.imaxMppt + 0.005
    ensures MpptImp(c, p) <= inv.imaxMppt - 0.005 ==> ok
  {
    DcMpptCurrent(c, p) <= inv.imaxMppt
  }

  /** Line 326: the three-phase AC output current Poutmax / (VnomAC * sqrt 3).
      `sqrt3` stands for math.sqrt(3); it is characterised by its square. */
  function AcMaxCurrent(inv: InverterSpec, sqrt3: real): (amps: real)
    requires sqrt3 > 0.0 && sqrt3 * sqrt3 == 3.0 && inv.vnomAc > 0.0
    ensures 3.0 * (amps * inv.vnomAc) * (amps * inv.vnomAc) == inv.poutMax * inv.poutMax
    ensures amps >= 0.0 <==> inv.poutMax >= 0.0
  {
    var amps := inv.poutMax / (inv.vnomAc * sqrt3);
    assert amps * inv.vnomAc * sqrt3 == inv.poutMax;
    assert 3.0 * (amps * inv.vnomAc) * (amps * inv.vnomAc)
        == (amps * inv.vnomAc * sqrt3) * (amps * inv.vnomAc * sqrt3);
    amps
  }

  /** Against a whole-number voltage limit, the voltage check passes exactly when the
      unrounded string voltage exceeds the limit by at most 0.05 V. */
  lemma VoltageThreshold(c: ArrayConfig, p: PanelSpec, inv: InverterSpec, limit: int)
    requires inv.vmaxMpp == limit as real
    ensures VoltageWithinLimit(c, p, inv) <==> StringVoc(c, p) <= inv.vmaxMpp + 0.05
  {
    RoundToScaleAtMost(StringVoc(c, p), 10.0, inv.vmaxMpp, 10 * limit);
  }

  /** Against a whole-number current limit, the current check passes exactly when the
      unrounded MPPT current exceeds the limit by at most 0.005 A. */
  lemma CurrentThreshold(c: ArrayConfig, p: PanelSpec, inv: InverterSpec, limit: int)
    requires inv.imaxMppt == limit as real
    ensures CurrentWithinLimit(c, p, inv) <==> MpptImp(c, p) <= inv.imaxMppt + 0.005
  {
    RoundToScaleAtMost(MpptImp(c, p), 100.0, inv.imaxMppt, 100 * limit);
  }

  /** Fewer panels per string never turns a passing voltage check into a failing one. */
  lemma VoltageMonotone(c: ArrayConfig, c': ArrayConfig, p: PanelSpec, inv: InverterSpec)
    requires p.voc >= 0.0 && c'.panelsPerString <= c.panelsPerString
    requires VoltageWithinLimit(c, p, inv)
    ensures VoltageWithinLimit(c', p, inv)
  {
    StringVocMonotone(c, c', p);
    assert DcStringVoltage(c, p) == RoundToScale(StringVoc(c, p), 10.0);
    assert DcStringVoltage(c', p) == RoundToScale(StringVoc(c', p), 10.0);
    RoundWithinLimitMonotone(StringVoc(c', p), StringVoc(c, p), 10.0, inv.vmaxMpp);
  }

  lemma StringVocMonotone(c: ArrayConfig, c': ArrayConfig, p: PanelSpec)
    requires p.voc >= 0.0 && c'.panelsPerString <= c.panelsPerString
    ensures StringVoc(c', p) <= StringVoc(c, p)
  {
    MulMonotone(c'.panelsPerString as real, c.panelsPerString as real, p.voc);
  }

  /** Fewer strings per inverter never turns a passing current check into a failing one. */
  lemma CurrentMonotone(c: ArrayConfig, c': ArrayConfig, p: PanelSpec, inv: InverterSpec)
    requires p.imp >= 0.0 && c'.stringsPerInverter <= c.stringsPerInverter
    requires CurrentWithinLimit(c, p, inv)
    ensures CurrentWithinLimit(c', p, inv)
  {
    MpptImpMonotone(c, c', p);
    assert DcMpptCurrent(c, p) == RoundToScale(MpptImp(c, p), 100.0);
    assert DcMpptCurrent(c', p) == RoundToScale(MpptImp(c', p), 100.0);
    RoundWithinLimitMonotone(MpptImp(c', p), MpptImp(c, p), 100.0, inv.imaxMppt);
  }

  lemma MpptImpMonotone(c: ArrayConfig, c': ArrayConfig, p: PanelSpec)
    requires p.imp >= 0.0 && c'.stringsPerInverter <= c.stringsPerInverter
    ensures MpptImp(c', p) <= MpptImp(c, p)
  {
    MulMonotone(c'.stringsPerInverter as real, c.stringsPerInverter as real, p.imp);
  }

  /** Fewer panels on an inverter never overloads one that was within its rating. */
  lemma LoadMonotone(c: ArrayConfig, c': ArrayConfig, p: PanelSpec, inv: InverterSpec)
    requires inv.pmaxKwp > 0.0 && p.pmax >= 0.0
    requires PanelsPerInverter(c') <= PanelsPerInverter(c)
    requires LoadWithinRating(c, p, inv)
    ensures LoadWithinRating(c', p, inv)
  {
    ExactLoadMonotone(c, c', p, inv);
    assert LoadPercent(c, p, inv) == RoundToScale(ExactLoad(c, p, inv), 10.0);
    assert LoadPercent(c', p, inv) == RoundToScale(ExactLoad(c', p, inv), 10.0);
    RoundWithinLimitMonotone(ExactLoad(c', p, inv), ExactLoad(c, p, inv), 10.0, 100.0);
  }

  lemma ExactLoadMonotone(c: ArrayConfig, c': ArrayConfig, p: PanelSpec, inv: InverterSpec)
    requires inv.pmaxKwp > 0.0 && p.pmax >= 0.0
    requires PanelsPerInverter(c') <= PanelsPerInverter(c)
    ensures ExactLoad(c', p, inv) <= ExactLoad(c, p, inv)
  {
    var kw, kw' := InverterPowerKW(c, p), InverterPowerKW(c', p);
    InverterPowerMonotone(c, c', p);
    ScaleMonotone(kw', kw, inv.pmaxKwp);
    assert ExactLoad(c', p, inv) == kw' / inv.pmaxKwp * 100.0;
  }

  lemma InverterPowerMonotone(c: ArrayConfig, c': ArrayConfig, p: PanelSpec)
    requires p.pmax >= 0.0
    requires PanelsPerInverter(c') <= PanelsPerInverter(c)
    ensures InverterPowerKW(c', p) <= InverterPowerKW(c, p)
  {
    var n, n' := PanelsPerInverter(c) as real, PanelsPerInverter(c') as real;
    ProductQuotientMonotone(n', n, p.pmax, 1000.0);
  }

  /** Fewer panels per string or fewer strings never means more panels per inverter. */
  lemma PanelsPerInverterMonotone(c: ArrayConfig, c': ArrayConfig)
    requires c'.panelsPerString <= c.panelsPerString
    requires c'.stringsPerInverter <= c.stringsPerInverter
    ensures PanelsPerInverter(c') <= PanelsPerInverter(c)
  {
    assert c'.panelsPerString * c'.stringsPerInverter <= c.panelsPerString * c'.stringsPerInverter;
    assert c.panelsPerString * c'.stringsPerInverter <= c.panelsPerString * c.stringsPerInverter;
  }

  /** With the catalogue panel and inverter, a string may hold at most 19 panels
      (52 V each against 1000 V). */
  lemma CatalogVoltageLimit(c: ArrayConfig)
    ensures VoltageWithinLimit(c, JamPanel(), SolisInverter()) <==> c.panelsPerString <= 19
  {
    var n := c.panelsPerString;
    VoltageThreshold(c, JamPanel(), SolisInverter(), 1000);
    assert StringVoc(c, JamPanel()) == 52.0 * n as real;
  }

  /** ... and an MPPT input may take at most 18 strings (13.59 A each against 256 A). */
  lemma CatalogCurrentLimit(c: ArrayConfig)
    ensures CurrentWithinLimit(c, JamPanel(), SolisInverter()) <==> c.stringsPerInverter <= 18
  {
    var m := c.stringsPerInverter;
    CurrentThreshold(c, JamPanel(), SolisInverter(), 256);
    assert MpptImp(c, JamPanel()) == 13.59 * m as real;
  }

  /** ... and an inverter may take at most 101 panels (590 W each against 60 kWp):
      101 panels load it to 99.3 %, 102 panels to 100.3 %. */
  lemma CatalogLoadLimit(c: ArrayConfig)
    ensures LoadWithinRating(c, JamPanel(), SolisInverter()) <==> PanelsPerInverter(c) <= 101
  {
    var n := PanelsPerInverter(c);
    assert ExactLoad(c, JamPanel(), SolisInverter()) == n as real * 59.0 / 60.0;
  }

  /** The computed AC output current stays within the catalogue's Ioutmax (157.5 A). */
  lemma CatalogAcCurrent(sqrt3: real)
    requires sqrt3 > 0.0 && sqrt3 * sqrt3 == 3.0
    ensures 157.0 < AcMaxCurrent(SolisInverter(), sqrt3) <= SolisInverter().ioutMax
  {
    var amps := AcMaxCurrent(SolisInverter(), sqrt3);
    assert amps * 220.0 * sqrt3 == 60000.0;
    SqrtThreeBounds(sqrt3);
    assert 157.0 * 220.0 * sqrt3 < 60000.0;
    assert 157.5 * 220.0 * sqrt3 > 60000.0;
  }

  lemma SqrtThreeBounds(sqrt3: real)
    requires sqrt3 > 0.0 && sqrt3 * sqrt3 == 3.0
    ensures 1.7316 < sqrt3 < 1.7321
  {
    if sqrt3 <= 1.7316 { MulMonotone(sqrt3, 1.7316, sqrt3); MulMonotone(sqrt3, 1.7316, 1.7316); }
    if sqrt3 >= 1.7321 { MulMonotone(1.7321, sqrt3, sqrt3); MulMonotone(1.7321, sqrt3, 1.7321); }
  }

  /** Everything the inverter section shows for a configuration. */
  datatype LimitReport = LimitReport(
    panelsPerInverter: nat, powerKW: real, acCurrent: real,
    loadPct: real, loadOk: bool,
    stringVoltage: real, voltageOk: bool,
    mpptCurrent: real, currentOk: bool)

  /** Lines 322-366. Each figure is the unrounded quantity rounded as displayed (the
      AC current solves 3 (I V)^2 = P^2 with the square root of three supplied); each flag
      is the comparison of the rounded figure with the limit, and the load flag holds
      exactly when the unrounded load is at most 100.05 %. */
  function CheckLimits(c: ArrayConfig, p: PanelSpec, inv: InverterSpec, sqrt3: real): (rep: LimitReport)
    requires UsableInverter(inv) && sqrt3 > 0.0 && sqrt3 * sqrt3 == 3.0
    ensures rep.panelsPerInverter == c.panelsPerString * c.stringsPerInverter
    ensures rep.powerKW * 1000.0 == rep.panelsPerInverter as real * p.pmax
    ensures rep.loadOk <==> ExactLoad(c, p, inv) <= 100.05
    ensures rep.loadOk <==> rep.loadPct <= 100.0
    ensures rep.voltageOk <==> rep.stringVoltage <= inv.vmaxMpp
    ensures rep.currentOk <==> rep.mpptCurrent <= inv.imaxMppt
    ensures Abs(rep.loadPct - ExactLoad(c, p, inv)) <= 0.05
    ensures Abs(rep.stringVoltage - StringVoc(c, p)) <= 0.05
    ensures Abs(rep.mpptCurrent - MpptImp(c, p)) <= 0.005
    ensures rep.acCurrent >= 0.0
    ensures 3.0 * (rep.acCurrent * inv.vnomAc) * (rep.acCurrent * inv.vnomAc) == inv.poutMax * inv.poutMax
  {
    LimitReport(
      PanelsPerInverter(c), InverterPowerKW(c, p), AcMaxCurrent(inv, sqrt3),
      LoadPercent(c, p, inv), LoadWithinRating(c, p, inv),
      DcStringVoltage(c, p), VoltageWithinLimit(c, p, inv),
      DcMpptCurrent(c, p), CurrentWithinLimit(c, p, inv))
  }

  /** Against whole-number limits, the voltage and current flags of the report hold
      exactly when the unrounded figures are within the limit plus half a unit of
      rounding. */
  lemma WholeLimitThresholds(c: ArrayConfig, p: PanelSpec, inv: InverterSpec, sqrt3: real)
    requires UsableInverter(inv) && sqrt3 > 0.0 && sqrt3 * sqrt3 == 3.0
    ensures inv.vmaxMpp == inv.vmaxMpp.Floor as real ==>
              (CheckLimits(c, p, inv, sqrt3).voltageOk <==> StringVoc(c, p) <= inv.vmaxMpp + 0.05)
    ensures inv.imaxMppt == inv.imaxMppt.Floor as real ==>
              (CheckLimits(c, p, inv, sqrt3).currentOk <==> MpptImp(c, p) <= inv.imaxMppt + 0.005)
  {
    if inv.vmaxMpp == inv.vmaxMpp.Floor as real {
      VoltageThreshold(c, p, inv, inv.vmaxMpp.Floor);
    }
    if inv.imaxMppt == inv.imaxMppt.Floor as real {
      CurrentThreshold(c, p, inv, inv.imaxMppt.Floor);
    }
  }
}
