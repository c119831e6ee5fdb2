/** The sizing figures of lines 270-311: the peak power to install, the panel count,
    the monthly generation and the CO2 figure, and the siting figures that do not
    depend on trigonometry. Every displayed figure is rounded as the program rounds it. */
module Sizing {
  import opened Catalog
  import opened Rounding

  /** A share set on one of the percent sliders of lines 197-198, as the program holds
      it after dividing the slider's value by 100. */
  type Share = r: real | 0.0 <= r <= 1.0

  /** Lines 197-198: a slider that runs over the whole percentages 0 to 100 gives the
      share of that many hundredths. */
  function SliderShare(pct: nat): (s: Share)
    requires pct <= 100
    ensures s * 100.0 == pct as real
  {
    pct as real / 100.0
  }

  /** The share k of a quantity x. */
  function Portion(k: real, x: real): real
  {
    k * x
  }

  /** A share between 0 and 1 of a non-negative quantity is non-negative and no larger
      than it; the full share is the whole quantity. */
  lemma PortionBounds(k: real, x: real)
    ensures x >= 0.0 && k >= 0.0 ==> Portion(k, x) >= 0.0
    ensures x >= 0.0 && k <= 1.0 ==> Portion(k, x) <= x
    ensures k == 1.0 ==> Portion(k, x) == x
  {
    if x >= 0.0 && k >= 0.0 {
      MulMonotone(0.0, k, x);
      assert k * x >= 0.0;
    }
    if x >= 0.0 && k <= 1.0 {
      MulMonotone(k, 1.0, x);
      assert k * x <= x;
    }
  }

  /** The same non-negative share of a larger quantity is no smaller. */
  lemma PortionMonotone(k: real, x: real, x': real)
    requires k >= 0.0 && x <= x'
    ensures Portion(k, x) <= Portion(k, x')
  {
    MulMonotone(x, x', k);
  }

  /** Line 272: the daily energy to cover from the array, kWh: the share consumed during
      the peak sun hours times the daily consumption times the share injected into the
      grid. It is never negative and never more than the consumption, and both sliders
      at 100 % ask for the whole consumption. */
  function PeakEnergy(dailyConsumption: real, selfUse: Share, injection: Share): (e: real)
    ensures dailyConsumption >= 0.0 ==> 0.0 <= e <= dailyConsumption
    ensures selfUse == 1.0 && injection == 1.0 ==> e == dailyConsumption
  {
    PortionBounds(selfUse, dailyConsumption);
    PortionBounds(injection, Portion(selfUse, dailyConsumption));
    Portion(injection, Portion(selfUse, dailyConsumption))
  }

  /** A larger consumption never asks for less energy from the array. */
  lemma PeakEnergyMonotone(d: real, d': real, selfUse: Share, injection: Share)
    requires d <= d'
    ensures PeakEnergy(d, selfUse, injection) <= PeakEnergy(d', selfUse, injection)
  {
    PortionMonotone(selfUse, d, d');
    PortionMonotone(injection, Portion(selfUse, d), Portion(selfUse, d'));
  }

  /** Lines 271-274: the peak power to install, kWp, rounded to one decimal; zero when
      the site has no peak sun hours. */
  function PeakPower(dailyConsumption: real, selfUse: Share, injection: Share, hsp: real): (kwp: real)
    ensures hsp <= 0.0 ==> kwp == 0.0
    ensures hsp > 0.0 ==> Abs(kwp - PeakEnergy(dailyConsumption, selfUse, injection) / hsp) <= 0.05
    ensures dailyConsumption >= 0.0 ==> kwp >= 0.0
  {
    if hsp > 0.0 then
      var e := PeakEnergy(dailyConsumption, selfUse, injection);
      assert dailyConsumption >= 0.0 ==> e >= 0.0;
      assert e >= 0.0 ==> e / hsp >= 0.0;
      Round1(e / hsp)
    else 0.0
  }

  /** A larger consumption never asks for less peak power. */
  lemma PeakPowerMonotone(d: real, d': real, selfUse: Share, injection: Share, hsp: real)
    requires d <= d'
    ensures PeakPower(d, selfUse, injection, hsp) <= PeakPower(d', selfUse, injection, hsp)
  {
    if hsp > 0.0 {
      var e, e' := PeakEnergy(d, selfUse, injection), PeakEnergy(d', selfUse, injection);
      PeakEnergyMonotone(d, d', selfUse, injection);
      ScaleMonotone(e, e', hsp);
      RoundToScaleMonotone(e / hsp, e' / hsp, 10.0);
    }
  }

  /** A site without coordinates gets 0 peak sun hours (line 82), and line 274 then asks
      for no peak power at all: the fallback is a jump, not the limit of shrinking sun.
      With 30 kWh a day and both sliders at 100 %, 0 hours ask for 0 kWp and one hour
      for 30 kWp. */
  lemma PeakPowerWithoutSun()
    ensures PeakPower(30.0, SliderShare(100), SliderShare(100), 0.0) == 0.0
    ensures PeakPower(30.0, SliderShare(100), SliderShare(100), 1.0) == 30.0
  {
    assert SliderShare(100) == 1.0;
    RoundToScaleExact(300, 10.0);
    assert 300 as real / 10.0 == 30.0;
    assert PeakEnergy(30.0, 1.0, 1.0) / 1.0 == 30.0;
  }

  /** For positive peak sun hours, a sunnier site never asks for more peak power. */
  lemma PeakPowerSunnier(d: real, selfUse: Share, injection: Share, hsp: real, hsp': real)
    requires d >= 0.0 && 0.0 < hsp <= hsp'
    ensures PeakPower(d, selfUse, injection, hsp') <= PeakPower(d, selfUse, injection, hsp)
  {
    var e := PeakEnergy(d, selfUse, injection);
    assert e >= 0.0;
    DivAntitone(e, hsp, hsp');
    RoundToScaleMonotone(e / hsp', e / hsp, 10.0);
  }

  lemma DivAntitone(e: real, h: real, h': real)
    requires e >= 0.0 && 0.0 < h <= h'
    ensures e / h' <= e / h
  {
    var q' := e / h';
    MulMonotone(h, h', q');
    assert q' * h <= e;
    ScaleMonotone(q' * h, e, h);
    assert q' * h / h == q';
  }

  /** Line 286: the number of panels to install, rounded to one decimal (left fractional,
      as the program shows it). */
  function PanelsToInstall(kwp: real, p: PanelSpec): (panels: real)
    requires p.pmax > 0.0
    ensures Abs(panels - 1000.0 * kwp / p.pmax) <= 0.05
    ensures kwp >= 0.0 ==> panels >= 0.0
  {
    assert kwp >= 0.0 ==> 1000.0 * kwp / p.pmax >= 0.0;
    Round1(1000.0 * kwp / p.pmax)
  }

  /** The installed panels deliver the peak power, up to the rounding of the count. */
  lemma PanelsCoverPeak(kwp: real, p: PanelSpec)
    requires p.pmax > 0.0
    ensures Abs(PanelsToInstall(kwp, p) * p.pmax / 1000.0 - kwp) <= 0.00005 * p.pmax
  {
    var x := 1000.0 * kwp / p.pmax;
    assert x * p.pmax == 1000.0 * kwp;
    RoundedCountBound(PanelsToInstall(kwp, p), x, kwp, p.pmax);
  }

  lemma RoundedCountBound(n: real, x: real, kwp: real, pmax: real)
    requires pmax > 0.0 && x * pmax == 1000.0 * kwp && -0.05 <= n - x <= 0.05
    ensures Abs(n * pmax / 1000.0 - kwp) <= 0.00005 * pmax
  {
    var d := n - x;
    BoundedProduct(d, 0.05, pmax);
    Split(n, x, pmax);
    ThousandthBound(d * pmax, 0.05 * pmax, n * pmax, kwp);
  }

  lemma BoundedProduct(d: real, b: real, s: real)
    requires -b <= d <= b && s >= 0.0
    ensures -(b * s) <= d * s <= b * s
  {
    if d >= 0.0 {
      assert (b - d) * s >= 0.0;
    } else {
      assert (b + d) * s >= 0.0;
    }
  }

  lemma Split(n: real, x: real, s: real)
    ensures (n - x) * s == n * s - x * s
  {
  }

  lemma ThousandthBound(e: real, b: real, w: real, kwp: real)
    requires -b <= e <= b && e == w - 1000.0 * kwp
    ensures Abs(w / 1000.0 - kwp) <= b / 1000.0
  {
  }

  /** 10 kWp of the catalogue panel is 16.9 panels. */
  lemma CatalogPanelsExample()
    ensures PanelsToInstall(10.0, JamPanel()) == 16.9
  {
    var x := 1000.0 * 10.0 / 590.0;
    assert x * 10.0 == 10000.0 / 59.0;
    assert (x * 10.0).Floor == 169;
    RoundToScaleIs(x, 10.0);
  }

  /** The unrounded monthly generation of line 288, MWh: panel power (W) times peak
      sun hours times panel count times 30 days. */
  function ExactGeneration(p: PanelSpec, hsp: real, panels: real): (mwh: real)
    ensures p.pmax == 0.0 || hsp == 0.0 || panels == 0.0 ==> mwh == 0.0
    ensures p.pmax >= 0.0 && hsp >= 0.0 && panels >= 0.0 ==> mwh >= 0.0
  {
    NonNegativeProduct(p.pmax, hsp);
    NonNegativeProduct(p.pmax * hsp, panels);
    p.pmax * hsp * panels * 30.0 / 1000000.0
  }

  /** Line 288: the monthly generation, MWh, rounded to one decimal. */
  function MonthlyGeneration(p: PanelSpec, hsp: real, panels: real): (mwh: real)
    ensures Abs(mwh - p.pmax * hsp * panels * 30.0 / 1000000.0) <= 0.05
    ensures p.pmax >= 0.0 && hsp >= 0.0 && panels >= 0.0 ==> mwh >= 0.0
  {
    Round1(ExactGeneration(p, hsp, panels))
  }

  lemma ExactGenerationMonotone(p: PanelSpec, hsp: real, n: real, n': real)
    ensures p.pmax >= 0.0 && hsp >= 0.0 && n <= n' ==> ExactGeneration(p, hsp, n) <= ExactGeneration(p, hsp, n')
  {
    var w := p.pmax * hsp;
    if p.pmax >= 0.0 && hsp >= 0.0 && n <= n' {
      MulMonotone(0.0, p.pmax, hsp);
      MulMonotone(n, n', w);
    }
  }

  /** More panels never generate less. */
  lemma MonthlyGenerationMonotone(p: PanelSpec, hsp: real, n: real, n': real)
    requires p.pmax >= 0.0 && hsp >= 0.0 && n <= n'
    ensures MonthlyGeneration(p, hsp, n) <= MonthlyGeneration(p, hsp, n')
  {
    ExactGenerationMonotone(p, hsp, n, n');
    RoundToScaleMonotone(ExactGeneration(p, hsp, n), ExactGeneration(p, hsp, n'), 10.0);
  }

  /** Line 289: the CO2 figure shown beside the generation, tonnes, rounded to two
      decimals (0.112378 t of CO2 per MWh, shown as a negative delta). */
  function Co2Avoided(mwh: real): (tonnes: real)
    ensures Abs(tonnes + 0.112378 * mwh) <= 0.005
    ensures mwh >= 0.0 ==> tonnes <= 0.0
  {
    Round2(-0.112378 * mwh)
  }

  /** More generation never shows a smaller (less negative) CO2 figure. */
  lemma Co2Antitone(mwh: real, mwh': real)
    requires mwh <= mwh'
    ensures Co2Avoided(mwh') <= Co2Avoided(mwh)
  {
    RoundToScaleMonotone(-0.112378 * mwh', -0.112378 * mwh, 100.0);
  }

  /** Line 300: how many panels fit, in theory, in the area typed in, unrounded. */
  function MaxPanelsForArea(available: real, p: PanelSpec): (count: real)
    requires p.area.Some? && p.area.value > 0.0
    ensures count * p.area.value == available
    ensures available >= 0.0 ==> count >= 0.0
  {
    available / p.area.value
  }

  /** Line 308: the capture area of a number of panels. */
  function CaptureArea(count: real, p: PanelSpec): (m2: real)
    requires p.area.Some?
    ensures count >= 0.0 && p.area.value >= 0.0 ==> m2 >= 0.0
  {
    count * p.area.value
  }

  /** The capture area computed from the theoretical panel count is the area typed in. */
  lemma CaptureAreaRoundTrip(available: real, p: PanelSpec)
    requires p.area.Some? && p.area.value > 0.0
    ensures CaptureArea(MaxPanelsForArea(available, p), p) == available
  {
  }

  /** Line 311: the power at the maximum power point of one panel, W. */
  function MaxPanelPower(p: PanelSpec): (w: real)
    ensures p.vmp > 0.0 && p.imp > 0.0 ==> w > 0.0
  {
    p.vmp * p.imp
  }

  /** Line 309: the fill factor, (Vmp * Imp) / (Voc * Isc). */
  function FillFactor(p: PanelSpec): (ff: real)
    requires p.voc * p.isc != 0.0
    ensures ff * (p.voc * p.isc) == MaxPanelPower(p)
  {
    MaxPanelPower(p) / (p.voc * p.isc)
  }

  /** For a panel whose maximum power point lies below its open-circuit voltage and
      short-circuit current, the fill factor lies strictly between 0 and 1. */
  lemma FillFactorBounds(p: PanelSpec)
    requires LoadedPanel(p)
    ensures p.voc * p.isc > 0.0
    ensures 0.0 < FillFactor(p) < 1.0
  {
    ProductBelow(p.vmp, p.voc, p.imp, p.isc);
    var vi := p.voc * p.isc;
    assert FillFactor(p) == MaxPanelPower(p) / vi;
    assert vi / vi == 1.0;
    DivAtMostIff(vi, MaxPanelPower(p), vi);
    DivAtMostIff(MaxPanelPower(p), 0.0, vi);
  }

  /** The catalogue panel: 43.4 V x 13.59 A = 589.806 W (within its 590 W rating),
      fill factor 0.7904. */
  lemma CatalogPanelFigures()
    ensures MaxPanelPower(JamPanel()) == 589.806
    ensures MaxPanelPower(JamPanel()) <= JamPanel().pmax
    ensures 0.7904 < FillFactor(JamPanel()) < 0.7905
  {
    var p := JamPanel();
    assert p.voc * p.isc == 746.2;
    assert 0.7904 * 746.2 < 589.806 < 0.7905 * 746.2;
  }
}
