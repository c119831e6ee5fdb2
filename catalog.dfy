/** The static panel and inverter catalogue (carga_paneles, carga_inversores). */
module Catalog {
  import opened Wrappers

  /** One panel model. Electrical figures are at standard test conditions;
      `area` is left empty in the catalogue literal and filled in when loaded. */
  datatype PanelSpec = PanelSpec(
    pmax: real,          // rated power, W
    vmp: real,           // voltage at maximum power, V
    imp: real,           // current at maximum power, A
    voc: real,           // open-circuit voltage, V
    isc: real,           // short-circuit current, A
    area: Option<real>,  // m^2, height * base once loaded
    height: real,        // m ("Altura")
    base: real,          // m ("Base")
    thickness: real,     // m ("Ancho")
    degradation: real,   // per year
    weight: real)        // kg

  /** One inverter model. */
  datatype InverterSpec = InverterSpec(
    vmaxMpp: real,     // highest MPPT input voltage, V
    vminMpp: real,     // lowest MPPT input voltage, V
    vnom: real,        // nominal DC input voltage, V
    pmaxWp: real,      // rated power, Wp
    pmaxKwp: real,     // rated power, kWp
    vstart: real,      // start-up voltage, V
    ninMppt: real,     // catalogue field "NinMPPT"
    weight: real,      // kg
    imaxMppt: real,    // highest current per MPPT input, A
    imaxCc: real,      // highest DC current, A
    poutMax: real,     // highest AC output power, W
    powerFactor: real,
    frequency: real,   // Hz
    inomOut: real,     // nominal AC output current, A
    ioutMax: real,     // highest AC output current, A
    vnomAc: real)      // nominal AC voltage, V

  const JamModel: string := "JAM72D40 - 590/LB"
  const SolisModel: string := "S5-GC60K-LV"

  /** The panel dictionary as written, before the area loop runs. */
  function RawPanels(): (r: map<string, PanelSpec>)
    ensures r.Keys == {JamModel}
    ensures forall m | m in r :: r[m].area == None
  {
    map[JamModel := PanelSpec(590.0, 43.4, 13.59, 52.0, 14.35, None, 2.333, 1.134, 0.03, 0.004, 32.5)]
  }

  /** A loaded panel: its area is its height times its base, and its electrical
      figures are positive with the maximum-power point inside the open-circuit /
      short-circuit box. */
  predicate LoadedPanel(p: PanelSpec)
  {
    && p.area == Some(p.height * p.base)
    && p.pmax > 0.0 && p.height > 0.0 && p.base > 0.0
    && 0.0 < p.vmp < p.voc && 0.0 < p.imp < p.isc
  }

  /** The catalogue panel as carga_paneles returns it. */
  function JamPanel(): (p: PanelSpec)
    ensures LoadedPanel(p)
    ensures p.area == Some(2.645622)
  {
    RawPanels()[JamModel].(area := Some(2.333 * 1.134))
  }

  /** carga_paneles: fills in every panel's area as height times base, in place,
      one dictionary entry at a time. */
  method LoadPanels() returns (panels: map<string, PanelSpec>)
    ensures panels.Keys == RawPanels().Keys
    ensures forall m | m in panels :: panels[m].area == Some(panels[m].height * panels[m].base)
    ensures forall m | m in panels :: panels[m].(area := None) == RawPanels()[m]
    ensures JamModel in panels && panels[JamModel] == JamPanel()
  {
    panels := RawPanels();
    var pending := panels.Keys;
    while pending != {}
      invariant pending <= panels.Keys == RawPanels().Keys
      invariant forall m | m in panels && m !in pending :: panels[m].area == Some(panels[m].height * panels[m].base)
      invariant forall m | m in panels :: panels[m].(area := None) == RawPanels()[m]
      invariant forall m | m in pending :: panels[m] == RawPanels()[m]
      decreases pending
    {
      var m :| m in pending;
      panels := panels[m := panels[m].(area := Some(panels[m].height * panels[m].base))];
      pending := pending - {m};
    }
  }

  /** A usable inverter: positive ratings and limits, and the kWp and Wp ratings agree. */
  predicate UsableInverter(inv: InverterSpec)
  {
    && inv.pmaxKwp > 0.0 && inv.pmaxWp == 1000.0 * inv.pmaxKwp
    && inv.vmaxMpp > inv.vminMpp > 0.0
    && inv.imaxMppt > 0.0 && inv.vnomAc > 0.0 && inv.poutMax > 0.0
  }

  function SolisInverter(): (inv: InverterSpec)
    ensures UsableInverter(inv)
  {
    InverterSpec(1000.0, 180.0, 450.0, 60000.0, 60.0, 195.0, 450.0, 89.0, 256.0, 320.0,
                 60000.0, 0.99, 60.0, 157.5, 157.5, 220.0)
  }

  /** carga_inversores: the inverter dictionary. */
  function Inverters(): (r: map<string, InverterSpec>)
    ensures r.Keys == {SolisModel}
    ensures forall m | m in r :: UsableInverter(r[m])
  {
    map[SolisModel := SolisInverter()]
  }
}
