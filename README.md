# PV assistant — a Dafny model of its sizing core

PV_assistant.py is a Streamlit page that sizes a grid-tied photovoltaic system. This
project models the page's computational core in Dafny and proves properties of it.
The core has five parts:

- **Consumption ledger.** This is the session's table of monthly consumptions and
  tariffs. "Agregar Consumo" adds a row only when both values are positive. Two
  aggregations read the table: `consumo_diario` (the mean monthly consumption over 30
  days) and `costo_Energia` (the sum of consumption × tariff).
- **Sizing figures.**
  - the peak power to install, zero when the site has no peak sun hours (HSP)
  - the panel count
  - the monthly generation and its CO₂ figure
  - the theoretical panel count for an area, the capture area, the fill factor and
    the panel's maximum power
- **Inverter limits.** The inverter load, the DC string voltage and the per-MPPT DC
  current are each rounded as the page rounds them and compared with the inverter's
  ratings. The page also shows the AC output current.
- **System totals.** These are the panel count, capture area, DC power, monthly
  energy and savings of the whole array.
- **Wiring diagram.** `generar_diagrama` builds a `networkx.DiGraph` with one node per
  inverter, string ("carril") and panel, and a position for every node.
  - Each inverter is wired to its strings.
  - Each string is wired to its panels in series.
  - A second wiring pass adds the series edges again.
- **Catalogue.** This is the static panel and inverter catalogue. `carga_paneles` fills
  in each panel's area as height × base.

Modules, one per file:

| module | what it holds |
|---|---|
| `Wrappers` | `Option` |
| `Rounding` | Python's `round(x, n)`: round half to even, on exact reals |
| `Catalog` | `carga_paneles` and `carga_inversores` |
| `Ledger` | the ledger as a class with a `seq` of rows, and its aggregations |
| `Sizing` | lines 270-311 |
| `Limits` | lines 316-366 |
| `Totals` | lines 384-392 |
| `Topology` | `generar_diagrama`: a `DiGraph` class whose methods update its node and edge sets in place, the three nested loops as methods with loop invariants, and recursive specification functions for the node set, the edge set and the layout |
| `DiagramNames` | the node-name strings and their parser |

Some choices in how the model represents the program:

- **Node keys.** The program keys nodes by f-strings. The model keys them by a
  `NodeId` datatype. `DiagramNames` proves that this loses nothing: `ParseName` inverts
  `Name`, so distinct nodes have distinct names.
- **Rounding.** Every figure that takes part in a comparison, or in a later figure,
  is modelled with the program's own `round`. It is not replaced by the exact value.
- **Parameters.**
  - Numbers entered in widgets are parameters.
  - The peak sun hours are taken as already rounded to one decimal, as line 194
    leaves them.
  - √3 is a parameter `sqrt3` with `sqrt3 > 0` and `sqrt3 * sqrt3 == 3`.
- **Counts.** The number inputs have `min_value=1` (lines 319-321). The model takes
  the three counts as `nat` and covers zero as well.

## Model

| member | source | states |
|---|---|---|
| Rounding.RoundHalfEven | PV_assistant.py:272 | the result is an integer within 1/2 of the input, and the even one on a tie (Python 3 rounding) |
| Rounding.Round1 | PV_assistant.py:272 | round(x, 1) is within 0.05 of x and keeps the sign of x |
| Rounding.Round2 | PV_assistant.py:289 | round(x, 2) is within 0.005 of x and keeps the sign of x |
| Rounding.RoundToScaleMonotone | PV_assistant.py:272 | rounding never turns a smaller value into a larger one |
| Rounding.RoundToScaleAtMost | PV_assistant.py:330 | take a limit L whose value in units of the last kept digit is even; the rounded figure is at most L exactly when the exact figure is at most L plus half a unit |
| Catalog.RawPanels | PV_assistant.py:31-35 | the dictionary as written holds the one catalogue model, with no area filled in yet |
| Catalog.JamPanel | PV_assistant.py:30-38 | the catalogue panel as loaded has area 2.333 × 1.134 = 2.645622 m², positive ratings, and its maximum-power point inside its Voc/Isc box |
| Catalog.LoadPanels | PV_assistant.py:36-37 | the area loop keeps the same models, sets every panel's area to height × base, changes no other field, and yields JamPanel for the catalogue model |
| Catalog.SolisInverter | PV_assistant.py:42-45 | the catalogue inverter is usable: positive ratings, Wp = 1000 × kWp, and VmaxMPP > VminMPP |
| Catalog.Inverters | PV_assistant.py:40-47 | the inverter dictionary has exactly one model, and every entry is usable |
| Ledger.AverageDaily | PV_assistant.py:88-90 | 0 for an empty table; otherwise average × 30 × rows equals the total consumption |
| Ledger.TotalCost | PV_assistant.py:92-94 | 0 for an empty table; non-negative for accepted rows; positive once there is a row |
| Ledger.SumByConcat | PV_assistant.py:93 | the sum over two tables joined is the sum of the two sums |
| Ledger.SumByPermutation | PV_assistant.py:93 | any rearrangement of the rows has the same sum |
| Ledger.AggregationsIgnoreOrder | PV_assistant.py:88-94 | both aggregations give the same result on any reordering of the table |
| Ledger.AverageDailyBounds | PV_assistant.py:89 | the average daily consumption lies between the smallest and the largest monthly consumption, each over 30 |
| Ledger.Acceptable | PV_assistant.py:249 | a row that passes the button's guard has a positive consumption and a positive cost |
| Ledger.AverageDailyPositive | PV_assistant.py:89 | a table with a row, all accepted, has a positive average |
| Ledger.AppendContribution | PV_assistant.py:249-252 | appending a row raises the total cost by exactly consumption × tariff and the consumption sum by exactly the consumption |
| Ledger.ConsumptionLedger.constructor | PV_assistant.py:27-28 | the session starts with an empty table |
| Ledger.ConsumptionLedger.Append | PV_assistant.py:249-255 | a row is added exactly when consumption > 0 and tariff > 0; it goes at the end; otherwise the table is unchanged; every row stays acceptable |
| Ledger.ConsumptionLedger.AverageDailyConsumption | PV_assistant.py:270 | the average is non-negative, and positive once the table has a row |
| Ledger.ConsumptionLedger.TotalEnergyCost | PV_assistant.py:263 | the total cost is non-negative, and positive once the table has a row |
| Sizing.SliderShare | PV_assistant.py:197-198 | a slider at a whole percentage between 0 and 100 gives a share between 0 and 1 that is that percentage over 100 |
| Sizing.PeakEnergy | PV_assistant.py:272 | the energy to cover is never negative and never more than the daily consumption; both sliders at 100 % ask for the whole consumption |
| Sizing.PeakEnergyMonotone | PV_assistant.py:272 | a larger consumption never asks for less energy from the array |
| Sizing.PeakPower | PV_assistant.py:271-274 | 0 when HSP ≤ 0; otherwise within 0.05 of the energy to cover / HSP; never negative for a non-negative consumption |
| Sizing.PeakPowerMonotone | PV_assistant.py:272 | a larger consumption never asks for less peak power |
| Sizing.PeakPowerSunnier | PV_assistant.py:271-272 | for positive HSP, more peak sun hours never ask for more peak power |
| Sizing.PeakPowerWithoutSun | PV_assistant.py:271-274 | the fallback to 0 kWp at HSP = 0 (the value a site without coordinates gets at line 82) is a jump: 30 kWh a day asks for 0 kWp at 0 hours but 30 kWp at one hour |
| Sizing.PanelsToInstall | PV_assistant.py:286 | the count is within 0.05 of 1000 × kWp / Pmax, and non-negative |
| Sizing.PanelsCoverPeak | PV_assistant.py:286 | count × Pmax / 1000 differs from the peak power by at most 0.00005 × Pmax kW |
| Sizing.CatalogPanelsExample | PV_assistant.py:286 | 10 kWp of the catalogue panel is 16.9 panels |
| Sizing.ExactGeneration | PV_assistant.py:288 | the unrounded generation is 0 when Pmax, HSP or the panel count is 0, and non-negative for non-negative inputs |
| Sizing.MonthlyGeneration | PV_assistant.py:288 | within 0.05 MWh of Pmax × HSP × panels × 30 / 10⁶; non-negative for non-negative inputs |
| Sizing.MonthlyGenerationMonotone | PV_assistant.py:288 | more panels never generate less |
| Sizing.Co2Avoided | PV_assistant.py:289 | within 0.005 of −0.112378 × generation; never positive for a non-negative generation |
| Sizing.Co2Antitone | PV_assistant.py:289 | more generation never shows a less negative CO₂ figure |
| Sizing.MaxPanelsForArea | PV_assistant.py:300 | count × panel area equals the available area; non-negative for a non-negative area |
| Sizing.CaptureArea | PV_assistant.py:308 | the capture area of a non-negative count is non-negative |
| Sizing.CaptureAreaRoundTrip | PV_assistant.py:308 | the capture area of the theoretical count (line 300) is exactly the available area |
| Sizing.MaxPanelPower | PV_assistant.py:311 | Vmp × Imp is positive for positive Vmp and Imp |
| Sizing.FillFactor | PV_assistant.py:309 | fill factor × (Voc × Isc) equals the maximum panel power |
| Sizing.FillFactorBounds | PV_assistant.py:309 | a loaded panel has a fill factor strictly between 0 and 1 |
| Sizing.CatalogPanelFigures | PV_assistant.py:309-311 | the catalogue panel's maximum power is 589.806 W, within its 590 W rating, and its fill factor is between 0.7904 and 0.7905 |
| Limits.PanelsPerInverter | PV_assistant.py:322 | an inverter has no panels exactly when its strings are empty or it has no strings; otherwise at least as many panels as a string holds and as it has strings |
| Limits.InverterPowerKW | PV_assistant.py:324 | the power per inverter × 1000 is panels per inverter × Pmax; non-negative for a non-negative Pmax |
| Limits.LoadPercent | PV_assistant.py:328 | within 0.05 of panels per inverter × Pmax / 10 / kWp rating |
| Limits.DcStringVoltage | PV_assistant.py:347 | within 0.05 V of Voc × panels per string |
| Limits.DcMpptCurrent | PV_assistant.py:365 | within 0.005 A of Imp × strings per inverter |
| Limits.AcMaxCurrent | PV_assistant.py:326 | √3 × I × VnomAC equals Poutmax (stated squared); the current is non-negative exactly when Poutmax is |
| Limits.LoadWithinRating | PV_assistant.py:330 | the load bar is green exactly when the unrounded load is at most 100.05 % |
| Limits.VoltageWithinLimit | PV_assistant.py:348 | a green voltage bar means Voc × panels ≤ VmaxMPP + 0.05; Voc × panels ≤ VmaxMPP − 0.05 always gives a green bar |
| Limits.CurrentWithinLimit | PV_assistant.py:366 | a green current bar means Imp × strings ≤ ImaxMPPT + 0.005; Imp × strings ≤ ImaxMPPT − 0.005 always gives a green bar |
| Limits.VoltageThreshold | PV_assistant.py:347-348 | against a whole-volt limit, the voltage bar is green exactly when Voc × panels ≤ limit + 0.05 |
| Limits.CurrentThreshold | PV_assistant.py:365-366 | against a whole-ampere limit, the current bar is green exactly when Imp × strings ≤ limit + 0.005 |
| Limits.VoltageMonotone | PV_assistant.py:347-348 | fewer panels per string keep a green voltage bar green |
| Limits.CurrentMonotone | PV_assistant.py:365-366 | fewer strings per inverter keep a green current bar green |
| Limits.LoadMonotone | PV_assistant.py:328-330 | fewer panels per inverter keep a green load bar green |
| Limits.PanelsPerInverterMonotone | PV_assistant.py:322 | fewer panels per string and fewer strings give no more panels per inverter |
| Limits.CatalogVoltageLimit | PV_assistant.py:347-348 | for the catalogue pair, the voltage bar is green exactly when there are at most 19 panels per string |
| Limits.CatalogCurrentLimit | PV_assistant.py:365-366 | for the catalogue pair, the current bar is green exactly when there are at most 18 strings per inverter |
| Limits.CatalogLoadLimit | PV_assistant.py:328-330 | for the catalogue pair, the load bar is green exactly when there are at most 101 panels per inverter |
| Limits.CatalogAcCurrent | PV_assistant.py:326 | the catalogue inverter's AC current is above 157 A and within its 157.5 A output rating |
| Limits.CheckLimits | PV_assistant.py:322-366 | panels per inverter = panels per string × strings; power × 1000 = panels × Pmax; each flag is exactly "rounded figure ≤ rating"; the load flag holds exactly when the unrounded load ≤ 100.05 %; the load, string voltage and MPPT current shown are within 0.05 %, 0.05 V and 0.005 A of the unrounded figures; the AC current is non-negative and √3 × I × VnomAC = Poutmax (stated squared) |
| Limits.WholeLimitThresholds | PV_assistant.py:347-366 | with whole-number ratings, the voltage and current flags hold exactly when the unrounded figures are within the rating plus half a unit of rounding |
| Totals.Totals | PV_assistant.py:384-390 | total panels = inverters × panels per inverter; total power = inverters × the power per inverter of line 324; the area is the capture area of the panels; energy = 30 × HSP × power |
| Totals.DiagramMatchesTotals | PV_assistant.py:384-392 | the diagram has total panels + inverters × strings + inverters nodes, and total panels + inverters × strings edges |
| Totals.EnergyMatchesGeneration | PV_assistant.py:390 | for the same panel count, the total energy equals 1000 × the unrounded generation of line 288 and is within 50 kWh of the rounded one |
| Totals.AreaFits | PV_assistant.py:386 | the capture area fits the available area exactly when the panel count is at most the theoretical count of line 300 |
| Totals.ExactSavings | PV_assistant.py:391 | the unrounded savings × the average monthly consumption is 100 × the energy; non-negative for a non-negative energy |
| Totals.SavingsPercent | PV_assistant.py:391 | within 0.005 of 100 × energy / (average daily consumption × 30); defined for any non-empty accepted table; non-negative for non-negative energy |
| Totals.FullCoverage | PV_assistant.py:391 | an energy equal to the average monthly consumption shows exactly 100 % |
| Totals.SavingsMonotone | PV_assistant.py:391 | more energy never shows smaller savings |
| Totals.OneMoreInverter | PV_assistant.py:384-388 | each extra inverter adds exactly one inverter's panels and one inverter's power |
| Topology.SeriesEdgesMembers | PV_assistant.py:131-139 | the series loop's edges are exactly (feeder of p, panel p) for 1 ≤ p ≤ P |
| Topology.SeriesLink | PV_assistant.py:146-158 | each pair the second wiring pass and line 158 add is already a series edge |
| Topology.DiagramNodesMembers | PV_assistant.py:105-161 | a node is in the diagram exactly when its inverter, string and panel indices are within 1..I, 1..S and 1..P |
| Topology.DiagramEdgesMembers | PV_assistant.py:105-161 | an edge is in the diagram exactly when it joins a string to its inverter, or a panel to its feeder, within range |
| Topology.DiagramSize | PV_assistant.py:105-161 | there are I × (1 + S × (1 + P)) nodes and I × S × (1 + P) edges, one edge into every node but the inverters |
| Topology.DiagramKindCounts | PV_assistant.py:105-139 | a diagram of I inverters with S strings of P panels has I inverter nodes, I × S string nodes and I × S × P panel nodes |
| Topology.ExampleDiagramSize | PV_assistant.py:96-163 | 2 inverters, 3 strings and 4 panels give 32 nodes and 30 edges: 2 inverters, 6 strings and 24 panels |
| Topology.YOffset | PV_assistant.py:101-163 | the first inverter's block starts at height 0 and no block starts above it |
| Topology.YOffsetClosedForm | PV_assistant.py:101-163 | inverter i's block starts 2 × S × (i − 1) below the first |
| Topology.Place | PV_assistant.py:107-137 | inverters, and only inverters, are in the column x = −7; strings are at x = −6 and panels to their right; an inverter and each of its strings 1..S lie between 1.5 and 1.5 × S below the top of the inverter's block |
| Topology.DiGraph.constructor | PV_assistant.py:97 | a new graph is empty |
| Topology.DiGraph.AddNode | PV_assistant.py:109 | adds exactly the node |
| Topology.DiGraph.AddEdge | PV_assistant.py:121 | adds the edge and both endpoints, as networkx does |
| Topology.AddPanels | PV_assistant.py:131-139 | the series loop adds exactly the series nodes and edges, and places each panel at its layout position |
| Topology.RewirePanels | PV_assistant.py:146-158 | the second wiring pass and line 158 leave the graph unchanged (duplicate edges collapse) |
| Topology.AddString | PV_assistant.py:117-161 | one string adds its node, its edge from the inverter and its series; every position is the layout position |
| Topology.AddInverter | PV_assistant.py:105-163 | one inverter adds its node and the nodes and edges of its S strings |
| Topology.GenerateDiagram | PV_assistant.py:96-163 | the graph's nodes and edges are exactly the diagram's; every node has a position, and it is its layout position |
| Topology.InverterCentred | PV_assistant.py:107-120 | an inverter sits halfway between its first and last string, to their left |
| Topology.BlocksDoNotOverlap | PV_assistant.py:120-163 | an inverter's last string lies above the next inverter's first string |
| Topology.LayoutInjective | PV_assistant.py:107-163 | with at least one string per inverter, no two diagram nodes share a position |
| Topology.InvertersStackWithoutStrings | PV_assistant.py:107 | with no strings, every inverter is drawn at (−7, −0.75) |
| Topology.EdgesAreParentLinks | PV_assistant.py:121-158 | every edge runs into a non-inverter node from its parent; both ends are in the diagram |
| Topology.EdgesGoDeeper | PV_assistant.py:121-138 | every edge goes one level down (inverter → string → panels) |
| DiagramNames.Name | PV_assistant.py:108-132 | every name starts with "Inversor "; what follows is all digits exactly for an inverter's name |
| DiagramNames.Decimal | PV_assistant.py:108 | str(n): a non-empty run of digits without a leading zero |
| DiagramNames.DecimalValue | PV_assistant.py:108 | the digits of str(n) read back as n |
| DiagramNames.ParseNameRoundTrip | PV_assistant.py:108-132 | every node name parses back to its node |
| DiagramNames.ParseNameSound | PV_assistant.py:108-132 | whatever the parser accepts is the name of the node it returns |
| DiagramNames.ParseNameInverse | PV_assistant.py:108-132 | parsing gives n exactly when the string is n's name |
| DiagramNames.NamesDistinct | PV_assistant.py:108-132 | distinct nodes have distinct names, so keying by NodeId merges no nodes |

## Left out

- `calculate_area`, `HSP` (the NASA POWER query), `geocode_address`, `setup_map` and the
  map and session widgets: these are I/O and third-party calls. The peak sun hours,
  the area typed in and the form values enter the model as parameters.
- The optimum tilt, tilted panel height and row spacing (lines 302-306) use floating
  trigonometry (`sin`, `atan`, `pi`) and are not modelled.
- The matplotlib drawing in `generar_diagrama` (icons, lines, figure) and the HTML
  progress bars: the model keeps the graph and the positions the drawing uses.
  The bars' colours are modelled as the flags of `Limits.CheckLimits`.
- Floating point: all arithmetic is on exact reals. Where a figure sits within about
  10⁻¹⁵ of a rounding tie, the program's binary doubles may round the other way.
- Display-only rounding, applied only to a figure shown and used nowhere else. The
  model keeps these values unrounded:
  - the consumption and cost metrics (lines 262-263)
  - the daily and load-profile metrics (277-278)
  - the theoretical panel count (301)
  - the fill factor and maximum panel power (310, 312)
  - the power per inverter and AC current (325, 327)
  - the totals (385, 387, 389, 391)
- The `ValueError` of `float(area)` on a non-numeric area (line 300) and of other
  non-numeric entries: the model takes numbers.
- Topology.GenerateDiagram: requires at least one panel per string when there are
  inverters and strings. With none, line 158 creates "... - Panel 1" without a
  position and line 160 raises `KeyError`. The page never calls it that way:
  `min_value=1` at line 320.
- Limits.AcMaxCurrent: √3 is a parameter pinned by `sqrt3 * sqrt3 == 3`, not the
  double `math.sqrt(3)`.
- Sizing.PeakPower: the peak sun hours are a parameter, taken as already rounded to
  one decimal as line 194 leaves them. The model does not redo that rounding.
- Negative counts: inverters, strings and panels are `nat`. The widgets refuse values
  below 1.
