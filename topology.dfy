/** The wiring diagram built by generar_diagrama (lines 96-163): a directed graph with
    one node per inverter, per string ("carril") and per panel, and a position for
    every node. Nodes are identified by their indices here; the module DiagramNames
    shows that the program's textual node names identify them just as well. */
module Topology {

  datatype NodeId =
    | Inverter(inv: nat)
    | Carril(inv: nat, carril: nat)
    | Panel(inv: nat, carril: nat, panel: nat)

  type Edge = (NodeId, NodeId)
  type Point = (real, real)

  /** The node a panel is wired from: the string's own node for the first panel,
      the previous panel otherwise. */
  function Feeder(i: nat, c: nat, p: nat): (n: NodeId)
    ensures !n.Inverter? && n.inv == i && n.carril == c
    ensures p >= 2 ==> n == Panel(i, c, p - 1)
  {
    if p <= 1 then Carril(i, c) else Panel(i, c, p - 1)
  }

  /** The nodes of a diagram with I inverters, S strings each and P panels a string. */
  predicate InDiagram(n: NodeId, I: nat, S: nat, P: nat)
  {
    match n
    case Inverter(i) => 1 <= i <= I
    case Carril(i, c) => 1 <= i <= I && 1 <= c <= S
    case Panel(i, c, p) => 1 <= i <= I && 1 <= c <= S && 1 <= p <= P
  }

  /** Its edges: each inverter feeds each of its strings, and each panel is fed by
      the node before it in its string. */
  predicate IsDiagramEdge(e: Edge, I: nat, S: nat, P: nat)
  {
    InDiagram(e.1, I, S, P) &&
    match e.1
    case Inverter(_) => false
    case Carril(i, c) => e.0 == Inverter(i)
    case Panel(i, c, p) => e.0 == Feeder(i, c, p)
  }

  /** The panels 1..k of string c of inverter i. */
  function SeriesNodes(i: nat, c: nat, k: nat): set<NodeId>
  {
    if k == 0 then {} else SeriesNodes(i, c, k - 1) + {Panel(i, c, k)}
  }

  /** The series wiring of the panels 1..k of string c of inverter i. */
  function SeriesEdges(i: nat, c: nat, k: nat): set<Edge>
  {
    if k == 0 then {} else SeriesEdges(i, c, k - 1) + {(Feeder(i, c, k), Panel(i, c, k))}
  }

  /** The nodes of strings 1..s of inverter i, each with its P panels. */
  function StringNodes(i: nat, s: nat, P: nat): set<NodeId>
  {
    if s == 0 then {} else StringNodes(i, s - 1, P) + ({Carril(i, s)} + SeriesNodes(i, s, P))
  }

  /** The edges of strings 1..s of inverter i: inverter to string, then the series. */
  function StringEdges(i: nat, s: nat, P: nat): set<Edge>
  {
    if s == 0 then {} else StringEdges(i, s - 1, P) + ({(Inverter(i), Carril(i, s))} + SeriesEdges(i, s, P))
  }

  /** The nodes added for inverters 1..n, in the order the loops add them. */
  function DiagramNodes(n: nat, S: nat, P: nat): set<NodeId>
  {
    if n == 0 then {} else DiagramNodes(n - 1, S, P) + ({Inverter(n)} + StringNodes(n, S, P))
  }

  /** The edges added for inverters 1..n. */
  function DiagramEdges(n: nat, S: nat, P: nat): set<Edge>
  {
    if n == 0 then {} else DiagramEdges(n - 1, S, P) + StringEdges(n, S, P)
  }

  lemma {:induction false} SeriesNodesMembers(i: nat, c: nat, k: nat)
    ensures forall n :: n in SeriesNodes(i, c, k) <==> n.Panel? && n.inv == i && n.carril == c && 1 <= n.panel <= k
  {
    if k > 0 {
      SeriesNodesMembers(i, c, k - 1);
    }
  }

  lemma {:induction false} SeriesNodesSize(i: nat, c: nat, k: nat)
    ensures |SeriesNodes(i, c, k)| == k
  {
    if k > 0 {
      var prev := SeriesNodes(i, c, k - 1);
      SeriesNodesSize(i, c, k - 1);
      assert Panel(i, c, k) !in prev by {
        SeriesNodesMembers(i, c, k - 1);
      }
      assert |prev + {Panel(i, c, k)}| == |prev| + 1;
    }
  }

  lemma {:induction false} SeriesEdgesMembers(i: nat, c: nat, k: nat)
    ensures forall e :: e in SeriesEdges(i, c, k) <==>
              e.1.Panel? && e.1.inv == i && e.1.carril == c && 1 <= e.1.panel <= k && e.0 == Feeder(i, c, e.1.panel)
  {
    if k > 0 {
      SeriesEdgesMembers(i, c, k - 1);
    }
  }

  lemma {:induction false} SeriesEdgesSize(i: nat, c: nat, k: nat)
    ensures |SeriesEdges(i, c, k)| == k
  {
    if k > 0 {
      var prev, e := SeriesEdges(i, c, k - 1), (Feeder(i, c, k), Panel(i, c, k));
      SeriesEdgesSize(i, c, k - 1);
      assert e !in prev by {
        SeriesEdgesMembers(i, c, k - 1);
      }
      assert |prev + {e}| == |prev| + 1;
    }
  }

  lemma {:induction false} StringNodesMembers(i: nat, s: nat, P: nat)
    ensures forall n :: n in StringNodes(i, s, P) <==>
              !n.Inverter? && n.inv == i && 1 <= n.carril <= s && (n.Panel? ==> 1 <= n.panel <= P)
  {
    if s > 0 {
      StringNodesMembers(i, s - 1, P);
      SeriesNodesMembers(i, s, P);
    }
  }

  lemma {:induction false} StringNodesSize(i: nat, s: nat, P: nat)
    ensures |StringNodes(i, s, P)| == Times(s, 1 + P)
  {
    if s > 0 {
      StringNodesSize(i, s - 1, P);
      SeriesNodesSize(i, s, P);
      StringNodesStep(i, s, P);
    }
  }

  lemma {:induction false} StringEdgesMembers(i: nat, s: nat, P: nat)
    ensures forall e :: e in StringEdges(i, s, P) <==>
              !e.1.Inverter? && e.1.inv == i && 1 <= e.1.carril <= s &&
              ((e.1.Carril? && e.0 == Inverter(i)) ||
               (e.1.Panel? && 1 <= e.1.panel <= P && e.0 == Feeder(i, e.1.carril, e.1.panel)))
  {
    if s > 0 {
      StringEdgesMembers(i, s - 1, P);
      SeriesEdgesMembers(i, s, P);
    }
  }

  lemma {:induction false} StringEdgesSize(i: nat, s: nat, P: nat)
    ensures |StringEdges(i, s, P)| == Times(s, 1 + P)
  {
    if s > 0 {
      StringEdgesSize(i, s - 1, P);
      SeriesEdgesSize(i, s, P);
      StringEdgesStep(i, s, P);
    }
  }

  /** The nodes built are exactly those of the closed description InDiagram. */
  lemma {:induction false} DiagramNodesMembers(n: nat, S: nat, P: nat)
    ensures forall x :: x in DiagramNodes(n, S, P) <==> InDiagram(x, n, S, P)
  {
    if n > 0 {
      DiagramNodesMembers(n - 1, S, P);
      StringNodesMembers(n, S, P);
    }
  }

  lemma {:induction false} DiagramNodesSize(n: nat, S: nat, P: nat)
    ensures |DiagramNodes(n, S, P)| == Times(n, 1 + Times(S, 1 + P))
  {
    if n > 0 {
      var k := 1 + Times(S, 1 + P);
      assert |DiagramNodes(n, S, P)| == Times(n - 1, k) + k by {
        DiagramNodesSize(n - 1, S, P);
        StringNodesSize(n, S, P);
        DiagramNodesStep(n, S, P);
      }
      CountStep(|DiagramNodes(n, S, P)|, n, k);
    }
  }

  /** The edges built are exactly those of the closed description IsDiagramEdge. */
  lemma {:induction false} DiagramEdgesMembers(n: nat, S: nat, P: nat)
    ensures forall e :: e in DiagramEdges(n, S, P) <==> IsDiagramEdge(e, n, S, P)
  {
    if n > 0 {
      DiagramEdgesMembers(n - 1, S, P);
      StringEdgesMembers(n, S, P);
      forall e ensures e in DiagramEdges(n, S, P) <==> IsDiagramEdge(e, n, S, P) {
        if IsDiagramEdge(e, n, S, P) && e.1.inv == n {
          assert e in StringEdges(n, S, P);
        }
      }
    }
  }

  lemma {:induction false} DiagramEdgesSize(n: nat, S: nat, P: nat)
    ensures |DiagramEdges(n, S, P)| == Times(n, Times(S, 1 + P))
  {
    if n > 0 {
      var k := Times(S, 1 + P);
      assert |DiagramEdges(n, S, P)| == Times(n - 1, k) + k by {
        DiagramEdgesSize(n - 1, S, P);
        StringEdgesSize(n, S, P);
        DiagramEdgesStep(n, S, P);
      }
      CountStep(|DiagramEdges(n, S, P)|, n, k);
    }
  }

  // Each block added by one pass of a loop is new and has the expected size.

  lemma {:induction false} StringNodesStep(i: nat, s: nat, P: nat)
    requires s >= 1
    ensures |StringNodes(i, s, P)| == |StringNodes(i, s - 1, P)| + 1 + |SeriesNodes(i, s, P)|
  {
    StringNodesMembers(i, s - 1, P);
    SeriesNodesMembers(i, s, P);
    var next := {Carril(i, s)} + SeriesNodes(i, s, P);
    AddFresh(SeriesNodes(i, s, P), Carril(i, s));
    DisjointUnion(StringNodes(i, s - 1, P), next);
  }

  lemma {:induction false} StringEdgesStep(i: nat, s: nat, P: nat)
    requires s >= 1
    ensures |StringEdges(i, s, P)| == |StringEdges(i, s - 1, P)| + 1 + |SeriesEdges(i, s, P)|
  {
    var wire := (Inverter(i), Carril(i, s));
    StringEdgesFresh(i, s, P);
    AddFresh(SeriesEdges(i, s, P), wire);
    assert |StringEdges(i, s - 1, P) * ({wire} + SeriesEdges(i, s, P))| == 0;
  }

  /** The wiring of string s shares no edge with that of the strings before it. */
  lemma {:induction false} StringEdgesFresh(i: nat, s: nat, P: nat)
    requires s >= 1
    ensures (Inverter(i), Carril(i, s)) !in SeriesEdges(i, s, P)
    ensures StringEdges(i, s - 1, P) * ({(Inverter(i), Carril(i, s))} + SeriesEdges(i, s, P)) == {}
  {
    var wire := (Inverter(i), Carril(i, s));
    assert wire !in SeriesEdges(i, s, P) by { SeriesEdgesMembers(i, s, P); }
    var earlier, next := StringEdges(i, s - 1, P), {wire} + SeriesEdges(i, s, P);
    forall e: Edge | e in earlier * next ensures false {
      StringEdgesMembers(i, s - 1, P);
      SeriesEdgesMembers(i, s, P);
    }
    assert earlier * next == {};
  }

  lemma {:induction false} DiagramNodesStep(n: nat, S: nat, P: nat)
    requires n >= 1
    ensures |DiagramNodes(n, S, P)| == |DiagramNodes(n - 1, S, P)| + 1 + |StringNodes(n, S, P)|
  {
    DiagramNodesMembers(n - 1, S, P);
    StringNodesMembers(n, S, P);
    var next := {Inverter(n)} + StringNodes(n, S, P);
    AddFresh(StringNodes(n, S, P), Inverter(n));
    DisjointUnion(DiagramNodes(n - 1, S, P), next);
  }

  lemma {:induction false} DiagramEdgesStep(n: nat, S: nat, P: nat)
    requires n >= 1
    ensures |DiagramEdges(n, S, P)| == |DiagramEdges(n - 1, S, P)| + |StringEdges(n, S, P)|
  {
    DiagramEdgesMembers(n - 1, S, P);
    StringEdgesMembers(n, S, P);
    DisjointUnion(DiagramEdges(n - 1, S, P), StringEdges(n, S, P));
  }

  lemma AddFresh<T>(a: set<T>, x: T)
    requires x !in a
    ensures |{x} + a| == 1 + |a|
  {
    assert {x} + a == a + {x};
  }

  lemma DisjointUnion<T>(a: set<T>, b: set<T>)
    requires forall x | x in b :: x !in a
    ensures |a + b| == |a| + |b|
  {
    assert a * b == {};
  }

  /** The vertical offset of inverter i's block: 0 for the first inverter (line 101),
      and 2 * S lower for each inverter after it (line 163). Inverter numbers start at 1;
      number 0 never occurs in a diagram and is given the first inverter's offset. */
  function YOffset(i: nat, S: nat): (y: int)
    ensures i <= 1 || S == 0 ==> y == 0
    ensures y <= 0
  {
    if i <= 1 then 0 else YOffset(i - 1, S) - 2 * S
  }

  /** The offset in closed form: inverter i sits 2 * S * (i - 1) below the first. */
  lemma {:induction false} YOffsetClosedForm(i: nat, S: nat)
    requires i >= 1
    ensures YOffset(i, S) == -2 * S * (i - 1)
  {
    if i > 1 {
      YOffsetClosedForm(i - 1, S);
      assert -2 * S * (i - 2) - 2 * S == -2 * S * (i - 1);
    }
  }

  /** Where generar_diagrama places each node: inverters at x = -7, centred on their
      strings (lines 107 and 110); strings at x = -6, 1.5 apart (line 120); panel p of a string
      p units to the right of it, at the string's height (lines 134-137). */
  function Place(n: NodeId, S: nat): (pt: Point)
    ensures n.Inverter? <==> pt.0 == -7.0
    ensures n.Carril? ==> pt.0 == -6.0
    ensures n.Panel? && n.panel >= 1 ==> pt.0 > -6.0
    ensures (n.Inverter? && S >= 1) || (!n.Inverter? && 1 <= n.carril <= S) ==>
      YOffset(n.inv, S) as real - 1.5 * S as real <= pt.1 <= YOffset(n.inv, S) as real - 1.5
  {
    match n
    case Inverter(i) => (-7.0, YOffset(i, S) as real - (S + 1) as real * 1.5 / 2.0)
    case Carril(i, c) => (-6.0, YOffset(i, S) as real - c as real * 1.5)
    case Panel(i, c, p) => (-6.0 + p as real, YOffset(i, S) as real - c as real * 1.5)
  }

  /** Every node with a position sits where Place puts it. */
  predicate Placed(pos: map<NodeId, Point>, S: nat)
  {
    forall n {:trigger pos[n]} | n in pos :: pos[n] == Place(n, S)
  }

  /** A networkx DiGraph restricted to what generar_diagrama uses. */
  class DiGraph {
    var nodes: set<NodeId>
    var edges: set<Edge>

    /** Every edge joins two nodes of the graph. */
    ghost predicate Valid()
      reads this
    {
      forall e | e in edges :: e.0 in nodes && e.1 in nodes
    }

    constructor ()
      ensures Valid() && nodes == {} && edges == {}
    {
      nodes := {};
      edges := {};
    }

    /** add_node: adding a node already present changes nothing. */
    method AddNode(n: NodeId)
      requires Valid()
      modifies this
      ensures Valid()
      ensures nodes == old(nodes) + {n} && edges == old(edges)
    {
      nodes := nodes + {n};
    }

    /** add_edge: adds both endpoints as well; an edge already present is not
        duplicated. */
    method AddEdge(u: NodeId, v: NodeId)
      requires Valid()
      modifies this
      ensures Valid()
      ensures nodes == old(nodes) + {u, v} && edges == old(edges) + {(u, v)}
    {
      nodes := nodes + {u, v};
      edges := edges + {(u, v)};
    }
  }

  /** One pass of the string loop (lines 117-161): the string node and its edge from
      the inverter, then its panels. */
  method AddString(g: DiGraph, pos: map<NodeId, Point>, inv: nat, carril: nat, S: nat, P: nat,
                   xOffset: real, yOffset: int)
    returns (pos': map<NodeId, Point>)
    requires g.Valid() && pos.Keys == g.nodes
    requires Placed(pos, S)
    requires 1 <= carril <= S && P >= 1
    requires xOffset == -7.0 && yOffset == YOffset(inv, S)
    requires Inverter(inv) in g.nodes
    modifies g
    ensures g.Valid() && pos'.Keys == g.nodes
    ensures Placed(pos', S)
    ensures g.nodes == old(g.nodes) + ({Carril(inv, carril)} + SeriesNodes(inv, carril, P))
    ensures g.edges == old(g.edges) + ({(Inverter(inv), Carril(inv, carril))} + SeriesEdges(inv, carril, P))
  {
    var carrilNode := Carril(inv, carril);
    g.AddNode(carrilNode);
    pos' := pos[carrilNode := (xOffset + 1.0, yOffset as real - carril as real * 1.5)];
    assert pos'[carrilNode] == Place(carrilNode, S);
    g.AddEdge(Inverter(inv), carrilNode);
    assert g.nodes == old(g.nodes) + {carrilNode};
    assert g.edges == old(g.edges) + {(Inverter(inv), carrilNode)};

    pos' := AddPanels(g, pos', inv, carril, S, P);
    RewirePanels(g, inv, carril, P);
    // Line 160 looks the first panel's position up; with P >= 1 it exists.
    SeriesNodesMembers(inv, carril, P);
    var firstPanelAt := pos'[Panel(inv, carril, 1)];
  }

  /** The series loop (lines 131-139): panel p is placed p units right of its string
      and wired from the node before it. */
  method AddPanels(g: DiGraph, pos: map<NodeId, Point>, inv: nat, carril: nat, S: nat, P: nat)
    returns (pos': map<NodeId, Point>)
    requires g.Valid() && pos.Keys == g.nodes
    requires Placed(pos, S)
    requires Carril(inv, carril) in g.nodes
    modifies g
    ensures g.Valid() && pos'.Keys == g.nodes
    ensures Placed(pos', S)
    ensures g.nodes == old(g.nodes) + SeriesNodes(inv, carril, P)
    ensures g.edges == old(g.edges) + SeriesEdges(inv, carril, P)
  {
    pos' := pos;
    var last := Carril(inv, carril);
    var panel := 1;
    while panel <= P
      invariant 1 <= panel <= P + 1
      invariant g.Valid() && pos'.Keys == g.nodes
      invariant Placed(pos', S)
      invariant g.nodes == old(g.nodes) + SeriesNodes(inv, carril, panel - 1)
      invariant g.edges == old(g.edges) + SeriesEdges(inv, carril, panel - 1)
      invariant last == Feeder(inv, carril, panel) && last in g.nodes
    {
      pos' := NextPanel(g, pos', inv, carril, panel, S, last, old(g.nodes), old(g.edges));
      last := Panel(inv, carril, panel);
      panel := panel + 1;
    }
    assert panel - 1 == P;
  }

  /** One pass of the series loop (lines 132-139), stated as the step from panels
      1..panel - 1 of the string to panels 1..panel. */
  method NextPanel(g: DiGraph, pos: map<NodeId, Point>, inv: nat, carril: nat, panel: nat, S: nat,
                   last: NodeId, ghost nodesAt: set<NodeId>, ghost edgesAt: set<Edge>)
    returns (pos': map<NodeId, Point>)
    requires g.Valid() && pos.Keys == g.nodes
    requires Placed(pos, S)
    requires panel >= 1 && Carril(inv, carril) in nodesAt
    requires last == Feeder(inv, carril, panel) && last in g.nodes
    requires g.nodes == nodesAt + SeriesNodes(inv, carril, panel - 1)
    requires g.edges == edgesAt + SeriesEdges(inv, carril, panel - 1)
    modifies g
    ensures g.Valid() && pos'.Keys == g.nodes
    ensures Placed(pos', S)
    ensures g.nodes == nodesAt + SeriesNodes(inv, carril, panel)
    ensures g.edges == edgesAt + SeriesEdges(inv, carril, panel)
  {
    var carrilNode := Carril(inv, carril);
    var panelNode := Panel(inv, carril, panel);
    g.AddNode(panelNode);
    assert pos[carrilNode] == Place(carrilNode, S);
    pos' := pos[panelNode := (pos[carrilNode].0 + panel as real * 1.0, pos[carrilNode].1)];
    assert pos'[panelNode] == Place(panelNode, S);
    g.AddEdge(last, panelNode);
    assert g.nodes == nodesAt + SeriesNodes(inv, carril, panel);
  }

  /** The second wiring pass (lines 146-149) and the edge from the string to its first
      panel (line 158) only add edges the series loop already added: they leave the
      graph as it was. */
  method RewirePanels(g: DiGraph, inv: nat, carril: nat, P: nat)
    requires g.Valid() && P >= 1
    requires SeriesEdges(inv, carril, P) <= g.edges
    modifies g
    ensures g.Valid() && g.nodes == old(g.nodes) && g.edges == old(g.edges)
  {
    var i := 1;
    while i < P
      invariant 1 <= i <= P
      invariant g.Valid() && g.nodes == old(g.nodes) && g.edges == old(g.edges)
    {
      SeriesLink(inv, carril, i, P);
      g.AddEdge(Panel(inv, carril, i), Panel(inv, carril, i + 1));
      i := i + 1;
    }
    SeriesLink(inv, carril, 0, P);
    g.AddEdge(Carril(inv, carril), Panel(inv, carril, 1));
  }

  /** The pairs the second wiring pass (lines 146-149) and line 158 add are already
      edges of the series: panel k to panel k + 1, and the string to its first panel. */
  lemma {:induction false} SeriesLink(i: nat, c: nat, k: nat, P: nat)
    requires k < P
    ensures (Feeder(i, c, k + 1), Panel(i, c, k + 1)) in SeriesEdges(i, c, P)
    ensures k >= 1 ==> Feeder(i, c, k + 1) == Panel(i, c, k)
    ensures k == 0 ==> Feeder(i, c, k + 1) == Carril(i, c)
  {
    SeriesEdgesMembers(i, c, P);
  }

  /** generar_diagrama(num_inversores, carriles_por_inversor, paneles_por_carril),
      without the drawing: the graph and the position of every node. With at least one
      inverter and one string, the program needs at least one panel per string: with
      none, line 158 creates the node "... - Panel 1" without a position and line 160
      fails looking it up. */
  method GenerateDiagram(numInverters: nat, stringsPerInverter: nat, panelsPerString: nat)
    returns (g: DiGraph, pos: map<NodeId, Point>)
    requires numInverters == 0 || stringsPerInverter == 0 || panelsPerString > 0
    ensures fresh(g) && g.Valid()
    ensures g.nodes == DiagramNodes(numInverters, stringsPerInverter, panelsPerString)
    ensures g.edges == DiagramEdges(numInverters, stringsPerInverter, panelsPerString)
    ensures pos.Keys == g.nodes
    ensures Placed(pos, stringsPerInverter)
  {
    var I, S, P := numInverters, stringsPerInverter, panelsPerString;
    g := new DiGraph();
    pos := map[];
    var xOffset := -7.0;
    var yOffset: int := 0;

    var inv := 1;
    while inv <= I
      invariant 1 <= inv <= I + 1
      invariant fresh(g) && g.Valid() && pos.Keys == g.nodes
      invariant Placed(pos, S)
      invariant g.nodes == DiagramNodes(inv - 1, S, P)
      invariant g.edges == DiagramEdges(inv - 1, S, P)
      invariant yOffset == YOffset(inv, S)
    {
      pos := AddInverter(g, pos, inv, S, P, xOffset, yOffset);
      yOffset := yOffset - 2 * S;
      inv := inv + 1;
    }
  }

  /** One pass of the inverter loop (lines 105-163): the inverter, centred on its
      strings, then each of its strings. */
  method AddInverter(g: DiGraph, pos: map<NodeId, Point>, inv: nat, S: nat, P: nat,
                     xOffset: real, yOffset: int)
    returns (pos': map<NodeId, Point>)
    requires g.Valid() && pos.Keys == g.nodes
    requires Placed(pos, S)
    requires S == 0 || P >= 1
    requires xOffset == -7.0 && yOffset == YOffset(inv, S)
    modifies g
    ensures g.Valid() && pos'.Keys == g.nodes
    ensures Placed(pos', S)
    ensures g.nodes == old(g.nodes) + ({Inverter(inv)} + StringNodes(inv, S, P))
    ensures g.edges == old(g.edges) + StringEdges(inv, S, P)
  {
    var yCentre := yOffset as real - (S + 1) as real * 1.5 / 2.0;
    var invNode := Inverter(inv);
    g.AddNode(invNode);
    pos' := pos[invNode := (xOffset, yCentre)];
    pos' := AddStrings(g, pos', inv, S, P, xOffset, yOffset);
  }

  /** The string loop of one inverter (lines 117-161), once the inverter is placed. */
  method AddStrings(g: DiGraph, pos: map<NodeId, Point>, inv: nat, S: nat, P: nat,
                    xOffset: real, yOffset: int)
    returns (pos': map<NodeId, Point>)
    requires g.Valid() && pos.Keys == g.nodes
    requires Placed(pos, S)
    requires S == 0 || P >= 1
    requires xOffset == -7.0 && yOffset == YOffset(inv, S)
    requires Inverter(inv) in g.nodes
    modifies g
    ensures g.Valid() && pos'.Keys == g.nodes
    ensures Placed(pos', S)
    ensures g.nodes == old(g.nodes) + StringNodes(inv, S, P)
    ensures g.edges == old(g.edges) + StringEdges(inv, S, P)
  {
    pos' := pos;
    var carril := 1;
    while carril <= S
      invariant 1 <= carril <= S + 1
      invariant g.Valid() && pos'.Keys == g.nodes
      invariant Placed(pos', S)
      invariant g.nodes == old(g.nodes) + StringNodes(inv, carril - 1, P)
      invariant g.edges == old(g.edges) + StringEdges(inv, carril - 1, P)
    {
      pos' := NextString(g, pos', inv, carril, S, P, xOffset, yOffset, old(g.nodes), old(g.edges));
      carril := carril + 1;
    }
    assert carril - 1 == S;
  }

  /** One pass of the string loop, stated as the step from strings 1..carril - 1 of the
      inverter to strings 1..carril. */
  method NextString(g: DiGraph, pos: map<NodeId, Point>, inv: nat, carril: nat, S: nat, P: nat,
                    xOffset: real, yOffset: int, ghost nodesAt: set<NodeId>, ghost edgesAt: set<Edge>)
    returns (pos': map<NodeId, Point>)
    requires g.Valid() && pos.Keys == g.nodes
    requires Placed(pos, S)
    requires 1 <= carril <= S && P >= 1
    requires xOffset == -7.0 && yOffset == YOffset(inv, S)
    requires Inverter(inv) in nodesAt
    requires g.nodes == nodesAt + StringNodes(inv, carril - 1, P)
    requires g.edges == edgesAt + StringEdges(inv, carril - 1, P)
    modifies g
    ensures g.Valid() && pos'.Keys == g.nodes
    ensures Placed(pos', S)
    ensures g.nodes == nodesAt + StringNodes(inv, carril, P)
    ensures g.edges == edgesAt + StringEdges(inv, carril, P)
  {
    pos' := AddString(g, pos, inv, carril, S, P, xOffset, yOffset);
    StringBlocks(nodesAt, old(g.nodes), g.nodes, edgesAt, old(g.edges), g.edges, inv, carril, P);
  }

  /** Adding one string's block to the graph built so far extends the inverter's block
      by that string. */
  lemma StringBlocks(nodesAt: set<NodeId>, nodes0: set<NodeId>, nodes1: set<NodeId>,
                     edgesAt: set<Edge>, edges0: set<Edge>, edges1: set<Edge>,
                     inv: nat, carril: nat, P: nat)
    requires carril >= 1
    requires nodes0 == nodesAt + StringNodes(inv, carril - 1, P)
    requires nodes1 == nodes0 + ({Carril(inv, carril)} + SeriesNodes(inv, carril, P))
    requires edges0 == edgesAt + StringEdges(inv, carril - 1, P)
    requires edges1 == edges0 + ({(Inverter(inv), Carril(inv, carril))} + SeriesEdges(inv, carril, P))
    ensures nodes1 == nodesAt + StringNodes(inv, carril, P)
    ensures edges1 == edgesAt + StringEdges(inv, carril, P)
  {
  }

  lemma {:induction false} CountStep(total: nat, n: nat, k: nat)
    requires n >= 1 && total == Times(n - 1, k) + k
    ensures total == Times(n, k)
  {
  }

  /** n * k, unfolded one factor at a time so that the counting proofs stay linear. */
  function Times(n: nat, k: nat): nat
  {
    if n == 0 then 0 else Times(n - 1, k) + k
  }

  lemma {:induction false} TimesIsProduct(n: nat, k: nat)
    ensures Times(n, k) == n * k
  {
    if n > 0 {
      TimesIsProduct(n - 1, k);
      assert (n - 1) * k + k == n * k;
    }
  }

  /** The diagram has I * (1 + S * (1 + P)) nodes and I * S * (1 + P) edges: one edge
      into every node but the inverters. */
  lemma {:induction false} DiagramSize(I: nat, S: nat, P: nat)
    ensures |DiagramNodes(I, S, P)| == I * (1 + S * (1 + P))
    ensures |DiagramEdges(I, S, P)| == I * (S * (1 + P))
    ensures |DiagramNodes(I, S, P)| == |DiagramEdges(I, S, P)| + I
  {
    assert |DiagramNodes(I, S, P)| == I * (1 + S * (1 + P)) by {
      DiagramNodesSize(I, S, P);
      NestedTimes(I, S, 1 + P);
    }
    assert |DiagramEdges(I, S, P)| == I * (S * (1 + P)) by {
      DiagramEdgesSize(I, S, P);
      NestedTimes(I, S, 1 + P);
    }
    assert I * (1 + S * (1 + P)) == I * (S * (1 + P)) + I by { NestedTimes(I, S, 1 + P); }
  }

  /** Times(I, 1 + Times(S, Q)) and Times(I, Times(S, Q)) as products, and the one
      extra per block that the first has over the second. */
  lemma {:induction false} NestedTimes(I: nat, S: nat, Q: nat)
    ensures Times(I, 1 + Times(S, Q)) == I * (1 + S * Q)
    ensures Times(I, Times(S, Q)) == I * (S * Q)
    ensures I * (1 + S * Q) == I * (S * Q) + I
  {
    TimesIsProduct(S, Q);
    var k := Times(S, Q);
    TimesIsProduct(I, 1 + k);
    TimesIsProduct(I, k);
    assert I * (1 + k) == I * k + I;
  }

  /** The inverters, the strings and the panels among a set of nodes. */
  function Inverters(ns: set<NodeId>): set<NodeId> { set n | n in ns && n.Inverter? }

  function Strings(ns: set<NodeId>): set<NodeId> { set n | n in ns && n.Carril? }

  function Panels(ns: set<NodeId>): set<NodeId> { set n | n in ns && n.Panel? }

  lemma KindsOfUnion(a: set<NodeId>, b: set<NodeId>)
    ensures Inverters(a + b) == Inverters(a) + Inverters(b)
    ensures Strings(a + b) == Strings(a) + Strings(b)
    ensures Panels(a + b) == Panels(a) + Panels(b)
  {
  }

  lemma {:induction false} SeriesKinds(i: nat, c: nat, k: nat)
    ensures Inverters(SeriesNodes(i, c, k)) == {} && Strings(SeriesNodes(i, c, k)) == {}
    ensures Panels(SeriesNodes(i, c, k)) == SeriesNodes(i, c, k)
  {
    SeriesNodesMembers(i, c, k);
  }

  /** String s of an inverter adds one new string node and its own series of panels. */
  lemma {:induction false} StringKindsStep(i: nat, s: nat, P: nat)
    requires s >= 1
    ensures Strings(StringNodes(i, s, P)) == {Carril(i, s)} + Strings(StringNodes(i, s - 1, P))
    ensures Carril(i, s) !in Strings(StringNodes(i, s - 1, P))
    ensures Panels(StringNodes(i, s, P)) == Panels(StringNodes(i, s - 1, P)) + SeriesNodes(i, s, P)
    ensures forall x | x in SeriesNodes(i, s, P) :: x !in Panels(StringNodes(i, s - 1, P))
  {
    var before, series := StringNodes(i, s - 1, P), SeriesNodes(i, s, P);
    var next := {Carril(i, s)} + series;
    assert StringNodes(i, s, P) == before + next;
    KindsOfUnion(before, next);
    KindsOfUnion({Carril(i, s)}, series);
    SeriesKinds(i, s, P);
    assert Strings({Carril(i, s)}) == {Carril(i, s)} && Panels({Carril(i, s)}) == {};
    StringNodesMembers(i, s - 1, P);
    SeriesNodesMembers(i, s, P);
  }

  /** Inverter n adds one new inverter node and the strings and panels of its own block. */
  lemma {:induction false} DiagramKindsStep(n: nat, S: nat, P: nat)
    requires n >= 1
    ensures Inverters(DiagramNodes(n, S, P)) == {Inverter(n)} + Inverters(DiagramNodes(n - 1, S, P))
    ensures Inverter(n) !in Inverters(DiagramNodes(n - 1, S, P))
    ensures Strings(DiagramNodes(n, S, P)) == Strings(DiagramNodes(n - 1, S, P)) + Strings(StringNodes(n, S, P))
    ensures forall x | x in Strings(StringNodes(n, S, P)) :: x !in Strings(DiagramNodes(n - 1, S, P))
    ensures Panels(DiagramNodes(n, S, P)) == Panels(DiagramNodes(n - 1, S, P)) + Panels(StringNodes(n, S, P))
    ensures forall x | x in Panels(StringNodes(n, S, P)) :: x !in Panels(DiagramNodes(n - 1, S, P))
  {
    var before, block := DiagramNodes(n - 1, S, P), StringNodes(n, S, P);
    var next := {Inverter(n)} + block;
    assert DiagramNodes(n, S, P) == before + next;
    KindsOfUnion(before, next);
    KindsOfUnion({Inverter(n)}, block);
    assert Inverters({Inverter(n)}) == {Inverter(n)};
    assert Strings({Inverter(n)}) == {} && Panels({Inverter(n)}) == {};
    DiagramNodesMembers(n - 1, S, P);
    StringNodesMembers(n, S, P);
    assert Inverters(block) == {};
  }

  /** The same steps, counted. */
  lemma {:induction false} StringKindsSizes(i: nat, s: nat, P: nat)
    requires s >= 1
    ensures |Strings(StringNodes(i, s, P))| == |Strings(StringNodes(i, s - 1, P))| + 1
    ensures |Panels(StringNodes(i, s, P))| == |Panels(StringNodes(i, s - 1, P))| + P
  {
    StringKindsStep(i, s, P);
    AddFresh(Strings(StringNodes(i, s - 1, P)), Carril(i, s));
    DisjointUnion(Panels(StringNodes(i, s - 1, P)), SeriesNodes(i, s, P));
    SeriesNodesSize(i, s, P);
  }

  lemma {:induction false} DiagramKindsSizes(n: nat, S: nat, P: nat)
    requires n >= 1
    ensures |Inverters(DiagramNodes(n, S, P))| == |Inverters(DiagramNodes(n - 1, S, P))| + 1
    ensures |Strings(DiagramNodes(n, S, P))| == |Strings(DiagramNodes(n - 1, S, P))| + |Strings(StringNodes(n, S, P))|
    ensures |Panels(DiagramNodes(n, S, P))| == |Panels(DiagramNodes(n - 1, S, P))| + |Panels(StringNodes(n, S, P))|
  {
    DiagramKindsStep(n, S, P);
    AddFresh(Inverters(DiagramNodes(n - 1, S, P)), Inverter(n));
    DisjointUnion(Strings(DiagramNodes(n - 1, S, P)), Strings(StringNodes(n, S, P)));
    DisjointUnion(Panels(DiagramNodes(n - 1, S, P)), Panels(StringNodes(n, S, P)));
  }

  /** No strings and no inverters hold no nodes of any kind. */
  lemma {:induction false} KindsAtZero(i: nat, S: nat, P: nat)
    ensures |Strings(StringNodes(i, 0, P))| == 0 && |Panels(StringNodes(i, 0, P))| == 0
    ensures |Inverters(DiagramNodes(0, S, P))| == 0
    ensures |Strings(DiagramNodes(0, S, P))| == 0 && |Panels(DiagramNodes(0, S, P))| == 0
  {
    assert Strings({}) == {} && Panels({}) == {} && Inverters({}) == {};
  }

  /** The strings 1..s of one inverter are s string nodes. */
  lemma {:induction false} StringCount(i: nat, s: nat, P: nat)
    ensures |Strings(StringNodes(i, s, P))| == s
  {
    if s > 0 {
      StringCount(i, s - 1, P);
      StringKindsSizes(i, s, P);
    } else {
      KindsAtZero(i, 0, P);
    }
  }

  /** The strings 1..s of one inverter hold s * P panels. */
  lemma {:induction false} StringPanelCount(i: nat, s: nat, P: nat)
    ensures |Panels(StringNodes(i, s, P))| == Times(s, P)
  {
    if s > 0 {
      StringPanelCount(i, s - 1, P);
      StringKindsSizes(i, s, P);
      CountStep(|Panels(StringNodes(i, s, P))|, s, P);
    } else {
      KindsAtZero(i, 0, P);
    }
  }

  /** Inverters 1..n are n inverter nodes. */
  lemma {:induction false} InverterCount(n: nat, S: nat, P: nat)
    ensures |Inverters(DiagramNodes(n, S, P))| == n
  {
    if n > 0 {
      InverterCount(n - 1, S, P);
      DiagramKindsSizes(n, S, P);
    } else {
      KindsAtZero(0, S, P);
    }
  }

  /** Inverters 1..n hold n * S string nodes. */
  lemma {:induction false} DiagramStringCount(n: nat, S: nat, P: nat)
    ensures |Strings(DiagramNodes(n, S, P))| == Times(n, S)
  {
    if n > 0 {
      DiagramStringCount(n - 1, S, P);
      StringCount(n, S, P);
      DiagramKindsSizes(n, S, P);
      CountStep(|Strings(DiagramNodes(n, S, P))|, n, S);
    } else {
      KindsAtZero(0, S, P);
    }
  }

  /** Inverters 1..n hold n * (S * P) panel nodes. */
  lemma {:induction false} DiagramPanelCount(n: nat, S: nat, P: nat)
    ensures |Panels(DiagramNodes(n, S, P))| == Times(n, Times(S, P))
  {
    if n > 0 {
      DiagramPanelCount(n - 1, S, P);
      StringPanelCount(n, S, P);
      DiagramKindsSizes(n, S, P);
      CountStep(|Panels(DiagramNodes(n, S, P))|, n, Times(S, P));
    } else {
      KindsAtZero(0, S, P);
    }
  }

  /** A diagram of I inverters with S strings of P panels each has I inverter nodes,
      I * S string nodes and I * S * P panel nodes. */
  lemma {:induction false} DiagramKindCounts(I: nat, S: nat, P: nat)
    ensures |Inverters(DiagramNodes(I, S, P))| == I
    ensures |Strings(DiagramNodes(I, S, P))| == I * S
    ensures |Panels(DiagramNodes(I, S, P))| == I * (S * P)
  {
    InverterCount(I, S, P);
    DiagramStringCount(I, S, P);
    DiagramPanelCount(I, S, P);
    TimesIsProduct(I, S);
    TimesIsProduct(S, P);
    TimesIsProduct(I, S * P);
  }

  /** Each inverter is drawn level with the middle of its first and last strings. */
  lemma {:induction false} InverterCentred(i: nat, S: nat)
    requires S >= 1
    ensures Place(Inverter(i), S).1 == (Place(Carril(i, 1), S).1 + Place(Carril(i, S), S).1) / 2.0
    ensures Place(Inverter(i), S).0 < Place(Carril(i, 1), S).0
  {
  }

  /** Each inverter's block lies strictly above the next one's: the lowest string of
      inverter i is above the highest string of inverter i + 1. */
  lemma {:induction false} BlocksDoNotOverlap(i: nat, S: nat)
    requires i >= 1 && S >= 1
    ensures Place(Carril(i, S), S).1 > Place(Carril(i + 1, 1), S).1
  {
  }

  lemma {:induction false} RowInjective(S: nat, i: nat, c: nat, i': nat, c': nat)
    requires i >= 1 && i' >= 1 && 1 <= c <= S && 1 <= c' <= S
    requires YOffset(i, S) as real - c as real * 1.5 == YOffset(i', S) as real - c' as real * 1.5
    ensures i == i' && c == c'
  {
    var y, y' := YOffset(i, S), YOffset(i', S);
    assert 2 * y - 3 * c == 2 * y' - 3 * c' by {
      assert (2 * y - 3 * c) as real == 2.0 * (y as real - c as real * 1.5);
      assert (2 * y' - 3 * c') as real == 2.0 * (y' as real - c' as real * 1.5);
    }
    if i < i' {
      RowsApart(S, i, i');
      assert false;
    } else if i' < i {
      RowsApart(S, i', i);
      assert false;
    }
  }

  /** Two inverters' offsets differ by at least 2 * S per step between them. */
  lemma {:induction false} RowsApart(S: nat, i: nat, j: nat)
    requires 1 <= i < j
    ensures YOffset(i, S) - YOffset(j, S) >= 2 * S
    decreases j - i
  {
    if i < j - 1 {
      RowsApart(S, i, j - 1);
    }
  }

  /** Distinct nodes of a diagram with at least one string per inverter are drawn at
      distinct points. */
  lemma {:induction false} LayoutInjective(a: NodeId, b: NodeId, I: nat, S: nat, P: nat)
    requires S >= 1 && InDiagram(a, I, S, P) && InDiagram(b, I, S, P)
    requires Place(a, S) == Place(b, S)
    ensures a == b
  {
    match a
    case Inverter(i) =>
      var i' := b.inv;
      assert YOffset(i, S) as real == YOffset(i', S) as real;
      if i < i' { RowsApart(S, i, i'); } else if i' < i { RowsApart(S, i', i); }
    case Carril(i, c) =>
      RowInjective(S, i, c, b.inv, b.carril);
    case Panel(i, c, p) =>
      RowInjective(S, i, c, b.inv, b.carril);
  }

  /** Without strings, every inverter is drawn at the same point. */
  lemma {:induction false} InvertersStackWithoutStrings(i: nat, j: nat)
    ensures Place(Inverter(i), 0) == Place(Inverter(j), 0) == (-7.0, -0.75)
  {
  }

  /** The node each non-inverter node is wired from. */
  function Parent(n: NodeId): NodeId
    requires !n.Inverter?
  {
    if n.Carril? then Inverter(n.inv) else Feeder(n.inv, n.carril, n.panel)
  }

  /** The diagram is a forest rooted at the inverters: every other node of it has
      exactly one incoming edge, from its parent, and there are no other edges. */
  lemma {:induction false} EdgesAreParentLinks(I: nat, S: nat, P: nat)
    ensures forall e :: e in DiagramEdges(I, S, P) <==> InDiagram(e.1, I, S, P) && !e.1.Inverter? && e.0 == Parent(e.1)
    ensures forall e | e in DiagramEdges(I, S, P) :: InDiagram(e.0, I, S, P)
  {
    DiagramEdgesMembers(I, S, P);
  }

  /** The depth of a node in its inverter's tree. */
  function Depth(n: NodeId): nat
  {
    match n
    case Inverter(_) => 0
    case Carril(_, _) => 1
    case Panel(_, _, p) => 1 + p
  }

  /** Every edge goes one level deeper, so the diagram has no cycle and each string
      is a chain inverter -> string -> panel 1 -> ... -> panel P. */
  lemma {:induction false} EdgesGoDeeper(I: nat, S: nat, P: nat)
    ensures forall e | e in DiagramEdges(I, S, P) :: Depth(e.1) == Depth(e.0) + 1
  {
    DiagramEdgesMembers(I, S, P);
  }

  /** Two inverters with three strings of four panels: 32 nodes, 30 edges. */
  lemma {:induction false} ExampleDiagramSize()
    ensures |DiagramNodes(2, 3, 4)| == 32 && |DiagramEdges(2, 3, 4)| == 30
    ensures |Inverters(DiagramNodes(2, 3, 4))| == 2
    ensures |Strings(DiagramNodes(2, 3, 4))| == 6
    ensures |Panels(DiagramNodes(2, 3, 4))| == 24
  {
    DiagramSize(2, 3, 4);
    DiagramKindCounts(2, 3, 4);
  }
}
