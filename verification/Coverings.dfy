/** What the forest covers: once the edges of the dependency graph have been added
    (add_subtrees of src/flow_predictor/FlowPredictor.cpp), which of the headers that flow
    along edges to a sink lie in the domain of a live node. */
module Coverings {
  import opened Masks
  import opened HeaderLists
  import opened HeaderChangers
  import opened NetworkSpaces
  import opened Tables
  import opened Edges
  import opened Forests
  import opened ForestGrowth
  import opened SubtreeGrowth

  // --- what has been added ---

  /** Every live node of the edge's destination handles the edge; a sink has its root. */
  ghost predicate HandlesEdge(nodes: Nodes, rules: Rules, e: Edge, n: nat)
  {
    && (forall y | Live(nodes, y) && nodes[y].rule == e.dst :: HandledAt(nodes, rules, y, e, n))
    && (e.dst in rules && rules[e.dst].kind == Sink ==> HasRoot(nodes, e.dst))
  }

  ghost predicate HasRoot(nodes: Nodes, r: nat)
  {
    exists x :: Live(nodes, x) && nodes[x].rule == r
  }

  ghost predicate Handles(nodes: Nodes, rules: Rules, edges: EdgeMap, ids: set<nat>, n: nat)
  {
    forall id | id in ids :: id in edges && HandlesEdge(nodes, rules, edges[id], n)
  }

  // --- flows ---

  /** Header h of rule r passes along the edges of the walk to a sink. */
  ghost predicate Flows(rules: Rules, edges: EdgeMap, r: nat, h: Mask, walk: seq<nat>, pad: Mask)
    requires FlowGraph(rules, edges, pad) && IsHeader(h, |pad|)
    decreases |walk|
  {
    && r in rules && Has(h, rules[r].domain.header)
    && if walk == [] then rules[r].kind == Sink
       else
         var id := walk[0];
         && id in edges && edges[id].src == r && Fitting(edges[id].transfer, |h|) && Has(Push(h, edges[id].transfer), edges[id].domain.header)
         && IsHeader(Push(h, edges[id].transfer), |pad|)
         && Flows(rules, edges, edges[id].dst, Push(h, edges[id].transfer), walk[1..], pad)
  }

  /** The rule at which a walk from r ends. */
  function End(edges: EdgeMap, r: nat, walk: seq<nat>): nat
    decreases |walk|
  {
    if walk == [] then r else if walk[0] in edges then End(edges, edges[walk[0]].dst, walk[1..]) else r
  }

  /** x is a live node of rule r with h in its domain. */
  predicate Covers(nodes: Nodes, x: nat, r: nat, h: Mask)
  {
    Live(nodes, x) && nodes[x].rule == r && Has(h, nodes[x].domain.header)
  }

  ghost predicate InLiveNode(nodes: Nodes, r: nat, h: Mask)
  {
    exists x :: Covers(nodes, x, r, h)
  }

  /** An edge that carries anything has a port that its destination accepts. */
  predicate PortsFit(rules: Rules, edges: EdgeMap)
  {
    forall id | id in edges && edges[id].dst in rules ::
      MeetPorts(edges[id].domain.port, rules[edges[id].dst].domain.port) == NONE ==> edges[id].domain.header == []
  }

  predicate Parallel(e: Edge, f: Edge)
  {
    e.src == f.src && e.dst == f.dst
  }

  /** Of the parallel edges between two rules, the one along which node x grew carries
      whatever the others carry into the parent of x. */
  ghost predicate WideAt(nodes: Nodes, via: Vias, rules: Rules, edges: EdgeMap, x: nat, n: nat)
    requires x in nodes && nodes[x].parent in nodes && nodes[x].rule in rules && x in via
  {
    forall id, h | id in edges && Parallel(edges[id], via[x]) && IsHeader(h, n) && Fitting(edges[id].transfer, |h|) ::
      Passes(h, rules[nodes[x].rule], edges[id], nodes[nodes[x].parent].domain) ==> Has(Push(h, edges[id].transfer), via[x].domain.header)
  }

  ghost predicate GrewWide(nodes: Nodes, via: Vias, rules: Rules, edges: EdgeMap, n: nat)
  {
    forall x | Live(nodes, x) && nodes[x].parent != x ::
      nodes[x].parent in nodes && nodes[x].rule in rules && x in via && WideAt(nodes, via, rules, edges, x, n)
  }

  /** Nothing is missed. */
  ghost predicate AllCovered(nodes: Nodes, rules: Rules, edges: EdgeMap, pad: Mask)
    requires FlowGraph(rules, edges, pad)
  {
    forall r, h, walk | IsHeader(h, |pad|) && walk != [] && Flows(rules, edges, r, h, walk, pad) :: InLiveNode(nodes, r, h)
  }

  /** A forest between the operations that has taken in all edges of the graph. */
  ghost predicate Complete(nodes: Nodes, mapping: Mapping, via: Vias, rules: Rules, edges: EdgeMap, pad: Mask)
  {
    && NodesOk(nodes, via, rules, pad) && ListsOk(nodes, mapping) && FlowGraph(rules, edges, pad) && ViasFrom(nodes, via, edges)
    && PortsFit(rules, edges) && Handles(nodes, rules, edges, edges.Keys, |pad|)
  }

  // --- covered when wide ---

  lemma NodePort(nodes: Nodes, via: Vias, rules: Rules, y: nat, pad: Mask)
    requires NodesOk(nodes, via, rules, pad) && y in nodes
    ensures nodes[y].rule in rules && nodes[y].domain.port == rules[nodes[y].rule].domain.port
  {
    hide EdgeOk, IsDomain, IsChanger, ComposeTransfers, PortTransfer, Passes, RulesOk;
    assert NodeAt(nodes, via, rules, y, pad);
  }

  /** A header that passes an edge into a live node finds a child there. */
  lemma ChildThere(nodes: Nodes, mapping: Mapping, via: Vias, rules: Rules, edges: EdgeMap, y: nat, id: nat, h: Mask, pad: Mask) returns (c: nat)
    requires Complete(nodes, mapping, via, rules, edges, pad) && Live(nodes, y) && IsHeader(h, |pad|)
    requires id in edges && edges[id].dst == nodes[y].rule && edges[id].src in rules && Fitting(edges[id].transfer, |h|)
    requires Passes(h, rules[edges[id].src], edges[id], nodes[y].domain)
    ensures Live(nodes, c) && nodes[c].parent == y && c != y && nodes[c].rule == edges[id].src
  {
    hide NodesOk, FlowGraph, ViasFrom, IsHeader, MappingOk, ParentsOk, RootsOk, Has, Push;
    NodePort(nodes, via, rules, y, pad);
    var e := edges[id];
    assert HandlesEdge(nodes, rules, e, |pad|);
    assert HandledAt(nodes, rules, y, e, |pad|);
    assert !NoPreimage(e, rules[e.src], nodes[y].domain, |pad|) by { NothingHas(Push(h, e.transfer)); }
    c :| c in nodes[y].children && c in nodes && nodes[c].rule == e.src;
    assert ChildrenAt(nodes, y);
  }

  lemma NothingHas(h: Mask)
    ensures !Has(h, [])
  {}

  /** Parallel edges have the same transfer. */
  lemma SameTransfer(nodes: Nodes, mapping: Mapping, via: Vias, rules: Rules, edges: EdgeMap, c: nat, id: nat, pad: Mask)
    requires Complete(nodes, mapping, via, rules, edges, pad) && Live(nodes, c) && nodes[c].parent != c
    requires id in edges && nodes[c].rule == edges[id].src
    ensures c in via && via[c].transfer == edges[id].transfer && via[c].src == edges[id].src && nodes[c].parent in nodes
    ensures via[c].dst == nodes[nodes[c].parent].rule && EdgeOk(via[c], rules, pad) && IsEdge(via[c], edges)
    ensures via[c].dst != edges[id].dst ==> HeadersApart(via[c].domain, edges[id].domain, |pad|)
  {
    hide ListsOk, Handles, PortsFit, RulesOk, EdgeOk, DomainIsPreimage, IsDomain, IsChanger, ComposeTransfers, HeadersApart;
    assert NodeAt(nodes, via, rules, c, pad);
    var i :| i in edges && edges[i] == via[c];
  }

  lemma ChildHas(nodes: Nodes, via: Vias, rules: Rules, c: nat, h: Mask, pad: Mask)
    requires NodesOk(nodes, via, rules, pad) && c in nodes && nodes[c].parent != c && IsHeader(h, |pad|)
    ensures nodes[c].parent in nodes && c in via && nodes[c].rule in rules && Fitting(via[c].transfer, |h|)
    ensures Has(h, nodes[c].domain.header) <==> Passes(h, rules[nodes[c].rule], via[c], nodes[nodes[c].parent].domain)
  {
    hide RulesOk, EdgeOk, IsDomain, IsChanger, ComposeTransfers, IsHeader, Passes;
    assert NodeAt(nodes, via, rules, c, pad);
    HeaderHasLength(h, |pad|);
  }

  /** One step backwards along an edge. */
  lemma CoveredBefore(nodes: Nodes, mapping: Mapping, via: Vias, rules: Rules, edges: EdgeMap, y: nat, id: nat, h: Mask, pad: Mask) returns (c: nat)
    requires Complete(nodes, mapping, via, rules, edges, pad) && GrewWide(nodes, via, rules, edges, |pad|)
    requires IsHeader(h, |pad|) && id in edges && edges[id].src in rules && Fitting(edges[id].transfer, |h|)
    requires Has(h, rules[edges[id].src].domain.header) && Has(Push(h, edges[id].transfer), edges[id].domain.header)
    requires Covers(nodes, y, edges[id].dst, Push(h, edges[id].transfer))
    ensures Covers(nodes, c, edges[id].src, h) && nodes[c].root == nodes[y].root
  {
    hide NodesOk, ListsOk, FlowGraph, ViasFrom, Handles, PortsFit, IsHeader, Has, Push, EdgeOk, HeadersApart, IsEdge, Complete;
    c := ChildThere(nodes, mapping, via, rules, edges, y, id, h, pad);
    SameTransfer(nodes, mapping, via, rules, edges, c, id, pad);
    CompleteNodes(nodes, mapping, via, rules, edges, pad);
    ChildHas(nodes, via, rules, c, h, pad);
    SameRoot(nodes, via, rules, c, pad);
    assert WideAt(nodes, via, rules, edges, c, |pad|);
  }

  lemma CompleteNodes(nodes: Nodes, mapping: Mapping, via: Vias, rules: Rules, edges: EdgeMap, pad: Mask)
    requires Complete(nodes, mapping, via, rules, edges, pad)
    ensures NodesOk(nodes, via, rules, pad) && ListsOk(nodes, mapping) && FlowGraph(rules, edges, pad) && ViasFrom(nodes, via, edges)
  {
    hide NodesOk, ListsOk, FlowGraph, ViasFrom, Handles, PortsFit;
  }

  lemma SameRoot(nodes: Nodes, via: Vias, rules: Rules, c: nat, pad: Mask)
    requires NodesOk(nodes, via, rules, pad) && c in nodes && nodes[c].parent != c
    ensures nodes[c].parent in nodes && nodes[c].root == nodes[nodes[c].parent].root
  {
    hide RulesOk, EdgeOk, IsDomain, IsChanger, ComposeTransfers, DomainIsPreimage;
    assert NodeAt(nodes, via, rules, c, pad);
  }

  lemma {:induction false} SinkHasRoot(nodes: Nodes, via: Vias, rules: Rules, edges: EdgeMap, id: nat, h: Mask, pad: Mask) returns (x: nat)
    requires NodesOk(nodes, via, rules, pad) && Handles(nodes, rules, edges, edges.Keys, |pad|)
    requires id in edges && edges[id].dst in rules && rules[edges[id].dst].kind == Sink && Has(h, rules[edges[id].dst].domain.header)
    ensures Covers(nodes, x, edges[id].dst, h) && nodes[x].root == x
  {
    hide RulesOk, EdgeOk, IsDomain, IsChanger, ComposeTransfers, DomainIsPreimage, Has, PortTransfer;
    assert HandlesEdge(nodes, rules, edges[id], |pad|);
    x :| Live(nodes, x) && nodes[x].rule == edges[id].dst;
    assert NodeAt(nodes, via, rules, x, pad);
  }

  /** Along a wide forest every header that flows to a sink lies in a live node, whose root
      is the node of that sink. */
  lemma {:induction false} FlowIsCovered(nodes: Nodes, mapping: Mapping, via: Vias, rules: Rules, edges: EdgeMap, r: nat, h: Mask, walk: seq<nat>, pad: Mask)
    returns (x: nat)
    requires Complete(nodes, mapping, via, rules, edges, pad) && GrewWide(nodes, via, rules, edges, |pad|)
    requires IsHeader(h, |pad|) && walk != [] && Flows(rules, edges, r, h, walk, pad)
    ensures Covers(nodes, x, r, h) && nodes[x].root in nodes && nodes[nodes[x].root].rule == End(edges, r, walk)
    decreases |walk|
  {
    hide NodesOk, ListsOk, FlowGraph, ViasFrom, Handles, PortsFit, IsHeader, Has, Push, Complete, GrewWide;
    CompleteNodes(nodes, mapping, via, rules, edges, pad);
    var id, rest := walk[0], walk[1..];
    var y: nat;
    if rest == [] {
      y := SinkHasRoot(nodes, via, rules, edges, id, Push(h, edges[id].transfer), pad) by {
        CompleteHandles(nodes, mapping, via, rules, edges, pad);
      }
    } else {
      y := FlowIsCovered(nodes, mapping, via, rules, edges, edges[id].dst, Push(h, edges[id].transfer), rest, pad);
    }
    x := CoveredBefore(nodes, mapping, via, rules, edges, y, id, h, pad);
  }

  lemma CompleteHandles(nodes: Nodes, mapping: Mapping, via: Vias, rules: Rules, edges: EdgeMap, pad: Mask)
    requires Complete(nodes, mapping, via, rules, edges, pad)
    ensures Handles(nodes, rules, edges, edges.Keys, |pad|)
  {
    hide NodesOk, ListsOk, FlowGraph, ViasFrom, Handles, PortsFit;
  }

  // --- wide when covered ---

  /** What lies in a node's domain flows along the edges that its ancestors grew along. */
  lemma {:induction false} DomainFlows(nodes: Nodes, mapping: Mapping, via: Vias, rules: Rules, edges: EdgeMap, y: nat, h: Mask, pad: Mask) returns (walk: seq<nat>)
    requires Complete(nodes, mapping, via, rules, edges, pad) && Live(nodes, y) && IsHeader(h, |pad|) && Has(h, nodes[y].domain.header)
    ensures Flows(rules, edges, nodes[y].rule, h, walk, pad)
    decreases y
  {
    hide NodesOk, ListsOk, FlowGraph, ViasFrom, Handles, PortsFit, IsHeader, Has, Push, Complete, IsEdge;
    CompleteNodes(nodes, mapping, via, rules, edges, pad);
    NodeIs(nodes, via, rules, y, h, pad);
    if nodes[y].parent == y {
      walk := [];
    } else {
      var id := GrownAlong(nodes, mapping, via, edges, y);
      var rest := DomainFlows(nodes, mapping, via, rules, edges, nodes[y].parent, Push(h, via[y].transfer), pad);
      walk := [id] + rest;
      assert walk[1..] == rest;
    }
  }

  /** A header in the domain of a node: at the sink, or on its way to the parent. */
  lemma NodeIs(nodes: Nodes, via: Vias, rules: Rules, y: nat, h: Mask, pad: Mask)
    requires NodesOk(nodes, via, rules, pad) && y in nodes && IsHeader(h, |pad|) && Has(h, nodes[y].domain.header)
    ensures nodes[y].rule in rules && Has(h, rules[nodes[y].rule].domain.header)
    ensures nodes[y].parent == y ==> rules[nodes[y].rule].kind == Sink
    ensures nodes[y].parent != y ==>
              && nodes[y].parent in nodes && nodes[y].parent < y && y in via && Fitting(via[y].transfer, |h|)
              && via[y].src == nodes[y].rule && via[y].dst == nodes[nodes[y].parent].rule && rules[nodes[y].rule].kind != Sink
              && IsHeader(Push(h, via[y].transfer), |pad|) && Has(Push(h, via[y].transfer), via[y].domain.header)
              && Has(Push(h, via[y].transfer), nodes[nodes[y].parent].domain.header)
  {
    hide RulesOk, EdgeOk, IsDomain, IsChanger, ComposeTransfers, DomainIsPreimage, IsHeader, Has, Push, PortTransfer;
    assert NodeAt(nodes, via, rules, y, pad);
    if nodes[y].parent != y {
      ChildHas(nodes, via, rules, y, h, pad);
      EdgeFacts(via[y], rules, pad);
      PushIsHeader(h, via[y].transfer, pad);
    }
  }

  lemma GrownAlong(nodes: Nodes, mapping: Mapping, via: Vias, edges: EdgeMap, y: nat) returns (id: nat)
    requires ListsOk(nodes, mapping) && ViasFrom(nodes, via, edges) && Live(nodes, y) && nodes[y].parent != y
    ensures y in via && id in edges && edges[id] == via[y]
    ensures Live(nodes, nodes[y].parent) && y in nodes[nodes[y].parent].children
  {
    hide MappingOk, ChildrenOk, RootsOk;
    assert ParentAt(nodes, y);
    id :| id in edges && edges[id] == via[y];
  }

  /** Whoever covers a header that passes an edge into y's domain is a child of y. */
  lemma CoverIsChild(nodes: Nodes, mapping: Mapping, via: Vias, rules: Rules, edges: EdgeMap, y: nat, id: nat, h: Mask, b: nat, pad: Mask)
    requires Complete(nodes, mapping, via, rules, edges, pad) && Live(nodes, y) && IsHeader(h, |pad|)
    requires id in edges && edges[id].dst == nodes[y].rule && edges[id].src in rules && Fitting(edges[id].transfer, |h|)
    requires Passes(h, rules[edges[id].src], edges[id], nodes[y].domain) && Covers(nodes, b, edges[id].src, h)
    ensures nodes[b].parent == y && b != y && b in via && Has(Push(h, edges[id].transfer), via[b].domain.header)
  {
    hide NodesOk, ListsOk, FlowGraph, ViasFrom, Handles, PortsFit, IsHeader, Has, Push, Complete, IsEdge, EdgeOk, HeadersApart;
    CompleteNodes(nodes, mapping, via, rules, edges, pad);
    NodeIs(nodes, via, rules, b, h, pad);
    NotASink(rules, edges, id, pad);
    SameTransfer(nodes, mapping, via, rules, edges, b, id, pad);
    var i := GrownAlong(nodes, mapping, via, edges, b);
    assert via[b].dst == edges[id].dst by { Together(via[b], edges[id], Push(h, edges[id].transfer), |pad|); }
    LiveNodesApart(nodes, mapping, via, rules, edges, nodes[b].parent, y, Push(h, edges[id].transfer), pad);
  }

  lemma NotASink(rules: Rules, edges: EdgeMap, id: nat, pad: Mask)
    requires FlowGraph(rules, edges, pad) && id in edges
    ensures edges[id].src in rules && rules[edges[id].src].kind != Sink
  {}

  lemma Together(e: Edge, f: Edge, h: Mask, n: nat)
    requires e.dst != f.dst ==> HeadersApart(e.domain, f.domain, n)
    requires IsHeader(h, n) && Has(h, e.domain.header) && Has(h, f.domain.header)
    ensures e.dst == f.dst
  {
    hide IsHeader, Has;
  }

  /** A forest that misses nothing grew along wide edges. */
  lemma CoveredIsWide(nodes: Nodes, mapping: Mapping, via: Vias, rules: Rules, edges: EdgeMap, x: nat, id: nat, h: Mask, pad: Mask)
    requires Complete(nodes, mapping, via, rules, edges, pad) && AllCovered(nodes, rules, edges, pad)
    requires Live(nodes, x) && nodes[x].parent != x && nodes[x].parent in nodes && nodes[x].rule in rules && x in via
    requires id in edges && Parallel(edges[id], via[x]) && IsHeader(h, |pad|) && Fitting(edges[id].transfer, |h|)
    requires Passes(h, rules[nodes[x].rule], edges[id], nodes[nodes[x].parent].domain)
    ensures Has(Push(h, edges[id].transfer), via[x].domain.header)
  {
    hide NodesOk, ListsOk, FlowGraph, ViasFrom, Handles, PortsFit, IsHeader, Has, Push, Complete, IsEdge;
    CompleteNodes(nodes, mapping, via, rules, edges, pad);
    var y, u := nodes[x].parent, Push(h, edges[id].transfer);
    var i := GrownAlong(nodes, mapping, via, edges, x);
    EndsAre(nodes, via, rules, x, pad);
    PushedIsHeader(rules, edges, id, h, pad);
    var rest := DomainFlows(nodes, mapping, via, rules, edges, y, u, pad);
    var walk := [id] + rest;
    assert walk[1..] == rest;
    assert Flows(rules, edges, nodes[x].rule, h, walk, pad);
    var b :| Covers(nodes, b, nodes[x].rule, h);
    CoverIsChild(nodes, mapping, via, rules, edges, y, id, h, b, pad);
    OnlyChild(nodes, mapping, y, b, x);
  }

  lemma PushedIsHeader(rules: Rules, edges: EdgeMap, id: nat, h: Mask, pad: Mask)
    requires FlowGraph(rules, edges, pad) && id in edges && IsHeader(h, |pad|)
    ensures Fitting(edges[id].transfer, |h|) && IsHeader(Push(h, edges[id].transfer), |pad|)
  {
    hide RulesOk, IsHeader, Push, OneAction;
    EdgeFacts(edges[id], rules, pad);
    PushIsHeader(h, edges[id].transfer, pad);
  }

  lemma EndsAre(nodes: Nodes, via: Vias, rules: Rules, x: nat, pad: Mask)
    requires NodesOk(nodes, via, rules, pad) && x in nodes && nodes[x].parent != x
    ensures nodes[x].parent in nodes && x in via && via[x].src == nodes[x].rule && via[x].dst == nodes[nodes[x].parent].rule
  {
    hide RulesOk, EdgeOk, IsDomain, IsChanger, ComposeTransfers, DomainIsPreimage;
    assert NodeAt(nodes, via, rules, x, pad);
  }

  lemma OnlyChild(nodes: Nodes, mapping: Mapping, y: nat, b: nat, c: nat)
    requires ListsOk(nodes, mapping) && Live(nodes, b) && Live(nodes, c) && nodes[b].parent == y && nodes[c].parent == y && b != y && c != y
    requires nodes[b].rule == nodes[c].rule
    ensures b == c
  {
    hide MappingOk, RootsOk;
    assert ParentAt(nodes, b) && ParentAt(nodes, c) && ChildrenAt(nodes, y);
  }

  /** Once all edges have been added, every header that flows to a sink lies in a live node
      exactly when each live node grew along the widest of its parallel edges. */
  lemma CoveredIff(nodes: Nodes, mapping: Mapping, via: Vias, rules: Rules, edges: EdgeMap, pad: Mask)
    requires Complete(nodes, mapping, via, rules, edges, pad)
    ensures AllCovered(nodes, rules, edges, pad) <==> GrewWide(nodes, via, rules, edges, |pad|)
  {
    hide NodesOk, ListsOk, FlowGraph, ViasFrom, Handles, PortsFit, IsHeader, Has, Push, Complete, IsEdge, Flows, Covers, Passes;
    CompleteNodes(nodes, mapping, via, rules, edges, pad);
    if GrewWide(nodes, via, rules, edges, |pad|) {
      forall r, h, walk | IsHeader(h, |pad|) && walk != [] && Flows(rules, edges, r, h, walk, pad) ensures InLiveNode(nodes, r, h) {
        var x := FlowIsCovered(nodes, mapping, via, rules, edges, r, h, walk, pad);
      }
    }
    if AllCovered(nodes, rules, edges, pad) {
      forall x | Live(nodes, x) && nodes[x].parent != x
        ensures nodes[x].parent in nodes && nodes[x].rule in rules && x in via && WideAt(nodes, via, rules, edges, x, |pad|)
      {
        EndsAre(nodes, via, rules, x, pad);
        NodePort(nodes, via, rules, x, pad);
        forall id, h | id in edges && Parallel(edges[id], via[x]) && IsHeader(h, |pad|) && Fitting(edges[id].transfer, |h|)
          && Passes(h, rules[nodes[x].rule], edges[id], nodes[nodes[x].parent].domain)
          ensures Has(Push(h, edges[id].transfer), via[x].domain.header)
        {
          CoveredIsWide(nodes, mapping, via, rules, edges, x, id, h, pad);
        }
      }
    }
  }

  /** Parallel edges carry the same headers. */
  ghost predicate ParallelsAgree(edges: EdgeMap, n: nat)
  {
    forall i, j, h | i in edges && j in edges && Parallel(edges[i], edges[j]) && IsHeader(h, n) && Has(h, edges[i].domain.header) ::
      Has(h, edges[j].domain.header)
  }

  /** In a graph whose parallel edges carry the same headers nothing is missed. */
  lemma AgreeingIsCovered(nodes: Nodes, mapping: Mapping, via: Vias, rules: Rules, edges: EdgeMap, pad: Mask)
    requires Complete(nodes, mapping, via, rules, edges, pad) && ParallelsAgree(edges, |pad|)
    ensures AllCovered(nodes, rules, edges, pad)
  {
    hide NodesOk, ListsOk, FlowGraph, ViasFrom, Handles, PortsFit, IsHeader, Has, Push, Complete, IsEdge, AllCovered;
    CompleteNodes(nodes, mapping, via, rules, edges, pad);
    forall x | Live(nodes, x) && nodes[x].parent != x
      ensures nodes[x].parent in nodes && nodes[x].rule in rules && x in via && WideAt(nodes, via, rules, edges, x, |pad|)
    {
      EndsAre(nodes, via, rules, x, pad);
      NodePort(nodes, via, rules, x, pad);
      var i := GrownAlong(nodes, mapping, via, edges, x);
      forall id, h | id in edges && Parallel(edges[id], via[x]) && IsHeader(h, |pad|) && Fitting(edges[id].transfer, |h|)
        && Passes(h, rules[nodes[x].rule], edges[id], nodes[nodes[x].parent].domain)
        ensures Has(Push(h, edges[id].transfer), via[x].domain.header)
      {
        PushedIsHeader(rules, edges, id, h, pad);
      }
    }
    CoveredIff(nodes, mapping, via, rules, edges, pad);
  }
}
