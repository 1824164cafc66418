/** The path forest (src/flow_predictor/PathScan.hpp): trees of nodes that grow from the
    sinks backwards along the edges of the dependency graph. */
module Forests {
  import opened Options
  import opened Sequences
  import opened Masks
  import opened HeaderLists
  import opened HeaderChangers
  import opened Rewriting
  import opened NetworkSpaces
  import opened Tables
  import opened Edges

  /** A node stands for the packets of its rule that take one path to one sink. Roots
      are their own parents. A node with a final time is an old version. */
  datatype Node = Node(rule: nat, domain: NetworkSpace, rootTransfer: Transfer, root: nat, parent: nat,
                       children: seq<nat>, counter: Counter, finalTime: Option<nat>, outPath: Option<nat>)

  const WORD: nat := 0x1_0000_0000_0000_0000

  /** An unsigned 64-bit number. */
  type Word64 = n: nat | n < WORD

  /** RuleStatsFields. */
  datatype Counter = Counter(packets: Word64, bytes: Word64)

  const ZERO := Counter(0, 0)

  /** A path from a source node to the root of its tree. */
  datatype DomainPath = DomainPath(source: nat, sink: nat, last: Counter, startingTime: nat, finalTime: Option<nat>)

  /** mapping: the live nodes by rule; counters: by rule. */
  datatype Forest = Forest(nodes: Nodes, mapping: Mapping, counters: map<nat, Counter>, paths: map<nat, DomainPath>,
                           nextNode: nat, nextPath: nat)

  type Mapping = map<nat, seq<nat>>

  type Nodes = map<nat, Node>
  type Rules = map<nat, Rule>

  /** Edge by node: the edge of the dependency graph along which a node was added. */
  type Vias = map<nat, Edge>

  // --- the dependency graph as the forest needs it ---

  predicate EdgeOk(e: Edge, rules: Rules, pad: Mask)
  {
    && e.src in rules && e.dst in rules && rules[e.src].kind != Sink && rules[e.dst].kind != Source
    && IsTransfer(e.transfer, pad) && IsDomain(e.domain, pad) && InImage(e.domain.header, e.transfer.changer)
  }

  /** Each rule has one action: its edges share the transfer and the edges to different
      rules share no header. */
  ghost predicate OneAction(edges: EdgeMap, n: nat)
  {
    forall i, j | i in edges && j in edges && edges[i].src == edges[j].src ::
      edges[i].transfer == edges[j].transfer && (edges[i].dst != edges[j].dst ==> HeadersApart(edges[i].domain, edges[j].domain, n))
  }

  ghost predicate HeadersApart(a: NetworkSpace, b: NetworkSpace, n: nat)
  {
    forall h | IsHeader(h, n) && Has(h, a.header) :: !Has(h, b.header)
  }

  predicate RulesOk(rules: Rules, pad: Mask)
  {
    IsPad(pad) && forall r | r in rules :: rules[r].id == r && IsMatch(rules[r].domain, pad)
  }

  ghost predicate FlowGraph(rules: Rules, edges: EdgeMap, pad: Mask)
  {
    RulesOk(rules, pad) && (forall id | id in edges :: EdgeOk(edges[id], rules, pad)) && OneAction(edges, |pad|)
  }

  // --- what a node is ---

  function Push(h: Mask, t: Transfer): Mask
    requires |h| == |t.changer.mask| == |t.changer.rewrite|
  {
    ApplyHeader(h, t.changer)
  }

  predicate Fitting(t: Transfer, n: nat)
  {
    |t.changer.mask| == |t.changer.rewrite| == n
  }

  /** The headers that pass from rule src through edge e into node domain d. */
  predicate Passes(h: Mask, src: Rule, e: Edge, d: NetworkSpace)
    requires Fitting(e.transfer, |h|)
  {
    Has(h, src.domain.header) && Has(Push(h, e.transfer), e.domain.header) && Has(Push(h, e.transfer), d.header)
  }

  ghost predicate DomainIsPreimage(d: NetworkSpace, src: Rule, e: Edge, parent: NetworkSpace, pad: Mask)
  {
    && IsDomain(d, pad) && Nonempty(d) && d.port == src.domain.port && Fitting(e.transfer, |pad|)
    && forall h | IsHeader(h, |pad|) :: |h| == |pad| && (Has(h, d.header) <==> Passes(h, src, e, parent))
  }

  ghost predicate RootAt(nodes: Nodes, rules: Rules, x: nat, pad: Mask)
    requires x in nodes && nodes[x].rule in rules
  {
    var r := rules[nodes[x].rule];
    r.kind == Sink && nodes[x].root == x && nodes[x].domain == r.domain && nodes[x].rootTransfer == PortTransfer(r.domain.port, pad)
  }

  ghost predicate ChildAt(nodes: Nodes, via: Vias, rules: Rules, x: nat, pad: Mask)
    requires x in nodes && nodes[x].rule in rules
  {
    var y := nodes[x].parent;
    && y in nodes && y < x && x in via && EdgeOk(via[x], rules, pad) && rules[nodes[x].rule].kind != Sink
    && via[x].src == nodes[x].rule && via[x].dst == nodes[y].rule && nodes[x].root == nodes[y].root
    && DomainIsPreimage(nodes[x].domain, rules[nodes[x].rule], via[x], nodes[y].domain, pad)
    && IsChanger(nodes[y].rootTransfer.changer, pad)
    && nodes[x].rootTransfer == ComposeTransfers(via[x].transfer, nodes[y].rootTransfer, pad)
  }

  ghost predicate NodeAt(nodes: Nodes, via: Vias, rules: Rules, x: nat, pad: Mask)
    requires x in nodes
  {
    && nodes[x].rule in rules && IsDomain(nodes[x].domain, pad) && IsChanger(nodes[x].rootTransfer.changer, pad)
    && if nodes[x].parent == x then RootAt(nodes, rules, x, pad) else ChildAt(nodes, via, rules, x, pad)
  }

  ghost predicate NodesOk(nodes: Nodes, via: Vias, rules: Rules, pad: Mask)
  {
    RulesOk(rules, pad) && forall x | x in nodes :: NodeAt(nodes, via, rules, x, pad)
  }

  // --- what the domain and the transfer of a node mean ---

  /** h belongs to the node's rule and, pushed along the edges to the root, stays in
      every edge's domain and in the domain of every rule up to the sink's. */
  ghost predicate FlowsToRoot(nodes: Nodes, via: Vias, rules: Rules, x: nat, h: Mask, pad: Mask)
    requires NodesOk(nodes, via, rules, pad) && x in nodes && IsHeader(h, |pad|)
    decreases x
  {
    && Has(h, rules[nodes[x].rule].domain.header)
    && (nodes[x].parent == x ||
          (&& Has(Push(h, via[x].transfer), via[x].domain.header)
           && IsHeader(Push(h, via[x].transfer), |pad|)
           && FlowsToRoot(nodes, via, rules, nodes[x].parent, Push(h, via[x].transfer), pad)))
  }

  /** The form in which h arrives at the root. */
  ghost function FormAtRoot(nodes: Nodes, via: Vias, rules: Rules, x: nat, h: Mask, pad: Mask): Mask
    requires NodesOk(nodes, via, rules, pad) && x in nodes && IsHeader(h, |pad|)
    decreases x
  {
    if nodes[x].parent == x || !IsHeader(Push(h, via[x].transfer), |pad|) then h
    else FormAtRoot(nodes, via, rules, nodes[x].parent, Push(h, via[x].transfer), pad)
  }

  lemma PushIsHeader(h: Mask, t: Transfer, pad: Mask)
    requires IsHeader(h, |pad|) && IsTransfer(t, pad)
    ensures Fitting(t, |h|) && IsHeader(Push(h, t), |pad|)
  {
    ApplyIsHeader(h, t.changer, pad);
  }

  /** A node's domain is exactly the set of headers that flow along its edges to the sink. */
  lemma {:induction false} DomainIsFlow(nodes: Nodes, via: Vias, rules: Rules, x: nat, h: Mask, pad: Mask)
    requires NodesOk(nodes, via, rules, pad) && x in nodes && IsHeader(h, |pad|)
    ensures Has(h, nodes[x].domain.header) <==> FlowsToRoot(nodes, via, rules, x, h, pad)
    decreases x
  {
    hide Has, IsHeader, IsChanger, IsTransfer, IsDomain, InImage, ApplyHeader, ComposeTransfers;
    assert NodeAt(nodes, via, rules, x, pad);
    if nodes[x].parent != x {
      PushIsHeader(h, via[x].transfer, pad);
      DomainIsFlow(nodes, via, rules, nodes[x].parent, Push(h, via[x].transfer), pad);
      HeaderHasLength(h, |pad|);
    }
  }

  /** The root transfer maps every header to its form at the sink and sets the sink's port. */
  lemma {:induction false} RootTransferIsForm(nodes: Nodes, via: Vias, rules: Rules, x: nat, h: Mask, pad: Mask)
    requires NodesOk(nodes, via, rules, pad) && x in nodes && IsHeader(h, |pad|)
    ensures Fitting(nodes[x].rootTransfer, |h|)
    ensures Push(h, nodes[x].rootTransfer) == FormAtRoot(nodes, via, rules, x, h, pad)
    ensures nodes[x].root in nodes && nodes[nodes[x].root].rule in rules
    ensures nodes[x].rootTransfer.dst == rules[nodes[nodes[x].root].rule].domain.port
    decreases x
  {
    hide Has, IsHeader, IsTransfer, IsDomain, InImage, ApplyHeader, IsChanger, Compose, FromTransfer;
    assert NodeAt(nodes, via, rules, x, pad);
    ChangerFits(nodes[x].rootTransfer.changer, pad);
    HeaderHasLength(h, |pad|);
    if nodes[x].parent == x {
      PortTransferKeeps(nodes[x].rootTransfer.dst, h, pad);
    } else {
      PushIsHeader(h, via[x].transfer, pad);
      RootTransferIsForm(nodes, via, rules, nodes[x].parent, Push(h, via[x].transfer), pad);
      TransferHasChanger(via[x].transfer, pad);
      ComposeApplies(h, via[x].transfer.changer, nodes[nodes[x].parent].rootTransfer.changer, pad);
    }
  }

  lemma TransferHasChanger(t: Transfer, pad: Mask)
    requires IsTransfer(t, pad)
    ensures IsChanger(t.changer, pad)
  {}

  // --- live nodes and their lists ---

  predicate Live(nodes: Nodes, x: nat)
  {
    x in nodes && nodes[x].finalTime.None?
  }

  /** The list of a rule holds its live nodes, each once. */
  ghost predicate MappingOk(nodes: Nodes, mapping: Mapping)
  {
    && (forall r | r in mapping :: Distinct(mapping[r]) && forall x | x in mapping[r] :: Live(nodes, x) && nodes[x].rule == r)
    && forall x | Live(nodes, x) :: nodes[x].rule in mapping && x in mapping[nodes[x].rule]
  }

  /** The children of a node are live nodes of different rules that name it as parent. */
  ghost predicate ChildrenAt(nodes: Nodes, y: nat)
    requires y in nodes
  {
    && Distinct(nodes[y].children)
    && (forall c | c in nodes[y].children :: Live(nodes, c) && nodes[c].parent == y && c != y)
    && forall b, c | b in nodes[y].children && c in nodes[y].children && nodes[b].rule == nodes[c].rule :: b == c
  }

  ghost predicate ChildrenOk(nodes: Nodes)
  {
    forall y | y in nodes :: ChildrenAt(nodes, y)
  }

  /** A live node's parent is live and lists it. */
  ghost predicate ParentAt(nodes: Nodes, x: nat)
    requires x in nodes
  {
    nodes[x].parent != x ==> Live(nodes, nodes[x].parent) && x in nodes[nodes[x].parent].children
  }

  ghost predicate ParentsOk(nodes: Nodes)
  {
    forall x | Live(nodes, x) :: ParentAt(nodes, x)
  }

  /** One live root for each sink rule. */
  ghost predicate RootsOk(nodes: Nodes)
  {
    forall x, y | Live(nodes, x) && Live(nodes, y) && nodes[x].parent == x && nodes[y].parent == y && nodes[x].rule == nodes[y].rule :: x == y
  }

  ghost predicate ListsOk(nodes: Nodes, mapping: Mapping)
  {
    MappingOk(nodes, mapping) && ChildrenOk(nodes) && ParentsOk(nodes) && RootsOk(nodes)
  }

  ghost predicate ViasFrom(nodes: Nodes, via: Vias, edges: EdgeMap)
  {
    forall x | Live(nodes, x) && nodes[x].parent != x :: x in via && IsEdge(via[x], edges)
  }

  predicate IsEdge(e: Edge, edges: EdgeMap)
  {
    exists id :: id in edges && edges[id] == e
  }

  /** No packet is counted on two paths: two live nodes of one rule share no header. */
  lemma {:induction false} LiveNodesApart(nodes: Nodes, mapping: Mapping, via: Vias, rules: Rules, edges: EdgeMap, a: nat, b: nat, h: Mask, pad: Mask)
    requires NodesOk(nodes, via, rules, pad) && ListsOk(nodes, mapping) && FlowGraph(rules, edges, pad) && ViasFrom(nodes, via, edges)
    requires Live(nodes, a) && Live(nodes, b) && nodes[a].rule == nodes[b].rule && IsHeader(h, |pad|)
    requires Has(h, nodes[a].domain.header) && Has(h, nodes[b].domain.header)
    ensures a == b
    decreases a
  {
    hide Has, IsHeader, IsChanger, IsTransfer, IsDomain, InImage, ApplyHeader, ComposeTransfers, IsMatch, MappingOk;
    assert NodeAt(nodes, via, rules, a, pad) && NodeAt(nodes, via, rules, b, pad);
    if nodes[a].parent != a && nodes[b].parent != b {
      var p, q := nodes[a].parent, nodes[b].parent;
      var e, f := via[a], via[b];
      var i :| i in edges && edges[i] == e;
      var j :| j in edges && edges[j] == f;
      PushIsHeader(h, e.transfer, pad);
      assert ParentAt(nodes, a) && ParentAt(nodes, b);
      assert nodes[p].rule == nodes[q].rule;
      LiveNodesApart(nodes, mapping, via, rules, edges, p, q, Push(h, e.transfer), pad);
      assert ChildrenAt(nodes, p);
    }
  }

  /** Ids fall towards the root, so a walk along the parents ends at the root. */
  function RootOf(nodes: Nodes, x: nat): (r: nat)
    decreases x
  {
    if x in nodes && nodes[x].parent < x then RootOf(nodes, nodes[x].parent) else x
  }

  lemma {:induction false} WalkEndsAtRoot(nodes: Nodes, via: Vias, rules: Rules, x: nat, pad: Mask)
    requires NodesOk(nodes, via, rules, pad) && x in nodes
    ensures RootOf(nodes, x) == nodes[x].root && nodes[x].root in nodes
    ensures nodes[nodes[x].root].rule in rules && rules[nodes[nodes[x].root].rule].kind == Sink
    decreases x
  {
    hide Has, IsHeader, IsChanger, IsTransfer, IsDomain, InImage, ApplyHeader, ComposeTransfers, IsMatch;
    assert NodeAt(nodes, via, rules, x, pad);
    if nodes[x].parent != x { WalkEndsAtRoot(nodes, via, rules, nodes[x].parent, pad); }
  }

  /** Every node below a root was found to have something in its domain; without diffs
      that is a header. */
  lemma NodesNonempty(nodes: Nodes, via: Vias, rules: Rules, x: nat, pad: Mask)
    requires NodesOk(nodes, via, rules, pad) && x in nodes && nodes[x].parent != x
    ensures Nonempty(nodes[x].domain)
    ensures NoDiffs(nodes[x].domain.header) ==> exists h :: IsHeader(h, |pad|) && FlowsToRoot(nodes, via, rules, x, h, pad)
  {
    hide Has, IsHeader, IsChanger, IsTransfer, InImage, ApplyHeader, ComposeTransfers, IsMatch, Nonempty, FlowsToRoot;
    assert NodeAt(nodes, via, rules, x, pad);
    if NoDiffs(nodes[x].domain.header) {
      var p := NonemptyHas(nodes[x].domain, pad);
      DomainIsFlow(nodes, via, rules, x, p.header, pad);
    }
  }
}
