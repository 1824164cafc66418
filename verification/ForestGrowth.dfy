/** How the forest grows: add_child_node, add_subtree and add_subtrees of
    src/flow_predictor/FlowPredictor.cpp with the node operations of
    src/flow_predictor/PathScan.cpp. */
module ForestGrowth {
  import opened Options
  import opened Sequences
  import opened Masks
  import opened HeaderLists
  import opened HeaderChangers
  import opened Rewriting
  import opened NetworkSpaces
  import opened Tables
  import opened Edges
  import opened Forests
  import Complement

  /** No header of rule src passes through e into the domain of the parent. */
  ghost predicate NoPreimage(e: Edge, src: Rule, parent: NetworkSpace, n: nat)
  {
    || MeetPorts(e.domain.port, parent.port) == NONE
    || forall h | IsHeader(h, n) :: Fitting(e.transfer, |h|) ==> !Passes(h, src, e, parent)
  }

  lemma PacketOfHeader(h: Mask, d: NetworkSpace, n: nat) returns (p: Packet)
    requires d.port != NONE && IsHeader(h, n)
    ensures IsPacket(p, n) && p.header == h && (NsHas(p, d) <==> Has(h, d.header)) && PortHas(d.port, p.port)
  {
    p := Packet(if d.port == ANY then 1 else d.port, h);
  }

  lemma TransferFits(t: Transfer, pad: Mask)
    requires IsTransfer(t, pad)
    ensures Fitting(t, |pad|)
  {}

  /** The edge, the parent and the rule have no diffs. */
  predicate PlainEdge(e: Edge, src: Rule, parent: NetworkSpace)
  {
    NoDiffs(e.domain.header) && NoDiffs(parent.header) && NoDiffs(src.domain.header)
  }

  /** The domain of a new node: what the rule sends through the edge into the parent. What
      empty() does not recognise as empty is a preimage; without diffs the answer is exact. */
  method Preimage(e: Edge, src: Rule, parent: NetworkSpace, rules: Rules, pad: Mask) returns (empty: bool, d: NetworkSpace)
    requires EdgeOk(e, rules, pad) && IsDomain(parent, pad) && IsMatch(src.domain, pad)
    ensures empty ==> NoPreimage(e, src, parent, |pad|)
    ensures !empty ==> DomainIsPreimage(d, src, e, parent, pad)
    ensures PlainEdge(e, src, parent) ==> (empty <==> NoPreimage(e, src, parent, |pad|))
  {
    hide Has, IsHeader, IsTransfer, AreTerms, InsideImage, MasksInside, ApplyHeader, FoundEmpty, SettledFrom;
    var meet := And(e.domain, parent, pad);
    InImageShrinks(meet.header, e.domain.header, e.transfer.changer);
    var inverse := Inverse(e.transfer, meet, pad);
    d := And(inverse, src.domain, pad);
    var d0 := d;
    if meet.port == NONE {
      MasksInsideNone(d.header);
    }
    empty, d := Empty(d, pad);
    forall h | IsHeader(h, |pad|)
      ensures |h| == |pad| && Fitting(e.transfer, |pad|)
      ensures Has(h, d.header) <==> Passes(h, src, e, parent) && meet.port != NONE
      ensures empty ==> !Has(h, d.header)
    {
      PushIsHeader(h, e.transfer, pad);
      HeaderHasLength(h, |pad|);
      var p := PacketOfHeader(h, inverse, |pad|);
      assert NsHas(p, inverse) <==> Has(ApplyHeader(p.header, e.transfer.changer), meet.header);
      var q := PacketOfHeader(h, d0, |pad|);
      assert NsHas(q, d) <==> NsHas(q, d0);
      assert empty ==> !NsHas(q, d0);
    }
    Complement.NothingInEmpty();
    TransferFits(e.transfer, pad);
    assert meet.port == NONE ==> d0.header == [];
    if PlainEdge(e, src, parent) && !empty {
      var q := NonemptyHas(d, pad);
      assert Has(q.header, d.header);
    }
  }

  // --- add_node, addRootNode, addChildNode ---

  ghost predicate ForestOk(f: Forest, via: Vias, rules: Rules, pad: Mask)
  {
    && NodesOk(f.nodes, via, rules, pad) && ListsOk(f.nodes, f.mapping)
    && (forall x | x in f.nodes :: x < f.nextNode) && PathsOk(f)
  }

  /** A path starts at the source node that names it, so a source has at most one path. */
  ghost predicate PathsOk(f: Forest)
  {
    forall p | p in f.paths :: var x := f.paths[p].source;
      p < f.nextPath && x in f.nodes && f.nodes[x].outPath == Some(p) && f.paths[p].sink == f.nodes[x].root
  }

  function AddNode(f: Forest, node: Node): Forest
  {
    f.(nodes := f.nodes[f.nextNode := node],
       mapping := f.mapping[node.rule := (if node.rule in f.mapping then f.mapping[node.rule] else []) + [f.nextNode]],
       counters := if node.rule in f.counters then f.counters else f.counters[node.rule := ZERO],
       nextNode := f.nextNode + 1)
  }

  function NewNode(rule: nat, domain: NetworkSpace, rootTransfer: Transfer, root: nat, parent: nat): Node
  {
    Node(rule, domain, rootTransfer, root, parent, [], ZERO, None, None)
  }

  function AddRootNode(f: Forest, r: Rule, pad: Mask): Forest
  {
    AddNode(f, NewNode(r.id, r.domain, PortTransfer(r.domain.port, pad), f.nextNode, f.nextNode))
  }

  function AddChildNode(f: Forest, parent: nat, e: Edge, domain: NetworkSpace, pad: Mask): Forest
    requires parent in f.nodes && IsTransfer(e.transfer, pad) && IsChanger(f.nodes[parent].rootTransfer.changer, pad)
  {
    var y := f.nodes[parent];
    var g := AddNode(f, NewNode(e.src, domain, ComposeTransfers(e.transfer, y.rootTransfer, pad), y.root, parent));
    g.(nodes := g.nodes[parent := y.(children := y.children + [f.nextNode])])
  }

  /** g is f with more nodes; nodes of f keep all but their lists of children and their paths. */
  ghost predicate Grows(f: Forest, g: Forest)
  {
    && f.nextNode <= g.nextNode
    && (forall x | x in f.nodes :: x in g.nodes && Stays(f.nodes[x], g.nodes[x]))
    && forall x | x in g.nodes && x !in f.nodes :: x >= f.nextNode
  }

  predicate Stays(a: Node, b: Node)
  {
    && b == a.(children := b.children, outPath := b.outPath) && a.children <= b.children
    && (a.outPath.Some? ==> b.outPath == a.outPath)
  }

  /** g is f with the new node x below parent; a root is its own parent. */
  predicate NodeAdded(f: Forest, g: Forest, x: nat, parent: nat)
  {
    && x == f.nextNode && g.nextNode == x + 1 && x !in f.nodes && g.nodes.Keys == f.nodes.Keys + {x} && g.nodes[x].parent == parent
    && g.nodes[x].children == [] && g.nodes[x].finalTime.None? && g.nodes[x].counter == ZERO
    && (forall r | r in f.counters :: r in g.counters && g.counters[r] == f.counters[r]) && g.nodes[x].rule in g.counters
    && (forall r | r in g.counters && r !in f.counters :: g.counters[r] == ZERO)
    && (forall z | z in f.nodes && z != parent :: g.nodes[z] == f.nodes[z])
    && (parent != x ==> parent in f.nodes && g.nodes[parent] == f.nodes[parent].(children := f.nodes[parent].children + [x]))
    && (forall r | r in f.mapping :: r in g.mapping && g.mapping[r] == f.mapping[r] + if r == g.nodes[x].rule then [x] else [])
    && (forall r | r in g.mapping && r !in f.mapping :: r == g.nodes[x].rule && g.mapping[r] == [x])
    && g.nodes[x].rule in g.mapping && g.paths == f.paths && g.nextPath == f.nextPath
  }

  /** Nothing that was counted changes and no list of nodes empties; what is new has
      counted nothing. */
  ghost predicate CountsNothingNew(f: Forest, g: Forest)
  {
    && SameCounts(f, g)
    && (forall r | r in f.mapping :: r in g.mapping && (f.mapping[r] != [] ==> g.mapping[r] != []))
    && forall r | r in g.mapping && r !in f.mapping :: g.mapping[r] != []
  }

  ghost predicate SameCounts(f: Forest, g: Forest)
  {
    && f.nextNode <= g.nextNode && f.nextPath <= g.nextPath
    && (forall x | x in f.nodes :: x in g.nodes && Counts(f.nodes[x], g.nodes[x]))
    && (forall x | x in g.nodes && x !in f.nodes :: x >= f.nextNode && g.nodes[x].counter == ZERO && g.nodes[x].rule in g.counters)
    && (forall r | r in f.counters :: r in g.counters && g.counters[r] == f.counters[r])
    && (forall r | r in g.counters && r !in f.counters :: g.counters[r] == ZERO)
    && (forall p | p in f.paths :: p in g.paths && g.paths[p].source == f.paths[p].source && g.paths[p].last == f.paths[p].last)
    && forall p | p in g.paths && p !in f.paths :: p >= f.nextPath && g.paths[p].last == ZERO
  }

  predicate Counts(a: Node, b: Node)
  {
    SameCore(a, b) && b.counter == a.counter
  }

  lemma CountsSelf(f: Forest)
    ensures CountsNothingNew(f, f)
  {}

  lemma CountsTrans(f: Forest, g: Forest, h: Forest)
    requires CountsNothingNew(f, g) && CountsNothingNew(g, h)
    ensures CountsNothingNew(f, h)
  {}

  lemma AddedCounts(f: Forest, g: Forest, x: nat, parent: nat)
    requires NodeAdded(f, g, x, parent)
    ensures CountsNothingNew(f, g)
  {}

  lemma RootIsAdded(f: Forest, r: Rule, pad: Mask)
    requires f.nextNode !in f.nodes
    ensures NodeAdded(f, AddRootNode(f, r, pad), f.nextNode, f.nextNode)
  {}

  lemma ChildIsAdded(f: Forest, parent: nat, e: Edge, domain: NetworkSpace, pad: Mask)
    requires parent in f.nodes && IsTransfer(e.transfer, pad) && IsChanger(f.nodes[parent].rootTransfer.changer, pad)
    requires f.nextNode !in f.nodes
    ensures NodeAdded(f, AddChildNode(f, parent, e, domain, pad), f.nextNode, parent)
  {
    hide IsTransfer, IsChanger, ComposeTransfers;
  }

  predicate SameCore(a: Node, b: Node)
  {
    b.rule == a.rule && b.domain == a.domain && b.rootTransfer == a.rootTransfer && b.root == a.root && b.parent == a.parent
  }

  /** What a node is does not depend on lists, counters and times. */
  lemma NodeKept(n0: Nodes, v0: Vias, n1: Nodes, v1: Vias, rules: Rules, x: nat, pad: Mask)
    requires x in n0 && NodeAt(n0, v0, rules, x, pad) && x in n1 && SameCore(n0[x], n1[x])
    requires n0[x].parent in n0 ==> n0[x].parent in n1 && SameCore(n0[n0[x].parent], n1[n0[x].parent])
    requires x in v0 ==> x in v1 && v1[x] == v0[x]
    ensures NodeAt(n1, v1, rules, x, pad)
  {
    hide IsChanger, EdgeOk, DomainIsPreimage, ComposeTransfers, IsDomain, PortTransfer;
  }

  lemma AddedCore(f: Forest, g: Forest, x: nat, parent: nat)
    requires NodeAdded(f, g, x, parent)
    ensures forall z | z in f.nodes :: z in g.nodes && SameCore(f.nodes[z], g.nodes[z])
    ensures Grows(f, g) || exists z :: z in f.nodes && z >= f.nextNode
  {}

  lemma NodesAdded(f: Forest, g: Forest, v0: Vias, v1: Vias, rules: Rules, x: nat, parent: nat, pad: Mask)
    requires NodeAdded(f, g, x, parent) && NodesOk(f.nodes, v0, rules, pad) && NodeAt(g.nodes, v1, rules, x, pad)
    requires forall z | z in f.nodes && z in v0 :: z in v1 && v1[z] == v0[z]
    ensures NodesOk(g.nodes, v1, rules, pad)
  {
    hide NodeAt, NodeAdded, SameCore, RulesOk;
    AddedCore(f, g, x, parent);
    AddedKeys(f, g, x, parent);
    forall z | z in g.nodes ensures NodeAt(g.nodes, v1, rules, z, pad) {
      if z != x {
        NodeKept(f.nodes, v0, g.nodes, v1, rules, z, pad);
      }
    }
  }

  lemma AddedKeys(f: Forest, g: Forest, x: nat, parent: nat)
    requires NodeAdded(f, g, x, parent)
    ensures g.nodes.Keys == f.nodes.Keys + {x} && x !in f.nodes
  {}

  lemma AddedLive(f: Forest, g: Forest, x: nat, parent: nat)
    requires NodeAdded(f, g, x, parent)
    ensures forall z :: Live(g.nodes, z) <==> Live(f.nodes, z) || z == x
    ensures forall z | z in f.nodes :: z in g.nodes && g.nodes[z].rule == f.nodes[z].rule && g.nodes[z].parent == f.nodes[z].parent
    ensures x in g.nodes && x !in f.nodes && g.nodes[x].parent == parent && g.nodes[x].children == []
    ensures forall z | z in f.nodes && z != parent :: g.nodes[z].children == f.nodes[z].children
    ensures parent != x ==> parent in f.nodes && g.nodes[parent].children == f.nodes[parent].children + [x]
  {}

  lemma MappingAdded(f: Forest, g: Forest, x: nat, parent: nat)
    requires NodeAdded(f, g, x, parent) && MappingOk(f.nodes, f.mapping)
    ensures MappingOk(g.nodes, g.mapping)
  {
    hide Distinct;
    AddedLive(f, g, x, parent);
    var r0 := g.nodes[x].rule;
    forall r | r in g.mapping
      ensures Distinct(g.mapping[r])
      ensures forall z | z in g.mapping[r] :: Live(g.nodes, z) && g.nodes[z].rule == r
    {
      if r in f.mapping {
        LiveIn(f.nodes, f.mapping, r);
        if r == r0 { DistinctAppend(f.mapping[r], x); } else { assert g.mapping[r] == f.mapping[r]; }
      } else {
        OneIsDistinct(x);
      }
    }
    forall z | Live(g.nodes, z) ensures g.nodes[z].rule in g.mapping && z in g.mapping[g.nodes[z].rule] {
      if z != x { assert Live(f.nodes, z); }
    }
  }

  lemma LiveIn(nodes: Nodes, mapping: Mapping, r: nat)
    requires MappingOk(nodes, mapping) && r in mapping
    ensures forall z | z in mapping[r] :: z in nodes
  {
    hide Distinct;
  }

  lemma ChildrenAdded(f: Forest, g: Forest, x: nat, parent: nat)
    requires NodeAdded(f, g, x, parent) && ChildrenOk(f.nodes)
    requires parent != x ==> forall c | c in f.nodes[parent].children && c in f.nodes :: f.nodes[c].rule != g.nodes[x].rule
    ensures ChildrenOk(g.nodes)
  {
    hide NodeAdded, Live, Distinct;
    AddedLive(f, g, x, parent);
    forall y | y in g.nodes ensures ChildrenAt(g.nodes, y) {
      if y == x {
        NoneDistinct<nat>();
      } else {
        AddedHas(f, g, x, parent, y);
        assert ChildrenAt(f.nodes, y);
        ChildrenLive(f.nodes, y);
        if y == parent { DistinctAppend(f.nodes[y].children, x); }
      }
    }
  }

  lemma AddedHas(f: Forest, g: Forest, x: nat, parent: nat, y: nat)
    requires NodeAdded(f, g, x, parent) && y in g.nodes && y != x
    ensures y in f.nodes
  {}

  lemma ChildrenLive(nodes: Nodes, y: nat)
    requires y in nodes && ChildrenAt(nodes, y)
    ensures forall c | c in nodes[y].children :: c in nodes
  {
    hide Distinct;
  }

  lemma ParentsAdded(f: Forest, g: Forest, x: nat, parent: nat)
    requires NodeAdded(f, g, x, parent) && ParentsOk(f.nodes) && (parent != x ==> Live(f.nodes, parent))
    ensures ParentsOk(g.nodes)
  {
    forall y | Live(g.nodes, y) ensures ParentAt(g.nodes, y) {
      if y in f.nodes { assert ParentAt(f.nodes, y); }
    }
  }

  lemma RootsAdded(f: Forest, g: Forest, x: nat, parent: nat)
    requires NodeAdded(f, g, x, parent) && RootsOk(f.nodes)
    requires parent == x ==> forall y | Live(f.nodes, y) :: f.nodes[y].rule != g.nodes[x].rule
    ensures RootsOk(g.nodes)
  {}

  lemma RootAdded(f: Forest, via: Vias, rules: Rules, r: Rule, pad: Mask)
    requires ForestOk(f, via, rules, pad) && r.id in rules && rules[r.id] == r && r.kind == Sink && r.id !in f.mapping
    ensures ForestOk(AddRootNode(f, r, pad), via, rules, pad) && Grows(f, AddRootNode(f, r, pad))
  {
    hide Has, IsTransfer, IsDomain, IsMatch, FromTransfer, IsChanger, NodeAdded, MappingOk, ChildrenOk, ParentsOk, RootsOk, NodesOk, ChildAt, PathsOk;
    var g, x := AddRootNode(f, r, pad), f.nextNode;
    RootIsAdded(f, r, pad);
    AddedCore(f, g, x, x);
    RootFits(f.nodes, via, rules, r, pad);
    NodesAdded(f, g, via, via, rules, x, x, pad);
    MappingAdded(f, g, x, x);
    ChildrenAdded(f, g, x, x);
    PathsAdded(f, g, x, x);
    ParentsAdded(f, g, x, x);
    NoNodeOf(f.nodes, f.mapping, r.id);
    RootsAdded(f, g, x, x);
  }

  lemma NoNodeOf(nodes: Nodes, mapping: Mapping, r: nat)
    requires MappingOk(nodes, mapping) && r !in mapping
    ensures forall y | Live(nodes, y) :: nodes[y].rule != r
  {}

  lemma RootFits(nodes: Nodes, via: Vias, rules: Rules, r: Rule, pad: Mask)
    requires NodesOk(nodes, via, rules, pad) && r.id in rules && rules[r.id] == r
    ensures IsDomain(r.domain, pad) && IsChanger(PortTransfer(r.domain.port, pad).changer, pad)
  {
    hide PortTransfer, IsChanger;
    PortTransferKeeps(r.domain.port, pad, pad);
  }

  /** What addChildNode may be called for: the edge enters the parent's rule, the domain is
      the preimage and the parent has no child of the edge's source yet. */
  ghost predicate ChildFits(f: Forest, rules: Rules, parent: nat, e: Edge, domain: NetworkSpace, pad: Mask)
  {
    && Live(f.nodes, parent) && EdgeOk(e, rules, pad) && e.dst == f.nodes[parent].rule
    && DomainIsPreimage(domain, rules[e.src], e, f.nodes[parent].domain, pad)
    && forall c | c in f.nodes[parent].children && c in f.nodes :: f.nodes[c].rule != e.src
  }

  lemma EdgeFacts(e: Edge, rules: Rules, pad: Mask)
    requires EdgeOk(e, rules, pad)
    ensures IsTransfer(e.transfer, pad) && IsDomain(e.domain, pad) && e.src in rules && e.dst in rules
    ensures rules[e.src].kind != Sink && rules[e.dst].kind != Source
  {}

  lemma ComposedIsChanger(t: Transfer, u: Transfer, pad: Mask)
    requires IsTransfer(t, pad) && IsChanger(u.changer, pad)
    ensures IsChanger(t.changer, pad) && IsChanger(ComposeTransfers(t, u, pad).changer, pad)
  {
    hide IsChanger;
    TransferHasChanger(t, pad);
    ComposeIsChanger(t.changer, u.changer, pad);
  }

  lemma ChildNodeAt(f: Forest, via: Vias, rules: Rules, parent: nat, e: Edge, domain: NetworkSpace, pad: Mask)
    requires ForestOk(f, via, rules, pad) && ChildFits(f, rules, parent, e, domain, pad)
    requires IsTransfer(e.transfer, pad) && IsChanger(f.nodes[parent].rootTransfer.changer, pad)
    ensures NodeAt(AddChildNode(f, parent, e, domain, pad).nodes, via[f.nextNode := e], rules, f.nextNode, pad)
  {
    hide IsTransfer, IsChanger, EdgeOk, Compose, ListsOk, NodeAt, Passes, Fitting;
    ComposedIsChanger(e.transfer, f.nodes[parent].rootTransfer, pad);
    EdgeFacts(e, rules, pad);
    ChildNodeFacts(AddChildNode(f, parent, e, domain, pad).nodes, via[f.nextNode := e], rules, f.nextNode, pad);
  }

  lemma ChildNodeFacts(nodes: Nodes, via: Vias, rules: Rules, x: nat, pad: Mask)
    requires x in nodes && nodes[x].rule in rules && IsDomain(nodes[x].domain, pad) && IsChanger(nodes[x].rootTransfer.changer, pad)
    requires nodes[x].parent != x && ChildAt(nodes, via, rules, x, pad)
    ensures NodeAt(nodes, via, rules, x, pad)
  {
    hide ChildAt, RootAt, IsChanger, IsDomain;
  }

  lemma ChildAdded(f: Forest, via: Vias, rules: Rules, parent: nat, e: Edge, domain: NetworkSpace, pad: Mask)
    requires ForestOk(f, via, rules, pad) && ChildFits(f, rules, parent, e, domain, pad)
    requires IsTransfer(e.transfer, pad) && IsChanger(f.nodes[parent].rootTransfer.changer, pad)
    ensures var g := AddChildNode(f, parent, e, domain, pad);
      && ForestOk(g, via[f.nextNode := e], rules, pad) && Grows(f, g) && NodeAdded(f, g, f.nextNode, parent)
      && g.nodes[f.nextNode].rule == e.src && g.nodes[f.nextNode].outPath.None?
  {
    hide Has, IsTransfer, IsDomain, IsMatch, IsChanger, NodeAdded, MappingOk, ChildrenOk, ParentsOk, RootsOk, NodesOk, NodeAt,
         DomainIsPreimage, EdgeOk, ComposeTransfers, PathsOk;
    var g, x := AddChildNode(f, parent, e, domain, pad), f.nextNode;
    ChildIsAdded(f, parent, e, domain, pad);
    AddedCore(f, g, x, parent);
    AddedKeys(f, g, x, parent);
    ChildNodeAt(f, via, rules, parent, e, domain, pad);
    NodesAdded(f, g, via, via[x := e], rules, x, parent, pad);
    MappingAdded(f, g, x, parent);
    ChildrenAdded(f, g, x, parent);
    PathsAdded(f, g, x, parent);
    ParentsAdded(f, g, x, parent);
    RootsAdded(f, g, x, parent);
  }

  lemma PathsAdded(f: Forest, g: Forest, x: nat, parent: nat)
    requires NodeAdded(f, g, x, parent) && PathsOk(f)
    ensures PathsOk(g)
  {}

  // --- add_child_node ---

  /** is_existing_child(). */
  method IsExistingChild(nodes: Nodes, parent: nat, src: nat) returns (found: bool)
    requires parent in nodes && forall c | c in nodes[parent].children :: c in nodes
    ensures found <==> exists c :: c in nodes[parent].children && nodes[c].rule == src
  {
    var children := nodes[parent].children;
    for i := 0 to |children|
      invariant forall k | 0 <= k < i :: nodes[children[k]].rule != src
    {
      assert children[i] in children;
      if nodes[children[i]].rule == src { return true; }
    }
    found := false;
  }

  /** Edge e needs nothing more below node y. */
  ghost predicate Handled(nodes: Nodes, rules: Rules, y: nat, e: Edge, n: nat)
    requires y in nodes && e.src in rules
  {
    HasChild(nodes, y, e.src) || NoPreimage(e, rules[e.src], nodes[y].domain, n)
  }

  predicate HasChild(nodes: Nodes, y: nat, src: nat)
    requires y in nodes
  {
    exists c :: c in nodes[y].children && c in nodes && nodes[c].rule == src
  }

  /** add_child_node(). */
  method AddChild(f: Forest, parent: nat, e: Edge, rules: Rules, ghost via0: Vias, pad: Mask)
    returns (g: Forest, child: Option<nat>, ghost via: Vias)
    requires ForestOk(f, via0, rules, pad) && Live(f.nodes, parent) && EdgeOk(e, rules, pad) && e.dst == f.nodes[parent].rule
    ensures ForestOk(g, via, rules, pad) && Grows(f, g) && (forall x | x in f.nodes && x in via0 :: x in via && via[x] == via0[x])
    ensures CountsNothingNew(f, g)
    ensures child.None? ==> g == f && via == via0 && Handled(f.nodes, rules, parent, e, |pad|)
    ensures child.Some? ==> !HasChild(f.nodes, parent, e.src)
    ensures PlainEdge(e, rules[e.src], f.nodes[parent].domain) ==>
              (child.Some? <==> !HasChild(f.nodes, parent, e.src) && !NoPreimage(e, rules[e.src], f.nodes[parent].domain, |pad|))
    ensures child.Some? ==>
              && child.value == f.nextNode && NodeAdded(f, g, child.value, parent) && g.nodes[child.value].rule == e.src
              && g.nodes[child.value].outPath.None? && child.value in via && via[child.value] == e
  {
    hide CountsNothingNew, Grows, NodeAdded, IsTransfer, IsChanger, EdgeOk, NodesOk, ListsOk, PathsOk, NoPreimage, DomainIsPreimage, IsDomain, Has, IsMatch, ComposeTransfers;
    NodeFacts(f, via0, rules, parent, pad);
    EdgeFacts(e, rules, pad);
    RuleMatches(f, via0, rules, e.src, pad);
    var empty, domain := Preimage(e, rules[e.src], f.nodes[parent].domain, rules, pad);
    var existing := IsExistingChild(f.nodes, parent, e.src);
    g, child, via := f, None, via0;
    GrowsSelf(f);
    CountsSelf(f);
    if !empty && !existing {
      ChildAdded(f, via0, rules, parent, e, domain, pad);
      AddedCounts(f, AddChildNode(f, parent, e, domain, pad), f.nextNode, parent);
      g, child, via := AddChildNode(f, parent, e, domain, pad), Some(f.nextNode), via0[f.nextNode := e];
    }
  }

  lemma GrowsSelf(f: Forest)
    ensures Grows(f, f)
  {}

  lemma RuleMatches(f: Forest, via: Vias, rules: Rules, r: nat, pad: Mask)
    requires ForestOk(f, via, rules, pad) && r in rules
    ensures IsMatch(rules[r].domain, pad) && rules[r].id == r && IsPad(pad)
  {}

  lemma NodeFacts(f: Forest, via: Vias, rules: Rules, x: nat, pad: Mask)
    requires ForestOk(f, via, rules, pad) && x in f.nodes
    ensures IsDomain(f.nodes[x].domain, pad) && IsChanger(f.nodes[x].rootTransfer.changer, pad) && f.nodes[x].rule in rules
    ensures f.nextNode !in f.nodes && x < f.nextNode
    ensures forall c | c in f.nodes[x].children :: c in f.nodes
  {
    hide IsDomain, IsChanger;
    assert NodeAt(f.nodes, via, rules, x, pad) && ChildrenAt(f.nodes, x);
  }
}
