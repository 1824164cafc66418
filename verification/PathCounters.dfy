/** Counters on paths: process_path_query of src/flow_predictor/FlowPredictor.cpp with
    forEachPathNode and addNodeCounter of src/flow_predictor/PathScan.cpp. Counters are
    unsigned 64-bit numbers. Nodes are never reclaimed here. */
module PathCounters {
  import opened Options
  import opened Masks
  import opened NetworkSpaces
  import opened Tables
  import opened Forests
  import opened ForestGrowth
  import opened SubtreeRemoval

  function Add64(a: Word64, b: Word64): Word64
  {
    if a + b < WORD then a + b else a + b - WORD
  }

  function Subtract64(a: Word64, b: Word64): Word64
  {
    if a >= b then a - b else a + WORD - b
  }

  /** Counters are numbers below 2^64 and wrap around there (uint64_t). */
  lemma WordArithmetic(a: nat, b: nat)
    requires a < 0x1_0000_0000_0000_0000 && b < 0x1_0000_0000_0000_0000
    ensures Add64(a, b) == (a + b) % 0x1_0000_0000_0000_0000
    ensures Subtract64(a, b) == (a - b) % 0x1_0000_0000_0000_0000
  {
    if a + b >= 0x1_0000_0000_0000_0000 { assert a + b == 0x1_0000_0000_0000_0000 + Add64(a, b); }
    if a < b { assert a - b == Subtract64(a, b) - 0x1_0000_0000_0000_0000; }
  }

  function Plus(a: Counter, b: Counter): Counter
  {
    Counter(Add64(a.packets, b.packets), Add64(a.bytes, b.bytes))
  }

  /** The difference of two readings. */
  function Difference(a: Counter, b: Counter): Counter
  {
    Counter(Subtract64(a.packets, b.packets), Subtract64(a.bytes, b.bytes))
  }

  lemma PlusAssoc(a: Counter, b: Counter, c: Counter)
    ensures Plus(Plus(a, b), c) == Plus(a, Plus(b, c)) && Plus(a, b) == Plus(b, a)
  {}

  lemma PlusSwap(a: Counter, b: Counter, c: Counter)
    ensures Plus(Plus(a, b), c) == Plus(Plus(a, c), b)
  {}

  lemma PlusDifference(s: Counter, a: Counter, b: Counter)
    ensures Plus(Plus(s, a), Difference(b, a)) == Plus(s, b)
  {}

  lemma PlusZero(a: Counter)
    ensures Plus(a, ZERO) == a
  {}

  // --- what counters should be ---

  /** The last readings of the paths below k that go through node x. */
  ghost function ThroughSum(nodes: Nodes, paths: map<nat, DomainPath>, x: nat, k: nat): Counter
  {
    if k == 0 then ZERO
    else if k - 1 in paths && Below(nodes, x, paths[k - 1].source) then
      Plus(ThroughSum(nodes, paths, x, k - 1), paths[k - 1].last)
    else ThroughSum(nodes, paths, x, k - 1)
  }

  /** The counters of the nodes of rule r below k. */
  ghost function RuleSum(nodes: Nodes, r: nat, k: nat): Counter
  {
    if k == 0 then ZERO
    else if k - 1 in nodes && nodes[k - 1].rule == r then Plus(RuleSum(nodes, r, k - 1), nodes[k - 1].counter)
    else RuleSum(nodes, r, k - 1)
  }

  /** A node counts what the paths through it carried, a rule what its nodes count. */
  ghost predicate CountersOk(f: Forest)
  {
    && (forall x | x in f.nodes :: f.nodes[x].rule in f.counters && f.nodes[x].counter == ThroughSum(f.nodes, f.paths, x, f.nextPath))
    && forall r | r in f.counters :: f.counters[r] == RuleSum(f.nodes, r, f.nextNode)
  }

  // --- how the sums change ---

  predicate ParentsIn(nodes: Nodes)
  {
    forall z | z in nodes :: nodes[z].parent in nodes
  }

  predicate SameParents(n0: Nodes, n1: Nodes)
  {
    n0.Keys <= n1.Keys && forall z | z in n0 :: n1[z].parent == n0[z].parent
  }

  /** The chain of parents decides which paths go through a node. */
  lemma {:induction false} BelowSame(n0: Nodes, n1: Nodes, y: nat, x: nat)
    requires SameParents(n0, n1) && x in n0 && ParentsIn(n0)
    ensures Below(n1, y, x) <==> Below(n0, y, x)
    decreases x
  {
    if x != y && n0[x].parent < x { BelowSame(n0, n1, y, n0[x].parent); }
  }

  lemma {:induction false} ThroughSame(n0: Nodes, n1: Nodes, paths: map<nat, DomainPath>, x: nat, k: nat)
    requires SameParents(n0, n1) && ParentsIn(n0)
    requires forall p | p in paths :: paths[p].source in n0
    ensures ThroughSum(n1, paths, x, k) == ThroughSum(n0, paths, x, k)
  {
    hide Plus, ParentsIn, SameParents;
    if k > 0 {
      ThroughSame(n0, n1, paths, x, k - 1);
      if k - 1 in paths { BelowSame(n0, n1, x, paths[k - 1].source); }
    }
  }

  /** One path's last reading goes from a to b. */
  lemma {:induction false} ThroughUpdated(nodes: Nodes, paths: map<nat, DomainPath>, p: nat, b: Counter, x: nat, k: nat)
    requires p in paths
    ensures var q := paths[p := paths[p].(last := b)];
      ThroughSum(nodes, q, x, k) ==
        if p < k && Below(nodes, x, paths[p].source) then Plus(ThroughSum(nodes, paths, x, k), Difference(b, paths[p].last))
        else ThroughSum(nodes, paths, x, k)
  {
    hide Plus, Difference;
    if k > 0 {
      ThroughUpdated(nodes, paths, p, b, x, k - 1);
      if k - 1 == p {
        PlusDifference(ThroughSum(nodes, paths, x, k - 1), paths[p].last, b);
      } else if k - 1 in paths {
        PlusSwap(ThroughSum(nodes, paths, x, k - 1), Difference(b, paths[p].last), paths[k - 1].last);
      }
    }
  }

  /** One node counts d more. */
  lemma {:induction false} RuleSumUpdated(nodes: Nodes, x: nat, d: Counter, r: nat, k: nat)
    requires x in nodes
    ensures var n1 := nodes[x := nodes[x].(counter := Plus(nodes[x].counter, d))];
      RuleSum(n1, r, k) == if x < k && nodes[x].rule == r then Plus(RuleSum(nodes, r, k), d) else RuleSum(nodes, r, k)
  {
    hide Plus;
    if k > 0 {
      RuleSumUpdated(nodes, x, d, r, k - 1);
      if k - 1 == x {
        PlusAssoc(RuleSum(nodes, r, k - 1), nodes[x].counter, d);
      } else if k - 1 in nodes {
        PlusSwap(RuleSum(nodes, r, k - 1), d, nodes[k - 1].counter);
      }
    }
  }

  /** Nodes above x and y on one chain are ordered: what lies between a node and its parent is neither. */
  lemma {:induction false} ChainIsLinear(nodes: Nodes, x: nat, y: nat, s: nat)
    requires Below(nodes, x, s) && Below(nodes, y, s) && x < y
    ensures y in nodes && nodes[y].parent < y && Below(nodes, x, nodes[y].parent)
    decreases s
  {
    BelowIsLater(nodes, y, s);
    if s != y {
      ChainIsLinear(nodes, x, y, nodes[s].parent);
    }
  }

  // --- process_path_query ---

  predicate CountedNode(a: Node, b: Node, hit: bool, d: Counter)
  {
    b == a.(counter := if hit then Plus(a.counter, d) else a.counter)
  }

  /** g is f with d added to the nodes above `source` from y on. */
  ghost predicate Counted(f: Forest, g: Forest, source: nat, y: nat, d: Counter)
  {
    && g == f.(nodes := g.nodes, counters := g.counters) && g.nodes.Keys == f.nodes.Keys && g.counters.Keys == f.counters.Keys
    && (forall z | z in f.nodes :: CountedNode(f.nodes[z], g.nodes[z], Below(f.nodes, z, source) && z >= y, d))
    && forall r | r in f.counters :: g.counters[r] == RuleSum(g.nodes, r, f.nextNode)
  }

  lemma CountedFacts(f: Forest, g: Forest, source: nat, y: nat, d: Counter)
    requires Counted(f, g, source, y, d)
    ensures g.nodes.Keys == f.nodes.Keys && g.counters.Keys == f.counters.Keys
    ensures forall z | z in f.nodes :: z in g.nodes && g.nodes[z].rule == f.nodes[z].rule && g.nodes[z].parent == f.nodes[z].parent
    ensures SameParents(f.nodes, g.nodes)
    ensures g.paths == f.paths && g == f.(nodes := g.nodes, counters := g.counters)
  {
    hide Below, Plus, RuleSum;
    forall z | z in f.nodes ensures g.nodes[z].rule == f.nodes[z].rule && g.nodes[z].parent == f.nodes[z].parent {
      assert CountedNode(f.nodes[z], g.nodes[z], Below(f.nodes, z, source) && z >= y, d);
    }
  }

  /** addNodeCounter(): the node and its rule. */
  function AddNodeCounter(f: Forest, x: nat, d: Counter): Forest
    requires x in f.nodes && f.nodes[x].rule in f.counters
  {
    var r := f.nodes[x].rule;
    f.(nodes := f.nodes[x := f.nodes[x].(counter := Plus(f.nodes[x].counter, d))],
       counters := f.counters[r := Plus(f.counters[r], d)])
  }

  lemma CountOne(f: Forest, g: Forest, source: nat, prev: nat, y: nat, d: Counter)
    requires Counted(f, g, source, prev, d) && y < prev && Below(f.nodes, y, source)
    requires y in f.nodes && y < f.nextNode && f.nodes[y].rule in f.counters
    requires forall z | z in f.nodes && Below(f.nodes, z, source) && z < prev :: z <= y
    ensures y in g.nodes && g.nodes[y].rule in g.counters && Counted(f, AddNodeCounter(g, y, d), source, y, d)
  {
    hide Below, Plus, RuleSum;
    CountedFacts(f, g, source, prev, d);
    var h := AddNodeCounter(g, y, d);
    forall r | r in f.counters ensures h.counters[r] == RuleSum(h.nodes, r, f.nextNode) {
      RuleSumUpdated(g.nodes, y, d, r, f.nextNode);
    }
    forall z | z in f.nodes ensures CountedNode(f.nodes[z], h.nodes[z], Below(f.nodes, z, source) && z >= y, d) {
      assert CountedNode(f.nodes[z], g.nodes[z], Below(f.nodes, z, source) && z >= prev, d);
    }
  }

  lemma CountingStarts(f: Forest, source: nat, d: Counter)
    requires CountersOk(f) && source in f.nodes
    ensures Counted(f, f, source, source + 1, d)
    ensures forall z | z in f.nodes && Below(f.nodes, z, source) && z < source + 1 :: z <= source
  {
    hide Below, Plus, ThroughSum, RuleSum;
    forall z | z in f.nodes && Below(f.nodes, z, source) ensures z <= source { BelowIsLater(f.nodes, z, source); }
  }

  /** Above y in the chain comes its parent, and at the root nothing. */
  lemma NextInChain(nodes: Nodes, source: nat, y: nat)
    requires y in nodes && Below(nodes, y, source)
    ensures forall z | z in nodes && Below(nodes, z, source) && z < y :: nodes[y].parent < y && z <= nodes[y].parent
  {
    hide Below;
    forall z | z in nodes && Below(nodes, z, source) && z < y ensures nodes[y].parent < y && z <= nodes[y].parent {
      ChainIsLinear(nodes, z, y, source);
      BelowIsLater(nodes, z, nodes[y].parent);
    }
  }

  lemma {:induction false} ParentAbove(nodes: Nodes, source: nat, y: nat)
    requires y in nodes && Below(nodes, y, source) && nodes[y].parent in nodes && nodes[y].parent < y
    ensures Below(nodes, nodes[y].parent, source)
    decreases source
  {
    BelowIsLater(nodes, y, source);
    if source != y { ParentAbove(nodes, nodes[source].parent, y); }
  }

  lemma ChainFacts(f: Forest, via: Vias, rules: Rules, y: nat, pad: Mask)
    requires ForestOk(f, via, rules, pad) && y in f.nodes
    ensures y < f.nextNode && f.nodes[y].rule in rules && f.nodes[y].parent in f.nodes
    ensures f.nodes[y].parent == y || f.nodes[y].parent < y
    ensures f.nodes[y].parent == y <==> rules[f.nodes[y].rule].kind == Sink
    ensures f.nodes[y].root in f.nodes && rules[f.nodes[f.nodes[y].root].rule].kind == Sink
  {
    hide DomainIsPreimage, ComposeTransfers, IsTransfer, IsDomain, PortTransfer, ListsOk, PathsOk;
    assert NodeAt(f.nodes, via, rules, y, pad);
    WalkEndsAtRoot(f.nodes, via, rules, y, pad);
  }

  /** All nodes above the source counted d, and the path's last reading moves along. */
  lemma QueryNode(f: Forest, g: Forest, p: nat, y: nat, reading: Counter, x: nat)
    requires x in f.nodes && f.nodes[x].counter == ThroughSum(f.nodes, f.paths, x, f.nextPath) && p in f.paths && p < f.nextPath
    requires Counted(f, g, f.paths[p].source, y, Difference(reading, f.paths[p].last)) && g.nodes.Keys == f.nodes.Keys
    requires Below(f.nodes, x, f.paths[p].source) ==> x >= y
    requires SameParents(f.nodes, g.nodes) && ParentsIn(f.nodes)
    requires forall q | q in f.paths :: f.paths[q].source in f.nodes
    ensures CountedNode(f.nodes[x], g.nodes[x], Below(f.nodes, x, f.paths[p].source), Difference(reading, f.paths[p].last))
    ensures g.nodes[x].counter == ThroughSum(g.nodes, f.paths[p := f.paths[p].(last := reading)], x, f.nextPath)
  {
    hide Below, Plus, Difference, ThroughSum, RuleSum, ParentsIn, SameParents;
    var d := Difference(reading, f.paths[p].last);
    assert CountedNode(f.nodes[x], g.nodes[x], Below(f.nodes, x, f.paths[p].source) && x >= y, d);
    ThroughUpdated(f.nodes, f.paths, p, reading, x, f.nextPath);
    ThroughSame(f.nodes, g.nodes, f.paths[p := f.paths[p].(last := reading)], x, f.nextPath);
  }

  lemma CountersFacts(f: Forest)
    requires CountersOk(f)
    ensures forall x | x in f.nodes :: f.nodes[x].rule in f.counters && f.nodes[x].counter == ThroughSum(f.nodes, f.paths, x, f.nextPath)
  {
    hide ThroughSum, RuleSum;
  }

  lemma CountersMake(f: Forest, g: Forest, source: nat, y: nat, d: Counter, h: Forest)
    requires CountersOk(f) && Counted(f, g, source, y, d) && h == g.(paths := h.paths)
    requires forall x | x in f.nodes :: x in g.nodes && g.nodes[x].counter == ThroughSum(g.nodes, h.paths, x, f.nextPath)
    ensures CountersOk(h)
  {
    hide Below, Plus, ThroughSum, RuleSum;
    CountedFacts(f, g, source, y, d);
  }

  lemma QueryDone(f: Forest, g: Forest, p: nat, y: nat, reading: Counter)
    requires CountersOk(f) && p in f.paths && p < f.nextPath
    requires Counted(f, g, f.paths[p].source, y, Difference(reading, f.paths[p].last))
    requires forall z | z in f.nodes && Below(f.nodes, z, f.paths[p].source) :: z >= y
    requires ParentsIn(f.nodes)
    requires forall q | q in f.paths :: f.paths[q].source in f.nodes
    ensures CountersOk(g.(paths := f.paths[p := f.paths[p].(last := reading)]))
    ensures forall x | x in f.nodes :: x in g.nodes && CountedNode(f.nodes[x], g.nodes[x],
              Below(f.nodes, x, f.paths[p].source), Difference(reading, f.paths[p].last))
  {
    hide *;
    CountedFacts(f, g, f.paths[p].source, y, Difference(reading, f.paths[p].last));
    CountersFacts(f);
    forall x | x in f.nodes
      ensures CountedNode(f.nodes[x], g.nodes[x], Below(f.nodes, x, f.paths[p].source), Difference(reading, f.paths[p].last))
      ensures g.nodes[x].counter == ThroughSum(g.nodes, f.paths[p := f.paths[p].(last := reading)], x, f.nextPath)
    {
      QueryNode(f, g, p, y, reading, x);
    }
    CountersMake(f, g, f.paths[p].source, y, Difference(reading, f.paths[p].last), g.(paths := f.paths[p := f.paths[p].(last := reading)]));
  }

  /** All nodes above the path's source count the difference, and nothing else changes. */
  ghost predicate PathCounted(f: Forest, g: Forest, p: nat, reading: Counter)
    requires p in f.paths
  {
    && g == f.(nodes := g.nodes, counters := g.counters, paths := g.paths) && g.nodes.Keys == f.nodes.Keys
    && g.paths == f.paths[p := f.paths[p].(last := reading)]
    && forall x | x in f.nodes ::
         CountedNode(f.nodes[x], g.nodes[x], Below(f.nodes, x, f.paths[p].source), Difference(reading, f.paths[p].last))
  }

  lemma MakePathCounted(f: Forest, g: Forest, p: nat, reading: Counter)
    requires p in f.paths && g == f.(nodes := g.nodes, counters := g.counters, paths := g.paths) && g.nodes.Keys == f.nodes.Keys
    requires g.paths == f.paths[p := f.paths[p].(last := reading)]
    requires forall x | x in f.nodes :: x in g.nodes && CountedNode(f.nodes[x], g.nodes[x],
               Below(f.nodes, x, f.paths[p].source), Difference(reading, f.paths[p].last))
    ensures PathCounted(f, g, p, reading)
  {
    hide CountedNode, Below, Difference;
  }

  /** process_path_query(): the nodes of the path, up to the sink, count the packets since
      the last reading of the path. */
  method ProcessPathQuery(f: Forest, p: nat, reading: Counter, rules: Rules, ghost via: Vias, ghost pad: Mask) returns (g: Forest)
    requires ForestOk(f, via, rules, pad) && CountersOk(f) && p in f.paths
    ensures CountersOk(g) && PathCounted(f, g, p, reading)
  {
    hide *;
    QueryFacts(f, via, rules, p, pad);
    var source, sink := f.paths[p].source, f.paths[p].sink;
    var d := Difference(reading, f.paths[p].last);
    g := f;
    var x, done := source, false;
    ghost var prev := source + 1;
    CountingStarts(f, source, d);
    SelfBelow(f.nodes, source);
    while !done
      invariant Counted(f, g, source, prev, d) && x in f.nodes && Below(f.nodes, x, source)
      invariant !done ==> x < prev && forall z | z in f.nodes && Below(f.nodes, z, source) && z < prev :: z <= x
      invariant done ==> forall z | z in f.nodes && Below(f.nodes, z, source) :: z >= prev
      decreases !done, x
    {
      ChainFacts(f, via, rules, x, pad);
      CountedFacts(f, g, source, prev, d);
      CountOne(f, g, source, prev, x, d);
      NextInChain(f.nodes, source, x);
      var last, parent := x == sink || rules[g.nodes[x].rule].kind == Sink, g.nodes[x].parent;
      g := AddNodeCounter(g, x, d);
      prev := x;
      if !last {
        ParentAbove(f.nodes, source, x);
        x := parent;
      } else {
        done := true;
      }
    }
    CountedFacts(f, g, source, prev, d);
    QueryDone(f, g, p, prev, reading);
    g := g.(paths := g.paths[p := g.paths[p].(last := reading)]);
    MakePathCounted(f, g, p, reading);
  }

  lemma SelfBelow(nodes: Nodes, x: nat)
    requires x in nodes
    ensures Below(nodes, x, x)
  {}

  lemma QueryFacts(f: Forest, via: Vias, rules: Rules, p: nat, pad: Mask)
    requires ForestOk(f, via, rules, pad) && CountersOk(f) && p in f.paths
    ensures p < f.nextPath && (forall q | q in f.paths :: f.paths[q].source in f.nodes) && f.paths[p].source in f.nodes && f.paths[p].sink == f.nodes[f.paths[p].source].root
    ensures f.paths[p].sink in f.nodes && f.nodes[f.paths[p].sink].rule in rules && rules[f.nodes[f.paths[p].sink].rule].kind == Sink
    ensures (forall x | x in f.nodes :: f.nodes[x].rule in f.counters) && ParentsIn(f.nodes)
  {
    hide NodesOk, ListsOk, ThroughSum, RuleSum;
    ChainFacts(f, via, rules, f.paths[p].source, pad);
    ChainFacts(f, via, rules, f.paths[p].sink, pad);
    forall x | x in f.nodes ensures f.nodes[x].parent in f.nodes { ChainFacts(f, via, rules, x, pad); }
  }

  // --- growth and removal keep the counters right ---

  lemma {:induction false} RuleSumGrows(n0: Nodes, n1: Nodes, r: nat, k0: nat, k: nat)
    requires (forall x | x in n0 :: x in n1 && n1[x].rule == n0[x].rule && n1[x].counter == n0[x].counter && x < k0) && k0 <= k
    requires forall x | x in n1 && x !in n0 :: x >= k0 && n1[x].counter == ZERO
    ensures RuleSum(n1, r, k) == RuleSum(n0, r, k0)
    decreases k
  {
    hide Plus;
    if k > k0 {
      RuleSumGrows(n0, n1, r, k0, k - 1);
      PlusZero(RuleSum(n1, r, k - 1));
    } else {
      RuleSumSame(n0, n1, r, k);
    }
  }

  lemma {:induction false} RuleSumSame(n0: Nodes, n1: Nodes, r: nat, k: nat)
    requires forall x | x < k :: x in n0 <==> x in n1
    requires forall x | x in n0 && x < k :: n1[x].rule == n0[x].rule && n1[x].counter == n0[x].counter
    ensures RuleSum(n1, r, k) == RuleSum(n0, r, k)
  {
    hide Plus;
    if k > 0 { RuleSumSame(n0, n1, r, k - 1); }
  }

  lemma {:induction false} NoSuchRule(nodes: Nodes, r: nat, k: nat)
    requires forall x | x in nodes :: nodes[x].rule != r
    ensures RuleSum(nodes, r, k) == ZERO
  {
    if k > 0 { NoSuchRule(nodes, r, k - 1); }
  }

  /** Paths that carried nothing yet add nothing. */
  lemma {:induction false} ThroughGrows(n0: Nodes, n1: Nodes, p0: map<nat, DomainPath>, p1: map<nat, DomainPath>, x: nat, k0: nat, k: nat)
    requires SameParents(n0, n1) && ParentsIn(n0) && k0 <= k
    requires forall p | p in p0 :: p in p1 && p1[p].source == p0[p].source && p1[p].last == p0[p].last && p0[p].source in n0 && p < k0
    requires forall p | p in p1 && p !in p0 :: p >= k0 && p1[p].last == ZERO
    ensures ThroughSum(n1, p1, x, k) == ThroughSum(n0, p0, x, k0)
    decreases k
  {
    hide Plus, ParentsIn, SameParents;
    if k > k0 {
      ThroughGrows(n0, n1, p0, p1, x, k0, k - 1);
      PlusZero(ThroughSum(n1, p1, x, k - 1));
    } else {
      ThroughSamePaths(n0, n1, p0, p1, x, k);
    }
  }

  lemma {:induction false} ThroughSamePaths(n0: Nodes, n1: Nodes, p0: map<nat, DomainPath>, p1: map<nat, DomainPath>, x: nat, k: nat)
    requires SameParents(n0, n1) && ParentsIn(n0)
    requires forall p | p < k :: p in p0 <==> p in p1
    requires forall p | p in p0 && p < k :: p1[p].source == p0[p].source && p1[p].last == p0[p].last && p0[p].source in n0
    ensures ThroughSum(n1, p1, x, k) == ThroughSum(n0, p0, x, k)
  {
    hide Plus, ParentsIn, SameParents;
    if k > 0 {
      ThroughSamePaths(n0, n1, p0, p1, x, k - 1);
      if k - 1 in p0 { BelowSame(n0, n1, x, p0[k - 1].source); }
    }
  }

  /** No path of f goes through a node that is not in f. */
  lemma {:induction false} NothingThrough(nodes: Nodes, paths: map<nat, DomainPath>, x: nat, k: nat)
    requires forall p | p in paths :: paths[p].source < x
    ensures ThroughSum(nodes, paths, x, k) == ZERO
  {
    if k > 0 {
      NothingThrough(nodes, paths, x, k - 1);
      if k - 1 in paths && Below(nodes, x, paths[k - 1].source) { BelowIsLater(nodes, x, paths[k - 1].source); }
    }
  }

  /** Counters stay right while the forest grows. */
  lemma CountersKept(f: Forest, g: Forest)
    requires CountersOk(f) && CountsNothingNew(f, g) && ParentsIn(f.nodes)
    requires (forall x | x in f.nodes :: x < f.nextNode) && PathsOk(f)
    ensures CountersOk(g)
  {
    hide CountersOk, SameCounts, ParentsIn, PathsOk;
    CountersSame(f, g);
  }

  lemma CountersSame(f: Forest, g: Forest)
    requires CountersOk(f) && SameCounts(f, g) && ParentsIn(f.nodes)
    requires (forall x | x in f.nodes :: x < f.nextNode) && PathsOk(f)
    ensures CountersOk(g)
  {
    hide ThroughSum, RuleSum, ParentsIn;
    CountsParents(f, g);
    forall x | x in g.nodes ensures g.nodes[x].rule in g.counters && g.nodes[x].counter == ThroughSum(g.nodes, g.paths, x, g.nextPath) {
      ThroughGrows(f.nodes, g.nodes, f.paths, g.paths, x, f.nextPath, g.nextPath);
      if x !in f.nodes { NothingThrough(f.nodes, f.paths, x, f.nextPath); }
    }
    forall r | r in g.counters ensures g.counters[r] == RuleSum(g.nodes, r, g.nextNode) {
      RuleSumGrows(f.nodes, g.nodes, r, f.nextNode, g.nextNode);
      if r !in f.counters { NoSuchRule(f.nodes, r, f.nextNode); }
    }
  }

  lemma CountsParents(f: Forest, g: Forest)
    requires SameCounts(f, g)
    ensures SameParents(f.nodes, g.nodes)
  {}

  /** Old versions keep their counters, and so do their paths. */
  lemma CountersKeptUnlinked(f: Forest, g: Forest, visited: set<nat>, time: nat, queried: seq<nat>, discarded: seq<nat>)
    requires CountersOk(f) && PathsOk(f) && ParentsIn(f.nodes) && forall x | x in f.nodes :: x < f.nextNode
    requires Unlinked(f, g, visited, time) && PathsCut(f, g, visited, time, queried, discarded)
    ensures CountersOk(g)
  {
    hide ThroughSum, RuleSum, Filtered, ParentsIn, PathsOk;
    UnlinkedLive(f, g, visited, time);
    forall x | x in f.nodes ensures Counts(f.nodes[x], g.nodes[x]) {
      assert UnlinkedNode(f.nodes[x], g.nodes[x], if x in visited then Some(time) else f.nodes[x].finalTime, visited);
    }
    assert SameCounts(f, g);
    CountersSame(f, g);
  }

  // --- without wrap-around ---

  function Amount(c: Counter, bytes: bool): nat
  {
    if bytes then c.bytes else c.packets
  }

  /** The sum of the last readings through x as numbers without bound. */
  ghost function Total(nodes: Nodes, paths: map<nat, DomainPath>, x: nat, k: nat, bytes: bool): nat
  {
    if k == 0 then 0
    else Total(nodes, paths, x, k - 1, bytes) +
         if k - 1 in paths && Below(nodes, x, paths[k - 1].source) then Amount(paths[k - 1].last, bytes) else 0
  }

  lemma {:induction false} ThroughIsTotal(nodes: Nodes, paths: map<nat, DomainPath>, x: nat, k: nat, bytes: bool)
    requires Total(nodes, paths, x, k, bytes) < 0x1_0000_0000_0000_0000
    ensures Amount(ThroughSum(nodes, paths, x, k), bytes) == Total(nodes, paths, x, k, bytes)
  {
    hide Below;
    if k > 0 { ThroughIsTotal(nodes, paths, x, k - 1, bytes); }
  }

  /** A node's counter is the sum over its paths as long as the sum fits the counter. */
  lemma CounterIsTotal(f: Forest, x: nat, bytes: bool)
    requires CountersOk(f) && x in f.nodes && Total(f.nodes, f.paths, x, f.nextPath, bytes) < 0x1_0000_0000_0000_0000
    ensures Amount(f.nodes[x].counter, bytes) == Total(f.nodes, f.paths, x, f.nextPath, bytes)
  {
    hide ThroughSum, RuleSum, Total;
    ThroughIsTotal(f.nodes, f.paths, x, f.nextPath, bytes);
  }
}
