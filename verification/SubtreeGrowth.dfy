/** add_subtree and add_subtrees of src/flow_predictor/FlowPredictor.cpp: a breadth-first
    walk that adds a child for every edge with a preimage and a path for every source. */
module SubtreeGrowth {
  import opened Options
  import opened Sequences
  import opened Masks
  import opened NetworkSpaces
  import opened Tables
  import opened Edges
  import opened Forests
  import opened ForestGrowth

  // --- why it ends ---

  /** Ranks rise along the edges: no packet visits a rule twice. */
  ghost predicate Acyclic(edges: EdgeMap, rank: map<nat, nat>)
  {
    forall id | id in edges :: edges[id].src in rank && edges[id].dst in rank && rank[edges[id].src] < rank[edges[id].dst]
  }

  ghost function RankOf(rank: map<nat, nat>, r: nat): nat
  {
    if r in rank then rank[r] else 0
  }

  /** The number of backward walks from rule r along the edges. */
  ghost function Walks(edges: EdgeMap, rank: map<nat, nat>, r: nat, limit: nat): (w: nat)
    requires Acyclic(edges, rank)
    ensures w > 0
    decreases RankOf(rank, r), limit + 1
  {
    1 + WalksIn(edges, rank, r, limit, limit)
  }

  ghost function WalksIn(edges: EdgeMap, rank: map<nat, nat>, r: nat, limit: nat, k: nat): nat
    requires Acyclic(edges, rank) && k <= limit
    decreases RankOf(rank, r), k
  {
    if k == 0 then 0
    else
      WalksIn(edges, rank, r, limit, k - 1) +
      if k - 1 in edges && edges[k - 1].dst == r then Walks(edges, rank, edges[k - 1].src, limit) else 0
  }

  ghost function QueueWalks(edges: EdgeMap, rank: map<nat, nat>, nodes: Nodes, queue: seq<nat>, limit: nat): nat
    requires Acyclic(edges, rank)
  {
    if queue == [] then 0
    else QueueWalks(edges, rank, nodes, queue[..|queue| - 1], limit) +
         if queue[|queue| - 1] in nodes then Walks(edges, rank, nodes[queue[|queue| - 1]].rule, limit) else 0
  }

  lemma {:induction false} QueueWalksConcat(edges: EdgeMap, rank: map<nat, nat>, nodes: Nodes, p: seq<nat>, q: seq<nat>, limit: nat)
    requires Acyclic(edges, rank)
    ensures QueueWalks(edges, rank, nodes, p + q, limit) ==
              QueueWalks(edges, rank, nodes, p, limit) + QueueWalks(edges, rank, nodes, q, limit)
    decreases |q|
  {
    if q == [] {
      assert p + q == p;
    } else {
      var m := |q| - 1;
      assert (p + q)[..|p + q| - 1] == p + q[..m];
      QueueWalksConcat(edges, rank, nodes, p, q[..m], limit);
    }
  }

  lemma {:induction false} QueueWalksSame(edges: EdgeMap, rank: map<nat, nat>, n0: Nodes, n1: Nodes, queue: seq<nat>, limit: nat)
    requires Acyclic(edges, rank)
    requires forall x | x in queue :: x in n0 && x in n1 && n1[x].rule == n0[x].rule
    ensures QueueWalks(edges, rank, n1, queue, limit) == QueueWalks(edges, rank, n0, queue, limit)
    decreases |queue|
  {
    if queue != [] {
      assert queue[|queue| - 1] in queue;
      QueueWalksSame(edges, rank, n0, n1, queue[..|queue| - 1], limit);
    }
  }

  // --- the children of one node ---

  /** Every edge into y's rule below k is handled. */
  ghost predicate CompleteBelow(nodes: Nodes, rules: Rules, edges: EdgeMap, y: nat, k: nat, n: nat)
  {
    y in nodes && forall id | id in edges && id < k && edges[id].dst == nodes[y].rule :: HandledAt(nodes, rules, y, edges[id], n)
  }

  ghost predicate HandledAt(nodes: Nodes, rules: Rules, y: nat, e: Edge, n: nat)
  {
    y in nodes && e.src in rules && Handled(nodes, rules, y, e, n)
  }

  ghost predicate EdgesOk(edges: EdgeMap, limit: nat, rules: Rules, pad: Mask)
  {
    forall id | id in edges :: id < limit && EdgeOk(edges[id], rules, pad)
  }

  /** e is the oldest of the edges between its two rules that has a preimage in the domain. */
  ghost predicate FirstEdge(id: nat, e: Edge, edges: EdgeMap, src: Rule, parent: NetworkSpace, n: nat)
  {
    && id in edges && edges[id] == e
    && forall k | k in edges && k < id && edges[k].src == e.src && edges[k].dst == e.dst :: NoPreimage(edges[k], src, parent, n)
  }

  /** x grew along such an edge. */
  ghost predicate FirstVia(nodes: Nodes, via: Vias, rules: Rules, edges: EdgeMap, x: nat, n: nat)
  {
    && x in nodes && x in via && nodes[x].parent in nodes && via[x].src in rules
    && exists id: nat :: FirstEdge(id, via[x], edges, rules[via[x].src], nodes[nodes[x].parent].domain, n)
  }

  lemma FirstIsEdge(nodes: Nodes, via: Vias, rules: Rules, edges: EdgeMap, x: nat, n: nat)
    requires FirstVia(nodes, via, rules, edges, x, n)
    ensures x in nodes && x in via && IsEdge(via[x], edges)
  {
    hide NoPreimage;
  }

  lemma FirstKept(n0: Nodes, v0: Vias, n1: Nodes, v1: Vias, rules: Rules, edges: EdgeMap, x: nat, n: nat)
    requires FirstVia(n0, v0, rules, edges, x, n) && x in v1 && v1[x] == v0[x]
    requires forall z | z in n0 :: z in n1 && SameCore(n0[z], n1[z])
    ensures FirstVia(n1, v1, rules, edges, x, n)
  {
    hide FirstEdge;
    assert SameCore(n0[x], n1[x]) && SameCore(n0[n0[x].parent], n1[n0[x].parent]);
  }

  /** The edges before id have no child below y: they have no preimage. */
  lemma FirstNext(f: Forest, g: Forest, v0: Vias, v1: Vias, rules: Rules, edges: EdgeMap, more: seq<nat>, x: nat, y: nat, id: nat, n: nat)
    requires NodeAdded(f, g, x, y) && x != y && y in f.nodes && id in edges && edges[id].src in rules && edges[id].dst == f.nodes[y].rule
    requires CompleteBelow(f.nodes, rules, edges, y, id, n) && !HasChild(f.nodes, y, edges[id].src)
    requires x in v1 && v1[x] == edges[id] && forall z | z in f.nodes && z in v0 :: z in v1 && v1[z] == v0[z]
    requires forall z | z in more :: FirstVia(f.nodes, v0, rules, edges, z, n)
    ensures forall z | z in more + [x] :: FirstVia(g.nodes, v1, rules, edges, z, n)
  {
    hide NoPreimage, FirstEdge;
    AddedCore(f, g, x, y);
    forall k | k in edges && k < id && edges[k].src == edges[id].src && edges[k].dst == edges[id].dst
      ensures NoPreimage(edges[k], rules[edges[id].src], f.nodes[y].domain, n)
    {
      assert HandledAt(f.nodes, rules, y, edges[k], n);
    }
    assert FirstEdge(id, edges[id], edges, rules[edges[id].src], g.nodes[y].domain, n) by { hide *; MakeFirst(id, edges, rules[edges[id].src], f.nodes[y].domain, n); }
    forall z | z in more ensures FirstVia(g.nodes, v1, rules, edges, z, n) { FirstKept(f.nodes, v0, g.nodes, v1, rules, edges, z, n); }
  }

  lemma MakeFirst(id: nat, edges: EdgeMap, src: Rule, parent: NetworkSpace, n: nat)
    requires id in edges
    requires forall k | k in edges && k < id && edges[k].src == edges[id].src && edges[k].dst == edges[id].dst :: NoPreimage(edges[k], src, parent, n)
    ensures FirstEdge(id, edges[id], edges, src, parent, n)
  {
    hide NoPreimage;
  }

  /** Only y got children: the nodes `more`, which are new and have nothing below them. */
  ghost predicate OnlyBelow(f: Forest, g: Forest, y: nat, more: seq<nat>)
  {
    && y in f.nodes && y in g.nodes && SameCore(f.nodes[y], g.nodes[y]) && g.nodes[y].outPath == f.nodes[y].outPath
    && g.nodes[y].finalTime == f.nodes[y].finalTime
    && (forall x | x in f.nodes :: x in g.nodes && (x != y ==> g.nodes[x] == f.nodes[x]))
    && (forall c | c in f.nodes[y].children :: c in g.nodes[y].children)
    && Distinct(more) && (forall x | x in more :: x !in f.nodes && x in g.nodes && Fresh(g.nodes, x))
    && (forall x | x in g.nodes && x !in f.nodes :: x in more) && g.paths == f.paths && g.nextPath == f.nextPath
  }

  predicate Fresh(nodes: Nodes, x: nat)
    requires x in nodes
  {
    nodes[x].children == [] && nodes[x].outPath.None? && nodes[x].finalTime.None?
  }

  lemma OnlyBelowSelf(f: Forest, y: nat)
    requires y in f.nodes
    ensures OnlyBelow(f, f, y, [])
  {}

  lemma OnlyBelowNext(f: Forest, g: Forest, h: Forest, y: nat, more: seq<nat>, x: nat)
    requires OnlyBelow(f, g, y, more) && NodeAdded(g, h, x, y) && x != y && h.nodes[x].outPath.None?
    ensures OnlyBelow(f, h, y, more + [x])
  {
    DistinctAppend(more, x);
  }

  lemma HandledStays(f: Forest, h: Forest, rules: Rules, x: nat, y: nat, e: Edge, n: nat)
    requires NodeAdded(f, h, x, y) && y in f.nodes && x != y && HandledAt(f.nodes, rules, y, e, n)
    ensures HandledAt(h.nodes, rules, y, e, n)
  {
    hide NoPreimage;
    if HasChild(f.nodes, y, e.src) {
      var c :| c in f.nodes[y].children && c in f.nodes && f.nodes[c].rule == e.src;
      assert c in h.nodes[y].children && h.nodes[c].rule == e.src;
    }
  }

  lemma HandledNow(f: Forest, h: Forest, rules: Rules, x: nat, y: nat, e: Edge, n: nat)
    requires NodeAdded(f, h, x, y) && y in f.nodes && x != y && e.src in rules && h.nodes[x].rule == e.src
    ensures HandledAt(h.nodes, rules, y, e, n)
  {
    assert x in h.nodes[y].children;
  }

  /** y has got the children `more` since f, each along the first edge with a preimage. */
  ghost predicate NewChildren(f: Forest, g: Forest, v0: Vias, v1: Vias, y: nat, more: seq<nat>, rules: Rules, edges: EdgeMap, n: nat)
  {
    && OnlyBelow(f, g, y, more) && CountsNothingNew(f, g)
    && (forall x | x in f.nodes && x in v0 :: x in v1 && v1[x] == v0[x])
    && forall x | x in more :: FirstVia(g.nodes, v1, rules, edges, x, n)
  }

  lemma NoNewChildren(f: Forest, via: Vias, y: nat, rules: Rules, edges: EdgeMap, n: nat)
    requires y in f.nodes
    ensures NewChildren(f, f, via, via, y, [], rules, edges, n)
  {
    hide FirstVia;
    CountsSelf(f);
    OnlyBelowSelf(f, y);
  }

  lemma ChildrenNext(f: Forest, g: Forest, h: Forest, v0: Vias, v1: Vias, v2: Vias, y: nat, more: seq<nat>, x: nat,
                     rules: Rules, edges: EdgeMap, id: nat, n: nat)
    requires NewChildren(f, g, v0, v1, y, more, rules, edges, n) && NodeAdded(g, h, x, y) && x != y && h.nodes[x].outPath.None?
    requires CountsNothingNew(g, h) && id in edges && edges[id].src in rules && edges[id].dst == g.nodes[y].rule
    requires CompleteBelow(g.nodes, rules, edges, y, id, n) && !HasChild(g.nodes, y, edges[id].src)
    requires x in v2 && v2[x] == edges[id] && forall z | z in g.nodes && z in v1 :: z in v2 && v2[z] == v1[z]
    ensures NewChildren(f, h, v0, v2, y, more + [x], rules, edges, n)
  {
    hide FirstVia, CountsNothingNew, NodeAdded, CompleteBelow, HasChild, OnlyBelow;
    CountsTrans(f, g, h);
    OnlyBelowHas(f, g, y, more);
    OnlyBelowNext(f, g, h, y, more, x);
    FirstNext(g, h, v1, v2, rules, edges, more, x, y, id, n);
  }

  lemma NewChildrenHas(f: Forest, g: Forest, v0: Vias, v1: Vias, y: nat, more: seq<nat>, rules: Rules, edges: EdgeMap, n: nat)
    requires NewChildren(f, g, v0, v1, y, more, rules, edges, n)
    ensures (forall x | x in more :: x in g.nodes) && y in g.nodes && (forall x | x in f.nodes :: x in g.nodes)
  {
    hide FirstVia, CountsNothingNew, OnlyBelow;
    OnlyBelowHas(f, g, y, more);
  }

  /** The loop over the in-edges of y's rule. */
  method AddChildren(f: Forest, y: nat, rules: Rules, edges: EdgeMap, limit: nat, ghost via0: Vias, ghost rank: map<nat, nat>, pad: Mask)
    returns (g: Forest, more: seq<nat>, ghost via: Vias)
    requires ForestOk(f, via0, rules, pad) && Live(f.nodes, y) && Acyclic(edges, rank)
    requires EdgesOk(edges, limit, rules, pad)
    ensures ForestOk(g, via, rules, pad) && NewChildren(f, g, via0, via, y, more, rules, edges, |pad|)
    ensures CompleteBelow(g.nodes, rules, edges, y, limit, |pad|)
    ensures QueueWalks(edges, rank, g.nodes, more, limit) <= WalksIn(edges, rank, f.nodes[y].rule, limit, limit)
  {
    hide NewChildren, HasChild, ForestOk, EdgeOk, Handled, Grows, NodeAdded, Walks, QueueWalks, CompleteBelow, Acyclic, CountsNothingNew;
    g, more, via := f, [], via0;
    CompleteStart(g.nodes, rules, edges, y, |pad|);
    NoNewChildren(f, via, y, rules, edges, |pad|);
    NoQueue(edges, rank, g.nodes, limit);
    for id := 0 to limit
      invariant ForestOk(g, via, rules, pad) && NewChildren(f, g, via0, via, y, more, rules, edges, |pad|)
      invariant Live(g.nodes, y) && g.nodes[y].rule == f.nodes[y].rule
      invariant CompleteBelow(g.nodes, rules, edges, y, id, |pad|)
      invariant QueueWalks(edges, rank, g.nodes, more, limit) <= WalksIn(edges, rank, f.nodes[y].rule, limit, id)
    {
      if id in edges && edges[id].dst == g.nodes[y].rule {
        var e := edges[id];
        EdgeFacts(e, rules, pad);
        ghost var g0, v0, more0 := g, via, more;
        NodeFacts(g, via, rules, y, pad);
        NewChildrenHas(f, g, via0, via, y, more, rules, edges, |pad|);
        var child;
        g, child, via := AddChild(g, y, e, rules, via, pad);
        if child.Some? {
          more := more + [child.value];
          ChildrenNext(f, g0, g, via0, v0, via, y, more0, child.value, rules, edges, id, |pad|);
          AddedLive(g0, g, child.value, y);
          AddedHas2(g0, g, child.value, y);
          MoreWalks(edges, rank, g0.nodes, g.nodes, more0, child.value, e.src, limit);
          HandledNow(g0, g, rules, child.value, y, e, |pad|);
          CompleteStays(g0, g, rules, edges, child.value, y, id, |pad|);
        }
        CompleteNext(g.nodes, rules, edges, y, id, |pad|);
      } else {
        CompleteSkip(g.nodes, rules, edges, y, id, |pad|);
      }
    }
  }

  lemma CompleteStays(f: Forest, h: Forest, rules: Rules, edges: EdgeMap, x: nat, y: nat, k: nat, n: nat)
    requires NodeAdded(f, h, x, y) && y in f.nodes && x != y && CompleteBelow(f.nodes, rules, edges, y, k, n)
    ensures CompleteBelow(h.nodes, rules, edges, y, k, n)
  {
    hide HandledAt;
    forall id | id in edges && id < k && edges[id].dst == h.nodes[y].rule ensures HandledAt(h.nodes, rules, y, edges[id], n) {
      HandledStays(f, h, rules, x, y, edges[id], n);
    }
  }

  lemma CompleteNext(nodes: Nodes, rules: Rules, edges: EdgeMap, y: nat, k: nat, n: nat)
    requires CompleteBelow(nodes, rules, edges, y, k, n) && k in edges && HandledAt(nodes, rules, y, edges[k], n)
    ensures CompleteBelow(nodes, rules, edges, y, k + 1, n)
  {
    hide HandledAt;
  }

  lemma CompleteSkip(nodes: Nodes, rules: Rules, edges: EdgeMap, y: nat, k: nat, n: nat)
    requires CompleteBelow(nodes, rules, edges, y, k, n) && y in nodes && !(k in edges && edges[k].dst == nodes[y].rule)
    ensures CompleteBelow(nodes, rules, edges, y, k + 1, n)
  {
    hide HandledAt;
  }

  lemma CompleteStart(nodes: Nodes, rules: Rules, edges: EdgeMap, y: nat, n: nat)
    requires y in nodes
    ensures CompleteBelow(nodes, rules, edges, y, 0, n)
  {}

  lemma MakeEdge(id: nat, edges: EdgeMap)
    requires id in edges
    ensures IsEdge(edges[id], edges)
  {}

  lemma OnlyBelowHas(f: Forest, g: Forest, y: nat, more: seq<nat>)
    requires OnlyBelow(f, g, y, more)
    ensures (forall x | x in f.nodes :: x in g.nodes) && (forall x | x in more :: x in g.nodes) && y in g.nodes
  {}

  lemma AddedHas2(f: Forest, g: Forest, x: nat, parent: nat)
    requires NodeAdded(f, g, x, parent)
    ensures x in g.nodes && forall z | z in f.nodes :: z in g.nodes && g.nodes[z].rule == f.nodes[z].rule
  {}

  lemma NoQueue(edges: EdgeMap, rank: map<nat, nat>, nodes: Nodes, limit: nat)
    requires Acyclic(edges, rank)
    ensures QueueWalks(edges, rank, nodes, [], limit) == 0
  {}

  lemma MoreWalks(edges: EdgeMap, rank: map<nat, nat>, n0: Nodes, n1: Nodes, more: seq<nat>, x: nat, r: nat, limit: nat)
    requires Acyclic(edges, rank) && (forall z | z in more :: z in n0 && z in n1 && n1[z].rule == n0[z].rule)
    requires x in n1 && n1[x].rule == r
    ensures QueueWalks(edges, rank, n1, more + [x], limit) == QueueWalks(edges, rank, n0, more, limit) + Walks(edges, rank, r, limit)
  {
    QueueWalksSame(edges, rank, n0, n1, more, limit);
    assert (more + [x])[..|more|] == more;
  }

  // --- add_domain_path ---

  function AddDomainPath(f: Forest, source: nat, sink: nat, time: nat): Forest
    requires source in f.nodes
  {
    f.(paths := f.paths[f.nextPath := DomainPath(source, sink, ZERO, time, None)],
       nodes := f.nodes[source := f.nodes[source].(outPath := Some(f.nextPath))],
       nextPath := f.nextPath + 1)
  }

  /** New paths start at `time` and have no end. */
  ghost predicate NewPaths(f: Forest, g: Forest, time: nat)
  {
    && (forall p | p in f.paths :: p in g.paths && g.paths[p] == f.paths[p])
    && forall p | p in g.paths && p !in f.paths :: g.paths[p].startingTime == time && g.paths[p].finalTime.None?
  }

  lemma NewPathsTrans(f: Forest, g: Forest, h: Forest, time: nat)
    requires NewPaths(f, g, time) && (h.paths == g.paths || NewPaths(g, h, time))
    ensures NewPaths(f, h, time)
  {}

  lemma PathIsNew(f: Forest, source: nat, sink: nat, time: nat)
    requires source in f.nodes && f.nextPath !in f.paths
    ensures NewPaths(f, AddDomainPath(f, source, sink, time), time)
  {}

  lemma PathCounts(f: Forest, source: nat, sink: nat, time: nat)
    requires source in f.nodes && f.nextPath !in f.paths
    ensures CountsNothingNew(f, AddDomainPath(f, source, sink, time))
  {}

  /** Domains, parents, lists and times are the same. */
  predicate SameTrees(n0: Nodes, n1: Nodes)
  {
    n0.Keys == n1.Keys && forall x | x in n0 ::
      SameCore(n0[x], n1[x]) && n1[x].children == n0[x].children && n1[x].finalTime == n0[x].finalTime
  }

  lemma TreesKept(n0: Nodes, n1: Nodes, via: Vias, rules: Rules, mapping: Mapping, pad: Mask)
    requires SameTrees(n0, n1) && NodesOk(n0, via, rules, pad) && ListsOk(n0, mapping)
    ensures NodesOk(n1, via, rules, pad) && ListsOk(n1, mapping)
  {
    hide NodeAt, RulesOk, Distinct;
    forall x | x in n1 ensures NodeAt(n1, via, rules, x, pad) { NodeKept(n0, via, n1, via, rules, x, pad); }
    forall y | y in n1 ensures ChildrenAt(n1, y) { assert ChildrenAt(n0, y); }
    forall y | Live(n1, y) ensures ParentAt(n1, y) { assert ParentAt(n0, y); }
  }

  lemma PathAdded(f: Forest, via: Vias, rules: Rules, x: nat, time: nat, pad: Mask)
    requires ForestOk(f, via, rules, pad) && x in f.nodes && f.nodes[x].outPath.None?
    ensures ForestOk(AddDomainPath(f, x, f.nodes[x].root, time), via, rules, pad)
  {
    hide NodesOk, ListsOk;
    var g := AddDomainPath(f, x, f.nodes[x].root, time);
    assert SameTrees(f.nodes, g.nodes);
    TreesKept(f.nodes, g.nodes, via, rules, f.mapping, pad);
  }

  // --- add_subtree ---

  predicate HasPath(f: Forest, x: nat)
    requires x in f.nodes
  {
    f.nodes[x].outPath.Some? && f.nodes[x].outPath.value in f.paths && f.paths[f.nodes[x].outPath.value].source == x
  }

  /** Nothing is missing below x: a source has its path, another node its children. */
  ghost predicate Done(f: Forest, rules: Rules, edges: EdgeMap, limit: nat, x: nat, n: nat)
  {
    && x in f.nodes && f.nodes[x].rule in rules
    && if rules[f.nodes[x].rule].kind == Source then HasPath(f, x)
       else f.nodes[x].outPath.None? && CompleteBelow(f.nodes, rules, edges, x, limit, n)
  }

  predicate IsNew(f: Forest, g: Forest, root: nat, x: nat)
  {
    x in g.nodes && (x !in f.nodes || x == root)
  }

  /** The state of the walk: new nodes are in the queue, untouched, or done. */
  ghost predicate Growing(f: Forest, g: Forest, root: nat, queue: seq<nat>, rules: Rules, edges: EdgeMap, limit: nat, n: nat)
  {
    && root in f.nodes && root in g.nodes && SameCore(f.nodes[root], g.nodes[root])
    && Distinct(queue) && (forall x | x in queue :: IsNew(f, g, root, x) && Fresh(g.nodes, x))
    && (forall x | IsNew(f, g, root, x) && x !in queue :: Done(g, rules, edges, limit, x, n))
    && (forall x | x in f.nodes && x != root :: x in g.nodes && g.nodes[x] == f.nodes[x])
    && forall p | p in f.paths :: p in g.paths && g.paths[p] == f.paths[p]
  }

  lemma HandledKept(n0: Nodes, n1: Nodes, rules: Rules, x: nat, e: Edge, n: nat)
    requires HandledAt(n0, rules, x, e, n) && x in n1 && n1[x] == n0[x]
    requires forall c | c in n0 :: c in n1 && n1[c].rule == n0[c].rule
    ensures HandledAt(n1, rules, x, e, n)
  {
    hide NoPreimage;
    if HasChild(n0, x, e.src) {
      var c :| c in n0[x].children && c in n0 && n0[c].rule == e.src;
      assert HasChild(n1, x, e.src);
    }
  }

  lemma DoneStays(g: Forest, h: Forest, rules: Rules, edges: EdgeMap, limit: nat, x: nat, n: nat)
    requires Done(g, rules, edges, limit, x, n) && x in h.nodes && h.nodes[x] == g.nodes[x]
    requires forall c | c in g.nodes :: c in h.nodes && h.nodes[c].rule == g.nodes[c].rule
    requires forall p | p in g.paths :: p in h.paths && h.paths[p] == g.paths[p]
    ensures Done(h, rules, edges, limit, x, n)
  {
    hide NoPreimage;
    if rules[g.nodes[x].rule].kind != Source {
      forall id | id in edges && id < limit && edges[id].dst == h.nodes[x].rule ensures HandledAt(h.nodes, rules, x, edges[id], n) {
        HandledKept(g.nodes, h.nodes, rules, x, edges[id], n);
      }
    }
  }

  lemma GrowChildren(f: Forest, g: Forest, h: Forest, root: nat, queue: seq<nat>, more: seq<nat>, rules: Rules, edges: EdgeMap, limit: nat, n: nat)
    requires queue != [] && Growing(f, g, root, queue, rules, edges, limit, n) && OnlyBelow(g, h, queue[0], more)
    requires g.nodes[queue[0]].rule in rules && rules[g.nodes[queue[0]].rule].kind != Source
    requires CompleteBelow(h.nodes, rules, edges, queue[0], limit, n)
    ensures Growing(f, h, root, queue[1..] + more, rules, edges, limit, n)
  {
    hide CompleteBelow, Done;
    var y, rest := queue[0], queue[1..];
    assert queue == [y] + rest && y in queue && IsNew(f, g, root, y);
    assert forall x | x in queue :: IsNew(f, g, root, x);
    QueueJoin(queue, more);
    assert forall x | x in f.nodes :: x in g.nodes;
    forall x | x in rest + more ensures IsNew(f, h, root, x) && Fresh(h.nodes, x) {
      if x in queue { assert IsNew(f, g, root, x) && h.nodes[x] == g.nodes[x]; }
    }
    forall x | IsNew(f, h, root, x) && x !in rest + more ensures Done(h, rules, edges, limit, x, n) {
      if x == y {
        CompleteIsDone(h, rules, edges, limit, y, n);
      } else {
        assert x in g.nodes;
        DoneStays(g, h, rules, edges, limit, x, n);
      }
    }
  }

  lemma CompleteIsDone(h: Forest, rules: Rules, edges: EdgeMap, limit: nat, y: nat, n: nat)
    requires CompleteBelow(h.nodes, rules, edges, y, limit, n)
    requires h.nodes[y].rule in rules && rules[h.nodes[y].rule].kind != Source && h.nodes[y].outPath.None?
    ensures Done(h, rules, edges, limit, y, n)
  {}

  lemma GrowPath(f: Forest, g: Forest, root: nat, queue: seq<nat>, sink: nat, time: nat, rules: Rules, edges: EdgeMap, limit: nat, n: nat)
    requires queue != [] && queue[0] in g.nodes && Growing(f, g, root, queue, rules, edges, limit, n)
    requires g.nodes[queue[0]].rule in rules && rules[g.nodes[queue[0]].rule].kind == Source && g.nextPath !in g.paths
    ensures Growing(f, AddDomainPath(g, queue[0], sink, time), root, queue[1..], rules, edges, limit, n)
  {
    hide CompleteBelow, Done;
    var y, rest, h := queue[0], queue[1..], AddDomainPath(g, queue[0], sink, time);
    QueueJoin(queue, []);
    assert rest + [] == rest && y in queue && IsNew(f, g, root, y);
    forall x | x in rest ensures IsNew(f, h, root, x) && Fresh(h.nodes, x) {
      assert x in queue && IsNew(f, g, root, x) && h.nodes[x] == g.nodes[x];
    }
    forall x | IsNew(f, h, root, x) && x !in rest ensures Done(h, rules, edges, limit, x, n) {
      if x == y {
        PathIsDone(h, rules, edges, limit, y, n);
      } else {
        assert x in g.nodes;
        DoneStays(g, h, rules, edges, limit, x, n);
      }
    }
  }

  lemma PathIsDone(h: Forest, rules: Rules, edges: EdgeMap, limit: nat, y: nat, n: nat)
    requires y in h.nodes && HasPath(h, y) && h.nodes[y].rule in rules && rules[h.nodes[y].rule].kind == Source
    ensures Done(h, rules, edges, limit, y, n)
  {}

  lemma QueueShrinks(edges: EdgeMap, rank: map<nat, nat>, n0: Nodes, n1: Nodes, queue: seq<nat>, more: seq<nat>, limit: nat)
    requires Acyclic(edges, rank) && queue != [] && queue[0] in n0
    requires forall x | x in queue :: x in n0 && x in n1 && n1[x].rule == n0[x].rule
    requires QueueWalks(edges, rank, n1, more, limit) <= WalksIn(edges, rank, n0[queue[0]].rule, limit, limit)
    ensures QueueWalks(edges, rank, n1, queue[1..] + more, limit) < QueueWalks(edges, rank, n0, queue, limit)
  {
    var y, rest := queue[0], queue[1..];
    assert queue == [y] + rest;
    QueueWalksConcat(edges, rank, n0, [y], rest, limit);
    QueueWalksConcat(edges, rank, n1, rest, more, limit);
    QueueWalksSame(edges, rank, n0, n1, rest, limit);
    assert [y][..0] == [];
  }

  lemma StartGrowing(f: Forest, root: nat, rules: Rules, edges: EdgeMap, limit: nat, n: nat)
    requires root in f.nodes && Fresh(f.nodes, root)
    ensures Growing(f, f, root, [root], rules, edges, limit, n)
  {}

  lemma GrowingFirst(f: Forest, g: Forest, via: Vias, root: nat, queue: seq<nat>, rules: Rules, edges: EdgeMap, limit: nat, pad: Mask)
    requires queue != [] && Growing(f, g, root, queue, rules, edges, limit, |pad|) && ForestOk(g, via, rules, pad)
    ensures queue[0] in g.nodes && Fresh(g.nodes, queue[0]) && g.nodes[queue[0]].rule in rules && Live(g.nodes, queue[0])
    ensures g.nextPath !in g.paths && (forall x | x in queue :: x in g.nodes) && forall x | x in f.nodes :: x in g.nodes
  {
    hide NodesOk, ListsOk;
    assert queue[0] in queue;
    NodeFacts(g, via, rules, queue[0], pad);
  }

  /** add_subtree(): the queue holds nodes whose children are still to be added. */
  method AddSubtree(f: Forest, root: nat, rules: Rules, edges: EdgeMap, limit: nat, time: nat,
                    ghost via0: Vias, ghost rank: map<nat, nat>, pad: Mask)
    returns (g: Forest, ghost via: Vias)
    requires ForestOk(f, via0, rules, pad) && root in f.nodes && Fresh(f.nodes, root) && Acyclic(edges, rank)
    requires EdgesOk(edges, limit, rules, pad)
    ensures ForestOk(g, via, rules, pad) && Growing(f, g, root, [], rules, edges, limit, |pad|) && CountsNothingNew(f, g)
    ensures NewPaths(f, g, time)
    ensures forall x | x in f.nodes && x in via0 :: x in via && via[x] == via0[x]
    ensures forall x | x in g.nodes && x !in f.nodes :: FirstVia(g.nodes, via, rules, edges, x, |pad|)
  {
    hide NewChildren, FirstVia, NewPaths, ForestOk, EdgesOk, Growing, OnlyBelow, Grows, IsEdge, CompleteBelow, Acyclic, QueueWalks, Walks, WalksIn, Fresh, CountsNothingNew;
    g, via := f, via0;
    CountsSelf(f);
    NoNewPaths(f, time);
    var queue := [root];
    StartGrowing(f, root, rules, edges, limit, |pad|);
    while queue != []
      invariant ForestOk(g, via, rules, pad) && Growing(f, g, root, queue, rules, edges, limit, |pad|) && CountsNothingNew(f, g)
      invariant NewPaths(f, g, time)
      invariant forall x | x in f.nodes && x in via0 :: x in via && via[x] == via0[x]
      invariant forall x | x in g.nodes && x !in f.nodes :: FirstVia(g.nodes, via, rules, edges, x, |pad|)
      decreases QueueWalks(edges, rank, g.nodes, queue, limit)
    {
      ghost var g0, v0, queue0 := g, via, queue;
      GrowingFirst(f, g, via, root, queue, rules, edges, limit, pad);
      var y := queue[0];
      if rules[g.nodes[y].rule].kind != Source {
        var more;
        g, more, via := AddChildren(g, y, rules, edges, limit, via, rank, pad);
        NewChildrenFacts(g0, g, v0, via, y, more, rules, edges, |pad|);
        OnlyBelowAll(g0, g, y, more);
        GrowChildren(f, g0, g, root, queue0, more, rules, edges, limit, |pad|);
        QueueShrinks(edges, rank, g0.nodes, g.nodes, queue0, more, limit);
        ViasGrow(f, g0, g, via0, v0, via, more, rules, edges, |pad|);
        queue := queue[1..] + more;
      } else {
        GrowPath(f, g, root, queue, g.nodes[y].root, time, rules, edges, limit, |pad|);
        FreshHasNoPath(g.nodes, y);
        PathAdded(g, via, rules, y, time, pad);
        PathCounts(g, y, g.nodes[y].root, time);
        PathIsNew(g, y, g.nodes[y].root, time);
        PathKeepsCore(g, y, g.nodes[y].root, time);
        g := AddDomainPath(g, y, g.nodes[y].root, time);
        ViasGrow(f, g0, g, via0, v0, via, [], rules, edges, |pad|);
        NoQueueLess(edges, rank, g0.nodes, g.nodes, queue, limit);
        queue := queue[1..];
      }
      CountsTrans(f, g0, g);
      NewPathsTrans(f, g0, g, time);
    }
  }

  lemma NoNewPaths(f: Forest, time: nat)
    ensures NewPaths(f, f, time)
  {}

  lemma FreshHasNoPath(nodes: Nodes, x: nat)
    requires x in nodes && Fresh(nodes, x)
    ensures nodes[x].outPath.None?
  {}

  lemma NoQueueLess(edges: EdgeMap, rank: map<nat, nat>, n0: Nodes, n1: Nodes, queue: seq<nat>, limit: nat)
    requires Acyclic(edges, rank) && queue != [] && forall x | x in queue :: x in n0 && x in n1 && n1[x].rule == n0[x].rule
    ensures QueueWalks(edges, rank, n1, queue[1..], limit) < QueueWalks(edges, rank, n0, queue, limit)
  {
    assert queue[1..] + [] == queue[1..];
    NoQueue(edges, rank, n1, limit);
    QueueShrinks(edges, rank, n0, n1, queue, [], limit);
  }

  lemma PathKeepsCore(f: Forest, source: nat, sink: nat, time: nat)
    requires source in f.nodes
    ensures AddDomainPath(f, source, sink, time).nodes.Keys == f.nodes.Keys
    ensures forall x | x in f.nodes :: SameCore(f.nodes[x], AddDomainPath(f, source, sink, time).nodes[x])
  {}

  lemma NewChildrenFacts(f: Forest, g: Forest, v0: Vias, v1: Vias, y: nat, more: seq<nat>, rules: Rules, edges: EdgeMap, n: nat)
    requires NewChildren(f, g, v0, v1, y, more, rules, edges, n)
    ensures OnlyBelow(f, g, y, more) && CountsNothingNew(f, g)
    ensures forall x | x in f.nodes && x in v0 :: x in v1 && v1[x] == v0[x]
    ensures forall x | x in more :: FirstVia(g.nodes, v1, rules, edges, x, n)
  {
    hide FirstVia, CountsNothingNew, OnlyBelow;
  }

  lemma OnlyBelowAll(g: Forest, h: Forest, y: nat, more: seq<nat>)
    requires OnlyBelow(g, h, y, more)
    ensures forall x | x in g.nodes :: x in h.nodes && SameCore(g.nodes[x], h.nodes[x])
    ensures forall x | x in h.nodes && x !in g.nodes :: x in more
    ensures h.paths == g.paths
  {}

  lemma ViasGrow(f: Forest, g: Forest, h: Forest, via0: Vias, v1: Vias, v2: Vias, more: seq<nat>, rules: Rules, edges: EdgeMap, n: nat)
    requires forall x | x in f.nodes && x in via0 :: x in v1 && v1[x] == via0[x]
    requires forall x | x in g.nodes && x !in f.nodes :: FirstVia(g.nodes, v1, rules, edges, x, n)
    requires forall x | x in g.nodes && x in v1 :: x in v2 && v2[x] == v1[x]
    requires (forall x | x in more :: FirstVia(h.nodes, v2, rules, edges, x, n)) && forall x | x in h.nodes && x !in g.nodes :: x in more
    requires (forall x | x in f.nodes :: x in g.nodes) && forall x | x in g.nodes :: x in h.nodes && SameCore(g.nodes[x], h.nodes[x])
    ensures forall x | x in f.nodes && x in via0 :: x in v2 && v2[x] == via0[x]
    ensures forall x | x in h.nodes && x !in f.nodes :: FirstVia(h.nodes, v2, rules, edges, x, n)
  {
    hide FirstVia, SameCore;
    forall x | x in h.nodes && x !in f.nodes ensures FirstVia(h.nodes, v2, rules, edges, x, n) {
      if x in g.nodes {
        FirstIsEdge(g.nodes, v1, rules, edges, x, n);
        FirstKept(g.nodes, v1, h.nodes, v2, rules, edges, x, n);
      }
    }
  }
}
