/** The forest over the dependency graph: add_subtrees, delete_subtrees and
    process_path_query of src/flow_predictor/FlowPredictor.cpp. */
module FlowPredictors {
  import opened Options
  import opened Sequences
  import opened Masks
  import opened HeaderLists
  import opened NetworkSpaces
  import opened Tables
  import opened Edges
  import opened Forests
  import opened ForestGrowth
  import opened SubtreeGrowth
  import opened SubtreeRemoval
  import opened PathCounters
  import opened Coverings

  /** The nodes that f has not are done in g. */
  ghost predicate NewDone(f: Forest, g: Forest, rules: Rules, edges: EdgeMap, limit: nat, n: nat)
  {
    forall x | x in g.nodes && x !in f.nodes :: Done(g, rules, edges, limit, x, n)
  }

  /** Nodes of f other than y are the same in g, paths too. */
  ghost predicate OnlyChanges(f: Forest, g: Forest, y: nat)
  {
    && (forall x | x in f.nodes :: x in g.nodes && g.nodes[x].rule == f.nodes[x].rule && g.nodes[x].finalTime == f.nodes[x].finalTime
                                   && g.nodes[x].outPath == f.nodes[x].outPath && (x != y ==> g.nodes[x] == f.nodes[x]))
    && forall p | p in f.paths :: p in g.paths && g.paths[p] == f.paths[p]
  }

  /** Nodes of f keep their children; those of rule e.dst may have got one more, of rule e.src. */
  ghost predicate Grafted(f: Forest, g: Forest, e: Edge)
  {
    forall z | z in f.nodes :: z in g.nodes && (g.nodes[z].children == f.nodes[z].children || GraftedAt(f, g, e, z))
  }

  ghost predicate GraftedAt(f: Forest, g: Forest, e: Edge, z: nat)
    requires z in f.nodes && z in g.nodes
  {
    f.nodes[z].rule == e.dst &&
    exists c :: c in g.nodes && c !in f.nodes && g.nodes[c].rule == e.src && g.nodes[z].children == f.nodes[z].children + [c]
  }

  /** x grew along e, or along the first edge with a preimage. */
  ghost predicate GrewAlong(g: Forest, via: Vias, rules: Rules, edges: EdgeMap, e: Edge, x: nat, n: nat)
    requires x in g.nodes
  {
    || (x in via && via[x] == e && g.nodes[x].parent in g.nodes && g.nodes[g.nodes[x].parent].rule == e.dst)
    || FirstVia(g.nodes, via, rules, edges, x, n)
  }

  ghost predicate GrownFirst(f: Forest, g: Forest, via: Vias, rules: Rules, edges: EdgeMap, e: Edge, n: nat)
  {
    forall x | x in g.nodes && x !in f.nodes && g.nodes[x].parent != x :: GrewAlong(g, via, rules, edges, e, x, n)
  }

  lemma GrownNext(f: Forest, g: Forest, h: Forest, v1: Vias, v2: Vias, rules: Rules, edges: EdgeMap, e: Edge, n: nat)
    requires GrownFirst(f, g, v1, rules, edges, e, n) && GrownFirst(g, h, v2, rules, edges, e, n) && CountsNothingNew(g, h)
    requires forall x | x in g.nodes && x in v1 :: x in v2 && v2[x] == v1[x]
    ensures GrownFirst(f, h, v2, rules, edges, e, n)
  {
    hide FirstVia;
    forall x | x in h.nodes && x !in f.nodes && h.nodes[x].parent != x ensures GrewAlong(h, v2, rules, edges, e, x, n) {
      if x in g.nodes {
        assert SameCore(g.nodes[x], h.nodes[x]) && GrewAlong(g, v1, rules, edges, e, x, n);
        if FirstVia(g.nodes, v1, rules, edges, x, n) {
          FirstIsEdge(g.nodes, v1, rules, edges, x, n);
          FirstKept(g.nodes, v1, h.nodes, v2, rules, edges, x, n);
        }
      }
    }
  }

  lemma NewDoneStart(f: Forest, rules: Rules, edges: EdgeMap, limit: nat, n: nat)
    ensures NewDone(f, f, rules, edges, limit, n) && SameLives(f, f)
  {}

  lemma NewDoneStays(f: Forest, g: Forest, h: Forest, y: nat, rules: Rules, edges: EdgeMap, limit: nat, n: nat)
    requires NewDone(f, g, rules, edges, limit, n) && OnlyChanges(g, h, y) && y in f.nodes
    requires forall x | x in h.nodes && x !in g.nodes :: Done(h, rules, edges, limit, x, n)
    ensures NewDone(f, h, rules, edges, limit, n)
  {
    hide Done;
    forall x | x in h.nodes && x !in f.nodes ensures Done(h, rules, edges, limit, x, n) {
      if x in g.nodes { DoneStays(g, h, rules, edges, limit, x, n); }
    }
  }

  lemma SourcesStay(f: Forest, g: Forest, y: nat, rules: Rules, edges: EdgeMap, limit: nat, n: nat)
    requires SourcesHavePaths(f, rules) && OnlyChanges(f, g, y)
    requires forall x | x in g.nodes && x !in f.nodes :: Done(g, rules, edges, limit, x, n)
    ensures SourcesHavePaths(g, rules)
  {
    hide CompleteBelow;
    forall x | Live(g.nodes, x) && g.nodes[x].rule in rules
      ensures if rules[g.nodes[x].rule].kind == Source then HasPathAt(g, x) else g.nodes[x].outPath.None?
    {
      if x in f.nodes { assert Live(f.nodes, x); } else { assert Done(g, rules, edges, limit, x, n); }
    }
  }

  lemma ViasStay(f: Forest, g: Forest, y: nat, v0: Vias, v1: Vias, edges: EdgeMap)
    requires ViasFrom(f.nodes, v0, edges) && OnlyChanges(f, g, y)
    requires (forall x | x in f.nodes && x in v0 :: x in v1 && v1[x] == v0[x]) && forall x | x in f.nodes :: g.nodes[x].parent == f.nodes[x].parent
    requires forall x | x in g.nodes && x !in f.nodes :: x in v1 && IsEdge(v1[x], edges)
    ensures ViasFrom(g.nodes, v1, edges)
  {
    hide IsEdge;
    forall x | Live(g.nodes, x) && g.nodes[x].parent != x ensures x in v1 && IsEdge(v1[x], edges) {
      if x in f.nodes { assert Live(f.nodes, x); }
    }
  }

  /** What holds of the forest between the operations. */
  ghost predicate PredictorOk(f: Forest, via: Vias, rules: Rules, edges: EdgeMap, pad: Mask)
  {
    ForestOk(f, via, rules, pad) && SourcesHavePaths(f, rules) && ViasFrom(f.nodes, via, edges)
  }

  /** One node of the edge's destination: a child for the edge, and the subtree below it. */
  method AddBelow(f: Forest, y: nat, e: Edge, rules: Rules, edges: EdgeMap, limit: nat, time: nat,
                  ghost via0: Vias, ghost rank: map<nat, nat>, pad: Mask)
    returns (g: Forest, ghost via: Vias)
    requires PredictorOk(f, via0, rules, edges, pad) && Live(f.nodes, y) && Acyclic(edges, rank) && EdgesOk(edges, limit, rules, pad)
    requires IsEdge(e, edges) && e.dst == f.nodes[y].rule
    ensures PredictorOk(g, via, rules, edges, pad) && CountsNothingNew(f, g) && OnlyChanges(f, g, y) && NewPaths(f, g, time)
    ensures HandledAt(g.nodes, rules, y, e, |pad|) && Grafted(f, g, e) && GrownFirst(f, g, via, rules, edges, e, |pad|)
    ensures forall x | x in f.nodes && x in via0 :: x in via && via[x] == via0[x]
    ensures forall x | x in g.nodes && x !in f.nodes :: Done(g, rules, edges, limit, x, |pad|)
  {
    hide Grafted, GrownFirst, FirstVia, NewPaths, ForestOk, SourcesHavePaths, ViasFrom, CountsNothingNew, Grows, Handled, HandledAt, Done, Growing, NodeAdded, EdgesOk, Acyclic, IsEdge, EdgeOk, OnlyChanges;
    IsEdgeOk(e, edges, limit, rules, pad);
    var child;
    g, child, via := AddChild(f, y, e, rules, via0, pad);
    NothingChanges(f, y);
    NothingGrafted(f, e);
    NothingGrown(f, via, rules, edges, e, |pad|);
    NoNewPaths(f, time);
    if child.Some? {
      ghost var g1, v1 := g, via;
      AddedFresh(f, g1, child.value, y);
      NewPathsTrans(f, f, g1, time);
      g, via := AddSubtree(g, child.value, rules, edges, limit, time, via, rank, pad);
      CountsTrans(f, g1, g);
      NewPathsTrans(f, g1, g, time);
      BelowChanges(f, g1, g, child.value, y, e, via0, v1, via, rules, edges, limit, |pad|);
      BelowGrown(f, g1, g, child.value, y, e, v1, via, rules, edges, limit, |pad|);
      ChildGrafted(f, g1, g, child.value, y, e, rules, edges, limit, |pad|);
      SourcesStay(f, g, y, rules, edges, limit, |pad|);
      ViasStay(f, g, y, via0, via, edges);
    } else {
      HandledSame(f, rules, y, e, |pad|);
      ViasStay(f, g, y, via0, via, edges);
    }
  }

  lemma HandledSame(f: Forest, rules: Rules, y: nat, e: Edge, n: nat)
    requires y in f.nodes && e.src in rules && Handled(f.nodes, rules, y, e, n)
    ensures HandledAt(f.nodes, rules, y, e, n)
  {
    hide Handled;
  }

  lemma NothingChanges(f: Forest, y: nat)
    ensures OnlyChanges(f, f, y)
  {}

  lemma NothingGrafted(f: Forest, e: Edge)
    ensures Grafted(f, f, e)
  {}

  lemma NothingGrown(f: Forest, via: Vias, rules: Rules, edges: EdgeMap, e: Edge, n: nat)
    ensures GrownFirst(f, f, via, rules, edges, e, n)
  {}

  lemma ChildGrafted(f: Forest, g: Forest, h: Forest, x: nat, y: nat, e: Edge, rules: Rules, edges: EdgeMap, limit: nat, n: nat)
    requires NodeAdded(f, g, x, y) && x != y && y in f.nodes && f.nodes[y].rule == e.dst && g.nodes[x].rule == e.src
    requires Growing(g, h, x, [], rules, edges, limit, n)
    ensures Grafted(f, h, e)
  {
    hide Done;
    assert h.nodes[y].children == f.nodes[y].children + [x] && GraftedAt(f, h, e, y);
  }

  /** A new root is no node of f. */
  lemma RootGrafted(f: Forest, r: Rule, pad: Mask, e: Edge)
    requires f.nextNode !in f.nodes
    ensures Grafted(f, AddRootNode(f, r, pad), e)
    ensures forall z | z in f.nodes :: z in AddRootNode(f, r, pad).nodes && AddRootNode(f, r, pad).nodes[z].children == f.nodes[z].children
  {}

  lemma RootGrown(f: Forest, r: Rule, via: Vias, rules: Rules, edges: EdgeMap, e: Edge, pad: Mask)
    requires f.nextNode !in f.nodes
    ensures GrownFirst(f, AddRootNode(f, r, pad), via, rules, edges, e, |pad|)
  {}

  lemma GraftedNext(f: Forest, g: Forest, h: Forest, e: Edge, y: nat)
    requires Grafted(f, g, e) && OnlyChanges(g, h, y) && Grafted(g, h, e) && SameLives(f, g)
    requires y in f.nodes ==> g.nodes[y].children == f.nodes[y].children
    ensures Grafted(f, h, e)
  {
    forall z | z in f.nodes ensures z in h.nodes && (h.nodes[z].children == f.nodes[z].children || GraftedAt(f, h, e, z)) {
      if z == y {
        assert h.nodes[z].children != g.nodes[z].children ==> GraftedAt(g, h, e, z);
      } else if g.nodes[z].children != f.nodes[z].children {
        var c :| c in g.nodes && c !in f.nodes && g.nodes[c].rule == e.src && g.nodes[z].children == f.nodes[z].children + [c];
        assert h.nodes[z] == g.nodes[z] && h.nodes[c].rule == e.src;
      }
    }
  }

  /** Each of the nodes is worked on once; those still to come are as they were. */
  ghost predicate Grafting(f: Forest, g: Forest, e: Edge, dsts: seq<nat>, i: nat)
  {
    && Grafted(f, g, e) && Distinct(dsts)
    && forall k | i <= k < |dsts| && dsts[k] in f.nodes :: dsts[k] in g.nodes && g.nodes[dsts[k]].children == f.nodes[dsts[k]].children
  }

  lemma GraftingStart(f: Forest, g: Forest, via: Vias, rules: Rules, e: Edge, pad: Mask)
    requires ForestOk(g, via, rules, pad) && e.dst in g.mapping && Grafted(f, g, e)
    requires forall z | z in f.nodes :: z in g.nodes && g.nodes[z].children == f.nodes[z].children
    ensures Grafting(f, g, e, g.mapping[e.dst], 0)
  {
    hide NodesOk, PathsOk, Distinct, Grafted;
  }

  lemma GraftingNext(f: Forest, g: Forest, h: Forest, e: Edge, dsts: seq<nat>, i: nat)
    requires i < |dsts| && Grafting(f, g, e, dsts, i) && OnlyChanges(g, h, dsts[i]) && Grafted(g, h, e) && SameLives(f, g)
    ensures Grafting(f, h, e, dsts, i + 1)
  {
    hide GraftedAt;
    GraftedNext(f, g, h, e, dsts[i]);
  }

  lemma GraftingEnd(f: Forest, g: Forest, e: Edge, dsts: seq<nat>, i: nat)
    requires Grafting(f, g, e, dsts, i)
    ensures Grafted(f, g, e)
  {}

  lemma IsEdgeOk(e: Edge, edges: EdgeMap, limit: nat, rules: Rules, pad: Mask)
    requires IsEdge(e, edges) && EdgesOk(edges, limit, rules, pad)
    ensures EdgeOk(e, rules, pad) && e.src in rules && e.dst in rules
  {
    hide IsTransfer, IsDomain;
  }

  lemma AddedFresh(f: Forest, g: Forest, x: nat, y: nat)
    requires NodeAdded(f, g, x, y) && g.nodes[x].outPath.None?
    ensures x in g.nodes && x !in f.nodes && Fresh(g.nodes, x) && g.paths == f.paths
  {}

  lemma BelowChanges(f: Forest, g: Forest, h: Forest, x: nat, y: nat, e: Edge, via0: Vias, v1: Vias, v2: Vias,
                     rules: Rules, edges: EdgeMap, limit: nat, n: nat)
    requires NodeAdded(f, g, x, y) && x != y && y in f.nodes && e.src in rules && g.nodes[x].rule == e.src
    requires Growing(g, h, x, [], rules, edges, limit, n) && IsEdge(e, edges)
    requires (forall z | z in f.nodes && z in via0 :: z in v1 && v1[z] == via0[z]) && x in v1 && v1[x] == e
    requires (forall z | z in g.nodes && z in v1 :: z in v2 && v2[z] == v1[z])
    requires forall z | z in h.nodes && z !in g.nodes :: FirstVia(h.nodes, v2, rules, edges, z, n)
    ensures OnlyChanges(f, h, y) && HandledAt(h.nodes, rules, y, e, n)
    ensures forall z | z in h.nodes && z !in f.nodes :: Done(h, rules, edges, limit, z, n)
    ensures forall z | z in f.nodes && z in via0 :: z in v2 && v2[z] == via0[z]
    ensures forall z | z in f.nodes :: h.nodes[z].parent == f.nodes[z].parent
    ensures forall z | z in h.nodes && z !in f.nodes :: z in v2 && IsEdge(v2[z], edges)
  {
    hide Done, IsEdge, NoPreimage, FirstVia;
    HandledNow(f, g, rules, x, y, e, n);
    forall c | c in g.nodes ensures c in h.nodes && h.nodes[c].rule == g.nodes[c].rule {}
    HandledKept(g.nodes, h.nodes, rules, y, e, n);
    forall z | z in h.nodes && z !in f.nodes ensures Done(h, rules, edges, limit, z, n) && z in v2 && IsEdge(v2[z], edges) {
      assert IsNew(g, h, x, z);
      if z != x { FirstIsEdge(h.nodes, v2, rules, edges, z, n); }
    }
  }

  lemma BelowGrown(f: Forest, g: Forest, h: Forest, x: nat, y: nat, e: Edge, v1: Vias, v2: Vias,
                   rules: Rules, edges: EdgeMap, limit: nat, n: nat)
    requires NodeAdded(f, g, x, y) && x != y && y in f.nodes && f.nodes[y].rule == e.dst
    requires Growing(g, h, x, [], rules, edges, limit, n) && x in v1 && v1[x] == e
    requires forall z | z in g.nodes && z in v1 :: z in v2 && v2[z] == v1[z]
    requires forall z | z in h.nodes && z !in g.nodes :: FirstVia(h.nodes, v2, rules, edges, z, n)
    ensures GrownFirst(f, h, v2, rules, edges, e, n)
  {
    hide Done, FirstVia;
    assert h.nodes[x].parent == y && h.nodes[y].rule == e.dst;
  }

  // --- add_subtrees ---

  /** The nodes of the edge's destination, on which add_subtrees works. */
  ghost predicate Targets(f: Forest, g: Forest, dsts: seq<nat>, dst: nat)
  {
    forall y | y in dsts :: y in f.nodes && Live(g.nodes, y) && g.nodes[y].rule == dst
  }

  lemma TargetsStay(f: Forest, g: Forest, h: Forest, dsts: seq<nat>, dst: nat, y: nat)
    requires Targets(f, g, dsts, dst) && OnlyChanges(g, h, y)
    ensures Targets(f, h, dsts, dst)
  {}

  lemma TargetsStart(f: Forest, via: Vias, rules: Rules, dst: nat, pad: Mask)
    requires ForestOk(f, via, rules, pad) && dst in f.mapping
    ensures Targets(f, f, f.mapping[dst], dst)
  {
    hide NodesOk, PathsOk, Distinct;
  }

  lemma HandledStill(g: Forest, h: Forest, rules: Rules, dsts: seq<nat>, i: nat, e: Edge, n: nat, f: Forest)
    requires i < |dsts| && OnlyChanges(g, h, dsts[i]) && Targets(f, g, dsts, e.dst)
    requires forall y | y in dsts[..i] :: HandledAt(g.nodes, rules, y, e, n)
    requires HandledAt(h.nodes, rules, dsts[i], e, n)
    ensures forall y | y in dsts[..i + 1] :: HandledAt(h.nodes, rules, y, e, n)
  {
    hide HandledAt;
    assert dsts[..i + 1] == dsts[..i] + [dsts[i]];
    forall y | y in dsts[..i + 1] ensures HandledAt(h.nodes, rules, y, e, n) {
      if y != dsts[i] {
        assert y in dsts[..i] && y in dsts;
        HandledKept(g.nodes, h.nodes, rules, y, e, n);
      }
    }
  }

  lemma RootsStart(f: Forest, via: Vias, rules: Rules, r: Rule, edges: EdgeMap, pad: Mask)
    requires PredictorOk(f, via, rules, edges, pad) && r.id in rules && rules[r.id] == r && r.kind == Sink && r.id !in f.mapping
    ensures PredictorOk(AddRootNode(f, r, pad), via, rules, edges, pad) && CountsNothingNew(f, AddRootNode(f, r, pad))
    ensures forall x | x in AddRootNode(f, r, pad).nodes && x !in f.nodes :: x == f.nextNode && AddRootNode(f, r, pad).nodes[x].rule == r.id
  {
    hide NodeAt, ListsOk, PathsOk, Grows, IsEdge, CountsNothingNew, PortTransfer, RulesOk;
    RootAdded(f, via, rules, r, pad);
    FreshId(f, via, rules, pad);
    RootIsAdded(f, r, pad);
    AddedCounts(f, AddRootNode(f, r, pad), f.nextNode, f.nextNode);
  }

  lemma FreshId(f: Forest, via: Vias, rules: Rules, pad: Mask)
    requires ForestOk(f, via, rules, pad)
    ensures f.nextNode !in f.nodes && forall r | r in rules :: rules[r].id == r
  {
    hide NodeAt, ListsOk, PathsOk;
  }

  /** The first i of the nodes have been worked on since f. */
  ghost predicate Walked(f: Forest, g: Forest, dsts: seq<nat>, i: nat, e: Edge, rules: Rules, edges: EdgeMap, limit: nat, n: nat)
  {
    && i <= |dsts| && Targets(f, g, dsts, e.dst) && NewDone(f, g, rules, edges, limit, n) && SameLives(f, g)
    && forall y | y in dsts[..i] :: HandledAt(g.nodes, rules, y, e, n)
  }

  lemma WalkedStart(f: Forest, via: Vias, e: Edge, rules: Rules, edges: EdgeMap, limit: nat, pad: Mask)
    requires ForestOk(f, via, rules, pad) && e.dst in f.mapping
    ensures Walked(f, f, f.mapping[e.dst], 0, e, rules, edges, limit, |pad|)
  {
    hide ForestOk, Targets, NewDone, SameLives, HandledAt;
    TargetsStart(f, via, rules, e.dst, pad);
    NewDoneStart(f, rules, edges, limit, |pad|);
  }

  lemma WalkedNext(f: Forest, g: Forest, h: Forest, dsts: seq<nat>, i: nat, e: Edge, rules: Rules, edges: EdgeMap, limit: nat, n: nat)
    requires i < |dsts| && Walked(f, g, dsts, i, e, rules, edges, limit, n) && OnlyChanges(g, h, dsts[i])
    requires HandledAt(h.nodes, rules, dsts[i], e, n)
    requires forall x | x in h.nodes && x !in g.nodes :: Done(h, rules, edges, limit, x, n)
    ensures Walked(f, h, dsts, i + 1, e, rules, edges, limit, n)
  {
    hide Targets, NewDone, SameLives, HandledAt, OnlyChanges, Done;
    TargetFacts(f, g, dsts, e.dst, i);
    TargetsStay(f, g, h, dsts, e.dst, dsts[i]);
    NewDoneStays(f, g, h, dsts[i], rules, edges, limit, n);
    HandledStill(g, h, rules, dsts, i, e, n, f);
    SameLivesStep(f, g, h, dsts[i]);
  }

  lemma WalkedFacts(f: Forest, g: Forest, dsts: seq<nat>, i: nat, e: Edge, rules: Rules, edges: EdgeMap, limit: nat, n: nat)
    requires Walked(f, g, dsts, i, e, rules, edges, limit, n)
    ensures i < |dsts| ==> Live(g.nodes, dsts[i]) && g.nodes[dsts[i]].rule == e.dst
    ensures NewDone(f, g, rules, edges, limit, n) && SameLives(f, g)
    ensures i == |dsts| ==> forall y | y in dsts :: HandledAt(g.nodes, rules, y, e, n)
  {
    hide NewDone, SameLives, HandledAt;
    if i < |dsts| { TargetFacts(f, g, dsts, e.dst, i); }
    if i == |dsts| { assert dsts[..i] == dsts; }
  }

  /** What add_subtrees() reaches: nodes that are done, but for a new root of edge e. */
  ghost predicate Reached(f: Forest, g: Forest, rules: Rules, edges: EdgeMap, limit: nat, e: Edge, n: nat)
  {
    && (forall x | x in g.nodes && x !in f.nodes ::
          Done(g, rules, edges, limit, x, n) ||
          (x == f.nextNode && e.dst in rules && rules[e.dst].kind == Sink && e.dst !in f.mapping && g.nodes[x].rule == e.dst))
    && (e.dst in f.mapping ==> forall y | y in f.mapping[e.dst] :: HandledAt(g.nodes, rules, y, e, n))
    && (e.dst in rules && rules[e.dst].kind == Sink && e.dst !in f.mapping ==>
          HandledAt(g.nodes, rules, f.nextNode, e, n) && Live(g.nodes, f.nextNode) && g.nodes[f.nextNode].rule == e.dst)
  }

  lemma ReachedAll(f: Forest, f1: Forest, g: Forest, rules: Rules, edges: EdgeMap, limit: nat, e: Edge, n: nat)
    requires NewDone(f1, g, rules, edges, limit, n) && SameLives(f1, g)
    requires f1 == f ||
             (&& e.dst in rules && rules[e.dst].kind == Sink && e.dst !in f.mapping && f1.nodes.Keys == f.nodes.Keys + {f.nextNode}
              && Live(f1.nodes, f.nextNode) && f1.nodes[f.nextNode].rule == e.dst && e.dst in f1.mapping && f.nextNode in f1.mapping[e.dst])
    requires e.dst in rules && rules[e.dst].kind == Sink ==> e.dst in f1.mapping
    requires e.dst in f1.mapping ==> forall y | y in f1.mapping[e.dst] :: HandledAt(g.nodes, rules, y, e, n)
    ensures Reached(f, g, rules, edges, limit, e, n)
  {
    hide HandledAt, Done;
  }

  /** add_subtrees(): every node of the edge's destination handles the edge, and whatever
      this adds is complete down to the sources. */
  method AddSubtrees(f: Forest, e: Edge, rules: Rules, edges: EdgeMap, limit: nat, time: nat,
                     ghost via0: Vias, ghost rank: map<nat, nat>, pad: Mask)
    returns (g: Forest, ghost via: Vias)
    requires PredictorOk(f, via0, rules, edges, pad) && Acyclic(edges, rank) && EdgesOk(edges, limit, rules, pad)
    requires IsEdge(e, edges) && e.dst in rules
    ensures PredictorOk(g, via, rules, edges, pad) && CountsNothingNew(f, g) && NewPaths(f, g, time) && SameLives(f, g)
    ensures Reached(f, g, rules, edges, limit, e, |pad|) && Grafted(f, g, e) && GrownFirst(f, g, via, rules, edges, e, |pad|)
  {
    hide Grafted, Grafting, GrownFirst, Walked, SameLives, Reached, NewDone, NewPaths, ForestOk, SourcesHavePaths, ViasFrom, CountsNothingNew, HandledAt, Done, EdgesOk, Acyclic, IsEdge, OnlyChanges, Targets;
    g, via := f, via0;
    CountsSelf(f);
    NoNewPaths(f, time);
    FreshId(f, via, rules, pad);
    NothingGrafted(f, e);
    NothingGrown(f, via, rules, edges, e, |pad|);
    if rules[e.dst].kind == Sink && e.dst !in f.mapping {
      RootsStart(f, via0, rules, rules[e.dst], edges, pad);
      g := AddRootNode(f, rules[e.dst], pad);
      RootKeepsLives(f, rules[e.dst], pad);
      RootGrafted(f, rules[e.dst], pad, e);
      RootGrown(f, rules[e.dst], via, rules, edges, e, pad);
      NewPathsTrans(f, f, g, time);
    }
    ghost var f1 := g;
    NewDoneStart(f1, rules, edges, limit, |pad|);
    if e.dst in g.mapping {
      var dsts := g.mapping[e.dst];
      WalkedStart(g, via, e, rules, edges, limit, pad);
      GraftingStart(f, g, via, rules, e, pad);
      for i := 0 to |dsts|
        invariant PredictorOk(g, via, rules, edges, pad) && CountsNothingNew(f, g) && SameLives(f, g) && NewPaths(f, g, time)
        invariant Walked(f1, g, dsts, i, e, rules, edges, limit, |pad|) && Grafting(f, g, e, dsts, i)
        invariant GrownFirst(f, g, via, rules, edges, e, |pad|)
      {
        ghost var g0, v0 := g, via;
        WalkedFacts(f1, g, dsts, i, e, rules, edges, limit, |pad|);
        g, via := AddBelow(g, dsts[i], e, rules, edges, limit, time, via, rank, pad);
        CountsTrans(f, g0, g);
        NewPathsTrans(f, g0, g, time);
        WalkedNext(f1, g0, g, dsts, i, e, rules, edges, limit, |pad|);
        GraftingNext(f, g0, g, e, dsts, i);
        GrownNext(f, g0, g, v0, via, rules, edges, e, |pad|);
        SameLivesStep(f, g0, g, dsts[i]);
      }
      WalkedFacts(f1, g, dsts, |dsts|, e, rules, edges, limit, |pad|);
      GraftingEnd(f, g, e, dsts, |dsts|);
    }
    ReachedAll(f, f1, g, rules, edges, limit, e, |pad|);
  }

  /** Nodes of f are in g, live or ended as before. */
  ghost predicate SameLives(f: Forest, g: Forest)
  {
    forall x | x in f.nodes :: x in g.nodes && g.nodes[x].rule == f.nodes[x].rule && g.nodes[x].finalTime == f.nodes[x].finalTime
  }

  lemma RootKeepsLives(f: Forest, r: Rule, pad: Mask)
    requires f.nextNode !in f.nodes
    ensures SameLives(f, AddRootNode(f, r, pad))
  {}

  lemma SameLivesStep(f: Forest, g: Forest, h: Forest, y: nat)
    requires SameLives(f, g) && OnlyChanges(g, h, y)
    ensures SameLives(f, h)
  {}

  lemma TargetFacts(f: Forest, g: Forest, dsts: seq<nat>, dst: nat, i: nat)
    requires Targets(f, g, dsts, dst) && i < |dsts|
    ensures dsts[i] in f.nodes && Live(g.nodes, dsts[i]) && g.nodes[dsts[i]].rule == dst
  {
    assert dsts[i] in dsts;
  }

  // --- delete_subtrees ---

  /** z is a node of rule src added along an edge into rule dst. */
  ghost predicate IsCut(f: Forest, src: nat, dst: nat, z: nat)
  {
    Live(f.nodes, z) && f.nodes[z].rule == src && f.nodes[z].parent in f.nodes && f.nodes[f.nodes[z].parent].rule == dst
  }

  /** Live in g: the nodes of f that lie below none of the cut nodes in zs. */
  ghost predicate CutAt(f: Forest, g: Forest, src: nat, dst: nat, zs: seq<nat>)
  {
    && g.nodes.Keys == f.nodes.Keys && SameParents(f.nodes, g.nodes) && g.mapping.Keys == f.mapping.Keys
    && (forall x | x in f.nodes :: SameCore(f.nodes[x], g.nodes[x]) && g.nodes[x].outPath == f.nodes[x].outPath)
    && forall x :: Live(g.nodes, x) <==> Live(f.nodes, x) && forall z | z in zs && IsCut(f, src, dst, z) :: !Below(f.nodes, z, x)
  }

  lemma CutStart(f: Forest, src: nat, dst: nat)
    ensures CutAt(f, f, src, dst, [])
  {}

  /** The paths whose sources died end now; those that had started are queried. */
  ghost predicate PathsEnd(f: Forest, g: Forest, time: nat, queried: seq<nat>, discarded: seq<nat>)
  {
    && g.paths.Keys == f.paths.Keys
    && (forall p | p in f.paths :: g.paths[p] == if Died(f, g, p) && f.paths[p].startingTime != time
                                                 then f.paths[p].(finalTime := Some(time)) else f.paths[p])
    && Distinct(queried) && Distinct(discarded)
    && (forall p :: p in queried <==> p in f.paths && Died(f, g, p) && f.paths[p].startingTime != time)
    && forall p :: p in discarded <==> p in f.paths && Died(f, g, p) && f.paths[p].startingTime == time
  }

  predicate Died(f: Forest, g: Forest, p: nat)
    requires p in f.paths
  {
    Live(f.nodes, f.paths[p].source) && !Live(g.nodes, f.paths[p].source)
  }

  lemma NoneEnds(f: Forest, time: nat)
    ensures PathsEnd(f, f, time, [], [])
  {}

  lemma MoreEnd(f: Forest, g: Forest, h: Forest, time: nat, queried: seq<nat>, discarded: seq<nat>, q: seq<nat>, d: seq<nat>, visited: set<nat>)
    requires PathsEnd(f, g, time, queried, discarded) && PathsCut(g, h, visited, time, q, d)
    requires forall x :: Live(h.nodes, x) <==> Live(g.nodes, x) && x !in visited
    requires (forall x | x in visited :: Live(g.nodes, x)) && forall x | Live(g.nodes, x) :: Live(f.nodes, x)
    ensures PathsEnd(f, h, time, queried + q, discarded + d)
  {
    hide Live, Distinct;
    assert Distinct(queried + q) && Distinct(discarded + d) by { DistinctJoin(queried, q); DistinctJoin(discarded, d); }
    forall p | p in f.paths
      ensures g.paths[p].source == f.paths[p].source && g.paths[p].startingTime == f.paths[p].startingTime
      ensures Died(f, h, p) <==> Died(f, g, p) || f.paths[p].source in visited
      ensures f.paths[p].source in visited ==> !Died(f, g, p)
    {}
  }

  lemma CutSkip(f: Forest, g: Forest, src: nat, dst: nat, zs: seq<nat>, z: nat)
    requires CutAt(f, g, src, dst, zs) && !IsCut(f, src, dst, z)
    ensures CutAt(f, g, src, dst, zs + [z])
  {
    hide Below, SameParents, IsCut;
  }

  lemma CutStep(f: Forest, g: Forest, h: Forest, src: nat, dst: nat, zs: seq<nat>, z: nat, visited: set<nat>, time: nat)
    requires CutAt(f, g, src, dst, zs) && IsCut(f, src, dst, z) && ParentsIn(f.nodes)
    requires Unlinked(g, h, visited, time) && forall x :: x in visited <==> Live(g.nodes, x) && Below(g.nodes, z, x)
    ensures CutAt(f, h, src, dst, zs + [z])
  {
    hide Below, IsCut, ParentsIn, Filtered;
    UnlinkedLive(g, h, visited, time);
    forall x | x in f.nodes ensures Below(g.nodes, z, x) <==> Below(f.nodes, z, x) { BelowSame(f.nodes, g.nodes, z, x); }
    forall x
      ensures Live(h.nodes, x) <==> Live(f.nodes, x) && forall y | y in zs + [z] && IsCut(f, src, dst, y) :: !Below(f.nodes, y, x)
    {
      assert z in zs + [z];
    }
    assert SameParents(f.nodes, h.nodes);
  }

  /** Ranks fall along a tree from the root: nodes of one rule do not lie below each other. */
  lemma {:induction false} RankFalls(f: Forest, via: Vias, rules: Rules, edges: EdgeMap, rank: map<nat, nat>, y: nat, x: nat, pad: Mask)
    requires ForestOk(f, via, rules, pad) && ViasFrom(f.nodes, via, edges) && Acyclic(edges, rank)
    requires Live(f.nodes, x) && y in f.nodes && Below(f.nodes, y, x) && x != y
    ensures RankOf(rank, f.nodes[x].rule) < RankOf(rank, f.nodes[y].rule)
    decreases x
  {
    hide DomainIsPreimage, ComposeTransfers, IsTransfer, IsDomain, PortTransfer, MappingOk, ChildrenOk, RootsOk, PathsOk;
    var p := f.nodes[x].parent;
    assert ParentAt(f.nodes, x) && NodeAt(f.nodes, via, rules, x, pad);
    var id :| id in edges && edges[id] == via[x];
    if p != y { RankFalls(f, via, rules, edges, rank, y, p, pad); }
  }

  /** Among the nodes of one rule, those still to come are untouched. */
  lemma StillLive(f: Forest, g: Forest, via: Vias, rules: Rules, edges: EdgeMap, rank: map<nat, nat>, src: nat, dst: nat, i: nat, pad: Mask)
    requires ForestOk(f, via, rules, pad) && ViasFrom(f.nodes, via, edges) && Acyclic(edges, rank)
    requires src in f.mapping && i < |f.mapping[src]| && CutAt(f, g, src, dst, f.mapping[src][..i])
    ensures Live(f.nodes, f.mapping[src][i]) && Live(g.nodes, f.mapping[src][i]) && f.nodes[f.mapping[src][i]].rule == src
    ensures f.nodes[f.mapping[src][i]].parent in f.nodes
  {
    hide NodesOk, PathsOk, Below, ChildrenOk, ParentsOk, RootsOk, Acyclic, ViasFrom;
    var xs := f.mapping[src];
    var x := xs[i];
    assert x in xs;
    ChainFacts(f, via, rules, x, pad);
    forall z | z in xs[..i] && IsCut(f, src, dst, z) ensures !Below(f.nodes, z, x) {
      var k :| 0 <= k < i && xs[k] == z;
      assert z in xs && z != x;
      if Below(f.nodes, z, x) { RankFalls(f, via, rules, edges, rank, z, x, pad); }
    }
  }

  lemma ForestParents(f: Forest, via: Vias, rules: Rules, pad: Mask)
    requires ForestOk(f, via, rules, pad)
    ensures ParentsIn(f.nodes) && PathsOk(f) && forall x | x in f.nodes :: x < f.nextNode
  {
    hide NodesOk, ListsOk, PathsOk;
    forall x | x in f.nodes ensures f.nodes[x].parent in f.nodes { ChainFacts(f, via, rules, x, pad); }
  }

  lemma ViasCut(f: Forest, g: Forest, src: nat, dst: nat, zs: seq<nat>, via: Vias, edges: EdgeMap)
    requires CutAt(f, g, src, dst, zs) && ViasFrom(f.nodes, via, edges)
    ensures ViasFrom(g.nodes, via, edges)
  {
    hide IsEdge, Below, IsCut;
    forall x | Live(g.nodes, x) && g.nodes[x].parent != x ensures x in via && IsEdge(via[x], edges) {
      assert Live(f.nodes, x);
    }
  }

  /** delete_subtrees(): every node of rule src below a node of rule dst goes, with all
      that lies below it, and nothing else. */
  method DeleteSubtrees(f: Forest, src: nat, dst: nat, time: nat, rules: Rules, ghost edges: EdgeMap,
                        ghost via: Vias, ghost rank: map<nat, nat>, ghost pad: Mask)
    returns (g: Forest, queried: seq<nat>, discarded: seq<nat>)
    requires PredictorOk(f, via, rules, edges, pad) && CountersOk(f) && Acyclic(edges, rank)
    ensures PredictorOk(g, via, rules, edges, pad) && CountersOk(g)
    ensures CutAt(f, g, src, dst, if src in f.mapping then f.mapping[src] else [])
    ensures PathsEnd(f, g, time, queried, discarded)
  {
    hide PathsEnd, ForestOk, SourcesHavePaths, ViasFrom, CountersOk, CutAt, Below, Unlinked, PathsCut, Acyclic, ParentsIn, PathsOk;
    g, queried, discarded := f, [], [];
    CutStart(f, src, dst);
    NoneEnds(f, time);
    ForestParents(f, via, rules, pad);
    if src in f.mapping {
      var xs := f.mapping[src];
      for i := 0 to |xs|
        invariant ForestOk(g, via, rules, pad) && SourcesHavePaths(g, rules) && CountersOk(g)
        invariant CutAt(f, g, src, dst, xs[..i]) && PathsEnd(f, g, time, queried, discarded)
      {
        var x := xs[i];
        assert xs[..i + 1] == xs[..i] + [x];
        StillLive(f, g, via, rules, edges, rank, src, dst, i, pad);
        CutFacts(f, g, src, dst, xs[..i]);
        ChainFacts(g, via, rules, x, pad);
        if g.nodes[g.nodes[x].parent].rule == dst {
          ghost var g0 := g;
          var q, d;
          ghost var seen, visited;
          ForestParents(g, via, rules, pad);
          g, q, d, seen, visited := DeleteSubtree(g, x, time, rules, via, pad);
          CutStep(f, g0, g, src, dst, xs[..i], x, visited, time);
          CountersKeptUnlinked(g0, g, visited, time, q, d);
          UnlinkedLive(g0, g, visited, time);
          CutLives(f, g0, src, dst, xs[..i]);
          MoreEnd(f, g0, g, time, queried, discarded, q, d, visited);
          queried, discarded := queried + q, discarded + d;
        } else {
          CutSkip(f, g, src, dst, xs[..i], x);
        }
      }
      assert xs[..|xs|] == xs;
    }
    ViasCut(f, g, src, dst, if src in f.mapping then f.mapping[src] else [], via, edges);
  }

  lemma CutLives(f: Forest, g: Forest, src: nat, dst: nat, zs: seq<nat>)
    requires CutAt(f, g, src, dst, zs)
    ensures forall x | Live(g.nodes, x) :: Live(f.nodes, x)
  {
    hide Below, IsCut;
  }

  lemma CutFacts(f: Forest, g: Forest, src: nat, dst: nat, zs: seq<nat>)
    requires CutAt(f, g, src, dst, zs)
    ensures g.nodes.Keys == f.nodes.Keys && SameParents(f.nodes, g.nodes)
    ensures forall x | x in f.nodes :: g.nodes[x].rule == f.nodes[x].rule
  {
    hide Below, IsCut;
  }

  // --- the graph changes ---

  /** The edges but those from src to dst. */
  function Except(edges: EdgeMap, src: nat, dst: nat): EdgeMap
  {
    map id | id in edges && !(edges[id].src == src && edges[id].dst == dst) :: edges[id]
  }

  lemma FewerEdges(rules: Rules, edges: EdgeMap, less: EdgeMap, limit: nat, rank: map<nat, nat>, pad: Mask)
    requires FlowGraph(rules, edges, pad) && EdgesOk(edges, limit, rules, pad) && Acyclic(edges, rank)
    requires forall id | id in less :: id in edges && less[id] == edges[id]
    ensures FlowGraph(rules, less, pad) && EdgesOk(less, limit, rules, pad) && Acyclic(less, rank)
  {
    hide EdgeOk, RulesOk, HeadersApart;
  }

  lemma MoreEdges(f: Forest, via: Vias, rules: Rules, edges: EdgeMap, more: EdgeMap, pad: Mask)
    requires PredictorOk(f, via, rules, edges, pad) && forall id | id in edges :: id in more && more[id] == edges[id]
    ensures PredictorOk(f, via, rules, more, pad)
  {
    hide ForestOk, SourcesHavePaths;
    forall x | Live(f.nodes, x) && f.nodes[x].parent != x ensures x in via && IsEdge(via[x], more) {
      assert IsEdge(via[x], edges);
    }
  }

  /** No live node was added along an edge from src to dst any more. */
  lemma EdgeUnused(f: Forest, g: Forest, via: Vias, rules: Rules, edges: EdgeMap, src: nat, dst: nat, pad: Mask)
    requires PredictorOk(f, via, rules, edges, pad) && PredictorOk(g, via, rules, edges, pad)
    requires CutAt(f, g, src, dst, if src in f.mapping then f.mapping[src] else [])
    ensures PredictorOk(g, via, rules, Except(edges, src, dst), pad)
  {
    hide ForestOk, SourcesHavePaths, CutAt, IsEdge;
    forall x | Live(g.nodes, x) && g.nodes[x].parent != x ensures x in via && IsEdge(via[x], Except(edges, src, dst)) {
      StillThere(f, g, via, rules, src, dst, x, pad);
      assert IsEdge(via[x], edges);
      ViaEnds(f, via, rules, x, pad);
      EdgeStays(via[x], edges, src, dst);
    }
  }

  /** A node that is still live is none of those cut. */
  lemma StillThere(f: Forest, g: Forest, via: Vias, rules: Rules, src: nat, dst: nat, x: nat, pad: Mask)
    requires ForestOk(f, via, rules, pad) && Live(g.nodes, x)
    requires CutAt(f, g, src, dst, if src in f.mapping then f.mapping[src] else [])
    ensures Live(f.nodes, x) && g.nodes[x].parent == f.nodes[x].parent && g.nodes[x].rule == f.nodes[x].rule && f.nodes[x].parent in f.nodes
    ensures !(f.nodes[x].rule == src && f.nodes[f.nodes[x].parent].rule == dst)
  {
    hide NodesOk, ChildrenOk, ParentsOk, RootsOk, PathsOk;
    ChainFacts(f, via, rules, x, pad);
    assert Below(f.nodes, x, x);
    assert f.nodes[x].rule == src ==> src in f.mapping && x in f.mapping[src];
  }

  lemma EdgeStays(e: Edge, edges: EdgeMap, src: nat, dst: nat)
    requires IsEdge(e, edges) && !(e.src == src && e.dst == dst)
    ensures IsEdge(e, Except(edges, src, dst))
  {
    var id :| id in edges && edges[id] == e;
    assert id in Except(edges, src, dst);
  }

  lemma ViaEnds(f: Forest, via: Vias, rules: Rules, x: nat, pad: Mask)
    requires ForestOk(f, via, rules, pad) && x in f.nodes && f.nodes[x].parent != x
    ensures f.nodes[x].parent in f.nodes && x in via && via[x].src == f.nodes[x].rule && via[x].dst == f.nodes[f.nodes[x].parent].rule
  {
    assert NodeAt(f.nodes, via, rules, x, pad);
  }

  // --- what has been added stays added ---

  /** Rules, domains and parents are the same, and the live nodes of f are live in g. */
  ghost predicate LivesKept(f: Forest, g: Forest)
  {
    forall x | Live(f.nodes, x) :: Live(g.nodes, x) && SameCore(f.nodes[x], g.nodes[x])
  }

  lemma GrownKept(f: Forest, g: Forest)
    requires CountsNothingNew(f, g) && SameLives(f, g)
    ensures LivesKept(f, g)
  {}

  /** A node that lives on handles what it handled, if none of its children along that edge died. */
  lemma HandledLater(f: Forest, g: Forest, rules: Rules, y: nat, e: Edge, n: nat)
    requires ListsOk(f.nodes, f.mapping) && ListsOk(g.nodes, g.mapping) && Live(f.nodes, y) && Live(g.nodes, y)
    requires SameCore(f.nodes[y], g.nodes[y]) && HandledAt(f.nodes, rules, y, e, n)
    requires forall c | c in f.nodes[y].children && Live(f.nodes, c) && f.nodes[c].rule == e.src :: Live(g.nodes, c) && SameCore(f.nodes[c], g.nodes[c])
    ensures HandledAt(g.nodes, rules, y, e, n)
  {
    hide MappingOk, RootsOk, NoPreimage, Distinct;
    if HasChild(f.nodes, y, e.src) {
      var c :| c in f.nodes[y].children && c in f.nodes && f.nodes[c].rule == e.src;
      assert ChildrenAt(f.nodes, y);
      assert ParentAt(g.nodes, c);
    }
  }

  lemma RootLater(f: Forest, g: Forest, r: nat)
    requires LivesKept(f, g) && HasRoot(f.nodes, r)
    ensures HasRoot(g.nodes, r)
  {
    var x :| Live(f.nodes, x) && f.nodes[x].rule == r;
    assert Live(g.nodes, x);
  }

  /** Every sink that ever had a node has one. */
  predicate Rooted(f: Forest, rules: Rules)
  {
    forall r | r in f.mapping && r in rules && rules[r].kind == Sink :: f.mapping[r] != []
  }

  lemma MappedHasRoot(f: Forest, r: nat)
    requires ListsOk(f.nodes, f.mapping) && r in f.mapping && f.mapping[r] != []
    ensures HasRoot(f.nodes, r)
  {
    hide ChildrenOk, ParentsOk, RootsOk, Distinct;
    assert f.mapping[r][0] in f.mapping[r];
  }

  lemma RootIsMapped(f: Forest, r: nat)
    requires ListsOk(f.nodes, f.mapping) && HasRoot(f.nodes, r)
    ensures r in f.mapping && f.mapping[r] != []
  {
    hide ChildrenOk, ParentsOk, RootsOk, Distinct;
  }

  lemma DoneHandles(f: Forest, rules: Rules, edges: EdgeMap, limit: nat, y: nat, k: nat, pad: Mask)
    requires Done(f, rules, edges, limit, y, |pad|) && EdgesOk(edges, limit, rules, pad) && k in edges && edges[k].dst == f.nodes[y].rule
    ensures HandledAt(f.nodes, rules, y, edges[k], |pad|)
  {
    hide HandledAt;
    EdgeFacts(edges[k], rules, pad);
  }

  /** Edge k stays handled, or is the edge that has been added. */
  lemma HandledNodes(f: Forest, g: Forest, rules: Rules, edges: EdgeMap, limit: nat, k: nat, id: nat, y: nat, pad: Mask)
    requires ListsOk(f.nodes, f.mapping) && ListsOk(g.nodes, g.mapping) && EdgesOk(edges, limit, rules, pad)
    requires CountsNothingNew(f, g) && SameLives(f, g) && id in edges && Reached(f, g, rules, edges, limit, edges[id], |pad|)
    requires k in edges && (k == id || HandlesEdge(f.nodes, rules, edges[k], |pad|)) && Live(g.nodes, y) && g.nodes[y].rule == edges[k].dst
    ensures HandledAt(g.nodes, rules, y, edges[k], |pad|)
  {
    hide EdgesOk, ListsOk, CountsNothingNew, HandledAt, Done;
    GrownKept(f, g);
    if y in f.nodes {
      assert Live(f.nodes, y);
      if k == id {
        LiveIsMapped(f, y);
      } else {
        HandledLater(f, g, rules, y, edges[k], |pad|);
      }
    } else if Done(g, rules, edges, limit, y, |pad|) {
      DoneHandles(g, rules, edges, limit, y, k, pad);
    } else if k != id {
      RootIsMapped(f, edges[k].dst);
    }
  }

  lemma LiveIsMapped(f: Forest, y: nat)
    requires ListsOk(f.nodes, f.mapping) && Live(f.nodes, y)
    ensures f.nodes[y].rule in f.mapping && y in f.mapping[f.nodes[y].rule]
  {
    hide ChildrenOk, ParentsOk, RootsOk, Distinct;
  }

  /** After add_subtrees() for edge id the earlier edges and this one are handled. */
  lemma HandlesNext(f: Forest, g: Forest, rules: Rules, edges: EdgeMap, limit: nat, ids: set<nat>, id: nat, pad: Mask)
    requires ListsOk(f.nodes, f.mapping) && ListsOk(g.nodes, g.mapping) && EdgesOk(edges, limit, rules, pad)
    requires CountsNothingNew(f, g) && SameLives(f, g) && id in edges && Reached(f, g, rules, edges, limit, edges[id], |pad|)
    requires Handles(f.nodes, rules, edges, ids, |pad|) && Rooted(f, rules)
    ensures Handles(g.nodes, rules, edges, ids + {id}, |pad|) && Rooted(g, rules)
  {
    hide EdgesOk, ListsOk, SameLives, HandledAt, Done, HasRoot, Reached;
    GrownKept(f, g);
    forall k | k in ids + {id} ensures k in edges && HandlesEdge(g.nodes, rules, edges[k], |pad|) {
      assert k != id ==> k in ids && k in edges && HandlesEdge(f.nodes, rules, edges[k], |pad|);
      forall y | Live(g.nodes, y) && g.nodes[y].rule == edges[k].dst ensures HandledAt(g.nodes, rules, y, edges[k], |pad|) {
        HandledNodes(f, g, rules, edges, limit, k, id, y, pad);
      }
      if edges[k].dst in rules && rules[edges[k].dst].kind == Sink {
        RootThere(f, g, rules, edges, limit, id, pad);
        if k != id { RootLater(f, g, edges[k].dst); }
      }
    }
  }

  lemma RootThere(f: Forest, g: Forest, rules: Rules, edges: EdgeMap, limit: nat, id: nat, pad: Mask)
    requires ListsOk(f.nodes, f.mapping) && ListsOk(g.nodes, g.mapping)
    requires LivesKept(f, g) && id in edges && Reached(f, g, rules, edges, limit, edges[id], |pad|) && Rooted(f, rules)
    requires CountsNothingNew(f, g)
    ensures edges[id].dst in rules && rules[edges[id].dst].kind == Sink ==> HasRoot(g.nodes, edges[id].dst)
  {
    hide ListsOk, LivesKept, HandledAt, Done;
    var r := edges[id].dst;
    if r in rules && rules[r].kind == Sink {
      if r in f.mapping {
        MappedHasRoot(f, r);
        RootLater(f, g, r);
      } else {
        assert g.nodes[f.nextNode].rule == r;
      }
    }
  }

  /** Of the children of a live node, delete_subtrees() leaves all but those along the edge
      that goes. */
  lemma ChildLives(f: Forest, g: Forest, via: Vias, rules: Rules, src: nat, dst: nat, y: nat, c: nat, pad: Mask)
    requires ForestOk(f, via, rules, pad) && CutAt(f, g, src, dst, if src in f.mapping then f.mapping[src] else [])
    requires Live(f.nodes, y) && Live(g.nodes, y) && Live(f.nodes, c) && f.nodes[c].parent == y && c != y
    requires !(f.nodes[c].rule == src && f.nodes[y].rule == dst)
    ensures Live(g.nodes, c)
  {
    hide NodesOk, ListsOk, PathsOk, SameParents, SameCore;
  }

  lemma RootLives(f: Forest, g: Forest, src: nat, dst: nat, x: nat)
    requires CutAt(f, g, src, dst, if src in f.mapping then f.mapping[src] else []) && Live(f.nodes, x) && f.nodes[x].parent == x && src != dst
    ensures Live(g.nodes, x)
  {
    hide SameParents, SameCore;
  }

  /** Removing the edges from src to dst leaves the other edges handled. */
  lemma HandlesLess(f: Forest, g: Forest, via: Vias, rules: Rules, edges: EdgeMap, ids: set<nat>, src: nat, dst: nat, pad: Mask)
    requires ForestOk(f, via, rules, pad) && ListsOk(g.nodes, g.mapping) && src != dst
    requires CutAt(f, g, src, dst, if src in f.mapping then f.mapping[src] else [])
    requires Handles(f.nodes, rules, edges, ids, |pad|) && Rooted(f, rules)
    ensures Handles(g.nodes, rules, Except(edges, src, dst), set id | id in ids && id in Except(edges, src, dst), |pad|) && Rooted(g, rules)
  {
    hide NodesOk, ListsOk, PathsOk, HandledAt, CutAt, Rooted, HasRoot, SameCore;
    CutRooted(f, g, via, rules, src, dst, pad);
    forall id | id in ids && id in Except(edges, src, dst) ensures HandlesEdge(g.nodes, rules, edges[id], |pad|) {
      var e := edges[id];
      assert HandlesEdge(f.nodes, rules, e, |pad|);
      forall y | Live(g.nodes, y) && g.nodes[y].rule == e.dst ensures HandledAt(g.nodes, rules, y, e, |pad|) {
        HandledStillLive(f, g, via, rules, e, src, dst, y, pad);
      }
      if e.dst in rules && rules[e.dst].kind == Sink {
        RootIsMapped(f, e.dst);
        CutMapped(f, g, src, dst, e.dst);
        RootedAt(g, rules, e.dst);
        MappedHasRoot(g, e.dst);
      }
    }
  }

  lemma RootedAt(f: Forest, rules: Rules, r: nat)
    requires Rooted(f, rules) && r in f.mapping && r in rules && rules[r].kind == Sink
    ensures f.mapping[r] != []
  {}

  lemma CutMapped(f: Forest, g: Forest, src: nat, dst: nat, r: nat)
    requires CutAt(f, g, src, dst, if src in f.mapping then f.mapping[src] else []) && r in f.mapping
    ensures r in g.mapping
  {
    hide Below, IsCut, SameCore, SameParents;
  }

  lemma HandledStillLive(f: Forest, g: Forest, via: Vias, rules: Rules, e: Edge, src: nat, dst: nat, y: nat, pad: Mask)
    requires ForestOk(f, via, rules, pad) && ListsOk(g.nodes, g.mapping) && src != dst && !(e.src == src && e.dst == dst)
    requires CutAt(f, g, src, dst, if src in f.mapping then f.mapping[src] else [])
    requires Live(g.nodes, y) && g.nodes[y].rule == e.dst && HandlesEdge(f.nodes, rules, e, |pad|)
    ensures HandledAt(g.nodes, rules, y, e, |pad|)
  {
    hide NodesOk, MappingOk, ParentsOk, RootsOk, PathsOk, HandledAt, SameParents, Below, IsCut, HasRoot;
    assert Live(f.nodes, y) && SameCore(f.nodes[y], g.nodes[y]);
    assert ChildrenAt(f.nodes, y);
    forall c | c in f.nodes[y].children && Live(f.nodes, c) && f.nodes[c].rule == e.src ensures Live(g.nodes, c) && SameCore(f.nodes[c], g.nodes[c]) {
      ChildLives(f, g, via, rules, src, dst, y, c, pad);
    }
    HandledLater(f, g, rules, y, e, |pad|);
  }

  lemma CutRooted(f: Forest, g: Forest, via: Vias, rules: Rules, src: nat, dst: nat, pad: Mask)
    requires ForestOk(f, via, rules, pad) && ListsOk(g.nodes, g.mapping) && src != dst
    requires CutAt(f, g, src, dst, if src in f.mapping then f.mapping[src] else []) && Rooted(f, rules)
    ensures Rooted(g, rules)
  {
    hide NodesOk, ChildrenOk, ParentsOk, RootsOk, PathsOk, SameParents, Below, IsCut, Distinct;
    forall r | r in g.mapping && r in rules && rules[r].kind == Sink ensures g.mapping[r] != [] {
      var x := f.mapping[r][0];
      assert x in f.mapping[r];
      ChainFacts(f, via, rules, x, pad);
      RootLives(f, g, src, dst, x);
      assert x in g.mapping[r];
    }
  }

  // --- the predictor ---

  class FlowPredictor {
    const pad: Mask

    /** The rules that ever come up. */
    const rules: Rules

    /** The graph that the forest follows; limit exceeds its ids. */
    var edges: EdgeMap
    var limit: nat
    ghost var rank: map<nat, nat>

    /** The edges that have been added to the forest. */
    ghost var handled: set<nat>

    var forest: Forest
    ghost var via: Vias

    constructor (pad: Mask, rules: Rules)
      requires RulesOk(rules, pad)
      ensures Valid() && this.rules == rules && this.pad == pad && edges == map[] && forest == Forest(map[], map[], map[], map[], 0, 1) && handled == {}
    {
      hide RulesOk, PredictorOk, CountersOk, Handles, Rooted, EdgesOk, Acyclic, FlowGraph;
      this.pad, this.rules, edges, limit, rank := pad, rules, map[], 0, map[];
      forest := Forest(map[], map[], map[], map[], 0, 1);
      via, handled := map[], {};
      new;
      EmptyForest(forest, via, rules, edges, pad);
    }

    ghost predicate Valid()
      reads this
    {
      && FlowGraph(rules, edges, pad) && EdgesOk(edges, limit, rules, pad) && Acyclic(edges, rank)
      && PredictorOk(forest, via, rules, edges, pad) && CountersOk(forest)
      && Handles(forest.nodes, rules, edges, handled, |pad|) && Rooted(forest, rules)
    }

    /** The graph has got more edges. */
    method SetEdges(more: EdgeMap, limit: nat, ghost rank: map<nat, nat>)
      requires Valid() && FlowGraph(rules, more, pad) && EdgesOk(more, limit, rules, pad) && Acyclic(more, rank)
      requires forall id | id in edges :: id in more && more[id] == edges[id]
      modifies this`edges, this`limit, this`rank
      ensures Valid() && edges == more && this.limit == limit
    {
      hide FlowGraph, EdgesOk, Acyclic, PredictorOk, CountersOk, Handles, Rooted;
      MoreEdges(forest, via, rules, edges, more, pad);
      SetKeeps(forest.nodes, rules, edges, more, handled, |pad|);
      edges, this.limit, this.rank := more, limit, rank;
    }

    /** updateEdges() for a new edge. */
    method AddEdge(id: nat, time: nat)
      requires Valid() && id in edges
      modifies this`forest, this`via, this`handled
      ensures Valid() && CountsNothingNew(old(forest), forest) && NewPaths(old(forest), forest, time) && SameLives(old(forest), forest)
      ensures Reached(old(forest), forest, rules, edges, limit, edges[id], |pad|) && Grafted(old(forest), forest, edges[id])
      ensures GrownFirst(old(forest), forest, via, rules, edges, edges[id], |pad|)
      ensures handled == old(handled) + {id}
    {
      hide Grafted, GrownFirst, FlowGraph, EdgesOk, Acyclic, PredictorOk, CountersOk, Handles, Rooted, CountsNothingNew, HandledAt, Done, NewPaths, SameLives;
      MakeEdge(id, edges);
      IsEdgeOk(edges[id], edges, limit, rules, pad);
      PredictorFacts(forest, via, rules, edges, pad);
      ghost var f := forest;
      var g;
      ghost var v;
      g, v := AddSubtrees(forest, edges[id], rules, edges, limit, time, via, rank, pad);
      CountersKept(f, g);
      PredictorLists(f, via, rules, edges, pad);
      PredictorLists(g, v, rules, edges, pad);
      HandlesNext(f, g, rules, edges, limit, handled, id, pad);
      forest, via, handled := g, v, handled + {id};
    }

    /** updateEdges() for a removed edge; the graph has lost the edges from src to dst. */
    method RemoveEdge(src: nat, dst: nat, time: nat) returns (queried: seq<nat>, discarded: seq<nat>)
      requires Valid() && src != dst
      modifies this`forest, this`edges, this`handled
      ensures Valid() && edges == Except(old(edges), src, dst) && handled == set id | id in old(handled) && id in edges
      ensures CutAt(old(forest), forest, src, dst, if src in old(forest).mapping then old(forest).mapping[src] else [])
      ensures PathsEnd(old(forest), forest, time, queried, discarded)
    {
      hide FlowGraph, EdgesOk, Acyclic, PredictorOk, CountersOk, Handles, Rooted, CutAt, PathsEnd;
      ghost var f := forest;
      var g;
      g, queried, discarded := DeleteSubtrees(forest, src, dst, time, rules, edges, via, rank, pad);
      EdgeUnused(f, g, via, rules, edges, src, dst, pad);
      FewerEdges(rules, edges, Except(edges, src, dst), limit, rank, pad);
      PredictorForest(f, via, rules, edges, pad);
      PredictorLists(g, via, rules, edges, pad);
      HandlesLess(f, g, via, rules, edges, handled, src, dst, pad);
      forest, edges, handled := g, Except(edges, src, dst), set id | id in handled && id in Except(edges, src, dst);
    }

    /** process_path_query(). */
    method PassPath(p: nat, reading: Counter)
      requires Valid() && p in forest.paths
      modifies this`forest
      ensures Valid() && PathCounted(old(forest), forest, p, reading)
    {
      hide FlowGraph, EdgesOk, Acyclic, PredictorOk, CountersOk, Handles, Rooted, PathCounted;
      PredictorForest(forest, via, rules, edges, pad);
      ghost var f := forest;
      var g := ProcessPathQuery(forest, p, reading, rules, via, pad);
      QueryKeeps(f, g, via, rules, edges, p, reading, pad);
      CountingHandles(f, g, via, rules, edges, handled, p, reading, pad);
      forest := g;
    }
  }

  lemma PredictorFacts(f: Forest, via: Vias, rules: Rules, edges: EdgeMap, pad: Mask)
    requires PredictorOk(f, via, rules, edges, pad)
    ensures ParentsIn(f.nodes) && PathsOk(f) && forall x | x in f.nodes :: x < f.nextNode
  {
    hide ForestOk, ParentsIn, PathsOk;
    ForestParents(f, via, rules, pad);
  }

  lemma PredictorForest(f: Forest, via: Vias, rules: Rules, edges: EdgeMap, pad: Mask)
    requires PredictorOk(f, via, rules, edges, pad)
    ensures ForestOk(f, via, rules, pad)
  {
    hide ForestOk;
  }

  lemma PredictorLists(f: Forest, via: Vias, rules: Rules, edges: EdgeMap, pad: Mask)
    requires PredictorOk(f, via, rules, edges, pad)
    ensures ListsOk(f.nodes, f.mapping)
  {
    hide NodesOk, ListsOk, PathsOk, SourcesHavePaths, ViasFrom;
  }

  lemma SetKeeps(nodes: Nodes, rules: Rules, edges: EdgeMap, more: EdgeMap, ids: set<nat>, n: nat)
    requires Handles(nodes, rules, edges, ids, n) && forall id | id in edges :: id in more && more[id] == edges[id]
    ensures Handles(nodes, rules, more, ids, n)
  {
    hide HandlesEdge;
  }

  /** Counting adds and removes no child. */
  lemma CountingHandles(f: Forest, g: Forest, via: Vias, rules: Rules, edges: EdgeMap, ids: set<nat>, p: nat, reading: Counter, pad: Mask)
    requires PredictorOk(f, via, rules, edges, pad) && PredictorOk(g, via, rules, edges, pad) && p in f.paths && PathCounted(f, g, p, reading)
    requires Handles(f.nodes, rules, edges, ids, |pad|) && Rooted(f, rules)
    ensures Handles(g.nodes, rules, edges, ids, |pad|) && Rooted(g, rules)
  {
    hide NodesOk, ListsOk, PathsOk, SourcesHavePaths, ViasFrom, HandledAt, HasRoot, CountedNode, Below, Difference, Plus;
    CountedTrees(f, g, p, reading);
    forall id | id in ids ensures HandlesEdge(g.nodes, rules, edges[id], |pad|) {
      var e := edges[id];
      assert HandlesEdge(f.nodes, rules, e, |pad|);
      forall y | Live(g.nodes, y) && g.nodes[y].rule == e.dst ensures HandledAt(g.nodes, rules, y, e, |pad|) {
        assert Live(f.nodes, y);
        HandledLater(f, g, rules, y, e, |pad|);
      }
      if HasRoot(f.nodes, e.dst) { RootLater(f, g, e.dst); }
    }
  }

  lemma EmptyForest(f: Forest, via: Vias, rules: Rules, edges: EdgeMap, pad: Mask)
    requires f == Forest(map[], map[], map[], map[], 0, 1) && RulesOk(rules, pad) && edges == map[]
    ensures PredictorOk(f, via, rules, edges, pad) && CountersOk(f) && FlowGraph(rules, edges, pad)
    ensures Handles(f.nodes, rules, edges, {}, |pad|) && Rooted(f, rules)
    ensures EdgesOk(edges, 0, rules, pad) && Acyclic(edges, map[])
  {
    hide NodeAt, EdgeOk, IsEdge;
  }

  /** Counting changes no tree, list or path end. */
  lemma QueryKeeps(f: Forest, g: Forest, via: Vias, rules: Rules, edges: EdgeMap, p: nat, reading: Counter, pad: Mask)
    requires PredictorOk(f, via, rules, edges, pad) && p in f.paths && PathCounted(f, g, p, reading)
    ensures PredictorOk(g, via, rules, edges, pad)
  {
    hide NodesOk, ListsOk, IsEdge, CountedNode, Below, Difference, Plus;
    CountedTrees(f, g, p, reading);
    TreesKept(f.nodes, g.nodes, via, rules, f.mapping, pad);
    forall x | Live(g.nodes, x) ensures Live(f.nodes, x) {}
  }

  lemma CountedTrees(f: Forest, g: Forest, p: nat, reading: Counter)
    requires p in f.paths && PathCounted(f, g, p, reading)
    ensures SameTrees(f.nodes, g.nodes) && forall x | x in f.nodes :: g.nodes[x].outPath == f.nodes[x].outPath
  {
    hide Below, Difference, Plus;
    forall x | x in f.nodes
      ensures SameCore(f.nodes[x], g.nodes[x]) && g.nodes[x].children == f.nodes[x].children
      ensures g.nodes[x].finalTime == f.nodes[x].finalTime && g.nodes[x].outPath == f.nodes[x].outPath
    {
      assert CountedNode(f.nodes[x], g.nodes[x], Below(f.nodes, x, f.paths[p].source), Difference(reading, f.paths[p].last));
    }
  }

  /** In every state: a header lies in the domain of at most one live node of each rule,
      and there exactly when it flows to the node's root. */
  lemma NoDoubleCounting(f: Forest, via: Vias, rules: Rules, edges: EdgeMap, a: nat, b: nat, h: Mask, pad: Mask)
    requires PredictorOk(f, via, rules, edges, pad) && FlowGraph(rules, edges, pad)
    requires Live(f.nodes, a) && Live(f.nodes, b) && f.nodes[a].rule == f.nodes[b].rule && IsHeader(h, |pad|)
    ensures NodesOk(f.nodes, via, rules, pad)
    ensures FlowsToRoot(f.nodes, via, rules, a, h, pad) && FlowsToRoot(f.nodes, via, rules, b, h, pad) ==> a == b
  {
    hide IsHeader, FlowGraph, ViasFrom, NodeAt, ListsOk, Has, FlowsToRoot, RulesOk;
    DomainIsFlow(f.nodes, via, rules, a, h, pad);
    DomainIsFlow(f.nodes, via, rules, b, h, pad);
    if FlowsToRoot(f.nodes, via, rules, a, h, pad) && FlowsToRoot(f.nodes, via, rules, b, h, pad) {
      LiveNodesApart(f.nodes, f.mapping, via, rules, edges, a, b, h, pad);
    }
  }

  /** Once every edge of the graph has been added, a predictor misses no header that flows
      to a sink exactly when its live nodes grew along the widest of parallel edges, and
      so whenever parallel edges carry the same headers. */
  lemma EveryFlowIsCovered(p: FlowPredictor)
    requires p.Valid() && p.handled == p.edges.Keys && PortsFit(p.rules, p.edges)
    ensures AllCovered(p.forest.nodes, p.rules, p.edges, p.pad) <==> GrewWide(p.forest.nodes, p.via, p.rules, p.edges, |p.pad|)
    ensures ParallelsAgree(p.edges, |p.pad|) ==> AllCovered(p.forest.nodes, p.rules, p.edges, p.pad)
  {
    hide FlowGraph, EdgesOk, Acyclic, CountersOk, Handles, Rooted, PortsFit, AllCovered, GrewWide, ParallelsAgree, Complete;
    CompleteNow(p.forest, p.via, p.rules, p.edges, p.pad);
    CoveredIff(p.forest.nodes, p.forest.mapping, p.via, p.rules, p.edges, p.pad);
    if ParallelsAgree(p.edges, |p.pad|) { AgreeingIsCovered(p.forest.nodes, p.forest.mapping, p.via, p.rules, p.edges, p.pad); }
  }

  lemma CompleteNow(f: Forest, via: Vias, rules: Rules, edges: EdgeMap, pad: Mask)
    requires PredictorOk(f, via, rules, edges, pad) && FlowGraph(rules, edges, pad) && PortsFit(rules, edges)
    requires Handles(f.nodes, rules, edges, edges.Keys, |pad|)
    ensures Complete(f.nodes, f.mapping, via, rules, edges, pad)
  {
    hide NodesOk, ListsOk, PathsOk, SourcesHavePaths, ViasFrom, FlowGraph, PortsFit, Handles;
  }

  /** In every state, no path starts at a node whose domain was found empty. */
  lemma PathsNonempty(f: Forest, via: Vias, rules: Rules, edges: EdgeMap, p: nat, pad: Mask)
    requires PredictorOk(f, via, rules, edges, pad) && p in f.paths && Live(f.nodes, f.paths[p].source)
    ensures Nonempty(f.nodes[f.paths[p].source].domain)
  {
    hide NodesOk, ListsOk, ViasFrom, Nonempty;
    var x := f.paths[p].source;
    ChainFacts(f, via, rules, x, pad);
    NodesNonempty(f.nodes, via, rules, x, pad);
  }
}
