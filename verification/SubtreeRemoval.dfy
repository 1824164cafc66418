/** delete_subtree of src/flow_predictor/FlowPredictor.cpp with forEachSubtreeNode and
    setNodeFinalTime of src/flow_predictor/PathScan.cpp: a breadth-first walk whose
    visitor unlinks the nodes that are being walked. */
module SubtreeRemoval {
  import opened Options
  import opened Sequences
  import opened Masks
  import opened NetworkSpaces
  import opened Tables
  import opened Forests
  import opened ForestGrowth
  import opened SubtreeGrowth

  /** Erasing an element of a list. */
  function Erase(s: seq<nat>, x: nat): (r: seq<nat>)
    ensures Distinct(s) ==> Distinct(r) && forall y :: y in r <==> y in s && y != x
    ensures forall y | y in r :: y in s
  {
    if s == [] then []
    else
      var t := s[1..];
      assert s == [s[0]] + t;
      assert forall i | 0 <= i < |t| :: t[i] == s[i + 1];
      if s[0] == x then t
      else
        var r := [s[0]] + Erase(t, x);
        assert forall i | 1 <= i < |r| :: r[i] in Erase(t, x);
        r
  }

  /** setNodeFinalTime(): an old version leaves the lists of its rule and of its parent. */
  function SetNodeFinalTime(f: Forest, x: nat, time: nat): Forest
    requires x in f.nodes && f.nodes[x].parent in f.nodes && f.nodes[x].rule in f.mapping
  {
    var n0 := f.nodes[x := f.nodes[x].(finalTime := Some(time))];
    var p := f.nodes[x].parent;
    f.(nodes := if p == x then n0 else n0[p := n0[p].(children := Erase(n0[p].children, x))],
       mapping := f.mapping[f.nodes[x].rule := Erase(f.mapping[f.nodes[x].rule], x)])
  }

  /** x is y or lies below it. */
  predicate Below(nodes: Nodes, y: nat, x: nat)
    decreases x
  {
    x in nodes && (x == y || (nodes[x].parent < x && Below(nodes, y, nodes[x].parent)))
  }

  lemma {:induction false} BelowIsLater(nodes: Nodes, y: nat, x: nat)
    requires Below(nodes, y, x)
    ensures x >= y && y in nodes
    decreases x
  {
    if x != y { BelowIsLater(nodes, y, nodes[x].parent); }
  }

  // --- the state of the walk ---

  /** g is f with the visited nodes unlinked. */
  ghost predicate Unlinked(f: Forest, g: Forest, visited: set<nat>, time: nat)
  {
    && g.nodes.Keys == f.nodes.Keys && g.mapping.Keys == f.mapping.Keys && g.nextNode == f.nextNode && g.nextPath == f.nextPath
    && g.counters == f.counters
    && (forall x | x in f.nodes :: UnlinkedNode(f.nodes[x], g.nodes[x], if x in visited then Some(time) else f.nodes[x].finalTime, visited))
    && forall r | r in f.mapping :: Filtered(f.mapping[r], g.mapping[r], visited)
  }

  predicate UnlinkedNode(a: Node, b: Node, finalTime: Option<nat>, visited: set<nat>)
  {
    && b == a.(children := b.children, finalTime := finalTime) && Filtered(a.children, b.children, visited)
  }

  predicate Filtered(s: seq<nat>, r: seq<nat>, visited: set<nat>)
  {
    Distinct(r) && (forall y | y in r :: y in s && y !in visited) && forall y | y in s :: y in visited || y in r
  }

  lemma FilteredOne(s: seq<nat>, r: seq<nat>, visited: set<nat>, x: nat)
    requires Filtered(s, r, visited)
    ensures Filtered(s, Erase(r, x), visited + {x})
  {}

  lemma FilteredOut(s: seq<nat>, r: seq<nat>, visited: set<nat>, x: nat)
    requires Filtered(s, r, visited) && x !in s
    ensures Filtered(s, r, visited + {x})
  {}

  /** Unlinking one more node. The lists of others do not name it. */
  lemma UnlinkOne(f: Forest, g: Forest, visited: set<nat>, x: nat, time: nat)
    requires Unlinked(f, g, visited, time) && x in f.nodes && x !in visited
    requires f.nodes[x].parent in f.nodes && f.nodes[x].rule in f.mapping
    requires forall y | y in f.nodes && y != f.nodes[x].parent :: x !in f.nodes[y].children
    requires f.nodes[x].parent == x ==> x !in f.nodes[x].children
    requires forall r | r in f.mapping && r != f.nodes[x].rule :: x !in f.mapping[r]
    ensures g.nodes[x].parent in g.nodes && g.nodes[x].rule in g.mapping
    ensures Unlinked(f, SetNodeFinalTime(g, x, time), visited + {x}, time)
  {
    hide Filtered, Erase;
    var h := SetNodeFinalTime(g, x, time);
    forall y | y in f.nodes
      ensures UnlinkedNode(f.nodes[y], h.nodes[y], if y in visited + {x} then Some(time) else f.nodes[y].finalTime, visited + {x})
    {
      if y == f.nodes[x].parent && y != x {
        FilteredOne(f.nodes[y].children, g.nodes[y].children, visited, x);
      } else {
        FilteredOut(f.nodes[y].children, g.nodes[y].children, visited, x);
      }
    }
    forall r | r in f.mapping ensures Filtered(f.mapping[r], h.mapping[r], visited + {x}) {
      if r == f.nodes[x].rule {
        FilteredOne(f.mapping[r], g.mapping[r], visited, x);
      } else {
        FilteredOut(f.mapping[r], g.mapping[r], visited, x);
      }
    }
  }

  /** The walk: visited nodes are in the subtree, parents before children; the children of
      every visited node are visited or wait in the queue, which holds each node once. */
  ghost predicate Walking(f: Forest, root: nat, queue: seq<nat>, visited: set<nat>)
  {
    && Distinct(queue) && (root in visited || root in queue)
    && (forall x | x in queue :: x !in visited)
    && (forall x | x in visited || x in queue :: Live(f.nodes, x) && Below(f.nodes, root, x) && (x != root ==> f.nodes[x].parent in visited))
    && forall x, c | x in visited && x in f.nodes && c in f.nodes[x].children :: c in visited || c in queue
  }

  lemma StartWalking(f: Forest, root: nat)
    requires Live(f.nodes, root)
    ensures Walking(f, root, [root], {})
  {}

  /** A node's children are neither visited nor queued before the node is visited. */
  lemma WalkStep(f: Forest, root: nat, queue: seq<nat>, visited: set<nat>, children: seq<nat>)
    requires Walking(f, root, queue, visited) && queue != [] && queue[0] in f.nodes && ChildrenAt(f.nodes, queue[0])
    requires Filtered(f.nodes[queue[0]].children, children, visited)
    requires forall c | c in f.nodes[queue[0]].children :: c in f.nodes && c > queue[0]
    ensures Walking(f, root, queue[1..] + children, visited + {queue[0]})
  {
    hide Distinct, Below;
    var y, rest := queue[0], queue[1..];
    assert queue == [y] + rest && y in queue;
    BelowIsLater(f.nodes, root, y);
    forall c | c in children ensures c != root && f.nodes[c].parent == y && c in f.nodes && c !in queue && c !in visited && c != y {
      assert c in f.nodes[y].children;
    }
    QueueJoin(queue, children);
    forall c | c in children ensures Below(f.nodes, root, c) { BelowChild(f.nodes, root, y, c); }
  }

  lemma BelowChild(nodes: Nodes, root: nat, y: nat, c: nat)
    requires Below(nodes, root, y) && c in nodes && nodes[c].parent == y && c > y
    ensures Below(nodes, root, c)
  {}

  lemma WalkEnded(f: Forest, root: nat, visited: set<nat>, x: nat)
    requires Walking(f, root, [], visited)
    ensures root in visited && (x in visited ==> Live(f.nodes, x) && Below(f.nodes, root, x))
    ensures x in visited && x in f.nodes ==> forall c | c in f.nodes[x].children :: c in visited
  {
    hide Below, Live;
  }

  /** An empty queue: exactly the live nodes of the subtree were visited. */
  lemma {:induction false} AllVisited(f: Forest, root: nat, visited: set<nat>, x: nat)
    requires Walking(f, root, [], visited) && ParentsOk(f.nodes)
    ensures x in visited <==> Live(f.nodes, x) && Below(f.nodes, root, x)
    decreases x
  {
    hide Walking, ParentsOk;
    WalkEnded(f, root, visited, x);
    if Live(f.nodes, x) && Below(f.nodes, root, x) && x != root {
      AllVisited(f, root, visited, f.nodes[x].parent);
      WalkEnded(f, root, visited, f.nodes[x].parent);
      ParentLists(f.nodes, x);
    }
  }

  lemma ParentLists(nodes: Nodes, x: nat)
    requires ParentsOk(nodes) && Live(nodes, x) && nodes[x].parent != x
    ensures Live(nodes, nodes[x].parent) && x in nodes[nodes[x].parent].children
  {
    assert ParentAt(nodes, x);
  }

  /** Afterwards the lists of the remaining nodes agree and hold none of the subtree. */
  lemma UnlinkedLists(f: Forest, g: Forest, root: nat, visited: set<nat>, time: nat)
    requires ListsOk(f.nodes, f.mapping) && Unlinked(f, g, visited, time) && Walking(f, root, [], visited)
    ensures ListsOk(g.nodes, g.mapping)
  {
    hide Below, Distinct, Walking;
    UnlinkedLive(f, g, visited, time);
    UnlinkedMapping(f, g, visited, time);
    UnlinkedChildren(f, g, visited, time);
    UnlinkedParents(f, g, root, visited, time);
  }

  lemma UnlinkedLive(f: Forest, g: Forest, visited: set<nat>, time: nat)
    requires Unlinked(f, g, visited, time)
    ensures forall x :: Live(g.nodes, x) <==> Live(f.nodes, x) && x !in visited
    ensures forall x | x in f.nodes :: x in g.nodes && SameCore(f.nodes[x], g.nodes[x]) && g.nodes[x].outPath == f.nodes[x].outPath
    ensures forall x | x in g.nodes :: x in f.nodes
  {
    hide Filtered;
    forall x | x in f.nodes
      ensures Live(g.nodes, x) <==> Live(f.nodes, x) && x !in visited
      ensures SameCore(f.nodes[x], g.nodes[x]) && g.nodes[x].outPath == f.nodes[x].outPath
    {
      assert UnlinkedNode(f.nodes[x], g.nodes[x], if x in visited then Some(time) else f.nodes[x].finalTime, visited);
    }
  }

  lemma UnlinkedMapping(f: Forest, g: Forest, visited: set<nat>, time: nat)
    requires Unlinked(f, g, visited, time) && MappingOk(f.nodes, f.mapping)
    ensures MappingOk(g.nodes, g.mapping)
  {
    hide Distinct, UnlinkedNode;
    UnlinkedLive(f, g, visited, time);
    forall r | r in g.mapping ensures Distinct(g.mapping[r]) && forall x | x in g.mapping[r] :: Live(g.nodes, x) && g.nodes[x].rule == r {
      assert Filtered(f.mapping[r], g.mapping[r], visited);
    }
    forall x | Live(g.nodes, x) ensures g.nodes[x].rule in g.mapping && x in g.mapping[g.nodes[x].rule] {
      assert Live(f.nodes, x) && Filtered(f.mapping[f.nodes[x].rule], g.mapping[f.nodes[x].rule], visited);
    }
  }

  lemma UnlinkedChildren(f: Forest, g: Forest, visited: set<nat>, time: nat)
    requires Unlinked(f, g, visited, time) && ChildrenOk(f.nodes)
    ensures ChildrenOk(g.nodes)
  {
    hide Distinct;
    UnlinkedLive(f, g, visited, time);
    forall y | y in g.nodes ensures ChildrenAt(g.nodes, y) {
      assert ChildrenAt(f.nodes, y);
      assert UnlinkedNode(f.nodes[y], g.nodes[y], if y in visited then Some(time) else f.nodes[y].finalTime, visited);
    }
  }

  lemma UnlinkedParents(f: Forest, g: Forest, root: nat, visited: set<nat>, time: nat)
    requires Unlinked(f, g, visited, time) && ParentsOk(f.nodes) && RootsOk(f.nodes) && Walking(f, root, [], visited)
    ensures ParentsOk(g.nodes) && RootsOk(g.nodes)
  {
    hide Below, Distinct;
    UnlinkedLive(f, g, visited, time);
    forall x | Live(g.nodes, x) ensures ParentAt(g.nodes, x) {
      assert Live(f.nodes, x) && ParentAt(f.nodes, x);
      if g.nodes[x].parent != x {
        var p := f.nodes[x].parent;
        assert UnlinkedNode(f.nodes[p], g.nodes[p], if p in visited then Some(time) else f.nodes[p].finalTime, visited);
      }
    }
    forall x, y | Live(g.nodes, x) && Live(g.nodes, y) && g.nodes[x].parent == x && g.nodes[y].parent == y && g.nodes[x].rule == g.nodes[y].rule
      ensures x == y
    {
      assert Live(f.nodes, x) && Live(f.nodes, y);
    }
  }

  // --- delete_domain_path ---

  function CutPath(p: DomainPath, time: nat): DomainPath
  {
    if p.startingTime != time then p.(finalTime := Some(time)) else p
  }

  /** The paths of visited sources end now; one that has not started yet is only discarded. */
  ghost predicate PathsCut(f: Forest, g: Forest, visited: set<nat>, time: nat, queried: seq<nat>, discarded: seq<nat>)
  {
    && g.paths.Keys == f.paths.Keys && Distinct(queried) && Distinct(discarded)
    && (forall p | p in f.paths :: g.paths[p] == if f.paths[p].source in visited && f.paths[p].startingTime != time
                                                 then f.paths[p].(finalTime := Some(time)) else f.paths[p])
    && (forall p :: p in queried <==> p in f.paths && f.paths[p].source in visited && f.paths[p].startingTime != time)
    && forall p :: p in discarded <==> p in f.paths && f.paths[p].source in visited && f.paths[p].startingTime == time
  }

  lemma StartCutting(f: Forest, time: nat)
    ensures PathsCut(f, f, {}, time, [], [])
  {}

  lemma StartUnlinking(f: Forest, time: nat)
    requires ListsOk(f.nodes, f.mapping)
    ensures Unlinked(f, f, {}, time)
  {
    forall x | x in f.nodes ensures UnlinkedNode(f.nodes[x], f.nodes[x], f.nodes[x].finalTime, {}) { assert ChildrenAt(f.nodes, x); }
  }

  /** A node that is no source names no path that starts elsewhere. */
  lemma NoPathThere(f: Forest, g: Forest, visited: set<nat>, y: nat, time: nat, queried: seq<nat>, discarded: seq<nat>)
    requires PathsCut(f, g, visited, time, queried, discarded) && PathsOk(f) && y in f.nodes && f.nodes[y].outPath.None?
    ensures PathsCut(f, g, visited + {y}, time, queried, discarded)
  {}

  lemma OnePathThere(f: Forest, g: Forest, h: Forest, visited: set<nat>, y: nat, time: nat, queried: seq<nat>, discarded: seq<nat>)
    requires PathsCut(f, g, visited, time, queried, discarded) && PathsOk(f) && HasPathAt(f, y) && y !in visited
    requires var p := f.nodes[y].outPath.value; p in g.paths && h.paths == g.paths[p := CutPath(g.paths[p], time)]
    ensures var p := f.nodes[y].outPath.value;
      var now := f.paths[p].startingTime == time;
      PathsCut(f, h, visited + {y}, time, if now then queried else queried + [p], if now then discarded + [p] else discarded)
  {}

  predicate HasPathAt(f: Forest, x: nat)
  {
    x in f.nodes && HasPath(f, x)
  }

  // --- delete_subtree ---

  lemma ChildIsLater(nodes: Nodes, via: Vias, rules: Rules, c: nat, pad: Mask)
    requires c in nodes && NodeAt(nodes, via, rules, c, pad)
    ensures nodes[c].rule in rules && nodes[c].parent in nodes
    ensures nodes[c].parent != c ==>
              && nodes[c].parent < c && nodes[nodes[c].parent].rule in rules && rules[nodes[nodes[c].parent].rule].kind != Source
  {
    hide DomainIsPreimage, ComposeTransfers, IsTransfer, IsDomain, PortTransfer;
  }

  lemma VisitFacts(f: Forest, via: Vias, rules: Rules, y: nat, pad: Mask)
    requires ForestOk(f, via, rules, pad) && Live(f.nodes, y)
    ensures y in f.nodes && f.nodes[y].parent in f.nodes && f.nodes[y].rule in f.mapping && f.nodes[y].rule in rules
    ensures ChildrenAt(f.nodes, y) && forall c | c in f.nodes[y].children :: c in f.nodes && c > y
    ensures forall z | z in f.nodes && z != f.nodes[y].parent :: y !in f.nodes[z].children
    ensures f.nodes[y].parent == y ==> y !in f.nodes[y].children
    ensures forall r | r in f.mapping && r != f.nodes[y].rule :: y !in f.mapping[r]
    ensures rules[f.nodes[y].rule].kind == Source ==> f.nodes[y].children == []
  {
    hide NodeAt, Distinct, PathsOk, RulesOk;
    ChildIsLater(f.nodes, via, rules, y, pad);
    assert ChildrenAt(f.nodes, y);
    forall c | c in f.nodes[y].children ensures c in f.nodes && c > y && rules[f.nodes[y].rule].kind != Source {
      ChildIsLater(f.nodes, via, rules, c, pad);
    }
    assert f.nodes[y].children != [] ==> f.nodes[y].children[0] in f.nodes[y].children;
    forall z | z in f.nodes && z != f.nodes[y].parent ensures y !in f.nodes[z].children { assert ChildrenAt(f.nodes, z); }
  }

  /** Every live source has its path. */
  ghost predicate SourcesHavePaths(f: Forest, rules: Rules)
  {
    forall x | Live(f.nodes, x) && f.nodes[x].rule in rules ::
      if rules[f.nodes[x].rule].kind == Source then HasPathAt(f, x) else f.nodes[x].outPath.None?
  }

  lemma QueueFacts(f: Forest, g: Forest, root: nat, queue: seq<nat>, visited: set<nat>, time: nat)
    requires Walking(f, root, queue, visited) && Unlinked(f, g, visited, time) && queue != []
    ensures queue[0] in queue && Live(f.nodes, queue[0]) && queue[0] !in visited && queue[0] in g.nodes
    ensures g.nodes[queue[0]].rule == f.nodes[queue[0]].rule && g.nodes[queue[0]].outPath == f.nodes[queue[0]].outPath
    ensures Filtered(f.nodes[queue[0]].children, g.nodes[queue[0]].children, visited)
  {
    hide Below, Distinct, Filtered;
    assert queue[0] in queue && Live(f.nodes, queue[0]);
    assert UnlinkedNode(f.nodes[queue[0]], g.nodes[queue[0]], if queue[0] in visited then Some(time) else f.nodes[queue[0]].finalTime, visited);
  }

  lemma FilteredNone(s: seq<nat>, r: seq<nat>, visited: set<nat>)
    requires Filtered(s, r, visited)
    ensures s == [] ==> r == []
  {
    if |r| > 0 { assert r[0] in s; }
  }

  lemma UnlinkedPaths(f: Forest, g: Forest, h: Forest, visited: set<nat>, time: nat)
    requires Unlinked(f, g, visited, time) && h == g.(paths := h.paths)
    ensures Unlinked(f, h, visited, time)
  {
    hide UnlinkedNode, Filtered;
  }

  lemma QueriedIds(f: Forest, g: Forest, visited: set<nat>, time: nat, queried: seq<nat>, discarded: seq<nat>, y: nat)
    requires PathsCut(f, g, visited, time, queried, discarded) && HasPathAt(f, y) && y !in visited
    ensures f.nodes[y].outPath.value in g.paths && g.paths[f.nodes[y].outPath.value] == f.paths[f.nodes[y].outPath.value]
  {}

  lemma VisitedLess(all: set<nat>, visited: set<nat>, y: nat)
    requires y in all && y !in visited
    ensures all - (visited + {y}) < all - visited
  {
    assert y in all - visited;
  }

  /** delete_subtree(): `seen` lists the visited nodes in the order of their visits. */
  method DeleteSubtree(f: Forest, root: nat, time: nat, rules: Rules, ghost via: Vias, ghost pad: Mask)
    returns (g: Forest, queried: seq<nat>, discarded: seq<nat>, ghost seen: seq<nat>, ghost visited: set<nat>)
    requires ForestOk(f, via, rules, pad) && Live(f.nodes, root) && SourcesHavePaths(f, rules)
    ensures Distinct(seen) && forall x :: x in seen <==> x in visited
    ensures forall x :: x in visited <==> Live(f.nodes, x) && Below(f.nodes, root, x)
    ensures Unlinked(f, g, visited, time) && PathsCut(f, g, visited, time, queried, discarded)
    ensures ForestOk(g, via, rules, pad) && SourcesHavePaths(g, rules)
  {
    hide ForestOk, Unlinked, Walking, PathsCut, Below, SourcesHavePaths, Filtered, ChildrenAt, Distinct;
    g, queried, discarded, seen, visited := f, [], [], [], {};
    var queue := [root];
    ForestFacts(f, via, rules, pad);
    StartWalking(f, root);
    StartUnlinking(f, time);
    StartCutting(f, time);
    NoneDistinct<nat>();
    while queue != []
      invariant Walking(f, root, queue, visited) && Unlinked(f, g, visited, time)
      invariant PathsCut(f, g, visited, time, queried, discarded)
      invariant Distinct(seen) && forall x :: x in seen <==> x in visited
      decreases f.nodes.Keys - visited
    {
      QueueFacts(f, g, root, queue, visited, time);
      var y := queue[0];
      VisitFacts(f, via, rules, y, pad);
      ghost var g0, visited0, queue0 := g, visited, queue;
      var children := if rules[g.nodes[y].rule].kind != Source then g.nodes[y].children else [];
      if rules[g.nodes[y].rule].kind == Source { FilteredNone(f.nodes[y].children, g.nodes[y].children, visited); }
      WalkStep(f, root, queue, visited, children);
      UnlinkOne(f, g, visited, y, time);
      g := SetNodeFinalTime(g, y, time);
      VisitedPath(f, rules, y);
      if rules[g.nodes[y].rule].kind == Source {
        QueriedIds(f, g0, visited0, time, queried, discarded, y);
        var p := g.nodes[y].outPath.value;
        ghost var g1, queried0, discarded0 := g, queried, discarded;
        if g.paths[p].startingTime != time {
          queried := queried + [p];
        } else {
          discarded := discarded + [p];
        }
        g := g.(paths := g.paths[p := CutPath(g.paths[p], time)]);
        UnlinkedPaths(f, g1, g, visited + {y}, time);
        OnePathThere(f, g0, g, visited, y, time, queried0, discarded0);
      } else {
        NoPathThere(f, g0, visited, y, time, queried, discarded);
        SamePathsCut(f, g0, g, visited + {y}, time, queried, discarded);
      }
      DistinctAppend(seen, y);
      seen, visited := seen + [y], visited + {y};
      VisitedLess(f.nodes.Keys, visited0, y);
      queue := queue[1..] + children;
    }
    forall x ensures x in visited <==> Live(f.nodes, x) && Below(f.nodes, root, x) { AllVisited(f, root, visited, x); }
    Removed(f, g, via, rules, root, visited, time, queried, discarded, pad);
  }

  lemma ForestFacts(f: Forest, via: Vias, rules: Rules, pad: Mask)
    requires ForestOk(f, via, rules, pad)
    ensures ListsOk(f.nodes, f.mapping) && PathsOk(f) && ParentsOk(f.nodes)
  {}

  lemma VisitedPath(f: Forest, rules: Rules, y: nat)
    requires SourcesHavePaths(f, rules) && Live(f.nodes, y) && f.nodes[y].rule in rules
    ensures if rules[f.nodes[y].rule].kind == Source then HasPathAt(f, y) else f.nodes[y].outPath.None?
  {}

  lemma SamePathsCut(f: Forest, g: Forest, h: Forest, visited: set<nat>, time: nat, queried: seq<nat>, discarded: seq<nat>)
    requires PathsCut(f, g, visited, time, queried, discarded) && h.paths == g.paths
    ensures PathsCut(f, h, visited, time, queried, discarded)
  {}

  lemma Removed(f: Forest, g: Forest, via: Vias, rules: Rules, root: nat, visited: set<nat>, time: nat,
                queried: seq<nat>, discarded: seq<nat>, pad: Mask)
    requires ForestOk(f, via, rules, pad) && SourcesHavePaths(f, rules) && Walking(f, root, [], visited)
    requires Unlinked(f, g, visited, time) && PathsCut(f, g, visited, time, queried, discarded)
    ensures ForestOk(g, via, rules, pad) && SourcesHavePaths(g, rules)
  {
    hide NodeAt, ListsOk, Walking, UnlinkedNode, Filtered, RulesOk;
    UnlinkedLive(f, g, visited, time);
    UnlinkedLists(f, g, root, visited, time);
    forall x | x in g.nodes ensures NodeAt(g.nodes, via, rules, x, pad) {
      NodeKept(f.nodes, via, g.nodes, via, rules, x, pad);
    }
  }
}
