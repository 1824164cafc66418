/** predict_subtree of src/flow_predictor/FlowPredictor.cpp: the paths that end at the
    sources of a subtree, found by the breadth-first walk of forEachSubtreeNode. */
module PathQueries {
  import opened Sequences
  import opened Masks
  import opened Tables
  import opened Forests
  import opened ForestGrowth
  import opened SubtreeRemoval

  /** Path p starts at a live source in the subtree of root. */
  predicate InSubtree(f: Forest, root: nat, p: nat)
  {
    p in f.paths && Live(f.nodes, f.paths[p].source) && Below(f.nodes, root, f.paths[p].source)
  }

  /** The paths of the visited sources. */
  ghost predicate Collected(f: Forest, visited: set<nat>, paths: seq<nat>)
  {
    Distinct(paths) && forall p :: p in paths <==> p in f.paths && f.paths[p].source in visited
  }

  lemma NothingCollected(f: Forest)
    ensures Collected(f, {}, [])
  {}

  lemma CollectPath(f: Forest, visited: set<nat>, paths: seq<nat>, y: nat)
    requires Collected(f, visited, paths) && PathsOk(f) && HasPathAt(f, y) && y !in visited
    ensures Collected(f, visited + {y}, paths + [f.nodes[y].outPath.value])
  {
    DistinctAppend(paths, f.nodes[y].outPath.value);
  }

  lemma CollectNone(f: Forest, visited: set<nat>, paths: seq<nat>, y: nat)
    requires Collected(f, visited, paths) && PathsOk(f) && y in f.nodes && f.nodes[y].outPath.None?
    ensures Collected(f, visited + {y}, paths)
  {}

  /** The children of the next node have not been visited. */
  lemma ChildrenFiltered(f: Forest, root: nat, queue: seq<nat>, visited: set<nat>)
    requires Walking(f, root, queue, visited) && queue != [] && queue[0] in f.nodes && ChildrenAt(f.nodes, queue[0])
    requires forall c | c in f.nodes[queue[0]].children :: c in f.nodes && c > queue[0]
    ensures Live(f.nodes, queue[0]) && queue[0] !in visited
    ensures Filtered(f.nodes[queue[0]].children, f.nodes[queue[0]].children, visited)
  {
    hide Below;
    var y := queue[0];
    assert y in queue;
    forall c | c in f.nodes[y].children ensures c !in visited {
      if c in visited { RootIsFirst(f, root, queue, visited, y, c); }
    }
  }

  lemma RootIsFirst(f: Forest, root: nat, queue: seq<nat>, visited: set<nat>, y: nat, c: nat)
    requires Walking(f, root, queue, visited) && y in queue && c in visited && c in f.nodes && f.nodes[c].parent == y
    ensures c == root && !(c > y)
  {
    BelowIsLater(f.nodes, root, y);
  }

  /** The paths of all sources in the subtree, each once. */
  method SubtreePaths(f: Forest, root: nat, rules: Rules, ghost via: Vias, ghost pad: Mask) returns (paths: seq<nat>)
    requires ForestOk(f, via, rules, pad) && SourcesHavePaths(f, rules) && Live(f.nodes, root)
    ensures Distinct(paths) && forall p :: p in paths <==> InSubtree(f, root, p)
  {
    hide ForestOk, Walking, Below, SourcesHavePaths, Filtered, ChildrenAt, Distinct, Collected, PathsOk;
    paths := [];
    ghost var visited: set<nat> := {};
    var queue := [root];
    ForestFacts(f, via, rules, pad);
    StartWalking(f, root);
    NothingCollected(f);
    while queue != []
      invariant Walking(f, root, queue, visited) && Collected(f, visited, paths)
      decreases f.nodes.Keys - visited
    {
      var y := queue[0];
      FirstIsLive(f, root, queue, visited);
      VisitFacts(f, via, rules, y, pad);
      ChildrenFiltered(f, root, queue, visited);
      VisitedPath(f, rules, y);
      WalkStep(f, root, queue, visited, f.nodes[y].children);
      if rules[f.nodes[y].rule].kind == Source {
        CollectPath(f, visited, paths, y);
        paths := paths + [f.nodes[y].outPath.value];
      } else {
        CollectNone(f, visited, paths, y);
      }
      VisitedLess(f.nodes.Keys, visited, y);
      visited := visited + {y};
      queue := queue[1..] + f.nodes[y].children;
    }
    forall x ensures x in visited <==> Live(f.nodes, x) && Below(f.nodes, root, x) { AllVisited(f, root, visited, x); }
    CollectedAll(f, visited, paths, root);
  }

  lemma FirstIsLive(f: Forest, root: nat, queue: seq<nat>, visited: set<nat>)
    requires Walking(f, root, queue, visited) && queue != []
    ensures Live(f.nodes, queue[0]) && queue[0] !in visited
  {
    hide Below;
    assert queue[0] in queue;
  }

  lemma CollectedAll(f: Forest, visited: set<nat>, paths: seq<nat>, root: nat)
    requires Collected(f, visited, paths) && forall x :: x in visited <==> Live(f.nodes, x) && Below(f.nodes, root, x)
    ensures Distinct(paths) && forall p :: p in paths <==> InSubtree(f, root, p)
  {
    hide Below, Distinct;
  }
}
