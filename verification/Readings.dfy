/** The readings of path counters in the order of their queries, and the sums that a path
    forest makes of them (process_stats_list and process_path_query in
    src/flow_predictor/FlowPredictor.cpp). */
module Readings {
  import opened Options
  import opened Forests
  import opened SubtreeGrowth
  import opened SubtreeRemoval
  import opened PathCounters
  import opened FlowPredictors
  import opened Stats
  import opened StatsManagers

  type Paths = map<nat, DomainPath>

  predicate AtMost(a: Counter, b: Counter)
  {
    a.packets <= b.packets && a.bytes <= b.bytes
  }

  /** The counter of a path's interceptor when the query with a given key is answered. */
  type Truth = (nat, nat) -> Counter

  /** Counters do not fall in the order of the queries. */
  ghost predicate Rising(truth: Truth)
  {
    forall p, j, k | j <= k :: AtMost(truth(p, j), truth(p, k))
  }

  /** A reply to a path query carries the path's counter at that query. */
  predicate Truthful(q: Query, truth: Truth)
  {
    q.subject.PathOf? && SOURCE_RULE in q.fields ==> q.fields[SOURCE_RULE] == RuleFields(truth(q.subject.path, q.key))
  }

  predicate ListTruthful(list: seq<Query>, truth: Truth)
  {
    forall i | 0 <= i < |list| :: Truthful(list[i], truth)
  }

  // --- what a list of queries does to the paths ---

  /** No rule is asked for, paths exist, and everything is answered. */
  predicate Readable(list: seq<Query>, paths: Paths)
  {
    forall i | 0 <= i < |list| :: CanRead(list[i], paths)
  }

  predicate CanRead(q: Query, paths: Paths)
  {
    !q.subject.RuleOf? && (q.subject.PathOf? ==> q.subject.path in paths && Answered(q, SOURCE_RULE))
  }

  /** The position of the last query for path p among the first i. */
  function LastQuery(list: seq<Query>, i: nat, p: nat): (r: Option<nat>)
    requires i <= |list|
    ensures r.Some? ==> r.value < i && list[r.value].subject == PathOf(p)
    ensures forall k | 0 <= k < i && list[k].subject == PathOf(p) :: r.Some? && k <= r.value
  {
    if i == 0 then None else if list[i - 1].subject == PathOf(p) then Some(i - 1) else LastQuery(list, i - 1, p)
  }

  /** The paths after the first i queries: every queried path has its last reading. */
  ghost predicate LastRead(a: Paths, b: Paths, list: seq<Query>, i: nat)
    requires i <= |list| && Readable(list, a)
  {
    b.Keys == a.Keys && forall p | p in a :: b[p] == AfterLast(a[p], list, LastQuery(list, i, p))
  }

  function AfterLast(path: DomainPath, list: seq<Query>, r: Option<nat>): DomainPath
    requires r.Some? ==> r.value < |list| && Answered(list[r.value], SOURCE_RULE)
  {
    if r.Some? then path.(last := list[r.value].fields[SOURCE_RULE].counter) else path
  }

  // --- counting without wrap-around ---

  /** What has been counted on a path so far, as numbers without bound. */
  datatype Sum = Sum(packets: nat, bytes: nat)

  type Carried = map<nat, Sum>

  function CarriedOn(carried: Carried, p: nat): Sum
  {
    if p in carried then carried[p] else Sum(0, 0)
  }

  /** One more difference of two readings. */
  function Carry(carried: Carried, p: nat, d: Counter): Carried
  {
    carried[p := Sum(CarriedOn(carried, p).packets + d.packets, CarriedOn(carried, p).bytes + d.bytes)]
  }

  /** The key of the query that was counted last, by path. */
  type Read = map<nat, nat>

  function NextRead(read: Read, q: Query): Read
  {
    match q.subject
    case PathOf(p) => read[p := q.key]
    case _ => read
  }

  function ReadAll(read: Read, list: seq<Query>, i: nat): Read
    requires i <= |list|
  {
    if i == 0 then read else NextRead(ReadAll(read, list, i - 1), list[i - 1])
  }

  /** The counter that was read last. */
  function LastTruth(read: Read, truth: Truth, p: nat): Counter
  {
    if p in read then truth(p, read[p]) else ZERO
  }

  /** Everything counted so far is the true counter of each path at the query that was
      counted last, which is no later than k: no difference has wrapped around. */
  ghost predicate CountedTo(paths: Paths, carried: Carried, read: Read, truth: Truth, k: nat)
  {
    && (forall p | p in read :: p in paths && read[p] <= k) && (forall p | p in carried :: p in paths)
    && forall p | p in paths ::
         && paths[p].last == LastTruth(read, truth, p)
         && CarriedOn(carried, p) == Sum(paths[p].last.packets, paths[p].last.bytes)
  }

  lemma DifferenceIsExact(a: Counter, b: Counter)
    requires AtMost(b, a)
    ensures Difference(a, b).packets == a.packets - b.packets && Difference(a, b).bytes == a.bytes - b.bytes
  {}

  lemma CountedLater(paths: Paths, carried: Carried, read: Read, truth: Truth, j: nat, k: nat)
    requires CountedTo(paths, carried, read, truth, j) && j <= k
    ensures CountedTo(paths, carried, read, truth, k)
  {
    hide LastTruth, CarriedOn;
  }

  /** New paths have not been read. */
  lemma CountedMore(a: Paths, b: Paths, carried: Carried, read: Read, truth: Truth, k: nat)
    requires CountedTo(a, carried, read, truth, k)
    requires forall p | p in a :: p in b && b[p].last == a[p].last
    requires forall p | p in b && p !in a :: b[p].last == ZERO
    ensures CountedTo(b, carried, read, truth, k)
  {}

  lemma CountedSame(a: Paths, b: Paths, carried: Carried, read: Read, truth: Truth, k: nat)
    requires CountedTo(a, carried, read, truth, k) && a.Keys == b.Keys && forall p | p in a :: b[p].last == a[p].last
    ensures CountedTo(b, carried, read, truth, k)
  {
    hide LastTruth, CarriedOn;
  }

  /** A path is read at a later query: the difference does not wrap around. */
  lemma CountedNext(a: Paths, b: Paths, carried: Carried, read: Read, truth: Truth, k: nat, p: nat, key: nat)
    requires Rising(truth) && CountedTo(a, carried, read, truth, k) && k <= key && p in a
    requires b == a[p := a[p].(last := truth(p, key))]
    ensures AtMost(a[p].last, truth(p, key))
    ensures CountedTo(b, Carry(carried, p, Difference(truth(p, key), a[p].last)), read[p := key], truth, key)
  {
    assert AtMost(a[p].last, truth(p, key)) by {
      if p in read { assert AtMost(truth(p, read[p]), truth(p, key)); }
    }
    hide Rising, Difference;
    DifferenceIsExact(truth(p, key), a[p].last);
  }

  // --- process_stats_list ---

  /** Only counters and readings differ. */
  ghost predicate SameStructure(f: Forest, g: Forest)
  {
    && g == f.(nodes := g.nodes, counters := g.counters, paths := g.paths) && g.paths.Keys == f.paths.Keys
    && SameTrees(f.nodes, g.nodes) && forall x | x in f.nodes :: g.nodes[x].outPath == f.nodes[x].outPath
  }

  lemma SameStructureTrans(f: Forest, g: Forest, h: Forest)
    requires SameStructure(f, g) && SameStructure(g, h)
    ensures SameStructure(f, h)
  {}

  lemma SameStructureSelf(f: Forest)
    ensures SameStructure(f, f)
  {}

  lemma CountedStructure(f: Forest, g: Forest, p: nat, reading: Counter)
    requires p in f.paths && PathCounted(f, g, p, reading)
    ensures SameStructure(f, g) && g.paths == f.paths[p := f.paths[p].(last := reading)]
  {
    hide CountedNode, Below, Difference, SameTrees;
    CountedTrees(f, g, p, reading);
  }

  lemma LastReadStart(a: Paths, list: seq<Query>)
    requires Readable(list, a)
    ensures LastRead(a, a, list, 0)
  {}

  /** The paths after one query. */
  function NextPaths(paths: Paths, q: Query): Paths
    requires CanRead(q, paths)
  {
    match q.subject
    case PathOf(p) => paths[p := paths[p].(last := q.fields[SOURCE_RULE].counter)]
    case _ => paths
  }

  lemma LastReadNext(a: Paths, m: Paths, list: seq<Query>, i: nat)
    requires i < |list| && Readable(list, a) && LastRead(a, m, list, i)
    ensures CanRead(list[i], m) && LastRead(a, NextPaths(m, list[i]), list, i + 1)
  {
    var b := NextPaths(m, list[i]);
    forall p | p in a ensures b[p] == AfterLast(a[p], list, LastQuery(list, i + 1, p)) {
      assert m[p] == AfterLast(a[p], list, LastQuery(list, i, p));
    }
  }

  /** The greatest key among the first i queries, or k. */
  function LastKey(list: seq<Query>, i: nat, k: nat): nat
    requires i <= |list|
  {
    if i == 0 then k else list[i - 1].key
  }

  /** The list continues the queries up to k with true readings. */
  ghost predicate Continues(list: seq<Query>, truth: Truth, k: nat)
  {
    Rising(truth) && ListTruthful(list, truth) && KeysRise(list) && forall i | 0 <= i < |list| :: k <= list[i].key
  }

  lemma KeysUpTo(list: seq<Query>, i: nat, truth: Truth, k: nat)
    requires i < |list| && Continues(list, truth, k)
    ensures LastKey(list, i, k) <= list[i].key
    ensures Rising(truth) && Truthful(list[i], truth)
  {
    hide Rising, Truthful;
  }

  lemma TruthfulReading(q: Query, p: nat, truth: Truth)
    requires q.subject == PathOf(p) && Answered(q, SOURCE_RULE) && Truthful(q, truth)
    ensures q.fields[SOURCE_RULE].RuleFields? && q.fields[SOURCE_RULE].counter == truth(p, q.key)
  {}

  /** process_path_query(), process_link_query(): one query. A true reading that continues
      those before does not wrap around. */
  method PassQuery(predictor: FlowPredictor, q: Query, ghost carried0: Carried, ghost read: Read, ghost truth: Truth, ghost j: nat)
    returns (ghost carried: Carried)
    requires predictor.Valid() && CanRead(q, predictor.forest.paths)
    modifies predictor`forest
    ensures predictor.Valid() && SameStructure(old(predictor.forest), predictor.forest)
    ensures predictor.forest.paths == NextPaths(old(predictor.forest.paths), q)
    ensures Rising(truth) && Truthful(q, truth) && j <= q.key && CountedTo(old(predictor.forest.paths), carried0, read, truth, j) ==>
              CountedTo(predictor.forest.paths, carried, NextRead(read, q), truth, q.key)
  {
    hide CountedTo, SameStructure, PathCounted, Carry, Difference, Rising, Truthful;
    carried := carried0;
    ghost var f := predictor.forest;
    match q.subject
    case PathOf(p) =>
      var reading := q.fields[SOURCE_RULE].counter;
      predictor.PassPath(p, reading);
      CountedStructure(f, predictor.forest, p, reading);
      carried := Carry(carried, p, Difference(reading, f.paths[p].last));
      if Rising(truth) && Truthful(q, truth) && j <= q.key && CountedTo(f.paths, carried0, read, truth, j) {
        TruthfulReading(q, p, truth);
        CountedNext(f.paths, predictor.forest.paths, carried0, read, truth, j, p, q.key);
      }
    case LinkOf(_, _) =>
      SameStructureSelf(f);
      if j <= q.key && CountedTo(f.paths, carried0, read, truth, j) { CountedLater(f.paths, carried0, read, truth, j, q.key); }
    case RuleOf(_) => assert false;
  }

  /** process_stats_list(): every path in the list gets its last reading. When the list
      continues true readings, no difference of two readings wraps around. */
  method ProcessStatsList(predictor: FlowPredictor, list: seq<Query>, ghost carried0: Carried, ghost read: Read, ghost truth: Truth, ghost k: nat)
    returns (ghost carried: Carried)
    requires predictor.Valid() && Readable(list, predictor.forest.paths)
    modifies predictor`forest
    ensures predictor.Valid() && SameStructure(old(predictor.forest), predictor.forest)
    ensures LastRead(old(predictor.forest.paths), predictor.forest.paths, list, |list|)
    ensures Continues(list, truth, k) && CountedTo(old(predictor.forest.paths), carried0, read, truth, k) ==>
              CountedTo(predictor.forest.paths, carried, ReadAll(read, list, |list|), truth, LastKey(list, |list|, k))
  {
    hide CountedTo, Continues, LastRead, SameStructure, Rising, Truthful, NextPaths, NextRead, CanRead;
    carried := carried0;
    ghost var f := predictor.forest;
    ghost var honest := Continues(list, truth, k) && CountedTo(f.paths, carried0, read, truth, k);
    SameStructureSelf(f);
    LastReadStart(f.paths, list);
    for i := 0 to |list|
      invariant predictor.Valid() && SameStructure(f, predictor.forest)
      invariant LastRead(f.paths, predictor.forest.paths, list, i)
      invariant honest ==> CountedTo(predictor.forest.paths, carried, ReadAll(read, list, i), truth, LastKey(list, i, k))
    {
      ghost var g := predictor.forest;
      if honest { KeysUpTo(list, i, truth, k); }
      LastReadNext(f.paths, g.paths, list, i);
      carried := PassQuery(predictor, list[i], carried, ReadAll(read, list, i), truth, LastKey(list, i, k));
      SameStructureTrans(f, g, predictor.forest);
    }
  }

  // --- what nodes count ---

  /** The true readings of the paths below k that go through node x, as numbers. */
  ghost function TrueTotal(nodes: Nodes, paths: Paths, read: Read, truth: Truth, x: nat, k: nat, bytes: bool): nat
  {
    if k == 0 then 0
    else TrueTotal(nodes, paths, read, truth, x, k - 1, bytes) +
         if k - 1 in paths && Below(nodes, x, paths[k - 1].source) then Amount(LastTruth(read, truth, k - 1), bytes) else 0
  }

  lemma {:induction false} TotalIsTrue(nodes: Nodes, paths: Paths, carried: Carried, read: Read, truth: Truth, j: nat, x: nat, k: nat, bytes: bool)
    requires CountedTo(paths, carried, read, truth, j)
    ensures Total(nodes, paths, x, k, bytes) == TrueTotal(nodes, paths, read, truth, x, k, bytes)
  {
    hide Below, LastTruth, CarriedOn;
    if k > 0 { TotalIsTrue(nodes, paths, carried, read, truth, j, x, k - 1, bytes); }
  }

  /** A node's counter is the sum of the true readings of the paths through it, as long as
      that fits 64 bits. */
  lemma NodeCountsTruth(f: Forest, carried: Carried, read: Read, truth: Truth, j: nat, x: nat, bytes: bool)
    requires CountersOk(f) && x in f.nodes && CountedTo(f.paths, carried, read, truth, j)
    requires TrueTotal(f.nodes, f.paths, read, truth, x, f.nextPath, bytes) < 0x1_0000_0000_0000_0000
    ensures Amount(f.nodes[x].counter, bytes) == TrueTotal(f.nodes, f.paths, read, truth, x, f.nextPath, bytes)
  {
    hide CountersOk, CountedTo, Total, TrueTotal;
    TotalIsTrue(f.nodes, f.paths, carried, read, truth, j, x, f.nextPath, bytes);
    CounterIsTotal(f, x, bytes);
  }
}
