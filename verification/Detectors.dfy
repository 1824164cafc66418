/** The detector's tasks on the predictor and its requests (src/Detector.cpp, passRequest,
    predictFlow, updateEdges and update_predictions in
    src/flow_predictor/FlowPredictor.cpp). Tasks run one after another. */
module Detectors {
  import opened Sequences
  import opened Masks
  import opened Edges
  import opened Forests
  import opened ForestGrowth
  import opened SubtreeGrowth
  import opened SubtreeRemoval
  import opened PathQueries
  import opened PathCounters
  import opened Coverings
  import opened FlowPredictors
  import opened Stats
  import opened StatsManagers
  import opened Protocols
  import opened Readings

  // --- what the queries ask for ---

  /** No rule is asked for, and paths that are asked for exist. */
  predicate QueryOk(q: Query, paths: Paths)
  {
    !q.subject.RuleOf? && (q.subject.PathOf? ==> q.subject.path in paths)
  }

  predicate ListOk(list: seq<Query>, paths: Paths)
  {
    forall i | 0 <= i < |list| :: QueryOk(list[i], paths)
  }

  predicate QueriesOk(timeline: Timeline, paths: Paths)
  {
    forall t | t in timeline :: ListOk(timeline[t].list, paths)
  }

  lemma QueriesMorePaths(timeline: Timeline, a: Paths, b: Paths)
    requires QueriesOk(timeline, a) && forall p | p in a :: p in b
    ensures QueriesOk(timeline, b)
  {}

  lemma ListIsReadable(list: seq<Query>, paths: Paths)
    requires ListOk(list, paths) && forall i, kind | 0 <= i < |list| && NeedsKind(list[i].subject, kind) :: Answered(list[i], kind)
    ensures Readable(list, paths)
  {
    hide Answered;
    forall i | 0 <= i < |list| ensures CanRead(list[i], paths) {
      if list[i].subject.PathOf? { assert NeedsKind(list[i].subject, SOURCE_RULE); }
    }
  }

  // --- the records of queries that can be discarded ---

  predicate LivePath(f: Forest, p: nat)
  {
    p in f.paths && Live(f.nodes, f.paths[p].source)
  }

  /** The query with this key asks for path p. */
  predicate Recorded(list: seq<Query>, key: nat, p: nat)
  {
    exists i :: 0 <= i < |list| && list[i].key == key && list[i].subject == PathOf(p)
  }

  /** Every recorded query of a path that can still be discarded is in the open bucket. */
  predicate RecordsOk(current: map<nat, nat>, list: seq<Query>, f: Forest)
  {
    forall p | p in current :: p in f.paths && (LivePath(f, p) ==> Recorded(list, current[p], p))
  }

  lemma RecordedHasKey(list: seq<Query>, key: nat, p: nat)
    requires Recorded(list, key, p)
    ensures HasKey(list, key)
  {}

  lemma RecordedAppend(list: seq<Query>, q: Query, key: nat, p: nat)
    requires Recorded(list, key, p)
    ensures Recorded(list + [q], key, p)
  {
    var i :| 0 <= i < |list| && list[i].key == key && list[i].subject == PathOf(p);
    assert (list + [q])[i] == list[i];
  }

  lemma NewRecord(list: seq<Query>, q: Query, p: nat)
    requires q.subject == PathOf(p)
    ensures Recorded(list + [q], q.key, p)
  {
    assert (list + [q])[|list|] == q;
  }

  /** Discarding the query of another path leaves the record of p. */
  lemma RecordedStays(list: seq<Query>, key: nat, p: nat, other: nat, r: nat)
    requires KeysDistinct(list) && Recorded(list, key, p) && Recorded(list, other, r) && r != p
    ensures Recorded(Without(list, other), key, p)
  {
    hide Without, KeysDistinct;
    WithoutFacts(list, other);
    var i :| 0 <= i < |list| && list[i].key == key && list[i].subject == PathOf(p);
    var k :| 0 <= k < |list| && list[k].key == other && list[k].subject == PathOf(r);
    KeysDiffer(list, i, k);
    assert list[i] in list;
    var w := Without(list, other);
    var j :| 0 <= j < |w| && w[j] == list[i];
  }

  lemma KeysDiffer(list: seq<Query>, i: nat, k: nat)
    requires KeysDistinct(list) && i < |list| && k < |list| && i != k
    ensures list[i].key != list[k].key
  {
    if k < i { assert list[k].key != list[i].key; }
  }

  // --- true readings ---

  predicate AllTruthful(timeline: Timeline, truth: Truth)
  {
    forall t | t in timeline :: ListTruthful(timeline[t].list, truth)
  }

  /** No query that is still in the timeline is older than k. */
  predicate KeysFrom(timeline: Timeline, k: nat)
  {
    forall t | t in timeline :: forall i | 0 <= i < |timeline[t].list| :: k <= timeline[t].list[i].key
  }

  /** The reply to a path query carries the path's counter at that query. */
  ghost predicate ReplyTruthful(b: Bucket, pending: Pending, id: nat, fields: Fields, truth: Truth)
  {
    forall i: nat | Asks(b, pending, i, id) && b.list[i].subject.PathOf? :: fields == RuleFields(truth(b.list[i].subject.path, b.list[i].key))
  }

  /** What a reply keeps of the queries. */
  lemma AnswerKeeps(t0: Timeline, deque: seq<nat>, pending: Pending, id: nat, fields: Fields, paths: Paths, k: nat)
    requires ProtocolOk(t0, deque, pending) && id in pending && pending[id].time in t0 && id in t0[pending[id].time].expected
    requires QueriesOk(t0, paths) && KeysFrom(t0, k)
    ensures var t1 := t0[pending[id].time := Answer(t0[pending[id].time], id, pending[id].kind, fields)];
      QueriesOk(t1, paths) && KeysFrom(t1, k)
  {
    hide SentOk, Answer;
    var b := t0[pending[id].time];
    AnswerKeys(b, id, pending[id].kind, fields);
    var c := Answer(b, id, pending[id].kind, fields);
    forall i | 0 <= i < |c.list| ensures QueryOk(c.list[i], paths) && k <= c.list[i].key {
      assert QueryOk(b.list[i], paths);
    }
  }

  lemma AnswerTruthful(t0: Timeline, deque: seq<nat>, pending: Pending, id: nat, fields: Fields, truth: Truth)
    requires ProtocolOk(t0, deque, pending) && id in pending && pending[id].time in t0 && pending[id].time != deque[0]
    requires id in t0[pending[id].time].expected && AllTruthful(t0, truth)
    requires ReplyTruthful(t0[pending[id].time], pending, id, fields, truth)
    ensures AllTruthful(t0[pending[id].time := Answer(t0[pending[id].time], id, pending[id].kind, fields)], truth)
  {
    hide SentOk, Answer;
    var b, t := t0[pending[id].time], pending[id].time;
    var i := AnswerAt(b, t, pending, id, fields);
    assert ListTruthful(b.list, truth);
    var c := Answer(b, id, pending[id].kind, fields);
    forall k | 0 <= k < |c.list| ensures Truthful(c.list[k], truth) {
      assert Truthful(b.list[k], truth);
    }
  }

  /** The keys of the oldest bucket precede all others. */
  lemma KeysAfter(timeline: Timeline, deque: seq<nat>, lastTime: nat, nextKey: nat, k: nat)
    requires TimelineOk(timeline, deque, lastTime) && Keyed(timeline, nextKey) && KeysFrom(timeline, k) && |deque| > 1
    requires Oldest(deque) in timeline && timeline[Oldest(deque)].list != []
    ensures var list := timeline[Oldest(deque)].list;
      var j := LastKey(list, |list|, k);
      && KeysRise(list) && (forall i | 0 <= i < |list| :: k <= list[i].key) && k <= j < nextKey
      && KeysFrom(timeline - {Oldest(deque)}, j)
  {
    hide KeysBefore;
    DequeFacts(timeline, deque, lastTime);
    var o := Oldest(deque);
    var list := timeline[o].list;
    var j := LastKey(list, |list|, k);
    forall t, i | t in timeline - {o} && 0 <= i < |timeline[t].list| ensures j <= timeline[t].list[i].key {
      assert o < t && KeysBefore(list, timeline[t].list);
      BeforeAt(list, timeline[t].list, |list| - 1, i);
    }
  }

  lemma BeforeAt(a: seq<Query>, b: seq<Query>, i: nat, j: nat)
    requires KeysBefore(a, b) && i < |a| && j < |b|
    ensures a[i].key < b[j].key
  {}

  /** What true replies so far mean. */
  ghost predicate HonestOk(timeline: Timeline, paths: Paths, carried: Carried, read: Read, truth: Truth, k: nat)
  {
    Rising(truth) && AllTruthful(timeline, truth) && CountedTo(paths, carried, read, truth, k)
  }

  // --- predictions ---

  datatype Prediction = Prediction(requestId: nat, rule: nat)

  function At(predictions: map<nat, seq<Prediction>>, t: nat): seq<Prediction>
  {
    if t in predictions then predictions[t] else []
  }

  /** One query more for each path. */
  predicate AsksPaths(l0: seq<Query>, l1: seq<Query>, paths: seq<nat>)
  {
    && |l1| == |l0| + |paths| && l1[..|l0|] == l0
    && forall i | 0 <= i < |paths| :: l1[|l0| + i].subject == PathOf(paths[i])
  }

  /** A live node of the rule lies above the source of path p. */
  predicate PathOfRule(f: Forest, rule: nat, p: nat)
  {
    rule in f.mapping && exists z :: z in f.mapping[rule] && InSubtree(f, z, p)
  }

  // --- the state between tasks ---

  /** The state of the detector, its manager and its predictor. */
  datatype State = State(timeline: Timeline, deque: seq<nat>, lastTime: nat, current: map<nat, nat>, nextKey: nat, forest: Forest,
                         pending: Pending, left: seq<nat>, truth: Truth, honest: bool, carried: Carried, read: Read, reached: nat)

  ghost predicate StateOk(s: State)
  {
    && s.deque != [] && s.deque[0] in s.timeline
    && TimelineOk(s.timeline, s.deque, s.lastTime) && ProtocolOk(s.timeline, s.deque, s.pending) && LeftInOrder(s.left, s.deque)
    && QueriesOk(s.timeline, s.forest.paths)
    && RecordsOk(s.current, s.timeline[s.deque[0]].list, s.forest)
    && KeysFrom(s.timeline, s.reached) && s.reached <= s.nextKey
    && (s.honest ==> HonestOk(s.timeline, s.forest.paths, s.carried, s.read, s.truth, s.reached))
  }

  lemma StartOk(s: State)
    requires s.timeline == map[0 := Bucket([], map[])] && s.deque == [0] && s.lastTime == 1 && s.current == map[] && s.nextKey == 0
    requires s.pending == map[] && s.left == [] && s.forest.paths == map[] && s.read == map[] && s.carried == map[] && s.reached == 0
    requires s.honest ==> Rising(s.truth)
    ensures StateOk(s)
  {
    hide Rising;
    assert s.timeline.Keys == set t | t in [0];
  }

  /** A query joins the open bucket. */
  lemma Asked(s: State, path: nat)
    requires StateOk(s) && path in s.forest.paths && OpenOk(s.timeline[s.deque[0]], s.deque[0], s.nextKey)
    ensures var t, q := s.deque[0], Query(s.nextKey, s.deque[0], PathOf(path), map[]);
      StateOk(s.(timeline := s.timeline[t := Bucket(s.timeline[t].list + [q], map[])], nextKey := s.nextKey + 1,
                 current := if path in s.current then s.current else s.current[path := s.nextKey]))
  {
    hide LivePath, Recorded, CountedTo, Rising, LeftInOrder, TimelineOk, ProtocolOk, Truthful;
    var t, q := s.deque[0], Query(s.nextKey, s.deque[0], PathOf(path), map[]);
    var list := s.timeline[t].list;
    SameKeys(s.timeline, s.deque, s.lastTime, t, Bucket(list + [q], map[]));
    OpenChanged(s.timeline, s.timeline[t := Bucket(list + [q], map[])], s.deque, s.pending, list + [q]);
    NewRecord(list, q, path);
    var current := if path in s.current then s.current else s.current[path := s.nextKey];
    forall p | p in current ensures p in s.forest.paths && (LivePath(s.forest, p) ==> Recorded(list + [q], current[p], p)) {
      if p in s.current && LivePath(s.forest, p) { RecordedAppend(list, q, current[p], p); }
    }
    if s.honest { TruthfulAppend(list, q, s.truth); }
  }

  lemma TruthfulAppend(list: seq<Query>, q: Query, truth: Truth)
    requires q.fields == map[]
    ensures ListTruthful(list, truth) ==> ListTruthful(list + [q], truth)
  {}

  /** The recorded query of a dead path leaves the open bucket. */
  lemma Discarded(s: State, path: nat)
    requires StateOk(s) && path in s.current && Recorded(s.timeline[s.deque[0]].list, s.current[path], path)
    requires !LivePath(s.forest, path) && OpenOk(s.timeline[s.deque[0]], s.deque[0], s.nextKey)
    ensures var t := s.deque[0];
      StateOk(s.(timeline := s.timeline[t := Bucket(Without(s.timeline[t].list, s.current[path]), map[])]))
  {
    hide LivePath, Recorded, CountedTo, Rising, LeftInOrder, TimelineOk, ProtocolOk, Truthful, Without;
    var t := s.deque[0];
    var list := s.timeline[t].list;
    var w := Without(list, s.current[path]);
    WithoutFacts(list, s.current[path]);
    SameKeys(s.timeline, s.deque, s.lastTime, t, Bucket(w, map[]));
    OpenChanged(s.timeline, s.timeline[t := Bucket(w, map[])], s.deque, s.pending, w);
    forall p | p in s.current && LivePath(s.forest, p) ensures Recorded(w, s.current[p], p) {
      RecordedStays(list, s.current[p], p, s.current[path], path);
    }
    forall i | 0 <= i < |w| ensures QueryOk(w[i], s.forest.paths) && s.reached <= w[i].key && (s.honest ==> Truthful(w[i], s.truth)) {
      assert w[i] in list;
    }
  }

  /** The forest has grown: new paths have been counted nowhere. */
  lemma ForestGrown(s: State, g: Forest, time: nat)
    requires StateOk(s) && CountsNothingNew(s.forest, g) && NewPaths(s.forest, g, time) && SameLives(s.forest, g)
    requires PathsOk(s.forest)
    ensures StateOk(s.(forest := g))
  {
    hide LeftInOrder, TimelineOk, ProtocolOk, Truthful, Recorded, Rising, QueriesOk, Counts, LastTruth, CarriedOn, KeysFrom, AllTruthful;
    QueriesMorePaths(s.timeline, s.forest.paths, g.paths);
    assert RecordsOk(s.current, s.timeline[s.deque[0]].list, g);
    if s.honest { CountedMore(s.forest.paths, g.paths, s.carried, s.read, s.truth, s.reached); }
  }

  /** Subtrees have gone: paths have ended, none has been counted. */
  lemma ForestCut(s: State, g: Forest, src: nat, dst: nat, zs: seq<nat>, time: nat, queried: seq<nat>, discarded: seq<nat>)
    requires StateOk(s) && CutAt(s.forest, g, src, dst, zs) && PathsEnd(s.forest, g, time, queried, discarded)
    ensures StateOk(s.(forest := g))
    ensures forall p | p in queried || p in discarded :: p in g.paths && LivePath(s.forest, p) && !LivePath(g, p)
  {
    hide LeftInOrder, TimelineOk, ProtocolOk, Truthful, Recorded, Rising, QueriesOk, LastTruth, CarriedOn, KeysFrom, AllTruthful, Below, IsCut, SameParents, Distinct;
    QueriesMorePaths(s.timeline, s.forest.paths, g.paths);
    forall p | LivePath(g, p) ensures LivePath(s.forest, p) {}
    assert RecordsOk(s.current, s.timeline[s.deque[0]].list, g);
    if s.honest { CountedSame(s.forest.paths, g.paths, s.carried, s.read, s.truth, s.reached); }
  }

  // --- the queries of a removed edge ---

  /** The paths from position i on that have a record have it in the list. */
  predicate DiscardsOk(discarded: seq<nat>, i: nat, current: map<nat, nat>, list: seq<Query>)
    requires i <= |discarded|
  {
    forall j | i <= j < |discarded| && discarded[j] in current :: Recorded(list, current[discarded[j]], discarded[j])
  }

  /** The list without the recorded queries of the first i paths. */
  function WithoutAll(list: seq<Query>, current: map<nat, nat>, discarded: seq<nat>, i: nat): seq<Query>
    requires i <= |discarded|
  {
    if i == 0 then list
    else
      var r := WithoutAll(list, current, discarded, i - 1);
      if discarded[i - 1] in current then Without(r, current[discarded[i - 1]]) else r
  }

  /** What is left after discarding: the queries that are recorded for none of the paths. */
  lemma {:induction false} WithoutAllFacts(list: seq<Query>, current: map<nat, nat>, discarded: seq<nat>, i: nat)
    requires KeysDistinct(list) && i <= |discarded|
    ensures KeysDistinct(WithoutAll(list, current, discarded, i))
    ensures forall q :: q in WithoutAll(list, current, discarded, i) <==>
              q in list && forall j | 0 <= j < i && discarded[j] in current :: q.key != current[discarded[j]]
  {
    hide Without, KeysDistinct;
    if i > 0 {
      WithoutAllFacts(list, current, discarded, i - 1);
      var r := WithoutAll(list, current, discarded, i - 1);
      if discarded[i - 1] in current { WithoutFacts(r, current[discarded[i - 1]]); }
    }
  }

  lemma DiscardsStart(s: State, discarded: seq<nat>)
    requires StateOk(s) && forall p | p in discarded :: LivePath(s.forest, p)
    ensures DiscardsOk(discarded, 0, s.current, s.timeline[s.deque[0]].list)
  {
    hide TimelineOk, ProtocolOk, LeftInOrder, QueriesOk, KeysFrom, HonestOk, LivePath, Recorded;
  }

  lemma DiscardsAppend(discarded: seq<nat>, current0: map<nat, nat>, list: seq<Query>, q: Query, current: map<nat, nat>, path: nat)
    requires DiscardsOk(discarded, 0, current0, list) && path !in discarded
    requires current == current0 || current == current0[path := q.key]
    ensures DiscardsOk(discarded, 0, current, list + [q])
  {
    hide Recorded;
    forall j | 0 <= j < |discarded| && discarded[j] in current ensures Recorded(list + [q], current[discarded[j]], discarded[j]) {
      RecordedAppend(list, q, current[discarded[j]], discarded[j]);
    }
  }

  lemma DiscardsNext(discarded: seq<nat>, i: nat, current: map<nat, nat>, list: seq<Query>, l1: seq<Query>)
    requires i < |discarded| && Distinct(discarded) && DiscardsOk(discarded, i, current, list) && KeysDistinct(list)
    requires l1 == if discarded[i] in current then Without(list, current[discarded[i]]) else list
    ensures DiscardsOk(discarded, i + 1, current, l1)
  {
    hide Recorded, Without;
    if discarded[i] in current {
      forall j | i + 1 <= j < |discarded| && discarded[j] in current ensures Recorded(l1, current[discarded[j]], discarded[j]) {
        RecordedStays(list, current[discarded[j]], discarded[j], current[discarded[i]], discarded[i]);
      }
    }
  }

  lemma AsksNext(l0: seq<Query>, l1: seq<Query>, paths: seq<nat>, i: nat, q: Query)
    requires i < |paths| && AsksPaths(l0, l1, paths[..i]) && q.subject == PathOf(paths[i])
    ensures AsksPaths(l0, l1 + [q], paths[..i + 1])
  {}

  lemma AsksMore(l0: seq<Query>, l1: seq<Query>, l2: seq<Query>, a: seq<nat>, b: seq<nat>)
    requires AsksPaths(l0, l1, a) && AsksPaths(l1, l2, b)
    ensures AsksPaths(l0, l2, a + b)
  {
    assert l2[..|l1|][..|l0|] == l2[..|l0|];
    forall i | 0 <= i < |a + b| ensures l2[|l0| + i].subject == PathOf((a + b)[i]) {
      if i < |a| { assert l2[..|l1|][|l0| + i] == l1[|l0| + i]; }
    }
  }

  // --- sending ---

  /** The open bucket was sent: its requests join the pending ones. */
  lemma SentState(s: State, t1: Timeline, xid: nat, requests: seq<Request>, p1: Pending)
    requires StateOk(s) && OpenOk(s.timeline[s.deque[0]], s.deque[0], s.nextKey) && s.timeline[s.deque[0]].list != []
    requires s.deque[0] in t1 && t1[s.deque[0]].list == s.timeline[s.deque[0]].list
    requires t1 == s.timeline[s.deque[0] := t1[s.deque[0]]][s.lastTime := Bucket([], map[])]
    requires TimelineOk(t1, [s.lastTime] + s.deque, s.lastTime + 1)
    requires Named(Slots(s.timeline[s.deque[0]].list), xid, requests, t1[s.deque[0]].expected)
    requires forall k | 0 <= k < |requests| :: requests[k].id in p1 && p1[requests[k].id] == requests[k]
    requires forall id | id in s.pending :: id in p1 && p1[id] == s.pending[id]
    requires forall id | id in p1 && id !in s.pending :: exists k :: 0 <= k < |requests| && requests[k].id == id
    ensures StateOk(s.(timeline := t1, deque := [s.lastTime] + s.deque, lastTime := s.lastTime + 1, current := map[], pending := p1))
  {
    hide TimelineOk, ProtocolOk, LeftInOrder, CountedTo, Rising, Named, Slots, OpenOk, QueryOk, Truthful;
    TimelineFacts(s.timeline, s.deque, s.lastTime);
    Sent(s.timeline, s.deque, s.pending, t1, s.lastTime, xid, requests, p1, s.nextKey);
    OpensInOrder(s.timeline, s.deque, s.lastTime, s.left);
  }

  /** An empty open bucket made place for a new one. */
  lemma DroppedState(s: State, t1: Timeline)
    requires StateOk(s) && s.timeline[s.deque[0]].list == [] && t1 == (s.timeline - {s.deque[0]})[s.lastTime := Bucket([], map[])]
    requires TimelineOk(t1, [s.lastTime] + s.deque[1..], s.lastTime + 1)
    ensures StateOk(s.(timeline := t1, deque := [s.lastTime] + s.deque[1..], lastTime := s.lastTime + 1))
  {
    hide TimelineOk, ProtocolOk, LeftInOrder, CountedTo, Rising, QueryOk, Truthful, LivePath;
    TimelineFacts(s.timeline, s.deque, s.lastTime);
    Dropped(s.timeline, s.deque, s.pending, t1, s.lastTime);
    OpensInOrder(s.timeline, s.deque, s.lastTime, s.left);
  }

  // --- replies ---

  /** The assertions on the bucket and the request of a reply hold. */
  lemma RepliedFacts(s: State, id: nat)
    requires StateOk(s) && id in s.pending
    ensures s.pending[id].time in s.timeline && s.pending[id].id == id && id in s.timeline[s.pending[id].time].expected
    ensures s.deque != [] && s.pending[id].time != s.deque[0] && |s.deque| > 1
    ensures Oldest(s.deque) in s.timeline && Oldest(s.deque) != s.deque[0]
  {
    hide TimelineOk, LeftInOrder, QueriesOk, KeysFrom, RecordsOk, HonestOk;
    assert PendingOk(s.timeline, s.deque, s.pending, id) by { hide SentOk; }
    TimelineFacts(s.timeline, s.deque, s.lastTime);
    BackIsOther(s.timeline, s.deque, s.lastTime, s.pending[id].time);
  }

  /** The state after a reply has reached its bucket. */
  function AfterReply(s: State, id: nat, fields: Fields, honest: bool): State
    requires id in s.pending && s.pending[id].time in s.timeline && id in s.timeline[s.pending[id].time].expected
  {
    var t := s.pending[id].time;
    s.(timeline := s.timeline[t := Answer(s.timeline[t], id, s.pending[id].kind, fields)], pending := s.pending - {id}, honest := honest)
  }

  /** A reply reaches its bucket. */
  lemma RepliedState(s: State, id: nat, fields: Fields, honest: bool)
    requires StateOk(s) && id in s.pending && Fits(s.pending[id].kind, fields)
    requires s.pending[id].time in s.timeline && id in s.timeline[s.pending[id].time].expected
    requires honest ==> s.honest && ReplyTruthful(s.timeline[s.pending[id].time], s.pending, id, fields, s.truth)
    ensures StateOk(AfterReply(s, id, fields, honest))
  {
    hide TimelineOk, ProtocolOk, LeftInOrder, CountedTo, Rising, QueriesOk, AllTruthful, KeysFrom, RecordsOk, Answer, Fits, ReplyTruthful;
    Replied(s.timeline, s.deque, s.pending, id, fields);
    var t := s.pending[id].time;
    AnswerKeeps(s.timeline, s.deque, s.pending, id, fields, s.forest.paths, s.reached);
    SameKeys(s.timeline, s.deque, s.lastTime, t, Answer(s.timeline[t], id, s.pending[id].kind, fields));
    if honest { AnswerTruthful(s.timeline, s.deque, s.pending, id, fields, s.truth); }
  }

  /** What the reply does to the expected requests of the oldest bucket. */
  lemma RepliedOldest(s: State, id: nat, fields: Fields, honest: bool)
    requires StateOk(s) && id in s.pending && Fits(s.pending[id].kind, fields)
    requires s.pending[id].time in s.timeline && id in s.timeline[s.pending[id].time].expected
    requires Oldest(s.deque) in s.timeline && Oldest(s.deque) != s.deque[0]
    ensures var t1, o := AfterReply(s, id, fields, honest).timeline, Oldest(s.deque);
      && t1[o].expected == s.timeline[o].expected - {id}
      && (t1[o].expected == map[] ==> (s.pending[id].time == o <==> s.timeline[o].expected != map[]))
  {
    hide TimelineOk, ProtocolOk, LeftInOrder, HonestOk, QueriesOk, KeysFrom, RecordsOk, Answer, Fits;
    ReplyTo(s.timeline, s.deque, s.pending, id, fields);
  }

  /** What the oldest bucket offers once it is complete. */
  lemma FullBucket(s: State)
    requires StateOk(s) && Keyed(s.timeline, s.nextKey) && |s.deque| > 1
    requires Oldest(s.deque) in s.timeline && Oldest(s.deque) != s.deque[0] && s.timeline[Oldest(s.deque)].expected == map[]
    ensures var time := Oldest(s.deque);
      var list := s.timeline[time].list;
      && list != [] && Readable(list, s.forest.paths)
      && (forall i, kind | 0 <= i < |list| && NeedsKind(list[i].subject, kind) :: list[i].time == time && Answered(list[i], kind))
      && (s.honest ==> Continues(list, s.truth, s.reached))
      && s.reached <= LastKey(list, |list|, s.reached) < s.nextKey
      && KeysFrom(s.timeline - {time}, LastKey(list, |list|, s.reached))
  {
    hide TimelineOk, ProtocolOk, LeftInOrder, CountedTo, Rising, Truthful, QueryOk, Answered, CanRead, KeysFrom, RecordsOk, Keyed;
    var time := Oldest(s.deque);
    BackFull(s.timeline, s.deque, s.pending, time);
    ListIsReadable(s.timeline[time].list, s.forest.paths);
    KeysAfter(s.timeline, s.deque, s.lastTime, s.nextKey, s.reached);
  }

  /** The oldest bucket has left and its readings have been counted. */
  lemma PoppedState(s: State, g: Forest, carried: Carried)
    requires StateOk(s) && Keyed(s.timeline, s.nextKey) && |s.deque| > 1
    requires Oldest(s.deque) in s.timeline && Oldest(s.deque) != s.deque[0] && s.timeline[Oldest(s.deque)].expected == map[]
    requires var list := s.timeline[Oldest(s.deque)].list;
      && SameStructure(s.forest, g) && Readable(list, s.forest.paths) && LastRead(s.forest.paths, g.paths, list, |list|)
      && (s.honest ==> CountedTo(g.paths, carried, ReadAll(s.read, list, |list|), s.truth, LastKey(list, |list|, s.reached)))
    ensures var time := Oldest(s.deque);
      var list := s.timeline[time].list;
      StateOk(s.(timeline := s.timeline - {time}, deque := s.deque[..|s.deque| - 1], forest := g, left := s.left + [time],
                 carried := carried, read := ReadAll(s.read, list, |list|), reached := LastKey(list, |list|, s.reached)))
  {
    hide TimelineOk, ProtocolOk, LeftInOrder, CountedTo, Rising, Truthful, QueryOk, KeysFrom, Keyed, LastRead, Readable, LivePath, Recorded, SameStructure;
    var time, deque := Oldest(s.deque), s.deque[..|s.deque| - 1];
    FullBucket(s);
    PopBack(s.timeline, s.deque, s.lastTime);
    Popped(s.timeline, s.deque, s.pending, time);
    assert (s.left + [time])[..|s.left|] == s.left;
    LeavesInOrder(s.timeline, s.deque, s.lastTime, time, s.left + [time]);
    SameLivePaths(s.forest, g, s.timeline[time].list);
    QueriesMorePaths(s.timeline, s.forest.paths, g.paths);
  }

  lemma SameLivePaths(f: Forest, g: Forest, list: seq<Query>)
    requires SameStructure(f, g) && Readable(list, f.paths) && LastRead(f.paths, g.paths, list, |list|)
    ensures g.paths.Keys == f.paths.Keys && forall p :: LivePath(g, p) <==> LivePath(f, p)
  {
    hide CanRead;
  }

  class Detector {
    const manager: StatsManager
    const predictor: FlowPredictor

    /** pending_requests_. */
    var pending: Pending

    /** pending_predictions_ by time, and the predictions that wait to be sent. */
    var predictions: map<nat, seq<Prediction>>
    var answered: seq<Prediction>

    /** The times of the buckets that have left the timeline. */
    ghost var left: seq<nat>

    /** The counters of the switches, and whether all replies so far carried them. */
    ghost const truth: Truth
    ghost var honest: bool

    /** What has been counted by path, the queries counted last, and the key up to which. */
    ghost var carried: Carried
    ghost var read: Read
    ghost var reached: nat

    constructor (pad: Mask, rules: Rules, ghost truth: Truth)
      requires Forests.RulesOk(rules, pad)
      ensures Valid() && fresh(manager) && fresh(predictor) && this.truth == truth && (honest <==> Rising(truth))
      ensures pending == map[] && predictions == map[] && answered == [] && left == [] && read == map[]
      ensures predictor.rules == rules && predictor.pad == pad && predictor.edges == map[] && predictor.handled == {}
      ensures predictor.forest == Forest(map[], map[], map[], map[], 0, 1)
      ensures manager.deque == [0] && manager.timeline == map[0 := Bucket([], map[])] && manager.xid == 1 && manager.lastTime == 1
    {
      hide StateOk, Rising, FlowGraph, EdgesOk, Acyclic, PredictorOk, CountersOk, Handles, Rooted, Keyed, OpenOk, Forests.RulesOk;
      manager := new StatsManager();
      predictor := new FlowPredictor(pad, rules);
      this.truth := truth;
      pending, predictions, answered, left, honest, carried, read, reached := map[], map[], [], [], Rising(truth), map[], map[], 0;
      new;
      StartOk(Snapshot());
    }

    ghost function Snapshot(): State
      reads this, manager, predictor
    {
      State(manager.timeline, manager.deque, manager.lastTime, manager.current, manager.nextKey, predictor.forest,
            pending, left, truth, honest, carried, read, reached)
    }

    ghost predicate Valid()
      reads this, manager, predictor
    {
      manager.Valid() && predictor.Valid() && StateOk(Snapshot())
    }

    /** query_domain_path(), and delete_domain_path() for a path that has been installed. */
    method QueryPath(path: nat)
      requires Valid() && path in predictor.forest.paths
      modifies manager`timeline, manager`current, manager`nextKey
      ensures Valid() && manager.deque == old(manager.deque) && manager.deque[0] in old(manager.timeline)
      ensures manager.timeline == old(manager.timeline)[manager.deque[0] :=
                Bucket(old(manager.timeline)[manager.deque[0]].list + [Query(old(manager.nextKey), manager.deque[0], PathOf(path), map[])], map[])]
      ensures manager.nextKey == old(manager.nextKey) + 1
      ensures manager.current == if path in old(manager.current) then old(manager.current) else old(manager.current)[path := old(manager.nextKey)]
    {
      hide StateOk, Rising, FlowGraph, EdgesOk, Acyclic, PredictorOk, CountersOk, Handles, Rooted, Keyed, OpenOk, TimelineOk;
      Asked(Snapshot(), path);
      manager.AddQuery(PathOf(path));
    }

    /** delete_domain_path() for a path that has not been installed: its source is dead. */
    method DiscardPath(path: nat)
      requires Valid() && !LivePath(predictor.forest, path) && manager.deque[0] in manager.timeline
      requires path in manager.current ==> Recorded(manager.timeline[manager.deque[0]].list, manager.current[path], path)
      modifies manager`timeline
      ensures Valid() && manager.deque[0] in manager.timeline && manager.deque[0] in old(manager.timeline)
      ensures manager.timeline[manager.deque[0]].list ==
              var list := old(manager.timeline)[manager.deque[0]].list;
              if path in manager.current then Without(list, manager.current[path]) else list
      ensures forall t | t in old(manager.timeline) && t != manager.deque[0] :: t in manager.timeline && manager.timeline[t] == old(manager.timeline)[t]
    {
      hide StateOk, Rising, FlowGraph, EdgesOk, Acyclic, PredictorOk, CountersOk, Handles, Rooted, Keyed, OpenOk, TimelineOk, Recorded, LivePath, Without;
      OpenExists(Snapshot());
      if path in manager.current {
        Discarded(Snapshot(), path);
        RecordedHasKey(manager.timeline[manager.deque[0]].list, manager.current[path], path);
      }
      manager.DiscardPathRequest(path);
    }

    /** The dependency graph has got more edges. */
    method SetEdges(more: EdgeMap, limit: nat, ghost rank: map<nat, nat>)
      requires Valid() && FlowGraph(predictor.rules, more, predictor.pad) && EdgesOk(more, limit, predictor.rules, predictor.pad) && Acyclic(more, rank)
      requires forall id | id in predictor.edges :: id in more && more[id] == predictor.edges[id]
      modifies predictor`edges, predictor`limit, predictor`rank
      ensures Valid() && predictor.edges == more && predictor.limit == limit
    {
      hide StateOk, Rising, FlowGraph, EdgesOk, Acyclic, PredictorOk, CountersOk, Handles, Rooted, Keyed, OpenOk, TimelineOk;
      predictor.SetEdges(more, limit, rank);
    }

    /** updateEdges() for a new edge. */
    method AddEdge(id: nat)
      requires Valid() && id in predictor.edges
      modifies predictor`forest, predictor`via, predictor`handled
      ensures Valid() && manager.deque != []
      ensures CountsNothingNew(old(predictor.forest), predictor.forest) && SameLives(old(predictor.forest), predictor.forest)
      ensures NewPaths(old(predictor.forest), predictor.forest, manager.deque[0])
      ensures Reached(old(predictor.forest), predictor.forest, predictor.rules, predictor.edges, predictor.limit, predictor.edges[id], |predictor.pad|)
      ensures Grafted(old(predictor.forest), predictor.forest, predictor.edges[id])
      ensures GrownFirst(old(predictor.forest), predictor.forest, predictor.via, predictor.rules, predictor.edges, predictor.edges[id], |predictor.pad|)
      ensures predictor.handled == old(predictor.handled) + {id}
    {
      hide StateOk, Rising, FlowGraph, EdgesOk, Acyclic, PredictorOk, CountersOk, Handles, Rooted, Keyed, OpenOk, TimelineOk, CountsNothingNew, NewPaths, SameLives, Reached, Grafted, GrownFirst;
      ghost var s := Snapshot();
      PredictorFacts(predictor.forest, predictor.via, predictor.rules, predictor.edges, predictor.pad);
      OpenExists(s);
      predictor.AddEdge(id, manager.deque[0]);
      ForestGrown(s, predictor.forest, manager.deque[0]);
    }

    /** updateEdges() for a removed edge: paths of sources that die are queried once more,
        or discarded if they have not been installed yet. */
    method RemoveEdge(src: nat, dst: nat) returns (queried: seq<nat>, discarded: seq<nat>, ghost asked: seq<Query>)
      requires Valid() && src != dst
      modifies predictor`forest, predictor`edges, predictor`handled, manager`timeline, manager`current, manager`nextKey
      ensures Valid() && predictor.edges == Except(old(predictor.edges), src, dst)
      ensures predictor.handled == set id | id in old(predictor.handled) && id in predictor.edges
      ensures CutAt(old(predictor.forest), predictor.forest, src, dst, if src in old(predictor.forest).mapping then old(predictor.forest).mapping[src] else [])
      ensures manager.deque == old(manager.deque) && manager.deque != []
      ensures PathsEnd(old(predictor.forest), predictor.forest, manager.deque[0], queried, discarded)
      ensures manager.deque[0] in manager.timeline && manager.deque[0] in old(manager.timeline)
      ensures AsksPaths(old(manager.timeline)[manager.deque[0]].list, asked, queried)
      ensures manager.timeline[manager.deque[0]].list == WithoutAll(asked, manager.current, discarded, |discarded|)
    {
      hide StateOk, Rising, FlowGraph, EdgesOk, Acyclic, PredictorOk, CountersOk, Handles, Rooted, Keyed, OpenOk, TimelineOk, CutAt, PathsEnd, LivePath,
           DiscardsOk, AsksPaths, Without, Recorded;
      ghost var s := Snapshot();
      OpenExists(s);
      var now := manager.deque[0];
      ghost var l0 := manager.timeline[now].list;
      queried, discarded := predictor.RemoveEdge(src, dst, now);
      ghost var g, zs := predictor.forest, if src in s.forest.mapping then s.forest.mapping[src] else [];
      ForestCut(s, g, src, dst, zs, now, queried, discarded);
      CutLists(s.forest, g, now, queried, discarded);
      DiscardsStart(s, discarded);
      asked := EndPaths(queried, discarded);
    }

    /** delete_domain_path() for the paths of dead sources. */
    method EndPaths(queried: seq<nat>, discarded: seq<nat>) returns (ghost asked: seq<Query>)
      requires Valid() && manager.deque != [] && manager.deque[0] in manager.timeline
      requires Distinct(discarded) && (forall p | p in queried :: p !in discarded && p in predictor.forest.paths)
      requires forall p | p in discarded :: !LivePath(predictor.forest, p)
      requires DiscardsOk(discarded, 0, manager.current, manager.timeline[manager.deque[0]].list)
      modifies manager`timeline, manager`current, manager`nextKey
      ensures Valid() && manager.deque == old(manager.deque) && manager.deque[0] in manager.timeline
      ensures AsksPaths(old(manager.timeline)[manager.deque[0]].list, asked, queried)
      ensures manager.timeline[manager.deque[0]].list == WithoutAll(asked, manager.current, discarded, |discarded|)
    {
      hide StateOk, Rising, FlowGraph, EdgesOk, Acyclic, PredictorOk, CountersOk, Handles, Rooted, Keyed, OpenOk, TimelineOk, LivePath,
           DiscardsOk, AsksPaths, Without, Recorded, Distinct;
      var now := manager.deque[0];
      ghost var l0 := manager.timeline[now].list;
      AsksNothing(l0);
      for i := 0 to |queried|
        invariant Valid() && manager.deque == old(manager.deque) && now in manager.timeline
        invariant AsksPaths(l0, manager.timeline[now].list, queried[..i])
        invariant DiscardsOk(discarded, 0, manager.current, manager.timeline[now].list)
      {
        ghost var list, q, current := manager.timeline[now].list, Query(manager.nextKey, now, PathOf(queried[i]), map[]), manager.current;
        assert queried[i] in queried;
        QueryPath(queried[i]);
        AsksNext(l0, list, queried, i, q);
        DiscardsAppend(discarded, current, list, q, manager.current, queried[i]);
      }
      assert queried[..|queried|] == queried;
      asked := manager.timeline[now].list;
      for i := 0 to |discarded|
        invariant Valid() && manager.deque == old(manager.deque) && now in manager.timeline
        invariant DiscardsOk(discarded, i, manager.current, manager.timeline[now].list)
        invariant manager.timeline[now].list == WithoutAll(asked, manager.current, discarded, i)
      {
        ghost var list := manager.timeline[now].list;
        assert discarded[i] in discarded;
        OpenKeys(manager.timeline[now], now, manager.nextKey);
        DiscardFirst(discarded, i, manager.current, list);
        DiscardPath(discarded[i]);
        DiscardsNext(discarded, i, manager.current, list, manager.timeline[now].list);
      }
    }

    /** One query for each of the paths. */
    method QueryPaths(paths: seq<nat>)
      requires Valid() && forall p | p in paths :: p in predictor.forest.paths
      modifies manager`timeline, manager`current, manager`nextKey
      ensures Valid() && manager.deque == old(manager.deque) && manager.deque != []
      ensures manager.deque[0] in manager.timeline && manager.deque[0] in old(manager.timeline)
      ensures manager.timeline == old(manager.timeline)[manager.deque[0] := manager.timeline[manager.deque[0]]]
      ensures AsksPaths(old(manager.timeline)[manager.deque[0]].list, manager.timeline[manager.deque[0]].list, paths)
    {
      hide StateOk, Rising, FlowGraph, EdgesOk, Acyclic, PredictorOk, CountersOk, Handles, Rooted, Keyed, OpenOk, TimelineOk, AsksPaths;
      OpenExists(Snapshot());
      var now := manager.deque[0];
      ghost var l0 := manager.timeline[now].list;
      AsksNothing(l0);
      for i := 0 to |paths|
        invariant Valid() && manager.deque == old(manager.deque) && now in manager.timeline
        invariant manager.timeline == old(manager.timeline)[now := manager.timeline[now]]
        invariant AsksPaths(l0, manager.timeline[now].list, paths[..i])
      {
        ghost var list, q := manager.timeline[now].list, Query(manager.nextKey, now, PathOf(paths[i]), map[]);
        QueryPath(paths[i]);
        AsksNext(l0, list, paths, i, q);
      }
      assert paths[..|paths|] == paths;
    }

    /** predictFlow() for one rule: the paths of all sources below its nodes are queried. */
    method PredictFlow(requestId: nat, rule: nat) returns (asked: seq<nat>)
      requires Valid()
      modifies this`predictions, manager`timeline, manager`current, manager`nextKey
      ensures Valid() && manager.deque == old(manager.deque) && manager.deque != []
      ensures predictions == old(predictions)[manager.deque[0] := At(old(predictions), manager.deque[0]) + [Prediction(requestId, rule)]]
      ensures manager.deque[0] in manager.timeline && manager.deque[0] in old(manager.timeline)
      ensures forall t | t in old(manager.timeline) && t != manager.deque[0] :: t in manager.timeline && manager.timeline[t] == old(manager.timeline)[t]
      ensures forall t | t in manager.timeline :: t in old(manager.timeline)
      ensures AsksPaths(old(manager.timeline)[manager.deque[0]].list, manager.timeline[manager.deque[0]].list, asked)
      ensures Distinct(asked) && forall p :: p in asked <==> PathOfRule(predictor.forest, rule, p)
    {
      hide Distinct, StateOk, Rising, FlowGraph, EdgesOk, Acyclic, CountersOk, Handles, Rooted, Keyed, OpenOk, TimelineOk, ForestOk, SourcesHavePaths, ViasFrom, AsksPaths, InSubtree;
      OpenExists(Snapshot());
      var now := manager.deque[0];
      ghost var f := predictor.forest;
      ghost var l0 := manager.timeline[now].list;
      AsksNothing(l0);
      predictions := predictions[now := At(predictions, now) + [Prediction(requestId, rule)]];
      asked := [];
      NoneDistinct<nat>();
      if rule in predictor.forest.mapping {
        var nodes := predictor.forest.mapping[rule];
        for i := 0 to |nodes|
          invariant Valid() && manager.deque == old(manager.deque) && now in manager.timeline
          invariant predictions == old(predictions)[now := At(old(predictions), now) + [Prediction(requestId, rule)]]
          invariant manager.timeline == old(manager.timeline)[now := manager.timeline[now]]
          invariant AsksPaths(l0, manager.timeline[now].list, asked)
          invariant Distinct(asked) && forall p :: p in asked <==> exists z :: z in nodes[..i] && InSubtree(f, z, p)
        {
          MappedIsLive(f, predictor.via, predictor.rules, predictor.edges, rule, i, predictor.pad);
          var paths := SubtreePaths(predictor.forest, nodes[i], predictor.rules, predictor.via, predictor.pad);
          ghost var l1 := manager.timeline[now].list;
          PathsExist(f, nodes[i], paths);
          QueryPaths(paths);
          AsksMore(l0, l1, manager.timeline[now].list, asked, paths);
          AskedOnce(f, predictor.via, predictor.rules, predictor.edges, predictor.rank, rule, i, asked, paths, predictor.pad);
          AskedNext(f, nodes, i, asked, paths);
          asked := asked + paths;
        }
        assert nodes[..|nodes|] == nodes;
      }
    }

    /** prepareInstructions(): the queries of the open bucket are sent. Ids of requests
        that are still pending must not come up again. */
    method PrepareInstructions() returns (requests: seq<Request>)
      requires Valid() && manager.deque != [] && manager.deque[0] in manager.timeline
      requires var n := |Slots(manager.timeline[manager.deque[0]].list)|; n <= IDS && IdsFree(pending, manager.xid, n)
      modifies this`pending, manager`timeline, manager`deque, manager`lastTime, manager`xid, manager`current
      ensures Valid() && forall k | 0 <= k < |requests| :: requests[k].id in pending && pending[requests[k].id] == requests[k]
      ensures manager.lastTime == old(manager.lastTime) + 1 && manager.xid == IdAfter(old(manager.xid), |requests|)
      ensures manager.current == if old(manager.timeline[manager.deque[0]].list) == [] then old(manager.current) else map[]
      ensures manager.deque != [] && manager.deque[0] == old(manager.lastTime) && manager.deque[0] in manager.timeline
      ensures manager.timeline[manager.deque[0]] == Bucket([], map[])
      ensures var now, asked := old(manager.deque[0]), old(manager.timeline[manager.deque[0]].list);
        if asked == [] then requests == [] && manager.deque == [old(manager.lastTime)] + old(manager.deque)[1..] else
          && manager.deque == [old(manager.lastTime)] + old(manager.deque)
          && now in manager.timeline && manager.timeline[now].list == asked
          && Named(Slots(asked), old(manager.xid), requests, manager.timeline[now].expected)
      ensures forall t | t in old(manager.timeline) && t != old(manager.deque[0]) && t != manager.deque[0] :: t in manager.timeline && manager.timeline[t] == old(manager.timeline)[t]
      ensures forall id | id in old(pending) :: id in pending && pending[id] == old(pending)[id]
      ensures forall id | id in pending && id !in old(pending) :: exists k :: 0 <= k < |requests| && requests[k].id == id
    {
      hide StateOk, Rising, FlowGraph, EdgesOk, Acyclic, PredictorOk, CountersOk, Handles, Rooted, Keyed, OpenOk, TimelineOk, Slots, Named, IdAfter, IdsFree;
      ghost var s, x0 := Snapshot(), manager.xid;
      ghost var now := s.deque[0];
      requests := manager.GetNewRequests();
      if s.timeline[now].list != [] {
        NamedIds(Slots(s.timeline[now].list), x0, requests, manager.timeline[now].expected);
      } else {
        NoIds(pending, x0);
      }
      pending := SaveRequests(pending, requests, x0);
      if s.timeline[now].list == [] {
        SamePending(s.pending, pending, requests);
        DroppedState(s, manager.timeline);
      } else {
        SentState(s, manager.timeline, x0, requests, pending);
      }
    }

    /** The first half of passRequest(): the reply goes to its bucket. */
    method PassReply(id: nat, fields: Fields)
      requires Valid() && id in pending && Fits(pending[id].kind, fields)
      modifies this`pending, this`honest, manager`timeline
      ensures Valid() && pending == old(pending) - {id}
      ensures old(pending)[id].time in old(manager.timeline) && id in old(manager.timeline)[old(pending)[id].time].expected
      ensures Snapshot() == AfterReply(old(Snapshot()), id, fields, honest)
      ensures honest == (old(honest) && ReplyTruthful(old(manager.timeline)[old(pending)[id].time], old(pending), id, fields, truth))
      ensures |manager.deque| > 1 && Oldest(manager.deque) in manager.timeline && Oldest(manager.deque) in old(manager.timeline)
      ensures Oldest(manager.deque) != manager.deque[0]
      ensures var o := Oldest(manager.deque);
        && manager.timeline[o].expected == old(manager.timeline)[o].expected - {id}
        && (manager.timeline[o].expected == map[] ==> (old(pending)[id].time == o <==> old(manager.timeline)[o].expected != map[]))
    {
      hide StateOk, Rising, FlowGraph, EdgesOk, Acyclic, PredictorOk, CountersOk, Handles, Rooted, Keyed, OpenOk, TimelineOk, Fits, Answer, ReplyTruthful;
      var request := pending[id];
      ghost var s := Snapshot();
      RepliedFacts(s, id);
      honest := honest && ReplyTruthful(manager.timeline[request.time], pending, id, fields, truth);
      RepliedState(s, id, fields, honest);
      RepliedOldest(s, id, fields, honest);
      manager.PassRequest(request, fields);
      pending := pending - {id};
      ReplyEquals(s, id, fields, honest, manager.timeline);
    }

    /** The second half: the oldest bucket leaves if it is complete, and is counted. */
    method PopOldest() returns (gone: bool, time: nat, list: seq<Query>)
      requires Valid() && |manager.deque| > 1 && Oldest(manager.deque) in manager.timeline && Oldest(manager.deque) != manager.deque[0]
      modifies this`left, this`carried, this`read, this`reached, manager`timeline, manager`deque, predictor`forest
      ensures Valid() && time == Oldest(old(manager.deque))
      ensures gone <==> old(manager.timeline[Oldest(manager.deque)].expected) == map[]
      ensures gone ==>
                && list == old(manager.timeline)[time].list && manager.timeline == old(manager.timeline) - {time}
                && manager.deque == old(manager.deque)[..|old(manager.deque)| - 1] && left == old(left) + [time]
                && (forall i, kind | 0 <= i < |list| && NeedsKind(list[i].subject, kind) :: list[i].time == time && Answered(list[i], kind))
                && SameStructure(old(predictor.forest), predictor.forest) && Readable(list, old(predictor.forest.paths))
                && LastRead(old(predictor.forest.paths), predictor.forest.paths, list, |list|) && read == ReadAll(old(read), list, |list|)
      ensures !gone ==>
                && manager.timeline == old(manager.timeline) && manager.deque == old(manager.deque) && left == old(left)
                && predictor.forest == old(predictor.forest) && read == old(read)
    {
      hide StateOk, Rising, FlowGraph, EdgesOk, Acyclic, PredictorOk, CountersOk, Handles, Rooted, Keyed, OpenOk, TimelineOk,
           Answered, Continues, CountedTo, KeysFrom, SameStructure, LastRead, Readable, ReadAll;
      ghost var s := Snapshot();
      if manager.timeline[Oldest(manager.deque)].expected == map[] { FullBucket(s); }
      time, gone, list := manager.PopStatsList();
      if gone {
        carried := ProcessStatsList(predictor, list, carried, read, truth, reached);
        HonestCounted(s);
        PoppedState(s, predictor.forest, carried);
        read, reached, left := ReadAll(read, list, |list|), LastKey(list, |list|, reached), left + [time];
      }
    }

    /** addRuleStats(), addPortStats(), with passRequest() of the predictor. A reply to a
        request that is not pending changes nothing. Otherwise the oldest bucket leaves if
        no reply to it is missing now, its readings are counted, and the predictions of the
        time of the request, which need not be that bucket's time, are taken as answered.
        While replies carry the true counters, `honest` stays and nothing wraps around. */
    method AddStats(id: nat, fields: Fields) returns (gone: bool, time: nat, list: seq<Query>)
      requires Valid()
      requires id in pending ==> Fits(pending[id].kind, fields)
      modifies this`pending, this`predictions, this`answered, this`left, this`honest, this`carried, this`read, this`reached,
               manager`timeline, manager`deque, predictor`forest
      ensures Valid() && pending == old(pending) - {id}
      ensures id !in old(pending) ==> !gone && manager.timeline == old(manager.timeline) && manager.deque == old(manager.deque)
      ensures id in old(pending) ==>
                && manager.deque != [] && Oldest(old(manager.deque)) in old(manager.timeline)
                && old(pending)[id].time in old(manager.timeline) && id in old(manager.timeline)[old(pending)[id].time].expected
      ensures gone <==> id in old(pending) && old(manager.timeline[Oldest(manager.deque)].expected) - {id} == map[]
      ensures id in old(pending) ==>
                var t := old(pending)[id].time;
                var replied := old(manager.timeline)[t := Answer(old(manager.timeline)[t], id, old(pending)[id].kind, fields)];
                if gone then time in replied && list == replied[time].list && manager.timeline == replied - {time} else manager.timeline == replied
      ensures gone ==>
                && time == Oldest(old(manager.deque)) && left == old(left) + [time] && manager.deque == old(manager.deque)[..|old(manager.deque)| - 1]
                && (forall i, kind | 0 <= i < |list| && NeedsKind(list[i].subject, kind) :: list[i].time == time && Answered(list[i], kind))
                && predictions == old(predictions) - {old(pending)[id].time}
                && answered == old(answered) + At(old(predictions), old(pending)[id].time)
      ensures gone ==> (old(pending)[id].time == time <==> old(manager.timeline[Oldest(manager.deque)].expected) != map[])
      ensures gone ==>
                && SameStructure(old(predictor.forest), predictor.forest) && Readable(list, old(predictor.forest.paths))
                && LastRead(old(predictor.forest.paths), predictor.forest.paths, list, |list|) && read == ReadAll(old(read), list, |list|)
      ensures !gone ==>
                && left == old(left) && predictions == old(predictions) && answered == old(answered) && manager.deque == old(manager.deque)
                && predictor.forest == old(predictor.forest) && read == old(read)
      ensures honest == (old(honest) && (id in old(pending) ==>
                ReplyTruthful(old(manager.timeline)[old(pending)[id].time], old(pending), id, fields, truth)))
    {
      hide StateOk, Rising, FlowGraph, EdgesOk, Acyclic, PredictorOk, CountersOk, Handles, Rooted, Keyed, OpenOk, TimelineOk, Fits, Answer, ReplyTruthful,
           Answered, Continues, CountedTo, KeysFrom, SameStructure, LastRead, Readable;
      gone, time, list := false, 0, [];
      if id in pending {
        var t := pending[id].time;
        PassReply(id, fields);
        gone, time, list := PopOldest();
        if gone {
          answered := answered + At(predictions, t);
          predictions := predictions - {t};
        }
      } else {
        NotPending(pending, id);
      }
    }
  }

  lemma AsksNothing(list: seq<Query>)
    ensures AsksPaths(list, list, [])
  {}

  lemma CutLists(f: Forest, g: Forest, time: nat, queried: seq<nat>, discarded: seq<nat>)
    requires PathsEnd(f, g, time, queried, discarded)
    ensures Distinct(discarded) && forall p | p in queried :: p !in discarded && p in g.paths
  {
    hide Died, Distinct;
  }

  lemma OpenKeys(b: Bucket, t: nat, nextKey: nat)
    requires OpenOk(b, t, nextKey)
    ensures KeysDistinct(b.list)
  {}

  lemma DiscardFirst(discarded: seq<nat>, i: nat, current: map<nat, nat>, list: seq<Query>)
    requires i < |discarded| && DiscardsOk(discarded, i, current, list)
    ensures discarded[i] in current ==> Recorded(list, current[discarded[i]], discarded[i])
  {
    hide Recorded;
  }

  lemma MappedIsLive(f: Forest, via: Vias, rules: Rules, edges: EdgeMap, rule: nat, i: nat, pad: Mask)
    requires PredictorOk(f, via, rules, edges, pad) && rule in f.mapping && i < |f.mapping[rule]|
    ensures Live(f.nodes, f.mapping[rule][i]) && ForestOk(f, via, rules, pad) && SourcesHavePaths(f, rules)
  {
    hide NodesOk, PathsOk, ChildrenOk, ParentsOk, RootsOk, SourcesHavePaths, ViasFrom;
    assert f.mapping[rule][i] in f.mapping[rule];
  }

  lemma PathsExist(f: Forest, z: nat, paths: seq<nat>)
    requires forall p :: p in paths <==> InSubtree(f, z, p)
    ensures forall p | p in paths :: p in f.paths
  {}

  /** The subtrees of different nodes of one rule have no path in common. */
  lemma AskedOnce(f: Forest, via: Vias, rules: Rules, edges: EdgeMap, rank: map<nat, nat>, rule: nat, i: nat, asked: seq<nat>, paths: seq<nat>, pad: Mask)
    requires PredictorOk(f, via, rules, edges, pad) && Acyclic(edges, rank) && rule in f.mapping && i < |f.mapping[rule]|
    requires Distinct(asked) && Distinct(paths)
    requires forall p :: p in asked <==> exists z :: z in f.mapping[rule][..i] && InSubtree(f, z, p)
    requires forall p :: p in paths <==> InSubtree(f, f.mapping[rule][i], p)
    ensures Distinct(asked + paths)
  {
    hide Distinct, InSubtree, PredictorOk;
    var nodes := f.mapping[rule];
    forall p | p in paths ensures p !in asked {
      if p in asked {
        var z :| z in nodes[..i] && InSubtree(f, z, p);
        var k :| 0 <= k < i && nodes[k] == z;
        SubtreesApart(f, via, rules, edges, rank, rule, k, i, p, pad);
      }
    }
    DistinctJoin(asked, paths);
  }

  lemma SubtreesApart(f: Forest, via: Vias, rules: Rules, edges: EdgeMap, rank: map<nat, nat>, rule: nat, k: nat, i: nat, p: nat, pad: Mask)
    requires PredictorOk(f, via, rules, edges, pad) && Acyclic(edges, rank) && rule in f.mapping && k < i < |f.mapping[rule]|
    ensures !(InSubtree(f, f.mapping[rule][k], p) && InSubtree(f, f.mapping[rule][i], p))
  {
    hide NodesOk, PathsOk, ChildrenOk, ParentsOk, RootsOk, SourcesHavePaths, ViasFrom, Acyclic, Below;
    var x, y := f.mapping[rule][k], f.mapping[rule][i];
    assert x in f.mapping[rule] && y in f.mapping[rule] && x != y;
    if InSubtree(f, x, p) && InSubtree(f, y, p) {
      var a, b := if x < y then x else y, if x < y then y else x;
      ChainIsLinear(f.nodes, a, b, f.paths[p].source);
      assert Below(f.nodes, a, b) by { BelowParent(f.nodes, a, b); }
      RankFalls(f, via, rules, edges, rank, a, b, pad);
    }
  }

  lemma BelowParent(nodes: Nodes, x: nat, y: nat)
    requires y in nodes && nodes[y].parent < y && Below(nodes, x, nodes[y].parent)
    ensures Below(nodes, x, y)
  {}

  lemma AskedNext(f: Forest, nodes: seq<nat>, i: nat, asked: seq<nat>, paths: seq<nat>)
    requires i < |nodes| && forall p :: p in asked <==> exists z :: z in nodes[..i] && InSubtree(f, z, p)
    requires forall p :: p in paths <==> InSubtree(f, nodes[i], p)
    ensures forall p :: p in asked + paths <==> exists z :: z in nodes[..i + 1] && InSubtree(f, z, p)
  {
    hide InSubtree;
    assert nodes[..i + 1] == nodes[..i] + [nodes[i]];
    forall p ensures p in asked + paths <==> exists z :: z in nodes[..i + 1] && InSubtree(f, z, p) {
      if p in asked { var z :| z in nodes[..i] && InSubtree(f, z, p); assert z in nodes[..i + 1]; }
      if p in paths { assert nodes[i] in nodes[..i + 1]; }
    }
  }

  lemma HonestCounted(s: State)
    requires StateOk(s)
    ensures s.honest ==> CountedTo(s.forest.paths, s.carried, s.read, s.truth, s.reached)
  {
    hide TimelineOk, ProtocolOk, LeftInOrder, CountedTo, Rising, QueriesOk, AllTruthful, KeysFrom, RecordsOk;
  }

  lemma ReplyEquals(s: State, id: nat, fields: Fields, honest: bool, t1: Timeline)
    requires id in s.pending && s.pending[id].time in s.timeline && id in s.timeline[s.pending[id].time].expected
    requires t1.Keys == s.timeline.Keys && forall t | t in t1 && t != s.pending[id].time :: t1[t] == s.timeline[t]
    requires t1[s.pending[id].time] == Answer(s.timeline[s.pending[id].time], id, s.pending[id].kind, fields)
    ensures t1 == AfterReply(s, id, fields, honest).timeline
  {
    hide Answer;
  }

  lemma OpenExists(s: State)
    requires StateOk(s)
    ensures s.deque != [] && s.deque[0] in s.timeline
  {
    hide ProtocolOk, LeftInOrder, QueriesOk, RecordsOk, KeysFrom, HonestOk, Falling;
  }

  /** While all replies are true, the counter of every node is the sum of the true readings
      of the paths through it, as long as that fits 64 bits. */
  lemma CountersAreTrue(d: Detector, x: nat, bytes: bool)
    requires d.Valid() && d.honest && x in d.predictor.forest.nodes
    requires var f := d.predictor.forest; TrueTotal(f.nodes, f.paths, d.read, d.truth, x, f.nextPath, bytes) < 0x1_0000_0000_0000_0000
    ensures var f := d.predictor.forest; Amount(f.nodes[x].counter, bytes) == TrueTotal(f.nodes, f.paths, d.read, d.truth, x, f.nextPath, bytes)
  {
    hide StateOk, Rising, FlowGraph, EdgesOk, Acyclic, PredictorOk, CountersOk, Handles, Rooted, Keyed, OpenOk, TimelineOk, CountedTo, TrueTotal;
    HonestCounted(d.Snapshot());
    NodeCountsTruth(d.predictor.forest, d.carried, d.read, d.truth, d.reached, x, bytes);
  }
}
