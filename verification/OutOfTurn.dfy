/** A run of the detector in which passRequest() of src/flow_predictor/FlowPredictor.cpp
    answers predictions of the wrong time: the buckets of time 1 and 0 are answered in this
    order, so bucket 1 is complete but stays until the next reply, which belongs to time 2. */
module OutOfTurn {
  import opened Options
  import opened Sequences
  import opened Masks
  import opened Tables
  import opened Edges
  import opened Forests
  import opened ForestGrowth
  import opened SubtreeGrowth
  import opened SubtreeRemoval
  import opened PathCounters
  import opened PathQueries
  import opened Coverings
  import opened FlowPredictors
  import opened Stats
  import opened StatsManagers
  import opened Protocols
  import opened Readings
  import opened Detectors

  /** The bucket of time t waits for the one reply id. */
  predicate WaitsFor(timeline: Timeline, pending: Pending, t: nat, id: nat)
  {
    && t in timeline && timeline[t].expected.Keys == {id}
    && id in pending && pending[id] == Request(id, t, SOURCE_RULE)
  }

  lemma OnlyOnce(s: seq<nat>, p: nat)
    requires Distinct(s) && p in s && forall i | 0 <= i < |s| :: s[i] == p
    ensures |s| == 1
  {
    hide Distinct;
    if |s| > 1 { FirstTwoDiffer(s); }
  }

  lemma FirstTwoDiffer(s: seq<nat>)
    requires Distinct(s) && |s| > 1
    ensures s[0] != s[1]
  {}

  lemma OneIsAsked(f: Forest, rule: nat, p: nat, l0: seq<Query>, l1: seq<Query>, asked: seq<nat>)
    requires forall q :: PathOfRule(f, rule, q) <==> q == p
    requires Distinct(asked) && forall q :: q in asked <==> PathOfRule(f, rule, q)
    requires l0 == [] && AsksPaths(l0, l1, asked)
    ensures |l1| == 1 && l1[0].subject == PathOf(p)
  {
    hide PathOfRule;
    assert p in asked;
    forall i | 0 <= i < |asked| ensures asked[i] == p { assert asked[i] in asked; }
    OnlyOnce(asked, p);
  }

  lemma {:induction false} OneSlot(list: seq<Query>, p: nat, now: nat)
    requires |list| == 1 && list[0].subject == PathOf(p) && list[0].time == now
    ensures |Slots(list)| == 1 && Slots(list)[0] == Slot(list[0].key, now, SOURCE_RULE)
  {
    assert Slots(list) == Slots(list[..0]) + SlotsOf(list[0]);
  }

  lemma OneRequest(list: seq<Query>, slot: Slot, id: nat, requests: seq<Request>, expected: map<nat, nat>)
    requires |Slots(list)| == 1 && Slots(list)[0] == slot && Named(Slots(list), id, requests, expected) && id < IDS
    ensures requests == [Request(id, slot.time, slot.kind)] && expected.Keys == {id}
  {
    hide Slots;
    assert IdAfter(id, 0) == id;
  }

  /** The state at time `now`, before anything is asked. */
  ghost predicate Ready(d: Detector, now: nat)
    reads d, d.manager, d.predictor
  {
    && d.Valid() && d.manager.deque != [] && d.manager.deque[0] == now && now in d.manager.timeline && d.manager.timeline[now].list == []
    && d.manager.lastTime == now + 1 && d.manager.xid == now + 1 && forall id | id in d.pending :: id <= now
  }

  /** One prediction is asked for, and its one query is sent. */
  method Round(d: Detector, requestId: nat, rule: nat, ghost p: nat, now: nat)
    requires Ready(d, now) && now + 2 < IDS && forall q :: PathOfRule(d.predictor.forest, rule, q) <==> q == p
    modifies d`pending, d`predictions, d.manager`timeline, d.manager`deque, d.manager`lastTime, d.manager`xid, d.manager`current, d.manager`nextKey
    ensures Ready(d, now + 1) && d.manager.deque == [now + 1] + old(d.manager.deque)
    ensures WaitsFor(d.manager.timeline, d.pending, now, now + 1)
    ensures d.predictions == old(d.predictions)[now := At(old(d.predictions), now) + [Prediction(requestId, rule)]]
    ensures forall t | t in old(d.manager.timeline) && t != now && t != now + 1 ::
              t in d.manager.timeline && d.manager.timeline[t] == old(d.manager.timeline)[t]
    ensures forall id | id in old(d.pending) :: id in d.pending && d.pending[id] == old(d.pending)[id]
  {
    hide StateOk, Rising, FlowGraph, EdgesOk, Acyclic, PredictorOk, CountersOk, Handles, Rooted, Keyed, TimelineOk, PathOfRule, AsksPaths, Slots, Named, Distinct;
    var asked := d.PredictFlow(requestId, rule);
    ghost var list := d.manager.timeline[now].list;
    OneIsAsked(d.predictor.forest, rule, p, [], list, asked);
    OneSlot(list, p, now);
    assert IdAfter(now + 1, 0) == now + 1 && IdAfter(now + 1, 1) == now + 2;
    var requests := d.PrepareInstructions();
    OneRequest(list, Slot(list[0].key, now, SOURCE_RULE), now + 1, requests, d.manager.timeline[now].expected);
    assert requests[0].id == now + 1;
  }

  predicate OthersSame(t0: Timeline, t1: Timeline, t: nat)
  {
    forall s | s in t1 && s != t :: s in t0 && t1[s] == t0[s]
  }

  lemma AnswerEmpties(t0: Timeline, t: nat, id: nat, kind: Stats.Kind, fields: Fields)
    requires t in t0 && id in t0[t].expected && t0[t].expected.Keys == {id}
    ensures var t1 := t0[t := Answer(t0[t], id, kind, fields)];
      t1.Keys == t0.Keys && t1[t].expected == map[] && OthersSame(t0, t1, t)
  {
    AnswerExpected(t0[t], id, kind, fields);
  }

  /** The reply to a bucket while an older one waits. */
  method ReplyStays(d: Detector, t: nat, id: nat, x: nat, fields: Fields)
    requires d.Valid() && WaitsFor(d.manager.timeline, d.pending, t, id) && fields.RuleFields?
    requires WaitsFor(d.manager.timeline, d.pending, Oldest(d.manager.deque), x) && x != id
    modifies d, d.manager`timeline, d.manager`deque, d.predictor`forest
    ensures d.Valid() && d.pending == old(d.pending) - {id} && d.manager.deque == old(d.manager.deque)
    ensures d.manager.timeline.Keys == old(d.manager.timeline).Keys && OthersSame(old(d.manager.timeline), d.manager.timeline, t)
    ensures t in d.manager.timeline && d.manager.timeline[t].expected == map[]
    ensures d.predictions == old(d.predictions) && d.answered == old(d.answered) && d.left == old(d.left)
  {
    hide StateOk, Rising, FlowGraph, EdgesOk, Acyclic, PredictorOk, CountersOk, Handles, Rooted, Keyed, OpenOk, TimelineOk, Answer, SameStructure, LastRead, Readable,
         ReplyTruthful, ReadAll, Answered;
    ghost var t0, o := d.manager.timeline, Oldest(d.manager.deque);
    AnswerEmpties(t0, t, id, SOURCE_RULE, fields);
    assert x in t0[o].expected - {id};
    var gone, time, list := d.AddStats(id, fields);
  }

  /** A reply after which the oldest bucket is complete: it leaves, and the predictions of
      the reply's own time t are answered. */
  method ReplyPops(d: Detector, t: nat, id: nat, fields: Fields)
    requires d.Valid() && WaitsFor(d.manager.timeline, d.pending, t, id) && fields.RuleFields?
    requires Oldest(d.manager.deque) in d.manager.timeline && d.manager.timeline[Oldest(d.manager.deque)].expected.Keys <= {id}
    modifies d, d.manager`timeline, d.manager`deque, d.predictor`forest
    ensures d.Valid() && d.pending == old(d.pending) - {id} && old(d.manager.deque) != []
    ensures var o := Oldest(old(d.manager.deque));
      && d.manager.deque == old(d.manager.deque)[..|old(d.manager.deque)| - 1] && d.left == old(d.left) + [o]
      && d.manager.timeline.Keys == old(d.manager.timeline).Keys - {o} && OthersSame(old(d.manager.timeline), d.manager.timeline, t)
      && (t != o ==> t in d.manager.timeline && d.manager.timeline[t].expected == map[])
    ensures d.predictions == old(d.predictions) - {t} && d.answered == old(d.answered) + At(old(d.predictions), t)
  {
    hide StateOk, Rising, FlowGraph, EdgesOk, Acyclic, PredictorOk, CountersOk, Handles, Rooted, Keyed, OpenOk, TimelineOk, Answer, SameStructure, LastRead, Readable,
         ReplyTruthful, ReadAll, Answered;
    ghost var t0, o := d.manager.timeline, Oldest(d.manager.deque);
    AnswerEmpties(t0, t, id, SOURCE_RULE, fields);
    assert t0[o].expected - {id} == map[];
    SomeOldest(d);
    var gone, time, list := d.AddStats(id, fields);
  }

  lemma SomeOldest(d: Detector)
    requires d.Valid()
    ensures d.manager.deque != []
  {
    hide StateOk, Rising, FlowGraph, EdgesOk, Acyclic, PredictorOk, CountersOk, Handles, Rooted, Keyed, OpenOk, TimelineOk;
    OpenExists(d.Snapshot());
  }

  /** Another bucket's wait is not touched. */
  lemma StillWaits(t0: Timeline, p0: Pending, t1: Timeline, p1: Pending, t: nat, id: nat)
    requires WaitsFor(t0, p0, t, id) && t in t1 && t1[t] == t0[t] && id in p1 && p1[id] == p0[id]
    ensures WaitsFor(t1, p1, t, id)
  {}

  lemma WaitFacts(t0: Timeline, p0: Pending, t: nat, id: nat)
    requires WaitsFor(t0, p0, t, id)
    ensures t in t0 && t0[t].expected.Keys == {id} && id in p0
  {}

  lemma FirstAt(predictions: map<nat, seq<Prediction>>, t: nat)
    ensures t !in predictions ==> forall x :: At(predictions, t) + [x] == [x]
    ensures t in predictions ==> At(predictions, t) == predictions[t]
  {}

  /** Predictions 10, 11 and 12 are asked for at the times 0, 1 and 2. */
  method ThreeRounds(d: Detector, rule: nat, ghost p: nat)
    requires Ready(d, 0) && d.manager.deque == [0] && d.predictions == map[]
    requires forall q :: PathOfRule(d.predictor.forest, rule, q) <==> q == p
    modifies d`pending, d`predictions, d.manager`timeline, d.manager`deque, d.manager`lastTime, d.manager`xid, d.manager`current, d.manager`nextKey
    ensures d.Valid() && d.manager.deque == [3, 2, 1, 0]
    ensures WaitsFor(d.manager.timeline, d.pending, 0, 1) && WaitsFor(d.manager.timeline, d.pending, 1, 2) && WaitsFor(d.manager.timeline, d.pending, 2, 3)
    ensures d.predictions == map[0 := [Prediction(10, rule)], 1 := [Prediction(11, rule)], 2 := [Prediction(12, rule)]]
    ensures d.answered == old(d.answered) && d.left == old(d.left)
  {
    hide Detector.Valid, Ready, WaitsFor, PathOfRule, At;
    FirstAt(d.predictions, 0);
    Round(d, 10, rule, p, 0);
    ghost var t0, p0 := d.manager.timeline, d.pending;
    WaitFacts(t0, p0, 0, 1);
    FirstAt(d.predictions, 1);
    Round(d, 11, rule, p, 1);
    ghost var t1, p1 := d.manager.timeline, d.pending;
    StillWaits(t0, p0, t1, p1, 0, 1);
    WaitFacts(t1, p1, 0, 1);
    WaitFacts(t1, p1, 1, 2);
    FirstAt(d.predictions, 2);
    Round(d, 12, rule, p, 2);
    StillWaits(t1, p1, d.manager.timeline, d.pending, 0, 1);
    StillWaits(t1, p1, d.manager.timeline, d.pending, 1, 2);
    ReadyIsValid(d, 3);
  }

  lemma ReadyIsValid(d: Detector, now: nat)
    requires Ready(d, now)
    ensures d.Valid()
  {
    hide Detector.Valid;
  }

  /** The replies to the times 1, 0 and 2 arrive in this order. The reply to time 2 makes
      bucket 1 leave and answers prediction 12, whose own bucket stays; prediction 11 is not
      answered although its bucket has gone. */
  method AnsweredOutOfTurn(d: Detector, rule: nat, ghost p: nat, f0: Fields, f1: Fields, f2: Fields)
    requires Ready(d, 0) && d.manager.deque == [0] && d.predictions == map[] && d.answered == [] && d.left == []
    requires forall q :: PathOfRule(d.predictor.forest, rule, q) <==> q == p
    requires f0.RuleFields? && f1.RuleFields? && f2.RuleFields?
    modifies d, d.manager, d.predictor`forest
    ensures d.Valid() && d.manager.deque == [3, 2] && d.left == [0, 1]
    ensures d.answered == [Prediction(10, rule), Prediction(12, rule)]
    ensures d.predictions == map[1 := [Prediction(11, rule)]]
    ensures 2 in d.manager.timeline && d.manager.timeline[2].expected == map[]
  {
    hide Detector.Valid, Ready, WaitsFor, OthersSame, PathOfRule, At;
    ThreeRounds(d, rule, p);
    ghost var t0, p0 := d.manager.timeline, d.pending;
    OldestIs([3, 2, 1], 0);
    WaitFacts(t0, p0, 0, 1);
    WaitFacts(t0, p0, 1, 2);
    WaitFacts(t0, p0, 2, 3);
    ReplyStays(d, 1, 2, 1, f1);
    ghost var t1, p1 := d.manager.timeline, d.pending;
    OthersAt(t0, t1, 1, 0);
    OthersAt(t0, t1, 1, 2);
    StillWaits(t0, p0, t1, p1, 0, 1);
    StillWaits(t0, p0, t1, p1, 2, 3);
    FirstAt(d.predictions, 0);
    ReplyPops(d, 0, 1, f0);
    ghost var t2, p2 := d.manager.timeline, d.pending;
    OldestIs([3, 2], 1);
    OthersAt(t1, t2, 0, 1);
    OthersAt(t1, t2, 0, 2);
    StillWaits(t1, p1, t2, p2, 2, 3);
    FirstAt(d.predictions, 2);
    ReplyPops(d, 2, 3, f2);
  }

  lemma OldestIs(deque: seq<nat>, t: nat)
    ensures Oldest(deque + [t]) == t && (deque + [t])[..|deque|] == deque
  {}

  lemma OthersAt(t0: Timeline, t1: Timeline, t: nat, s: nat)
    requires OthersSame(t0, t1, t) && s in t1 && s != t
    ensures s in t0 && t1[s] == t0[s]
  {}

  // --- a network with one source, one sink and an edge between them ---

  /** The edge lets some header pass from a source rule to a sink. */
  ghost predicate OneEdge(e: Edge, rules: Rules, pad: Mask)
  {
    && FlowGraph(rules, map[0 := e], pad) && e.src in rules && e.dst in rules && e.src != e.dst
    && rules[e.src].kind == Source && rules[e.dst].kind == Sink
    && !NoPreimage(e, rules[e.src], rules[e.dst].domain, |pad|)
  }

  /** The forest of this network has one path. */
  lemma OnePath(f: Forest, via: Vias, rules: Rules, e: Edge, limit: nat, pad: Mask) returns (p: nat)
    requires OneEdge(e, rules, pad) && PredictorOk(f, via, rules, map[0 := e], pad) && 0 in f.nodes && f.nodes[0].rule == e.dst
    requires forall x | x in f.nodes && x != 0 :: Done(f, rules, map[0 := e], limit, x, |pad|)
    requires HandledAt(f.nodes, rules, 0, e, |pad|)
    ensures forall q :: PathOfRule(f, e.dst, q) <==> q == p
  {
    hide FlowGraph, NoPreimage, SourcesHavePaths, ViasFrom, NodeAt, MappingOk, RootsOk, PathsOk, CompleteBelow, Below, PathOfRule;
    RootDomain(f, via, rules, e, pad);
    var c: nat :| c in f.nodes[0].children && c in f.nodes && f.nodes[c].rule == e.src;
    assert ChildrenAt(f.nodes, 0) && Live(f.nodes, c) && f.nodes[c].parent == 0 && c != 0;
    assert Done(f, rules, map[0 := e], limit, c, |pad|);
    p := f.nodes[c].outPath.value;
    assert ParentAt(f.nodes, c) && Live(f.nodes, 0);
    RootMapped(f, e.dst);
    PathIsThere(f, e.dst, c, p);
    forall q ensures PathOfRule(f, e.dst, q) <==> q == p {
      if PathOfRule(f, e.dst, q) { PathIs(f, via, rules, e, c, q, pad); }
    }
  }

  lemma RootDomain(f: Forest, via: Vias, rules: Rules, e: Edge, pad: Mask)
    requires OneEdge(e, rules, pad) && ForestOk(f, via, rules, pad) && 0 in f.nodes && f.nodes[0].rule == e.dst
    ensures f.nodes[0].domain == rules[e.dst].domain
  {
    hide FlowGraph, NoPreimage, ListsOk, PathsOk, ChildAt;
    ChainFacts(f, via, rules, 0, pad);
    assert NodeAt(f.nodes, via, rules, 0, pad);
  }

  lemma RootMapped(f: Forest, r: nat)
    requires MappingOk(f.nodes, f.mapping) && Live(f.nodes, 0) && f.nodes[0].rule == r
    ensures r in f.mapping && 0 in f.mapping[r]
  {}

  lemma PathIsThere(f: Forest, r: nat, c: nat, p: nat)
    requires r in f.mapping && 0 in f.mapping[r] && p in f.paths && f.paths[p].source == c
    requires 0 in f.nodes && Live(f.nodes, c) && f.nodes[c].parent == 0 && c > 0
    ensures PathOfRule(f, r, p)
  {
    assert Below(f.nodes, 0, 0) && Below(f.nodes, 0, c);
    assert InSubtree(f, 0, p);
  }

  lemma PathIs(f: Forest, via: Vias, rules: Rules, e: Edge, c: nat, q: nat, pad: Mask)
    requires OneEdge(e, rules, pad) && PredictorOk(f, via, rules, map[0 := e], pad) && 0 in f.nodes && Live(f.nodes, 0) && f.nodes[0].rule == e.dst
    requires Live(f.nodes, c) && c in f.nodes[0].children && f.nodes[c].rule == e.src && PathOfRule(f, e.dst, q)
    ensures f.nodes[c].outPath == Some(q)
  {
    hide FlowGraph, NoPreimage, Below, MappingOk, NodesOk;
    var z :| z in f.mapping[e.dst] && InSubtree(f, z, q);
    var s := f.paths[q].source;
    ChainFacts(f, via, rules, s, pad);
    assert f.nodes[s].outPath == Some(q) && rules[f.nodes[s].rule].kind == Source && f.nodes[s].parent != s;
    assert s in via && IsEdge(via[s], map[0 := e]);
    ViaEnds(f, via, rules, s, pad);
    var y := f.nodes[s].parent;
    assert ParentAt(f.nodes, s);
    ChainFacts(f, via, rules, y, pad);
    ChainFacts(f, via, rules, 0, pad);
    OneRoot(f, y);
    assert ChildrenAt(f.nodes, 0);
  }

  lemma OneRoot(f: Forest, y: nat)
    requires RootsOk(f.nodes) && Live(f.nodes, y) && Live(f.nodes, 0) && f.nodes[y].parent == y && f.nodes[0].parent == 0 && f.nodes[0].rule == f.nodes[y].rule
    ensures y == 0
  {}

  /** From the constructors on: the run of AnsweredOutOfTurn happens in every network with
      such an edge, whatever the replies carry. */
  method RunOutOfTurn(pad: Mask, rules: Rules, e: Edge, ghost truth: Truth, f0: Fields, f1: Fields, f2: Fields) returns (d: Detector)
    requires OneEdge(e, rules, pad) && f0.RuleFields? && f1.RuleFields? && f2.RuleFields?
    ensures d.Valid() && d.left == [0, 1]
    ensures d.answered == [Prediction(10, e.dst), Prediction(12, e.dst)] && d.predictions == map[1 := [Prediction(11, e.dst)]]
    ensures 2 in d.manager.timeline && d.manager.timeline[2].expected == map[]
  {
    hide StateOk, Rising, EdgesOk, Acyclic, PredictorOk, CountersOk, Handles, Rooted, Keyed, OpenOk, TimelineOk, NoPreimage, Forests.RulesOk, EdgeOk, Done, HandledAt,
         PathOfRule, CountsNothingNew, NewPaths, SameLives;
    d := new Detector(pad, rules, truth);
    OneEdgeGraph(e, rules, pad);
    d.SetEdges(map[0 := e], 1, map[e.src := 0, e.dst := 1]);
    d.AddEdge(0);
    ghost var p := OnePath(d.predictor.forest, d.predictor.via, rules, e, 1, pad);
    AnsweredOutOfTurn(d, e.dst, p, f0, f1, f2);
  }

  lemma OneEdgeGraph(e: Edge, rules: Rules, pad: Mask)
    requires OneEdge(e, rules, pad)
    ensures EdgesOk(map[0 := e], 1, rules, pad) && Acyclic(map[0 := e], map[e.src := 0, e.dst := 1])
  {
    hide NoPreimage, Forests.RulesOk, EdgeOk;
  }
}
