/** StatsManager of src/flow_predictor/Stats.cpp: the timeline of buckets. */
module StatsManagers {
  import opened Stats

  type Timeline = map<nat, Bucket>

  /** Newest first. */
  predicate Falling(deque: seq<nat>)
  {
    forall i, j | 0 <= i < j < |deque| :: deque[i] > deque[j]
  }

  /** The open bucket: nothing has been asked yet. */
  predicate OpenOk(b: Bucket, t: nat, nextKey: nat)
  {
    && b.expected == map[] && KeysDistinct(b.list)
    && forall i | 0 <= i < |b.list| :: b.list[i].key < nextKey && b.list[i].time == t && b.list[i].fields == map[]
  }

  predicate TimelineOk(timeline: Timeline, deque: seq<nat>, lastTime: nat)
  {
    deque != [] && Falling(deque) && deque[0] < lastTime && timeline.Keys == set t | t in deque
  }

  lemma DequeFacts(timeline: Timeline, deque: seq<nat>, lastTime: nat)
    requires TimelineOk(timeline, deque, lastTime)
    ensures forall t | t in deque :: t in timeline && t <= deque[0] && t >= deque[|deque| - 1]
    ensures forall t | t in timeline :: t in deque
    ensures |deque| > 0 && (|deque| > 1 ==> deque[0] > deque[|deque| - 1])
  {}

  lemma PushFront(timeline: Timeline, deque: seq<nat>, lastTime: nat, b: Bucket)
    requires TimelineOk(timeline, deque, lastTime)
    ensures TimelineOk(timeline[lastTime := b], [lastTime] + deque, lastTime + 1) && lastTime !in timeline && lastTime !in deque
  {
    DequeFacts(timeline, deque, lastTime);
    forall i, j | 0 <= i < j < |[lastTime] + deque| ensures ([lastTime] + deque)[i] > ([lastTime] + deque)[j] {
      if i == 0 { assert deque[j - 1] in deque; }
    }
    assert forall t :: t in [lastTime] + deque <==> t == lastTime || t in deque;
  }

  lemma FrontReplaced(deque: seq<nat>, now: nat)
    requires deque != [] && Falling(deque) && deque[0] < now
    ensures Falling([now] + deque[1..]) && deque[0] !in deque[1..]
    ensures forall t :: t in [now] + deque[1..] <==> t == now || (t in deque && t != deque[0])
  {
    var rest, d := deque[1..], [now] + deque[1..];
    forall j | 0 <= j < |rest| ensures deque[0] > rest[j] && rest[j] in deque {
      assert rest[j] == deque[j + 1];
    }
    forall i, j | 0 <= i < j < |d| ensures d[i] > d[j] {
      assert d[j] == deque[j] && (i > 0 ==> d[i] == deque[i]);
    }
    assert deque == [deque[0]] + rest;
  }

  lemma ReplaceFront(timeline: Timeline, deque: seq<nat>, lastTime: nat, b: Bucket)
    requires TimelineOk(timeline, deque, lastTime)
    ensures TimelineOk((timeline - {deque[0]})[lastTime := b], [lastTime] + deque[1..], lastTime + 1)
    ensures lastTime !in timeline && deque[0] !in deque[1..]
  {
    hide Falling;
    DequeFacts(timeline, deque, lastTime);
    FrontReplaced(deque, lastTime);
  }

  lemma PopBack(timeline: Timeline, deque: seq<nat>, lastTime: nat)
    requires TimelineOk(timeline, deque, lastTime) && |deque| > 1
    ensures TimelineOk(timeline - {deque[|deque| - 1]}, deque[..|deque| - 1], lastTime)
    ensures forall t :: t in deque[..|deque| - 1] <==> t in deque && t != deque[|deque| - 1]
  {
    var n := |deque| - 1;
    assert deque == deque[..n] + [deque[n]];
    forall t ensures t in deque[..n] <==> t in deque && t != deque[n] {
      if t in deque[..n] {
        var k :| 0 <= k < n && deque[k] == t;
      }
    }
  }

  // --- the order of the queries ---

  predicate KeysRise(list: seq<Query>)
  {
    forall i, j | 0 <= i < j < |list| :: list[i].key < list[j].key
  }

  /** Keys rise within every bucket and from older to newer buckets. */
  predicate Keyed(timeline: Timeline, nextKey: nat)
  {
    && (forall t | t in timeline :: KeysRise(timeline[t].list) && forall i | 0 <= i < |timeline[t].list| :: timeline[t].list[i].key < nextKey)
    && forall s, t | s in timeline && t in timeline && s < t :: KeysBefore(timeline[s].list, timeline[t].list)
  }

  predicate KeysBefore(a: seq<Query>, b: seq<Query>)
  {
    forall i, j | 0 <= i < |a| && 0 <= j < |b| :: a[i].key < b[j].key
  }

  /** A bucket keeps some of its queries. */
  lemma KeyedFewer(timeline: Timeline, t: nat, b: Bucket, nextKey: nat)
    requires Keyed(timeline, nextKey) && t in timeline && KeysRise(b.list)
    requires forall i | 0 <= i < |b.list| :: HasKey(timeline[t].list, b.list[i].key)
    ensures Keyed(timeline[t := b], nextKey)
  {
    var u := timeline[t := b];
    forall r, s | r in u && s in u && r < s ensures KeysBefore(u[r].list, u[s].list) {
      assert KeysBefore(timeline[r].list, timeline[s].list);
    }
  }

  lemma KeyedSame(timeline: Timeline, t: nat, b: Bucket, nextKey: nat)
    requires Keyed(timeline, nextKey) && t in timeline && |b.list| == |timeline[t].list|
    requires forall i | 0 <= i < |b.list| :: b.list[i].key == timeline[t].list[i].key
    ensures Keyed(timeline[t := b], nextKey)
  {
    hide KeysBefore, Keyed;
    assert KeysRise(timeline[t].list) by { KeyedAt(timeline, t, nextKey); }
    forall i | 0 <= i < |b.list| ensures HasKey(timeline[t].list, b.list[i].key) {}
    KeyedFewer(timeline, t, b, nextKey);
  }

  lemma KeyedAt(timeline: Timeline, t: nat, nextKey: nat)
    requires Keyed(timeline, nextKey) && t in timeline
    ensures KeysRise(timeline[t].list) && forall i | 0 <= i < |timeline[t].list| :: timeline[t].list[i].key < nextKey
  {}

  lemma RisesAppend(list: seq<Query>, q: Query)
    requires KeysRise(list) && forall i | 0 <= i < |list| :: list[i].key < q.key
    ensures KeysRise(list + [q])
  {}

  lemma BeforeAppend(a: seq<Query>, list: seq<Query>, q: Query)
    requires KeysBefore(a, list) && forall i | 0 <= i < |a| :: a[i].key < q.key
    ensures KeysBefore(a, list + [q])
  {}

  /** The newest bucket gets one query more. */
  lemma KeyedAppend(timeline: Timeline, t: nat, q: Query, nextKey: nat)
    requires Keyed(timeline, nextKey) && t in timeline && (forall s | s in timeline :: s <= t) && q.key == nextKey
    ensures Keyed(timeline[t := Bucket(timeline[t].list + [q], timeline[t].expected)], nextKey + 1)
  {
    hide KeysRise, KeysBefore;
    var u := timeline[t := Bucket(timeline[t].list + [q], timeline[t].expected)];
    KeyedAt(timeline, t, nextKey);
    RisesAppend(timeline[t].list, q);
    forall r, s | r in u && s in u && r < s ensures KeysBefore(u[r].list, u[s].list) {
      assert KeysBefore(timeline[r].list, timeline[s].list);
      if s == t { KeyedAt(timeline, r, nextKey); BeforeAppend(timeline[r].list, timeline[t].list, q); }
    }
  }

  lemma KeyedWithout(timeline: Timeline, t: nat, nextKey: nat)
    requires Keyed(timeline, nextKey)
    ensures Keyed(timeline - {t}, nextKey)
  {
    hide KeysBefore;
  }

  /** An empty bucket opens. */
  lemma KeyedOpen(timeline: Timeline, t: nat, nextKey: nat)
    requires Keyed(timeline, nextKey) && t !in timeline
    ensures Keyed(timeline[t := Bucket([], map[])], nextKey)
  {}

  class StatsManager {
    var timeline: Timeline
    var deque: seq<nat>
    var lastTime: nat
    var xid: nat

    /** The queries of the open bucket by path, so that they can be discarded. */
    var current: map<nat, nat>
    var nextKey: nat

    constructor ()
      ensures Valid() && deque == [0] && timeline == map[0 := Bucket([], map[])] && xid == 1 && lastTime == 1 && current == map[] && nextKey == 0
    {
      timeline, deque, lastTime, xid, current, nextKey := map[0 := Bucket([], map[])], [0], 1, 1, map[], 0;
    }

    predicate Valid()
      reads this
    {
      && TimelineOk(timeline, deque, lastTime) && xid < IDS && OpenOk(timeline[deque[0]], deque[0], nextKey)
      && Keyed(timeline, nextKey)
    }

    /** requestRule(), requestPath(), requestLink(): one more query in the open bucket. */
    method AddQuery(subject: Subject)
      requires Valid()
      modifies this`timeline, this`current, this`nextKey
      ensures Valid() && deque[0] in old(timeline)
      ensures timeline == old(timeline)[deque[0] := Bucket(old(timeline)[deque[0]].list + [Query(old(nextKey), deque[0], subject, map[])], map[])]
      ensures nextKey == old(nextKey) + 1
      ensures current == if subject.PathOf? && subject.path !in old(current) then old(current)[subject.path := old(nextKey)] else old(current)
    {
      hide Keyed;
      var t := deque[0];
      assert t in deque;
      KeyedAppend(timeline, t, Query(nextKey, t, subject, map[]), nextKey);
      timeline := timeline[t := Bucket(timeline[t].list + [Query(nextKey, t, subject, map[])], timeline[t].expected)];
      if subject.PathOf? && subject.path !in current { current := current[subject.path := nextKey]; }
      nextKey := nextKey + 1;
    }

    /** discardPathRequest(): erases the query recorded for the path, if there is one.
        The record stays, so a path must not be discarded twice. */
    method DiscardPathRequest(path: nat)
      requires Valid() && (path in current ==> deque[0] in timeline && HasKey(timeline[deque[0]].list, current[path]))
      modifies this`timeline
      ensures Valid() && deque[0] in old(timeline)
      ensures path !in current ==> timeline == old(timeline)
      ensures path in current ==>
                timeline == old(timeline)[deque[0] := Bucket(Without(old(timeline)[deque[0]].list, current[path]), map[])]
    {
      hide Keyed;
      var t := deque[0];
      assert t in deque;
      if path in current {
        WithoutFacts(timeline[t].list, current[path]);
        KeyedAt(timeline, t, nextKey);
        WithoutRises(timeline[t].list, current[path]);
        KeyedFewer(timeline, t, Bucket(Without(timeline[t].list, current[path]), timeline[t].expected), nextKey);
        timeline := timeline[t := Bucket(Without(timeline[t].list, current[path]), timeline[t].expected)];
      }
    }

    /** getNewRequests(): the open bucket is sent if it holds queries, else dropped; a new
        one opens. */
    method GetNewRequests() returns (requests: seq<Request>)
      requires Valid() && deque[0] in timeline && |Slots(timeline[deque[0]].list)| <= IDS
      modifies this`timeline, this`deque, this`lastTime, this`xid, this`current
      ensures Valid() && lastTime == old(lastTime) + 1 && deque[0] == old(lastTime) && timeline[deque[0]] == Bucket([], map[])
      ensures xid == IdAfter(old(xid), |requests|) && current == if old(timeline[deque[0]].list) == [] then old(current) else map[]
      ensures old(timeline[deque[0]].list) == [] ==>
                requests == [] && deque == [old(lastTime)] + old(deque)[1..]
                && timeline == (old(timeline) - {old(deque[0])})[old(lastTime) := Bucket([], map[])]
      ensures old(timeline[deque[0]].list) != [] ==>
                && deque == [old(lastTime)] + old(deque) && old(deque[0]) in timeline
                && timeline[old(deque[0])].list == old(timeline[deque[0]].list)
                && timeline == old(timeline)[old(deque[0]) := timeline[old(deque[0])]][old(lastTime) := Bucket([], map[])]
                && Named(Slots(old(timeline[deque[0]].list)), old(xid), requests, timeline[old(deque[0])].expected)
    {
      hide TimelineOk, Named, Slots, Keyed;
      DequeFacts(timeline, deque, lastTime);
      var t := deque[0];
      if timeline[t].list != [] {
        current := map[];
        var expected;
        var x0 := xid;
        requests, expected, xid := GetRequests(timeline[t].list, xid);
        SameKeys(timeline, deque, lastTime, t, Bucket(timeline[t].list, expected));
        KeyedSame(timeline, t, Bucket(timeline[t].list, expected), nextKey);
        timeline := timeline[t := Bucket(timeline[t].list, expected)];
        PushFront(timeline, deque, lastTime, Bucket([], map[]));
        deque := [lastTime] + deque;
      } else {
        requests := [];
        SameId(xid);
        ReplaceFront(timeline, deque, lastTime, Bucket([], map[]));
        KeyedWithout(timeline, t, nextKey);
        timeline := timeline - {t};
        deque := [lastTime] + deque[1..];
      }
      KeyedOpen(timeline, lastTime, nextKey);
      timeline := timeline[lastTime := Bucket([], map[])];
      lastTime := lastTime + 1;
    }

    /** passRequest(): the assertions of get_bucket() and get_stats() are its requirements. */
    method PassRequest(request: Request, fields: Fields)
      requires Valid() && request.time in timeline && request.time != deque[0] && request.id in timeline[request.time].expected
      modifies this`timeline
      ensures Valid() && timeline.Keys == old(timeline).Keys && forall t | t in timeline && t != request.time :: timeline[t] == old(timeline)[t]
      ensures var b, c := old(timeline)[request.time], timeline[request.time];
        && c.expected == b.expected - {request.id} && |c.list| == |b.list|
        && (forall i | 0 <= i < |b.list| :: c.list[i].key == b.list[i].key && c.list[i].subject == b.list[i].subject)
        && c == Answer(b, request.id, request.kind, fields)
    {
      hide TimelineOk, Answer, Keyed;
      AnswerKeys(timeline[request.time], request.id, request.kind, fields);
      KeyedSame(timeline, request.time, Answer(timeline[request.time], request.id, request.kind, fields), nextKey);
      SameKeys(timeline, deque, lastTime, request.time, Answer(timeline[request.time], request.id, request.kind, fields));
      timeline := timeline[request.time := Answer(timeline[request.time], request.id, request.kind, fields)];
    }

    /** popStatsList(): the oldest bucket, if no reply to it is missing. */
    method PopStatsList() returns (time: nat, full: bool, list: seq<Query>)
      requires Valid() && |deque| > 1
      modifies this`timeline, this`deque
      ensures Valid() && time == old(deque[|deque| - 1]) && time in old(timeline) && time != deque[0]
      ensures full <==> old(timeline)[time].expected == map[]
      ensures full ==> list == old(timeline)[time].list && deque == old(deque)[..|old(deque)| - 1] && timeline == old(timeline) - {time}
      ensures !full ==> list == [] && deque == old(deque) && timeline == old(timeline)
    {
      hide TimelineOk, Keyed;
      DequeFacts(timeline, deque, lastTime);
      time := deque[|deque| - 1];
      full, list := timeline[time].expected == map[], [];
      if full {
        list := timeline[time].list;
        PopBack(timeline, deque, lastTime);
        KeyedWithout(timeline, time, nextKey);
        timeline := timeline - {time};
        deque := deque[..|deque| - 1];
      }
    }
  }

  lemma SameKeys(timeline: Timeline, deque: seq<nat>, lastTime: nat, t: nat, b: Bucket)
    requires TimelineOk(timeline, deque, lastTime) && t in timeline
    ensures TimelineOk(timeline[t := b], deque, lastTime)
  {
    assert timeline[t := b].Keys == timeline.Keys;
  }

  lemma WithoutFacts(list: seq<Query>, key: nat)
    requires KeysDistinct(list)
    ensures var r := Without(list, key);
      KeysDistinct(r) && (forall i | 0 <= i < |r| :: r[i] in list && r[i].key != key)
      && forall q | q in list && q.key != key :: q in r
  {
    var i := Find(list, key);
    if i < |list| {
      var r := list[..i] + list[i + 1..];
      forall k | 0 <= k < |r| ensures r[k] == list[if k < i then k else k + 1] {}
      forall q | q in list && q.key != key ensures q in r {
        var k :| 0 <= k < |list| && list[k] == q;
        assert r[if k < i then k else k - 1] == q;
      }
    }
  }

  lemma SameId(xid: nat)
    requires xid < IDS
    ensures IdAfter(xid, 0) == xid
  {}

  lemma WithoutRises(list: seq<Query>, key: nat)
    requires KeysRise(list)
    ensures KeysRise(Without(list, key))
    ensures forall i | 0 <= i < |Without(list, key)| :: HasKey(list, Without(list, key)[i].key)
  {
    var i := Find(list, key);
    if i < |list| {
      var r := list[..i] + list[i + 1..];
      forall k | 0 <= k < |r| ensures r[k] == list[if k < i then k else k + 1] {}
    }
  }

  /** A reply changes no key. */
  lemma AnswerKeys(b: Bucket, id: nat, kind: Kind, fields: Fields)
    requires id in b.expected
    ensures var c := Answer(b, id, kind, fields); 
      && c.expected == b.expected - {id} && |c.list| == |b.list|
      && forall i | 0 <= i < |b.list| :: c.list[i].key == b.list[i].key && c.list[i].subject == b.list[i].subject
  {}
}
