/** The requests that are on their way and the buckets that wait for them (the
    pending_requests_ of src/Detector.cpp against src/flow_predictor/Stats.cpp). */
module Protocols {
  import opened Stats
  import opened StatsManagers

  // --- what is asked and what is awaited ---

  /** Every bucket but the open one is on its way, and the pending requests are exactly
      those that these buckets expect, each with the time of its bucket. */
  ghost predicate ProtocolOk(timeline: Timeline, deque: seq<nat>, pending: Pending)
  {
    && deque != []
    && (forall t | t in timeline && t != deque[0] :: SentOk(timeline[t], t, pending))
    && forall id | id in pending :: PendingOk(timeline, deque, pending, id)
  }

  predicate PendingOk(timeline: Timeline, deque: seq<nat>, pending: Pending, id: nat)
  {
    && id in pending && pending[id].id == id && pending[id].time in timeline && deque != [] && pending[id].time != deque[0]
    && id in timeline[pending[id].time].expected
  }

  /** An expected request is pending with the time of its bucket: no id is in two buckets. */
  lemma ExpectedIsPending(timeline: Timeline, deque: seq<nat>, pending: Pending, t: nat, id: nat)
    requires ProtocolOk(timeline, deque, pending) && t in timeline && t != deque[0] && id in timeline[t].expected
    ensures id in pending && pending[id].time == t && pending[id].id == id
  {
    assert SentOk(timeline[t], t, pending) && AsksOne(timeline[t], pending, id);
    var i: nat :| Asks(timeline[t], pending, i, id);
  }

  // --- new requests ---

  predicate IdsFree(pending: Pending, xid: nat, n: nat)
  {
    forall k | 0 <= k < n :: IdAfter(xid, k) !in pending
  }

  /** The loop of prepareInstructions(). */
  method SaveRequests(pending0: Pending, requests: seq<Request>, ghost xid: nat) returns (pending: Pending)
    requires |requests| <= IDS && IdsFree(pending0, xid, |requests|)
    requires forall k | 0 <= k < |requests| :: requests[k].id == IdAfter(xid, k)
    ensures forall k | 0 <= k < |requests| :: requests[k].id in pending && pending[requests[k].id] == requests[k]
    ensures forall id | id in pending0 :: id in pending && pending[id] == pending0[id]
    ensures forall id | id in pending && id !in pending0 :: exists k :: 0 <= k < |requests| && requests[k].id == id
  {
    hide IdAfter;
    pending := pending0;
    for i := 0 to |requests|
      invariant forall k | 0 <= k < i :: requests[k].id in pending && pending[requests[k].id] == requests[k]
      invariant forall id | id in pending0 :: id in pending && pending[id] == pending0[id]
      invariant forall id | id in pending && id !in pending0 :: exists k :: 0 <= k < i && requests[k].id == id
    {
      forall k | 0 <= k < i ensures requests[k].id != requests[i].id { IdsDiffer(xid, k, i); }
      if requests[i].id !in pending { pending := pending[requests[i].id := requests[i]]; }
    }
  }

  lemma NoIds(pending: Pending, xid: nat)
    ensures IdsFree(pending, xid, 0)
  {}

  lemma NamedIds(slots: seq<Slot>, xid: nat, requests: seq<Request>, expected: map<nat, nat>)
    requires Named(slots, xid, requests, expected)
    ensures |requests| == |slots| && forall k | 0 <= k < |requests| :: requests[k].id == IdAfter(xid, k) && requests[k].id in expected
  {
    hide IdAfter;
  }

  lemma NamedTimes(list: seq<Query>, t: nat, xid: nat, requests: seq<Request>, expected: map<nat, nat>)
    requires Named(Slots(list), xid, requests, expected) && forall i | 0 <= i < |list| :: list[i].time == t
    ensures forall k | 0 <= k < |requests| :: requests[k].time == t
  {
    hide IdAfter, Slots, Kinds;
    SlotsAreNeeds(list);
    forall k | 0 <= k < |requests| ensures requests[k].time == t {
      assert Slots(list)[k] in Slots(list) && Needs(list, Slots(list)[k]);
    }
  }

  /** The open bucket was sent: its requests join the pending ones. */
  lemma Sent(t0: Timeline, d0: seq<nat>, p0: Pending, t1: Timeline, now: nat, xid: nat, requests: seq<Request>, p1: Pending, nextKey: nat)
    requires ProtocolOk(t0, d0, p0) && d0[0] in t0 && OpenOk(t0[d0[0]], d0[0], nextKey) && t0[d0[0]].list != [] && now !in t0
    requires d0[0] in t1 && t1[d0[0]].list == t0[d0[0]].list && t1 == t0[d0[0] := t1[d0[0]]][now := Bucket([], map[])]
    requires Named(Slots(t0[d0[0]].list), xid, requests, t1[d0[0]].expected)
    requires forall k | 0 <= k < |requests| :: requests[k].id in p1 && p1[requests[k].id] == requests[k]
    requires forall id | id in p0 :: id in p1 && p1[id] == p0[id]
    requires forall id | id in p1 && id !in p0 :: exists k :: 0 <= k < |requests| && requests[k].id == id
    ensures ProtocolOk(t1, [now] + d0, p1)
  {
    hide SentOk, Slots, Named, KeysDistinct;
    var t, b := d0[0], t1[d0[0]];
    OpenFacts(t0[t], t, nextKey);
    forall s | s in t1 && s != now ensures SentOk(t1[s], s, p1) {
      if s == t {
        JustSent(b.list, t, xid, requests, b.expected, p1);
        assert Bucket(b.list, b.expected) == b;
      } else {
        OthersOk(t0[s], s, p0, p1);
      }
    }
    NamedIds(Slots(b.list), xid, requests, b.expected);
    NamedTimes(b.list, t, xid, requests, b.expected);
    forall id | id in p1 ensures PendingOk(t1, [now] + d0, p1, id) {
      if id in p0 { assert PendingOk(t0, d0, p0, id); }
    }
  }

  lemma OpenFacts(b: Bucket, t: nat, nextKey: nat)
    requires OpenOk(b, t, nextKey)
    ensures KeysDistinct(b.list) && forall i | 0 <= i < |b.list| :: b.list[i].time == t && b.list[i].fields == map[]
  {}

  /** An empty open bucket was dropped. */
  lemma Dropped(t0: Timeline, d0: seq<nat>, p0: Pending, t1: Timeline, now: nat)
    requires ProtocolOk(t0, d0, p0) && now !in t0 && t1 == (t0 - {d0[0]})[now := Bucket([], map[])]
    ensures ProtocolOk(t1, [now] + d0[1..], p0)
  {
    hide SentOk;
    forall id | id in p0 ensures PendingOk(t1, [now] + d0[1..], p0, id) { assert PendingOk(t0, d0, p0, id); }
  }

  // --- replies ---

  /** The reply to id has been passed to its bucket. */
  lemma Replied(t0: Timeline, deque: seq<nat>, p0: Pending, id: nat, fields: Fields)
    requires ProtocolOk(t0, deque, p0) && id in p0 && Fits(p0[id].kind, fields)
    ensures p0[id].time in t0 && p0[id].id == id && id in t0[p0[id].time].expected && p0[id].time != deque[0]
    ensures ProtocolOk(t0[p0[id].time := Answer(t0[p0[id].time], id, p0[id].kind, fields)], deque, p0 - {id})
  {
    hide Fits, Answer, SentOk;
    assert PendingOk(t0, deque, p0, id);
    var t := p0[id].time;
    var t1, p1 := t0[t := Answer(t0[t], id, p0[id].kind, fields)], p0 - {id};
    AnswerOk(t0[t], t, p0, id, fields);
    forall s | s in t1 && s != deque[0] && s != t ensures SentOk(t1[s], s, p1) {
      if id in t0[s].expected { ExpectedIsPending(t0, deque, p0, s, id); }
      OthersOk(t0[s], s, p0, p1);
    }
    AnswerExpected(t0[t], id, p0[id].kind, fields);
    forall x | x in p1 ensures PendingOk(t1, deque, p1, x) { assert PendingOk(t0, deque, p0, x); }
  }

  lemma AnswerExpected(b: Bucket, id: nat, kind: Kind, fields: Fields)
    requires id in b.expected
    ensures Answer(b, id, kind, fields).expected == b.expected - {id}
  {}

  /** The oldest bucket has left the timeline. */
  lemma Popped(t0: Timeline, d0: seq<nat>, pending: Pending, time: nat)
    requires ProtocolOk(t0, d0, pending) && |d0| > 1 && time in t0 && time != d0[0] && t0[time].expected == map[]
    ensures ProtocolOk(t0 - {time}, d0[..|d0| - 1], pending)
  {
    hide SentOk;
    forall id | id in pending ensures PendingOk(t0 - {time}, d0[..|d0| - 1], pending, id) { assert PendingOk(t0, d0, pending, id); }
  }

  // --- the oldest bucket ---

  function Oldest(deque: seq<nat>): nat
  {
    if deque == [] then 0 else deque[|deque| - 1]
  }

  /** The times of the buckets that left rise and precede all times of the timeline. */
  predicate LeftInOrder(left: seq<nat>, deque: seq<nat>)
  {
    (forall i, j | 0 <= i < j < |left| :: left[i] < left[j]) && forall i, t | 0 <= i < |left| && t in deque :: left[i] < t
  }

  lemma NotPending(pending: Pending, id: nat)
    requires id !in pending
    ensures pending - {id} == pending
  {}

  /** The open bucket is not the oldest while replies are missing. */
  lemma BackIsOther(timeline: Timeline, deque: seq<nat>, lastTime: nat, t: nat)
    requires TimelineOk(timeline, deque, lastTime) && t in timeline && t != deque[0]
    ensures |deque| > 1 && Oldest(deque) != deque[0]
  {
    DequeFacts(timeline, deque, lastTime);
    var k :| 0 <= k < |deque| && deque[k] == t;
  }

  /** What the reply does to the expected requests of the oldest bucket. */
  lemma ReplyTo(t0: Timeline, deque: seq<nat>, p0: Pending, id: nat, fields: Fields)
    requires ProtocolOk(t0, deque, p0) && id in p0 && p0[id].time in t0 && id in t0[p0[id].time].expected
    requires Oldest(deque) in t0 && Oldest(deque) != deque[0]
    ensures var t := p0[id].time;
      var t1 := t0[t := Answer(t0[t], id, p0[id].kind, fields)];
      && t1[Oldest(deque)].expected == t0[Oldest(deque)].expected - {id}
      && (t1[Oldest(deque)].expected == map[] ==> (t == Oldest(deque) <==> t0[Oldest(deque)].expected != map[]))
  {
    hide SentOk, Answer;
    var t, s := p0[id].time, Oldest(deque);
    AnswerExpected(t0[t], id, p0[id].kind, fields);
    if id in t0[s].expected { ExpectedIsPending(t0, deque, p0, s, id); }
    if t != s {
      assert id !in t0[s].expected;
      assert t0[s].expected - {id} == t0[s].expected;
    }
  }

  /** A bucket that expects nothing has all its replies. */
  lemma BackFull(timeline: Timeline, deque: seq<nat>, pending: Pending, time: nat)
    requires ProtocolOk(timeline, deque, pending) && time in timeline && time != deque[0] && timeline[time].expected == map[]
    ensures var list := timeline[time].list;
      && list != [] && (forall i | 0 <= i < |list| :: list[i].time == time)
      && forall i, kind | 0 <= i < |list| && NeedsKind(list[i].subject, kind) :: Answered(list[i], kind)
  {
    hide Answered;
    FullIsAnswered(timeline[time], time, pending);
  }

  /** The oldest bucket leaves: what remains is later. */
  lemma LeavesInOrder(timeline: Timeline, deque: seq<nat>, lastTime: nat, time: nat, left: seq<nat>)
    requires TimelineOk(timeline, deque, lastTime) && |deque| > 1 && time == Oldest(deque)
    requires left != [] && left[|left| - 1] == time && LeftInOrder(left[..|left| - 1], deque)
    ensures LeftInOrder(left, deque[..|deque| - 1])
  {
    var d, m := deque[..|deque| - 1], |left| - 1;
    assert time in deque;
    forall i, t | 0 <= i < |left| && t in d ensures left[i] < t {
      var k :| 0 <= k < |d| && d[k] == t;
      assert deque[k] == t && t in deque;
      if i < m { assert left[..m][i] < t; }
    }
    forall i, j | 0 <= i < j < |left| ensures left[i] < left[j] {
      if j == m { assert left[..m][i] < time; } else { assert left[..m][i] < left[..m][j]; }
    }
  }

  lemma TimelineFacts(timeline: Timeline, deque: seq<nat>, lastTime: nat)
    requires TimelineOk(timeline, deque, lastTime)
    ensures deque != [] && deque[0] in timeline && lastTime !in timeline && lastTime !in deque
    ensures Oldest(deque) in deque && Oldest(deque) in timeline && Oldest(deque) <= deque[0] < lastTime
  {
    DequeFacts(timeline, deque, lastTime);
  }

  lemma SamePending(p0: Pending, p1: Pending, requests: seq<Request>)
    requires requests == [] && (forall id | id in p0 :: id in p1 && p1[id] == p0[id])
    requires forall id | id in p1 && id !in p0 :: exists k :: 0 <= k < |requests| && requests[k].id == id
    ensures p1 == p0
  {}

  /** A new bucket opens, behind the sent one or in the place of an empty one. */
  lemma OpensInOrder(timeline: Timeline, deque: seq<nat>, lastTime: nat, left: seq<nat>)
    requires TimelineOk(timeline, deque, lastTime) && LeftInOrder(left, deque)
    ensures LeftInOrder(left, [lastTime] + deque) && LeftInOrder(left, [lastTime] + deque[1..])
  {
    DequeFacts(timeline, deque, lastTime);
    assert deque[0] in deque;
    forall i, t | 0 <= i < |left| && t in [lastTime] + deque ensures left[i] < t {
      assert left[i] < deque[0];
    }
    forall t | t in [lastTime] + deque[1..] ensures t in [lastTime] + deque {
      if t != lastTime { assert t in deque[1..] && t in deque; }
    }
  }

  // --- the open bucket ---

  /** The list of the open bucket may change. */
  lemma OpenChanged(t0: Timeline, t1: Timeline, deque: seq<nat>, pending: Pending, list: seq<Query>)
    requires ProtocolOk(t0, deque, pending) && deque[0] in t0 && t1 == t0[deque[0] := Bucket(list, map[])]
    ensures ProtocolOk(t1, deque, pending)
  {
    hide SentOk;
    forall id | id in pending ensures PendingOk(t1, deque, pending, id) { assert PendingOk(t0, deque, pending, id); }
  }
}
