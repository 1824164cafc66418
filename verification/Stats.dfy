/** Buckets of requests by time (src/flow_predictor/Stats.cpp). */
module Stats {
  import opened Sequences
  import opened Forests

  // --- what is asked ---

  datatype Kind = RULE | SOURCE_RULE | SINK_RULE | SRC_PORT | DST_PORT

  datatype Fields = RuleFields(counter: Counter) | PortFields(rx: nat, tx: nat)

  datatype Subject = RuleOf(rule: nat) | PathOf(path: nat) | LinkOf(src: nat, dst: nat)

  /** One query; key is its place in the list of its bucket. */
  datatype Query = Query(key: nat, time: nat, subject: Subject, fields: map<Kind, Fields>)

  datatype Request = Request(id: nat, time: nat, kind: Kind)

  /** The requests that a query needs. */
  function Kinds(s: Subject): seq<Kind>
  {
    match s
    case RuleOf(_) => [RULE]
    case PathOf(_) => [SOURCE_RULE]
    case LinkOf(_, _) => [SRC_PORT, DST_PORT]
  }

  /** What is asked of a rule, of a path at its source, and of the two ends of a link. */
  predicate NeedsKind(s: Subject, kind: Kind)
  {
    match s
    case RuleOf(_) => kind == RULE
    case PathOf(_) => kind == SOURCE_RULE
    case LinkOf(_, _) => kind == SRC_PORT || kind == DST_PORT
  }

  lemma KindsAre(s: Subject, kind: Kind)
    ensures kind in Kinds(s) <==> NeedsKind(s, kind)
  {}

  /** Rule replies answer rule requests, port replies port requests. */
  predicate Fits(kind: Kind, fields: Fields)
  {
    fields.RuleFields? <==> kind in {RULE, SOURCE_RULE, SINK_RULE}
  }

  // --- buckets ---

  /** expected: the query by request id. */
  datatype Bucket = Bucket(list: seq<Query>, expected: map<nat, nat>)

  predicate HasKey(list: seq<Query>, key: nat)
  {
    exists i :: 0 <= i < |list| && list[i].key == key
  }

  predicate KeysDistinct(list: seq<Query>)
  {
    forall i, j | 0 <= i < j < |list| :: list[i].key != list[j].key
  }

  function Find(list: seq<Query>, key: nat): (i: nat)
    ensures i <= |list| && (i < |list| ==> list[i].key == key)
    ensures forall k | 0 <= k < i :: list[k].key != key
    ensures HasKey(list, key) <==> i < |list|
  {
    if list == [] then 0
    else if list[0].key == key then 0
    else
      var t := list[1..];
      assert forall i | 0 <= i < |t| :: t[i] == list[i + 1];
      assert HasKey(list, key) ==> HasKey(t, key) by {
        if i :| 0 <= i < |list| && list[i].key == key { assert t[i - 1].key == key; }
      }
      1 + Find(t, key)
  }

  /** Erasing one query of the list. */
  function Without(list: seq<Query>, key: nat): seq<Query>
  {
    var i := Find(list, key);
    if i < |list| then list[..i] + list[i + 1..] else list
  }

  // --- getRequests ---

  const IDS: nat := 0x1_0000_0000

  /** getId(): request ids are 32 bits wide and wrap around. */
  function IdAfter(id: nat, k: nat): nat
  {
    (id + k) % IDS
  }

  /** One request that a query needs. */
  datatype Slot = Slot(key: nat, time: nat, kind: Kind)

  function SlotsOf(q: Query): seq<Slot>
  {
    seq(|Kinds(q.subject)|, i requires 0 <= i < |Kinds(q.subject)| => Slot(q.key, q.time, Kinds(q.subject)[i]))
  }

  function Slots(list: seq<Query>): seq<Slot>
  {
    if list == [] then [] else Slots(list[..|list| - 1]) + SlotsOf(list[|list| - 1])
  }

  /** s asks for something that list[i] needs. */
  predicate SlotAt(list: seq<Query>, i: nat, s: Slot)
  {
    i < |list| && s.key == list[i].key && s.time == list[i].time && NeedsKind(list[i].subject, s.kind)
  }

  ghost predicate Needs(list: seq<Query>, s: Slot)
  {
    exists i: nat :: SlotAt(list, i, s)
  }

  lemma {:induction false} SlotsAreNeeds(list: seq<Query>)
    ensures forall s :: s in Slots(list) <==> Needs(list, s)
  {
    if list != [] {
      var n := |list| - 1;
      var q := list[n];
      SlotsAreNeeds(list[..n]);
      forall s ensures s in SlotsOf(q) <==> SlotAt(list, n, s) {
        KindsAre(q.subject, s.kind);
        if SlotAt(list, n, s) {
          var k :| 0 <= k < |Kinds(q.subject)| && Kinds(q.subject)[k] == s.kind;
          assert SlotsOf(q)[k] == s;
        }
      }
      forall s ensures s in Slots(list) <==> Needs(list, s) {
        if Needs(list[..n], s) {
          var i: nat :| SlotAt(list[..n], i, s);
          assert SlotAt(list, i, s);
        }
        if i: nat :| SlotAt(list, i, s) { if i < n { assert SlotAt(list[..n], i, s); } }
      }
    }
  }

  lemma {:induction false} SlotsDistinct(list: seq<Query>)
    requires KeysDistinct(list)
    ensures Distinct(Slots(list))
  {
    if list != [] {
      var n := |list| - 1;
      SlotsDistinct(list[..n]);
      SlotsAreNeeds(list[..n]);
      var a, b := Slots(list[..n]), SlotsOf(list[n]);
      forall i, j | 0 <= i < j < |a + b| ensures (a + b)[i] != (a + b)[j] {
        if i < |a| <= j {
          assert a[i] in a && Needs(list[..n], a[i]);
          var k: nat :| SlotAt(list[..n], k, a[i]);
        }
      }
    }
  }

  /** The ids after xid name the slots one by one. */
  ghost predicate Named(slots: seq<Slot>, xid: nat, requests: seq<Request>, expected: map<nat, nat>)
  {
    && |requests| == |slots|
    && (forall k | 0 <= k < |slots| :: requests[k] == Request(IdAfter(xid, k), slots[k].time, slots[k].kind))
    && (forall k | 0 <= k < |slots| :: requests[k].id in expected && expected[requests[k].id] == slots[k].key)
    && forall id | id in expected :: exists k :: 0 <= k < |requests| && requests[k].id == id
  }

  /** Ids are numbers below 2^32 (uint32_t), and two of them differ within one round. */
  lemma IdsDiffer(xid: nat, i: nat, j: nat)
    requires i < j < i + 0x1_0000_0000
    ensures IdAfter(xid, i) != IdAfter(xid, j)
    ensures IdAfter(xid, i) == (xid + i) % 0x1_0000_0000
  {
    var d, e := (xid + i) / IDS, (xid + j) / IDS;
    assert xid + i == d * IDS + IdAfter(xid, i) && xid + j == e * IDS + IdAfter(xid, j);
  }

  /** The requests of one query. */
  method AddRequests(q: Query, xid0: nat, ghost slots: seq<Slot>, requests0: seq<Request>, expected0: map<nat, nat>, xid1: nat)
    returns (requests: seq<Request>, expected: map<nat, nat>, xid: nat)
    requires xid0 < IDS && |slots| + |SlotsOf(q)| <= IDS
    requires Named(slots, xid0, requests0, expected0) && xid1 == IdAfter(xid0, |requests0|)
    ensures Named(slots + SlotsOf(q), xid0, requests, expected) && xid == IdAfter(xid0, |requests|)
  {
    hide Named, IdAfter;
    requests, expected, xid := requests0, expected0, xid1;
    var kinds := Kinds(q.subject);
    assert slots + SlotsOf(q)[..0] == slots;
    for k := 0 to |kinds|
      invariant Named(slots + SlotsOf(q)[..k], xid0, requests, expected) && xid == IdAfter(xid0, |requests|)
    {
      NameNext(slots + SlotsOf(q)[..k], SlotsOf(q)[k], xid0, requests, expected);
      assert slots + SlotsOf(q)[..k + 1] == slots + SlotsOf(q)[..k] + [SlotsOf(q)[k]];
      requests, expected, xid := requests + [Request(xid, q.time, kinds[k])], expected[xid := q.key], IdAfter(xid, 1);
    }
    assert SlotsOf(q)[..|kinds|] == SlotsOf(q);
  }

  /** getRequests(): one request with a new id for everything the queries need. */
  method GetRequests(list: seq<Query>, xid0: nat) returns (requests: seq<Request>, expected: map<nat, nat>, xid: nat)
    requires xid0 < IDS && |Slots(list)| <= IDS
    ensures Named(Slots(list), xid0, requests, expected) && xid == IdAfter(xid0, |requests|)
  {
    hide Named, SlotsOf;
    requests, expected, xid := [], map[], xid0;
    NamedNothing(xid0);
    for i := 0 to |list|
      invariant Named(Slots(list[..i]), xid0, requests, expected) && xid == IdAfter(xid0, |requests|)
    {
      assert list[..i + 1][..i] == list[..i];
      SlotsGrow(list, i);
      requests, expected, xid := AddRequests(list[i], xid0, Slots(list[..i]), requests, expected, xid);
    }
    assert list[..|list|] == list;
  }

  lemma NamedNothing(xid: nat)
    ensures Named([], xid, [], map[])
  {}

  lemma {:induction false} SlotsGrow(list: seq<Query>, i: nat)
    requires i < |list| && |Slots(list)| <= IDS
    ensures |Slots(list[..i])| + |SlotsOf(list[i])| <= IDS
    decreases |list|
  {
    if i < |list| - 1 {
      assert list[..|list| - 1][..i] == list[..i];
      SlotsGrow(list[..|list| - 1], i);
    }
  }

  lemma NameNext(slots: seq<Slot>, s: Slot, xid0: nat, requests: seq<Request>, expected: map<nat, nat>)
    requires Named(slots, xid0, requests, expected) && |slots| < IDS && xid0 < IDS
    ensures var id := IdAfter(xid0, |requests|);
      Named(slots + [s], xid0, requests + [Request(id, s.time, s.kind)], expected[id := s.key]) && IdAfter(id, 1) == IdAfter(xid0, |requests| + 1)
  {
    hide IdAfter;
    var id := IdAfter(xid0, |requests|);
    NextAfter(xid0, |requests|);
    var more, exp := requests + [Request(id, s.time, s.kind)], expected[id := s.key];
    forall k | 0 <= k < |slots| ensures more[k].id in exp && exp[more[k].id] == slots[k].key {
      IdsDiffer(xid0, k, |slots|);
    }
    forall i | i in exp ensures exists k :: 0 <= k < |more| && more[k].id == i {
      if i == id {
        assert more[|slots|].id == id;
      } else {
        var k :| 0 <= k < |requests| && requests[k].id == i;
        assert more[k].id == i;
      }
    }
  }

  lemma NextAfter(xid: nat, k: nat)
    ensures IdAfter(IdAfter(xid, k), 1) == IdAfter(xid, k + 1)
  {
    var d := (xid + k) / IDS;
    assert xid + k == d * IDS + IdAfter(xid, k);
  }

  // --- a bucket whose requests are on their way ---

  type Pending = map<nat, Request>

  /** The request id asks for something of list[i] that is not answered yet. */
  ghost predicate Asks(b: Bucket, pending: Pending, i: nat, id: nat)
  {
    && i < |b.list| && id in b.expected && id in pending && b.expected[id] == b.list[i].key
    && pending[id].id == id && pending[id].time == b.list[i].time
    && NeedsKind(b.list[i].subject, pending[id].kind) && pending[id].kind !in b.list[i].fields
  }

  ghost predicate AsksOne(b: Bucket, pending: Pending, id: nat)
  {
    exists i: nat :: Asks(b, pending, i, id)
  }

  predicate Answered(q: Query, kind: Kind)
  {
    kind in q.fields && Fits(kind, q.fields[kind])
  }

  ghost predicate Awaited(b: Bucket, pending: Pending, i: nat, kind: Kind)
  {
    exists id :: Asks(b, pending, i, id) && pending[id].kind == kind
  }

  /** Everything that the queries need is answered or awaited under one id. */
  ghost predicate SentOk(b: Bucket, t: nat, pending: Pending)
  {
    && b.list != [] && KeysDistinct(b.list) && (forall i | 0 <= i < |b.list| :: b.list[i].time == t)
    && (forall id | id in b.expected :: AsksOne(b, pending, id))
    && (forall i, kind | 0 <= i < |b.list| && NeedsKind(b.list[i].subject, kind) :: Answered(b.list[i], kind) || Awaited(b, pending, i, kind))
    && forall x, y | x in b.expected && y in b.expected && x in pending && y in pending ::
         b.expected[x] == b.expected[y] && pending[x].kind == pending[y].kind ==> x == y
  }

  /** pass_rule_request(), pass_port_request(): the reply goes to its query, once. */
  function Answer(b: Bucket, id: nat, kind: Kind, fields: Fields): Bucket
    requires id in b.expected
  {
    var i := Find(b.list, b.expected[id]);
    if i < |b.list| then
      Bucket(b.list[i := b.list[i].(fields := b.list[i].fields[kind := fields])], b.expected - {id})
    else Bucket(b.list, b.expected - {id})
  }

  lemma AnswerAt(b: Bucket, t: nat, pending: Pending, id: nat, fields: Fields) returns (i: nat)
    requires SentOk(b, t, pending) && id in b.expected
    ensures id in pending && Asks(b, pending, i, id) && pending[id].time == t
    ensures var c := Answer(b, id, pending[id].kind, fields);
      && c.expected == b.expected - {id}
      && c.list == b.list[i := b.list[i].(fields := b.list[i].fields[pending[id].kind := fields])]
  {
    assert AsksOne(b, pending, id);
    i :| Asks(b, pending, i, id);
    assert HasKey(b.list, b.expected[id]);
    var k := Find(b.list, b.expected[id]);
    assert k == i;
  }

  /** c is b after the reply to id, which asked for list[i]. */
  predicate IsAnswer(b: Bucket, c: Bucket, i: nat, id: nat, kind: Kind, fields: Fields)
  {
    && i < |b.list| && c.expected == b.expected - {id} && |c.list| == |b.list|
    && (forall k | 0 <= k < |b.list| && k != i :: c.list[k] == b.list[k])
    && c.list[i] == b.list[i].(fields := b.list[i].fields[kind := fields])
  }

  /** Another request still asks for the same. */
  lemma AskStays(b: Bucket, c: Bucket, t: nat, pending: Pending, i: nat, id: nat, fields: Fields, k: nat, x: nat)
    requires SentOk(b, t, pending) && Asks(b, pending, i, id) && IsAnswer(b, c, i, id, pending[id].kind, fields)
    requires x != id && Asks(b, pending, k, x)
    ensures Asks(c, pending - {id}, k, x)
  {
    hide Kinds, NeedsKind, KeysDistinct, AsksOne, Answered, Awaited;
  }

  lemma SlotStays(b: Bucket, c: Bucket, t: nat, pending: Pending, i: nat, id: nat, fields: Fields, k: nat, kind: Kind)
    requires SentOk(b, t, pending) && Asks(b, pending, i, id) && IsAnswer(b, c, i, id, pending[id].kind, fields)
    requires Fits(pending[id].kind, fields) && k < |b.list| && NeedsKind(b.list[k].subject, kind)
    ensures Answered(c.list[k], kind) || Awaited(c, pending - {id}, k, kind)
  {
    hide Kinds, NeedsKind, Fits, AsksOne, IsAnswer;
    AnswerFacts(b, c, i, id, pending[id].kind, fields);
    if k == i && kind == pending[id].kind {
    } else if !Answered(b.list[k], kind) {
      var x :| Asks(b, pending, k, x) && pending[x].kind == kind;
      AskDiffers(b, pending, i, id, k, x);
      AskStays(b, c, t, pending, i, id, fields, k, x);
      AskKept(c, pending, id, k, x);
    }
  }

  lemma AskDiffers(b: Bucket, pending: Pending, i: nat, id: nat, k: nat, x: nat)
    requires Asks(b, pending, i, id) && Asks(b, pending, k, x) && KeysDistinct(b.list)
    ensures x == id ==> k == i
  {
    hide Kinds, NeedsKind;
  }

  lemma AskKept(c: Bucket, pending: Pending, id: nat, k: nat, x: nat)
    requires Asks(c, pending - {id}, k, x)
    ensures x in pending && x != id && Awaited(c, pending - {id}, k, pending[x].kind)
  {
    hide Kinds, NeedsKind;
    assert Asks(c, pending - {id}, k, x) && (pending - {id})[x].kind == pending[x].kind;
  }

  lemma AnswerFacts(b: Bucket, c: Bucket, i: nat, id: nat, kind: Kind, fields: Fields)
    requires IsAnswer(b, c, i, id, kind, fields)
    ensures |c.list| == |b.list| && kind in c.list[i].fields && c.list[i].fields[kind] == fields
    ensures forall k | 0 <= k < |b.list| :: c.list[k].subject == b.list[k].subject && c.list[k].key == b.list[k].key && c.list[k].time == b.list[k].time
    ensures forall k, kd | 0 <= k < |b.list| && kd in b.list[k].fields && (k != i || kd != kind) ::
              kd in c.list[k].fields && c.list[k].fields[kd] == b.list[k].fields[kd]
  {}

  lemma AnswerOk(b: Bucket, t: nat, pending: Pending, id: nat, fields: Fields)
    requires SentOk(b, t, pending) && id in b.expected && id in pending && Fits(pending[id].kind, fields)
    ensures SentOk(Answer(b, id, pending[id].kind, fields), t, pending - {id})
  {
    hide Kinds, NeedsKind, Fits, Find, Answered, Awaited, Asks;
    var i := AnswerAt(b, t, pending, id, fields);
    var c := Answer(b, id, pending[id].kind, fields);
    AsksBound(b, pending, i, id);
    assert IsAnswer(b, c, i, id, pending[id].kind, fields);
    AnswerFacts(b, c, i, id, pending[id].kind, fields);
    forall x | x in c.expected ensures AsksOne(c, pending - {id}, x) {
      assert AsksOne(b, pending, x);
      var k: nat :| Asks(b, pending, k, x);
      AskStays(b, c, t, pending, i, id, fields, k, x);
    }
    forall k, kd | 0 <= k < |c.list| && NeedsKind(c.list[k].subject, kd) ensures Answered(c.list[k], kd) || Awaited(c, pending - {id}, k, kd) {
      SlotStays(b, c, t, pending, i, id, fields, k, kd);
    }
  }

  lemma AsksBound(b: Bucket, pending: Pending, i: nat, id: nat)
    requires Asks(b, pending, i, id)
    ensures i < |b.list|
  {}

  /** Requests of other buckets come and go. */
  lemma OthersOk(b: Bucket, t: nat, p0: Pending, p1: Pending)
    requires SentOk(b, t, p0) && forall id | id in b.expected && id in p0 :: id in p1 && p1[id] == p0[id]
    ensures SentOk(b, t, p1)
  {
    hide Kinds, NeedsKind, Fits, KeysDistinct, Answered;
    forall x | x in b.expected ensures AsksOne(b, p1, x) {
      assert AsksOne(b, p0, x);
      var k: nat :| Asks(b, p0, k, x);
      assert Asks(b, p1, k, x);
    }
    forall k, kd | 0 <= k < |b.list| && NeedsKind(b.list[k].subject, kd) ensures Answered(b.list[k], kd) || Awaited(b, p1, k, kd) {
      if !Answered(b.list[k], kd) {
        var x :| Asks(b, p0, k, x) && p0[x].kind == kd;
        assert Asks(b, p1, k, x);
      }
    }
  }

  lemma NobodyAwaited(b: Bucket, pending: Pending, i: nat, kind: Kind)
    requires b.expected == map[]
    ensures !Awaited(b, pending, i, kind)
  {}

  /** No request is missing: everything has been answered. */
  lemma FullIsAnswered(b: Bucket, t: nat, pending: Pending)
    requires SentOk(b, t, pending) && b.expected == map[]
    ensures forall i, kind | 0 <= i < |b.list| && NeedsKind(b.list[i].subject, kind) :: Answered(b.list[i], kind)
  {
    hide Kinds, NeedsKind, Fits, Awaited, AsksOne;
    forall i, kind | 0 <= i < |b.list| && NeedsKind(b.list[i].subject, kind) ensures Answered(b.list[i], kind) {
      NobodyAwaited(b, pending, i, kind);
    }
  }

  /** What list[i] needs is awaited under the id of its slot. */
  lemma SlotAsks(list: seq<Query>, xid: nat, requests: seq<Request>, expected: map<nat, nat>, pending: Pending, i: nat, k: nat)
    requires Named(Slots(list), xid, requests, expected) && i < |list| && k < |requests| && SlotAt(list, i, Slots(list)[k])
    requires list[i].fields == map[] && requests[k].id in pending && pending[requests[k].id] == requests[k]
    ensures Asks(Bucket(list, expected), pending, i, requests[k].id)
  {
    hide Kinds, NeedsKind, IdAfter, Slots;
  }

  lemma ListHasSlot(list: seq<Query>, i: nat, kind: Kind) returns (k: nat)
    requires i < |list| && NeedsKind(list[i].subject, kind)
    ensures k < |Slots(list)| && SlotAt(list, i, Slots(list)[k]) && Slots(list)[k].kind == kind
  {
    hide Kinds, NeedsKind, Slots;
    var s := Slot(list[i].key, list[i].time, kind);
    SlotsAreNeeds(list);
    assert SlotAt(list, i, s) && Needs(list, s);
    k :| 0 <= k < |Slots(list)| && Slots(list)[k] == s;
  }

  lemma RequestSlot(list: seq<Query>, xid: nat, requests: seq<Request>, expected: map<nat, nat>, x: nat) returns (k: nat, i: nat)
    requires Named(Slots(list), xid, requests, expected) && x in expected
    ensures k < |requests| && requests[k].id == x && i < |list| && SlotAt(list, i, Slots(list)[k]) && |requests| == |Slots(list)|
    ensures expected[x] == Slots(list)[k].key && requests[k].kind == Slots(list)[k].kind && requests[k].time == Slots(list)[k].time
  {
    hide Kinds, NeedsKind, IdAfter, Slots;
    SlotsAreNeeds(list);
    k :| 0 <= k < |requests| && requests[k].id == x;
    assert Slots(list)[k] in Slots(list) && Needs(list, Slots(list)[k]);
    i :| SlotAt(list, i, Slots(list)[k]);
  }

  /** A bucket that has just sent its requests. */
  lemma JustSent(list: seq<Query>, t: nat, xid: nat, requests: seq<Request>, expected: map<nat, nat>, pending: Pending)
    requires Named(Slots(list), xid, requests, expected) && list != [] && KeysDistinct(list)
    requires forall i | 0 <= i < |list| :: list[i].time == t && list[i].fields == map[]
    requires forall k | 0 <= k < |requests| :: requests[k].id in pending && pending[requests[k].id] == requests[k]
    ensures SentOk(Bucket(list, expected), t, pending)
  {
    hide Kinds, NeedsKind, Fits, IdAfter, Slots, Named, Asks, SlotAt;
    var b := Bucket(list, expected);
    forall x | x in expected ensures AsksOne(b, pending, x) {
      var k, i := RequestSlot(list, xid, requests, expected, x);
      SlotAsks(list, xid, requests, expected, pending, i, k);
    }
    forall i, kind | 0 <= i < |list| && NeedsKind(list[i].subject, kind) ensures Awaited(b, pending, i, kind) {
      var k := ListHasSlot(list, i, kind);
      NamedLength(Slots(list), xid, requests, expected, k);
      SlotAsks(list, xid, requests, expected, pending, i, k);
    }
    forall x, y | x in expected && y in expected && x in pending && y in pending && expected[x] == expected[y] && pending[x].kind == pending[y].kind
      ensures x == y
    {
      var k, i := RequestSlot(list, xid, requests, expected, x);
      var l, j := RequestSlot(list, xid, requests, expected, y);
      SlotTimes(list, i, Slots(list)[k], t);
      SlotTimes(list, j, Slots(list)[l], t);
      SlotsDistinct(list);
      assert Slots(list)[k] == Slots(list)[l];
    }
  }

  lemma SlotTimes(list: seq<Query>, i: nat, s: Slot, t: nat)
    requires SlotAt(list, i, s) && forall i | 0 <= i < |list| :: list[i].time == t
    ensures s.time == t
  {}

  lemma NamedLength(slots: seq<Slot>, xid: nat, requests: seq<Request>, expected: map<nat, nat>, k: nat)
    requires Named(slots, xid, requests, expected) && k < |slots|
    ensures |requests| == |slots| && requests[k].kind == slots[k].kind
  {}
}
