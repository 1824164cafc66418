/** Interceptor rules and the diffs that bring them to the switches
    (src/flow_predictor/InterceptorManager.cpp). A rule stands for its id; ids are never
    used again. */
module Interceptors {
  import opened Sequences

  datatype Diff = Diff(adds: seq<nat>, deletes: seq<nat>)

  predicate IsDiff(d: Diff)
  {
    Distinct(d.adds) && Distinct(d.deletes)
  }

  /** What a switch holds after a diff: deletes go first. */
  function Apply(rules: set<nat>, d: Diff): set<nat>
  {
    (rules - set x | x in d.deletes) + set x | x in d.adds
  }

  /** Looks for an equal rule and erases it. */
  method EraseEqual(s: seq<nat>, x: nat) returns (found: bool, r: seq<nat>)
    requires Distinct(s)
    ensures found <==> x in s
    ensures Distinct(r) && forall y :: y in r <==> y in s && y != x
  {
    for i := 0 to |s|
      invariant forall k | 0 <= k < i :: s[k] != x
    {
      if s[i] == x {
        r := s[..i] + s[i + 1..];
        forall k | 0 <= k < |r| ensures r[k] == s[if k < i then k else k + 1] {}
        forall y ensures y in r <==> y in s && y != x {
          if y in s && y != x {
            var k :| 0 <= k < |s| && s[k] == y;
            assert r[if k < i then k else k - 1] == y;
          }
        }
        return true, r;
      }
    }
    found, r := false, s;
  }

  /** m is the merger of d and other. */
  ghost predicate IsMerge(d: Diff, other: Diff, m: Diff)
  {
    && (forall x :: x in m.adds <==> (x in d.adds && x !in other.deletes) || x in other.adds)
    && forall x :: x in m.deletes <==> x in d.deletes || (x in other.deletes && x !in d.adds)
  }

  /** operator+=: a rule that was to be added and is now to be deleted is neither. */
  method Merge(d: Diff, other: Diff) returns (m: Diff)
    requires IsDiff(d) && IsDiff(other)
    ensures IsMerge(d, other, m)
    ensures (forall x | x in other.adds :: x !in d.adds) && (forall x | x in other.deletes :: x !in d.deletes) ==> IsDiff(m)
  {
    var adds, deletes := [], other.deletes;
    for i := 0 to |d.adds|
      invariant Distinct(deletes) && forall x :: x in deletes <==> x in other.deletes && x !in d.adds[..i]
      invariant Distinct(adds) && forall x :: x in adds <==> x in d.adds[..i] && x !in other.deletes
    {
      assert d.adds[..i + 1] == d.adds[..i] + [d.adds[i]] && d.adds[i] !in d.adds[..i];
      var found, rest := EraseEqual(deletes, d.adds[i]);
      if found { deletes := rest; } else { adds := adds + [d.adds[i]]; }
    }
    assert d.adds[..|d.adds|] == d.adds;
    m := Diff(adds + other.adds, d.deletes + deletes);
    if forall x | x in other.adds :: x !in d.adds { DistinctJoin(adds, other.adds); }
    if forall x | x in other.deletes :: x !in d.deletes { DistinctJoin(d.deletes, deletes); }
  }

  /** Merging acts like applying both diffs in turn if and only if no rule which the first
      adds and the second deletes for good was there before. */
  lemma MergeActsInTurn(rules: set<nat>, d: Diff, other: Diff, m: Diff)
    requires IsMerge(d, other, m)
    ensures Apply(rules, m) == Apply(Apply(rules, d), other) <==>
              (forall x | x in d.adds && x in other.deletes && x !in other.adds :: x !in rules || x in d.deletes)
  {
    if x :| x in d.adds && x in other.deletes && x !in other.adds && x in rules && x !in d.deletes {
      assert x in Apply(rules, m) && x !in Apply(Apply(rules, d), other);
    }
  }

  /** A rule that is added, with an id that is in use: it stays after its deletion. */
  lemma MergeLosesDeletion()
    ensures IsMerge(Diff([1], []), Diff([], [1]), Diff([], []))
    ensures Apply({1}, Diff([], [])) != Apply(Apply({1}, Diff([1], [])), Diff([], [1]))
  {
    assert 1 in Apply({1}, Diff([], []));
  }

  type InterceptorMap = map<nat, set<nat>>

  predicate InSome(m: InterceptorMap, x: nat)
  {
    exists sw :: sw in m && x in m[sw]
  }

  /** Ids are given out once: what is to be added is not installed, what is to be deleted is. */
  ghost predicate DiffOk(installed: set<nat>, d: Diff, nextId: nat)
  {
    && IsDiff(d) && (forall x | x in d.adds :: x !in installed && x < nextId) && (forall x | x in d.deletes :: x in installed)
    && forall x | x in installed :: x < nextId
  }

  /** The switches hold exactly the recorded interceptors once the pending diff is applied. */
  ghost predicate MapOk(m: InterceptorMap, installed: set<nat>, d: Diff)
  {
    && (forall s, t, x | s in m && t in m && x in m[s] && x in m[t] :: s == t)
    && forall x :: x in Apply(installed, d) <==> InSome(m, x)
  }

  lemma NotInAny(m: InterceptorMap, id: nat)
    ensures !InSome(m, id) ==> forall s | s in m :: id !in m[s]
  {}

  lemma Created(m: InterceptorMap, installed: set<nat>, d: Diff, id: nat, sw: nat, m1: InterceptorMap, d1: Diff)
    requires DiffOk(installed, d, id) && MapOk(m, installed, d) && IsMerge(d, Diff([id], []), d1) && IsDiff(d1)
    requires m1 == m[sw := (if sw in m then m[sw] else {}) + {id}]
    ensures DiffOk(installed, d1, id + 1) && MapOk(m1, installed, d1) && !InSome(m, id) && forall x :: InSome(m1, x) <==> InSome(m, x) || x == id
  {
    assert id !in Apply(installed, d);
    forall x ensures InSome(m1, x) <==> InSome(m, x) || x == id {
      if s :| s in m && x in m[s] { assert x in m1[s]; }
      if x == id { assert x in m1[sw]; }
    }
    forall s, t, x | s in m1 && t in m1 && x in m1[s] && x in m1[t] ensures s == t {
      NotInAny(m, id);
      if x != id { assert s in m && x in m[s] && t in m && x in m[t]; }
    }
    assert forall x :: x in Apply(installed, d1) <==> x in Apply(installed, d) || x == id;
  }

  lemma Deleted(m: InterceptorMap, installed: set<nat>, d: Diff, id: nat, sw: nat, nextId: nat, m1: InterceptorMap, d1: Diff)
    requires DiffOk(installed, d, nextId) && MapOk(m, installed, d) && IsMerge(d, Diff([], [id]), d1) && IsDiff(d1)
    requires sw in m && id in m[sw] && m1 == m[sw := m[sw] - {id}]
    ensures DiffOk(installed, d1, nextId) && MapOk(m1, installed, d1) && forall x :: InSome(m1, x) <==> InSome(m, x) && x != id
  {
    assert InSome(m, id) && id in Apply(installed, d);
    forall x ensures InSome(m1, x) <==> InSome(m, x) && x != id {
      if s :| s in m && x in m[s] { if x != id { assert x in m1[s]; } }
      if x == id { assert forall s | s in m && s != sw :: x !in m[s]; }
    }
    forall s, t, x | s in m1 && t in m1 && x in m1[s] && x in m1[t] ensures s == t {
      assert x in m[s] && x in m[t];
    }
    assert forall x :: x in Apply(installed, d1) <==> x in Apply(installed, d) && x != id;
  }

  class InterceptorManager {
    /** interceptor_map_: the rules by switch. */
    var interceptors: InterceptorMap
    var diff: Diff
    var nextId: nat

    /** What the switches hold after all popped diffs. */
    ghost var installed: set<nat>

    constructor ()
      ensures Valid() && interceptors == map[] && installed == {}
    {
      interceptors, diff, nextId, installed := map[], Diff([], []), 1, {};
    }

    ghost predicate Valid()
      reads this
    {
      DiffOk(installed, diff, nextId) && MapOk(interceptors, installed, diff)
    }

    /** createInterceptor(). */
    method CreateInterceptor(sw: nat) returns (id: nat)
      requires Valid()
      modifies this`interceptors, this`diff, this`nextId
      ensures Valid() && !InSome(old(interceptors), id)
      ensures interceptors == old(interceptors)[sw := (if sw in old(interceptors) then old(interceptors)[sw] else {}) + {id}]
      ensures forall x :: InSome(interceptors, x) <==> InSome(old(interceptors), x) || x == id
    {
      hide IsMerge, MapOk, InSome;
      id, nextId := nextId, nextId + 1;
      interceptors := interceptors[sw := (if sw in interceptors then interceptors[sw] else {}) + {id}];
      diff := Merge(diff, Diff([id], []));
      Created(old(interceptors), installed, old(diff), id, sw, interceptors, diff);
    }

    /** deleteInterceptor(). */
    method DeleteInterceptor(sw: nat, id: nat)
      requires Valid() && sw in interceptors && id in interceptors[sw]
      modifies this`interceptors, this`diff
      ensures Valid() && interceptors == old(interceptors)[sw := old(interceptors)[sw] - {id}]
      ensures forall x :: InSome(interceptors, x) <==> InSome(old(interceptors), x) && x != id
    {
      hide IsMerge, MapOk, InSome;
      NotDeleted(interceptors, installed, diff, sw, id, nextId);
      diff := Merge(diff, Diff([], [id]));
      interceptors := interceptors[sw := interceptors[sw] - {id}];
      Deleted(old(interceptors), installed, old(diff), id, sw, nextId, interceptors, diff);
    }

    /** popInterceptorDiff(): the switches apply it. */
    method PopInterceptorDiff() returns (d: Diff)
      requires Valid()
      modifies this`diff, this`installed
      ensures Valid() && d == old(diff) && installed == Apply(old(installed), d) && diff == Diff([], [])
      ensures forall x :: x in installed <==> InSome(interceptors, x)
    {
      d := diff;
      diff := Diff([], []);
      installed := Apply(installed, d);
      assert Apply(installed, diff) == installed;
    }
  }

  lemma NotDeleted(m: InterceptorMap, installed: set<nat>, d: Diff, sw: nat, id: nat, nextId: nat)
    requires DiffOk(installed, d, nextId) && MapOk(m, installed, d) && sw in m && id in m[sw]
    ensures id !in d.deletes
  {
    assert InSome(m, id) && id in Apply(installed, d);
  }
}
