/** Lists without repetition. */
module Sequences {

  predicate Distinct<T(==)>(s: seq<T>)
  {
    forall i, j | 0 <= i < j < |s| :: s[i] != s[j]
  }

  lemma NoneDistinct<T>()
    ensures Distinct<T>([])
  {}

  lemma OneIsDistinct<T>(x: T)
    ensures Distinct([x])
  {}

  lemma DistinctAppend<T>(s: seq<T>, x: T)
    requires Distinct(s) && x !in s
    ensures Distinct(s + [x]) && forall y :: y in s + [x] <==> y in s || y == x
  {}

  lemma DistinctJoin<T>(a: seq<T>, b: seq<T>)
    requires Distinct(a) && Distinct(b) && forall x | x in b :: x !in a
    ensures Distinct(a + b)
  {
    forall i, j | 0 <= i < j < |a + b| ensures (a + b)[i] != (a + b)[j] {
      if i < |a| <= j { assert a[i] in a && b[j - |a|] in b; }
    }
  }

  /** A queue moves on and takes more elements. */
  lemma QueueJoin<T>(queue: seq<T>, more: seq<T>)
    requires queue != [] && Distinct(queue) && Distinct(more) && forall c | c in more :: c !in queue
    ensures Distinct(queue[1..] + more) && queue[0] !in queue[1..] + more
    ensures forall x :: x in queue[1..] + more <==> (x in queue && x != queue[0]) || x in more
  {
    var rest := queue[1..];
    assert forall i | 0 <= i < |rest| :: rest[i] == queue[i + 1];
    assert queue == [queue[0]] + rest;
    forall i, j | 0 <= i < j < |rest + more| ensures (rest + more)[i] != (rest + more)[j] {
      if i < |rest| <= j { assert rest[i] in rest && rest[i] in queue && more[j - |rest|] in more; }
    }
  }
}
