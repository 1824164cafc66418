/** Lists of masks with subtracted masks (the vector helpers of src/header_space/hs.c). */
module HeaderLists {
  import opened Options
  import opened Masks
  import Combine

  /** One element of a header space: the headers of mask that lie in no diff. */
  datatype Term = Term(mask: Mask, diffs: seq<Mask>)

  predicate TermHas(h: Mask, t: Term)
  {
    In(h, t.mask) && !InAny(h, t.diffs)
  }

  /** A list of terms stands for the union of its terms. */
  predicate Has(h: Mask, ts: seq<Term>)
  {
    exists i | 0 <= i < |ts| :: TermHas(h, ts[i])
  }

  predicate IsTerm(t: Term, pad: Mask)
  {
    IsMask(t.mask, pad) && AreMasks(t.diffs, pad)
  }

  predicate AreTerms(ts: seq<Term>, pad: Mask)
  {
    IsPad(pad) && forall i | 0 <= i < |ts| :: IsTerm(ts[i], pad)
  }

  /** Every mask of r lies in a mask of ts. */
  predicate MasksInside(r: seq<Term>, ts: seq<Term>)
  {
    forall i | 0 <= i < |r| :: InSome(r[i].mask, ts)
  }

  predicate InSome(m: Mask, ts: seq<Term>)
  {
    exists k | 0 <= k < |ts| :: In(m, ts[k].mask)
  }

  lemma MasksInsideSelf(ts: seq<Term>)
    ensures MasksInside(ts, ts)
  {
    hide In;
    forall i | 0 <= i < |ts| ensures InSome(ts[i].mask, ts) { InSame(ts[i].mask); }
  }

  lemma MasksInsideNone(r: seq<Term>)
    requires MasksInside(r, [])
    ensures r == []
  {
    assert |r| > 0 ==> InSome(r[0].mask, []);
  }

  lemma MasksInsideTrans(r: seq<Term>, s: seq<Term>, ts: seq<Term>)
    requires MasksInside(r, s) && MasksInside(s, ts)
    ensures MasksInside(r, ts)
  {
    hide In;
    forall i | 0 <= i < |r| ensures InSome(r[i].mask, ts) {
      assert InSome(r[i].mask, s);
      var k :| 0 <= k < |s| && In(r[i].mask, s[k].mask);
      assert InSome(s[k].mask, ts);
      var j :| 0 <= j < |ts| && In(s[k].mask, ts[j].mask);
      InTrans(r[i].mask, s[k].mask, ts[j].mask);
    }
  }

  lemma MasksInsideSubset(r: seq<Term>, ts: seq<Term>, u: seq<Term>)
    requires MasksInside(r, ts) && forall k | 0 <= k < |u| :: u[k] in r
    ensures MasksInside(u, ts)
  {
    hide InSome;
  }

  lemma MasksInsideUpdate(r: seq<Term>, ts: seq<Term>, i: nat, t: Term)
    requires i < |r| && MasksInside(r, ts) && In(t.mask, r[i].mask)
    ensures MasksInside(r[i := t], ts)
  {
    hide In;
    assert InSome(r[i].mask, ts);
    var k :| 0 <= k < |ts| && In(r[i].mask, ts[k].mask);
    InTrans(t.mask, r[i].mask, ts[k].mask);
    assert InSome(t.mask, ts);
  }

  predicate NoDiffs(ts: seq<Term>)
  {
    forall i | 0 <= i < |ts| :: ts[i].diffs == []
  }

  function Plain(ms: seq<Mask>): (ts: seq<Term>)
    ensures |ts| == |ms| && NoDiffs(ts)
    ensures forall i | 0 <= i < |ms| :: ts[i].mask == ms[i]
  {
    seq(|ms|, i requires 0 <= i < |ms| => Term(ms[i], []))
  }

  lemma PlainHas(h: Mask, ms: seq<Mask>)
    ensures Has(h, Plain(ms)) <==> InAny(h, ms)
  {
    hide In;
    var ts := Plain(ms);
    if Has(h, ts) {
      var i :| 0 <= i < |ts| && TermHas(h, ts[i]);
      assert In(h, ms[i]);
    }
    if InAny(h, ms) {
      var i :| 0 <= i < |ms| && In(h, ms[i]);
      assert TermHas(h, ts[i]);
    }
  }

  lemma PlainAreTerms(ms: seq<Mask>, pad: Mask)
    requires AreMasks(ms, pad) && IsPad(pad)
    ensures AreTerms(Plain(ms), pad)
  {}

  lemma HasConcat(h: Mask, us: seq<Term>, vs: seq<Term>)
    ensures Has(h, us + vs) <==> Has(h, us) || Has(h, vs)
  {
    hide TermHas;
    var ts := us + vs;
    if i :| 0 <= i < |us| && TermHas(h, us[i]) { assert ts[i] == us[i]; }
    if i :| 0 <= i < |vs| && TermHas(h, vs[i]) { assert ts[|us| + i] == vs[i]; }
    if i :| 0 <= i < |ts| && TermHas(h, ts[i]) {
      if i < |us| { assert ts[i] == us[i]; } else { assert ts[i] == vs[i - |us|]; }
    }
  }

  lemma InAnyConcat(h: Mask, us: seq<Mask>, vs: seq<Mask>)
    ensures InAny(h, us + vs) <==> InAny(h, us) || InAny(h, vs)
  {
    hide In;
    var ts := us + vs;
    if i :| 0 <= i < |us| && In(h, us[i]) { assert ts[i] == us[i]; }
    if i :| 0 <= i < |vs| && In(h, vs[i]) { assert ts[|us| + i] == vs[i]; }
    if i :| 0 <= i < |ts| && In(h, ts[i]) {
      if i < |us| { assert ts[i] == us[i]; } else { assert ts[i] == vs[i - |us|]; }
    }
  }

  // --- vec_elem_free ---

  /** Removes element i, putting the last element in its place. */
  function ElemFree<T>(v: seq<T>, i: nat): (r: seq<T>)
    requires i < |v|
    ensures |r| == |v| - 1
    ensures forall k | 0 <= k < |r| && k != i :: r[k] == v[k]
    ensures i < |r| ==> r[i] == v[|v| - 1]
    ensures forall k | 0 <= k < |v| && k != i :: v[k] in r
    ensures forall x | x in r :: x in v
  {
    var r := v[i := v[|v| - 1]][..|v| - 1];
    assert forall k | 0 <= k < |v| && k != i :: k < |r| ==> r[k] == v[k];
    assert i < |r| ==> r[i] == v[|v| - 1];
    r
  }

  // --- vec_compact ---

  /** Every element of v lies in the mask of some element of r. */
  predicate CoveredBy<T(==)>(v: seq<T>, r: seq<T>, mask: T -> Mask)
  {
    forall x {:trigger Covered(x, r, mask)} | x in v :: Covered(x, r, mask)
  }

  predicate Covered<T(==)>(x: T, r: seq<T>, mask: T -> Mask)
  {
    exists y :: y in r && In(mask(x), mask(y))
  }

  predicate AreKeyed<T>(v: seq<T>, mask: T -> Mask, pad: Mask)
  {
    forall i | 0 <= i < |v| :: IsMask(mask(v[i]), pad)
  }

  /** No mask is covered by that of another element. */
  predicate Compacted<T>(v: seq<T>, mask: T -> Mask)
  {
    CompactedBefore(v, mask, |v|)
  }

  predicate CompactedBefore<T>(v: seq<T>, mask: T -> Mask, k: nat)
    requires k <= |v|
  {
    forall p, q | 0 <= p < k && 0 <= q < |v| && p != q :: Apart(mask(v[p]), mask(v[q]))
  }

  predicate Apart(a: Mask, b: Mask)
  {
    !In(a, b) && !In(b, a)
  }

  lemma CoveredByFree<T>(v: seq<T>, i: nat, j: nat, mask: T -> Mask)
    requires i < |v| && j < |v| && i != j && In(mask(v[i]), mask(v[j]))
    ensures CoveredBy(v, ElemFree(v, i), mask)
  {
    hide In;
    var r := ElemFree(v, i);
    assert v[j] in r;
    forall x | x in v ensures Covered(x, r, mask) {
      InSame(mask(x));
      var k :| 0 <= k < |v| && v[k] == x;
      if k != i { assert v[k] in r; }
    }
  }

  lemma CoveredByTrans<T>(u: seq<T>, v: seq<T>, w: seq<T>, mask: T -> Mask)
    requires CoveredBy(u, v, mask) && CoveredBy(v, w, mask)
    ensures CoveredBy(u, w, mask)
  {
    hide In;
    forall x | x in u ensures Covered(x, w, mask) {
      assert Covered(x, v, mask);
      var y :| y in v && In(mask(x), mask(y));
      assert Covered(y, w, mask);
      var z :| z in w && In(mask(y), mask(z));
      InTrans(mask(x), mask(y), mask(z));
    }
  }

  lemma FreeKeepsOrder<T>(v: seq<T>, i: nat, k: nat, mask: T -> Mask)
    requires k <= i < |v| && CompactedBefore(v, mask, k)
    ensures CompactedBefore(ElemFree(v, i), mask, k)
  {
    hide Apart;
    var r := ElemFree(v, i);
    forall p, q | 0 <= p < k && 0 <= q < |r| && p != q ensures Apart(mask(r[p]), mask(r[q])) {
      assert Apart(mask(v[p]), mask(v[if q == i then |v| - 1 else q]));
    }
  }

  /** What the swap-delete loops leave of v when they have got to the pair i, j: of two
      equal masks the one at i stays. */
  function VecCompacted<T(==)>(v: seq<T>, mask: T -> Mask, i: nat, j: nat): (r: seq<T>)
    requires i < j
    ensures |r| <= |v| && forall x | x in r :: x in v
    decreases |v|, |v| - i, |v| - j
  {
    if i >= |v| then v
    else if j >= |v| then VecCompacted(v, mask, i + 1, i + 2)
    else if In(mask(v[j]), mask(v[i])) then VecCompacted(ElemFree(v, j), mask, i, j)
    else if In(mask(v[i]), mask(v[j])) then VecCompacted(ElemFree(v, i), mask, i, i + 1)
    else VecCompacted(v, mask, i, j + 1)
  }

  /** Masks stay covered, and none of those left covers another. */
  lemma {:induction false} VecCompactedFacts<T>(v: seq<T>, mask: T -> Mask, i: nat, j: nat)
    requires i < j && (i <= |v| ==> CompactedBefore(v, mask, i)) && (i > |v| ==> Compacted(v, mask))
    requires forall q | i < q < j && q < |v| :: Apart(mask(v[i]), mask(v[q]))
    ensures CoveredBy(v, VecCompacted(v, mask, i, j), mask) && Compacted(VecCompacted(v, mask, i, j), mask)
    decreases |v|, |v| - i, |v| - j
  {
    hide In, Apart;
    if i >= |v| {
      forall x | x in v ensures Covered(x, v, mask) { InSame(mask(x)); }
    } else if j >= |v| {
      CompactedExtend(v, i, mask);
      VecCompactedFacts(v, mask, i + 1, i + 2);
    } else if In(mask(v[j]), mask(v[i])) {
      FreeKeepsOrder(v, j, i, mask);
      CoveredByFree(v, j, i, mask);
      VecCompactedFacts(ElemFree(v, j), mask, i, j);
      CoveredByTrans(v, ElemFree(v, j), VecCompacted(v, mask, i, j), mask);
    } else if In(mask(v[i]), mask(v[j])) {
      FreeKeepsOrder(v, i, i, mask);
      CoveredByFree(v, i, j, mask);
      VecCompactedFacts(ElemFree(v, i), mask, i, i + 1);
      CoveredByTrans(v, ElemFree(v, i), VecCompacted(v, mask, i, j), mask);
    } else {
      ApartFrom(mask(v[i]), mask(v[j]));
      VecCompactedFacts(v, mask, i, j + 1);
    }
  }

  /** A list in which no mask covers another is left alone. */
  lemma {:induction false} CompactedStays<T>(v: seq<T>, mask: T -> Mask, i: nat, j: nat)
    requires i < j && Compacted(v, mask)
    ensures VecCompacted(v, mask, i, j) == v
    decreases |v|, |v| - i, |v| - j
  {
    hide In;
    if i >= |v| {
    } else if j >= |v| {
      CompactedStays(v, mask, i + 1, i + 2);
    } else {
      assert Apart(mask(v[i]), mask(v[j]));
      CompactedStays(v, mask, i, j + 1);
    }
  }

  lemma ApartFrom(a: Mask, b: Mask)
    requires !In(a, b) && !In(b, a)
    ensures Apart(a, b)
  {}

  lemma CompactedExtend<T>(v: seq<T>, i: nat, mask: T -> Mask)
    requires i < |v| && CompactedBefore(v, mask, i)
    requires forall q | i < q < |v| :: Apart(mask(v[i]), mask(v[q]))
    ensures CompactedBefore(v, mask, i + 1)
  {
    hide In;
    forall p, q | 0 <= p < i + 1 && 0 <= q < |v| && p != q ensures Apart(mask(v[p]), mask(v[q])) {
      if p == i && q < i { assert Apart(mask(v[q]), mask(v[p])); }
    }
  }

  /** The inner loop: element i against all later ones. It stops when i itself is dropped. */
  method CompactElem<T(==)>(v0: seq<T>, i: nat, mask: T -> Mask, ghost pad: Mask) returns (v: seq<T>, freed: bool)
    requires i < |v0| && AreKeyed(v0, mask, pad)
    ensures i <= |v| <= |v0| && AreKeyed(v, mask, pad) && (if freed then |v| < |v0| else i < |v|)
    ensures VecCompacted(v0, mask, i, i + 1) == if freed then VecCompacted(v, mask, i, i + 1) else VecCompacted(v, mask, i + 1, i + 2)
  {
    hide In, IsMask;
    v := v0;
    var j := i + 1;
    while j < |v|
      invariant i < j <= |v| <= |v0| && AreKeyed(v, mask, pad)
      invariant VecCompacted(v0, mask, i, i + 1) == VecCompacted(v, mask, i, j)
      decreases |v| - j
    {
      var c := Combine.ArrayCombine(mask(v[i]), mask(v[j]), None, pad);
      if c.a.None? {
        return ElemFree(v, i), true;
      } else if c.b.None? {
        v := ElemFree(v, j);
      } else {
        j := j + 1;
      }
    }
    freed := false;
  }

  /** Drops every element whose mask is covered by another one. Without a merge
      mask, which no caller passes, the combination adds no new mask. */
  method VecCompact<T(==)>(v0: seq<T>, mask: T -> Mask, ghost pad: Mask) returns (v: seq<T>)
    requires AreKeyed(v0, mask, pad)
    ensures v == VecCompacted(v0, mask, 0, 1)
    ensures CoveredBy(v0, v, mask) && Compacted(v, mask)
  {
    hide In, IsMask, AreKeyed;
    v := v0;
    VecCompactedFacts(v0, mask, 0, 1);
    var i := 0;
    while i < |v|
      invariant i <= |v| <= |v0| && AreKeyed(v, mask, pad)
      invariant VecCompacted(v0, mask, 0, 1) == VecCompacted(v, mask, i, i + 1)
      decreases |v|, |v| - i
    {
      var freed;
      v, freed := CompactElem(v, i, mask, pad);
      if !freed { i := i + 1; }
    }
  }

  lemma InSame(m: Mask)
    ensures In(m, m)
  {}
}
