/** hs_compact of src/header_space/hs.c. */
module Compaction {
  import opened Options
  import opened Words
  import opened Masks
  import opened HeaderLists
  import Arrays

  lemma InAnyFree(h: Mask, ms: seq<Mask>, j: nat)
    requires j < |ms|
    ensures InAny(h, ms) <==> InAny(h, ElemFree(ms, j)) || In(h, ms[j])
  {
    hide In;
    var r := ElemFree(ms, j);
    if i :| 0 <= i < |ms| && i != j && In(h, ms[i]) {
      assert ms[i] in r;
    }
    if i :| 0 <= i < |r| && In(h, r[i]) {
      assert r[i] in ms;
    }
  }

  /** Compacting a diff list keeps its union. */
  lemma CompactedUnion(h: Mask, v0: seq<Mask>, v: seq<Mask>)
    requires forall m | m in v :: m in v0
    requires CoveredBy(v0, v, m => m)
    ensures InAny(h, v) <==> InAny(h, v0)
  {
    hide In;
    if i :| 0 <= i < |v0| && In(h, v0[i]) {
      assert Covered(v0[i], v, m => m);
      var y :| y in v && In(v0[i], y);
      InTrans(h, v0[i], y);
    }
    if i :| 0 <= i < |v| && In(h, v[i]) {
      assert v[i] in v0;
    }
  }

  /** One bit less: the diff j is absorbed by the mask. */
  lemma AbsorbDiff(h: Mask, mask: Mask, diffs: seq<Mask>, j: nat, pad: Mask)
    requires IsPad(pad) && IsMask(mask, pad) && AreMasks(diffs, pad) && j < |diffs| && IsHeader(h, |pad|)
    requires Arrays.MissCount(diffs[j], mask, |pad|) == 1
    ensures TermHas(h, Term(Arrays.SubtractBit(diffs[j], mask), ElemFree(diffs, j)))
       <==> TermHas(h, Term(mask, diffs))
  {
    hide In, InAny;
    Arrays.SubtractBitIsDifference(diffs[j], mask, pad);
    InAnyFree(h, diffs, j);
  }

  lemma DiffCoversMask(h: Mask, mask: Mask, diffs: seq<Mask>, j: nat)
    requires j < |diffs| && |diffs[j]| == |mask| && Arrays.MissCount(diffs[j], mask, |mask|) == 0
    ensures !TermHas(h, Term(mask, diffs))
  {
    hide Extra;
    Arrays.MissCountZero(diffs[j], mask, |mask|);
    assert In(mask, diffs[j]);
    if In(h, mask) { InTrans(h, mask, diffs[j]); }
  }

  /** The diffs have the length of the mask. */
  predicate Aligned(t: Term)
  {
    forall d | d in t.diffs :: |d| == |t.mask|
  }

  /** What the diffs from j on do to the element: those that miss one bit of the mask are
      absorbed, one that misses none ends the element. */
  function Absorbed(mask: Mask, diffs: seq<Mask>, j: nat): (r: Option<Term>)
    requires Aligned(Term(mask, diffs))
    ensures r.Some? ==> Aligned(r.value) && |r.value.mask| == |mask| && forall d | d in r.value.diffs :: d in diffs
    decreases |diffs| - j
  {
    if j >= |diffs| then Some(Term(mask, diffs))
    else
      var cnt := Arrays.MissCount(diffs[j], mask, |mask|);
      if cnt > 1 then Absorbed(mask, diffs, j + 1)
      else if cnt == 1 then Absorbed(Arrays.SubtractBit(diffs[j], mask), ElemFree(diffs, j), j)
      else None
  }

  /** One element after the first loop of hs_compact: None when it is freed. */
  function CompactedTerm(t: Term): (r: Option<Term>)
    requires Aligned(t)
    ensures r.Some? ==> Aligned(r.value) && |r.value.mask| == |t.mask| && forall d | d in r.value.diffs :: d in t.diffs
  {
    Absorbed(t.mask, VecCompacted(t.diffs, m => m, 0, 1), 0)
  }

  lemma TermIsAligned(t: Term, pad: Mask)
    requires IsTerm(t, pad)
    ensures Aligned(t)
  {}

  /** r is what is left of t: the same headers in no larger a mask, or nothing. */
  ghost predicate Remains(t: Term, r: Option<Term>, pad: Mask)
  {
    if r.None? then forall h | IsHeader(h, |pad|) :: !TermHas(h, t)
    else
      && IsTerm(r.value, pad) && In(r.value.mask, t.mask) && (forall d | d in r.value.diffs :: d in t.diffs)
      && forall h | IsHeader(h, |pad|) :: TermHas(h, r.value) <==> TermHas(h, t)
  }

  lemma {:induction false} AbsorbedRemains(mask: Mask, diffs: seq<Mask>, j: nat, pad: Mask)
    requires IsPad(pad) && IsTerm(Term(mask, diffs), pad) && Aligned(Term(mask, diffs))
    ensures Remains(Term(mask, diffs), Absorbed(mask, diffs, j), pad)
    decreases |diffs| - j
  {
    hide In, InAny, IsHeader, IsPad, IsMask, TermHas, Arrays.MissCount, Arrays.SubtractBit;
    InSame(mask);
    if j < |diffs| {
      assert IsMask(diffs[j], pad) && IsMask(mask, pad);
      Arrays.LengthOfMask(mask, pad);
      var cnt := Arrays.MissCount(diffs[j], mask, |mask|);
      if cnt > 1 {
        AbsorbedRemains(mask, diffs, j + 1, pad);
      } else if cnt == 1 {
        forall h | IsHeader(h, |pad|)
          ensures TermHas(h, Term(Arrays.SubtractBit(diffs[j], mask), ElemFree(diffs, j))) <==> TermHas(h, Term(mask, diffs))
        {
          AbsorbDiff(h, mask, diffs, j, pad);
        }
        Arrays.SubtractBitIsDifference(diffs[j], mask, pad);
        assert forall d | d in ElemFree(diffs, j) :: IsMask(d, pad);
        AbsorbedRemains(Arrays.SubtractBit(diffs[j], mask), ElemFree(diffs, j), j, pad);
        var r := Absorbed(mask, diffs, j);
        if r.Some? { InTrans(r.value.mask, Arrays.SubtractBit(diffs[j], mask), mask); }
      } else {
        forall h | IsHeader(h, |pad|) ensures !TermHas(h, Term(mask, diffs)) { DiffCoversMask(h, mask, diffs, j); }
      }
    }
  }

  lemma CompactedTermRemains(t: Term, pad: Mask)
    requires IsPad(pad) && IsTerm(t, pad) && Aligned(t)
    ensures Remains(t, CompactedTerm(t), pad)
  {
    hide In, InAny, IsHeader, IsPad, IsMask, Absorbed;
    var diffs := VecCompacted(t.diffs, m => m, 0, 1);
    VecCompactedFacts(t.diffs, m => m, 0, 1);
    assert forall d | d in t.diffs :: IsMask(d, pad);
    AbsorbedRemains(t.mask, diffs, 0, pad);
    forall h | IsHeader(h, |pad|) ensures TermHas(h, Term(t.mask, diffs)) <==> TermHas(h, t) {
      CompactedUnion(h, t.diffs, diffs);
    }
  }

  /** An element without a diff that misses fewer than two bits is left alone. */
  lemma {:induction false} AbsorbedStays(mask: Mask, diffs: seq<Mask>, j: nat)
    requires Aligned(Term(mask, diffs))
    requires forall k | 0 <= k < |diffs| :: Arrays.MissCount(diffs[k], mask, |mask|) > 1
    ensures Absorbed(mask, diffs, j) == Some(Term(mask, diffs))
    decreases |diffs| - j
  {
    hide Arrays.MissCount;
    if j < |diffs| { AbsorbedStays(mask, diffs, j + 1); }
  }

  /** One element of the loop of hs_compact: None when its diffs cover its mask. */
  method CompactTerm(t: Term, ghost pad: Mask) returns (r: Option<Term>)
    requires IsPad(pad) && IsTerm(t, pad)
    ensures Aligned(t) && r == CompactedTerm(t)
    ensures r.None? ==> forall h | IsHeader(h, |pad|) :: !TermHas(h, t)
    ensures r.Some? ==> IsTerm(r.value, pad) && In(r.value.mask, t.mask)
    ensures r.Some? ==> forall d | d in r.value.diffs :: d in t.diffs
    ensures r.Some? ==> forall h | IsHeader(h, |pad|) :: TermHas(h, r.value) <==> TermHas(h, t)
  {
    hide In, InAny, TermHas, IsHeader, IsPad, Arrays.MissCount, Arrays.SubtractBit;
    TermIsAligned(t, pad);
    CompactedTermRemains(t, pad);
    var mask := t.mask;
    var diffs := VecCompact(t.diffs, m => m, pad);
    var j := 0;
    while j < |diffs|
      invariant j <= |diffs| && Aligned(Term(mask, diffs)) && CompactedTerm(t) == Absorbed(mask, diffs, j)
      decreases |diffs| - j
    {
      var cnt := Arrays.MissCount(diffs[j], mask, |mask|);
      if cnt > 1 {
        j := j + 1;
      } else if cnt == 1 {
        mask := Arrays.SubtractBit(diffs[j], mask);
        diffs := ElemFree(diffs, j);
      } else {
        return None;
      }
    }
    r := Some(Term(mask, diffs));
  }

  /** Every term subtracts, inside its mask, the same set D. */
  ghost predicate CommonDiff(ts: seq<Term>, D: iset<Mask>, n: nat)
  {
    forall i, h | 0 <= i < |ts| && IsHeader(h, n) && In(h, ts[i].mask) :: InAny(h, ts[i].diffs) <==> h in D
  }

  /** Every diff of r is a diff of some term of ts. */
  predicate DiffsFrom(r: seq<Term>, ts: seq<Term>)
  {
    forall i, d | 0 <= i < |r| && d in r[i].diffs :: DiffOf(d, ts)
  }

  predicate DiffOf(d: Mask, ts: seq<Term>)
  {
    exists i | 0 <= i < |ts| :: d in ts[i].diffs
  }

  lemma HasUpdate(h: Mask, ts: seq<Term>, i: nat, t: Term)
    requires i < |ts| && (TermHas(h, t) <==> TermHas(h, ts[i]))
    ensures Has(h, ts[i := t]) <==> Has(h, ts)
  {
    hide TermHas;
    var r := ts[i := t];
    if k :| 0 <= k < |ts| && TermHas(h, ts[k]) { assert TermHas(h, r[k]); }
    if k :| 0 <= k < |ts| && TermHas(h, r[k]) { assert TermHas(h, ts[k]); }
  }

  lemma HasFree(h: Mask, ts: seq<Term>, i: nat)
    requires i < |ts|
    ensures Has(h, ts) <==> Has(h, ElemFree(ts, i)) || TermHas(h, ts[i])
  {
    hide TermHas;
    var r := ElemFree(ts, i);
    if k :| 0 <= k < |ts| && k != i && TermHas(h, ts[k]) { assert ts[k] in r; }
    if k :| 0 <= k < |r| && TermHas(h, r[k]) { assert r[k] in ts; }
  }

  /** A term that keeps its headers and only loses mask bits keeps the common set. */
  lemma CommonUpdate(ts: seq<Term>, i: nat, t: Term, D: iset<Mask>, pad: Mask)
    requires i < |ts| && CommonDiff(ts, D, |pad|) && In(t.mask, ts[i].mask)
    requires forall h | IsHeader(h, |pad|) :: TermHas(h, t) <==> TermHas(h, ts[i])
    ensures CommonDiff(ts[i := t], D, |pad|)
  {
    hide In, InAny, IsHeader;
    var r := ts[i := t];
    forall k, h | 0 <= k < |r| && IsHeader(h, |pad|) && In(h, r[k].mask)
      ensures InAny(h, r[k].diffs) <==> h in D
    {
      if k == i {
        InTrans(h, t.mask, ts[i].mask);
        assert TermHas(h, t) <==> TermHas(h, ts[i]);
      }
    }
  }

  lemma CommonSubset(ts: seq<Term>, r: seq<Term>, D: iset<Mask>, n: nat)
    requires CommonDiff(ts, D, n) && forall k | 0 <= k < |r| :: r[k] in ts
    ensures CommonDiff(r, D, n)
  {
    hide In, InAny, IsHeader;
  }

  lemma DiffsFromUpdate(r: seq<Term>, ts: seq<Term>, i: nat, t: Term)
    requires i < |r| && DiffsFrom(r, ts) && forall d | d in t.diffs :: d in r[i].diffs
    ensures DiffsFrom(r[i := t], ts)
  {
    hide DiffOf;
    var u := r[i := t];
    forall k, d | 0 <= k < |u| && d in u[k].diffs ensures DiffOf(d, ts) {
      assert d in r[k].diffs;
    }
  }

  lemma DiffsFromSubset(r: seq<Term>, ts: seq<Term>, u: seq<Term>)
    requires DiffsFrom(r, ts) && forall k | 0 <= k < |u| :: u[k] in r
    ensures DiffsFrom(u, ts)
  {
    hide DiffOf;
  }

  /** Dropping a term covered by another one keeps the headers when both subtract D. */
  lemma CoveredKeepsHeaders(h: Mask, v: seq<Term>, r: seq<Term>, D: iset<Mask>, pad: Mask)
    requires CommonDiff(v, D, |pad|) && IsHeader(h, |pad|)
    requires CoveredBy(v, r, (t: Term) => t.mask) && forall t | t in r :: t in v
    ensures Has(h, v) ==> Has(h, r)
  {
    hide In, InAny, IsHeader;
    var key := (t: Term) => t.mask;
    if k :| 0 <= k < |v| && TermHas(h, v[k]) {
      assert Covered(v[k], r, key);
      var y :| y in r && In(v[k].mask, y.mask);
      InTrans(h, v[k].mask, y.mask);
      assert y in v;
      var l :| 0 <= l < |v| && v[l] == y;
      assert TermHas(h, y);
    }
  }

  predicate AllAligned(ts: seq<Term>)
  {
    forall i | 0 <= i < |ts| :: Aligned(ts[i])
  }

  lemma TermsAreAligned(ts: seq<Term>, pad: Mask)
    requires AreTerms(ts, pad)
    ensures AllAligned(ts)
  {}

  /** The list after the first loop of hs_compact, from position i on. */
  function CompactedTerms(ts: seq<Term>, i: nat): (v: seq<Term>)
    requires AllAligned(ts)
    ensures AllAligned(v)
    decreases |ts|, |ts| - i
  {
    if i >= |ts| then ts
    else match CompactedTerm(ts[i])
      case None => CompactedTerms(ElemFree(ts, i), i)
      case Some(r) => CompactedTerms(ts[i := r], i + 1)
  }

  /** The list after hs_compact. */
  function CompactedList(ts: seq<Term>): seq<Term>
    requires AllAligned(ts)
  {
    VecCompacted(CompactedTerms(ts, 0), (t: Term) => t.mask, 0, 1)
  }

  /** v comes from ts by compacting terms: same headers, masks and diffs from ts. */
  ghost predicate Tidied(ts: seq<Term>, v: seq<Term>, pad: Mask)
  {
    && AreTerms(v, pad) && |v| <= |ts| && DiffsFrom(v, ts) && MasksInside(v, ts)
    && forall h | IsHeader(h, |pad|) :: Has(h, v) <==> Has(h, ts)
  }

  lemma TidiedTrans(ts: seq<Term>, u: seq<Term>, v: seq<Term>, pad: Mask)
    requires Tidied(ts, u, pad) && Tidied(u, v, pad)
    ensures Tidied(ts, v, pad)
  {
    hide In, Has, IsHeader, AreTerms, InSome;
    MasksInsideTrans(v, u, ts);
    forall i, d | 0 <= i < |v| && d in v[i].diffs ensures DiffOf(d, ts) {
      assert DiffOf(d, u);
    }
  }

  lemma TidiedFree(ts: seq<Term>, i: nat, pad: Mask)
    requires AreTerms(ts, pad) && i < |ts| && forall h | IsHeader(h, |pad|) :: !TermHas(h, ts[i])
    ensures Tidied(ts, ElemFree(ts, i), pad)
  {
    hide In, InAny, TermHas, IsHeader, IsTerm, DiffOf, InSome;
    DiffsFromSelf(ts);
    MasksInsideSelf(ts);
    DiffsFromSubset(ts, ts, ElemFree(ts, i));
    MasksInsideSubset(ts, ts, ElemFree(ts, i));
    forall h | IsHeader(h, |pad|) ensures Has(h, ElemFree(ts, i)) <==> Has(h, ts) { HasFree(h, ts, i); }
  }

  lemma TidiedUpdate(ts: seq<Term>, i: nat, t: Term, pad: Mask)
    requires AreTerms(ts, pad) && i < |ts| && Remains(ts[i], Some(t), pad)
    ensures Tidied(ts, ts[i := t], pad)
  {
    hide In, InAny, TermHas, IsHeader, IsTerm, DiffOf, InSome;
    DiffsFromSelf(ts);
    MasksInsideSelf(ts);
    DiffsFromUpdate(ts, ts, i, t);
    MasksInsideUpdate(ts, ts, i, t);
    forall h | IsHeader(h, |pad|) ensures Has(h, ts[i := t]) <==> Has(h, ts) { HasUpdate(h, ts, i, t); }
  }

  /** The first loop neither loses nor gains a header. */
  lemma {:induction false} CompactedTermsTidied(ts: seq<Term>, i: nat, pad: Mask)
    requires AreTerms(ts, pad) && AllAligned(ts)
    ensures Tidied(ts, CompactedTerms(ts, i), pad)
    decreases |ts|, |ts| - i
  {
    hide In, InAny, TermHas, IsHeader, Has, IsMask, DiffOf, InSome, Aligned, CompactedTerm;
    DiffsFromSelf(ts);
    MasksInsideSelf(ts);
    if i < |ts| {
      assert IsTerm(ts[i], pad) && Aligned(ts[i]);
      CompactedTermRemains(ts[i], pad);
      match CompactedTerm(ts[i])
      case None =>
        TidiedFree(ts, i, pad);
        CompactedTermsTidied(ElemFree(ts, i), i, pad);
        TidiedTrans(ts, ElemFree(ts, i), CompactedTerms(ts, i), pad);
      case Some(r) =>
        TidiedUpdate(ts, i, r, pad);
        CompactedTermsTidied(ts[i := r], i + 1, pad);
        TidiedTrans(ts, ts[i := r], CompactedTerms(ts, i), pad);
    }
  }

  /** A set that every term subtracts stays such a set. */
  lemma {:induction false} CompactedTermsCommon(ts: seq<Term>, i: nat, D: iset<Mask>, pad: Mask)
    requires AreTerms(ts, pad) && AllAligned(ts) && CommonDiff(ts, D, |pad|)
    ensures CommonDiff(CompactedTerms(ts, i), D, |pad|)
    decreases |ts|, |ts| - i
  {
    hide In, InAny, TermHas, IsHeader, Has, IsMask, DiffOf, InSome, Aligned, CompactedTerm, CommonDiff;
    if i < |ts| {
      assert IsTerm(ts[i], pad) && Aligned(ts[i]);
      CompactedTermRemains(ts[i], pad);
      match CompactedTerm(ts[i])
      case None =>
        CommonSubset(ts, ElemFree(ts, i), D, |pad|);
        CompactedTermsCommon(ElemFree(ts, i), i, D, pad);
      case Some(r) =>
        CommonUpdate(ts, i, r, D, pad);
        CompactedTermsCommon(ts[i := r], i + 1, D, pad);
    }
  }

  /** First loop of hs_compact: every term is compacted; no header is lost or gained. */
  method CompactTerms(ts: seq<Term>, ghost pad: Mask) returns (v: seq<Term>)
    requires AreTerms(ts, pad)
    ensures AllAligned(ts) && v == CompactedTerms(ts, 0) && Tidied(ts, v, pad)
  {
    hide In, InAny, TermHas, IsHeader, Has, IsMask, DiffOf, InSome, Aligned, CompactedTerm;
    TermsAreAligned(ts, pad);
    CompactedTermsTidied(ts, 0, pad);
    v := ts;
    var i := 0;
    while i < |v|
      invariant i <= |v| && AreTerms(v, pad) && AllAligned(v) && CompactedTerms(ts, 0) == CompactedTerms(v, i)
      decreases |v|, |v| - i
    {
      assert IsTerm(v[i], pad);
      var r := CompactTerm(v[i], pad);
      if r.None? {
        v := ElemFree(v, i);
      } else {
        v := v[i := r.value];
        i := i + 1;
      }
    }
  }

  lemma DiffsFromSelf(ts: seq<Term>)
    ensures DiffsFrom(ts, ts)
  {}

  // --- the second loop ---

  /** The mask of t lies strictly inside that of another term. */
  predicate Inner(t: Term, ts: seq<Term>)
  {
    exists y :: y in ts && In(t.mask, y.mask) && !In(y.mask, t.mask)
  }

  /** h lies in a term whose mask is maximal. */
  ghost predicate InMaximal(h: Mask, ts: seq<Term>)
  {
    exists t :: t in ts && !Inner(t, ts) && TermHas(h, t)
  }

  /** No two terms have the same mask. */
  predicate MasksDiffer(ts: seq<Term>)
  {
    forall i, j | 0 <= i < |ts| && 0 <= j < |ts| && In(ts[i].mask, ts[j].mask) && In(ts[j].mask, ts[i].mask) :: ts[i] == ts[j]
  }

  lemma CompactedAt<T>(v: seq<T>, mask: T -> Mask, i: nat, j: nat)
    requires Compacted(v, mask) && i < |v| && j < |v|
    ensures i != j ==> Apart(mask(v[i]), mask(v[j]))
  {
    hide Apart;
  }

  /** What vec_compact leaves has a maximal mask. */
  lemma LeftIsMaximal(u: seq<Term>, v: seq<Term>, t: Term)
    requires CoveredBy(u, v, (t: Term) => t.mask) && Compacted(v, (t: Term) => t.mask) && t in v
    ensures !Inner(t, u)
  {
    hide In, Compacted;
    var key := (t: Term) => t.mask;
    if y :| y in u && In(t.mask, y.mask) && !In(y.mask, t.mask) {
      assert Covered(y, v, key);
      var z :| z in v && In(y.mask, z.mask);
      var i :| 0 <= i < |v| && v[i] == t;
      var j :| 0 <= j < |v| && v[j] == z;
      InTrans(t.mask, y.mask, z.mask);
      CompactedAt(v, key, i, j);
    }
  }

  /** A term with a maximal mask that no other term has is left. */
  lemma MaximalIsLeft(u: seq<Term>, v: seq<Term>, t: Term)
    requires CoveredBy(u, v, (t: Term) => t.mask) && (forall x | x in v :: x in u) && MasksDiffer(u)
    requires t in u && !Inner(t, u)
    ensures t in v
  {
    hide In;
    assert Covered(t, v, (t: Term) => t.mask);
    var y :| y in v && In(t.mask, y.mask);
    assert y in u;
    var i :| 0 <= i < |u| && u[i] == t;
    var j :| 0 <= j < |u| && u[j] == y;
    assert In(u[j].mask, u[i].mask);
  }

  /** hs_compact loses no header. */
  ghost predicate Lossless(ts: seq<Term>, n: nat)
    requires AllAligned(ts)
  {
    forall h | IsHeader(h, n) :: Has(h, CompactedList(ts)) <==> Has(h, ts)
  }

  /** Every header of a term inside another one lies in a term with a maximal mask. */
  ghost predicate InnersServed(u: seq<Term>, n: nat)
  {
    forall h, t | IsHeader(h, n) && t in u && Inner(t, u) && TermHas(h, t) :: InMaximal(h, u)
  }

  /** Exactly when hs_compact loses no header: in the list after its first loop, every
      header of an inner term must lie in a term with a maximal mask. That is necessary in
      any case, and sufficient when no two masks of the list are equal. */
  lemma CompactLossless(ts: seq<Term>, pad: Mask)
    requires AreTerms(ts, pad) && AllAligned(ts)
    ensures Lossless(ts, |pad|) ==> InnersServed(CompactedTerms(ts, 0), |pad|)
    ensures MasksDiffer(CompactedTerms(ts, 0)) ==> (Lossless(ts, |pad|) <==> InnersServed(CompactedTerms(ts, 0), |pad|))
  {
    hide In, TermHas, IsHeader, Inner, MasksDiffer, CoveredBy, Compacted, AreTerms, CompactedTerms, DiffsFrom, MasksInside;
    var u, v := CompactedTerms(ts, 0), CompactedList(ts);
    CompactedTermsTidied(ts, 0, pad);
    VecCompactedFacts(u, (t: Term) => t.mask, 0, 1);
    forall h | IsHeader(h, |pad|)
      ensures Has(h, v) ==> InMaximal(h, u)
      ensures Has(h, v) ==> Has(h, u)
      ensures MasksDiffer(u) && InMaximal(h, u) ==> Has(h, v)
    {
      if i :| 0 <= i < |v| && TermHas(h, v[i]) {
        LeftIsMaximal(u, v, v[i]);
        assert v[i] in v && v[i] in u;
      }
      if MasksDiffer(u) && InMaximal(h, u) {
        var t :| t in u && !Inner(t, u) && TermHas(h, t);
        MaximalIsLeft(u, v, t);
      }
    }
    forall h, t | IsHeader(h, |pad|) && t in u && TermHas(h, t) ensures Has(h, ts) {
      assert Has(h, u);
    }
    forall h | IsHeader(h, |pad|) && Has(h, u) ensures exists t :: t in u && TermHas(h, t) {}
  }

  lemma CompactedListFacts(ts: seq<Term>, D: iset<Mask>, pad: Mask)
    requires AreTerms(ts, pad) && AllAligned(ts)
    ensures var v := CompactedList(ts);
      && AreTerms(v, pad) && |v| <= |ts| && DiffsFrom(v, ts) && MasksInside(v, ts) && Compacted(v, (t: Term) => t.mask)
      && (forall h | IsHeader(h, |pad|) :: Has(h, v) ==> Has(h, ts))
      && (v == [] ==> forall h | IsHeader(h, |pad|) :: !Has(h, ts))
      && (CommonDiff(ts, D, |pad|) ==> CommonDiff(v, D, |pad|) && forall h | IsHeader(h, |pad|) :: Has(h, v) <==> Has(h, ts))
  {
    hide In, InAny, TermHas, IsHeader, IsMask, CommonDiff, DiffOf, CoveredBy, Compacted, InSome, CompactedTerms;
    var u, v := CompactedTerms(ts, 0), CompactedList(ts);
    CompactedTermsTidied(ts, 0, pad);
    VecCompactedFacts(u, (t: Term) => t.mask, 0, 1);
    forall k | 0 <= k < |v| ensures v[k] in u {}
    DiffsFromSubset(u, ts, v);
    MasksInsideSubset(u, ts, v);
    forall h | IsHeader(h, |pad|) ensures Has(h, v) ==> Has(h, u) { HasSubset(h, v, u); }
    if u != [] { SomethingIsLeft(u, v); }
    if CommonDiff(ts, D, |pad|) {
      CompactedTermsCommon(ts, 0, D, pad);
      CommonSubset(u, v, D, |pad|);
      forall h | IsHeader(h, |pad|) ensures Has(h, u) ==> Has(h, v) { CoveredKeepsHeaders(h, u, v, D, pad); }
    }
  }

  lemma SomethingIsLeft(u: seq<Term>, v: seq<Term>)
    requires CoveredBy(u, v, (t: Term) => t.mask) && u != []
    ensures v != []
  {
    assert Covered(u[0], v, (t: Term) => t.mask);
  }

  /** hs_compact. It never adds a header, and loses none when all terms subtract a
      common set: the last step drops covered masks without looking at their diffs. */
  method Compact(ts: seq<Term>, ghost D: iset<Mask>, ghost pad: Mask) returns (v: seq<Term>)
    requires AreTerms(ts, pad)
    ensures AllAligned(ts) && v == CompactedList(ts)
    ensures AreTerms(v, pad) && |v| <= |ts| && DiffsFrom(v, ts) && MasksInside(v, ts)
    ensures forall h | IsHeader(h, |pad|) :: Has(h, v) ==> Has(h, ts)
    ensures CommonDiff(ts, D, |pad|) ==> forall h | IsHeader(h, |pad|) :: Has(h, v) <==> Has(h, ts)
    ensures CommonDiff(ts, D, |pad|) ==> CommonDiff(v, D, |pad|)
    ensures Compacted(v, (t: Term) => t.mask)
  {
    hide In, InAny, TermHas, IsHeader, IsMask, CommonDiff, DiffOf, CoveredBy, Compacted, InSome, CompactedTerms;
    var u := CompactTerms(ts, pad);
    v := VecCompact(u, (t: Term) => t.mask, pad);
    CompactedListFacts(ts, D, pad);
  }

  lemma HasSubset(h: Mask, v: seq<Term>, u: seq<Term>)
    requires forall k | 0 <= k < |v| :: v[k] in u
    ensures Has(h, v) ==> Has(h, u)
  {
    hide TermHas;
  }

  // --- a list that loses headers ---

  /** All headers but those that start with 11, and the headers that start with 11. */
  const NESTED: seq<Term> := [Term([0xffffffffffffffff], [[0xfffffffffffffffa]]), Term([0xfffffffffffffffa], [])]

  lemma NestedWords()
    ensures IsMask([0xffffffffffffffff], [0]) && IsMask([0xfffffffffffffffa], [0]) && IsPad([0])
    ensures Extra(0xffffffffffffffff, 0xfffffffffffffffa) == 5 && Extra(0xfffffffffffffffa, 0xffffffffffffffff) == 0
    ensures !SingleBit(5) && Exact(0xaaaaaaaaaaaaaaaa) && Extra(0xaaaaaaaaaaaaaaaa, 0xfffffffffffffffa) == 0
  {}

  lemma NestedMisses()
    ensures Arrays.MissCount([0xfffffffffffffffa], [0xffffffffffffffff], 1) > 1
  {
    NestedWords();
    hide Extra, SingleBit, PopCount;
    PopCountZero(5);
    PopCountSingle(5);
    assert Arrays.MissCount([0xfffffffffffffffa], [0xffffffffffffffff], 0) == 0;
  }

  lemma NestedTermsStay()
    ensures AreTerms(NESTED, [0]) && AllAligned(NESTED) && CompactedTerms(NESTED, 0) == NESTED
  {
    NestedWords();
    NestedMisses();
    hide Extra, SingleBit, PopCount, Exact, Arrays.MissCount, HasZ, Swap, VecCompacted, Absorbed;
    var whole, inner := NESTED[0].mask, NESTED[1].mask;
    CompactedStays(NESTED[0].diffs, m => m, 0, 1);
    AbsorbedStays(whole, [inner], 0);
    CompactedStays(NESTED[1].diffs, m => m, 0, 1);
    AbsorbedStays(inner, [], 0);
    assert CompactedTerm(NESTED[0]) == Some(NESTED[0]) && CompactedTerm(NESTED[1]) == Some(NESTED[1]);
    assert NESTED[0 := NESTED[0]] == NESTED && NESTED[1 := NESTED[1]] == NESTED;
    assert CompactedTerms(NESTED, 2) == NESTED && CompactedTerms(NESTED, 1) == NESTED;
  }

  lemma NestedIsDropped()
    ensures VecCompacted(NESTED, (t: Term) => t.mask, 0, 1) == [NESTED[0]]
  {
    NestedWords();
    hide Extra;
    assert In(NESTED[1].mask, NESTED[0].mask) && ElemFree(NESTED, 1) == [NESTED[0]];
    CompactedStays([NESTED[0]], (t: Term) => t.mask, 0, 1);
  }

  /** The whole space drops the headers inside it, though it subtracts them itself. */
  lemma NestedIsLost()
    ensures AreTerms(NESTED, [0]) && AllAligned(NESTED) && CompactedList(NESTED) == [NESTED[0]]
    ensures var h := [0xaaaaaaaaaaaaaaaa]; IsHeader(h, 1) && Has(h, NESTED) && !Has(h, CompactedList(NESTED))
  {
    NestedTermsStay();
    NestedIsDropped();
    NestedWords();
    hide Extra, Exact, AreTerms, AllAligned, CompactedTerms, VecCompacted;
    var h, inner: Mask := [0xaaaaaaaaaaaaaaaa], NESTED[1].mask;
    assert In(h, inner) && InAny(h, [inner]) by { assert In(h, [inner][0]); }
    assert !InAny(h, []);
    assert TermHas(h, NESTED[1]);
  }
}
