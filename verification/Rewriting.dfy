/** hs_rewrite of src/header_space/hs.c: rewriting the elements of a header space.

    A diff survives when it has as many x's at the set positions as its element;
    the others are dropped, because removing them could remove too much. */
module Rewriting {
  import opened Words
  import opened RewriteWords
  import opened Masks
  import opened HeaderLists
  import opened HeaderChangers
  import opened Intersection
  import Arrays

  function XAll(a: Mask, mask: Mask): nat
    requires |a| == |mask|
  {
    XCount(a, mask, |a|)
  }

  /** Diff d of element e passes the x-count test. */
  predicate Survives(d: Mask, e: Mask, mask: Mask)
  {
    |d| == |e| == |mask| && XAll(d, mask) == XAll(e, mask)
  }

  /** h lies in the rewrite of a surviving diff. */
  predicate InSurvivor(h: Mask, ds: seq<Mask>, e: Mask, mask: Mask, rewrite: Mask)
    requires |mask| == |rewrite|
  {
    exists k | 0 <= k < |ds| :: Survives(ds[k], e, mask) && In(h, RewriteMask(ds[k], mask, rewrite))
  }

  lemma InSurvivorStep(h: Mask, ds: seq<Mask>, d: Mask, e: Mask, mask: Mask, rewrite: Mask)
    requires |mask| == |rewrite|
    ensures InSurvivor(h, ds + [d], e, mask, rewrite)
       <==> (InSurvivor(h, ds, e, mask, rewrite) ||
             (Survives(d, e, mask) && In(h, RewriteMask(d, mask, rewrite))))
  {
    hide XAll, In, RewriteMask;
    var us := ds + [d];
    if k :| 0 <= k < |us| && Survives(us[k], e, mask) && In(h, RewriteMask(us[k], mask, rewrite)) {
      if k < |ds| { assert us[k] == ds[k]; }
    }
    if k :| 0 <= k < |ds| && Survives(ds[k], e, mask) && In(h, RewriteMask(ds[k], mask, rewrite)) {
      assert us[k] == ds[k];
    }
    if Survives(d, e, mask) && In(h, RewriteMask(d, mask, rewrite)) { assert us[|ds|] == d; }
  }

  lemma InSurvivorPerm(h: Mask, us: seq<Mask>, vs: seq<Mask>, e: Mask, mask: Mask, rewrite: Mask)
    requires |mask| == |rewrite| && forall d | d in us :: d in vs
    ensures InSurvivor(h, us, e, mask, rewrite) ==> InSurvivor(h, vs, e, mask, rewrite)
  {
    hide XAll, In, RewriteMask;
    if k :| 0 <= k < |us| && Survives(us[k], e, mask) && In(h, RewriteMask(us[k], mask, rewrite)) {
      assert us[k] in vs;
    }
  }

  /** The inner loop of hs_rewrite: ds is rewritten in place; a diff that fails the
      count is replaced by the last one, which is looked at next. */
  method RewriteDiffs(ds0: seq<Mask>, e: Mask, mask: Mask, rewrite: Mask, ghost pad: Mask)
    returns (ds: seq<Mask>)
    requires AreMasks(ds0, pad) && IsMask(e, pad) && FitMasks(mask, rewrite, pad)
    ensures AreMasks(ds, pad)
    ensures forall h :: InAny(h, ds) <==> InSurvivor(h, ds0, e, mask, rewrite)
  {
    hide In, IsMask, FitMasks, RewriteMask, XCount, InSurvivor, InAny;
    LengthsOf(ds0, e, mask, rewrite, pad);
    var n := XAll(e, mask);
    ds := ds0;
    var j := 0;
    ghost var done: seq<Mask> := [];
    NothingYet(ds0, e, mask, rewrite);
    while j < |ds|
      invariant j <= |ds| && AreMasks(ds, pad)
      invariant forall k | j <= k < |ds| :: ds[k] in ds0
      invariant forall d | d in done :: d in ds0
      invariant forall d | d in ds0 :: d in done || d in ds[j..]
      invariant forall h :: InAny(h, ds[..j]) <==> InSurvivor(h, done, e, mask, rewrite)
      decreases |ds| - j
    {
      ghost var d := ds[j];
      LengthsOf([d], e, mask, rewrite, pad);
      assert |[d][0]| == |pad|;
      ghost var rest := ds[j..];
      var count := XAll(ds[j], mask);
      var m := RewriteMask(ds[j], mask, rewrite);
      RewriteIsMask(ds[j], mask, rewrite, pad);
      forall h
        ensures InSurvivor(h, done + [d], e, mask, rewrite) <==>
                InSurvivor(h, done, e, mask, rewrite) || (Survives(d, e, mask) && In(h, m))
        ensures InAny(h, ds[..j] + [m]) <==> InAny(h, ds[..j]) || In(h, m)
      {
        InSurvivorStep(h, done, d, e, mask, rewrite);
        Arrays.InAnyAppend(h, ds[..j], m);
      }
      ghost var ds1 := ds;
      if n == count {
        ds := ds[j := m];
        j := j + 1;
        assert ds[..j] == ds1[..j - 1] + [m];
        assert forall x | x in ds1[j - 1..] :: x == d || x in ds[j..];
      } else {
        ds := ElemFree(ds, j);
        assert ds[..j] == ds1[..j];
        assert forall x | x in ds1[j..] :: x == d || x in ds[j..] by { FreeKeepsRest(ds1, j); }
      }
      done := done + [d];
    }
    assert ds[..j] == ds && ds[j..] == [];
    forall h ensures InSurvivor(h, done, e, mask, rewrite) <==> InSurvivor(h, ds0, e, mask, rewrite) {
      InSurvivorPerm(h, done, ds0, e, mask, rewrite);
      InSurvivorPerm(h, ds0, done, e, mask, rewrite);
    }
  }

  lemma FreeKeepsRest(v: seq<Mask>, j: nat)
    requires j < |v|
    ensures forall x | x in v[j..] :: x == v[j] || x in ElemFree(v, j)[j..]
  {
    var r := ElemFree(v, j);
    forall x | x in v[j..] ensures x == v[j] || x in r[j..] {
      var k :| j <= k < |v| && v[k] == x;
      if k == |v| - 1 {
        if j < |r| { assert r[j..][0] == x; }
      } else if k != j {
        assert r[j..][k - j] == x;
      }
    }
  }

  lemma NothingYet(ds: seq<Mask>, e: Mask, mask: Mask, rewrite: Mask)
    requires |mask| == |rewrite|
    ensures forall h :: !InAny(h, ds[..0]) && !InSurvivor(h, [], e, mask, rewrite)
  {}

  lemma RewriteIsMask(d: Mask, mask: Mask, rewrite: Mask, pad: Mask)
    requires IsMask(d, pad) && FitMasks(mask, rewrite, pad)
    ensures |mask| == |rewrite| == |d|
    ensures IsMask(RewriteMask(d, mask, rewrite), pad)
  {
    RewriteIsBlend(d, mask, rewrite, pad);
  }

  lemma LengthsOf(ds: seq<Mask>, e: Mask, mask: Mask, rewrite: Mask, pad: Mask)
    requires AreMasks(ds, pad) && IsMask(e, pad) && FitMasks(mask, rewrite, pad)
    ensures |mask| == |rewrite| == |pad| == |e|
    ensures forall k | 0 <= k < |ds| :: |ds[k]| == |pad|
  {}

  /** r is t rewritten: its mask, and those of its diffs that survive. */
  predicate Rewritten(r: Term, t: Term, mask: Mask, rewrite: Mask, pad: Mask)
  {
    && IsTerm(r, pad) && IsTerm(t, pad) && FitMasks(mask, rewrite, pad)
    && r.mask == RewriteMask(t.mask, mask, rewrite)
  }

  ghost predicate RewrittenDiffs(r: Term, t: Term, mask: Mask, rewrite: Mask)
    requires |mask| == |rewrite|
  {
    forall h :: InAny(h, r.diffs) <==> InSurvivor(h, t.diffs, t.mask, mask, rewrite)
  }

  /** hs_rewrite. */
  method RewriteTerms(ts: seq<Term>, mask: Mask, rewrite: Mask, ghost pad: Mask) returns (r: seq<Term>)
    requires AreTerms(ts, pad) && FitMasks(mask, rewrite, pad)
    ensures AreTerms(r, pad) && |r| == |ts|
    ensures forall i | 0 <= i < |ts| ::
              Rewritten(r[i], ts[i], mask, rewrite, pad) && RewrittenDiffs(r[i], ts[i], mask, rewrite)
  {
    hide RewrittenDiffs, RewriteMask, Fits, HasZ, Extra;
    r := ts;
    for i := 0 to |ts|
      invariant AreTerms(r, pad) && |r| == |ts|
      invariant forall k | i <= k < |ts| :: r[k] == ts[k]
      invariant forall k | 0 <= k < i ::
                  Rewritten(r[k], ts[k], mask, rewrite, pad) && RewrittenDiffs(r[k], ts[k], mask, rewrite)
    {
      RewriteIsMask(ts[i].mask, mask, rewrite, pad);
      var ds := RewriteDiffs(ts[i].diffs, ts[i].mask, mask, rewrite, pad);
      r := r[i := Term(RewriteMask(ts[i].mask, mask, rewrite), ds)];
      MakeRewrittenDiffs(r[i], ts[i], mask, rewrite);
    }
  }

  lemma MakeRewrittenDiffs(r: Term, t: Term, mask: Mask, rewrite: Mask)
    requires |mask| == |rewrite|
    requires forall h :: InAny(h, r.diffs) <==> InSurvivor(h, t.diffs, t.mask, mask, rewrite)
    ensures RewrittenDiffs(r, t, mask, rewrite)
  {}

  // --- counting x positions ---

  lemma {:induction false} XCountCovered(d: Mask, e: Mask, mask: Mask, k: nat)
    requires |d| == |e| == |mask| && In(d, e) && k <= |d|
    ensures XCount(d, mask, k) <= XCount(e, mask, k)
    ensures XCount(d, mask, k) == XCount(e, mask, k) ==>
              forall i | 0 <= i < k :: XCounted(d[i], mask[i]) == XCounted(e[i], mask[i])
  {
    hide XCounted, PopCount, Extra;
    if k > 0 {
      XCountCovered(d, e, mask, k - 1);
      XCountedMono(d[k - 1], e[k - 1], mask[k - 1]);
      PopCountMono(XCounted(d[k - 1], mask[k - 1]), XCounted(e[k - 1], mask[k - 1]));
    }
  }

  lemma {:induction false} XCountSame(d: Mask, e: Mask, mask: Mask, k: nat)
    requires |d| == |e| == |mask| && k <= |d|
    requires forall i | 0 <= i < k :: XCounted(d[i], mask[i]) == XCounted(e[i], mask[i])
    ensures XCount(d, mask, k) == XCount(e, mask, k)
  {
    if k > 0 { XCountSame(d, e, mask, k - 1); }
  }

  /** A diff inside its element survives exactly when it covers the element's values
      at every set position. */
  lemma SurvivesIff(d: Mask, e: Mask, mask: Mask, rewrite: Mask, pad: Mask)
    requires IsMask(d, pad) && IsMask(e, pad) && FitMasks(mask, rewrite, pad) && In(d, e)
    ensures Survives(d, e, mask) <==>
              forall i | 0 <= i < |pad| :: Extra(And(e[i], Not(Keep(mask[i]))), d[i]) == 0
  {
    hide Extra, HasZ, Keep, Fits, Swap, XCounted, And, Not, XCount;
    forall i | 0 <= i < |pad|
      ensures XCounted(d[i], mask[i]) == XCounted(e[i], mask[i]) <==>
              Extra(And(e[i], Not(Keep(mask[i]))), d[i]) == 0
    {
      FitsGives(mask[i], rewrite[i], pad[i]);
      KeepSymmetric(mask[i]);
      if XCounted(d[i], mask[i]) == XCounted(e[i], mask[i]) {
        SameCounted(d[i], e[i], mask[i], Keep(mask[i]));
      }
      if Extra(And(e[i], Not(Keep(mask[i]))), d[i]) == 0 {
        SetCoverCounts(d[i], e[i], mask[i], pad[i], Keep(mask[i]));
        XCountedMono(d[i], e[i], mask[i]);
        ExtraAntisym(XCounted(d[i], mask[i]), XCounted(e[i], mask[i]));
      }
    }
    XCountCovered(d, e, mask, |pad|);
    if forall i | 0 <= i < |pad| :: XCounted(d[i], mask[i]) == XCounted(e[i], mask[i]) {
      XCountSame(d, e, mask, |pad|);
    }
  }

  /** For a surviving diff, rewriting keeps membership for all headers of the element. */
  lemma SurvivorDecides(x: Mask, d: Mask, e: Mask, mask: Mask, rewrite: Mask, pad: Mask)
    requires IsMask(d, pad) && IsMask(e, pad) && FitMasks(mask, rewrite, pad) && In(d, e)
    requires Survives(d, e, mask) && |x| == |pad| && In(x, e)
    ensures In(BlendMask(x, mask, rewrite), RewriteMask(d, mask, rewrite)) <==> In(x, d)
  {
    hide Extra, HasZ, Keep, Fits, Swap, Blend, And, Not, RewriteWord, XCount;
    SurvivesIff(d, e, mask, rewrite, pad);
    RewriteIsBlend(d, mask, rewrite, pad);
    forall i | 0 <= i < |pad|
      ensures Extra(Blend(x[i], rewrite[i], Keep(mask[i])), Blend(d[i], rewrite[i], Keep(mask[i]))) == 0
         <==> Extra(x[i], d[i]) == 0
    {
      KeptDecides(x[i], d[i], e[i], Keep(mask[i]));
      BlendCovers(x[i], d[i], rewrite[i], Keep(mask[i]));
    }
    var u, v := BlendMask(x, mask, rewrite), BlendMask(d, mask, rewrite);
    if In(u, v) {
      forall i | 0 <= i < |pad| ensures Extra(x[i], d[i]) == 0 { assert Extra(u[i], v[i]) == 0; }
    }
  }

  lemma BlendIn(x: Mask, e: Mask, mask: Mask, rewrite: Mask, pad: Mask)
    requires |x| == |pad| && IsMask(e, pad) && FitMasks(mask, rewrite, pad) && In(x, e)
    ensures In(BlendMask(x, mask, rewrite), RewriteMask(e, mask, rewrite))
  {
    hide Extra, HasZ, Keep, Fits, Swap, Blend, And, Not, RewriteWord;
    RewriteIsBlend(e, mask, rewrite, pad);
    forall i | 0 <= i < |pad|
      ensures Extra(Blend(x[i], rewrite[i], Keep(mask[i])), Blend(e[i], rewrite[i], Keep(mask[i]))) == 0
    {
      KeptInside(x[i], e[i], Keep(mask[i]));
      BlendCovers(x[i], e[i], rewrite[i], Keep(mask[i]));
    }
  }

  // --- the image ---

  /** Rewriting keeps every header: its rewritten form is in the result. */
  lemma ImageKept(x: Mask, r: Term, t: Term, c: Changer, pad: Mask)
    requires IsChanger(c, pad) && IsHeader(x, |pad|) && DiffsInside([t])
    requires Rewritten(r, t, c.mask, c.rewrite, pad) && RewrittenDiffs(r, t, c.mask, c.rewrite)
    requires TermHas(x, t)
    ensures TermHas(ApplyHeader(x, c), r)
  {
    hide In, RewriteMask, BlendMask, XCount, Fits, HasZ, Extra, ExactWhenSet, Keep, Exact;
    var y := ApplyHeader(x, c);
    BlendIn(x, t.mask, c.mask, c.rewrite, pad);
    if InSurvivor(y, t.diffs, t.mask, c.mask, c.rewrite) {
      var k :| 0 <= k < |t.diffs| && Survives(t.diffs[k], t.mask, c.mask) &&
        In(y, RewriteMask(t.diffs[k], c.mask, c.rewrite));
      assert t.diffs[k] in [t][0].diffs;
      SurvivorDecides(x, t.diffs[k], t.mask, c.mask, c.rewrite, pad);
      assert false;
    }
  }

  /** A header in the rewrite of e comes from a header of e, with any values of e
      at the set positions. */
  lemma FiberBack(y: Mask, e: Mask, q: Mask, c: Changer, pad: Mask)
    requires IsChanger(c, pad) && IsMask(e, pad) && IsHeader(y, |pad|) && IsHeader(q, |pad|)
    requires In(y, RewriteMask(e, c.mask, c.rewrite)) && In(q, e)
    ensures var x := BlendMask(y, c.mask, q);
      IsHeader(x, |pad|) && In(x, e) && ApplyHeader(x, c) == y
  {
    hide Extra, HasZ, Keep, Fits, Swap, Blend, And, Not, RewriteWord, Exact, ExactWhenSet;
    RewriteIsBlend(e, c.mask, c.rewrite, pad);
    forall i | 0 <= i < |pad|
      ensures var k := Keep(c.mask[i]);
        Exact(Blend(y[i], q[i], k)) && Extra(Blend(y[i], q[i], k), e[i]) == 0 &&
        Blend(Blend(y[i], q[i], k), c.rewrite[i], k) == y[i]
    {
      KeepSymmetric(c.mask[i]);
      BlendBack(y[i], e[i], c.rewrite[i], Keep(c.mask[i]), q[i]);
    }
  }

  /** The same on one word. */
  lemma AvoidWord(d: Word, e: Word, k: Word) returns (q: Word)
    requires !HasZ(e) && Extra(And(e, Not(k)), d) != 0
    ensures Exact(q) && Extra(q, e) == 0
    ensures forall y :: Extra(Blend(y, q, k), d) != 0
  {
    hide *;
    var l := Lowest(Extra(And(e, Not(k)), d));
    MissingBit(d, e, k);
    PickWithExact(e, l);
    PickWithExtra(e, l);
    q := PickWith(e, l);
    forall y ensures Extra(Blend(y, q, k), d) != 0 {
      BlendHasBit(y, q, k, l);
      if Extra(Blend(y, q, k), d) == 0 { ExtraTrans(l, d, Blend(y, q, k)); }
    }
  }

  lemma FindDropped(d: Mask, e: Mask, c: Changer, pad: Mask) returns (i: nat)
    requires IsChanger(c, pad) && IsMask(d, pad) && IsMask(e, pad) && In(d, e)
    requires !Survives(d, e, c.mask)
    ensures i < |pad| && Extra(And(e[i], Not(Keep(c.mask[i]))), d[i]) != 0
  {
    hide Extra, HasZ, Keep, Fits, Swap, And, Not, ExactWhenSet, XCount;
    SurvivesIff(d, e, c.mask, c.rewrite, pad);
    i :| 0 <= i < |pad| && Extra(And(e[i], Not(Keep(c.mask[i]))), d[i]) != 0;
  }

  /** A dropped diff leaves values of e free: some choice of them avoids it. */
  lemma AvoidDropped(d: Mask, e: Mask, c: Changer, pad: Mask) returns (q: Mask)
    requires IsChanger(c, pad) && IsMask(d, pad) && IsMask(e, pad) && In(d, e)
    requires !Survives(d, e, c.mask)
    ensures IsHeader(q, |pad|) && In(q, e)
    ensures forall y | |y| == |pad| :: !In(BlendMask(y, c.mask, q), d)
  {
    hide Extra, HasZ, Keep, Fits, Blend, And, Not, Exact, ExactWhenSet, Survives, PickHeader, IsHeader, In;
    var i := FindDropped(d, e, c, pad);
    var w := AvoidWord(d[i], e[i], Keep(c.mask[i]));
    PickHeaderIn(e);
    HeaderLength(PickHeader(e), |e|);
    UpdateHeader(PickHeader(e), e, i, w);
    q := PickHeader(e)[i := w];
    forall y | |y| == |pad| ensures !In(BlendMask(y, c.mask, q), d) {
      NotInAt(BlendMask(y, c.mask, q), d, i);
    }
  }

  lemma HeaderLength(h: Mask, n: nat)
    requires IsHeader(h, n)
    ensures |h| == n
  {}

  lemma UpdateHeader(h: Mask, e: Mask, i: nat, w: Word)
    requires IsHeader(h, |e|) && In(h, e) && i < |e| && Exact(w) && Extra(w, e[i]) == 0
    ensures |h| == |e| && IsHeader(h[i := w], |e|) && In(h[i := w], e)
  {}

  lemma NotInAt(x: Mask, d: Mask, i: nat)
    requires |x| == |d| && i < |d| && Extra(x[i], d[i]) != 0
    ensures !In(x, d)
  {}

  /** At most one of the diffs fails the x-count test. */
  predicate OneDropped(t: Term, mask: Mask)
  {
    forall i, j | 0 <= i < |t.diffs| && 0 <= j < |t.diffs|
               && !Survives(t.diffs[i], t.mask, mask) && !Survives(t.diffs[j], t.mask, mask) ::
      t.diffs[i] == t.diffs[j]
  }

  /** When at most one diff is dropped, every header of the result is the rewritten
      form of a header of the term. */
  lemma ImageExact(y: Mask, r: Term, t: Term, c: Changer, pad: Mask) returns (x: Mask)
    requires IsChanger(c, pad) && IsHeader(y, |pad|) && DiffsInside([t]) && OneDropped(t, c.mask)
    requires Rewritten(r, t, c.mask, c.rewrite, pad) && RewrittenDiffs(r, t, c.mask, c.rewrite)
    requires TermHas(y, r)
    ensures IsHeader(x, |pad|) && TermHas(x, t) && ApplyHeader(x, c) == y
  {
    hide In, RewriteMask, BlendMask, XCount, Fits, HasZ, Extra, ExactWhenSet, Keep, Exact;
    var q := PickHeader(t.mask);
    PickHeaderIn(t.mask);
    if i :| 0 <= i < |t.diffs| && !Survives(t.diffs[i], t.mask, c.mask) {
      assert t.diffs[i] in [t][0].diffs;
      q := AvoidDropped(t.diffs[i], t.mask, c, pad);
    }
    FiberBack(y, t.mask, q, c, pad);
    x := BlendMask(y, c.mask, q);
    forall k | 0 <= k < |t.diffs| ensures !In(x, t.diffs[k]) {
      assert t.diffs[k] in [t][0].diffs;
      if Survives(t.diffs[k], t.mask, c.mask) {
        SurvivorDecides(x, t.diffs[k], t.mask, c.mask, c.rewrite, pad);
      }
    }
  }

  /** x lies in the mask of t and in no diff that survives. */
  predicate KeptBySurvivors(x: Mask, t: Term, mask: Mask)
  {
    In(x, t.mask) && forall k | 0 <= k < |t.diffs| && Survives(t.diffs[k], t.mask, mask) :: !In(x, t.diffs[k])
  }

  /** In every case the result is exactly the image of the term without its dropped diffs. */
  lemma ImageOfSurvivors(y: Mask, r: Term, t: Term, c: Changer, pad: Mask)
    requires IsChanger(c, pad) && IsHeader(y, |pad|) && DiffsInside([t])
    requires Rewritten(r, t, c.mask, c.rewrite, pad) && RewrittenDiffs(r, t, c.mask, c.rewrite)
    ensures TermHas(y, r) <==>
            exists x :: IsHeader(x, |pad|) && KeptBySurvivors(x, t, c.mask) && ApplyHeader(x, c) == y
  {
    hide In, RewriteMask, BlendMask, XCount, Fits, HasZ, Extra, ExactWhenSet, Keep, Exact;
    assert forall k | 0 <= k < |t.diffs| :: t.diffs[k] in [t][0].diffs;
    if TermHas(y, r) {
      var q := PickHeader(t.mask);
      PickHeaderIn(t.mask);
      FiberBack(y, t.mask, q, c, pad);
      var x := BlendMask(y, c.mask, q);
      forall k | 0 <= k < |t.diffs| && Survives(t.diffs[k], t.mask, c.mask) ensures !In(x, t.diffs[k]) {
        SurvivorDecides(x, t.diffs[k], t.mask, c.mask, c.rewrite, pad);
      }
      assert KeptBySurvivors(x, t, c.mask);
    }
    if x :| IsHeader(x, |pad|) && KeptBySurvivors(x, t, c.mask) && ApplyHeader(x, c) == y {
      BlendIn(x, t.mask, c.mask, c.rewrite, pad);
      forall k | 0 <= k < |t.diffs| && Survives(t.diffs[k], t.mask, c.mask)
        ensures !In(y, RewriteMask(t.diffs[k], c.mask, c.rewrite))
      {
        SurvivorDecides(x, t.diffs[k], t.mask, c.mask, c.rewrite, pad);
      }
    }
  }

  /** All headers without those whose first bit is 0 and without those whose first bit is 1. */
  const NOTHING := Term([0xffffffffffffffff], [[0xfffffffffffffffd], [0xfffffffffffffffe]])
  /** Sets the first bit to 1. */
  const SET_FIRST := FromTransfer([0xfffffffffffffffe], [0])

  lemma TwoDroppedAreMasks()
    ensures IsPad([0]) && IsMask([0xfffffffffffffffe], [0]) && IsTerm(NOTHING, [0]) && DiffsInside([NOTHING])
    ensures Keep(SET_FIRST.mask[0]) == 0xfffffffffffffffc
    ensures Extra(And(NOTHING.mask[0], Not(Keep(SET_FIRST.mask[0]))), NOTHING.diffs[0][0]) != 0
    ensures Extra(And(NOTHING.mask[0], Not(Keep(SET_FIRST.mask[0]))), NOTHING.diffs[1][0]) != 0
  {}

  lemma FirstBitIsSome(h: Word)
    requires Exact(h)
    ensures Extra(h, 0xfffffffffffffffd) == 0 || Extra(h, 0xfffffffffffffffe) == 0
  {}

  /** Two dropped diffs: the term is empty and so is its image, but the result is not. */
  lemma TwoDroppedGain(r: Term)
    requires Rewritten(r, NOTHING, SET_FIRST.mask, SET_FIRST.rewrite, [0])
    requires RewrittenDiffs(r, NOTHING, SET_FIRST.mask, SET_FIRST.rewrite)
    ensures DiffsInside([NOTHING]) && forall h | IsHeader(h, 1) :: !TermHas(h, NOTHING)
    ensures exists y :: IsHeader(y, 1) && TermHas(y, r)
  {
    TwoDroppedAreMasks();
    hide RewriteMask, XCount, Fits, HasZ, Extra, ExactWhenSet, Keep, Exact, FromTransfer, And, Not, BlendMask;
    forall h | IsHeader(h, 1) ensures !TermHas(h, NOTHING) {
      FirstBitIsSome(h[0]);
      assert In(h, NOTHING.diffs[0]) || In(h, NOTHING.diffs[1]);
    }
    TransferIsChanger([0xfffffffffffffffe], [0]);
    forall k | 0 <= k < 2 ensures !Survives(NOTHING.diffs[k], NOTHING.mask, SET_FIRST.mask) {
      assert NOTHING.diffs[k] in [NOTHING][0].diffs;
      SurvivesIff(NOTHING.diffs[k], NOTHING.mask, SET_FIRST.mask, SET_FIRST.rewrite, [0]);
    }
    var x := PickHeader(NOTHING.mask);
    PickHeaderIn(NOTHING.mask);
    ApplyIsHeader(x, SET_FIRST, [0]);
    assert KeptBySurvivors(x, NOTHING, SET_FIRST.mask);
    ImageOfSurvivors(ApplyHeader(x, SET_FIRST), r, NOTHING, SET_FIRST, [0]);
  }

  // --- the preimage ---

  /** Every header of m has the changer's values at the set positions. */
  predicate InsideImage(m: Mask, c: Changer)
    requires |m| == |c.mask| == |c.rewrite|
  {
    forall i | 0 <= i < |m| :: Extra(And(m[i], Not(Keep(c.mask[i]))), c.rewrite[i]) == 0
  }

  /** Every mask of ts has at the set positions the values that c sets. */
  predicate InImage(ts: seq<Term>, c: Changer)
  {
    |c.mask| == |c.rewrite| && forall i | 0 <= i < |ts| :: |ts[i].mask| == |c.mask| && InsideImage(ts[i].mask, c)
  }

  lemma InImageShrinks(r: seq<Term>, ts: seq<Term>, c: Changer)
    requires MasksInside(r, ts) && InImage(ts, c)
    ensures InImage(r, c)
  {
    hide Extra, And, Not, Keep;
    forall i | 0 <= i < |r| ensures |r[i].mask| == |c.mask| && InsideImage(r[i].mask, c) {
      assert InSome(r[i].mask, ts);
      var k :| 0 <= k < |ts| && In(r[i].mask, ts[k].mask);
      forall j | 0 <= j < |c.mask| ensures Extra(And(r[i].mask[j], Not(Keep(c.mask[j]))), c.rewrite[j]) == 0 {
        ImageShrinks(r[i].mask[j], ts[k].mask[j], c.rewrite[j], Not(Keep(c.mask[j])));
      }
    }
  }

  lemma RewrittenInImage(r: seq<Term>, ts: seq<Term>, c: Changer, pad: Mask)
    requires IsChanger(c, pad) && AreTerms(ts, pad) && |r| == |ts|
    requires forall i | 0 <= i < |ts| :: Rewritten(r[i], ts[i], c.mask, c.rewrite, pad)
    ensures InImage(r, c)
  {
    hide Extra, And, Not, Keep, Fits, HasZ, Blend, ExactWhenSet;
    forall i | 0 <= i < |r| ensures |r[i].mask| == |c.mask| && InsideImage(r[i].mask, c) {
      RewriteIsBlend(ts[i].mask, c.mask, c.rewrite, pad);
      forall j | 0 <= j < |pad| ensures Extra(And(r[i].mask[j], Not(Keep(c.mask[j]))), c.rewrite[j]) == 0 {
        BlendInImage(ts[i].mask[j], c.rewrite[j], Keep(c.mask[j]));
      }
    }
  }

  lemma IdentityInImage(ts: seq<Term>, c: Changer, pad: Mask)
    requires IsChanger(c, pad) && c.identity && AreTerms(ts, pad)
    ensures InImage(ts, c)
  {
    hide Extra, And, Not, Keep, Fits, HasZ, ExactWhenSet;
    forall i, j | 0 <= i < |ts| && 0 <= j < |pad| ensures Extra(And(ts[i].mask[j], Not(Keep(c.mask[j]))), c.rewrite[j]) == 0 {
      NothingSet(ts[i].mask[j], c.rewrite[j]);
    }
  }

  /** Inside the image, applying the changer after its inverse changes nothing. */
  lemma InsideImageFixed(h: Mask, m: Mask, c: Changer, pad: Mask)
    requires IsChanger(c, pad) && |m| == |pad| && IsHeader(h, |pad|) && In(h, m) && InsideImage(m, c)
    ensures ApplyHeader(h, c) == h
  {
    hide Extra, HasZ, Keep, Fits, Swap, Blend, And, Not, Exact, ExactWhenSet;
    forall i | 0 <= i < |pad| ensures Blend(h[i], c.rewrite[i], Keep(c.mask[i])) == h[i] {
      var k := Keep(c.mask[i]);
      KeepSymmetric(c.mask[i]);
      SetPartMono(h[i], m[i], c.rewrite[i], k);
      SetPartInside(h[i], c.rewrite[i], k);
      BlendInside(h[i], c.rewrite[i], k);
      InsideBlend(h[i], c.rewrite[i], k);
      ExtraAntisym(Blend(h[i], c.rewrite[i], k), h[i]);
    }
  }

  lemma SetPartMono(h: Word, m: Word, r: Word, k: Word)
    requires Extra(h, m) == 0 && Extra(And(m, Not(k)), r) == 0
    ensures Extra(And(h, Not(k)), r) == 0
  {}

  /** Inside the image, the inverse rewrite of a mask is its exact preimage. */
  lemma PreimageOfMask(y: Mask, m: Mask, c: Changer, pad: Mask)
    requires IsChanger(c, pad) && IsMask(m, pad) && IsHeader(y, |pad|) && InsideImage(m, c)
    ensures In(y, RewriteMask(m, c.mask, c.inverse)) <==> In(ApplyHeader(y, c), m)
  {
    hide Extra, HasZ, Keep, Fits, Swap, Blend, And, Not, Exact, ExactWhenSet, RewriteWord;
    RewriteIsBlend(m, c.mask, c.inverse, pad);
    var u, v := BlendMask(m, c.mask, c.inverse), ApplyHeader(y, c);
    forall i | 0 <= i < |pad| ensures Extra(y[i], u[i]) == 0 <==> Extra(v[i], m[i]) == 0 {
      var k := Keep(c.mask[i]);
      KeepSymmetric(c.mask[i]);
      NoZSetPart(m[i], c.rewrite[i], k);
      InBlend(y[i], m[i], c.inverse[i], k);
      FreePart(y[i], c.inverse[i], k);
      BlendIntoMask(y[i], c.rewrite[i], k, m[i]);
    }
    if In(y, u) { forall i | 0 <= i < |pad| ensures Extra(v[i], m[i]) == 0 { assert Extra(y[i], u[i]) == 0; } }
  }

  lemma FreePart(y: Word, v: Word, k: Word)
    requires Extra(Not(k), v) == 0
    ensures Extra(And(y, Not(k)), v) == 0
  {}

  lemma BlendIntoMask(y: Word, r: Word, k: Word, m: Word)
    requires Extra(And(r, Not(k)), m) == 0
    ensures Extra(Blend(y, r, k), m) == 0 <==> Extra(And(y, k), m) == 0
  {
    hide *;
    if Extra(Blend(y, r, k), m) == 0 { BlendIntoMaskOut(y, r, k, m); }
    if Extra(And(y, k), m) == 0 { BlendIntoMaskIn(y, r, k, m); }
  }

  lemma BlendIntoMaskOut(y: Word, r: Word, k: Word, m: Word)
    requires Extra(Blend(y, r, k), m) == 0
    ensures Extra(And(y, k), m) == 0
  {}

  lemma BlendIntoMaskIn(y: Word, r: Word, k: Word, m: Word)
    requires Extra(And(r, Not(k)), m) == 0 && Extra(And(y, k), m) == 0
    ensures Extra(Blend(y, r, k), m) == 0
  {}

  /** Inside the image no diff is dropped. */
  lemma InsideImageSurvives(d: Mask, e: Mask, c: Changer, pad: Mask)
    requires IsChanger(c, pad) && IsMask(d, pad) && IsMask(e, pad) && In(d, e) && InsideImage(e, c)
    ensures Survives(d, e, c.mask) && InsideImage(d, c)
  {
    hide Extra, HasZ, Keep, Fits, Swap, And, Not, ExactWhenSet, XCount;
    forall i | 0 <= i < |pad|
      ensures Extra(And(e[i], Not(Keep(c.mask[i]))), d[i]) == 0
      ensures Extra(And(d[i], Not(Keep(c.mask[i]))), c.rewrite[i]) == 0
    {
      var k := Keep(c.mask[i]);
      KeepSymmetric(c.mask[i]);
      SetPartMono(d[i], e[i], c.rewrite[i], k);
      NoZSetPart(d[i], c.rewrite[i], k);
      SetPartThrough(e[i], c.rewrite[i], d[i], k);
    }
    SurvivesIff(d, e, c.mask, c.rewrite, pad);
  }

  lemma SetPartThrough(e: Word, r: Word, d: Word, k: Word)
    requires Extra(And(e, Not(k)), r) == 0 && Extra(And(r, Not(k)), d) == 0
    ensures Extra(And(e, Not(k)), d) == 0
  {}

  /** The inverse of a term inside the image is its exact preimage. */
  lemma PreimageExact(y: Mask, r: Term, t: Term, c: Changer, pad: Mask)
    requires IsChanger(c, pad) && IsHeader(y, |pad|) && DiffsInside([t])
    requires Rewritten(r, t, c.mask, c.inverse, pad) && RewrittenDiffs(r, t, c.mask, c.inverse)
    requires InsideImage(t.mask, c)
    ensures TermHas(y, r) <==> TermHas(ApplyHeader(y, c), t)
  {
    hide In, RewriteMask, BlendMask, XCount, Fits, HasZ, Extra, ExactWhenSet, Keep, Exact;
    PreimageOfMask(y, t.mask, c, pad);
    forall k | 0 <= k < |t.diffs|
      ensures Survives(t.diffs[k], t.mask, c.mask)
      ensures In(y, RewriteMask(t.diffs[k], c.mask, c.inverse)) <==> In(ApplyHeader(y, c), t.diffs[k])
    {
      assert t.diffs[k] in [t][0].diffs;
      InsideImageSurvives(t.diffs[k], t.mask, c, pad);
      PreimageOfMask(y, t.diffs[k], c, pad);
    }
  }

  // --- the preimage outside the image ---

  lemma BlendSetPart(y: Word, r: Word, k: Word, m: Word)
    requires Extra(Blend(y, r, k), m) == 0
    ensures Extra(And(r, Not(k)), m) == 0
  {}

  /** The inverse rewrite of a mask has every header that the changer maps into it. */
  lemma PreimageInMask(y: Mask, m: Mask, c: Changer, pad: Mask)
    requires IsChanger(c, pad) && IsMask(m, pad) && |y| == |pad| && In(ApplyHeader(y, c), m)
    ensures In(y, RewriteMask(m, c.mask, c.inverse))
  {
    hide Extra, HasZ, Keep, Fits, Swap, Blend, And, Not, ExactWhenSet, RewriteWord;
    RewriteIsBlend(m, c.mask, c.inverse, pad);
    forall i | 0 <= i < |pad| ensures Extra(y[i], Blend(m[i], c.inverse[i], Keep(c.mask[i]))) == 0 {
      var k := Keep(c.mask[i]);
      assert Extra(ApplyHeader(y, c)[i], m[i]) == 0;
      BlendIntoMaskOut(y[i], c.rewrite[i], k, m[i]);
      FreePart(y[i], c.inverse[i], k);
      InBlend(y[i], m[i], c.inverse[i], k);
    }
  }

  /** A diff that passes the x-count test takes nothing else from the preimage. */
  lemma SurvivorTakes(y: Mask, d: Mask, e: Mask, c: Changer, pad: Mask)
    requires IsChanger(c, pad) && IsMask(d, pad) && IsMask(e, pad) && In(d, e) && Survives(d, e, c.mask) && |y| == |pad|
    requires In(ApplyHeader(y, c), e) && In(y, RewriteMask(d, c.mask, c.inverse))
    ensures In(ApplyHeader(y, c), d)
  {
    hide Extra, HasZ, Keep, Fits, Swap, Blend, And, Not, ExactWhenSet, RewriteWord, XCount;
    SurvivesIff(d, e, c.mask, c.inverse, pad);
    RewriteIsBlend(d, c.mask, c.inverse, pad);
    forall i | 0 <= i < |pad| ensures Extra(ApplyHeader(y, c)[i], d[i]) == 0 {
      var k := Keep(c.mask[i]);
      assert Extra(ApplyHeader(y, c)[i], e[i]) == 0 && Extra(y[i], Blend(d[i], c.inverse[i], k)) == 0;
      InBlend(y[i], d[i], c.inverse[i], k);
      BlendSetPart(y[i], c.rewrite[i], k, e[i]);
      SetPartInto(c.rewrite[i], e[i], d[i], k);
      BlendIntoMaskIn(y[i], c.rewrite[i], k, d[i]);
    }
  }

  lemma SetPartInto(r: Word, e: Word, d: Word, k: Word)
    requires Extra(And(r, Not(k)), e) == 0 && Extra(And(e, Not(k)), d) == 0
    ensures Extra(And(r, Not(k)), d) == 0
  {}

  /** The inverse of any term has every header that the changer maps into the term. */
  lemma PreimageKept(y: Mask, r: Term, t: Term, c: Changer, pad: Mask)
    requires IsChanger(c, pad) && |y| == |pad| && DiffsInside([t])
    requires Rewritten(r, t, c.mask, c.inverse, pad) && RewrittenDiffs(r, t, c.mask, c.inverse)
    requires TermHas(ApplyHeader(y, c), t)
    ensures TermHas(y, r)
  {
    hide In, RewriteMask, BlendMask, XCount, Fits, HasZ, Extra, ExactWhenSet, Keep;
    PreimageInMask(y, t.mask, c, pad);
    if InSurvivor(y, t.diffs, t.mask, c.mask, c.inverse) {
      var k :| 0 <= k < |t.diffs| && Survives(t.diffs[k], t.mask, c.mask) && In(y, RewriteMask(t.diffs[k], c.mask, c.inverse));
      assert t.diffs[k] in [t][0].diffs;
      SurvivorTakes(y, t.diffs[k], t.mask, c, pad);
      assert false;
    }
  }
}
