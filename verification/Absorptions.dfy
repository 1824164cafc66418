/** Which elements the first loop of hs_compact (src/header_space/hs.c) frees, and what it
    leaves of the others. */
module Absorptions {
  import opened Options
  import opened Words
  import opened Masks
  import opened HeaderLists
  import opened Compaction
  import Arrays

  /** A smaller mask is missed by no more bits. */
  lemma {:induction false} MissCountShrinks(d: Mask, b: Mask, a: Mask, k: nat)
    requires |d| == |b| && In(b, a) && k <= |d|
    ensures Arrays.MissCount(d, b, k) <= Arrays.MissCount(d, a, k)
  {
    hide Extra, PopCount;
    if k > 0 {
      MissCountShrinks(d, b, a, k - 1);
      assert Extra(b[k - 1], a[k - 1]) == 0;
      ExtraShrinks(b[k - 1], a[k - 1], d[k - 1]);
      PopCountMono(Extra(b[k - 1], d[k - 1]), Extra(a[k - 1], d[k - 1]));
    }
  }

  lemma ExtraShrinks(b: Word, a: Word, d: Word)
    requires Extra(b, a) == 0
    ensures Extra(Extra(b, d), Extra(a, d)) == 0
  {}

  /** The bits of the mask outside d are at most bit l of word i. */
  predicate MissesOnly(d: Mask, mask: Mask, i: nat, l: Word)
  {
    && |d| == |mask| && i < |mask| && Extra(Extra(mask[i], d[i]), l) == 0
    && forall k | 0 <= k < |mask| && k != i :: Extra(mask[k], d[k]) == 0
  }

  /** Two diffs which leave out one value each of the same position. */
  ghost predicate Opposed(c: Mask, d: Mask, mask: Mask)
  {
    exists i: nat, l | i < |mask| :: Opposite(c, d, mask, i, l)
  }

  predicate Opposite(c: Mask, d: Mask, mask: Mask, i: nat, l: Word)
  {
    SingleBit(l) && MissesOnly(c, mask, i, l) && MissesOnly(d, mask, i, Swap(l))
  }

  /** A diff covers the element, or two of them do, one for each value of a position. */
  ghost predicate Doomed(mask: Mask, diffs: seq<Mask>)
  {
    exists c, d | c in diffs && d in diffs :: In(mask, c) || Opposed(c, d, mask)
  }

  lemma SubtractBitShrinks(d: Mask, mask: Mask)
    requires |d| == |mask|
    ensures In(Arrays.SubtractBit(d, mask), mask)
  {
    hide Extra, Arrays.FixWord;
    forall i | 0 <= i < |mask| ensures Extra(Arrays.SubtractBit(d, mask)[i], mask[i]) == 0 {
      Arrays.FixWordShrinks(mask[i], Extra(mask[i], d[i]));
    }
  }

  lemma FreeKeepsRest(diffs: seq<Mask>, j: nat, x: Mask)
    requires j < |diffs| && x in diffs[j..] && x != diffs[j]
    ensures x in ElemFree(diffs, j)[j..] && x in diffs[j + 1..]
  {
    var k :| 0 <= k < |diffs[j..]| && diffs[j..][k] == x;
    var r := ElemFree(diffs, j);
    assert diffs[j + 1..][k - 1] == x;
    assert if j + k == |diffs| - 1 then r[j..][0] == x else r[j..][k] == x;
  }

  // --- what is left ---

  /** The diffs left missed at least two bits of the element as it was. */
  lemma {:induction false} AbsorbedMisses(mask: Mask, diffs: seq<Mask>, j: nat, whole: Mask)
    requires Aligned(Term(mask, diffs)) && j <= |diffs| && In(mask, whole)
    requires forall k | 0 <= k < j :: Arrays.MissCount(diffs[k], whole, |whole|) > 1
    ensures Absorbed(mask, diffs, j).Some? ==>
              forall d | d in Absorbed(mask, diffs, j).value.diffs :: |d| == |whole| && Arrays.MissCount(d, whole, |whole|) > 1
    decreases |diffs| - j
  {
    hide In, Arrays.MissCount, Arrays.SubtractBit;
    SameLength(mask, whole);
    if j < |diffs| {
      var d := diffs[j];
      var cnt := Arrays.MissCount(d, mask, |mask|);
      if cnt > 1 {
        MissCountShrinks(d, mask, whole, |mask|);
        AbsorbedMisses(mask, diffs, j + 1, whole);
      } else if cnt == 1 {
        SubtractBitShrinks(d, mask);
        InTrans(Arrays.SubtractBit(d, mask), mask, whole);
        AbsorbedMisses(Arrays.SubtractBit(d, mask), ElemFree(diffs, j), j, whole);
      }
    }
  }

  /** Nor does one of them cover another. */
  lemma {:induction false} AbsorbedApart(mask: Mask, diffs: seq<Mask>, j: nat)
    requires Aligned(Term(mask, diffs)) && j <= |diffs| && Compacted(diffs, m => m)
    ensures Absorbed(mask, diffs, j).Some? ==> Compacted(Absorbed(mask, diffs, j).value.diffs, m => m)
    decreases |diffs| - j
  {
    hide In, Arrays.MissCount, Arrays.SubtractBit, Apart;
    if j < |diffs| {
      var cnt := Arrays.MissCount(diffs[j], mask, |mask|);
      if cnt > 1 {
        AbsorbedApart(mask, diffs, j + 1);
      } else if cnt == 1 {
        FreeStaysApart(diffs, j);
        AbsorbedApart(Arrays.SubtractBit(diffs[j], mask), ElemFree(diffs, j), j);
      }
    }
  }

  lemma FreeStaysApart(diffs: seq<Mask>, j: nat)
    requires j < |diffs| && Compacted(diffs, m => m)
    ensures Compacted(ElemFree(diffs, j), m => m)
  {
    hide In, Apart;
    var r, n := ElemFree(diffs, j), |diffs| - 1;
    forall p, q | 0 <= p < |r| && 0 <= q < |r| && p != q ensures Apart(r[p], r[q]) {
      assert Apart(diffs[if p == j then n else p], diffs[if q == j then n else q]);
    }
  }

  lemma SameLength(b: Mask, a: Mask)
    requires In(b, a)
    ensures |b| == |a|
  {}

  /** No diff that is left after compaction misses fewer than two bits of the element, and
      none covers another. */
  lemma CompactedTermMisses(t: Term)
    requires Aligned(t)
    ensures CompactedTerm(t).Some? ==>
              forall d | d in CompactedTerm(t).value.diffs :: |d| == |t.mask| && Arrays.MissCount(d, t.mask, |t.mask|) > 1
    ensures CompactedTerm(t).Some? ==> Compacted(CompactedTerm(t).value.diffs, m => m)
  {
    hide In, Arrays.MissCount, Absorbed, VecCompacted, Compacted, CoveredBy;
    InSame(t.mask);
    VecCompactedFacts(t.diffs, m => m, 0, 1);
    AbsorbedApart(t.mask, VecCompacted(t.diffs, m => m, 0, 1), 0);
    AbsorbedMisses(t.mask, VecCompacted(t.diffs, m => m, 0, 1), 0, t.mask);
  }

  // --- what is freed ---

  lemma {:induction false} AbsorbedCovered(mask: Mask, diffs: seq<Mask>, j: nat, c: Mask)
    requires Aligned(Term(mask, diffs)) && j <= |diffs| && c in diffs[j..] && In(mask, c)
    ensures Absorbed(mask, diffs, j).None?
    decreases |diffs| - j
  {
    hide In, Arrays.MissCount, Arrays.SubtractBit;
    CoversMissesNone(c, mask);
    var cnt := Arrays.MissCount(diffs[j], mask, |mask|);
    if cnt > 0 { FreeKeepsRest(diffs, j, c); }
    if cnt > 1 {
      AbsorbedCovered(mask, diffs, j + 1, c);
    } else if cnt == 1 {
      SubtractBitShrinks(diffs[j], mask);
      InTrans(Arrays.SubtractBit(diffs[j], mask), mask, c);
      AbsorbedCovered(Arrays.SubtractBit(diffs[j], mask), ElemFree(diffs, j), j, c);
    }
  }

  lemma CoversMissesNone(c: Mask, mask: Mask)
    requires |c| == |mask|
    ensures In(mask, c) <==> Arrays.MissCount(c, mask, |mask|) == 0
  {
    Arrays.MissCountZero(c, mask, |mask|);
  }

  lemma {:induction false} MissesAtMostOne(d: Mask, mask: Mask, i: nat, l: Word, k: nat)
    requires MissesOnly(d, mask, i, l) && SingleBit(l) && k <= |mask|
    ensures Arrays.MissCount(d, mask, k) <= if k > i then 1 else 0
  {
    hide Extra, PopCount, SingleBit;
    if k > 0 {
      MissesAtMostOne(d, mask, i, l, k - 1);
      PopCountZero(Extra(mask[k - 1], d[k - 1]));
      if k - 1 == i {
        PopCountMono(Extra(mask[i], d[i]), l);
        PopCountSingle(l);
      }
    }
  }

  lemma MissesStill(d: Mask, mask: Mask, part: Mask, i: nat, l: Word)
    requires MissesOnly(d, mask, i, l) && In(part, mask)
    ensures MissesOnly(d, part, i, l)
  {
    hide Extra;
    forall k | 0 <= k < |mask| ensures Extra(part[k], d[k]) == 0 <== Extra(mask[k], d[k]) == 0 {
      if Extra(mask[k], d[k]) == 0 { ExtraTrans(part[k], d[k], mask[k]); }
    }
    ExtraShrinks(part[i], mask[i], d[i]);
    ExtraTrans(Extra(part[i], d[i]), l, Extra(mask[i], d[i]));
  }

  /** Absorbing a diff that leaves out one value of a position makes its opposite a cover. */
  lemma OppositeCovers(c: Mask, d: Mask, mask: Mask, i: nat, l: Word)
    requires Opposite(c, d, mask, i, l) && Arrays.MissCount(c, mask, |mask|) == 1
    ensures In(Arrays.SubtractBit(c, mask), d)
  {
    hide Extra, PopCount, SingleBit, Swap, And;
    var p := Arrays.MissCountOne(c, mask, |mask|);
    SingleNotZero(Extra(mask[p], c[p]));
    assert p == i;
    var r := Arrays.SubtractBit(c, mask);
    forall k | 0 <= k < |mask| && k != i ensures r[k] == mask[k] { Arrays.FixWordZero(mask[k], Extra(mask[k], c[k])); }
    SubSingle(Extra(mask[i], c[i]), l);
    PartnerCleared(mask[i], d[i], l);
  }

  lemma SingleNotZero(w: Word)
    requires SingleBit(w)
    ensures w != 0
  {}

  lemma SubSingle(w: Word, l: Word)
    requires w != 0 && SingleBit(l) && Extra(w, l) == 0
    ensures w == l
  {}

  lemma PartnerCleared(b: Word, d: Word, l: Word)
    requires Extra(Extra(b, d), Swap(l)) == 0
    ensures Extra(Arrays.FixWord(b, l), d) == 0
  {}

  lemma SwapBack(c: Mask, d: Mask, mask: Mask, i: nat, l: Word)
    requires Opposite(c, d, mask, i, l)
    ensures Opposite(d, c, mask, i, Swap(l))
  {
    hide Extra, SingleBit, Swap;
    SwapSingle(l);
  }

  lemma SwapSingle(l: Word)
    requires SingleBit(l)
    ensures SingleBit(Swap(l)) && Swap(Swap(l)) == l
  {
    hide *;
    SwapTwice(l);
    SwapIsSingle(l);
  }

  lemma SwapTwice(l: Word)
    ensures Swap(Swap(l)) == l
  {}

  lemma SwapIsSingle(l: Word)
    requires SingleBit(l)
    ensures SingleBit(Swap(l))
  {}

  lemma {:induction false} AbsorbedOpposed(mask: Mask, diffs: seq<Mask>, j: nat, c: Mask, d: Mask, i: nat, l: Word)
    requires Aligned(Term(mask, diffs)) && j <= |diffs| && c in diffs[j..] && d in diffs[j..] && Opposite(c, d, mask, i, l)
    ensures Absorbed(mask, diffs, j).None?
    decreases |diffs| - j
  {
    hide In, Arrays.MissCount, Arrays.SubtractBit, MissesOnly, SingleBit;
    OppositeCounts(c, d, mask, i, l);
    var x := diffs[j];
    var cnt := Arrays.MissCount(x, mask, |mask|);
    if cnt > 1 {
      FreeKeepsRest(diffs, j, c);
      FreeKeepsRest(diffs, j, d);
      AbsorbedOpposed(mask, diffs, j + 1, c, d, i, l);
    } else if cnt == 1 {
      var part := Arrays.SubtractBit(x, mask);
      SubtractBitShrinks(x, mask);
      if x == c && x == d {
        SelfOpposed(x, mask, i, l);
      } else if x == c {
        FreeKeepsRest(diffs, j, d);
        OppositeCovers(c, d, mask, i, l);
        AbsorbedCovered(part, ElemFree(diffs, j), j, d);
      } else if x == d {
        FreeKeepsRest(diffs, j, c);
        SwapBack(c, d, mask, i, l);
        OppositeCovers(d, c, mask, i, Swap(l));
        AbsorbedCovered(part, ElemFree(diffs, j), j, c);
      } else {
        FreeKeepsRest(diffs, j, c);
        FreeKeepsRest(diffs, j, d);
        MissesStill(c, mask, part, i, l);
        MissesStill(d, mask, part, i, Swap(l));
        AbsorbedOpposed(part, ElemFree(diffs, j), j, c, d, i, l);
      }
    }
  }

  lemma OppositeCounts(c: Mask, d: Mask, mask: Mask, i: nat, l: Word)
    requires Opposite(c, d, mask, i, l) && |c| == |mask| && |d| == |mask|
    ensures Arrays.MissCount(c, mask, |mask|) <= 1 && Arrays.MissCount(d, mask, |mask|) <= 1
  {
    hide Extra, PopCount, SingleBit, Swap, Arrays.MissCount;
    SwapSingle(l);
    MissesAtMostOne(c, mask, i, l, |mask|);
    MissesAtMostOne(d, mask, i, Swap(l), |mask|);
  }

  lemma SelfOpposed(c: Mask, mask: Mask, i: nat, l: Word)
    requires Opposite(c, c, mask, i, l)
    ensures |c| == |mask| && Arrays.MissCount(c, mask, |mask|) == 0
  {
    hide Extra, SingleBit, Swap, Arrays.MissCount;
    BothNone(Extra(mask[i], c[i]), l);
    CoversMissesNone(c, mask);
  }

  lemma BothNone(w: Word, l: Word)
    requires SingleBit(l) && Extra(w, l) == 0 && Extra(w, Swap(l)) == 0
    ensures w == 0
  {
    hide *;
    if w != 0 { SubSingle(w, l); OwnSwap(l); }
  }

  lemma OwnSwap(l: Word)
    requires SingleBit(l)
    ensures Extra(l, Swap(l)) != 0
  {}

  /** Compaction frees every element whose diffs visibly cover it. */
  lemma DoomedIsFreed(t: Term)
    requires Aligned(t) && Doomed(t.mask, t.diffs)
    ensures CompactedTerm(t).None?
  {
    hide In, Absorbed, VecCompacted, MissesOnly, SingleBit, CoveredBy, Compacted;
    var diffs := VecCompacted(t.diffs, m => m, 0, 1);
    VecCompactedFacts(t.diffs, m => m, 0, 1);
    var c, d :| c in t.diffs && d in t.diffs && (In(t.mask, c) || Opposed(c, d, t.mask));
    var c1 := CoverOf(t.diffs, diffs, c);
    var d1 := CoverOf(t.diffs, diffs, d);
    assert diffs[0..] == diffs;
    if In(t.mask, c) {
      InTrans(t.mask, c, c1);
      AbsorbedCovered(t.mask, diffs, 0, c1);
    } else {
      var i: nat, l :| i < |t.mask| && Opposite(c, d, t.mask, i, l);
      MissesLess(c, c1, t.mask, i, l);
      MissesLess(d, d1, t.mask, i, Swap(l));
      AbsorbedOpposed(t.mask, diffs, 0, c1, d1, i, l);
    }
  }

  lemma CoverOf(v: seq<Mask>, r: seq<Mask>, c: Mask) returns (x: Mask)
    requires CoveredBy(v, r, m => m) && c in v
    ensures x in r && In(c, x)
  {
    hide In;
    assert Covered(c, r, m => m);
    var k :| 0 <= k < |r| && In(c, r[k]);
    x := r[k];
  }

  lemma MissesLess(c: Mask, x: Mask, mask: Mask, i: nat, l: Word)
    requires MissesOnly(c, mask, i, l) && In(c, x)
    ensures MissesOnly(x, mask, i, l)
  {
    hide Extra;
    forall k | 0 <= k < |mask| ensures Extra(mask[k], c[k]) == 0 ==> Extra(mask[k], x[k]) == 0 {
      if Extra(mask[k], c[k]) == 0 { ExtraTrans(mask[k], x[k], c[k]); }
    }
    ExtraLess(mask[i], c[i], x[i]);
    ExtraTrans(Extra(mask[i], x[i]), l, Extra(mask[i], c[i]));
  }

  lemma ExtraLess(b: Word, c: Word, x: Word)
    requires Extra(c, x) == 0
    ensures Extra(Extra(b, x), Extra(b, c)) == 0
  {}

  // --- the list ---

  /** y is what compaction leaves of an element of ts. */
  ghost predicate LeftOf(y: Term, ts: seq<Term>)
    requires AllAligned(ts)
  {
    exists i | 0 <= i < |ts| :: CompactedTerm(ts[i]) == Some(y)
  }

  /** After the first loop the list holds exactly the compacted elements that are not freed. */
  lemma {:induction false} CompactedTermsAre(ts: seq<Term>, i: nat, y: Term)
    requires AllAligned(ts) && i <= |ts|
    ensures y in CompactedTerms(ts, i) <==> y in ts[..i] || LeftOf(y, ts[i..])
    decreases |ts|, |ts| - i
  {
    hide Aligned, CompactedTerm;
    if i == |ts| {
      assert ts[..i] == ts;
    } else {
      match CompactedTerm(ts[i])
      case None =>
        var u := ElemFree(ts, i);
        CompactedTermsAre(u, i, y);
        assert u[..i] == ts[..i];
        LeftOfFree(ts, i, y);
      case Some(r) =>
        var u := ts[i := r];
        CompactedTermsAre(u, i + 1, y);
        assert u[..i + 1] == ts[..i] + [r];
        LeftOfFirst(ts, u, i, y);
    }
  }

  lemma LeftOfFree(ts: seq<Term>, i: nat, y: Term)
    requires AllAligned(ts) && i < |ts| && CompactedTerm(ts[i]).None?
    ensures LeftOf(y, ElemFree(ts, i)[i..]) <==> LeftOf(y, ts[i..])
  {
    hide Aligned, CompactedTerm;
    var r, n := ElemFree(ts, i), |ts| - 1;
    if k :| 0 <= k < |ts[i..]| && CompactedTerm(ts[i..][k]) == Some(y) {
      assert if i + k == n then r[i..][0] == ts[n] else r[i..][k] == ts[i + k];
    }
    if k :| 0 <= k < |r[i..]| && CompactedTerm(r[i..][k]) == Some(y) {
      assert ts[i..][if k == 0 then n - i else k] == r[i..][k];
    }
  }

  lemma LeftOfFirst(ts: seq<Term>, u: seq<Term>, i: nat, y: Term)
    requires AllAligned(ts) && AllAligned(u) && i < |ts| && CompactedTerm(ts[i]).Some? && u == ts[i := CompactedTerm(ts[i]).value]
    ensures LeftOf(y, ts[i..]) <==> y == u[i] || LeftOf(y, u[i + 1..])
  {
    hide Aligned, CompactedTerm;
    assert ts[i..][0] == ts[i];
    if k :| 0 <= k < |ts[i..]| && CompactedTerm(ts[i..][k]) == Some(y) {
      if k > 0 { assert u[i + 1..][k - 1] == ts[i..][k]; }
    }
    var w := u[i + 1..];
    if k :| 0 <= k < |w| && CompactedTerm(w[k]) == Some(y) {
      assert ts[i..][k + 1] == w[k];
    }
  }

  /** hs_compact leaves nothing of a list whose elements are all visibly covered. */
  lemma DoomedListIsFreed(ts: seq<Term>)
    requires AllAligned(ts) && forall i | 0 <= i < |ts| :: Doomed(ts[i].mask, ts[i].diffs)
    ensures CompactedList(ts) == []
  {
    hide Aligned, CompactedTerm, Doomed, CompactedTerms;
    var v := CompactedTerms(ts, 0);
    if v != [] {
      CompactedTermsAre(ts, 0, v[0]);
      assert ts[0..] == ts && v[0] in v;
      var i :| 0 <= i < |ts| && CompactedTerm(ts[i]) == Some(v[0]);
      DoomedIsFreed(ts[i]);
      assert false;
    }
  }

  /** A diff that is left was a diff of an element that it left by at least two bits. */
  lemma CompactedListMisses(ts: seq<Term>, y: Term)
    requires AllAligned(ts) && y in CompactedList(ts)
    ensures exists i :: 0 <= i < |ts| && CompactedTerm(ts[i]) == Some(y)
                        && forall d | d in y.diffs :: |d| == |ts[i].mask| && Arrays.MissCount(d, ts[i].mask, |ts[i].mask|) > 1
  {
    hide Aligned, CompactedTerm, CompactedTerms, Arrays.MissCount;
    CompactedTermsAre(ts, 0, y);
    assert ts[0..] == ts;
    var i :| 0 <= i < |ts| && CompactedTerm(ts[i]) == Some(y);
    CompactedTermMisses(ts[i]);
  }

  /** Of two elements with the same mask the first one stays. */
  lemma FirstStays<T>(s: T, t: T, mask: T -> Mask)
    requires In(mask(s), mask(t)) && In(mask(t), mask(s))
    ensures VecCompacted([s, t], mask, 0, 1) == [s]
  {
    hide In;
    assert ElemFree([s, t], 1) == [s];
    assert VecCompacted([s], mask, 1, 2) == [s];
    assert VecCompacted([s], mask, 0, 1) == [s];
  }
}
