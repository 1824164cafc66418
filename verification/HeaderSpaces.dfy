/** struct hs of src/header_space/hs.c and the operators of HeaderSpace in
    src/header_space/HeaderSpace.cpp. */
module HeaderSpaces {
  import opened Words
  import opened Masks
  import opened HeaderLists
  import opened Compaction
  import opened Absorptions
  import opened Intersection
  import opened Complement
  import Arrays

  /** The value of a header space: its elements with their diffs. */
  type Space = seq<Term>

  function CountDiff(ts: Space): nat
  {
    if ts == [] then 0 else |ts[0].diffs| + CountDiff(ts[1..])
  }

  lemma {:induction false} CountDiffZero(ts: Space)
    ensures CountDiff(ts) == 0 <==> NoDiffs(ts)
  {
    if ts != [] {
      CountDiffZero(ts[1..]);
      assert forall i | 1 <= i < |ts| :: ts[i] == ts[1..][i - 1];
      assert forall i | 0 <= i < |ts| - 1 :: ts[1..][i] == ts[i + 1];
    }
  }

  /** The masks of a list, without their diffs. */
  function MaskList(ts: Space): (ms: seq<Mask>)
    ensures |ms| == |ts|
  {
    seq(|ts|, i requires 0 <= i < |ts| => ts[i].mask)
  }

  lemma MaskListHas(h: Mask, ts: Space)
    requires NoDiffs(ts)
    ensures InAny(h, MaskList(ts)) <==> Has(h, ts)
  {
    hide In;
    assert Plain(MaskList(ts)) == ts;
    PlainHas(h, MaskList(ts));
  }

  /** ts loses no header and gains none. */
  ghost predicate SameHeaders(us: Space, ts: Space, n: nat)
  {
    forall h | IsHeader(h, n) :: Has(h, us) <==> Has(h, ts)
  }

  ghost predicate NoHeaders(ts: Space, n: nat)
  {
    forall h | IsHeader(h, n) :: !Has(h, ts)
  }

  /** The list after subtracting the masks ms one by one. */
  function SubtractedAll(ts: Space, ms: seq<Mask>): Space
  {
    if ms == [] then ts else SubtractedList(SubtractedAll(ts, ms[..|ms| - 1]), ms[|ms| - 1])
  }

  /** The list after empty(): compacted if there are diffs. */
  function Settled(ts: Space): Space
    requires AllAligned(ts)
  {
    if CountDiff(ts) > 0 then CompactedList(ts) else ts
  }

  /** l0 without the masks of b: every element keeps its mask and has the headers of b as
      further diffs, which lie inside masks of b. */
  ghost predicate Clipped(list: Space, l0: Space, b: Space, n: nat)
  {
    && |list| == |l0| && (forall i | 0 <= i < |list| :: list[i].mask == l0[i].mask)
    && (forall i, h | 0 <= i < |list| && IsHeader(h, n) && In(h, list[i].mask) ::
          InAny(h, list[i].diffs) <==> InAny(h, l0[i].diffs) || Has(h, b))
    && forall i, d | 0 <= i < |list| && d in list[i].diffs :: d in l0[i].diffs || InAny(d, MaskList(b))
  }

  /** r is ts with the masks ms among the diffs of every element, as far as they matter there. */
  ghost predicate Takes(r: Space, ts: Space, ms: seq<Mask>, n: nat)
  {
    && |r| == |ts| && (forall i | 0 <= i < |r| :: r[i].mask == ts[i].mask)
    && (forall i, h | 0 <= i < |r| && IsHeader(h, n) && In(h, r[i].mask) :: InAny(h, r[i].diffs) <==> InAny(h, ts[i].diffs) || InAny(h, ms))
    && forall i, d | 0 <= i < |r| && d in r[i].diffs :: d in ts[i].diffs || InAny(d, ms)
  }

  lemma TakesNothing(ts: Space, n: nat)
    ensures Takes(ts, ts, [], n)
  {
    hide In, IsHeader;
  }

  lemma TakesFacts(r: Space, ts: Space, ms: seq<Mask>, n: nat)
    requires Takes(r, ts, ms[..|ms|], n)
    ensures |r| == |ts| && forall i | 0 <= i < |r| :: r[i].mask == ts[i].mask
    ensures forall i, h | 0 <= i < |r| && IsHeader(h, n) && In(h, r[i].mask) :: InAny(h, r[i].diffs) <==> InAny(h, ts[i].diffs) || InAny(h, ms)
    ensures forall i, d | 0 <= i < |r| && d in r[i].diffs :: d in ts[i].diffs || InAny(d, ms)
  {
    hide In, InAny, IsHeader;
    assert ms[..|ms|] == ms;
  }

  lemma TakesNext(ts: Space, r1: Space, r2: Space, ms: seq<Mask>, k: nat, n: nat)
    requires k < |ms| && Takes(r1, ts, ms[..k], n) && |r2| == |r1| && forall i | 0 <= i < |r2| :: r2[i].mask == r1[i].mask
    requires forall i, h | 0 <= i < |r2| && IsHeader(h, n) && In(h, r2[i].mask) :: InAny(h, r2[i].diffs) <==> InAny(h, r1[i].diffs) || In(h, ms[k])
    requires forall i, d | 0 <= i < |r2| && d in r2[i].diffs :: d in r1[i].diffs || In(d, ms[k])
    ensures Takes(r2, ts, ms[..k + 1], n)
  {
    hide In, InAny, IsHeader;
    assert ms[..k + 1] == ms[..k] + [ms[k]];
    forall h ensures InAny(h, ms[..k + 1]) <==> InAny(h, ms[..k]) || In(h, ms[k]) { Arrays.InAnyAppend(h, ms[..k], ms[k]); }
    forall i, d | 0 <= i < |r2| && d in r2[i].diffs ensures d in ts[i].diffs || InAny(d, ms[..k + 1]) {
      assert InAny(d, ms[..k + 1]) <==> InAny(d, ms[..k]) || In(d, ms[k]);
      if d in r1[i].diffs { assert d in ts[i].diffs || InAny(d, ms[..k]); }
    }
    forall i, h | 0 <= i < |r2| && IsHeader(h, n) && In(h, r2[i].mask)
      ensures InAny(h, r2[i].diffs) <==> InAny(h, ts[i].diffs) || InAny(h, ms[..k + 1])
    {
      assert r1[i].mask == r2[i].mask;
    }
  }

  /** Every element is visibly covered by its diffs. */
  ghost predicate AllDoomed(ts: Space)
  {
    forall i | 0 <= i < |ts| :: Doomed(ts[i].mask, ts[i].diffs)
  }

  lemma DoomedIsEmpty(ts: Space)
    requires AllAligned(ts) && AllDoomed(ts)
    ensures CompactedList(ts) == [] && (ts != [] ==> !NoDiffs(ts))
  {
    hide CompactedList, AllAligned;
    DoomedListIsFreed(ts);
    if ts != [] { assert Doomed(ts[0].mask, ts[0].diffs); }
  }

  class HeaderSpace {
    const pad: Mask
    var list: Space

    constructor (pad: Mask, list: Space)
      ensures this.pad == pad && this.list == list
    {
      this.pad := pad;
      this.list := list;
    }

    predicate Valid()
      reads this
    {
      AreTerms(list, pad)
    }

    /** hs_diff: subtracts one mask from every element. */
    method Diff(a: Mask)
      requires Valid() && IsMask(a, pad)
      modifies this
      ensures Valid() && |list| == |old(list)| && list == SubtractedList(old(list), a)
      ensures forall i | 0 <= i < |list| :: list[i].mask == old(list)[i].mask
      ensures forall i, h | 0 <= i < |list| && IsHeader(h, |pad|) && In(h, list[i].mask) ::
                InAny(h, list[i].diffs) <==> InAny(h, old(list)[i].diffs) || In(h, a)
      ensures forall i, d | 0 <= i < |list| && d in list[i].diffs :: d in old(list)[i].diffs || In(d, a)
      ensures DiffsInside(old(list)) ==> DiffsInside(list)
    {
      list := SubtractMask(list, a, pad);
    }

    /** hs_compact. */
    method Compact(ghost D: iset<Mask>) returns (nonempty: bool)
      requires Valid()
      modifies this
      ensures Valid() && nonempty == (list != []) && |list| <= |old(list)|
      ensures AllAligned(old(list)) && list == CompactedList(old(list))
      ensures DiffsFrom(list, old(list)) && MasksInside(list, old(list))
      ensures forall h | IsHeader(h, |pad|) :: Has(h, list) ==> Has(h, old(list))
      ensures CommonDiff(old(list), D, |pad|) ==>
                SameHeaders(list, old(list), |pad|) && CommonDiff(list, D, |pad|)
    {
      list := Compaction.Compact(list, D, pad);
      nonempty := list != [];
    }

    /** hs_comp_diff. */
    method CompDiff()
      requires Valid()
      modifies this
      ensures Valid() && NoDiffs(list)
      ensures forall h | IsHeader(h, |pad|) ::
                Has(h, list) <==> exists i :: 0 <= i < |old(list)| && FlatHas(h, old(list)[i], |pad|)
    {
      list := Complement.CompDiff(list, pad);
    }

    /** hs_isect: exact. */
    method Isect(b: Space)
      requires Valid() && AreTerms(b, pad)
      modifies this
      ensures Valid() && DiffsInside(list) && MasksInside(list, old(list)) && MasksInside(list, b)
      ensures NoDiffs(old(list)) && NoDiffs(b) ==> NoDiffs(list)
      ensures |old(list)| <= 1 && |b| <= 1 ==> |list| <= 1
      ensures forall h | IsHeader(h, |pad|) :: Has(h, list) <==> Has(h, old(list)) && Has(h, b)
    {
      list := VecIsect(list, b, pad);
    }

    /** hs_sum. */
    method Sum(b: Space)
      requires Valid() && AreTerms(b, pad)
      modifies this
      ensures Valid()
      ensures forall h :: Has(h, list) <==> Has(h, old(list)) || Has(h, b)
    {
      forall h ensures Has(h, list + b) <==> Has(h, list) || Has(h, b) { HasConcat(h, list, b); }
      list := list + b;
    }

    /** hs_cmpl. */
    method Cmpl()
      requires Valid()
      modifies this
      ensures Valid() && NoDiffs(list) && AllAligned(old(list))
      ensures forall h | IsHeader(h, |pad|) :: Has(h, list) <==> HsCmplHas(h, old(list), |pad|)
    {
      list := CmplList(list, false, pad);
    }

    /** operator-= for a right side without diffs: every mask is subtracted in turn. */
    method SubtractPlain(b: Space)
      requires Valid() && AreTerms(b, pad) && NoDiffs(b)
      modifies this
      ensures Valid() && |list| == |old(list)| && list == SubtractedAll(old(list), MaskList(b))
      ensures forall i | 0 <= i < |list| :: list[i].mask == old(list)[i].mask
      ensures forall i, h | 0 <= i < |list| && IsHeader(h, |pad|) && In(h, list[i].mask) ::
                InAny(h, list[i].diffs) <==> InAny(h, old(list)[i].diffs) || Has(h, b)
      ensures forall h | IsHeader(h, |pad|) :: Has(h, list) <==> Has(h, old(list)) && !Has(h, b)
      ensures forall i, d | 0 <= i < |list| && d in list[i].diffs :: d in old(list)[i].diffs || InAny(d, MaskList(b))
      ensures DiffsInside(old(list)) ==> DiffsInside(list)
    {
      hide In, InAny, IsHeader, IsMask, Has, SubtractedList, Takes;
      ghost var ms := MaskList(b);
      ghost var l0 := list;
      TakesNothing(l0, |pad|);
      for k := 0 to |b|
        invariant Valid() && (DiffsInside(l0) ==> DiffsInside(list)) && list == SubtractedAll(l0, ms[..k])
        invariant Takes(list, l0, ms[..k], |pad|)
      {
        assert IsTerm(b[k], pad);
        ghost var l1 := list;
        Diff(b[k].mask);
        assert ms[..k + 1][..k] == ms[..k] && ms[..k + 1][k] == b[k].mask;
        TakesNext(l0, l1, list, ms, k, |pad|);
      }
      TakesFacts(list, l0, ms, |pad|);
      assert ms[..|b|] == ms;
      forall h | IsHeader(h, |pad|)
        ensures InAny(h, ms) <==> Has(h, b)
        ensures Has(h, list) <==> Has(h, l0) && !Has(h, b)
      {
        MaskListHas(h, b);
        SubtractedHas(h, list, l0, b);
      }
    }

    /** operator-=. A right side with diffs goes through its complement (hs_minus); isect
        is then the list before it is compacted. */
    method Subtract(b: Space) returns (ghost isect: Space)
      requires Valid() && AreTerms(b, pad)
      modifies this
      ensures Valid() && AllAligned(b) && AllAligned(isect)
      ensures NoDiffs(b) ==> list == SubtractedAll(old(list), MaskList(b)) && list == isect && Clipped(list, old(list), b, |pad|)
      ensures !NoDiffs(b) ==> list == CompactedList(isect) && (NoDiffs(old(list)) ==> NoDiffs(list) && Lossless(isect, |pad|))
      ensures forall h | IsHeader(h, |pad|) ::
                Has(h, isect) <==> Has(h, old(list)) && if NoDiffs(b) then !Has(h, b) else HsCmplHas(h, b, |pad|)
      ensures forall h | IsHeader(h, |pad|) :: Has(h, list) ==> Has(h, isect)
    {
      hide In, InAny, IsHeader, IsMask, Has, HsCmplHas, CompactedList, AllAligned, SubtractedAll, CmplHas;
      CountDiffZero(b);
      TermsAreAligned(b, pad);
      if CountDiff(b) > 0 {
        list, isect := MinusList(list, b, false, pad);
      } else {
        SubtractPlain(b);
        isect := list;
        TermsAreAligned(list, pad);
      }
    }

    /** empty(): looks for elements, after compaction when there are diffs. */
    method Empty(ghost D: iset<Mask>) returns (e: bool)
      requires Valid()
      modifies this
      ensures Valid() && e == (list == []) && |list| <= |old(list)|
      ensures AllAligned(old(list)) && list == Settled(old(list))
      ensures e ==> NoHeaders(old(list), |pad|)
      ensures DiffsFrom(list, old(list)) && MasksInside(list, old(list))
      ensures forall h | IsHeader(h, |pad|) :: Has(h, list) ==> Has(h, old(list))
      ensures CommonDiff(old(list), D, |pad|) ==>
                SameHeaders(list, old(list), |pad|) && CommonDiff(list, D, |pad|)
      ensures NoDiffs(old(list)) ==> list == old(list) && (e <==> NoHeaders(list, |pad|))
      ensures AllDoomed(old(list)) ==> e
    {
      hide CompactedList, AllAligned, AllDoomed;
      if AllDoomed(list) && AllAligned(list) { DoomedIsEmpty(list); }
      CountDiffZero(list);
      TermsAreAligned(list, pad);
      if NoDiffs(list) && list != [] { PlainNonempty(list, pad); }
      DiffsFromSelf(list);
      MasksInsideSelf(list);
      if |list| > 0 {
        if CountDiff(list) > 0 {
          CompactedListFacts(list, D, pad);
          var nonempty := Compact(D);
          return !nonempty;
        } else {
          return false;
        }
      } else {
        return true;
      }
    }

    /** computeDifference(). */
    method ComputeDifference(ghost D: iset<Mask>)
      requires Valid()
      modifies this
      ensures Valid() && NoDiffs(list) && AllAligned(old(list))
      ensures var used := Settled(old(list));
        && AreTerms(used, pad) && DiffsFrom(used, old(list))
        && (CommonDiff(old(list), D, |pad|) ==> SameHeaders(used, old(list), |pad|))
        && forall h | IsHeader(h, |pad|) :: Has(h, list) <==> exists i :: 0 <= i < |used| && FlatHas(h, used[i], |pad|)
    {
      hide FlatHas, Settled, AllAligned;
      var e := Empty(D);
      if !e { CompDiff(); }
    }
  }

  lemma SubtractedHas(h: Mask, list: Space, l0: Space, b: Space)
    requires |list| == |l0| && forall i | 0 <= i < |list| :: list[i].mask == l0[i].mask
    requires forall i | 0 <= i < |list| && In(h, list[i].mask) ::
               InAny(h, list[i].diffs) <==> InAny(h, l0[i].diffs) || Has(h, b)
    ensures Has(h, list) <==> Has(h, l0) && !Has(h, b)
  {
    hide In, InAny;
    if i :| 0 <= i < |list| && TermHas(h, list[i]) { assert TermHas(h, l0[i]); }
    if !Has(h, b) {
      if i :| 0 <= i < |l0| && TermHas(h, l0[i]) { assert TermHas(h, list[i]); }
    }
  }

  // --- operator<=, operator== ---

  ghost function HeadersOf(b: Space): iset<Mask>
  {
    iset h | Has(h, b)
  }

  /** After subtracting b, every element subtracts the same set: b. */
  lemma SubtractedCommon(list: Space, l0: Space, b: Space, n: nat)
    requires NoDiffs(l0) && Clipped(list, l0, b, n)
    ensures CommonDiff(list, HeadersOf(b), n)
  {
    hide In, IsHeader, Has, MaskList;
    assert forall h :: !InAny(h, []);
  }

  /** Flattening a list of which no header is left gives nothing, as long as some
      header lies outside the set that all diffs stay in. */
  lemma FlatStaysEmpty(h: Mask, t: Term, outside: Mask, n: nat)
    requires IsHeader(h, n) && IsHeader(outside, n) && !InAny(outside, t.diffs)
    requires !TermHas(h, t)
    ensures !FlatHas(h, t, n)
  {
    hide In, CmplHas;
    InsideNeverCovers(t.diffs, n, outside);
    NoPrefixIsExact(h, t, n);
  }

  lemma NoPrefixIsExact(h: Mask, t: Term, n: nat)
    requires IsHeader(h, n) && NoPrefixCovers(Plain(t.diffs), n)
    ensures FlatHas(h, t, n) <==> TermHas(h, t)
  {
    hide In, CmplHas, TermHas, IsHeader;
    FlatExactIff(t, n);
  }

  /** Every diff of the subtracted list stays inside b, so what lies outside b lies
      outside all diffs of any list built from them. */
  lemma DiffsAvoid(used: Space, list: Space, outside: Mask)
    requires DiffsFrom(used, list)
    requires forall i, d | 0 <= i < |list| && d in list[i].diffs :: !In(outside, d)
    ensures forall i | 0 <= i < |used| :: !InAny(outside, used[i].diffs)
  {
    hide In;
    forall i, k | 0 <= i < |used| && 0 <= k < |used[i].diffs| ensures !In(outside, used[i].diffs[k]) {
      var d := used[i].diffs[k];
      assert d in used[i].diffs && DiffOf(d, list);
    }
  }

  lemma OutsideDiffs(list: Space, a: Space, b: Space, outside: Mask, n: nat)
    requires NoDiffs(a) && NoDiffs(b) && Clipped(list, a, b, n) && IsHeader(outside, n) && !Has(outside, b)
    ensures forall i, d | 0 <= i < |list| && d in list[i].diffs :: !In(outside, d)
  {
    hide In;
    forall i, d | 0 <= i < |list| && d in list[i].diffs ensures !In(outside, d) {
      var ms := MaskList(b);
      assert a[i].diffs == [] && InAny(d, ms);
      var k :| 0 <= k < |ms| && In(d, ms[k]);
      MaskListHas(outside, b);
      if In(outside, d) { InTrans(outside, d, ms[k]); }
    }
  }

  /** Flattening leaves nothing of t: a diff is the whole space, or the diffs after the
      last prefix that covers everything still cover the mask. */
  ghost predicate Vanishes(t: Term, n: nat)
  {
    SomeWhole(Plain(t.diffs), n) || forall h | IsHeader(h, n) && In(h, t.mask) :: Has(h, Residue(Plain(t.diffs), n))
  }

  lemma VanishesIff(t: Term, n: nat)
    ensures Vanishes(t, n) <==> forall h | IsHeader(h, n) :: !FlatHas(h, t, n)
  {
    hide In, IsHeader, Residue, SomeWhole;
  }

  /** What a subtraction has left is recognised as empty: compaction and flattening leave
      nothing of any element. */
  ghost predicate Recognised(left: Space, n: nat)
    requires AllAligned(left)
  {
    forall i | 0 <= i < |Settled(left)| :: Vanishes(Settled(left)[i], n)
  }

  /** operator<=: true if and only if flattening leaves nothing of any element of a - b. On
      header spaces without diffs it never answers true wrongly, and answers true for every
      inclusion in a set that is not the whole space. If only b has diffs, the answer is
      inclusion in what hs_cmpl leaves out. */
  method Included(a: Space, b: Space, pad: Mask) returns (r: bool, ghost left: Space)
    requires AreTerms(a, pad) && AreTerms(b, pad)
    ensures AllAligned(left) && AllAligned(b) && (r <==> Recognised(left, |pad|))
    ensures NoDiffs(b) ==> left == SubtractedAll(a, MaskList(b))
    ensures NoDiffs(a) && !NoDiffs(b) ==> (r <==> forall h | IsHeader(h, |pad|) && Has(h, a) :: !HsCmplHas(h, b, |pad|))
    ensures NoDiffs(a) && NoDiffs(b) && r ==> forall h | IsHeader(h, |pad|) && Has(h, a) :: Has(h, b)
    ensures NoDiffs(a) && NoDiffs(b) && (forall h | IsHeader(h, |pad|) && Has(h, a) :: Has(h, b)) && !CoversAll(b, |pad|) ==> r
  {
    hide In, InAny, Has, FlatHas, IsHeader, CommonDiff, IsTerm, TermHas, Settled, SubtractedAll, AllAligned, Vanishes, HsCmplHas, CompactedList,
         Clipped;
    var inclusion := new HeaderSpace(pad, a);
    ghost var isect := inclusion.Subtract(b);
    left := inclusion.list;
    inclusion.ComputeDifference(HeadersOf(b));
    ghost var used := Settled(left);
    ghost var flat := inclusion.list;
    r := inclusion.Empty(iset{});
    FlatEmpty(used, flat, |pad|);
    if NoDiffs(a) && NoDiffs(b) {
      SubtractedCommon(left, a, b, |pad|);
      forall h | IsHeader(h, |pad|) && Has(h, used) ensures Has(h, flat) { FlatKeepsList(h, used, |pad|); }
      if !CoversAll(b, |pad|) && (forall h | IsHeader(h, |pad|) && Has(h, a) :: Has(h, b)) {
        var outside :| IsHeader(outside, |pad|) && !Has(outside, b);
        OutsideDiffs(left, a, b, outside, |pad|);
        DiffsAvoid(used, left, outside);
        forall h, i | IsHeader(h, |pad|) && 0 <= i < |used| ensures !FlatHas(h, used[i], |pad|) {
          NotInTerm(h, used, i);
          FlatStaysEmpty(h, used[i], outside, |pad|);
        }
      }
    } else if NoDiffs(a) {
      PlainSettled(left);
      forall h | IsHeader(h, |pad|) ensures Has(h, flat) <==> Has(h, left) {
        if Has(h, left) { FlatKeepsList(h, left, |pad|); }
        if i :| 0 <= i < |left| && FlatHas(h, left[i], |pad|) { PlainFlat(h, left, i, |pad|); }
      }
      assert forall h | IsHeader(h, |pad|) :: Has(h, left) <==> Has(h, isect);
    }
  }

  /** Flattening leaves no header if and only if every element vanishes. */
  lemma FlatEmpty(used: Space, flat: Space, n: nat)
    requires forall h | IsHeader(h, n) :: Has(h, flat) <==> exists i :: 0 <= i < |used| && FlatHas(h, used[i], n)
    ensures (forall h | IsHeader(h, n) :: !Has(h, flat)) <==> forall i | 0 <= i < |used| :: Vanishes(used[i], n)
  {
    hide Has, FlatHas, IsHeader, Vanishes;
    forall i | 0 <= i < |used| ensures Vanishes(used[i], n) <==> forall h | IsHeader(h, n) :: !FlatHas(h, used[i], n) {
      VanishesIff(used[i], n);
    }
  }

  /** Without diffs there is nothing to compact or to flatten. */
  lemma PlainSettled(ts: Space)
    requires NoDiffs(ts) && AllAligned(ts)
    ensures Settled(ts) == ts
  {
    hide CompactedList, AllAligned;
    CountDiffZero(ts);
  }

  lemma PlainFlat(h: Mask, ts: Space, i: nat, n: nat)
    requires NoDiffs(ts) && i < |ts| && FlatHas(h, ts[i], n)
    ensures Has(h, ts)
  {
    hide In, CmplHas;
    assert TermHas(h, ts[i]);
  }

  lemma NotInTerm(h: Mask, ts: Space, i: nat)
    requires i < |ts| && !Has(h, ts)
    ensures !TermHas(h, ts[i])
  {
    hide TermHas;
  }

  lemma FlatKeepsList(h: Mask, ts: Space, n: nat)
    requires IsHeader(h, n) && Has(h, ts)
    ensures exists i :: 0 <= i < |ts| && FlatHas(h, ts[i], n)
  {
    hide In, InAny, FlatHas;
    var i :| 0 <= i < |ts| && TermHas(h, ts[i]);
    FlatKeeps(h, ts[i], n);
  }

  /** operator==: inclusion both ways. */
  method Equal(a: Space, b: Space, pad: Mask) returns (r: bool, ghost left: Space, ghost right: Space)
    requires AreTerms(a, pad) && AreTerms(b, pad)
    ensures AllAligned(left) && AllAligned(right) && (r <==> Recognised(left, |pad|) && Recognised(right, |pad|))
    ensures NoDiffs(b) ==> left == SubtractedAll(a, MaskList(b))
    ensures NoDiffs(a) ==> right == SubtractedAll(b, MaskList(a))
    ensures NoDiffs(a) && NoDiffs(b) && r ==> SameHeaders(a, b, |pad|)
    ensures NoDiffs(a) && NoDiffs(b) && SameHeaders(a, b, |pad|) && !CoversAll(a, |pad|) ==> r
  {
    hide Has, IsHeader, Recognised, SubtractedAll, AllAligned, HsCmplHas;
    var inclusion, exclusion;
    inclusion, left := Included(a, b, pad);
    exclusion, right := Included(b, a, pad);
    r := inclusion && exclusion;
  }

  // --- the whole space on the right ---

  /** Six masks over three positions: 01x, x01, 1x0, 000, 111 cover everything, and
      x10 comes after them. */
  const SIX: seq<Mask> := [[0xffffffffffffffdb], [0xfffffffffffffff6], [0xffffffffffffffed],
                           [0xffffffffffffffd5], [0xffffffffffffffea], [0xfffffffffffffff9]]

  lemma FiveCover(h: Word)
    requires Exact(h)
    ensures || Extra(h, 0xffffffffffffffdb) == 0 || Extra(h, 0xfffffffffffffff6) == 0
            || Extra(h, 0xffffffffffffffed) == 0 || Extra(h, 0xffffffffffffffd5) == 0
            || Extra(h, 0xffffffffffffffea) == 0
  {}

  const ONE_ONE_ONE: Mask := [0x555555555555556a]

  lemma SixCoverAll(x: Mask)
    requires IsHeader(x, 1)
    ensures Has(x, Plain(SIX)[0..5]) && Has(x, Plain(SIX)[..5]) && InAny(x, SIX)
  {
    hide Exact;
    var ds := Plain(SIX);
    FiveCover(x[0]);
    var k := if Extra(x[0], SIX[0][0]) == 0 then 0 else if Extra(x[0], SIX[1][0]) == 0 then 1
             else if Extra(x[0], SIX[2][0]) == 0 then 2 else if Extra(x[0], SIX[3][0]) == 0 then 3 else 4;
    assert In(x, SIX[k]) && ds[k].diffs == [];
    assert TermHas(x, ds[0..5][k]) && TermHas(x, ds[..5][k]);
  }

  lemma OneOneOneOutside()
    ensures IsHeader(ONE_ONE_ONE, 1)
    ensures !In(ONE_ONE_ONE, SIX[0]) && !In(ONE_ONE_ONE, SIX[1]) && !In(ONE_ONE_ONE, SIX[2])
    ensures !In(ONE_ONE_ONE, SIX[3]) && !In(ONE_ONE_ONE, SIX[5])
  {
    assert Exact(0x555555555555556a);
    var h := ONE_ONE_ONE;
    assert Extra(h[0], SIX[0][0]) != 0 && Extra(h[0], SIX[1][0]) != 0 && Extra(h[0], SIX[2][0]) != 0;
    assert Extra(h[0], SIX[3][0]) != 0 && Extra(h[0], SIX[5][0]) != 0;
  }

  lemma NoneOfSixWhole()
    ensures !SomeWhole(Plain(SIX), 1)
  {
    hide In, Exact;
    OneOneOneOutside();
    assert IsHeader([0x5555555555555555], 1) && !In([0x5555555555555555], SIX[4]) by {
      ZerosOutside();
      NotCovered([0x5555555555555555], SIX[4]);
    }
  }

  lemma ZerosOutside()
    ensures Exact(0x5555555555555555) && Extra(0x5555555555555555, SIX[4][0]) != 0
  {}

  lemma NotCovered(h: Mask, m: Mask)
    requires |h| == |m| == 1 && Extra(h[0], m[0]) != 0
    ensures !In(h, m)
  {}

  lemma SixRestart()
    ensures Residue(Plain(SIX), 1) == [Plain(SIX)[5]]
  {
    hide In, Exact;
    var ds := Plain(SIX);
    OneOneOneOutside();
    forall j | 0 <= j < 5 ensures !CoversAll(ds[..j], 1) {
      assert !Has(ONE_ONE_ONE, ds[..j]);
    }
    StartStaysZero(ds, 5, 1);
    forall x | IsHeader(x, 1) ensures Has(x, ds[0..5]) { SixCoverAll(x); }
    assert Start(ds, 6, 1) == 5;
  }

  /** Flattening the whole space without the six masks starts over after five of them and
      keeps the header 111. */
  lemma SixDoNotVanish()
    ensures !Vanishes(Term(AllX(1), SIX), 1)
  {
    hide In, Exact, Extra, SomeWhole, Residue, Start, Plain, AllX;
    OneOneOneOutside();
    NoneOfSixWhole();
    SixRestart();
    AllXIsMask([0]);
    assert Plain(SIX)[5].mask == SIX[5];
    assert !Has(ONE_ONE_ONE, [Plain(SIX)[5]]);
  }

  lemma MeetWithAll(m: Mask)
    ensures Meet(AllX(|m|), m) == m
  {
    forall i | 0 <= i < |m| ensures And(!0, m[i]) == m[i] {}
  }

  /** From the whole space, every mask is subtracted as it is. */
  lemma {:induction false} FromWhole(ms: seq<Mask>, n: nat)
    requires forall k | 0 <= k < |ms| :: |ms[k]| == n && NoZ(ms[k])
    ensures SubtractedAll([Term(AllX(n), [])], ms) == [Term(AllX(n), ms)]
  {
    hide NoZ, Meet, AllX;
    if ms != [] {
      var k := |ms| - 1;
      FromWhole(ms[..k], n);
      MeetWithAll(ms[k]);
      assert |AllX(n)| == n by { AllLength(n); }
      assert SubtractedTerm(Term(AllX(n), ms[..k]), ms[k]) == Term(AllX(n), ms[..k] + [ms[k]]);
      assert ms[..k] + [ms[k]] == ms;
    }
  }

  lemma AllLength(n: nat)
    ensures |AllX(n)| == n
  {}

  lemma SixApart(i: nat, j: nat)
    requires i < 6 && j < 6 && i != j
    ensures Extra(SIX[i][0], SIX[j][0]) != 0
  {}

  lemma SixMisses(i: nat)
    requires i < 6
    ensures Extra(0xffffffffffffffff, SIX[i][0]) != 0 && !SingleBit(Extra(0xffffffffffffffff, SIX[i][0]))
    ensures !HasZ(SIX[i][0])
  {}

  lemma SixMissTwo(i: nat)
    requires i < 6
    ensures Arrays.MissCount(SIX[i], AllX(1), 1) > 1
  {
    SixMisses(i);
    hide Extra, SingleBit, PopCount, HasZ;
    PopCountZero(Extra(0xffffffffffffffff, SIX[i][0]));
    PopCountSingle(Extra(0xffffffffffffffff, SIX[i][0]));
    assert Arrays.MissCount(SIX[i], AllX(1), 0) == 0 && AllX(1)[0] == 0xffffffffffffffff;
  }

  /** Compaction leaves the six diffs alone. */
  lemma SixStay()
    ensures AllAligned([Term(AllX(1), SIX)]) && CompactedList([Term(AllX(1), SIX)]) == [Term(AllX(1), SIX)]
  {
    hide Extra, SingleBit, PopCount, Arrays.MissCount, VecCompacted, Absorbed, CompactedList;
    AllLength(1);
    forall i, j | 0 <= i < 6 && 0 <= j < 6 && i != j ensures !In(SIX[i], SIX[j]) { SixApart(i, j); }
    CompactedStays(SIX, m => m, 0, 1);
    forall i | 0 <= i < |SIX| ensures Arrays.MissCount(SIX[i], AllX(1), |AllX(1)|) > 1 { SixMissTwo(i); }
    AbsorbedStays(AllX(1), SIX, 0);
    OneTermCompacted(Term(AllX(1), SIX));
  }

  lemma SixAreMasks()
    ensures AreTerms(Plain(SIX), [0]) && NoDiffs(Plain(SIX)) && MaskList(Plain(SIX)) == SIX
    ensures forall k | 0 <= k < |SIX| :: |SIX[k]| == 1 && NoZ(SIX[k])
  {
    hide HasZ;
    forall k | 0 <= k < 6 ensures !HasZ(SIX[k][0]) { SixMisses(k); }
    assert MaskList(Plain(SIX)) == SIX;
  }

  /** The whole space and six masks that cover it: operator<= and operator== answer false. */
  lemma WholeNotRecognised()
    ensures var a, b := [Term(AllX(1), [])], Plain(SIX);
      && AreTerms(a, [0]) && AreTerms(b, [0]) && NoDiffs(a) && NoDiffs(b) && SameHeaders(a, b, 1)
      && AllAligned(SubtractedAll(a, MaskList(b))) && !Recognised(SubtractedAll(a, MaskList(b)), 1)
  {
    hide In, IsHeader, SubtractedAll, CompactedList, AllX, Vanishes, Plain, IsMask, AllAligned;
    var a, b := [Term(AllX(1), [])], Plain(SIX);
    SixAreMasks();
    AllXIsMask([0]);
    assert AreMasks([], [0]);
    FromWhole(SIX, 1);
    SixStay();
    SixDoNotVanish();
    CountDiffZero([Term(AllX(1), SIX)]);
    var used := [Term(AllX(1), SIX)];
    assert CountDiff(used) > 0 by { assert used[0].diffs != []; }
    assert SubtractedAll(a, MaskList(b)) == used && Settled(used) == used && !Vanishes(used[0], 1);
    forall x | IsHeader(x, 1) ensures Has(x, a) && Has(x, b) {
      SixCoverAll(x);
      PlainHas(x, SIX);
      assert TermHas(x, a[0]);
    }
  }
}
