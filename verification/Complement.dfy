/** hs_cmpl, hs_minus and hs_comp_diff of src/header_space/hs.c.

    hs_cmpl intersects the complements of the elements one by one and takes an
    empty running result for "nothing processed yet". So whenever the elements
    seen so far cover the whole space, it starts over with the next element: what
    it returns is the complement of the last such segment, the residue. */
module Complement {
  import opened Options
  import opened Words
  import opened Masks
  import opened HeaderLists
  import opened Intersection
  import opened Compaction
  import Arrays

  /** Every header of n words lies in the list. */
  ghost predicate CoversAll(ts: seq<Term>, n: nat)
  {
    forall h | IsHeader(h, n) :: Has(h, ts)
  }

  ghost predicate WholeMask(m: Mask, n: nat)
  {
    forall h | IsHeader(h, n) :: In(h, m)
  }

  /** Some element has the mask of all headers; hs_cmpl then returns at once. */
  ghost predicate SomeWhole(ts: seq<Term>, n: nat)
  {
    exists i | 0 <= i < |ts| :: WholeMask(ts[i].mask, n)
  }

  /** Where the segment starts that is still in use after k elements. */
  ghost function Start(ts: seq<Term>, k: nat, n: nat): (s: nat)
    requires k <= |ts|
    ensures s <= k
  {
    if k == 0 then 0
    else if CoversAll(ts[Start(ts, k - 1, n)..k - 1], n) then k - 1
    else Start(ts, k - 1, n)
  }

  ghost function Residue(ts: seq<Term>, n: nat): seq<Term>
  {
    ts[Start(ts, |ts|, n)..]
  }

  /** What hs_cmpl computes. */
  ghost predicate CmplHas(h: Mask, ts: seq<Term>, n: nat)
  {
    !SomeWhole(ts, n) && !Has(h, Residue(ts, n))
  }

  /** No proper prefix of the list already covers the whole space. */
  ghost predicate NoPrefixCovers(ts: seq<Term>, n: nat)
  {
    forall k | 0 <= k < |ts| :: !CoversAll(ts[..k], n)
  }

  lemma EmptyCoversNothing(n: nat)
    ensures !CoversAll([], n)
  {
    var m := AllX(n);
    assert NoZ(m) by { AllXIsMask(seq(n, i => 0)); }
    PickHeaderIn(m);
    assert !Has(PickHeader(m), []);
  }

  lemma {:induction false} StartStaysZero(ts: seq<Term>, k: nat, n: nat)
    requires k <= |ts| && forall j | 0 <= j < k :: !CoversAll(ts[..j], n)
    ensures Start(ts, k, n) == 0
  {
    hide CoversAll;
    if k > 0 {
      StartStaysZero(ts, k - 1, n);
      assert ts[0..k - 1] == ts[..k - 1];
    }
  }

  lemma {:induction false} StartZeroMeans(ts: seq<Term>, k: nat, n: nat)
    requires k <= |ts| && Start(ts, k, n) == 0
    ensures forall j | 0 <= j < k :: !CoversAll(ts[..j], n)
  {
    hide CoversAll;
    EmptyCoversNothing(n);
    if k > 0 {
      if k == 1 {
        assert ts[..0] == [];
      } else {
        assert Start(ts, k - 1, n) == 0;
        StartZeroMeans(ts, k - 1, n);
        assert ts[0..k - 1] == ts[..k - 1];
      }
    }
  }

  /** A restart happens only after a segment that covered everything. */
  lemma {:induction false} RestartMeansCovered(h: Mask, ts: seq<Term>, k: nat, n: nat)
    requires k <= |ts| && Start(ts, k, n) > 0 && IsHeader(h, n)
    ensures Has(h, ts)
  {
    hide TermHas, IsHeader;
    if CoversAll(ts[Start(ts, k - 1, n)..k - 1], n) {
      HasSubset(h, ts[Start(ts, k - 1, n)..k - 1], ts);
    } else {
      RestartMeansCovered(h, ts, k - 1, n);
    }
  }

  lemma ResidueInside(h: Mask, ts: seq<Term>, n: nat)
    ensures Has(h, Residue(ts, n)) ==> Has(h, ts)
  {
    hide TermHas, Start;
    HasSubset(h, Residue(ts, n), ts);
  }

  /** The complement of a diff list, which is not compacted, misses no header outside it. */
  lemma DiffCmplIsSound(h: Mask, ds: seq<Mask>, n: nat)
    requires IsHeader(h, n) && !InAny(h, ds)
    ensures CmplHas(h, Plain(ds), n)
  {
    hide In, IsHeader, Start;
    PlainHas(h, ds);
    ResidueInside(h, Plain(ds), n);
    forall i | 0 <= i < |ds| ensures !WholeMask(ds[i], n) { assert !In(h, ds[i]); }
  }

  /** Exactly when the complement of a list as it stands is right. With a whole mask among
      the elements nothing is returned, which is right only if the list covers everything;
      otherwise no proper prefix may cover the whole space, unless the residue covers it
      as well. */
  lemma SegmentsExactIff(ts: seq<Term>, n: nat)
    ensures (forall h | IsHeader(h, n) :: CmplHas(h, ts, n) <==> !Has(h, ts))
       <==> (if SomeWhole(ts, n) then CoversAll(ts, n)
             else NoPrefixCovers(ts, n) || CoversAll(Residue(ts, n), n))
  {
    hide Has, Start, SomeWhole, IsHeader;
    var s := Start(ts, |ts|, n);
    if s == 0 {
      StartZeroMeans(ts, |ts|, n);
      assert Residue(ts, n) == ts;
    } else {
      if NoPrefixCovers(ts, n) { StartStaysZero(ts, |ts|, n); }
      forall h | IsHeader(h, n) ensures Has(h, ts) { RestartMeansCovered(h, ts, |ts|, n); }
    }
  }

  // --- hs_cmpl on a list with diffs: it is compacted first ---

  /** What hs_cmpl returns for a header space: everything for an empty list, nothing when
      compaction leaves nothing, else the complement of the compacted list. */
  ghost predicate HsCmplHas(h: Mask, ts: seq<Term>, n: nat)
    requires AllAligned(ts)
  {
    ts == [] || (CompactedList(ts) != [] && CmplHas(h, CompactedList(ts), n))
  }

  ghost predicate HsCmplExact(ts: seq<Term>, n: nat)
    requires AllAligned(ts)
  {
    forall h | IsHeader(h, n) :: HsCmplHas(h, ts, n) <==> !Has(h, ts)
  }

  lemma SomeHeader(n: nat) returns (h: Mask)
    ensures IsHeader(h, n)
  {
    AllXIsMask(seq(n, i => 0));
    PickHeaderIn(AllX(n));
    h := PickHeader(AllX(n));
  }

  /** Exactly when hs_cmpl returns the complement of a header space: never when compaction
      empties the list; with a whole mask in the compacted list, only if the space covers
      everything; otherwise compaction may lose no header and no proper prefix of the
      compacted list may cover the whole space, unless its residue covers it. */
  lemma HsCmplExactIff(ts: seq<Term>, pad: Mask)
    requires AreTerms(ts, pad) && AllAligned(ts)
    ensures var n, v := |pad|, CompactedList(ts);
      HsCmplExact(ts, n) <==>
      (ts == [] ||
       (v != [] && if SomeWhole(v, n) then CoversAll(ts, n)
                   else (Lossless(ts, n) && NoPrefixCovers(v, n)) || CoversAll(Residue(v, n), n)))
  {
    hide Has, Start, SomeWhole, IsHeader, CompactedList, IsTerm, AllAligned, CommonDiff, DiffOf, InSome, Compacted;
    var n, v := |pad|, CompactedList(ts);
    CompactedListFacts(ts, iset{}, pad);
    var some := SomeHeader(n);
    NothingInEmpty();
    if ts == [] {
    } else if v == [] {
      assert !HsCmplHas(some, ts, n) && !Has(some, ts);
    } else {
      SegmentsExactIff(v, n);
      forall h ensures Has(h, Residue(v, n)) ==> Has(h, v) { ResidueInside(h, v, n); }
      if !SomeWhole(v, n) && !CoversAll(Residue(v, n), n) {
        if HsCmplExact(ts, n) { CmplOfLess(ts, v, n); }
      }
    }
  }

  /** An exact complement that is not empty comes from a list that nothing was lost of. */
  lemma CmplOfLess(ts: seq<Term>, v: seq<Term>, n: nat)
    requires !SomeWhole(v, n) && !CoversAll(Residue(v, n), n)
    requires forall h | IsHeader(h, n) :: CmplHas(h, v, n) <==> !Has(h, ts)
    requires forall h | IsHeader(h, n) :: Has(h, v) ==> Has(h, ts)
    ensures forall h | IsHeader(h, n) :: Has(h, v) <==> Has(h, ts)
  {
    hide Has, Start, SomeWhole, IsHeader;
    forall h ensures Has(h, Residue(v, n)) ==> Has(h, v) { ResidueInside(h, v, n); }
  }

  /** The whole space without one mask: hs_cmpl returns the mask if and only if it misses a
      single bit, so that compaction absorbs it. */
  lemma WholeMinusOne(m: Mask, pad: Mask)
    requires IsPad(pad) && IsMask(m, pad)
    ensures var n := |pad|; var ts := [Term(AllX(n), [m])];
      AreTerms(ts, pad) && AllAligned(ts) && (HsCmplExact(ts, n) <==> Arrays.MissCount(m, AllX(n), n) == 1)
  {
    hide In, IsPad, IsHeader, IsMask, Arrays.MissCount, Arrays.SubtractBit, AllX, CompactedTerm;
    var n := |pad|;
    AllXIsMask(pad);
    var whole := AllX(n);
    var ts := [Term(whole, [m])];
    Arrays.LengthOfMask(m, pad);
    Arrays.LengthOfMask(whole, pad);
    OneTermCompacted(ts[0]);
    OneDiffCompacted(whole, m);
    HsCmplExactIff(ts, pad);
    NoZOfMask(m, pad);
    PickHeaderIn(m);
    var h := PickHeader(m);
    assert InAny(h, [m]) by { assert In(h, [m][0]); }
    assert !TermHas(h, ts[0]) && !Has(h, ts);
    var cnt := Arrays.MissCount(m, whole, n);
    if cnt > 1 {
      assert WholeMask(ts[0].mask, n);
      assert HsCmplHas(h, ts, n) ==> CmplHas(h, ts, n);
    } else if cnt == 1 {
      Arrays.SubtractBitIsDifference(m, whole, pad);
      OneLeft(ts, Term(Arrays.SubtractBit(m, whole), []), m, pad);
    }
  }

  lemma OneDiffCompacted(whole: Mask, m: Mask)
    requires |m| == |whole|
    ensures Aligned(Term(whole, [m]))
    ensures var cnt := Arrays.MissCount(m, whole, |whole|);
      CompactedTerm(Term(whole, [m])) ==
      if cnt > 1 then Some(Term(whole, [m])) else if cnt == 1 then Some(Term(Arrays.SubtractBit(m, whole), [])) else None
  {
    hide Arrays.MissCount, Arrays.SubtractBit, In, VecCompacted, Apart;
    CompactedStays([m], d => d, 0, 1);
    var t := Term(whole, [m]);
    assert CompactedTerm(t) == Absorbed(whole, [m], 0);
    if Arrays.MissCount(m, whole, |whole|) == 1 {
      var sub := Arrays.SubtractBit(m, whole);
      assert ElemFree([m], 0) == [] && Absorbed(sub, [], 0) == Some(Term(sub, []));
    }
    assert Absorbed(whole, [m], 1) == Some(t);
  }

  lemma NoZOfMask(m: Mask, pad: Mask)
    requires IsMask(m, pad)
    ensures NoZ(m) && |m| == |pad|
  {}

  /** A list of one term: compaction compacts the term. */
  lemma OneTermCompacted(t: Term)
    requires Aligned(t)
    ensures CompactedList([t]) == match CompactedTerm(t) case None => [] case Some(r) => [r]
  {
    hide CompactedTerm, Aligned;
    var ts := [t];
    match CompactedTerm(t)
    case None =>
      assert CompactedTerms(ts, 0) == CompactedTerms(ElemFree(ts, 0), 0) == [];
    case Some(r) =>
      assert ts[0 := r] == [r] && CompactedTerms(ts, 0) == CompactedTerms([r], 1) == [r];
      CompactedStays([r], (t: Term) => t.mask, 0, 1);
  }

  lemma OneLeft(ts: seq<Term>, t: Term, m: Mask, pad: Mask)
    requires IsPad(pad) && AreTerms(ts, pad) && AllAligned(ts) && |ts| == 1 && CompactedList(ts) == [t] && t.diffs == []
    requires IsMask(m, pad) && forall h | IsHeader(h, |pad|) :: In(h, t.mask) <==> !In(h, m)
    requires CompactedTerm(ts[0]) == Some(t)
    ensures HsCmplExact(ts, |pad|)
  {
    hide In, IsPad, IsHeader, IsMask, CompactedTerm;
    var n := |pad|;
    CompactedTermRemains(ts[0], pad);
    EmptyCoversNothing(n);
    NoZOfMask(m, pad);
    PickHeaderIn(m);
    assert !In(PickHeader(m), t.mask);
    assert Start([t], 1, n) == 0 && Residue([t], n) == [t] by { assert [t][0..0] == []; assert [t][0..] == [t]; }
    assert !SomeWhole([t], n);
    forall h | IsHeader(h, n) ensures HsCmplHas(h, ts, n) <==> !Has(h, ts) {
      assert Has(h, ts) <==> TermHas(h, ts[0]);
      assert Has(h, [t]) <==> TermHas(h, [t][0]);
      assert TermHas(h, t) <==> TermHas(h, ts[0]);
    }
  }

  // --- hs_cmpl ---

  lemma PlainNonempty(ts: seq<Term>, pad: Mask)
    requires AreTerms(ts, pad) && NoDiffs(ts) && ts != []
    ensures exists h :: IsHeader(h, |pad|) && Has(h, ts)
  {
    hide In, IsPad, HasZ, Extra, Exact;
    var h := PickHeader(ts[0].mask);
    assert IsTerm(ts[0], pad);
    PickHeaderIn(ts[0].mask);
    assert !InAny(h, []);
    assert TermHas(h, ts[0]);
  }

  /** The complement of one element: the complement of its mask and its diffs. */
  method CmplTerm(t: Term, ghost pad: Mask) returns (whole: bool, r: seq<Term>)
    requires IsPad(pad) && IsTerm(t, pad)
    ensures whole <==> WholeMask(t.mask, |pad|)
    ensures AreTerms(r, pad) && NoDiffs(r)
    ensures !whole ==> r != [] && forall h | IsHeader(h, |pad|) :: Has(h, r) <==> !TermHas(h, t)
  {
    hide In, IsMask, IsPad, IsHeader;
    var cm := Arrays.Cmpl(t.mask, pad);
    whole := cm == [];
    assert forall h :: !InAny(h, []);
    if !whole { PlainAreTerms(cm, pad); PlainNonempty(Plain(cm), pad); }
    r := Plain(cm + t.diffs);
    PlainAreTerms(cm + t.diffs, pad);
    forall h | IsHeader(h, |pad|)
      ensures Has(h, r) <==> !TermHas(h, t)
      ensures Has(h, Plain(cm)) <==> InAny(h, cm)
    {
      InAnyConcat(h, cm, t.diffs);
      PlainHas(h, cm + t.diffs);
      PlainHas(h, cm);
    }
  }

  lemma SegmentGrows(h: Mask, ts: seq<Term>, s: nat, k: nat)
    requires s <= k < |ts|
    ensures Has(h, ts[s..k + 1]) <==> Has(h, ts[s..k]) || TermHas(h, ts[k])
    ensures Has(h, ts[k..k + 1]) <==> TermHas(h, ts[k])
  {
    hide TermHas;
    assert ts[s..k + 1] == ts[s..k] + [ts[k]] && ts[k..k + 1] == [ts[k]];
    HasConcat(h, ts[s..k], [ts[k]]);
    assert Has(h, [ts[k]]) <==> TermHas(h, [ts[k]][0]);
  }

  lemma StartStep(ts: seq<Term>, k: nat, n: nat)
    requires k < |ts|
    ensures CoversAll(ts[Start(ts, k, n)..k], n) ==> k > 0 && Start(ts, k + 1, n) == k
    ensures !CoversAll(ts[Start(ts, k, n)..k], n) ==> Start(ts, k + 1, n) == Start(ts, k, n)
  {
    hide CoversAll;
    EmptyCoversNothing(n);
    if k == 0 { assert ts[0..0] == []; }
  }

  /** The loop of hs_cmpl. */
  method CmplTerms(ts: seq<Term>, ghost pad: Mask) returns (res: seq<Term>)
    requires AreTerms(ts, pad) && ts != []
    ensures AreTerms(res, pad) && NoDiffs(res)
    ensures forall h | IsHeader(h, |pad|) :: Has(h, res) <==> CmplHas(h, ts, |pad|)
  {
    hide Has, IsTerm, WholeMask, Start, IsHeader, IsPad;
    ghost var n := |pad|;
    res := [];
    assert forall h :: !Has(h, []) by { NothingInEmpty(); }
    for i := 0 to |ts|
      invariant AreTerms(res, pad) && NoDiffs(res)
      invariant i == 0 ==> res == []
      invariant i > 0 ==> forall h | IsHeader(h, n) :: Has(h, res) <==> !Has(h, ts[Start(ts, i, n)..i])
      invariant forall k | 0 <= k < i :: !WholeMask(ts[k].mask, n)
    {
      var whole, tmp := CmplTerm(ts[i], pad);
      if whole { return []; }
      StartStep(ts, i, n);
      forall h
        ensures Has(h, ts[Start(ts, i, n)..i + 1]) <==> Has(h, ts[Start(ts, i, n)..i]) || TermHas(h, ts[i])
        ensures Has(h, ts[i..i + 1]) <==> TermHas(h, ts[i])
      {
        SegmentGrows(h, ts, Start(ts, i, n), i);
      }
      if res == [] {
        if i == 0 { StartZero(ts, n); }
        res := tmp;
      } else {
        PlainNonempty(res, pad);
        res := VecIsect(res, tmp, pad);
      }
    }
    assert ts[Start(ts, |ts|, n)..|ts|] == Residue(ts, n);
  }

  lemma StartZero(ts: seq<Term>, n: nat)
    ensures Start(ts, 0, n) == 0 && (|ts| > 0 ==> Start(ts, 1, n) == 0)
  {
    hide CoversAll;
    EmptyCoversNothing(n);
    assert ts[0..0] == [];
  }

  lemma NothingInEmpty()
    ensures forall h :: !Has(h, [])
  {}

  /** hs_cmpl. A diff list has no diff vector, so it is not compacted first. */
  method CmplList(ts: seq<Term>, isDiffList: bool, pad: Mask) returns (res: seq<Term>)
    requires AreTerms(ts, pad)
    ensures AreTerms(res, pad) && NoDiffs(res) && AllAligned(ts)
    ensures forall h | IsHeader(h, |pad|) ::
              Has(h, res) <==> if isDiffList then CmplHas(h, ts, |pad|) else HsCmplHas(h, ts, |pad|)
  {
    hide Has, IsHeader, IsTerm, CommonDiff, Compacted, CmplHas, CompactedList, AllAligned;
    TermsAreAligned(ts, pad);
    if ts == [] {
      AllXIsMask(pad);
      res := [Term(AllX(|pad|), [])];
      WholeList(res[0], pad);
      return;
    }
    var used := ts;
    if !isDiffList { used := Compact(ts, iset{}, pad); }
    if used == [] {
      res := [];
      NothingInEmpty();
    } else {
      res := CmplTerms(used, pad);
    }
  }

  lemma WholeList(t: Term, pad: Mask)
    requires t == Term(AllX(|pad|), []) && IsPad(pad)
    ensures AreTerms([t], pad) && NoDiffs([t])
    ensures forall h | IsHeader(h, |pad|) :: Has(h, [t]) && CmplHas(h, [], |pad|)
  {
    hide In;
    AllXIsMask(pad);
    forall h | IsHeader(h, |pad|) ensures Has(h, [t]) && CmplHas(h, [], |pad|) {
      assert TermHas(h, [t][0]);
    }
  }

  // --- hs_minus, hs_comp_diff ---

  lemma NoDiffsCommon(ts: seq<Term>, n: nat)
    requires NoDiffs(ts)
    ensures CommonDiff(ts, iset{}, n)
  {
    hide In;
  }

  /** hs_minus: the intersection of a with the complement of b, compacted. */
  method MinusList(a: seq<Term>, b: seq<Term>, isDiffList: bool, pad: Mask) returns (r: seq<Term>, ghost isect: seq<Term>)
    requires AreTerms(a, pad) && AreTerms(b, pad)
    ensures AllAligned(b) && AreTerms(isect, pad) && AllAligned(isect) && r == CompactedList(isect) && AreTerms(r, pad)
    ensures forall h | IsHeader(h, |pad|) ::
              Has(h, isect) <==> Has(h, a) && if isDiffList then CmplHas(h, b, |pad|) else HsCmplHas(h, b, |pad|)
    ensures forall h | IsHeader(h, |pad|) :: Has(h, r) ==> Has(h, isect)
    ensures NoDiffs(a) ==> NoDiffs(r) && Lossless(isect, |pad|)
  {
    hide Has, IsHeader, IsTerm, CommonDiff, Compacted, CmplHas, HsCmplHas, DiffOf, AllAligned, CompactedList;
    var tmp := CmplList(b, isDiffList, pad);
    var list := VecIsect(a, tmp, pad);
    isect := list;
    if NoDiffs(a) { NoDiffsCommon(isect, |pad|); }
    r := Compact(list, iset{}, pad);
    if NoDiffs(a) {
      forall i | 0 <= i < |r| ensures r[i].diffs == [] {
        if r[i].diffs != [] {
          assert r[i].diffs[0] in r[i].diffs;
          NoDiffOf(r[i].diffs[0], isect);
        }
      }
    }
  }

  lemma NoDiffOf(d: Mask, ts: seq<Term>)
    requires NoDiffs(ts)
    ensures !DiffOf(d, ts)
  {}

  /** What hs_comp_diff computes for one element. */
  ghost predicate FlatHas(h: Mask, t: Term, n: nat)
  {
    In(h, t.mask) && CmplHas(h, Plain(t.diffs), n)
  }

  /** hs_comp_diff: the elements flattened into masks without diffs. */
  method CompDiff(ts: seq<Term>, pad: Mask) returns (r: seq<Term>)
    requires AreTerms(ts, pad)
    ensures AreTerms(r, pad) && NoDiffs(r)
    ensures forall h | IsHeader(h, |pad|) ::
              Has(h, r) <==> exists i :: 0 <= i < |ts| && FlatHas(h, ts[i], |pad|)
  {
    hide Has, IsHeader, IsMask, In, CmplHas, HsCmplHas, FlatHas, CompactedList, AllAligned, Plain;
    r := [];
    NothingInEmpty();
    for i := 0 to |ts|
      invariant AreTerms(r, pad) && NoDiffs(r)
      invariant forall h | IsHeader(h, |pad|) ::
                  Has(h, r) <==> exists k :: 0 <= k < i && FlatHas(h, ts[k], |pad|)
    {
      assert IsTerm(ts[i], pad);
      var elem := [Term(ts[i].mask, [])];
      PlainAreTerms(ts[i].diffs, pad);
      var tmp, _ := MinusList(elem, Plain(ts[i].diffs), true, pad);
      forall h | IsHeader(h, |pad|)
        ensures Has(h, r + tmp) <==> Has(h, r) || FlatHas(h, ts[i], |pad|)
      {
        HasConcat(h, r, tmp);
        OneElement(h, ts[i], |pad|);
      }
      r := r + tmp;
    }
  }

  lemma OneElement(h: Mask, t: Term, n: nat)
    ensures Has(h, [Term(t.mask, [])]) && CmplHas(h, Plain(t.diffs), n) <==> FlatHas(h, t, n)
  {
    hide In, CmplHas;
    var e := [Term(t.mask, [])];
    assert Has(h, e) <==> TermHas(h, e[0]);
    assert !InAny(h, []);
  }

  /** Flattening never loses a header. */
  lemma FlatKeeps(h: Mask, t: Term, n: nat)
    requires IsHeader(h, n) && TermHas(h, t)
    ensures FlatHas(h, t, n)
  {
    hide In, CmplHas;
    PlainHas(h, t.diffs);
    DiffCmplIsSound(h, t.diffs, n);
  }

  /** Flattening one element is exact if and only if no proper prefix of its diffs
      covers the whole space, or a diff is the whole space, or the residue of the
      diffs still covers the element. */
  lemma FlatExactIff(t: Term, n: nat)
    ensures (forall h | IsHeader(h, n) :: FlatHas(h, t, n) <==> TermHas(h, t))
       <==> (|| NoPrefixCovers(Plain(t.diffs), n)
             || SomeWhole(Plain(t.diffs), n)
             || (forall h | IsHeader(h, n) && In(h, t.mask) :: Has(h, Residue(Plain(t.diffs), n))))
  {
    hide In, Start, IsHeader;
    var ds := Plain(t.diffs);
    forall h ensures Has(h, ds) <==> InAny(h, t.diffs) { PlainHas(h, t.diffs); }
    if SomeWhole(ds, n) {
      var i :| 0 <= i < |ds| && WholeMask(ds[i].mask, n);
      assert forall h | IsHeader(h, n) :: In(h, t.diffs[i]);
    } else {
      var s := Start(ds, |ds|, n);
      if s == 0 {
        StartZeroMeans(ds, |ds|, n);
        assert Residue(ds, n) == ds;
      } else {
        if NoPrefixCovers(ds, n) { StartStaysZero(ds, |ds|, n); }
        forall h | IsHeader(h, n) ensures Has(h, ds) { RestartMeansCovered(h, ds, |ds|, n); }
      }
    }
  }

  /** Diffs that stay inside a set which is not the whole space never cover it. */
  lemma InsideNeverCovers(ds: seq<Mask>, n: nat, outside: Mask)
    requires IsHeader(outside, n) && !InAny(outside, ds)
    ensures NoPrefixCovers(Plain(ds), n)
  {
    hide In;
    forall k | 0 <= k < |ds| ensures !CoversAll(Plain(ds)[..k], n) {
      PlainHas(outside, ds);
      HasSubset(outside, Plain(ds)[..k], Plain(ds));
    }
  }
}
