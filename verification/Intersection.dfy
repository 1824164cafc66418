/** Intersection and difference of term lists (vec_diff, vec_isect_a and hs_diff of
    src/header_space/hs.c). Both are exact. */
module Intersection {
  import opened Words
  import opened Masks
  import opened HeaderLists
  import Arrays

  predicate DiffsInside(ts: seq<Term>)
  {
    forall i, d | 0 <= i < |ts| && d in ts[i].diffs :: In(d, ts[i].mask)
  }

  lemma MeetInside(a: Mask, b: Mask)
    requires |a| == |b|
    ensures In(Meet(a, b), a) && In(Meet(a, b), b)
  {
    hide Extra, And;
    forall i | 0 <= i < |a| ensures Extra(And(a[i], b[i]), a[i]) == 0 && Extra(And(a[i], b[i]), b[i]) == 0 {
      AndShrinks(a[i], b[i]);
    }
  }

  lemma AndShrinks(a: Word, b: Word)
    ensures Extra(And(a, b), a) == 0 && Extra(And(a, b), b) == 0
  {}

  /** The part of each mask that lies in isect, without the empty ones. */
  method VecDiff(dst: seq<Mask>, isect: Mask, src: seq<Mask>, ghost pad: Mask) returns (r: seq<Mask>)
    requires IsMask(isect, pad) && AreMasks(src, pad) && AreMasks(dst, pad)
    requires forall d | d in dst :: In(d, isect)
    ensures AreMasks(r, pad) && (forall d | d in r :: In(d, isect)) && (src == [] ==> r == dst)
    ensures forall h | IsHeader(h, |pad|) && In(h, isect) :: InAny(h, r) <==> InAny(h, dst) || InAny(h, src)
  {
    hide In, And, Extra, HasZ, Exact;
    r := dst;
    for i := 0 to |src|
      invariant AreMasks(r, pad) && forall d | d in r :: In(d, isect)
      invariant i == 0 ==> r == dst
      invariant forall h | IsHeader(h, |pad|) && In(h, isect) ::
                  InAny(h, r) <==> InAny(h, dst) || InAny(h, src[..i])
    {
      var m := Meet(isect, src[i]);
      MeetInside(isect, src[i]);
      forall h | IsHeader(h, |pad|) && In(h, isect)
        ensures InAny(h, r + [m]) <==> InAny(h, r) || In(h, src[i])
        ensures In(h, src[i]) ==> NoZ(m)
        ensures InAny(h, src[..i + 1]) <==> InAny(h, src[..i]) || In(h, src[i])
      {
        InMeet(h, isect, src[i]);
        Arrays.InAnyAppend(h, r, m);
        if In(h, m) { HeaderMeansNoZ(h, m); }
        assert src[..i + 1] == src[..i] + [src[i]];
        Arrays.InAnyAppend(h, src[..i], src[i]);
      }
      if NoZ(m) {
        MeetIsMask(isect, src[i], pad);
        r := r + [m];
      }
    }
    assert src[..|src|] == src;
  }

  /** One pair of elements of the intersection. */
  method TermIsect(a: Term, b: Term, ghost pad: Mask) returns (r: seq<Term>)
    requires IsPad(pad) && IsTerm(a, pad) && IsTerm(b, pad)
    ensures AreTerms(r, pad) && |r| <= 1 && DiffsInside(r)
    ensures a.diffs == [] && b.diffs == [] ==> NoDiffs(r)
    ensures forall h | IsHeader(h, |pad|) :: Has(h, r) <==> TermHas(h, a) && TermHas(h, b)
    ensures forall i | 0 <= i < |r| :: In(r[i].mask, a.mask) && In(r[i].mask, b.mask)
  {
    hide In, InAny, And, Extra, HasZ, Exact, IsPad;
    var m := Meet(a.mask, b.mask);
    MeetInside(a.mask, b.mask);
    forall h | IsHeader(h, |pad|)
      ensures In(h, m) <==> In(h, a.mask) && In(h, b.mask)
      ensures In(h, m) ==> NoZ(m)
    {
      InMeet(h, a.mask, b.mask);
      if In(h, m) { HeaderMeansNoZ(h, m); }
    }
    if NoZ(m) {
      MeetIsMask(a.mask, b.mask, pad);
      var d := VecDiff([], m, a.diffs, pad);
      d := VecDiff(d, m, b.diffs, pad);
      r := [Term(m, d)];
      forall h | IsHeader(h, |pad|) ensures Has(h, r) <==> TermHas(h, a) && TermHas(h, b) {
        assert Has(h, r) <==> TermHas(h, r[0]);
        EmptyList(h);
      }
    } else {
      r := [];
    }
  }

  lemma EmptyList(h: Mask)
    ensures !InAny(h, []) && !Has(h, [])
  {}

  /** The intersection of two lists: every pair of elements. */
  method VecIsect(a: seq<Term>, b: seq<Term>, ghost pad: Mask) returns (r: seq<Term>)
    requires AreTerms(a, pad) && AreTerms(b, pad)
    ensures AreTerms(r, pad) && DiffsInside(r) && MasksInside(r, a) && MasksInside(r, b)
    ensures NoDiffs(a) && NoDiffs(b) ==> NoDiffs(r)
    ensures |a| <= 1 && |b| <= 1 ==> |r| <= 1
    ensures forall h | IsHeader(h, |pad|) :: Has(h, r) <==> Has(h, a) && Has(h, b)
  {
    hide TermHas, IsTerm, In, IsHeader;
    r := [];
    for i := 0 to |a|
      invariant AreTerms(r, pad) && DiffsInside(r) && MasksInside(r, a) && MasksInside(r, b) && (NoDiffs(a) && NoDiffs(b) ==> NoDiffs(r))
      invariant |b| <= 1 ==> |r| <= i
      invariant forall h | IsHeader(h, |pad|) :: Has(h, r) <==> Has(h, a[..i]) && Has(h, b)
    {
      ghost var r0 := r;
      forall h ensures Has(h, a[..i + 1]) <==> Has(h, a[..i]) || TermHas(h, a[i]) { HasPrefix(h, a, i); }
      for j := 0 to |b|
        invariant AreTerms(r, pad) && DiffsInside(r) && MasksInside(r, a) && MasksInside(r, b) && (NoDiffs(a) && NoDiffs(b) ==> NoDiffs(r))
        invariant |r| <= |r0| + j
        invariant forall h | IsHeader(h, |pad|) ::
                    Has(h, r) <==> Has(h, r0) || (TermHas(h, a[i]) && Has(h, b[..j]))
      {
        var t := TermIsect(a[i], b[j], pad);
        forall h
          ensures Has(h, b[..j + 1]) <==> Has(h, b[..j]) || TermHas(h, b[j])
          ensures Has(h, r + t) <==> Has(h, r) || Has(h, t)
        {
          HasPrefix(h, b, j);
          HasConcat(h, r, t);
        }
        r := r + t;
      }
      assert b[..|b|] == b;
    }
    assert a[..|a|] == a;
  }

  lemma HasPrefix(h: Mask, ts: seq<Term>, i: nat)
    requires i < |ts|
    ensures Has(h, ts[..i + 1]) <==> Has(h, ts[..i]) || TermHas(h, ts[i])
  {
    hide TermHas;
    assert ts[..i + 1] == ts[..i] + [ts[i]];
    HasConcat(h, ts[..i], [ts[i]]);
    assert Has(h, [ts[i]]) <==> TermHas(h, [ts[i]][0]);
  }

  /** t with the part of a inside it as a further diff. */
  function SubtractedTerm(t: Term, a: Mask): Term
  {
    if |t.mask| == |a| && NoZ(Meet(t.mask, a)) then Term(t.mask, t.diffs + [Meet(t.mask, a)]) else t
  }

  function SubtractedList(ts: seq<Term>, a: Mask): (r: seq<Term>)
    ensures |r| == |ts| && forall i | 0 <= i < |ts| :: r[i] == SubtractedTerm(ts[i], a)
  {
    seq(|ts|, i requires 0 <= i < |ts| => SubtractedTerm(ts[i], a))
  }

  /** hs_diff: subtracts one mask from every element. */
  method SubtractMask(ts: seq<Term>, a: Mask, ghost pad: Mask) returns (r: seq<Term>)
    requires AreTerms(ts, pad) && IsMask(a, pad)
    ensures r == SubtractedList(ts, a)
    ensures AreTerms(r, pad) && |r| == |ts|
    ensures forall i | 0 <= i < |ts| :: r[i].mask == ts[i].mask
    ensures forall i, h | 0 <= i < |ts| && IsHeader(h, |pad|) && In(h, ts[i].mask) ::
              InAny(h, r[i].diffs) <==> InAny(h, ts[i].diffs) || In(h, a)
    ensures forall i, d | 0 <= i < |r| && d in r[i].diffs :: d in ts[i].diffs || In(d, a)
    ensures DiffsInside(ts) ==> DiffsInside(r)
  {
    hide In, InAny, And, Extra, HasZ, Exact, IsPad;
    r := ts;
    for i := 0 to |ts|
      invariant AreTerms(r, pad) && |r| == |ts| && (DiffsInside(ts) ==> DiffsInside(r))
      invariant forall k | 0 <= k < |ts| :: r[k].mask == ts[k].mask
      invariant forall k | i <= k < |ts| :: r[k] == ts[k]
      invariant forall k | 0 <= k < i :: r[k] == SubtractedTerm(ts[k], a)
      invariant forall k, h | 0 <= k < i && IsHeader(h, |pad|) && In(h, ts[k].mask) ::
                  InAny(h, r[k].diffs) <==> InAny(h, ts[k].diffs) || In(h, a)
      invariant forall k, d | 0 <= k < i && d in r[k].diffs :: d in ts[k].diffs || In(d, a)
    {
      var m := Meet(ts[i].mask, a);
      MeetInside(ts[i].mask, a);
      forall h | IsHeader(h, |pad|) && In(h, ts[i].mask)
        ensures InAny(h, ts[i].diffs + [m]) <==> InAny(h, ts[i].diffs) || In(h, a)
        ensures In(h, a) ==> NoZ(m)
      {
        InMeet(h, ts[i].mask, a);
        Arrays.InAnyAppend(h, ts[i].diffs, m);
        if In(h, m) { HeaderMeansNoZ(h, m); }
      }
      if NoZ(m) {
        MeetIsMask(ts[i].mask, a, pad);
        r := r[i := Term(ts[i].mask, ts[i].diffs + [m])];
      }
    }
  }
}
