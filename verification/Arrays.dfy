/** The operations of src/header_space/array.c on the words of masks. */
module Arrays {
  import opened Words
  import opened Masks

  // --- array_is_sub, array_isect ---

  method IsSub(a: array<Word>, b: array<Word>) returns (sub: bool)
    requires a.Length == b.Length
    ensures sub <==> In(b[..], a[..])
    ensures NoZ(b[..]) ==>
              (sub <==> forall h | IsHeader(h, a.Length) && In(h, b[..]) :: In(h, a[..]))
  {
    if NoZ(b[..]) { InIsInclusion(b[..], a[..]); }
    for i := 0 to a.Length
      invariant forall k | 0 <= k < i :: Extra(b[k], a[k]) == 0
    {
      if Extra(b[i], a[i]) != 0 {
        assert Extra(b[..][i], a[..][i]) != 0;
        return false;
      }
    }
    return true;
  }

  /** Writes a & b to res, which may be one of the inputs; false when a z appears. */
  method Isect(a: array<Word>, b: array<Word>, res: array<Word>) returns (ok: bool)
    requires a.Length == b.Length == res.Length
    modifies res
    ensures ok <==> NoZ(Meet(old(a[..]), old(b[..])))
    ensures ok ==> res[..] == Meet(old(a[..]), old(b[..]))
    ensures ok <==> exists h :: IsHeader(h, res.Length) && In(h, old(a[..])) && In(h, old(b[..]))
  {
    hide And, HasZ;
    ghost var a0, b0 := a[..], b[..];
    ghost var m := Meet(a0, b0);
    IsectNonempty(a0, b0);
    for i := 0 to a.Length
      invariant forall k | 0 <= k < i :: res[k] == m[k] && !HasZ(m[k])
      invariant forall k | i <= k < a.Length :: a[k] == a0[k] && b[k] == b0[k]
    {
      res[i] := And(a[i], b[i]);
      if HasZ(res[i]) {
        assert HasZ(m[i]);
        return false;
      }
    }
    return true;
  }

  /** The intersection has no z exactly when some header lies in both masks. */
  lemma IsectNonempty(a: Mask, b: Mask)
    requires |a| == |b|
    ensures NoZ(Meet(a, b)) <==> exists h :: IsHeader(h, |a|) && In(h, a) && In(h, b)
  {
    var m := Meet(a, b);
    if NoZ(m) {
      PickHeaderIn(m);
      InMeet(PickHeader(m), a, b);
    }
    if h :| IsHeader(h, |a|) && In(h, a) && In(h, b) {
      InMeet(h, a, b);
      HeaderMeansNoZ(h, m);
    }
  }

  // --- array_one_bit_subtract ---

  /** How many bits of the first k words of b lie outside a. */
  function MissCount(a: Mask, b: Mask, k: nat): nat
    requires |a| == |b| && k <= |a|
  {
    if k == 0 then 0 else MissCount(a, b, k - 1) + PopCount(Extra(b[k - 1], a[k - 1]))
  }

  function FixWord(b: Word, d: Word): Word { And(b, !Swap(d)) }

  /** b with every position that misses a fixed to the value a lacks. */
  function SubtractBit(a: Mask, b: Mask): (r: Mask)
    requires |a| == |b|
    ensures |r| == |b|
  {
    seq(|b|, i requires 0 <= i < |b| => FixWord(b[i], Extra(b[i], a[i])))
  }

  lemma {:induction false} MissCountZero(a: Mask, b: Mask, k: nat)
    requires |a| == |b| && k <= |a|
    ensures MissCount(a, b, k) == 0 <==> forall i | 0 <= i < k :: Extra(b[i], a[i]) == 0
  {
    hide Extra, PopCount;
    if k > 0 {
      MissCountZero(a, b, k - 1);
      PopCountZero(Extra(b[k - 1], a[k - 1]));
    }
  }

  lemma {:induction false} MissCountOne(a: Mask, b: Mask, k: nat) returns (p: nat)
    requires |a| == |b| && k <= |a| && MissCount(a, b, k) == 1
    ensures p < k && SingleBit(Extra(b[p], a[p]))
    ensures forall i | 0 <= i < k && i != p :: Extra(b[i], a[i]) == 0
  {
    hide Extra, PopCount, SingleBit;
    var d := Extra(b[k - 1], a[k - 1]);
    PopCountZero(d);
    PopCountSingle(d);
    MissCountZero(a, b, k - 1);
    if d == 0 {
      p := MissCountOne(a, b, k - 1);
    } else {
      p := k - 1;
    }
  }

  lemma MissCountMono(a: Mask, b: Mask, j: nat, k: nat)
    requires |a| == |b| && j <= k <= |a|
    ensures MissCount(a, b, j) <= MissCount(a, b, k)
  {}

  lemma FixWordZero(b: Word, d: Word)
    requires d == 0
    ensures FixWord(b, d) == b
  {}

  /** When a misses a single bit of b, fixing that position removes exactly a. */
  lemma SubtractBitIsDifference(a: Mask, b: Mask, pad: Mask)
    requires IsMask(a, pad) && IsMask(b, pad) && IsPad(pad)
    requires MissCount(a, b, |a|) == 1
    ensures IsMask(SubtractBit(a, b), pad)
    ensures forall h | IsHeader(h, |pad|) :: In(h, SubtractBit(a, b)) <==> In(h, b) && !In(h, a)
    ensures In(SubtractBit(a, b), b)
  {
    hide Extra, And, Swap, HasZ, Exact, SingleBit, FixWord;
    var p := MissCountOne(a, b, |a|);
    var c := SubtractBit(a, b);
    forall i | 0 <= i < |a| && i != p ensures c[i] == b[i] {
      FixWordZero(b[i], Extra(b[i], a[i]));
    }
    FixWordMask(a[p], b[p], pad[p]);
    forall h | IsHeader(h, |pad|)
      ensures In(h, c) <==> In(h, b) && !In(h, a)
    {
      FixWordMember(h[p], a[p], b[p]);
      if In(h, b) {
        forall i | 0 <= i < |a| && i != p ensures Extra(h[i], a[i]) == 0 {
          ExtraTrans(h[i], a[i], b[i]);
        }
      }
      if In(h, c) {
        assert Extra(h[p], c[p]) == 0;
        forall i | 0 <= i < |a| ensures Extra(h[i], b[i]) == 0 {
          if i != p { assert Extra(h[i], c[i]) == 0; }
        }
      }
    }
    forall i | 0 <= i < |a| ensures Extra(c[i], b[i]) == 0 {
      if i != p { ExtraSelf(b[i]); }
    }
  }

  lemma ExtraSelf(b: Word)
    ensures Extra(b, b) == 0
  {}

  lemma FixWordMember(h: Word, a: Word, b: Word)
    requires Exact(h) && SingleBit(Extra(b, a))
    ensures Extra(h, FixWord(b, Extra(b, a))) == 0 <==> Extra(h, b) == 0 && Extra(h, a) != 0
  {
    hide *;
    FixWordMeet(h, b, Extra(b, a));
    FixPosition(h, Extra(b, a));
    if Extra(h, b) == 0 { ExtraSplit(h, a, b); }
  }

  lemma FixWordMeet(h: Word, b: Word, d: Word)
    ensures Extra(h, FixWord(b, d)) == 0 <==> Extra(h, b) == 0 && Extra(h, !Swap(d)) == 0
  {
    hide Extra, And, Swap;
    ExtraMeet(h, b, !Swap(d));
  }

  lemma FixWordMask(a: Word, b: Word, p: Word)
    requires !HasZ(b) && SingleBit(Extra(b, a)) && Extra(p, a) == 0 && Extra(p, b) == 0 && Swap(p) == p
    ensures !HasZ(FixWord(b, Extra(b, a))) && Extra(p, FixWord(b, Extra(b, a))) == 0
    ensures Extra(FixWord(b, Extra(b, a)), b) == 0
  {
    hide *;
    ExtraOutside(a, b, p);
    FixWordNoZ(b, Extra(b, a));
    FixWordPad(b, Extra(b, a), p);
    FixWordShrinks(b, Extra(b, a));
  }

  lemma FixWordNoZ(b: Word, d: Word)
    requires !HasZ(b) && SingleBit(d) && Extra(d, b) == 0
    ensures !HasZ(FixWord(b, d))
  {
    hide HasZ, SingleBit, Extra, And, Swap;
    FixKeepsNoZ(b, d);
  }

  lemma FixWordPad(b: Word, d: Word, p: Word)
    requires Extra(p, b) == 0 && Swap(p) == p && d & p == 0
    ensures Extra(p, FixWord(b, d)) == 0
  {
    hide *;
    SwapOutside(d, p);
    FixWordMeet(p, b, d);
  }

  lemma FixWordShrinks(b: Word, d: Word)
    ensures Extra(FixWord(b, d), b) == 0
  {}

  lemma ExtraOutside(a: Word, b: Word, p: Word)
    requires Extra(p, a) == 0
    ensures Extra(b, a) & p == 0 && Extra(Extra(b, a), b) == 0
  {}

  /** The word b with the partner of the single bit d cleared, as the code writes it. */
  function ClearPartner(b: Word, d: Word): Word
  {
    if d & EVEN_MASK != 0 then b & !(d >> 1) else b & !(d << 1)
  }

  lemma ClearPartnerIsFix(b: Word, d: Word)
    requires SingleBit(d)
    ensures ClearPartner(b, d) == FixWord(b, d)
  {
    hide SingleBit, Swap;
    SingleHalf(d);
    if d & EVEN_MASK != 0 { SwapEven(d); } else { SwapOdd(d); }
  }

  lemma SwapEven(d: Word)
    requires d & ODD_MASK == 0
    ensures Swap(d) == d >> 1
  {}

  lemma SwapOdd(d: Word)
    requires d & EVEN_MASK == 0
    ensures Swap(d) == d << 1
  {}

  /** The counting loop. It stops early: a total above 1 is only a lower bound. */
  method CountMisses(a: array<Word>, b: array<Word>) returns (total: nat, diffs: seq<Word>)
    requires a.Length == b.Length
    ensures total <= MissCount(a[..], b[..], a.Length)
    ensures total <= 1 ==> total == MissCount(a[..], b[..], a.Length)
    ensures total <= 1 ==> |diffs| == a.Length && forall k | 0 <= k < a.Length :: diffs[k] == Extra(b[k], a[k])
  {
    hide Extra, PopCount;
    total, diffs := 0, [];
    for i := 0 to a.Length
      invariant total == MissCount(a[..], b[..], i) && total <= 1
      invariant |diffs| == i && forall k | 0 <= k < i :: diffs[k] == Extra(b[k], a[k])
    {
      diffs := diffs + [Extra(b[i], a[i])];
      total := total + PopCount(diffs[i]);
      MissCountMono(a[..], b[..], i + 1, a.Length);
      if total > 1 { return; }
    }
  }

  /** Shrinks b in place when exactly one of its bits lies outside a. */
  method OneBitSubtract(a: array<Word>, b: array<Word>) returns (total: nat)
    requires a.Length == b.Length && a != b
    modifies b
    ensures total <= MissCount(a[..], old(b[..]), a.Length)
    ensures total <= 1 ==> total == MissCount(a[..], old(b[..]), a.Length)
    ensures b[..] == if total == 1 then SubtractBit(a[..], old(b[..])) else old(b[..])
  {
    hide Extra, PopCount, FixWord, ClearPartner, MissCount;
    var diffs;
    total, diffs := CountMisses(a, b);
    if total == 1 {
      ghost var b0 := b[..];
      ghost var p := MissCountOne(a[..], b0, a.Length);
      ClearPartnerIsFix(b0[p], diffs[p]);
      ghost var c := SubtractBit(a[..], b0);
      for i := 0 to a.Length
        invariant forall k | 0 <= k < i :: b[k] == c[k]
        invariant forall k | i <= k < a.Length :: b[k] == b0[k]
      {
        if diffs[i] != 0 {
          b[i] := ClearPartner(b[i], diffs[i]);
        } else {
          FixWordZero(b0[i], diffs[i]);
        }
      }
    }
  }

  // --- array_cmpl, array_diff ---

  /** The all-x mask of n words with the position of bit l in word i fixed to l. */
  function FixBit(n: nat, i: nat, l: Word): Mask
    requires i < n
  {
    AllX(n)[i := !Swap(l)]
  }

  function ZeroBits(a: Mask, k: nat): nat
    requires k <= |a|
  {
    if k == 0 then 0 else ZeroBits(a, k - 1) + PopCount(Not(a[k - 1]))
  }

  predicate MissesBefore(h: Mask, a: Mask, k: nat)
    requires |h| == |a| && k <= |a|
  {
    exists i | 0 <= i < k :: Extra(h[i], a[i]) != 0
  }

  lemma FixBitMember(h: Mask, n: nat, i: nat, l: Word)
    requires IsHeader(h, n) && i < n && SingleBit(l)
    ensures In(h, FixBit(n, i, l)) <==> And(h[i], l) != 0
  {
    hide Extra, Exact, Swap, Clear;
    FixBitHit(h[i], l);
    var m := FixBit(n, i, l);
    forall k | 0 <= k < n && k != i ensures Extra(h[k], m[k]) == 0 { ExtraAll(h[k]); }
  }

  lemma FixBitHit(h: Word, l: Word)
    requires Exact(h) && SingleBit(l)
    ensures Extra(h, !Swap(l)) == 0 <==> And(h, l) != 0
  {
    hide Extra, Exact, Swap, SingleBit;
    FixPosition(h, l);
  }

  lemma ExtraAll(h: Word)
    ensures Extra(h, !0) == 0
  {}

  lemma FixBitIsMask(pad: Mask, i: nat, l: Word)
    requires IsPad(pad) && i < |pad| && SingleBit(l) && l & pad[i] == 0
    ensures IsMask(FixBit(|pad|, i, l), pad)
  {
    hide Extra, SingleBit, Swap, HasZ;
    FixAllNoZ(l);
    SwapOutside(l, pad[i]);
    var m := FixBit(|pad|, i, l);
    forall k | 0 <= k < |pad| && k != i ensures !HasZ(m[k]) && Extra(pad[k], m[k]) == 0 {
      ExtraAll(pad[k]);
      AllNoZ();
    }
  }

  lemma AllNoZ()
    ensures !HasZ(!0)
  {}

  lemma FixAllNoZ(l: Word)
    requires SingleBit(l)
    ensures !HasZ(!Swap(l))
  {
    AllNoZ();
    FixKeepsNoZ(!0, l);
    assert And(!0, !Swap(l)) == !Swap(l);
  }

  lemma AndOr(h: Word, u: Word, v: Word)
    ensures And(h, Or(u, v)) == 0 <==> And(h, u) == 0 && And(h, v) == 0
  {
    hide *;
    if And(h, Or(u, v)) == 0 { AndOrOut(h, u, v); }
    if And(h, u) == 0 && And(h, v) == 0 { AndOrIn(h, u, v); }
  }

  lemma AndOrIn(h: Word, u: Word, v: Word)
    requires And(h, u) == 0 && And(h, v) == 0
    ensures And(h, Or(u, v)) == 0
  {}

  lemma AndOrOut(h: Word, u: Word, v: Word)
    requires And(h, Or(u, v)) == 0
    ensures And(h, u) == 0 && And(h, v) == 0
  {}

  lemma MissesStep(h: Mask, a: Mask, k: nat)
    requires |h| == |a| && k < |a|
    ensures MissesBefore(h, a, k + 1) <==> MissesBefore(h, a, k) || Extra(h[k], a[k]) != 0
  {}

  lemma InAnyAppend(h: Mask, ms: seq<Mask>, m: Mask)
    ensures InAny(h, ms + [m]) <==> InAny(h, ms) || In(h, m)
  {
    hide In;
    var r := ms + [m];
    if InAny(h, ms) {
      var k :| 0 <= k < |ms| && In(h, ms[k]);
      assert r[k] == ms[k];
    }
    if In(h, m) { assert r[|ms|] == m; }
  }

  /** One step of the inner loop: the mask for the next bit l of word i. */
  lemma CmplStep(h: Mask, n: nat, i: nat, done: Word, l: Word, ms0: seq<Mask>, ms: seq<Mask>)
    requires IsHeader(h, n) && i < n && SingleBit(l)
    requires InAny(h, ms) <==> InAny(h, ms0) || And(h[i], done) != 0
    ensures InAny(h, ms + [FixBit(n, i, l)]) <==> InAny(h, ms0) || And(h[i], Or(done, l)) != 0
  {
    hide Extra, Swap, In, InAny, Exact, And, Or, FixBit, Clear;
    FixBitMember(h, n, i, l);
    InAnyAppend(h, ms, FixBit(n, i, l));
    AndOr(h[i], done, l);
  }

  lemma CmplBits(a: Word, pad: Word, done: Word, cur: Word)
    requires Or(done, cur) == Not(a) && Extra(pad, a) == 0
    ensures Or(Or(done, Lowest(cur)), Clear(cur)) == Not(a) && Lowest(cur) & pad == 0
  {
    hide Lowest, Clear, Or, Extra;
    LowestSplits(cur);
    OrAssoc(done, Lowest(cur), Clear(cur));
    PadOutside(a, pad, done, cur);
    LowestOutside(cur, pad);
  }

  lemma OrAssoc(u: Word, v: Word, w: Word)
    ensures Or(Or(u, v), w) == Or(u, Or(w, v))
  {}

  lemma PadOutside(a: Word, pad: Word, done: Word, cur: Word)
    requires Or(done, cur) == Not(a) && Extra(pad, a) == 0
    ensures cur & pad == 0
  {}

  lemma LowestOutside(cur: Word, pad: Word)
    requires cur & pad == 0
    ensures Lowest(cur) & pad == 0
  {}

  lemma HitsComplement(h: Word, a: Word)
    ensures And(h, Not(a)) == Extra(h, a)
  {
    var b := !a;
    assert And(h, b) == Extra(h, a);
    assert b == Not(a);
  }

  /** The inner loop of the complement: one mask for every bit missing from word i of a. */
  method CmplWord(a: Mask, i: nat, ms0: seq<Mask>, ghost pad: Mask) returns (ms: seq<Mask>)
    requires IsPad(pad) && IsMask(a, pad) && AreMasks(ms0, pad) && i < |a|
    ensures AreMasks(ms, pad) && |ms| == |ms0| + PopCount(Not(a[i]))
    ensures forall h | IsHeader(h, |pad|) :: InAny(h, ms) <==> InAny(h, ms0) || Extra(h[i], a[i]) != 0
  {
    hide Extra, Clear, Lowest, SingleBit, In, InAny, And, Or, Not, PopCount, FixBit, IsMask, IsPad, IsHeader;
    LengthOfMask(a, pad);
    ms := ms0;
    var cur := Not(a[i]);
    ghost var done: Word := 0;
    NothingDone(cur, i, |pad|);
    while cur != 0
      invariant Or(done, cur) == Not(a[i])
      invariant AreMasks(ms, pad) && |ms| + PopCount(cur) == |ms0| + PopCount(Not(a[i]))
      invariant forall h | IsHeader(h, |pad|) :: |h| == |pad| && (InAny(h, ms) <==> InAny(h, ms0) || And(h[i], done) != 0)
      decreases PopCount(cur)
    {
      var bit := Lowest(cur);
      LowestSingle(cur);
      PopCountClear(cur);
      PadOfMask(a, pad, i);
      CmplBits(a[i], pad[i], done, cur);
      FixBitIsMask(pad, i, bit);
      var m := FixBit(|a|, i, bit);
      forall h | IsHeader(h, |pad|)
        ensures |h| == |pad| && (InAny(h, ms + [m]) <==> InAny(h, ms0) || And(h[i], Or(done, bit)) != 0)
      {
        CmplStep(h, |a|, i, done, bit, ms0, ms);
      }
      ms := ms + [m];
      done := Or(done, bit);
      cur := Clear(cur);
    }
    PopCountZero(cur);
    AllDone(done, cur);
    forall h | IsHeader(h, |pad|) ensures And(h[i], done) == Extra(h[i], a[i]) {
      HitsComplement(h[i], a[i]);
    }
  }

  /** The complement of a: one mask for every bit that a does not allow. */
  method Cmpl(a: Mask, ghost pad: Mask) returns (res: seq<Mask>)
    requires IsPad(pad) && IsMask(a, pad)
    ensures AreMasks(res, pad)
    ensures forall h | IsHeader(h, |pad|) :: InAny(h, res) <==> !In(h, a)
    ensures |res| == ZeroBits(a, |a|)
  {
    hide Extra, In, InAny, PopCount, MissesBefore, IsHeader, IsMask;
    LengthOfMask(a, pad);
    res := [];
    CmplStart(a);
    for i := 0 to |a|
      invariant AreMasks(res, pad) && |res| == ZeroBits(a, i)
      invariant forall h | IsHeader(h, |pad|) :: |h| == |a| && (InAny(h, res) <==> MissesBefore(h, a, i))
    {
      forall h | IsHeader(h, |pad|)
        ensures |h| == |a| && (MissesBefore(h, a, i + 1) <==> MissesBefore(h, a, i) || Extra(h[i], a[i]) != 0)
      {
        MissesStep(h, a, i);
      }
      res := CmplWord(a, i, res, pad);
    }
    CmplEnd(a);
  }

  lemma CmplStart(a: Mask)
    ensures forall h | IsHeader(h, |a|) :: |h| == |a| && !MissesBefore(h, a, 0) && !InAny(h, [])
  {}

  lemma CmplEnd(a: Mask)
    ensures forall h | |h| == |a| :: MissesBefore(h, a, |a|) <==> !In(h, a)
  {
    hide Extra;
  }

  lemma NothingDone(cur: Word, i: nat, n: nat)
    requires i < n
    ensures Or(0, cur) == cur && forall h | IsHeader(h, n) :: |h| == n && And(h[i], 0) == 0
  {}

  lemma AllDone(done: Word, cur: Word)
    requires cur == 0
    ensures Or(done, cur) == done
  {}

  /** a without b: the complement of b filtered in place by its intersection with a. */
  method Diff(a: Mask, b: Mask, ghost pad: Mask) returns (res: seq<Mask>)
    requires IsPad(pad) && IsMask(a, pad) && IsMask(b, pad)
    ensures AreMasks(res, pad)
    ensures forall h | IsHeader(h, |pad|) :: InAny(h, res) <==> In(h, a) && !In(h, b)
  {
    hide Extra, HasZ, In, And, IsMask;
    var cmpl := Cmpl(b, pad);
    res := cmpl;
    var n := 0;
    for i := 0 to |cmpl|
      invariant n <= i && |res| == |cmpl| && AreMasks(res, pad)
      invariant res[i..] == cmpl[i..]
      invariant forall h | IsHeader(h, |pad|) :: InAny(h, res[..n]) <==> In(h, a) && InAny(h, cmpl[..i])
    {
      assert res[i] == res[i..][0] == cmpl[i..][0] == cmpl[i];
      LengthOfMask(a, pad);
      LengthOfMask(cmpl[i], pad);
      var m := Meet(a, res[i]);
      forall h | IsHeader(h, |pad|)
        ensures InAny(h, cmpl[..i + 1]) <==> InAny(h, cmpl[..i]) || In(h, cmpl[i])
        ensures In(h, m) <==> In(h, a) && In(h, cmpl[i])
        ensures InAny(h, res[..n] + [m]) <==> InAny(h, res[..n]) || In(h, m)
        ensures In(h, m) ==> NoZ(m)
      {
        assert |h| == |pad|;
        assert cmpl[..i + 1] == cmpl[..i] + [cmpl[i]];
        InAnyAppend(h, cmpl[..i], cmpl[i]);
        InMeet(h, a, cmpl[i]);
        InAnyAppend(h, res[..n], m);
        if In(h, m) { HeaderMeansNoZ(h, m); }
      }
      if NoZ(m) {
        MeetIsMask(a, res[i], pad);
        res := res[n := m];
        n := n + 1;
        assert res[..n] == res[..n - 1] + [m];
      }
    }
    assert cmpl[..|cmpl|] == cmpl;
    res := res[..n];
  }

  lemma PadOfMask(m: Mask, pad: Mask, i: nat)
    requires IsMask(m, pad) && i < |m|
    ensures |m| == |pad| && Extra(pad[i], m[i]) == 0
  {}

  lemma LengthOfMask(m: Mask, pad: Mask)
    requires IsMask(m, pad)
    ensures |m| == |pad|
  {}
}
