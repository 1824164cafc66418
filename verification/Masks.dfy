/** Ternary masks (src/header_space/array.c).

    A mask stands for the set of concrete headers it covers. Headers are packed
    like masks, so a header lies in a mask exactly when the mask covers it. */
module Masks {
  import opened Words

  type Mask = seq<Word>

  /** h is one concrete header of n words. */
  predicate IsHeader(h: Mask, n: nat)
  {
    |h| == n && forall i | 0 <= i < n :: Exact(h[i])
  }

  /** pad marks the positions of the last words that lie beyond the header. */
  predicate IsPad(pad: Mask)
  {
    forall i | 0 <= i < |pad| :: Swap(pad[i]) == pad[i]
  }

  /** No position of m is z and the padding is x, as array_create leaves it. */
  predicate IsMask(m: Mask, pad: Mask)
  {
    |m| == |pad| && forall i | 0 <= i < |m| :: !HasZ(m[i]) && Extra(pad[i], m[i]) == 0
  }

  predicate AreMasks(ms: seq<Mask>, pad: Mask)
  {
    forall k | 0 <= k < |ms| :: IsMask(ms[k], pad)
  }

  predicate NoZ(m: Mask)
  {
    forall i | 0 <= i < |m| :: !HasZ(m[i])
  }

  /** The padding of a header of len bytes: four bytes to a word. */
  function PadFor(len: nat): (pad: Mask)
    ensures IsPad(pad) && |pad| == (2 * len + 7) / 8
  {
    seq((2 * len + 7) / 8, i => if 4 * (i + 1) <= len then 0 else LastPad(len % 4))
  }

  function LastPad(bytes: nat): (w: Word)
    ensures Swap(w) == w
  {
    match bytes
    case 1 => 0xffffffffffff0000
    case 2 => 0xffffffff00000000
    case 3 => 0xffff000000000000
    case _ => 0
  }

  function ByteOf(w: Word, k: nat): Word
    requires k < 8
  {
    (w >> (8 * k)) & 0xff
  }

  lemma LastPadBytes(bytes: nat, k: nat)
    requires 0 < bytes < 4 && k < 8
    ensures ByteOf(LastPad(bytes), k) == if k < 2 * bytes then 0 else 0xff
  {
    match bytes
    case 1 => assert k == 0 || k == 1 || k == 2 || k == 3 || k == 4 || k == 5 || k == 6 || k == 7;
    case 2 => assert k == 0 || k == 1 || k == 2 || k == 3 || k == 4 || k == 5 || k == 6 || k == 7;
    case 3 => assert k == 0 || k == 1 || k == 2 || k == 3 || k == 4 || k == 5 || k == 6 || k == 7;
  }

  /** The bytes of the array are padding exactly from byte 2 * len on. */
  lemma PadBytes(len: nat, b: nat)
    requires b / 8 < |PadFor(len)|
    ensures ByteOf(PadFor(len)[b / 8], b % 8) == if b < 2 * len then 0 else 0xff
  {
    hide LastPad;
    var i := b / 8;
    if 4 * (i + 1) <= len {
      NoBytes(b % 8);
    } else {
      assert 0 < len % 4 < 4 && len == 4 * i + len % 4;
      LastPadBytes(len % 4, b % 8);
    }
  }

  lemma NoBytes(k: nat)
    requires k < 8
    ensures ByteOf(0, k) == 0
  {
    assert k == 0 || k == 1 || k == 2 || k == 3 || k == 4 || k == 5 || k == 6 || k == 7;
  }

  /** Every bit of b is allowed by a; for a header b, membership in a. */
  predicate In(b: Mask, a: Mask)
  {
    |b| == |a| && forall i | 0 <= i < |a| :: Extra(b[i], a[i]) == 0
  }

  /** b lies in one of the masks. */
  predicate InAny(b: Mask, ms: seq<Mask>)
  {
    exists k | 0 <= k < |ms| :: In(b, ms[k])
  }

  function Meet(a: Mask, b: Mask): Mask
    requires |a| == |b|
  {
    seq(|a|, i requires 0 <= i < |a| => And(a[i], b[i]))
  }

  function AllX(n: nat): Mask
  {
    seq(n, i => !0)
  }

  // --- membership, coverage and intersection ---

  lemma InTrans(h: Mask, b: Mask, a: Mask)
    requires In(h, b) && In(b, a)
    ensures In(h, a)
  {
    hide Extra;
    forall i | 0 <= i < |a| ensures Extra(h[i], a[i]) == 0 {
      ExtraTrans(h[i], a[i], b[i]);
    }
  }

  /** Coverage of masks is inclusion of the sets they stand for. */
  lemma InIsInclusion(b: Mask, a: Mask)
    requires NoZ(b) && |a| == |b|
    ensures In(b, a) <==> forall h | IsHeader(h, |b|) && In(h, b) :: In(h, a)
  {
    if In(b, a) {
      forall h | IsHeader(h, |b|) && In(h, b) ensures In(h, a) { InTrans(h, b, a); }
    } else {
      var h := SeparateMasks(b, a);
    }
  }

  function PickHeader(m: Mask): Mask
  {
    seq(|m|, i requires 0 <= i < |m| => Pick(m[i]))
  }

  /** A mask without z is never empty. */
  lemma PickHeaderIn(m: Mask)
    requires NoZ(m)
    ensures IsHeader(PickHeader(m), |m|) && In(PickHeader(m), m)
  {
    hide Extra, Exact, HasZ, Pick;
    forall i | 0 <= i < |m| ensures Exact(Pick(m[i])) && Extra(Pick(m[i]), m[i]) == 0 {
      PickExact(m[i]);
    }
  }

  /** A mask that is not covered by a has a header outside a. */
  lemma SeparateMasks(b: Mask, a: Mask) returns (h: Mask)
    requires NoZ(b) && |a| == |b| && !In(b, a)
    ensures IsHeader(h, |b|) && In(h, b) && !In(h, a)
  {
    hide Extra, Exact, HasZ, Pick;
    var k :| 0 <= k < |b| && Extra(b[k], a[k]) != 0;
    var w := Separate(a[k], b[k]);
    PickHeaderIn(b);
    h := PickHeader(b)[k := w];
    assert Extra(h[k], a[k]) != 0;
  }

  /** Only a mask without z can hold a header. */
  lemma HeaderMeansNoZ(h: Mask, m: Mask)
    requires IsHeader(h, |m|) && In(h, m)
    ensures NoZ(m)
  {
    hide Extra, Exact, HasZ;
    forall i | 0 <= i < |m| ensures !HasZ(m[i]) { ExactMeansNoZ(h[i], m[i]); }
  }

  lemma InMeet(h: Mask, a: Mask, b: Mask)
    requires |a| == |b|
    ensures In(h, Meet(a, b)) <==> In(h, a) && In(h, b)
  {
    hide Extra, And;
    if |h| == |a| {
      forall i | 0 <= i < |a|
        ensures Extra(h[i], Meet(a, b)[i]) == 0 <==> Extra(h[i], a[i]) == 0 && Extra(h[i], b[i]) == 0
      {
        ExtraMeet(h[i], a[i], b[i]);
      }
    }
  }

  lemma MeetIsMask(a: Mask, b: Mask, pad: Mask)
    requires IsMask(a, pad) && IsMask(b, pad) && NoZ(Meet(a, b))
    ensures IsMask(Meet(a, b), pad)
  {
    hide Extra, And, HasZ;
    forall i | 0 <= i < |pad| ensures Extra(pad[i], Meet(a, b)[i]) == 0 {
      ExtraMeet(pad[i], a[i], b[i]);
    }
  }

  lemma AllXIsMask(pad: Mask)
    ensures IsMask(AllX(|pad|), pad)
    ensures forall h | IsHeader(h, |pad|) :: In(h, AllX(|pad|))
  {}
}
