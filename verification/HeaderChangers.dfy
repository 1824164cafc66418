/** HeaderChanger of src/header_space/HeaderSpace.cpp on masks: array_rewrite, the
    constructor from a transfer mask, and composition. */
module HeaderChangers {
  import opened Words
  import opened RewriteWords
  import opened Masks
  import Arrays

  /** identity is set when no position is set. */
  datatype Changer = Changer(mask: Mask, rewrite: Mask, inverse: Mask, identity: bool)

  predicate FitMasks(mask: Mask, rewrite: Mask, pad: Mask)
  {
    |mask| == |rewrite| == |pad| && forall i | 0 <= i < |pad| :: Fits(mask[i], rewrite[i], pad[i])
  }

  /** rewrite has one value where the changer sets, inverse is x there. */
  predicate IsChanger(c: Changer, pad: Mask)
  {
    && FitMasks(c.mask, c.rewrite, pad) && FitMasks(c.mask, c.inverse, pad)
    && (forall i | 0 <= i < |pad| :: ExactWhenSet(c.rewrite[i], Keep(c.mask[i])))
    && (forall i | 0 <= i < |pad| :: Extra(Not(Keep(c.mask[i])), c.inverse[i]) == 0)
    && (c.identity ==> forall i | 0 <= i < |pad| :: Keep(c.mask[i]) == !0)
  }

  function RewriteMask(a: Mask, mask: Mask, rewrite: Mask): Mask
    requires |a| == |mask| == |rewrite|
  {
    seq(|a|, i requires 0 <= i < |a| => RewriteWord(a[i], mask[i], rewrite[i]))
  }

  function BlendMask(a: Mask, mask: Mask, r: Mask): Mask
    requires |a| == |mask| == |r|
  {
    seq(|a|, i requires 0 <= i < |a| => Blend(a[i], r[i], Keep(mask[i])))
  }

  /** The header that results when the changer is applied to header h. */
  function ApplyHeader(h: Mask, c: Changer): Mask
    requires |h| == |c.mask| == |c.rewrite|
  {
    BlendMask(h, c.mask, c.rewrite)
  }

  /** array_rewrite's result: the number of counted x positions in the first k words. */
  function XCount(a: Mask, mask: Mask, k: nat): nat
    requires |a| == |mask| && k <= |a|
  {
    if k == 0 then 0 else XCount(a, mask, k - 1) + PopCount(XCounted(a[k - 1], mask[k - 1]))
  }

  method ArrayRewrite(a: array<Word>, mask: Mask, rewrite: Mask) returns (n: nat)
    requires a.Length == |mask| == |rewrite|
    modifies a
    ensures n == XCount(old(a[..]), mask, a.Length)
    ensures a[..] == RewriteMask(old(a[..]), mask, rewrite)
  {
    hide XCounted, PopCount, RewriteWord;
    ghost var a0 := a[..];
    n := 0;
    for i := 0 to a.Length
      invariant n == XCount(a0, mask, i)
      invariant forall k | 0 <= k < i :: a[k] == RewriteWord(a0[k], mask[k], rewrite[k])
      invariant forall k | i <= k < a.Length :: a[k] == a0[k]
    {
      n := n + PopCount(XCounted(a[i], mask[i]));
      a[i] := RewriteWord(a[i], mask[i], rewrite[i]);
    }
  }

  lemma RewriteIsBlend(a: Mask, mask: Mask, rewrite: Mask, pad: Mask)
    requires IsMask(a, pad) && FitMasks(mask, rewrite, pad)
    ensures RewriteMask(a, mask, rewrite) == BlendMask(a, mask, rewrite)
    ensures IsMask(RewriteMask(a, mask, rewrite), pad)
  {
    hide Extra, HasZ, RewriteWord, Blend, Keep, Fits, Swap;
    forall i | 0 <= i < |pad|
      ensures RewriteWord(a[i], mask[i], rewrite[i]) == Blend(a[i], rewrite[i], Keep(mask[i]))
      ensures !HasZ(Blend(a[i], rewrite[i], Keep(mask[i])))
      ensures Extra(pad[i], Blend(a[i], rewrite[i], Keep(mask[i]))) == 0
    {
      RewriteBlends(a[i], mask[i], rewrite[i], pad[i]);
      FitsGives(mask[i], rewrite[i], pad[i]);
      KeepSymmetric(mask[i]);
      BlendNoZ(a[i], rewrite[i], Keep(mask[i]));
      BlendPad(a[i], rewrite[i], Keep(mask[i]), pad[i]);
    }
  }

  lemma FitsGives(mask: Word, rewrite: Word, pad: Word)
    requires Fits(mask, rewrite, pad)
    ensures !HasZ(rewrite) && Extra(pad, rewrite) == 0 && Extra(pad, Keep(mask)) == 0
    ensures Swap(pad) == pad
    ensures Extra(And(And(mask, ODD_MASK), Keep(mask)), pad) == 0
    ensures Extra(And(Not(Keep(mask)), ODD_MASK), mask) == 0
    ensures Extra(And(Keep(mask), ODD_MASK), rewrite) == 0
    ensures Extra(And(And(rewrite, EVEN_MASK), Keep(mask)), pad) == 0
  {
    hide HasZ, Swap, Keep, Extra, And, Not;
  }

  lemma ApplyIsHeader(h: Mask, c: Changer, pad: Mask)
    requires IsHeader(h, |pad|) && IsChanger(c, pad)
    ensures IsHeader(ApplyHeader(h, c), |pad|)
  {
    hide Extra, HasZ, Blend, Keep, Fits, Swap, ExactWhenSet, Exact;
    forall i | 0 <= i < |pad| ensures Exact(Blend(h[i], c.rewrite[i], Keep(c.mask[i]))) {
      KeepSymmetric(c.mask[i]);
      BlendExact(h[i], c.rewrite[i], Keep(c.mask[i]));
    }
  }

  // --- composition (operator*=) ---

  function AndMasks(m1: Mask, m2: Mask, pad: Mask): Mask
    requires |m1| == |m2| == |pad|
  {
    seq(|pad|, i requires 0 <= i < |pad| => AndMask(Keep(m1[i]), Keep(m2[i]), pad[i]))
  }

  function Compose(left: Changer, right: Changer, pad: Mask): Changer
    requires IsChanger(left, pad) && IsChanger(right, pad)
  {
    if left.identity then right
    else if right.identity then left
    else Changer(AndMasks(left.mask, right.mask, pad),
                 RewriteMask(left.rewrite, right.mask, right.rewrite),
                 RewriteMask(left.inverse, right.mask, right.inverse),
                 false)
  }

  lemma RewriteFits(m1: Mask, r1: Mask, m2: Mask, r2: Mask, pad: Mask)
    requires FitMasks(m1, r1, pad) && FitMasks(m2, r2, pad)
    ensures IsMask(r1, pad) && RewriteMask(r1, m2, r2) == BlendMask(r1, m2, r2)
    ensures FitMasks(AndMasks(m1, m2, pad), RewriteMask(r1, m2, r2), pad)
  {
    hide Extra, HasZ, RewriteWord, Blend, Keep, Fits, Swap, AndMask, And, Not;
    forall i | 0 <= i < |pad| ensures !HasZ(r1[i]) && Extra(pad[i], r1[i]) == 0 {
      FitsGives(m1[i], r1[i], pad[i]);
    }
    RewriteIsBlend(r1, m2, r2, pad);
    var m, r := AndMasks(m1, m2, pad), BlendMask(r1, m2, r2);
    forall i | 0 <= i < |pad| ensures Fits(m[i], r[i], pad[i]) {
      FitsGives(m1[i], r1[i], pad[i]);
      FitsGives(m2[i], r2[i], pad[i]);
      KeepSymmetric(m1[i]);
      KeepSymmetric(m2[i]);
      ComposeFits(Keep(m1[i]), Keep(m2[i]), r1[i], r2[i], pad[i]);
    }
  }

  lemma ComposeKeeps(m1: Mask, m2: Mask, r: Mask, pad: Mask, i: nat)
    requires |m1| == |m2| == |pad| && i < |pad| && FitMasks(m1, r, pad)
    requires Extra(pad[i], Keep(m2[i])) == 0
    ensures Keep(AndMasks(m1, m2, pad)[i]) == And(Keep(m1[i]), Keep(m2[i]))
  {
    hide Extra, HasZ, Keep, Fits, Swap, AndMask, And;
    FitsGives(m1[i], r[i], pad[i]);
    KeepSymmetric(m1[i]);
    KeepSymmetric(m2[i]);
    AndMaskKeeps(Keep(m1[i]), Keep(m2[i]), pad[i]);
  }

  /** The composition is again a changer. */
  lemma ComposeIsChanger(left: Changer, right: Changer, pad: Mask)
    requires IsChanger(left, pad) && IsChanger(right, pad)
    ensures IsChanger(Compose(left, right, pad), pad)
  {
    hide Extra, HasZ, RewriteWord, Blend, Keep, Fits, Swap, AndMask, ExactWhenSet, And, Not;
    if !left.identity && !right.identity {
      RewriteFits(left.mask, left.rewrite, right.mask, right.rewrite, pad);
      RewriteFits(left.mask, left.inverse, right.mask, right.inverse, pad);
      var c := Compose(left, right, pad);
      forall i | 0 <= i < |pad|
        ensures ExactWhenSet(c.rewrite[i], Keep(c.mask[i]))
        ensures Extra(Not(Keep(c.mask[i])), c.inverse[i]) == 0
      {
        FitsGives(right.mask[i], right.rewrite[i], pad[i]);
        ComposeKeeps(left.mask, right.mask, left.rewrite, pad, i);
        KeepSymmetric(left.mask[i]);
        KeepSymmetric(right.mask[i]);
        ComposeExact(Keep(left.mask[i]), Keep(right.mask[i]), left.rewrite[i], right.rewrite[i]);
        ComposeFree(Keep(left.mask[i]), Keep(right.mask[i]), left.inverse[i], right.inverse[i]);
      }
    }
  }

  /** Composition on blends: first the left changer, then the right one. */
  lemma ComposeBlends(a: Mask, left: Changer, right: Changer, pad: Mask)
    requires IsChanger(left, pad) && IsChanger(right, pad) && |a| == |pad|
    ensures var c := Compose(left, right, pad);
      IsChanger(c, pad) &&
      BlendMask(a, c.mask, c.rewrite) ==
        BlendMask(BlendMask(a, left.mask, left.rewrite), right.mask, right.rewrite)
  {
    hide Extra, HasZ, RewriteWord, Blend, Keep, Fits, Swap, AndMask, ExactWhenSet, And, Not;
    ComposeIsChanger(left, right, pad);
    var c := Compose(left, right, pad);
    if left.identity || right.identity {
      forall i | 0 <= i < |pad|
        ensures Keep(left.mask[i]) == !0 ==> Blend(a[i], left.rewrite[i], Keep(left.mask[i])) == a[i]
        ensures Keep(right.mask[i]) == !0 ==>
                  forall b :: Blend(b, right.rewrite[i], Keep(right.mask[i])) == b
      {
        BlendAll(a[i], left.rewrite[i], Keep(left.mask[i]));
        forall b ensures Keep(right.mask[i]) == !0 ==> Blend(b, right.rewrite[i], Keep(right.mask[i])) == b {
          BlendAll(b, right.rewrite[i], Keep(right.mask[i]));
        }
      }
    } else {
      RewriteFits(left.mask, left.rewrite, right.mask, right.rewrite, pad);
      forall i | 0 <= i < |pad|
        ensures Blend(a[i], c.rewrite[i], Keep(c.mask[i])) ==
          Blend(Blend(a[i], left.rewrite[i], Keep(left.mask[i])), right.rewrite[i], Keep(right.mask[i]))
      {
        FitsGives(right.mask[i], right.rewrite[i], pad[i]);
        ComposeKeeps(left.mask, right.mask, left.rewrite, pad, i);
        BlendTwice(a[i], left.rewrite[i], Keep(left.mask[i]), right.rewrite[i], Keep(right.mask[i]));
      }
    }
  }

  lemma BlendAll(a: Word, r: Word, k: Word)
    ensures k == !0 ==> Blend(a, r, k) == a
  {}

  /** Rewriting with a composition equals rewriting with left and then with right. */
  lemma ComposeRewrites(a: Mask, left: Changer, right: Changer, pad: Mask)
    requires IsChanger(left, pad) && IsChanger(right, pad) && IsMask(a, pad)
    ensures var c := Compose(left, right, pad);
      RewriteMask(a, c.mask, c.rewrite) ==
        RewriteMask(RewriteMask(a, left.mask, left.rewrite), right.mask, right.rewrite)
  {
    hide RewriteWord, Blend, Keep, Fits, ExactWhenSet, Extra, HasZ;
    var c := Compose(left, right, pad);
    ComposeBlends(a, left, right, pad);
    RewriteIsBlend(a, c.mask, c.rewrite, pad);
    RewriteIsBlend(a, left.mask, left.rewrite, pad);
    RewriteIsBlend(RewriteMask(a, left.mask, left.rewrite), right.mask, right.rewrite, pad);
  }

  /** On headers, a composition applies left and then right. */
  lemma ComposeApplies(h: Mask, left: Changer, right: Changer, pad: Mask)
    requires IsChanger(left, pad) && IsChanger(right, pad) && IsHeader(h, |pad|)
    ensures IsChanger(Compose(left, right, pad), pad)
    ensures ApplyHeader(h, Compose(left, right, pad)) == ApplyHeader(ApplyHeader(h, left), right)
  {
    ComposeBlends(h, left, right, pad);
  }

  // --- construction ---

  /** The changer of a transfer mask: x keeps a position, 0 or 1 sets it. */
  function FromTransfer(t: Mask, pad: Mask): Changer
    requires |t| == |pad|
  {
    Changer(
      seq(|t|, i requires 0 <= i < |t| => AndMask(XSpread(t[i]), XSpread(t[i]), pad[i])),
      seq(|t|, i requires 0 <= i < |t| => SetWhere(t[i], XSpread(t[i]), pad[i])),
      seq(|t|, i requires 0 <= i < |t| => SetWhere(!0, XSpread(t[i]), pad[i])),
      forall i | 0 <= i < |t| :: XSpread(t[i]) == !0)
  }

  lemma TransferIsChanger(t: Mask, pad: Mask)
    requires IsMask(t, pad) && IsPad(pad)
    ensures IsChanger(FromTransfer(t, pad), pad)
  {
    hide Extra, HasZ, Keep, Fits, Swap, AndMask, ExactWhenSet, And, Not, XSpread, SetWhere;
    var c := FromTransfer(t, pad);
    forall i | 0 <= i < |pad|
      ensures Keep(c.mask[i]) == XSpread(t[i])
      ensures Fits(c.mask[i], c.rewrite[i], pad[i]) && Fits(c.mask[i], c.inverse[i], pad[i])
      ensures ExactWhenSet(c.rewrite[i], XSpread(t[i]))
      ensures Extra(Not(XSpread(t[i])), c.inverse[i]) == 0
    {
      XSpreadSymmetric(t[i]);
      XSpreadPad(t[i], pad[i]);
      Arrays.AllNoZ();
      TransferFits(t[i], XSpread(t[i]), pad[i]);
      TransferFits(!0, XSpread(t[i]), pad[i]);
      SetWhereExact(t[i], pad[i]);
      SetWhereFree(XSpread(t[i]), pad[i]);
    }
  }

  // --- what the changer of a transfer mask does ---

  /** The changer of a transfer mask sets every position that is 0 or 1 in the mask to that
      value and keeps every position that is x. */
  lemma TransferSets(h: Mask, t: Mask, pad: Mask, i: nat, l: Word)
    requires IsHeader(h, |pad|) && IsMask(t, pad) && IsPad(pad) && i < |pad| && SingleBit(l)
    ensures IsChanger(FromTransfer(t, pad), pad)
    ensures var r := ApplyHeader(h, FromTransfer(t, pad));
      And(r[i], Position(l)) == if Extra(Position(l), t[i]) == 0 then And(h[i], Position(l)) else And(t[i], Position(l))
  {
    TransferIsChanger(t, pad);
    var k := XSpread(t[i]);
    hide XSpread, SetWhere, And, Blend, Position, SingleBit, Swap, AndMask, Keep, Fits, ExactWhenSet, HasZ, Exact, Extra;
    XSpreadSymmetric(t[i]);
    XSpreadPad(t[i], pad[i]);
    AndMaskKeeps(k, k, pad[i]);
    AndSame(k);
    if Extra(Position(l), t[i]) == 0 {
      PositionIsX(l, t[i]);
      BlendKept(h[i], SetWhere(t[i], k, pad[i]), k, Position(l));
    } else {
      PositionIsSet(l, t[i]);
      BlendSet(h[i], t[i], k, pad[i], Position(l));
    }
  }
}
