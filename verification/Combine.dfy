/** array_combine of src/header_space/array.c: two masks become one, two or three
    masks with the same union, none of them covered by another. */
module Combine {
  import opened Options
  import opened Words
  import opened Masks

  // --- the word that merges two words which disagree at one position ---

  /** Both bits of every position where w is z. */
  function ZSpread(w: Word): Word
  {
    !(((w | (w >> 1)) & ODD_MASK) | ((w | (w << 1)) & EVEN_MASK))
  }

  function MergeWord(a: Word, b: Word): Word { Or(And(a, b), ZSpread(And(a, b))) }

  function Merge(a: Mask, b: Mask): Mask
    requires |a| == |b|
  {
    seq(|a|, i requires 0 <= i < |a| => MergeWord(a[i], b[i]))
  }

  function ZPositions(w: Word): nat { PopCount(ZSpread(w)) / 2 }

  /** The number of positions in the first k words at which a and b share no value. */
  function Conflicts(a: Mask, b: Mask, k: nat): nat
    requires |a| == |b| && k <= |a|
  {
    if k == 0 then 0 else Conflicts(a, b, k - 1) + ZPositions(And(a[k - 1], b[k - 1]))
  }

  lemma ZSpreadSwap(w: Word)
    ensures Swap(ZSpread(w)) == ZSpread(w)
  {}

  lemma ZSpreadNoZ(w: Word)
    ensures ZSpread(w) == 0 <==> !HasZ(w)
  {}

  lemma SingleNotSymmetric(d: Word)
    requires SingleBit(d)
    ensures Swap(d) != d
  {}

  lemma SymmetricPair(d: Word)
    requires Swap(d) == d && d != 0 && Clear(Clear(d)) == 0
    ensures d == Or(Lowest(d), Swap(Lowest(d)))
  {}

  lemma SymmetricRest(d: Word)
    requires Swap(d) == d && d != 0
    ensures !SingleBit(Clear(Clear(d)))
  {}

  /** A count of zero or one position means no position, or one whole position. */
  lemma ZPositionsSmall(w: Word)
    ensures ZPositions(w) == 0 <==> !HasZ(w)
    ensures ZPositions(w) == 1 ==>
              var l := Lowest(ZSpread(w)); SingleBit(l) && ZSpread(w) == Or(l, Swap(l))
  {
    hide *;
    var d := ZSpread(w);
    ZPositionsDef(w);
    ZSpreadNoZ(w);
    ZSpreadSwap(w);
    PopCountZero(d);
    if d != 0 {
      PopCountSingle(d);
      if SingleBit(d) { SingleNotSymmetric(d); }
      if PopCount(d) / 2 == 1 {
        OnePair(d);
      }
    }
  }

  lemma ZPositionsDef(w: Word)
    ensures ZPositions(w) == PopCount(ZSpread(w)) / 2
  {}

  lemma OnePair(d: Word)
    requires Swap(d) == d && d != 0 && 2 <= PopCount(d) <= 3
    ensures SingleBit(Lowest(d)) && d == Or(Lowest(d), Swap(Lowest(d)))
  {
    hide *;
    PopCountClear(d);
    var c := Clear(d);
    PopCountZero(c);
    PopCountClear(c);
    PopCountSingle(Clear(c));
    PopCountZero(Clear(c));
    SymmetricRest(d);
    SymmetricPair(d);
    LowestSingle(d);
  }

  lemma BothOutside(l: Word, a: Word)
    requires SingleBit(l) && And(l, a) == 0 && And(Swap(l), a) == 0
    ensures HasZ(a)
  {}

  lemma NoZAt(a: Word, l: Word)
    requires !HasZ(a) && SingleBit(l)
    ensures Extra(l, a) == 0 || Extra(Swap(l), a) == 0
  {
    hide *;
    SwapSingle(l);
    if Extra(l, a) != 0 && Extra(Swap(l), a) != 0 {
      SingleOutside(l, a);
      SingleOutside(Swap(l), a);
      BothOutside(l, a);
    }
  }

  lemma NotBoth(a: Word, b: Word, l: Word)
    requires And(And(a, b), Or(l, Swap(l))) == 0 && SingleBit(l)
    ensures Extra(l, a) != 0 || Extra(l, b) != 0
  {}

  lemma NotBothSwapped(a: Word, b: Word, l: Word)
    requires And(And(a, b), Or(l, Swap(l))) == 0 && SingleBit(l)
    ensures Extra(Swap(l), a) != 0 || Extra(Swap(l), b) != 0
  {}

  lemma OneOfPair(h: Word, l: Word)
    requires Exact(h) && SingleBit(l)
    ensures Extra(h, Not(Swap(l))) == 0 || Extra(h, Not(l)) == 0
  {}

  lemma DropPartner(h: Word, a: Word, b: Word, l: Word, s: Word)
    requires Extra(h, Or(And(a, b), Or(l, s))) == 0 && Extra(h, Not(s)) == 0 && Extra(l, a) == 0
    ensures Extra(h, a) == 0
  {}

  lemma OrComm(a: Word, b: Word)
    ensures Or(a, b) == Or(b, a)
  {}

  lemma AndComm(a: Word, b: Word)
    ensures And(a, b) == And(b, a)
  {}

  /** A concrete word in the merged word lies in one of the two words. */
  lemma MergedInEither(h: Word, a: Word, b: Word, l: Word)
    requires Exact(h) && !HasZ(a) && !HasZ(b) && SingleBit(l)
    requires Extra(h, Or(And(a, b), Or(l, Swap(l)))) == 0 && And(And(a, b), Or(l, Swap(l))) == 0
    ensures Extra(h, a) == 0 || Extra(h, b) == 0
  {
    hide *;
    NoZAt(a, l);
    NoZAt(b, l);
    OneOfPair(h, l);
    NotBoth(a, b, l);
    NotBothSwapped(a, b, l);
    OrComm(l, Swap(l));
    AndComm(a, b);
    if Extra(h, Not(Swap(l))) == 0 {
      if Extra(l, a) == 0 { DropPartner(h, a, b, l, Swap(l)); } else { DropPartner(h, b, a, l, Swap(l)); }
    } else {
      if Extra(Swap(l), a) == 0 { DropPartner(h, a, b, Swap(l), l); } else { DropPartner(h, b, a, Swap(l), l); }
    }
  }

  lemma ZSpreadOutside(w: Word)
    ensures And(w, ZSpread(w)) == 0
  {}

  lemma MergeNotInside(a: Word, b: Word)
    requires !HasZ(a) && !HasZ(b) && HasZ(And(a, b))
    ensures Extra(MergeWord(a, b), a) != 0
  {}

  lemma MergeNoZ(a: Word, b: Word)
    ensures !HasZ(MergeWord(a, b))
  {}

  lemma MergeWordPlain(a: Word, b: Word)
    requires !HasZ(And(a, b))
    ensures MergeWord(a, b) == And(a, b)
  {}

  lemma AndInside(a: Word, b: Word)
    requires Extra(b, a) == 0
    ensures And(a, b) == b
  {}

  lemma AndShrinks(a: Word, b: Word)
    ensures Extra(And(a, b), a) == 0 && Extra(And(a, b), b) == 0
  {}

  lemma PadInMerge(a: Word, b: Word, p: Word)
    requires Extra(p, a) == 0 && Extra(p, b) == 0
    ensures Extra(p, MergeWord(a, b)) == 0
  {}

  // --- the masks ---

  lemma {:induction false} ConflictsZero(a: Mask, b: Mask, k: nat)
    requires |a| == |b| && k <= |a|
    ensures Conflicts(a, b, k) == 0 <==> forall i | 0 <= i < k :: !HasZ(And(a[i], b[i]))
  {
    hide And, HasZ, ZPositions;
    if k > 0 {
      ConflictsZero(a, b, k - 1);
      ZPositionsSmall(And(a[k - 1], b[k - 1]));
    }
  }

  lemma {:induction false} ConflictsOne(a: Mask, b: Mask, k: nat) returns (p: nat)
    requires |a| == |b| && k <= |a| && Conflicts(a, b, k) == 1
    ensures p < k && ZPositions(And(a[p], b[p])) == 1
    ensures forall i | 0 <= i < k && i != p :: !HasZ(And(a[i], b[i]))
  {
    hide And, HasZ, ZPositions;
    ConflictsZero(a, b, k - 1);
    ZPositionsSmall(And(a[k - 1], b[k - 1]));
    if ZPositions(And(a[k - 1], b[k - 1])) == 0 {
      p := ConflictsOne(a, b, k - 1);
    } else {
      p := k - 1;
    }
  }

  /** Masks in conflict at a single position merge into one that adds no header
      and is covered by neither. */
  lemma MergeIsConsensus(a: Mask, b: Mask, pad: Mask)
    requires IsMask(a, pad) && IsMask(b, pad) && Conflicts(a, b, |a|) == 1
    ensures IsMask(Merge(a, b), pad)
    ensures forall h | IsHeader(h, |pad|) && In(h, Merge(a, b)) :: In(h, a) || In(h, b)
    ensures !In(Merge(a, b), a) && !In(Merge(a, b), b)
  {
    hide And, Or, Extra, HasZ, MergeWord, ZSpread, ZPositions, Exact, SingleBit;
    var m := Merge(a, b);
    var p := ConflictsOne(a, b, |a|);
    forall i | 0 <= i < |a| ensures !HasZ(m[i]) && Extra(pad[i], m[i]) == 0 {
      MergeNoZ(a[i], b[i]);
      PadInMerge(a[i], b[i], pad[i]);
    }
    forall i | 0 <= i < |a| && i != p
      ensures Extra(m[i], a[i]) == 0 && Extra(m[i], b[i]) == 0
    {
      MergeWordPlain(a[i], b[i]);
      AndShrinks(a[i], b[i]);
    }
    forall h | IsHeader(h, |pad|) && In(h, m) ensures In(h, a) || In(h, b) {
      MergedAt(h[p], a[p], b[p]);
      forall i | 0 <= i < |a| && i != p ensures Extra(h[i], a[i]) == 0 && Extra(h[i], b[i]) == 0 {
        ExtraTrans(h[i], a[i], m[i]);
        ExtraTrans(h[i], b[i], m[i]);
      }
    }
    ZPositionsSmall(And(a[p], b[p]));
    MergeNotInside(a[p], b[p]);
    AndComm(a[p], b[p]);
    MergeNotInside(b[p], a[p]);
    assert Extra(m[p], a[p]) != 0 && Extra(m[p], b[p]) != 0 by { MergeWordComm(a[p], b[p]); }
  }

  lemma MergeWordComm(a: Word, b: Word)
    ensures MergeWord(a, b) == MergeWord(b, a)
  {
    hide And, Or, ZSpread;
    AndComm(a, b);
  }

  lemma MergedAt(h: Word, a: Word, b: Word)
    requires Exact(h) && !HasZ(a) && !HasZ(b) && ZPositions(And(a, b)) == 1
    requires Extra(h, MergeWord(a, b)) == 0
    ensures Extra(h, a) == 0 || Extra(h, b) == 0
  {
    hide And, Or, Extra, HasZ, ZSpread, Exact, SingleBit, Lowest;
    ZPositionsSmall(And(a, b));
    ZSpreadOutside(And(a, b));
    MergedInEither(h, a, b, Lowest(ZSpread(And(a, b))));
  }

  datatype Combined = Combined(a: Option<Mask>, b: Option<Mask>, extra: Option<Mask>)

  function Kept(c: Combined): seq<Mask>
  {
    (if c.a.Some? then [c.a.value] else []) +
    (if c.b.Some? then [c.b.value] else []) +
    (if c.extra.Some? then [c.extra.value] else [])
  }

  /** No mask of the list is covered by another one. */
  predicate NonRedundant(ms: seq<Mask>)
  {
    forall i, j | 0 <= i < |ms| && 0 <= j < |ms| && i != j :: !In(ms[i], ms[j])
  }

  /** The merge of one pair of words; blocked when they conflict at a protected position. */
  method MergeStep(a: Word, b: Word, bSuba: bool, aSubb: bool, mask: Word)
    returns (blocked: bool, count: nat, word: Word)
    requires !HasZ(a) && !HasZ(b)
    requires (bSuba ==> Extra(b, a) == 0) && (aSubb ==> Extra(a, b) == 0)
    ensures blocked ==> !bSuba && !aSubb
    ensures !blocked ==> count == ZPositions(And(a, b)) && word == MergeWord(a, b)
    ensures !blocked && count > 0 ==> !bSuba && !aSubb
  {
    hide And, Or, Extra, HasZ, ZSpread;
    blocked := false;
    if bSuba {
      CoveredWord(a, b);
      return false, 0, b;
    } else if aSubb {
      CoveredWord(b, a);
      AndComm(a, b);
      return false, 0, a;
    } else {
      var isect := And(a, b);
      var diffs := ZSpread(isect);
      if And(And(diffs, mask), EVEN_MASK) != 0 { return true, 0, 0; }
      ZPositionsSmall(isect);
      count := PopCount(diffs) / 2;
      if count == 0 {
        MergeWordPlain(a, b);
        word := isect;
      } else {
        word := Or(isect, diffs);
      }
    }
  }

  /** a covers the first k words of b. */
  predicate InUpTo(b: Mask, a: Mask, k: nat)
    requires |a| == |b| && k <= |a|
  {
    forall i | 0 <= i < k :: Extra(b[i], a[i]) == 0
  }

  lemma InStart(b: Mask, a: Mask)
    requires |a| == |b|
    ensures InUpTo(b, a, 0) && (In(b, a) <==> InUpTo(b, a, |a|)) && forall k | 0 <= k <= |a| && !InUpTo(b, a, k) :: !In(b, a)
  {
    hide Extra;
  }

  lemma InNext(b: Mask, a: Mask, k: nat)
    requires |a| == |b| && k < |a|
    ensures InUpTo(b, a, k + 1) <==> InUpTo(b, a, k) && Extra(b[k], a[k]) == 0
    ensures In(b, a) ==> InUpTo(b, a, k + 1)
  {
    hide Extra;
  }

  /** The word loop. It is blocked when the masks differ too much to be combined:
      without a merge mask as soon as neither can cover the other, with one when
      they conflict at a protected position or at more than one position. */
  method Scan(a: Mask, b: Mask, mask: Option<Mask>, ghost pad: Mask)
    returns (blocked: bool, bSuba: bool, aSubb: bool, diffCount: nat, tmp: seq<Word>)
    requires IsMask(a, pad) && IsMask(b, pad) && (mask.Some? ==> |mask.value| == |a|)
    ensures blocked ==> !In(b, a) && !In(a, b)
    ensures !blocked ==> (bSuba <==> In(b, a)) && (aSubb <==> In(a, b))
    ensures !blocked && mask.Some? ==> diffCount == Conflicts(a, b, |a|) <= 1 && tmp == Merge(a, b)
    ensures mask.None? ==> diffCount == 0
    ensures !blocked && mask.None? ==> bSuba || aSubb
  {
    hide And, Or, Extra, HasZ, MergeWord, ZSpread, ZPositions, In, InUpTo;
    InStart(b, a);
    InStart(a, b);
    blocked, bSuba, aSubb, diffCount, tmp := false, true, true, 0, [];
    var equal := true;
    for i := 0 to |a|
      invariant equal ==> forall k | 0 <= k < i :: a[k] == b[k]
      invariant (bSuba <==> InUpTo(b, a, i)) && (aSubb <==> InUpTo(a, b, i))
      invariant mask.Some? ==> diffCount == Conflicts(a, b, i) <= 1
      invariant mask.Some? ==> |tmp| == i && forall k | 0 <= k < i :: tmp[k] == MergeWord(a[k], b[k])
      invariant mask.None? ==> diffCount == 0 && (bSuba || aSubb)
    {
      ExtraSame(a[i]);
      InNext(b, a, i);
      InNext(a, b, i);
      if equal && a[i] != b[i] { equal := false; }
      if !equal && bSuba && Extra(b[i], a[i]) != 0 { bSuba := false; }
      if !equal && aSubb && Extra(a[i], b[i]) != 0 { aSubb := false; }
      if mask.Some? && diffCount <= 1 {
        var count, word;
        blocked, count, word := MergeStep(a[i], b[i], bSuba, aSubb, mask.value[i]);
        if blocked { return; }
        diffCount := diffCount + count;
        tmp := tmp + [word];
      } else if !bSuba && !aSubb {
        blocked := true;
        return;
      }
      if diffCount > 1 { blocked := true; return; }
    }
  }

  lemma ExtraSame(a: Word)
    ensures Extra(a, a) == 0
  {}

  lemma CoveredWord(a: Word, b: Word)
    requires Extra(b, a) == 0 && !HasZ(b)
    ensures And(a, b) == b && !HasZ(And(a, b)) && MergeWord(a, b) == b && ZPositions(And(a, b)) == 0
  {
    hide *;
    AndInside(a, b);
    MergeWordPlain(a, b);
    ZPositionsSmall(And(a, b));
  }

  /** The masks left by array_combine have the union of a and b and cover none of each other. */
  method ArrayCombine(a: Mask, b: Mask, mask: Option<Mask>, ghost pad: Mask) returns (c: Combined)
    requires IsMask(a, pad) && IsMask(b, pad) && (mask.Some? ==> |mask.value| == |a|)
    ensures c.a.Some? ==> c.a.value == a
    ensures c.b.Some? ==> c.b.value == b
    ensures c.extra.Some? ==> mask.Some?
    ensures AreMasks(Kept(c), pad) && NonRedundant(Kept(c))
    ensures forall h | IsHeader(h, |pad|) :: InAny(h, Kept(c)) <==> In(h, a) || In(h, b)
    ensures mask.None? ==> (c.b.None? <==> In(b, a)) && (c.a.None? <==> In(a, b) && !In(b, a))
  {
    hide In, IsMask, IsHeader, Conflicts, Merge;
    var blocked, bSuba, aSubb, diffCount, tmp := Scan(a, b, mask, pad);
    if blocked {
      c := Combined(Some(a), Some(b), None);
    } else if bSuba {
      c := Combined(Some(a), None, None);
    } else if aSubb {
      c := Combined(None, Some(b), None);
    } else if diffCount == 0 {
      c := Combined(Some(a), Some(b), None);
    } else {
      MergeIsConsensus(a, b, pad);
      var coversA := In(a, tmp);
      var coversB := In(b, tmp);
      c := Combined(if coversA then None else Some(a), if coversB then None else Some(b), Some(tmp));
    }
    forall h | IsHeader(h, |pad|)
      ensures InAny(h, Kept(c)) <==> In(h, a) || In(h, b)
    {
      KeptMembers(h, c);
      CoverOrder(h, a, b);
      if !blocked && diffCount != 0 { CoverOrder(h, a, tmp); CoverOrder(h, b, tmp); }
    }
  }

  lemma CoverOrder(h: Mask, a: Mask, b: Mask)
    ensures In(h, a) && In(a, b) ==> In(h, b)
    ensures In(h, b) && In(b, a) ==> In(h, a)
  {
    if In(h, a) && In(a, b) { InTrans(h, a, b); }
    if In(h, b) && In(b, a) { InTrans(h, b, a); }
  }

  lemma KeptMembers(h: Mask, c: Combined)
    ensures InAny(h, Kept(c)) <==>
              || (c.a.Some? && In(h, c.a.value))
              || (c.b.Some? && In(h, c.b.value))
              || (c.extra.Some? && In(h, c.extra.value))
  {
    hide In;
    var ms := Kept(c);
    if c.a.Some? { assert ms[0] == c.a.value; }
    var i := if c.a.Some? then 1 else 0;
    if c.b.Some? { assert ms[i] == c.b.value; }
    var j := if c.b.Some? then i + 1 else i;
    if c.extra.Some? { assert ms[j] == c.extra.value; }
  }
}
