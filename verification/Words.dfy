/** One 64-bit word of a ternary mask.

    A word packs 32 positions of two bits each. The low bit of a position is set
    when the header bit may be 0, the high bit when it may be 1; so 01 is "0",
    10 is "1", 11 is "x" (either) and 00 is "z" (neither). A concrete header is
    packed the same way, with exactly one of the two bits set at each position. */
module Words {
  type Word = bv64

  const EVEN_MASK: Word := 0xaaaaaaaaaaaaaaaa
  const ODD_MASK: Word := 0x5555555555555555

  function XBits(x: Word): Word { x & (x >> 1) & ODD_MASK }

  predicate HasX(x: Word) { XBits(x) != 0 }

  predicate HasZ(x: Word) { HasX(!x) }

  /** Every position of h has one bit set: h is one concrete value. */
  predicate Exact(h: Word) { (h ^ (h >> 1)) & ODD_MASK == ODD_MASK }

  /** The bits of a that b does not allow; 0 when b covers a. */
  function Extra(a: Word, b: Word): Word { a & !b }

  function And(a: Word, b: Word): Word { a & b }

  function Or(a: Word, b: Word): Word { a | b }

  function Not(a: Word): Word { !a }

  /** Exchanges the two bits of every position. */
  function Swap(w: Word): Word { ((w >> 1) & ODD_MASK) | ((w << 1) & EVEN_MASK) }

  function Clear(w: Word): Word { w & (w - 1) }

  function Lowest(w: Word): Word { w & !Clear(w) }

  predicate SingleBit(w: Word) { w != 0 && Clear(w) == 0 }

  /** A concrete value allowed by m; it prefers 0. */
  function Pick(m: Word): Word { (m & ODD_MASK) | (m & EVEN_MASK & !((m & ODD_MASK) << 1)) }

  /** A concrete value allowed by m that uses bit l. */
  function PickWith(m: Word, l: Word): Word { (Pick(m) & !Swap(l)) | l }

  // --- coverage ---

  lemma ExtraMeet(h: Word, a: Word, b: Word)
    ensures Extra(h, And(a, b)) == 0 <==> Extra(h, a) == 0 && Extra(h, b) == 0
  {
    hide *;
    if Extra(h, And(a, b)) == 0 { ExtraMeetOut(h, a, b); }
    if Extra(h, a) == 0 && Extra(h, b) == 0 { ExtraMeetIn(h, a, b); }
  }

  lemma ExtraMeetIn(h: Word, a: Word, b: Word)
    requires Extra(h, a) == 0 && Extra(h, b) == 0
    ensures Extra(h, And(a, b)) == 0
  {}

  lemma ExtraMeetOut(h: Word, a: Word, b: Word)
    requires Extra(h, And(a, b)) == 0
    ensures Extra(h, a) == 0 && Extra(h, b) == 0
  {}

  lemma ExtraTrans(h: Word, a: Word, b: Word)
    requires Extra(h, b) == 0 && Extra(b, a) == 0
    ensures Extra(h, a) == 0
  {}

  lemma ExactMeansNoZ(h: Word, m: Word)
    requires Exact(h) && Extra(h, m) == 0
    ensures !HasZ(m)
  {}

  lemma PickExact(m: Word)
    requires !HasZ(m)
    ensures Exact(Pick(m)) && Extra(Pick(m), m) == 0
  {}

  lemma LowestSplits(w: Word)
    ensures Or(Clear(w), Lowest(w)) == w && Extra(Lowest(w), w) == 0
  {}

  lemma LowestSingle(w: Word)
    requires w != 0
    ensures SingleBit(Lowest(w))
  {
    LowestNonzero(w);
  }

  lemma LowestNonzero(w: Word)
    requires w != 0
    ensures Lowest(w) != 0
  {}

  lemma PickWithExact(m: Word, l: Word)
    requires !HasZ(m) && SingleBit(l) && Extra(l, m) == 0
    ensures Exact(PickWith(m, l))
  {
    SingleSwap(l);
  }

  lemma SingleSwap(l: Word)
    requires SingleBit(l)
    ensures l & Swap(l) == 0
  {}

  lemma PickWithExtra(m: Word, l: Word)
    requires Extra(l, m) == 0
    ensures Extra(PickWith(m, l), m) == 0 && Extra(l, PickWith(m, l)) == 0
  {
    assert Extra(Pick(m), m) == 0;
    ExtraUnion(Pick(m), !Swap(l), l, m);
  }

  lemma ExtraUnion(a: Word, b: Word, c: Word, m: Word)
    requires Extra(a, m) == 0 && Extra(c, m) == 0
    ensures Extra((a & b) | c, m) == 0
  {}

  /** A word b with a bit outside a allows a concrete value that a does not. */
  lemma Separate(a: Word, b: Word) returns (h: Word)
    requires !HasZ(b) && Extra(b, a) != 0
    ensures Exact(h) && Extra(h, b) == 0 && Extra(h, a) != 0
  {
    hide *;
    var l := Lowest(Extra(b, a));
    LowestSingle(Extra(b, a));
    LowestOfExtra(a, b);
    PickWithExact(b, l);
    PickWithExtra(b, l);
    h := PickWith(b, l);
    OutsideBit(h, l, a);
  }

  lemma LowestOfExtra(a: Word, b: Word)
    ensures Extra(Lowest(Extra(b, a)), b) == 0 && Lowest(Extra(b, a)) & a == 0
  {}

  lemma OutsideBit(h: Word, l: Word, a: Word)
    requires Extra(l, h) == 0 && SingleBit(l) && l & a == 0
    ensures Extra(h, a) != 0
  {}

  // --- one bit removed ---

  /** Fixing the position of l to the value l keeps exactly the values that use l. */
  lemma FixPosition(h: Word, l: Word)
    requires Exact(h) && SingleBit(l)
    ensures Extra(h, !Swap(l)) == 0 <==> h & l != 0
  {}

  lemma ExtraSplit(h: Word, a: Word, b: Word)
    requires Extra(h, b) == 0
    ensures Extra(h, a) == h & Extra(b, a)
  {}

  lemma FixKeepsNoZ(b: Word, l: Word)
    requires !HasZ(b) && SingleBit(l) && Extra(l, b) == 0
    ensures !HasZ(And(b, !Swap(l)))
  {
    hide *;
    PickWithExact(b, l);
    PickWithExtra(b, l);
    FixPositionPick(b, l);
    ExtraMeet(PickWith(b, l), b, !Swap(l));
    ExactMeansNoZ(PickWith(b, l), And(b, !Swap(l)));
  }

  lemma FixPositionPick(b: Word, l: Word)
    requires SingleBit(l)
    ensures Extra(PickWith(b, l), !Swap(l)) == 0
  {
    SingleSwap(l);
  }

  /** A bit outside whole positions p has its partner outside p as well. */
  lemma SwapOutside(l: Word, p: Word)
    requires Swap(p) == p && l & p == 0
    ensures Extra(p, !Swap(l)) == 0
  {}

  // --- population count ---

  function Half(w: Word): Word { w >> 1 }

  function Bit(w: Word): nat { if w & 1 == 1 then 1 else 0 }

  /** The number of bits set in w. */
  function PopCount(w: Word): nat
    decreases w
  {
    if w == 0 then 0 else Bit(w) + PopCount(Half(w))
  }

  function BitLength(w: Word): nat
    decreases w
  {
    if w == 0 then 0 else 1 + BitLength(Half(w))
  }

  lemma BitLengthStep(w: Word)
    requires w != 0
    ensures BitLength(Half(w)) < BitLength(w)
  {}

  lemma PopCountStep(w: Word)
    ensures PopCount(w) == Bit(w) + PopCount(Half(w))
  {
    if w == 0 { assert w >> 1 == 0; }
  }

  lemma HalfExtra(a: Word, b: Word)
    requires Extra(a, b) == 0
    ensures Extra(Half(a), Half(b)) == 0
  {}

  lemma BitExtra(a: Word, b: Word)
    requires Extra(a, b) == 0
    ensures Bit(a) <= Bit(b)
  {}

  lemma BitStrict(a: Word, b: Word)
    requires Extra(a, b) == 0 && a != b && Half(a) == Half(b)
    ensures Bit(a) < Bit(b)
  {}

  lemma ExtraZero(a: Word, b: Word)
    requires Extra(a, b) == 0 && b == 0
    ensures a == b
  {}

  /** Counting is strictly monotone: covered words with equal counts are equal. */
  lemma {:induction false} PopCountMono(a: Word, b: Word)
    requires Extra(a, b) == 0
    ensures PopCount(a) <= PopCount(b)
    ensures a != b ==> PopCount(a) < PopCount(b)
    decreases BitLength(b)
  {
    hide *;
    if b == 0 {
      ExtraZero(a, b);
    } else {
      BitLengthStep(b);
      HalfExtra(a, b);
      PopCountMono(Half(a), Half(b));
      PopCountStep(a);
      PopCountStep(b);
      BitExtra(a, b);
      if Half(a) == Half(b) && a != b { BitStrict(a, b); }
    }
  }

  lemma ClearOdd(w: Word)
    requires Bit(w) == 1
    ensures Half(Clear(w)) == Half(w) && Bit(Clear(w)) == 0
  {}

  lemma ClearEven(w: Word)
    requires Bit(w) == 0
    ensures Half(Clear(w)) == Clear(Half(w)) && Bit(Clear(w)) == 0
  {}

  lemma HalfNonzero(w: Word)
    requires w != 0 && Bit(w) == 0
    ensures Half(w) != 0
  {}

  lemma {:induction false} PopCountClear(w: Word)
    requires w != 0
    ensures PopCount(Clear(w)) == PopCount(w) - 1
    decreases BitLength(w)
  {
    hide *;
    PopCountStep(w);
    PopCountStep(Clear(w));
    BitRange(w);
    if Bit(w) == 1 {
      ClearOdd(w);
    } else {
      ClearEven(w);
      HalfNonzero(w);
      BitLengthStep(w);
      PopCountClear(Half(w));
    }
  }

  lemma BitRange(w: Word)
    ensures Bit(w) == 0 || Bit(w) == 1
  {}

  lemma {:induction false} PopCountZero(w: Word)
    ensures PopCount(w) == 0 <==> w == 0
    decreases BitLength(w)
  {
    if w != 0 {
      BitLengthStep(w);
      PopCountZero(Half(w));
    }
  }

  lemma PopCountSingle(w: Word)
    ensures PopCount(w) == 1 <==> SingleBit(w)
  {
    PopCountZero(w);
    if w != 0 {
      PopCountClear(w);
      PopCountZero(Clear(w));
    }
  }

  /** A single bit lies in one half of its position. */
  lemma SingleHalf(d: Word)
    requires SingleBit(d)
    ensures d & EVEN_MASK == 0 || d & ODD_MASK == 0
  {}

  lemma SingleOutside(l: Word, a: Word)
    requires SingleBit(l) && Extra(l, a) != 0
    ensures And(l, a) == 0
  {}

  lemma SwapSingle(l: Word)
    requires SingleBit(l)
    ensures SingleBit(Swap(l))
  {}
}
