/** array_rewrite of src/header_space/array.c on one word.

    The mask of a header changer has 1 at the positions that are kept, 0 at the
    positions that are set and x in the padding. */
module RewriteWords {
  import opened Words

  function LowBits(a: Word, mask: Word, rewrite: Word): Word { ((a | mask) & rewrite) & ODD_MASK }

  function HighBits(a: Word, mask: Word, rewrite: Word): Word { ((a & mask) | rewrite) & EVEN_MASK }

  function RewriteWord(a: Word, mask: Word, rewrite: Word): Word
  {
    Or(LowBits(a, mask, rewrite), HighBits(a, mask, rewrite))
  }

  /** Both bits of every position that is not set. */
  function Keep(mask: Word): Word { (mask & EVEN_MASK) | ((mask & EVEN_MASK) >> 1) }

  /** The x positions of a that x_count looks at: those set, and the padding. */
  function XCounted(a: Word, mask: Word): Word { XBits(a) & mask }

  /** a at the kept positions, r at the others. */
  function Blend(a: Word, r: Word, keep: Word): Word { (a & keep) | (r & !keep) }

  /** mask and rewrite fit together: kept positions rewrite to 0, the padding is x. */
  predicate Fits(mask: Word, rewrite: Word, pad: Word)
  {
    && Swap(pad) == pad && Extra(pad, Keep(mask)) == 0 && Extra(pad, rewrite) == 0
    && Extra(And(Keep(mask), ODD_MASK), rewrite) == 0
    && Extra(And(And(rewrite, EVEN_MASK), Keep(mask)), pad) == 0
    && Extra(And(And(mask, ODD_MASK), Keep(mask)), pad) == 0
    && Extra(And(Not(Keep(mask)), ODD_MASK), mask) == 0
    && !HasZ(rewrite)
  }

  /** r is one concrete value at every set position. */
  predicate ExactWhenSet(r: Word, keep: Word)
  {
    ((r ^ (r >> 1)) | keep) & ODD_MASK == ODD_MASK
  }

  lemma KeepSymmetric(mask: Word)
    ensures Swap(Keep(mask)) == Keep(mask)
  {}

  lemma KeepHigh(mask: Word)
    ensures Extra(And(mask, EVEN_MASK), Keep(mask)) == 0 && Extra(And(Keep(mask), EVEN_MASK), mask) == 0
  {
    HighKept(mask);
    KeptHigh(mask);
  }

  lemma HighKept(mask: Word)
    ensures Extra(And(mask, EVEN_MASK), Keep(mask)) == 0
  {}

  lemma KeptHigh(mask: Word)
    ensures Extra(And(Keep(mask), EVEN_MASK), mask) == 0
  {}

  // --- rewriting is blending ---

  lemma LowInBlend(a: Word, m: Word, r: Word, p: Word, k: Word)
    requires Extra(And(And(m, ODD_MASK), k), p) == 0 && Extra(p, a) == 0
    ensures Extra(LowBits(a, m, r), Blend(a, r, k)) == 0
  {}

  lemma HighInBlend(a: Word, m: Word, r: Word, p: Word, k: Word)
    requires Extra(And(And(r, EVEN_MASK), k), p) == 0 && Extra(p, a) == 0 && Extra(And(m, EVEN_MASK), k) == 0
    ensures Extra(HighBits(a, m, r), Blend(a, r, k)) == 0
  {}

  lemma BlendInLow(a: Word, m: Word, r: Word, k: Word)
    requires Extra(And(k, ODD_MASK), r) == 0 && Extra(And(Not(k), ODD_MASK), m) == 0
    ensures Extra(And(Blend(a, r, k), ODD_MASK), LowBits(a, m, r)) == 0
  {}

  lemma BlendInHigh(a: Word, m: Word, r: Word, k: Word)
    requires Extra(And(k, EVEN_MASK), m) == 0
    ensures Extra(And(Blend(a, r, k), EVEN_MASK), HighBits(a, m, r)) == 0
  {}

  lemma OrInside(u: Word, v: Word, w: Word)
    requires Extra(u, w) == 0 && Extra(v, w) == 0
    ensures Extra(Or(u, v), w) == 0
  {}

  lemma HalvesInside(w: Word, u: Word, v: Word)
    requires Extra(And(w, ODD_MASK), u) == 0 && Extra(And(w, EVEN_MASK), v) == 0
    ensures Extra(w, Or(u, v)) == 0
  {}

  lemma ExtraAntisym(u: Word, v: Word)
    requires Extra(u, v) == 0 && Extra(v, u) == 0
    ensures u == v
  {}

  /** On words with x padding, array_rewrite replaces exactly the set positions. */
  lemma RewriteBlends(a: Word, mask: Word, rewrite: Word, pad: Word)
    requires Fits(mask, rewrite, pad) && Extra(pad, a) == 0
    ensures RewriteWord(a, mask, rewrite) == Blend(a, rewrite, Keep(mask))
  {
    hide LowBits, HighBits, Keep, Blend, Extra, HasZ, Swap, And, Not, Or;
    var k := Keep(mask);
    var b := Blend(a, rewrite, k);
    KeepHigh(mask);
    LowInBlend(a, mask, rewrite, pad, k);
    HighInBlend(a, mask, rewrite, pad, k);
    BlendInLow(a, mask, rewrite, k);
    BlendInHigh(a, mask, rewrite, k);
    OrInside(LowBits(a, mask, rewrite), HighBits(a, mask, rewrite), b);
    HalvesInside(b, LowBits(a, mask, rewrite), HighBits(a, mask, rewrite));
    ExtraAntisym(RewriteWord(a, mask, rewrite), b);
  }

  // --- blending ---

  lemma BlendNoZ(a: Word, r: Word, k: Word)
    requires !HasZ(a) && !HasZ(r) && Swap(k) == k
    ensures !HasZ(Blend(a, r, k))
  {}

  lemma BlendExact(a: Word, r: Word, k: Word)
    requires Exact(a) && ExactWhenSet(r, k) && Swap(k) == k
    ensures Exact(Blend(a, r, k))
  {}

  lemma BlendPad(a: Word, r: Word, k: Word, pad: Word)
    requires Extra(pad, a) == 0 && Extra(pad, r) == 0
    ensures Extra(pad, Blend(a, r, k)) == 0
  {}

  /** A blend has at the set positions nothing but what r has. */
  lemma BlendInImage(a: Word, r: Word, k: Word)
    ensures Extra(And(Blend(a, r, k), Not(k)), r) == 0
  {}

  lemma ImageShrinks(m: Word, u: Word, r: Word, k: Word)
    requires Extra(m, u) == 0 && Extra(And(u, k), r) == 0
    ensures Extra(And(m, k), r) == 0
  {}

  lemma NothingSet(m: Word, r: Word)
    ensures Extra(And(m, Not(!0)), r) == 0
  {}

  /** b lies in the blend of a and r when it lies in a where kept and in r where set. */
  lemma InBlend(b: Word, a: Word, r: Word, k: Word)
    ensures Extra(b, Blend(a, r, k)) == 0 <==> Extra(And(b, k), a) == 0 && Extra(And(b, Not(k)), r) == 0
  {
    hide *;
    if Extra(b, Blend(a, r, k)) == 0 { InBlendOut(b, a, r, k); }
    if Extra(And(b, k), a) == 0 && Extra(And(b, Not(k)), r) == 0 { InBlendIn(b, a, r, k); }
  }

  lemma InBlendOut(b: Word, a: Word, r: Word, k: Word)
    requires Extra(b, Blend(a, r, k)) == 0
    ensures Extra(And(b, k), a) == 0 && Extra(And(b, Not(k)), r) == 0
  {}

  lemma InBlendIn(b: Word, a: Word, r: Word, k: Word)
    requires Extra(And(b, k), a) == 0 && Extra(And(b, Not(k)), r) == 0
    ensures Extra(b, Blend(a, r, k)) == 0
  {}

  /** Blends with the same r are covered when the kept parts are. */
  lemma BlendCovers(x: Word, d: Word, r: Word, k: Word)
    ensures Extra(Blend(x, r, k), Blend(d, r, k)) == 0 <==> Extra(And(x, k), d) == 0
  {
    hide *;
    if Extra(Blend(x, r, k), Blend(d, r, k)) == 0 { BlendCoversOut(x, d, r, k); }
    if Extra(And(x, k), d) == 0 { BlendCoversIn(x, d, r, k); }
  }

  lemma BlendCoversIn(x: Word, d: Word, r: Word, k: Word)
    requires Extra(And(x, k), d) == 0
    ensures Extra(Blend(x, r, k), Blend(d, r, k)) == 0
  {}

  lemma BlendCoversOut(x: Word, d: Word, r: Word, k: Word)
    requires Extra(Blend(x, r, k), Blend(d, r, k)) == 0
    ensures Extra(And(x, k), d) == 0
  {}

  // --- undoing a blend ---

  lemma BlendOfBlend(y: Word, q: Word, r: Word, k: Word)
    ensures Blend(Blend(y, q, k), r, k) == Blend(y, r, k)
  {
    hide *;
    BlendOfBlendIn(y, q, r, k);
    BlendOfBlendOut(y, q, r, k);
    ExtraAntisym(Blend(Blend(y, q, k), r, k), Blend(y, r, k));
  }

  lemma BlendOfBlendIn(y: Word, q: Word, r: Word, k: Word)
    ensures Extra(Blend(Blend(y, q, k), r, k), Blend(y, r, k)) == 0
  {}

  lemma BlendOfBlendOut(y: Word, q: Word, r: Word, k: Word)
    ensures Extra(Blend(y, r, k), Blend(Blend(y, q, k), r, k)) == 0
  {}

  lemma SetPartInside(y: Word, r: Word, k: Word)
    requires Exact(y) && ExactWhenSet(r, k) && Swap(k) == k && Extra(And(y, Not(k)), r) == 0
    ensures Extra(And(r, Not(k)), y) == 0
  {
    hide *;
    PlainSetPart(y, r, k);
    SetPartInsidePlain(y, r, k);
    SetPartPlain(r, y, k);
  }

  lemma PlainSetPart(y: Word, r: Word, k: Word)
    requires Extra(And(y, Not(k)), r) == 0
    ensures y & !k & !r == 0
  {}

  lemma SetPartPlain(r: Word, y: Word, k: Word)
    requires r & !k & !y == 0
    ensures Extra(And(r, Not(k)), y) == 0
  {}

  lemma SetPartInsidePlain(y: Word, r: Word, k: Word)
    requires Exact(y) && ExactWhenSet(r, k) && Swap(k) == k && y & !k & !r == 0
    ensures r & !k & !y == 0
  {}

  lemma BlendInside(y: Word, r: Word, k: Word)
    requires Extra(And(r, Not(k)), y) == 0
    ensures Extra(Blend(y, r, k), y) == 0
  {}

  lemma InsideBlend(y: Word, r: Word, k: Word)
    requires Extra(And(y, Not(k)), r) == 0
    ensures Extra(y, Blend(y, r, k)) == 0
  {}

  lemma SetPartOf(y: Word, e: Word, r: Word, k: Word)
    requires Extra(y, Blend(e, r, k)) == 0
    ensures Extra(And(y, Not(k)), r) == 0
  {}

  /** An exact word inside a blend with an exact r already has the values of r where set. */
  lemma SameWhenSet(y: Word, e: Word, r: Word, k: Word)
    requires Exact(y) && ExactWhenSet(r, k) && Swap(k) == k && Extra(y, Blend(e, r, k)) == 0
    ensures Blend(y, r, k) == y
  {
    hide *;
    SetPartOf(y, e, r, k);
    SetPartInside(y, r, k);
    BlendInside(y, r, k);
    InsideBlend(y, r, k);
    ExtraAntisym(Blend(y, r, k), y);
  }

  lemma BlendBackBits(y: Word, e: Word, r: Word, k: Word, q: Word)
    requires Extra(y, Blend(e, r, k)) == 0 && Extra(q, e) == 0
    ensures Extra(Blend(y, q, k), e) == 0
  {}

  lemma ExactOfExact(h: Word, k: Word)
    requires Exact(h)
    ensures ExactWhenSet(h, k)
  {}

  /** An exact word in the blend of e comes from an exact word in e with any chosen
      exact values q of e at the set positions. */
  lemma BlendBack(y: Word, e: Word, r: Word, k: Word, q: Word)
    requires Exact(y) && Exact(q) && Extra(q, e) == 0 && ExactWhenSet(r, k) && Swap(k) == k
    requires Extra(y, Blend(e, r, k)) == 0
    ensures Exact(Blend(y, q, k)) && Extra(Blend(y, q, k), e) == 0
    ensures Blend(Blend(y, q, k), r, k) == y
  {
    hide *;
    ExactOfExact(q, k);
    BlendExact(y, q, k);
    BlendBackBits(y, e, r, k, q);
    BlendOfBlend(y, q, r, k);
    SameWhenSet(y, e, r, k);
  }

  // --- which diffs survive ---

  lemma XCountedMono(d: Word, e: Word, mask: Word)
    requires Extra(d, e) == 0
    ensures Extra(XCounted(d, mask), XCounted(e, mask)) == 0
  {}

  /** A covered word with the same counted x positions covers e at all set positions. */
  lemma SameCounted(d: Word, e: Word, mask: Word, k: Word)
    requires Extra(d, e) == 0 && !HasZ(d) && XCounted(d, mask) == XCounted(e, mask)
    requires Swap(k) == k && Extra(And(Not(k), ODD_MASK), mask) == 0
    ensures Extra(And(e, Not(k)), d) == 0
  {
    hide *;
    SameCountedLow(d, e, mask, k);
    SameCountedHigh(d, e, mask, k);
    JoinLowHigh(And(e, Not(k)), d);
  }

  lemma SameCountedLow(d: Word, e: Word, mask: Word, k: Word)
    requires Extra(d, e) == 0 && !HasZ(d) && XCounted(d, mask) == XCounted(e, mask)
    requires Swap(k) == k && Extra(And(Not(k), ODD_MASK), mask) == 0
    ensures Extra(And(And(e, Not(k)), ODD_MASK), d) == 0
  {}

  lemma SameCountedHigh(d: Word, e: Word, mask: Word, k: Word)
    requires Extra(d, e) == 0 && !HasZ(d) && XCounted(d, mask) == XCounted(e, mask)
    requires Swap(k) == k && Extra(And(Not(k), ODD_MASK), mask) == 0
    ensures Extra(And(And(e, Not(k)), EVEN_MASK), d) == 0
  {}

  lemma JoinLowHigh(u: Word, d: Word)
    requires Extra(And(u, ODD_MASK), d) == 0 && Extra(And(u, EVEN_MASK), d) == 0
    ensures Extra(u, d) == 0
  {}

  /** Where d covers e at the set positions, only the kept part of x in e decides. */
  lemma KeptDecides(x: Word, d: Word, e: Word, k: Word)
    requires Extra(x, e) == 0 && Extra(And(e, Not(k)), d) == 0
    ensures Extra(x, d) == 0 <==> Extra(And(x, k), d) == 0
  {
    hide *;
    if Extra(x, d) == 0 { KeptInside(x, d, k); }
    if Extra(And(x, k), d) == 0 { KeptEnough(x, d, e, k); }
  }

  lemma KeptInside(x: Word, d: Word, k: Word)
    requires Extra(x, d) == 0
    ensures Extra(And(x, k), d) == 0
  {}

  lemma KeptEnough(x: Word, d: Word, e: Word, k: Word)
    requires Extra(x, e) == 0 && Extra(And(e, Not(k)), d) == 0 && Extra(And(x, k), d) == 0
    ensures Extra(x, d) == 0
  {}

  /** The counts agree exactly when d covers e at the set positions. */
  lemma SetCoverCounts(d: Word, e: Word, mask: Word, pad: Word, k: Word)
    requires Extra(d, e) == 0 && Extra(pad, d) == 0 && Extra(And(e, Not(k)), d) == 0
    requires Extra(And(And(mask, ODD_MASK), k), pad) == 0 && Swap(pad) == pad && Swap(k) == k
    ensures Extra(XCounted(e, mask), XCounted(d, mask)) == 0
  {}

  lemma NoZSetPart(e: Word, r: Word, k: Word)
    requires !HasZ(e) && ExactWhenSet(r, k) && Swap(k) == k && Extra(And(e, Not(k)), r) == 0
    ensures Extra(And(r, Not(k)), e) == 0
  {
    hide *;
    PlainSetPart(e, r, k);
    NoZSetPartPlain(e, r, k);
    SetPartPlain(r, e, k);
  }

  lemma NoZSetPartPlain(e: Word, r: Word, k: Word)
    requires !HasZ(e) && ExactWhenSet(r, k) && Swap(k) == k && e & !k & !r == 0
    ensures r & !k & !e == 0
  {}

  /** A bit of e at a set position that d lacks. */
  lemma MissingBit(d: Word, e: Word, k: Word)
    requires Extra(And(e, Not(k)), d) != 0
    ensures var l := Lowest(Extra(And(e, Not(k)), d));
      SingleBit(l) && Extra(l, e) == 0 && Extra(l, Not(k)) == 0 && Extra(l, d) != 0
  {
    hide *;
    var u := Extra(And(e, Not(k)), d);
    LowestSingle(u);
    LowestSplits(u);
    MissingBitInside(d, e, k, Lowest(u));
  }

  lemma MissingBitInside(d: Word, e: Word, k: Word, l: Word)
    requires Extra(l, Extra(And(e, Not(k)), d)) == 0 && SingleBit(l)
    ensures Extra(l, e) == 0 && Extra(l, Not(k)) == 0 && Extra(l, d) != 0
  {}

  lemma BlendHasBit(y: Word, q: Word, k: Word, l: Word)
    requires Extra(l, q) == 0 && Extra(l, Not(k)) == 0
    ensures Extra(l, Blend(y, q, k)) == 0
  {}

  // --- composition ---

  lemma BlendTwice(a: Word, r1: Word, k1: Word, r2: Word, k2: Word)
    ensures Blend(Blend(a, r1, k1), r2, k2) == Blend(a, Blend(r1, r2, k2), And(k1, k2))
  {
    hide *;
    BlendTwiceIn(a, r1, k1, r2, k2);
    BlendTwiceOut(a, r1, k1, r2, k2);
    ExtraAntisym(Blend(Blend(a, r1, k1), r2, k2), Blend(a, Blend(r1, r2, k2), And(k1, k2)));
  }

  lemma BlendTwiceIn(a: Word, r1: Word, k1: Word, r2: Word, k2: Word)
    ensures Extra(Blend(Blend(a, r1, k1), r2, k2), Blend(a, Blend(r1, r2, k2), And(k1, k2))) == 0
  {
    hide *;
    var t := Blend(a, Blend(r1, r2, k2), And(k1, k2));
    PieceA(a, r1, k1, r2, k2);
    PieceFirst(a, r1, k1, r2, k2);
    PieceSecond(a, r1, k1, r2, k2);
    PiecesInside(a, r1, k1, r2, k2, t);
  }

  lemma PieceA(a: Word, r1: Word, k1: Word, r2: Word, k2: Word)
    ensures Extra(And(And(a, k1), k2), Blend(a, Blend(r1, r2, k2), And(k1, k2))) == 0
  {}

  lemma PieceFirst(a: Word, r1: Word, k1: Word, r2: Word, k2: Word)
    ensures Extra(And(And(r1, Not(k1)), k2), Blend(a, Blend(r1, r2, k2), And(k1, k2))) == 0
  {}

  lemma PieceSecond(a: Word, r1: Word, k1: Word, r2: Word, k2: Word)
    ensures Extra(And(r2, Not(k2)), Blend(a, Blend(r1, r2, k2), And(k1, k2))) == 0
  {}

  lemma PiecesInside(a: Word, r1: Word, k1: Word, r2: Word, k2: Word, t: Word)
    requires Extra(And(And(a, k1), k2), t) == 0 && Extra(And(And(r1, Not(k1)), k2), t) == 0
    requires Extra(And(r2, Not(k2)), t) == 0
    ensures Extra(Blend(Blend(a, r1, k1), r2, k2), t) == 0
  {}

  lemma BlendTwiceOut(a: Word, r1: Word, k1: Word, r2: Word, k2: Word)
    ensures Extra(Blend(a, Blend(r1, r2, k2), And(k1, k2)), Blend(Blend(a, r1, k1), r2, k2)) == 0
  {}

  /** The mask of a composition: 1 where both keep, 0 where one sets, x in the padding. */
  function AndMask(k1: Word, k2: Word, pad: Word): Word
  {
    (EVEN_MASK & k1 & k2) | (ODD_MASK & !(k1 & k2)) | pad
  }

  lemma AndMaskKeeps(k1: Word, k2: Word, pad: Word)
    requires Swap(pad) == pad && Extra(pad, k1) == 0 && Extra(pad, k2) == 0
    requires Swap(k1) == k1 && Swap(k2) == k2
    ensures Keep(AndMask(k1, k2, pad)) == And(k1, k2)
  {
    hide *;
    AndSymmetric(k1, k2);
    AndMaskHigh(k1, k2, pad);
    HighAndMask(k1, k2, pad);
    KeepInside(AndMask(k1, k2, pad), And(k1, k2));
    InsideKeep(AndMask(k1, k2, pad), And(k1, k2));
    ExtraAntisym(Keep(AndMask(k1, k2, pad)), And(k1, k2));
  }

  lemma KeepInside(m: Word, c: Word)
    requires Swap(c) == c && Extra(And(m, EVEN_MASK), c) == 0
    ensures Extra(Keep(m), c) == 0
  {}

  lemma InsideKeep(m: Word, c: Word)
    requires Swap(c) == c && Extra(And(c, EVEN_MASK), m) == 0
    ensures Extra(c, Keep(m)) == 0
  {}

  lemma AndSymmetric(k1: Word, k2: Word)
    requires Swap(k1) == k1 && Swap(k2) == k2
    ensures Swap(And(k1, k2)) == And(k1, k2)
  {
    hide *;
    SwapLeft(k1, k2);
    SwapRight(k1, k2);
    ExtraMeetIn(Swap(And(k1, k2)), k1, k2);
    SwapClosed(And(k1, k2));
    ExtraAntisym(Swap(And(k1, k2)), And(k1, k2));
  }

  lemma SwapLeft(k1: Word, k2: Word)
    requires Swap(k1) == k1
    ensures Extra(Swap(And(k1, k2)), k1) == 0
  {}

  lemma SwapRight(k1: Word, k2: Word)
    requires Swap(k2) == k2
    ensures Extra(Swap(And(k1, k2)), k2) == 0
  {}

  lemma SwapClosed(c: Word)
    requires Extra(Swap(c), c) == 0
    ensures Extra(c, Swap(c)) == 0
  {}

  lemma AndMaskHigh(k1: Word, k2: Word, pad: Word)
    requires Extra(pad, k1) == 0 && Extra(pad, k2) == 0
    ensures Extra(And(AndMask(k1, k2, pad), EVEN_MASK), And(k1, k2)) == 0
  {}

  lemma HighAndMask(k1: Word, k2: Word, pad: Word)
    ensures Extra(And(And(k1, k2), EVEN_MASK), AndMask(k1, k2, pad)) == 0
  {}

  /** The composition fits: the rewrite of the left changer, rewritten by the right one. */
  lemma ComposeFits(k1: Word, k2: Word, r1: Word, r2: Word, pad: Word)
    requires Swap(pad) == pad && Extra(pad, k1) == 0 && Extra(pad, k2) == 0
    requires Swap(k1) == k1 && Swap(k2) == k2
    requires Extra(pad, r1) == 0 && Extra(pad, r2) == 0 && !HasZ(r1) && !HasZ(r2)
    requires Extra(And(k1, ODD_MASK), r1) == 0 && Extra(And(And(r1, EVEN_MASK), k1), pad) == 0
    ensures Fits(AndMask(k1, k2, pad), Blend(r1, r2, k2), pad)
  {
    hide Swap, HasZ, And, Not, Or, Keep, AndMask, Blend, Extra;
    var k := And(k1, k2);
    AndMaskKeeps(k1, k2, pad);
    ExtraMeet(pad, k1, k2);
    BlendPad(r1, r2, k2, pad);
    BlendNoZ(r1, r2, k2);
    ComposeLow(k1, k2, r1, r2);
    ComposeHigh(k1, k2, r1, r2, pad);
    AndMaskLow(k1, k2, pad);
    AndMaskSet(k1, k2, pad);
  }

  lemma ComposeLow(k1: Word, k2: Word, r1: Word, r2: Word)
    requires Extra(And(k1, ODD_MASK), r1) == 0
    ensures Extra(And(And(k1, k2), ODD_MASK), Blend(r1, r2, k2)) == 0
  {}

  lemma ComposeHigh(k1: Word, k2: Word, r1: Word, r2: Word, pad: Word)
    requires Extra(And(And(r1, EVEN_MASK), k1), pad) == 0
    ensures Extra(And(And(Blend(r1, r2, k2), EVEN_MASK), And(k1, k2)), pad) == 0
  {}

  lemma AndMaskLow(k1: Word, k2: Word, pad: Word)
    ensures Extra(And(And(AndMask(k1, k2, pad), ODD_MASK), And(k1, k2)), pad) == 0
  {}

  lemma AndMaskSet(k1: Word, k2: Word, pad: Word)
    ensures Extra(And(Not(And(k1, k2)), ODD_MASK), AndMask(k1, k2, pad)) == 0
  {}

  lemma ComposeExact(k1: Word, k2: Word, r1: Word, r2: Word)
    requires ExactWhenSet(r1, k1) && ExactWhenSet(r2, k2) && Swap(k1) == k1 && Swap(k2) == k2
    ensures ExactWhenSet(Blend(r1, r2, k2), And(k1, k2))
  {}

  lemma ComposeFree(k1: Word, k2: Word, v1: Word, v2: Word)
    requires Extra(Not(k1), v1) == 0 && Extra(Not(k2), v2) == 0
    ensures Extra(Not(And(k1, k2)), Blend(v1, v2, k2)) == 0
  {}

  // --- the changer of a transfer mask ---

  function XSpread(t: Word): Word { XBits(t) | (XBits(t) << 1) }

  /** x positions are kept; the others are set to v, which is the transfer value or x. */
  function SetWhere(v: Word, k: Word, pad: Word): Word { (ODD_MASK & k) | pad | (v & !k) }

  lemma XSpreadSymmetric(t: Word)
    ensures Swap(XSpread(t)) == XSpread(t)
  {}

  lemma XSpreadPad(t: Word, pad: Word)
    requires Swap(pad) == pad && Extra(pad, t) == 0
    ensures Extra(pad, XSpread(t)) == 0
  {}

  lemma TransferFits(v: Word, k: Word, pad: Word)
    requires Swap(pad) == pad && Swap(k) == k && Extra(pad, k) == 0 && !HasZ(v)
    ensures Keep(AndMask(k, k, pad)) == k && Fits(AndMask(k, k, pad), SetWhere(v, k, pad), pad)
  {
    hide Swap, HasZ, And, Not, Or, Keep, AndMask, SetWhere, Extra;
    AndMaskKeeps(k, k, pad);
    AndSame(k);
    AndMaskLow(k, k, pad);
    AndMaskSet(k, k, pad);
    SetWherePad(v, k, pad);
    SetWhereLow(v, k, pad);
    SetWhereHigh(v, k, pad);
    SetWhereNoZ(v, k, pad);
  }

  lemma AndSame(k: Word)
    ensures And(k, k) == k
  {}

  lemma SetWherePad(v: Word, k: Word, pad: Word)
    ensures Extra(pad, SetWhere(v, k, pad)) == 0
  {}

  lemma SetWhereLow(v: Word, k: Word, pad: Word)
    ensures Extra(And(k, ODD_MASK), SetWhere(v, k, pad)) == 0
  {}

  lemma SetWhereHigh(v: Word, k: Word, pad: Word)
    ensures Extra(And(And(SetWhere(v, k, pad), EVEN_MASK), k), pad) == 0
  {}

  lemma SetWhereNoZ(v: Word, k: Word, pad: Word)
    requires !HasZ(v) && Swap(k) == k
    ensures !HasZ(SetWhere(v, k, pad))
  {}

  lemma SetWhereExact(t: Word, pad: Word)
    requires !HasZ(t) && Swap(pad) == pad && Extra(pad, t) == 0
    ensures ExactWhenSet(SetWhere(t, XSpread(t), pad), XSpread(t))
  {}

  lemma SetWhereFree(k: Word, pad: Word)
    ensures Extra(Not(k), SetWhere(!0, k, pad)) == 0
  {}

  // --- single positions ---

  /** Both bits of the position of the single bit l. */
  function Position(l: Word): Word { Or(l, Swap(l)) }

  lemma PositionIsX(l: Word, t: Word)
    requires SingleBit(l) && Extra(Position(l), t) == 0
    ensures Extra(Position(l), XSpread(t)) == 0
  {
    hide SingleBit;
    SingleHalf(l);
    if l & EVEN_MASK == 0 { OddIsX(l, t); } else { EvenIsX(l, t); }
  }

  lemma OddIsX(l: Word, t: Word)
    requires l & EVEN_MASK == 0 && Extra(Position(l), t) == 0
    ensures Extra(Position(l), XSpread(t)) == 0
  {}

  lemma EvenIsX(l: Word, t: Word)
    requires l & ODD_MASK == 0 && Extra(Position(l), t) == 0
    ensures Extra(Position(l), XSpread(t)) == 0
  {}

  lemma PositionIsSet(l: Word, t: Word)
    requires SingleBit(l) && Extra(Position(l), t) != 0
    ensures And(Position(l), XSpread(t)) == 0
  {
    hide SingleBit, Swap, Or, And, XSpread;
    if Extra(l, t) != 0 { BitIsSet(l, t); } else {
      if Extra(Swap(l), t) == 0 { ExtraOfOr(l, Swap(l), t); }
      SwapSingle(l);
      BitIsSet(Swap(l), t);
      SwapTwice(l);
      OrOrder(l, Swap(l));
    }
  }

  lemma ExtraOfOr(u: Word, v: Word, t: Word)
    requires Extra(u, t) == 0 && Extra(v, t) == 0
    ensures Extra(Or(u, v), t) == 0
  {}

  lemma OrOrder(u: Word, v: Word)
    ensures Or(u, v) == Or(v, u)
  {}

  lemma SwapTwice(l: Word)
    ensures Swap(Swap(l)) == l
  {}

  /** A position of which t lacks the bit l is not x. */
  lemma BitIsSet(l: Word, t: Word)
    requires SingleBit(l) && Extra(l, t) != 0
    ensures And(Position(l), XSpread(t)) == 0
  {
    hide SingleBit, XSpread, Position;
    SingleOutside(l, t);
    SingleHalf(l);
    if l & EVEN_MASK == 0 { OddIsSet(l, t); } else { EvenIsSet(l, t); }
  }

  lemma OddIsSet(l: Word, t: Word)
    requires l & EVEN_MASK == 0 && And(l, t) == 0
    ensures And(Position(l), XSpread(t)) == 0
  {}

  lemma EvenIsSet(l: Word, t: Word)
    requires l & ODD_MASK == 0 && And(l, t) == 0
    ensures And(Position(l), XSpread(t)) == 0
  {}

  lemma BlendKept(h: Word, r: Word, k: Word, p: Word)
    requires Extra(p, k) == 0
    ensures And(Blend(h, r, k), p) == And(h, p)
  {}

  lemma BlendSet(h: Word, t: Word, k: Word, pad: Word, p: Word)
    requires And(p, k) == 0 && Extra(pad, k) == 0
    ensures And(Blend(h, SetWhere(t, k, pad), k), p) == And(t, p)
  {}
}
