/** NetworkSpace and Transfer of src/NetworkSpace.cpp: header spaces with an input port. */
module NetworkSpaces {
  import opened Words
  import opened Masks
  import opened HeaderLists
  import opened Compaction
  import opened Intersection
  import opened Complement
  import opened HeaderChangers
  import opened RewriteWords
  import opened Rewriting
  import opened HeaderSpaces

  const NONE: nat := 0
  const ANY: nat := 0xFFFFFFFF

  datatype NetworkSpace = NetworkSpace(port: nat, header: Space)

  datatype Packet = Packet(port: nat, header: Mask)

  predicate RealPort(port: nat) { port != NONE && port != ANY }

  /** A packet arrives at a real port with one concrete header. */
  predicate IsPacket(p: Packet, n: nat)
  {
    RealPort(p.port) && IsHeader(p.header, n)
  }

  predicate PortHas(space: nat, port: nat)
  {
    space != NONE && (space == ANY || space == port)
  }

  /** SpecialPort::NONE is no port, SpecialPort::ANY every port but these two. */
  lemma PortsAre(space: nat, port: nat)
    ensures RealPort(port) <==> port != 0 && port != 0xFFFFFFFF
    ensures RealPort(port) ==> (PortHas(space, port) <==> space == port || space == 0xFFFFFFFF)
    ensures !PortHas(0, port)
  {}

  predicate NsHas(p: Packet, d: NetworkSpace)
  {
    PortHas(d.port, p.port) && Has(p.header, d.header)
  }

  /** A domain as the network model keeps it: at most one element. */
  predicate IsDomain(d: NetworkSpace, pad: Mask)
  {
    AreTerms(d.header, pad) && |d.header| <= 1
  }

  ghost predicate NoPackets(d: NetworkSpace, n: nat)
  {
    forall p | IsPacket(p, n) :: !NsHas(p, d)
  }

  ghost predicate SamePackets(c: NetworkSpace, d: NetworkSpace, n: nat)
  {
    forall p | IsPacket(p, n) :: NsHas(p, c) <==> NsHas(p, d)
  }

  // --- intersection ---

  /** operator&. */
  function MeetPorts(a: nat, b: nat): nat
  {
    if a == NONE || b == NONE then NONE
    else if a == ANY then b
    else if b == ANY then a
    else if a == b then a else NONE
  }

  lemma MeetPortsHas(a: nat, b: nat, p: nat)
    requires RealPort(p)
    ensures PortHas(MeetPorts(a, b), p) <==> PortHas(a, p) && PortHas(b, p)
  {}

  method And(a: NetworkSpace, b: NetworkSpace, pad: Mask) returns (c: NetworkSpace)
    requires AreTerms(a.header, pad) && AreTerms(b.header, pad)
    ensures AreTerms(c.header, pad) && DiffsInside(c.header)
    ensures MasksInside(c.header, a.header) && MasksInside(c.header, b.header)
    ensures c.port == MeetPorts(a.port, b.port)
    ensures NoDiffs(a.header) && NoDiffs(b.header) ==> NoDiffs(c.header)
    ensures IsDomain(a, pad) && IsDomain(b, pad) ==> IsDomain(c, pad)
    ensures forall p | IsPacket(p, |pad|) :: NsHas(p, c) <==> NsHas(p, a) && NsHas(p, b)
    ensures forall h | IsHeader(h, |pad|) ::
              Has(h, c.header) <==> c.port != NONE && Has(h, a.header) && Has(h, b.header)
    ensures c.port == NONE ==> c.header == []
  {
    hide Has, IsHeader, IsTerm;
    assert forall h :: !Has(h, []) by { NothingInEmpty(); }
    var port := MeetPorts(a.port, b.port);
    forall p | IsPacket(p, |pad|) ensures PortHas(port, p.port) <==> PortHas(a.port, p.port) && PortHas(b.port, p.port) {
      MeetPortsHas(a.port, b.port, p.port);
    }
    if port == NONE {
      c := NetworkSpace(NONE, []);
    } else {
      var hs := new HeaderSpace(pad, a.header);
      hs.Isect(b.header);
      c := NetworkSpace(port, hs.list);
    }
  }

  // --- difference ---

  /** What operator-= leaves of the headers outside b: a right side with diffs goes through
      its complement. */
  ghost predicate Outside(h: Mask, b: Space, n: nat)
    requires AllAligned(b)
  {
    if NoDiffs(b) then !Has(h, b) else HsCmplHas(h, b, n)
  }

  /** operator-= looks at the headers only. Only when both sides have diffs may compaction
      lose a header of the difference. */
  method Minus(a: NetworkSpace, b: NetworkSpace, pad: Mask) returns (c: NetworkSpace)
    requires AreTerms(a.header, pad) && AreTerms(b.header, pad)
    ensures AreTerms(c.header, pad) && c.port == a.port && AllAligned(b.header)
    ensures NoDiffs(b.header) ==> |c.header| == |a.header|
    ensures forall p | IsPacket(p, |pad|) :: NsHas(p, c) ==> NsHas(p, a) && Outside(p.header, b.header, |pad|)
    ensures NoDiffs(a.header) || NoDiffs(b.header) ==>
              forall p | IsPacket(p, |pad|) && NsHas(p, a) && Outside(p.header, b.header, |pad|) :: NsHas(p, c)
  {
    hide Has, IsHeader, IsTerm, HsCmplHas, AllAligned, SubtractedAll, CompactedList, SubtractedList;
    var hs := new HeaderSpace(pad, a.header);
    ghost var isect := hs.Subtract(b.header);
    c := NetworkSpace(a.port, hs.list);
    if NoDiffs(b.header) { SubtractedLength(a.header, MaskList(b.header)); }
  }

  lemma {:induction false} SubtractedLength(ts: Space, ms: seq<Mask>)
    ensures |SubtractedAll(ts, ms)| == |ts|
  {
    hide SubtractedTerm;
    if ms != [] { SubtractedLength(ts, ms[..|ms| - 1]); }
  }

  /** Every real port of a is a port of b. */
  predicate PortsInside(a: nat, b: nat)
  {
    a == NONE || b == ANY || (a == b && a != ANY)
  }

  /** The difference that ignores ports is the difference of packets if and only if b
      listens to all ports of a, or the two have no header in common. */
  lemma MinusExactIff(a: NetworkSpace, b: NetworkSpace, n: nat)
    ensures (forall p | IsPacket(p, n) :: NsHas(p, a) && !Has(p.header, b.header) <==> NsHas(p, a) && !NsHas(p, b))
       <==> PortsInside(a.port, b.port) || forall h | IsHeader(h, n) :: !(Has(h, a.header) && Has(h, b.header))
  {
    hide Has, IsHeader;
    if !PortsInside(a.port, b.port) {
      var q := if RealPort(a.port) then a.port else if b.port == 1 then 2 else 1;
      assert PortHas(a.port, q) && !PortHas(b.port, q);
      forall h | IsHeader(h, n) && Has(h, a.header) && Has(h, b.header)
        ensures NsHas(Packet(q, h), a) && !NsHas(Packet(q, h), b) && IsPacket(Packet(q, h), n)
      {}
    }
  }

  // --- emptiness ---

  ghost function DiffHeaders(ts: Space): iset<Mask>
    requires |ts| <= 1
  {
    iset h | |ts| == 1 && InAny(h, ts[0].diffs)
  }

  lemma SingleCommon(ts: Space, n: nat)
    requires |ts| <= 1
    ensures CommonDiff(ts, DiffHeaders(ts), n)
  {
    hide In;
  }

  /** The header is what compaction has left of raw. */
  ghost predicate SettledFrom(header: Space, raw: Space)
  {
    AllAligned(raw) && header == Settled(raw)
  }

  /** What empty() answers: no port, or compaction leaves no element. */
  ghost predicate FoundEmpty(d: NetworkSpace)
  {
    AllAligned(d.header) && (d.port == NONE || Settled(d.header) == [])
  }

  /** A domain that empty() has looked at and in which it has found something. */
  ghost predicate Nonempty(d: NetworkSpace)
  {
    d.port != NONE && d.header != [] && exists raw :: SettledFrom(d.header, raw)
  }

  /** Without diffs, such a domain has a packet. */
  lemma NonemptyHas(d: NetworkSpace, pad: Mask) returns (p: Packet)
    requires Nonempty(d) && AreTerms(d.header, pad) && NoDiffs(d.header)
    ensures IsPacket(p, |pad|) && NsHas(p, d)
  {
    hide Has, IsHeader, IsTerm, SettledFrom;
    PlainNonempty(d.header, pad);
    var h :| IsHeader(h, |pad|) && Has(h, d.header);
    p := Packet(if d.port == ANY then 1 else d.port, h);
  }

  /** empty(): it compacts the domain as a side effect, which adds no packet and keeps all
      packets of a single element. A true answer is always right; without diffs the answer
      is exact. */
  method Empty(d: NetworkSpace, pad: Mask) returns (e: bool, c: NetworkSpace)
    requires AreTerms(d.header, pad)
    ensures AreTerms(c.header, pad) && c.port == d.port && MasksInside(c.header, d.header) && |c.header| <= |d.header|
    ensures forall p | IsPacket(p, |pad|) && NsHas(p, c) :: NsHas(p, d)
    ensures IsDomain(d, pad) ==> SamePackets(c, d, |pad|)
    ensures e ==> NoPackets(d, |pad|)
    ensures NoDiffs(d.header) ==> (e <==> NoPackets(d, |pad|)) && c == d
    ensures AllAligned(d.header) && (e <==> FoundEmpty(d))
    ensures !e ==> c.header == Settled(d.header) && Nonempty(c)
    ensures AllDoomed(d.header) ==> e
  {
    hide Has, IsHeader, IsTerm, CommonDiff, InSome, DiffsFrom, DiffHeaders, Settled, AllAligned, AllDoomed;
    TermsAreAligned(d.header, pad);
    c := d;
    MasksInsideSelf(d.header);
    if d.port == NONE { return true, d; }
    ghost var D := if |d.header| <= 1 then DiffHeaders(d.header) else iset{};
    if |d.header| <= 1 { SingleCommon(d.header, |pad|); }
    var hs := new HeaderSpace(pad, d.header);
    e := hs.Empty(D);
    c := NetworkSpace(d.port, hs.list);
    assert SettledFrom(hs.list, d.header);
    NothingInEmpty();
    if NoDiffs(d.header) && !e {
      var h :| IsHeader(h, |pad|) && Has(h, d.header);
      assert NsHas(Packet(if d.port == ANY then 1 else d.port, h), d);
    }
  }

  // --- Transfer ---

  datatype Transfer = Transfer(src: nat, dst: nat, changer: Changer)

  /** The transfers of rules accept any port and send to a real port, or keep the port. */
  predicate IsTransfer(t: Transfer, pad: Mask)
  {
    IsChanger(t.changer, pad) && t.src == ANY && t.dst != ANY
  }

  function ApplyPacket(p: Packet, t: Transfer): Packet
    requires |p.header| == |t.changer.mask| == |t.changer.rewrite|
  {
    Packet(if t.dst == NONE then p.port else t.dst, ApplyHeader(p.header, t.changer))
  }

  /** q is the form in which some packet of d leaves through t. */
  ghost predicate Image(q: Packet, t: Transfer, d: NetworkSpace, pad: Mask)
    requires IsTransfer(t, pad)
  {
    exists p :: IsPacket(p, |pad|) && NsHas(p, d) && ApplyPacket(p, t) == q
  }

  lemma IdentityApplies(h: Mask, c: Changer, pad: Mask)
    requires IsChanger(c, pad) && c.identity && |h| == |pad|
    ensures ApplyHeader(h, c) == h
  {
    hide Extra, Keep, Fits, Blend, ExactWhenSet, Not;
    forall i | 0 <= i < |pad| ensures Blend(h[i], c.rewrite[i], Keep(c.mask[i])) == h[i] {
      BlendAll(h[i], c.rewrite[i], Keep(c.mask[i]));
    }
  }

  /** portTransfer(): the headers stay, the port is set. */
  function PortTransfer(port: nat, pad: Mask): Transfer
  {
    Transfer(ANY, port, FromTransfer(AllX(|pad|), pad))
  }

  /** identityTransfer(). */
  function IdentityTransfer(pad: Mask): Transfer
  {
    PortTransfer(NONE, pad)
  }

  lemma PortTransferKeeps(port: nat, h: Mask, pad: Mask)
    requires IsPad(pad) && |h| == |pad|
    ensures IsChanger(PortTransfer(port, pad).changer, pad) && ApplyHeader(h, PortTransfer(port, pad).changer) == h
    ensures port != ANY ==> IsTransfer(PortTransfer(port, pad), pad)
  {
    AllXIsMask(pad);
    TransferIsChanger(AllX(|pad|), pad);
    AllXKeeps(port, pad);
    IdentityApplies(h, PortTransfer(port, pad).changer, pad);
  }

  lemma AllXKeeps(port: nat, pad: Mask)
    ensures PortTransfer(port, pad).changer.identity
  {}

  /** No element loses two different diffs when it is rewritten. */
  predicate FewDropped(ts: Space, c: Changer)
  {
    c.identity || forall i | 0 <= i < |ts| :: OneDropped(ts[i], c.mask)
  }

  lemma NoneDropped(ts: Space, c: Changer)
    requires NoDiffs(ts)
    ensures FewDropped(ts, c) && DiffsInside(ts)
  {}

  lemma InsideEach(ts: Space, i: nat)
    requires DiffsInside(ts) && i < |ts|
    ensures DiffsInside([ts[i]])
  {}

  /** Rewriting keeps the image of every header, and is exact where few diffs are dropped. */
  lemma RewriteIsImage(y: Mask, r: Space, ts: Space, c: Changer, pad: Mask)
    requires IsChanger(c, pad) && IsHeader(y, |pad|) && AreTerms(ts, pad) && DiffsInside(ts) && |r| == |ts|
    requires forall i | 0 <= i < |ts| ::
               Rewritten(r[i], ts[i], c.mask, c.rewrite, pad) && RewrittenDiffs(r[i], ts[i], c.mask, c.rewrite)
    ensures (exists x :: IsHeader(x, |pad|) && Has(x, ts) && ApplyHeader(x, c) == y) ==> Has(y, r)
    ensures (forall i | 0 <= i < |ts| :: OneDropped(ts[i], c.mask)) && Has(y, r) ==>
              exists x :: IsHeader(x, |pad|) && Has(x, ts) && ApplyHeader(x, c) == y
  {
    hide In, Exact, Rewritten, RewrittenDiffs, TermHas, BlendMask, Fits, ExactWhenSet, Extra, DiffsInside, OneDropped, IsTerm;
    if x :| IsHeader(x, |pad|) && Has(x, ts) && ApplyHeader(x, c) == y {
      var i :| 0 <= i < |ts| && TermHas(x, ts[i]);
      InsideEach(ts, i);
      ImageKept(x, r[i], ts[i], c, pad);
    }
    if (forall i | 0 <= i < |ts| :: OneDropped(ts[i], c.mask)) && Has(y, r) {
      var i :| 0 <= i < |r| && TermHas(y, r[i]);
      InsideEach(ts, i);
      var x := ImageExact(y, r[i], ts[i], c, pad);
      assert Has(x, ts);
    }
  }

  /** Rewriting brings no diffs in. */
  lemma RewrittenPlain(r: Space, ts: Space, mask: Mask, rewrite: Mask, pad: Mask)
    requires FitMasks(mask, rewrite, pad) && |r| == |ts| && NoDiffs(ts)
    requires forall i | 0 <= i < |ts| :: Rewritten(r[i], ts[i], mask, rewrite, pad) && RewrittenDiffs(r[i], ts[i], mask, rewrite)
    ensures NoDiffs(r)
  {
    hide In, IsHeader, FitMasks, RewriteMask, HasZ, Extra;
    forall i | 0 <= i < |r| ensures r[i].diffs == [] {
      if r[i].diffs != [] {
        var d := r[i].diffs[0];
        assert IsMask(d, pad);
        PickHeaderIn(d);
        SomethingInAny(PickHeader(d), r[i].diffs);
        assert false;
      }
    }
  }

  lemma SomethingInAny(h: Mask, ms: seq<Mask>)
    requires ms != [] && In(h, ms[0])
    ensures InAny(h, ms)
  {
    hide In;
  }

  /** apply(): every packet in the form in which it leaves, and nothing else where each
      element drops at most one of its diffs. */
  method Apply(t: Transfer, d: NetworkSpace, pad: Mask) returns (c: NetworkSpace)
    requires IsTransfer(t, pad) && AreTerms(d.header, pad) && DiffsInside(d.header) && d.port != NONE
    ensures c.port == (if t.dst == NONE then d.port else t.dst) && InImage(c.header, t.changer)
    ensures AreTerms(c.header, pad) && |c.header| == |d.header| && (NoDiffs(d.header) ==> NoDiffs(c.header))
    ensures forall q | IsPacket(q, |pad|) && Image(q, t, d, pad) :: NsHas(q, c)
    ensures FewDropped(d.header, t.changer) ==> forall q | IsPacket(q, |pad|) && NsHas(q, c) :: Image(q, t, d, pad)
  {
    hide Has, IsHeader, IsTerm, Rewritten, RewrittenDiffs, ApplyHeader, IsChanger, InsideImage, DiffsInside, OneDropped;
    var port := if t.dst == NONE then d.port else t.dst;
    var header := d.header;
    if !t.changer.identity {
      ChangerFits(t.changer, pad);
      header := RewriteTerms(d.header, t.changer.mask, t.changer.rewrite, pad);
      RewrittenInImage(header, d.header, t.changer, pad);
      if NoDiffs(d.header) { RewrittenPlain(header, d.header, t.changer.mask, t.changer.rewrite, pad); }
    } else {
      IdentityInImage(header, t.changer, pad);
    }
    c := NetworkSpace(port, header);
    forall q | IsPacket(q, |pad|)
      ensures Image(q, t, d, pad) ==> NsHas(q, c)
      ensures FewDropped(d.header, t.changer) && NsHas(q, c) ==> Image(q, t, d, pad)
    {
      if t.changer.identity {
        IdentityImage(q, t, d, pad);
      } else {
        RewriteIsImage(q.header, header, d.header, t.changer, pad);
        ImagePorts(q, t, d, pad);
      }
    }
  }

  lemma ChangerFits(c: Changer, pad: Mask)
    requires IsChanger(c, pad)
    ensures FitMasks(c.mask, c.rewrite, pad) && FitMasks(c.mask, c.inverse, pad)
  {}

  lemma IdentityImage(q: Packet, t: Transfer, d: NetworkSpace, pad: Mask)
    requires IsTransfer(t, pad) && t.changer.identity && IsPacket(q, |pad|) && d.port != NONE
    ensures Image(q, t, d, pad) <==> PortHas(if t.dst == NONE then d.port else t.dst, q.port) && Has(q.header, d.header)
  {
    hide Has, Exact, ApplyHeader, IsChanger;
    ChangerFits(t.changer, pad);
    forall h | |h| == |pad| ensures ApplyHeader(h, t.changer) == h { IdentityApplies(h, t.changer, pad); }
    var port := if t.dst == NONE then q.port else if d.port == ANY then 1 else d.port;
    if PortHas(if t.dst == NONE then d.port else t.dst, q.port) && Has(q.header, d.header) && RealPort(port) {
      var p := Packet(port, q.header);
      assert IsPacket(p, |pad|) && NsHas(p, d) && ApplyPacket(p, t) == q;
    }
  }

  lemma ImagePorts(q: Packet, t: Transfer, d: NetworkSpace, pad: Mask)
    requires IsTransfer(t, pad) && IsPacket(q, |pad|) && d.port != NONE
    ensures Image(q, t, d, pad) <==>
              PortHas(if t.dst == NONE then d.port else t.dst, q.port) &&
              exists x :: IsHeader(x, |pad|) && Has(x, d.header) && ApplyHeader(x, t.changer) == q.header
  {
    hide Has, Exact, BlendMask, IsChanger;
    ChangerFits(t.changer, pad);
    var port := if t.dst == NONE then q.port else if d.port == ANY then 1 else d.port;
    if PortHas(if t.dst == NONE then d.port else t.dst, q.port) {
      if x :| IsHeader(x, |pad|) && Has(x, d.header) && ApplyHeader(x, t.changer) == q.header {
        var p := Packet(port, x);
        HeaderHasLength(x, |pad|);
        assert IsPacket(p, |pad|) && NsHas(p, d) && ApplyPacket(p, t) == q;
      }
    }
  }

  lemma HeaderHasLength(x: Mask, n: nat)
    requires IsHeader(x, n)
    ensures |x| == n
  {}

  /** inverse(): the port becomes the transfer's source port, whatever it was. No header
      that the transfer maps into d is missing, and there is no other where d lies inside
      the image of the transfer. */
  method Inverse(t: Transfer, d: NetworkSpace, pad: Mask) returns (c: NetworkSpace)
    requires IsTransfer(t, pad) && AreTerms(d.header, pad) && DiffsInside(d.header)
    ensures AreTerms(c.header, pad) && c.port == ANY && |c.header| == |d.header| && (NoDiffs(d.header) ==> NoDiffs(c.header))
    ensures forall p | IsPacket(p, |pad|) && Has(ApplyHeader(p.header, t.changer), d.header) :: NsHas(p, c)
    ensures t.changer.identity || InImage(d.header, t.changer) ==>
              forall p | IsPacket(p, |pad|) && NsHas(p, c) :: Has(ApplyHeader(p.header, t.changer), d.header)
  {
    hide Has, Exact, IsTerm, Rewritten, RewrittenDiffs, BlendMask, Fits, ExactWhenSet, Extra, InsideImage, DiffsInside;
    var header := d.header;
    if !t.changer.identity {
      ChangerFits(t.changer, pad);
      header := RewriteTerms(d.header, t.changer.mask, t.changer.inverse, pad);
      if NoDiffs(d.header) { RewrittenPlain(header, d.header, t.changer.mask, t.changer.inverse, pad); }
    }
    c := NetworkSpace(t.src, header);
    forall p | IsPacket(p, |pad|)
      ensures Has(ApplyHeader(p.header, t.changer), d.header) ==> NsHas(p, c)
      ensures t.changer.identity || InImage(d.header, t.changer) ==> NsHas(p, c) ==> Has(ApplyHeader(p.header, t.changer), d.header)
    {
      HeaderHasLength(p.header, |pad|);
      if t.changer.identity {
        IdentityApplies(p.header, t.changer, pad);
      } else {
        InverseIsPreimage(p.header, header, d.header, t.changer, pad);
      }
    }
  }

  lemma InverseIsPreimage(y: Mask, r: Space, ts: Space, c: Changer, pad: Mask)
    requires IsChanger(c, pad) && IsHeader(y, |pad|) && AreTerms(ts, pad) && DiffsInside(ts) && |r| == |ts|
    requires forall i | 0 <= i < |ts| ::
               Rewritten(r[i], ts[i], c.mask, c.inverse, pad) && RewrittenDiffs(r[i], ts[i], c.mask, c.inverse)
    ensures |y| == |c.mask| == |c.rewrite|
    ensures Has(ApplyHeader(y, c), ts) ==> Has(y, r)
    ensures InImage(ts, c) && Has(y, r) ==> Has(ApplyHeader(y, c), ts)
  {
    hide In, IsHeader, IsTerm, Rewritten, RewrittenDiffs, TermHas, ApplyHeader, IsChanger, InsideImage, DiffsInside;
    ChangerFits(c, pad);
    HeaderHasLength(y, |pad|);
    if Has(ApplyHeader(y, c), ts) {
      var i :| 0 <= i < |ts| && TermHas(ApplyHeader(y, c), ts[i]);
      InsideEach(ts, i);
      PreimageKept(y, r[i], ts[i], c, pad);
    }
    if InImage(ts, c) && Has(y, r) {
      var i :| 0 <= i < |r| && TermHas(y, r[i]);
      InsideEach(ts, i);
      PreimageExact(y, r[i], ts[i], c, pad);
    }
  }

  /** operator*: first left, then right, with the source port of left. */
  function ComposeTransfers(left: Transfer, right: Transfer, pad: Mask): Transfer
    requires IsChanger(left.changer, pad) && IsChanger(right.changer, pad)
  {
    Transfer(left.src, right.dst, Compose(left.changer, right.changer, pad))
  }

  /** The composition sends a packet like left followed by right if and only if right sets a
      port, or left leaves the port of the packet as it is: the port of left is forgotten. */
  lemma ComposedInTurn(p: Packet, left: Transfer, right: Transfer, pad: Mask)
    requires IsTransfer(left, pad) && IsChanger(right.changer, pad) && IsPacket(p, |pad|)
    ensures var t := ComposeTransfers(left, right, pad);
      && t.src == left.src && IsChanger(t.changer, pad)
      && |p.header| == |t.changer.mask| == |t.changer.rewrite| == |left.changer.mask| == |left.changer.rewrite|
    ensures |ApplyPacket(p, left).header| == |right.changer.mask| == |right.changer.rewrite|
    ensures ApplyPacket(p, ComposeTransfers(left, right, pad)) == ApplyPacket(ApplyPacket(p, left), right) <==>
              right.dst != NONE || left.dst == NONE || left.dst == p.port
  {
    hide IsChanger, Compose, ApplyHeader;
    ChangerFits(left.changer, pad);
    ChangerFits(right.changer, pad);
    HeaderHasLength(p.header, |pad|);
    ComposeApplies(p.header, left.changer, right.changer, pad);
    ChangerFits(Compose(left.changer, right.changer, pad), pad);
    AppliedLength(p.header, left.changer);
  }

  lemma AppliedLength(h: Mask, c: Changer)
    requires |h| == |c.mask| == |c.rewrite|
    ensures |ApplyHeader(h, c)| == |h|
  {}
}
