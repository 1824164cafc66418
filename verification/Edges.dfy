/** The vertices and edges of the dependency graph (src/network/Vertex.hpp, EdgeInstaller
    in src/network/DependencyGraph.cpp) and what an edge has to carry. */
module Edges {
  import opened Masks
  import opened HeaderLists
  import opened NetworkSpaces
  import opened Rewriting
  import opened Tables

  /** domain is the effective domain: what the rules above leave to the rule. */
  datatype Vertex = Vertex(rule: Rule, domain: NetworkSpace)

  datatype Edge = Edge(src: nat, dst: nat, transfer: Transfer, domain: NetworkSpace)

  type Vertices = map<nat, Vertex>
  type EdgeMap = map<nat, Edge>

  /** Where the packets of a rule arrive: at all rules of a table, or at one sink. */
  datatype Dest = TableDest(table: nat) | SinkDest(sink: nat)

  datatype Feed = Feed(dest: Dest, transfer: Transfer)

  type Feeds = map<nat, Feed>

  predicate DestHas(dest: Dest, v: Vertex)
  {
    match dest
    case TableDest(t) => v.rule.kind == Flow && v.rule.table == t
    case SinkDest(s) => v.rule.kind == Sink && v.rule.id == s
  }

  /** A rule's own domain is one match without diffs. */
  predicate IsMatch(d: NetworkSpace, pad: Mask)
  {
    IsDomain(d, pad) && NoDiffs(d.header) && d.port != NONE
  }

  lemma MatchIsDomain(d: NetworkSpace, pad: Mask)
    requires IsMatch(d, pad)
    ensures IsDomain(d, pad)
  {}

  /** A vertex keeps the port of its rule. */
  predicate VertexOk(v: Vertex, pad: Mask)
  {
    IsMatch(v.rule.domain, pad) && IsDomain(v.domain, pad) && v.domain.port == v.rule.domain.port
  }

  /** The port of the packets that t lets out. */
  function OutPort(t: Transfer, port: nat): nat
  {
    if t.dst == NONE then port else t.dst
  }

  /** An edge's domain can be taken back through its transfer. */
  predicate EdgeShape(d: NetworkSpace, t: Transfer, src: Rule, dst: Rule)
  {
    && InImage(d.header, t.changer) && d.port == MeetPorts(OutPort(t, src.domain.port), dst.domain.port)
    && (d.port == NONE ==> d.header == [])
  }

  ghost function Img(t: Transfer, d: NetworkSpace, pad: Mask): iset<Packet>
    requires IsTransfer(t, pad)
  {
    iset q | IsPacket(q, |pad|) && Image(q, t, d, pad)
  }

  /** What should flow from rule src to rule dst: the packets of src, transferred, that
      dst's effective domain accepts. */
  ghost function Flowing(src: Vertex, dst: Vertex, t: Transfer, pad: Mask): iset<Packet>
    requires IsTransfer(t, pad)
  {
    Img(t, src.rule.domain, pad) * Content(dst.domain, |pad|)
  }

  ghost function Want(vs: Vertices, src: nat, dst: nat, t: Transfer, pad: Mask): iset<Packet>
    requires src in vs && dst in vs && IsTransfer(t, pad)
  {
    Flowing(vs[src], vs[dst], t, pad)
  }

  /** The edge may carry only what should flow. */
  ghost predicate EdgeSound(e: Edge, vs: Vertices, feeds: Feeds, pad: Mask)
  {
    && e.src in feeds && e.src in vs && e.dst in vs
    && DestHas(feeds[e.src].dest, vs[e.dst]) && e.transfer == feeds[e.src].transfer
    && IsTransfer(e.transfer, pad) && IsDomain(e.domain, pad)
    && EdgeShape(e.domain, e.transfer, vs[e.src].rule, vs[e.dst].rule) && Nonempty(e.domain)
    && Content(e.domain, |pad|) <= Want(vs, e.src, e.dst, e.transfer, pad)
  }

  /** Some live edge from src to dst carries all of w. */
  ghost predicate Carried(w: iset<Packet>, edges: EdgeMap, dead: set<nat>, src: nat, dst: nat, n: nat)
  {
    w == iset{} || exists id :: CarriedBy(w, id, edges, dead, src, dst, n)
  }

  ghost predicate CarriedBy(w: iset<Packet>, id: nat, edges: EdgeMap, dead: set<nat>, src: nat, dst: nat, n: nat)
  {
    id in edges && id !in dead && edges[id].src == src && edges[id].dst == dst && w <= Content(edges[id].domain, n)
  }

  ghost predicate PairOk(vs: Vertices, feeds: Feeds, edges: EdgeMap, dead: set<nat>, src: nat, dst: nat, pad: Mask)
    requires src in feeds && src in vs && dst in vs && IsTransfer(feeds[src].transfer, pad)
  {
    Carried(Want(vs, src, dst, feeds[src].transfer, pad), edges, dead, src, dst, |pad|)
  }

  ghost predicate FeedsOk(vs: Vertices, feeds: Feeds, pad: Mask)
  {
    && (forall id | id in vs :: vs[id].rule.id == id && VertexOk(vs[id], pad))
    && (forall src | src in feeds :: src in vs && IsTransfer(feeds[src].transfer, pad))
  }

  ghost predicate AllSound(vs: Vertices, feeds: Feeds, edges: EdgeMap, dead: set<nat>, pad: Mask)
  {
    forall id | id in edges && id !in dead :: EdgeSound(edges[id], vs, feeds, pad)
  }

  /** The edges of every feeding rule carry exactly what should flow to each rule of its
      destination; `except` is a rule under construction. */
  ghost predicate AllPairs(vs: Vertices, feeds: Feeds, edges: EdgeMap, dead: set<nat>, except: set<nat>, pad: Mask)
    requires FeedsOk(vs, feeds, pad)
  {
    forall src, dst | src in feeds && dst in vs && dst !in except && DestHas(feeds[src].dest, vs[dst]) ::
      PairOk(vs, feeds, edges, dead, src, dst, pad)
  }

  /** The union of the domains on the edges from src to dst. */
  ghost function Carries(edges: EdgeMap, src: nat, dst: nat, n: nat): iset<Packet>
  {
    iset p | IsCarried(p, edges, src, dst, n)
  }

  ghost predicate IsCarried(p: Packet, edges: EdgeMap, src: nat, dst: nat, n: nat)
  {
    exists id :: CarriesVia(p, id, edges, src, dst, n)
  }

  ghost predicate CarriesVia(p: Packet, id: nat, edges: EdgeMap, src: nat, dst: nat, n: nat)
  {
    id in edges && edges[id].src == src && edges[id].dst == dst && p in Content(edges[id].domain, n)
  }

  /** Sound and complete edges: the union is what should flow. */
  lemma PairCarries(vs: Vertices, feeds: Feeds, edges: EdgeMap, src: nat, dst: nat, pad: Mask)
    requires FeedsOk(vs, feeds, pad) && AllSound(vs, feeds, edges, {}, pad) && AllPairs(vs, feeds, edges, {}, {}, pad)
    requires src in feeds && dst in vs && DestHas(feeds[src].dest, vs[dst])
    ensures Carries(edges, src, dst, |pad|) == Want(vs, src, dst, feeds[src].transfer, pad)
  {
    hide Content, Img, IsTransfer;
    assert PairOk(vs, feeds, edges, {}, src, dst, pad);
    forall p | p in Carries(edges, src, dst, |pad|) ensures p in Want(vs, src, dst, feeds[src].transfer, pad) {
      var id :| CarriesVia(p, id, edges, src, dst, |pad|);
      assert EdgeSound(edges[id], vs, feeds, pad);
    }
    forall p | p in Want(vs, src, dst, feeds[src].transfer, pad) ensures p in Carries(edges, src, dst, |pad|) {
      var id :| CarriedBy(Want(vs, src, dst, feeds[src].transfer, pad), id, edges, {}, src, dst, |pad|);
      assert CarriesVia(p, id, edges, src, dst, |pad|);
    }
  }

  /** empty() is false on what two domains have in common. */
  ghost predicate Shares(a: NetworkSpace, b: NetworkSpace, pad: Mask)
  {
    exists common :: IsDomain(common, pad) && Content(common, |pad|) == Content(a, |pad|) * Content(b, |pad|) && !FoundEmpty(common)
  }

  // --- the operations of NetworkSpace on packet sets ---

  method MeetDomains(a: NetworkSpace, b: NetworkSpace, pad: Mask) returns (c: NetworkSpace)
    requires IsDomain(a, pad) && IsDomain(b, pad)
    ensures IsDomain(c, pad) && Content(c, |pad|) == Content(a, |pad|) * Content(b, |pad|)
    ensures NoDiffs(a.header) && NoDiffs(b.header) ==> NoDiffs(c.header)
    ensures c.port == MeetPorts(a.port, b.port) && MasksInside(c.header, a.header) && (c.port == NONE ==> c.header == [])
  {
    hide NsHas, IsPacket, AreTerms;
    c := And(a, b, pad);
  }

  method IsEmpty(d: NetworkSpace, pad: Mask) returns (e: bool, c: NetworkSpace)
    requires IsDomain(d, pad)
    ensures IsDomain(c, pad) && c.port == d.port && Content(c, |pad|) == Content(d, |pad|) && MasksInside(c.header, d.header)
    ensures NoDiffs(d.header) ==> c == d
    ensures e ==> Content(d, |pad|) == iset{}
    ensures (e <==> FoundEmpty(d)) && (!e ==> Nonempty(c))
  {
    hide NsHas, IsPacket, AreTerms, FoundEmpty, Nonempty;
    e, c := Empty(d, pad);
  }

  /** The domain of an edge from src to dst, as addEdge and updateEdge compute it. */
  method EdgeDomain(src: NetworkSpace, dst: NetworkSpace, t: Transfer, pad: Mask) returns (e: bool, d: NetworkSpace)
    requires IsMatch(src, pad) && IsDomain(dst, pad) && IsTransfer(t, pad)
    ensures IsDomain(d, pad) && Content(d, |pad|) == Img(t, src, pad) * Content(dst, |pad|)
    ensures InImage(d.header, t.changer) && d.port == MeetPorts(OutPort(t, src.port), dst.port)
    ensures d.port == NONE ==> d.header == []
    ensures e ==> Content(d, |pad|) == iset{}
    ensures !e ==> Nonempty(d)
    ensures NoDiffs(dst.header) ==> NoDiffs(d.header)
  {
    hide NsHas, IsPacket, Image, AreTerms, InImage, MasksInside, FoundEmpty, Nonempty;
    NoneDropped(src.header, t.changer);
    var a := Apply(t, src, pad);
    assert Content(a, |pad|) == Img(t, src, pad);
    var m := MeetDomains(a, dst, pad);
    e, d := IsEmpty(m, pad);
    if m.port == NONE { MasksInsideNone(d.header); }
    MasksInsideTrans(d.header, m.header, a.header);
    InImageShrinks(d.header, a.header, t.changer);
  }
}
