/** The dependency graph is a graph the path forest can grow over. */
module GraphFlows {
  import opened Options
  import opened Masks
  import opened HeaderLists
  import opened NetworkSpaces
  import opened Tables
  import opened Edges
  import opened InfluenceGraphs
  import opened Topologies
  import opened GraphStates
  import opened RuleUpdates
  import opened DependencyGraphs
  import Forests
  import Coverings

  function RulesOf(vs: Vertices): map<nat, Rule>
  {
    map id | id in vs :: vs[id].rule
  }

  lemma EdgeFits(tables: TableMap, vs: Vertices, infl: Influences, topo: Topology, feeds: Feeds, e: EdgeMap, id: nat, pad: Mask)
    requires GraphOk(tables, vs, infl, topo, feeds, e, pad) && id in e
    ensures Forests.EdgeOk(e[id], RulesOf(vs), pad) && EdgeSound(e[id], vs, feeds, pad)
    ensures e[id].src in feeds && FeedOf(vs[e[id].src].rule, topo, pad) == Some(feeds[e[id].src])
  {
    hide Content, Nonempty, IsMatch, IsTransfer, FeedOf, TopologyOk, TablesOk, Img, Known, IsDomain;
    assert EdgeSound(e[id], vs, feeds, pad);
    FeedOfSink(vs[e[id].src].rule, topo, pad);
  }

  lemma FeedOfSink(r: Rule, topo: Topology, pad: Mask)
    ensures r.kind == Sink ==> FeedOf(r, topo, pad).None?
  {}

  /** The place in its table of the rule that an edge enters. */
  lemma DstAt(tables: TableMap, vs: Vertices, infl: Influences, topo: Topology, feeds: Feeds, e: EdgeMap, id: nat, x: nat, pad: Mask)
    returns (k: nat)
    requires GraphOk(tables, vs, infl, topo, feeds, e, pad) && id in e
    requires e[id].src in feeds && e[id].dst in vs && feeds[e[id].src].dest == TableDest(x) && DestHas(TableDest(x), vs[e[id].dst])
    ensures x in tables && k < |tables[x]| && tables[x][k] == vs[e[id].dst].rule && tables[x][k].id == e[id].dst
    ensures forall r | r in tables[x] :: r.domain.port == vs[e[id].dst].rule.domain.port
  {
    hide IsMatch, IsTransfer, FeedOf, TopologyOk, Known, IsDomain, NoOverlaps, HasMiss, Sorted, FeedsAre, Topologies.RulesOk, RulesAt;
    var r := vs[e[id].dst].rule;
    assert r in tables[x];
    k :| 0 <= k < |tables[x]| && tables[x][k] == r;
  }

  lemma EdgeCarries(tables: TableMap, vs: Vertices, infl: Influences, topo: Topology, feeds: Feeds, e: EdgeMap, id: nat,
                    x: nat, k: nat, q: Packet, pad: Mask)
    requires GraphOk(tables, vs, infl, topo, feeds, e, pad) && id in e && x in tables && k < |tables[x]| && tables[x][k].id == e[id].dst
    requires q in Content(e[id].domain, |pad|)
    ensures FirstMatch(tables[x], q, |pad|) == k
  {
    hide Content, Nonempty, IsMatch, IsTransfer, FeedOf, TopologyOk, Img, Known, IsDomain, TablesOk, FeedsAre, Topologies.RulesOk, FirstMatch, VerticesOk;
    DomainsAreFirstMatches(tables, vs, infl, topo, feeds, e, x, k, q, pad);
    assert EdgeSound(e[id], vs, feeds, pad);
  }

  lemma SoundParts(e: Edge, vs: Vertices, feeds: Feeds, pad: Mask)
    requires EdgeSound(e, vs, feeds, pad)
    ensures e.src in feeds && e.src in vs && e.dst in vs && DestHas(feeds[e.src].dest, vs[e.dst]) && e.transfer == feeds[e.src].transfer
    ensures e.domain.port == MeetPorts(OutPort(e.transfer, vs[e.src].rule.domain.port), vs[e.dst].rule.domain.port)
    ensures e.domain.port == NONE ==> e.domain.header == []
  {}

  lemma InContent(h: Mask, d: NetworkSpace, port: nat, n: nat)
    requires IsHeader(h, n) && Has(h, d.header) && RealPort(port) && PortHas(d.port, port)
    ensures Packet(port, h) in Content(d, n)
  {}

  /** Two rules of one table do not get the same packet from one rule. */
  lemma EdgesApart(tables: TableMap, vs: Vertices, infl: Influences, topo: Topology, feeds: Feeds, e: EdgeMap, i: nat, j: nat, h: Mask, pad: Mask)
    requires GraphOk(tables, vs, infl, topo, feeds, e, pad) && i in e && j in e && e[i].src == e[j].src && IsHeader(h, |pad|)
    requires Has(h, e[i].domain.header) && Has(h, e[j].domain.header)
    ensures e[i].dst == e[j].dst
  {
    hide Has, IsHeader, GraphOk, EdgeSound, Content, FirstMatch, FeedOf, Forests.EdgeOk;
    EdgeFits(tables, vs, infl, topo, feeds, e, i, pad);
    EdgeFits(tables, vs, infl, topo, feeds, e, j, pad);
    SoundParts(e[i], vs, feeds, pad);
    SoundParts(e[j], vs, feeds, pad);
    match feeds[e[i].src].dest
    case SinkDest(s) =>
      GraphMore(tables, vs, infl, topo, feeds, e, pad);
    case TableDest(x) =>
      var k := DstAt(tables, vs, infl, topo, feeds, e, i, x, pad);
      var l := DstAt(tables, vs, infl, topo, feeds, e, j, x, pad);
      HasSome(h, e[i].domain.header);
      var port := if e[i].domain.port == ANY then 1 else e[i].domain.port;
      InContent(h, e[i].domain, port, |pad|);
      InContent(h, e[j].domain, port, |pad|);
      EdgeCarries(tables, vs, infl, topo, feeds, e, i, x, k, Packet(port, h), pad);
      EdgeCarries(tables, vs, infl, topo, feeds, e, j, x, l, Packet(port, h), pad);
  }

  lemma HasSome(h: Mask, ts: seq<Term>)
    requires Has(h, ts)
    ensures ts != []
  {}

  /** Every edge fits, and the edges of one rule share its transfer but no header. */
  lemma GraphIsFlowGraph(tables: TableMap, vs: Vertices, infl: Influences, topo: Topology, feeds: Feeds, e: EdgeMap, pad: Mask)
    requires GraphOk(tables, vs, infl, topo, feeds, e, pad)
    ensures Forests.FlowGraph(RulesOf(vs), e, pad)
  {
    hide Has, IsHeader, IsMatch, IsTransfer, FeedOf, TopologyOk, TablesOk, Img, Known, IsDomain, Forests.EdgeOk, Content, Topologies.RulesOk;
    forall id | id in e ensures Forests.EdgeOk(e[id], RulesOf(vs), pad) { EdgeFits(tables, vs, infl, topo, feeds, e, id, pad); }
    forall i, j | i in e && j in e && e[i].src == e[j].src
      ensures e[i].transfer == e[j].transfer
      ensures e[i].dst != e[j].dst ==> Forests.HeadersApart(e[i].domain, e[j].domain, |pad|)
    {
      EdgeFits(tables, vs, infl, topo, feeds, e, i, pad);
      EdgeFits(tables, vs, infl, topo, feeds, e, j, pad);
      forall h | IsHeader(h, |pad|) && Has(h, e[i].domain.header) && Has(h, e[j].domain.header) ensures e[i].dst == e[j].dst {
        EdgesApart(tables, vs, infl, topo, feeds, e, i, j, h, pad);
      }
    }
  }

  /** An edge of the graph that carries anything has a port that its destination accepts. */
  lemma GraphPortsFit(tables: TableMap, vs: Vertices, infl: Influences, topo: Topology, feeds: Feeds, e: EdgeMap, pad: Mask)
    requires GraphOk(tables, vs, infl, topo, feeds, e, pad)
    ensures Coverings.PortsFit(RulesOf(vs), e)
  {
    hide GraphOk, EdgeSound, FeedOf, Forests.EdgeOk;
    forall id | id in e && e[id].dst in RulesOf(vs)
      ensures MeetPorts(e[id].domain.port, RulesOf(vs)[e[id].dst].domain.port) == NONE ==> e[id].domain.header == []
    {
      EdgeFits(tables, vs, infl, topo, feeds, e, id, pad);
      SoundParts(e[id], vs, feeds, pad);
    }
  }
}
