/** What the edges of the dependency graph say about packets, in terms of the rules'
    actions, the ports and the links (add_edges_to_port and add_edges_to_table in
    src/network/DependencyGraph.cpp). */
module Forwarding {
  import opened Options
  import Words
  import opened Masks
  import opened HeaderLists
  import opened HeaderChangers
  import opened NetworkSpaces
  import opened Tables
  import opened Edges
  import opened InfluenceGraphs
  import opened RuleJoins
  import opened Topologies
  import opened GraphStates
  import opened RuleUpdates
  import opened DependencyGraphs

  /** q has a header that rule r matches, as the changer c rewrites it. */
  ghost predicate Rewrites(q: Packet, r: Rule, c: Changer, pad: Mask)
    requires IsChanger(c, pad)
  {
    exists h :: IsHeader(h, |pad|) && |h| == |c.mask| == |c.rewrite| && Has(h, r.domain.header) && q.header == ApplyHeader(h, c)
  }

  /** q is a packet that r matches, rewritten by t, at the port that t sets, or where it came in. */
  ghost predicate Leaves(q: Packet, r: Rule, t: Transfer, pad: Mask)
    requires IsChanger(t.changer, pad)
  {
    Rewrites(q, r, t.changer, pad) && RealPort(q.port) && if t.dst == NONE then PortHas(r.domain.port, q.port) else q.port == t.dst
  }

  lemma ImgIs(q: Packet, r: Rule, t: Transfer, pad: Mask)
    requires IsTransfer(t, pad) && IsMatch(r.domain, pad)
    ensures q in Img(t, r.domain, pad) <==> Leaves(q, r, t, pad)
  {
    hide Has, Words.Exact, IsChanger, ApplyHeader, IsDomain;
    TransferChanger(t, pad);
    ChangerFits(t.changer, pad);
    if q in Img(t, r.domain, pad) {
      var p :| IsPacket(p, |pad|) && NsHas(p, r.domain) && ApplyPacket(p, t) == q;
      HeaderHasLength(p.header, |pad|);
      assert Has(p.header, r.domain.header);
    }
    if Leaves(q, r, t, pad) {
      var h :| IsHeader(h, |pad|) && |h| == |t.changer.mask| == |t.changer.rewrite| && Has(h, r.domain.header) && q.header == ApplyHeader(h, t.changer);
      var p := Packet(if t.dst == NONE then q.port else if r.domain.port == ANY then 1 else r.domain.port, h);
      assert IsPacket(p, |pad|) && NsHas(p, r.domain) && ApplyPacket(p, t) == q;
      RewrittenIsHeader(h, t.changer, pad);
    }
  }

  lemma TransferChanger(t: Transfer, pad: Mask)
    requires IsTransfer(t, pad)
    ensures IsChanger(t.changer, pad)
  {}

  lemma RewrittenIsHeader(h: Mask, c: Changer, pad: Mask)
    requires IsChanger(c, pad) && IsHeader(h, |pad|)
    ensures |h| == |c.mask| == |c.rewrite| && IsHeader(ApplyHeader(h, c), |pad|)
  {
    ApplyIsHeader(h, c, pad);
  }

  lemma MatchAt(tables: TableMap, vs: Vertices, infl: Influences, topo: Topology, feeds: Feeds, e: EdgeMap, src: nat, pad: Mask)
    requires GraphOk(tables, vs, infl, topo, feeds, e, pad) && src in vs
    ensures IsMatch(vs[src].rule.domain, pad) && RuleOk(vs[src].rule, topo, tables, vs, pad) && TopologyOk(topo, tables, vs)
  {
    hide IsMatch, TablesOk, VerticesOk, Known, FeedsAre, FeedsOk, Served, TopologyOk;
    assert RuleOk(vs[src].rule, topo, tables, vs, pad);
  }

  /** The edges from src to rule k of the table that its feed leads to. */
  lemma FeedForwards(tables: TableMap, vs: Vertices, infl: Influences, topo: Topology, feeds: Feeds, e: EdgeMap,
                     src: nat, t: Transfer, x: nat, k: nat, q: Packet, pad: Mask)
    requires GraphOk(tables, vs, infl, topo, feeds, e, pad) && x in tables && k < |tables[x]|
    requires src in vs && FeedOf(vs[src].rule, topo, pad) == Some(Feed(TableDest(x), t))
    ensures IsTransfer(t, pad)
    ensures IsCarried(q, e, src, tables[x][k].id, |pad|) <==> Leaves(q, vs[src].rule, t, pad) && q in Effective(tables[x], tables[x][k], |pad|)
  {
    hide Content, IsMatch, IsTransfer, FeedOf, Img, IsCarried, Leaves, GraphOk, Effective, FirstMatch;
    EdgesForward(tables, vs, infl, topo, feeds, e, src, t, x, k, q, pad);
    MatchAt(tables, vs, infl, topo, feeds, e, src, pad);
    ImgIs(q, vs[src].rule, t, pad);
    FirstIsEffective(tables, vs, infl, topo, feeds, e, x, k, q, pad);
  }

  lemma FirstIsEffective(tables: TableMap, vs: Vertices, infl: Influences, topo: Topology, feeds: Feeds, e: EdgeMap, x: nat, k: nat, q: Packet, pad: Mask)
    requires GraphOk(tables, vs, infl, topo, feeds, e, pad) && x in tables && k < |tables[x]|
    ensures FirstMatch(tables[x], q, |pad|) == k <==> q in Effective(tables[x], tables[x][k], |pad|)
  {
    hide Content, Effective, FirstMatch, HasMiss, IsMatch, Served, FeedsOk, FeedsAre, TopologyOk, Topologies.RulesOk, VerticesOk, Known, RulesAt;
    assert TableOk(tables[x], x, pad);
    EffectiveIsFirstMatch(tables[x], k, q, |pad|);
  }

  lemma FeedDelivers(tables: TableMap, vs: Vertices, infl: Influences, topo: Topology, feeds: Feeds, e: EdgeMap,
                     src: nat, t: Transfer, sink: nat, q: Packet, pad: Mask)
    requires GraphOk(tables, vs, infl, topo, feeds, e, pad)
    requires src in vs && FeedOf(vs[src].rule, topo, pad) == Some(Feed(SinkDest(sink), t))
    ensures IsTransfer(t, pad) && IsSink(sink, vs)
    ensures IsCarried(q, e, src, sink, |pad|) <==> Leaves(q, vs[src].rule, t, pad) && q in Content(vs[sink].rule.domain, |pad|)
  {
    hide Content, IsMatch, IsTransfer, FeedOf, Img, IsCarried, Leaves, GraphOk;
    EdgesDeliver(tables, vs, infl, topo, feeds, e, src, t, sink, q, pad);
    MatchAt(tables, vs, infl, topo, feeds, e, src, pad);
    ImgIs(q, vs[src].rule, t, pad);
  }

  // --- by action ---

  /** A rule that sends to a linked port: its packets enter the front table of the other
      switch with the number of the port there. */
  lemma LinkedPortForwards(tables: TableMap, vs: Vertices, infl: Influences, topo: Topology, feeds: Feeds, e: EdgeMap,
                           src: nat, p: nat, t: Transfer, k: nat, q: Packet, pad: Mask)
    requires GraphOk(tables, vs, infl, topo, feeds, e, pad) && src in vs
    requires vs[src].rule.kind == Flow && vs[src].rule.action == ToPort(p, t)
    requires p in topo.links && topo.links[p] in topo.ports && topo.ports[topo.links[p]].table in tables
    requires k < |tables[topo.ports[topo.links[p]].table]|
    ensures IsChanger(t.changer, pad)
    ensures var peer := topo.ports[topo.links[p]];
      var rules := tables[peer.table];
      IsCarried(q, e, src, rules[k].id, |pad|) <==>
        q.port == peer.number && Rewrites(q, vs[src].rule, t.changer, pad) && q in Effective(rules, rules[k], |pad|)
  {
    hide Content, IsMatch, IsCarried, GraphOk, Effective, Rewrites, IsChanger, PortsOk;
    MatchAt(tables, vs, infl, topo, feeds, e, src, pad);
    var peer := topo.ports[topo.links[p]];
    assert RealPort(peer.number) by { PortNumber(topo, tables, vs, topo.links[p]); }
    FeedForwards(tables, vs, infl, topo, feeds, e, src, t.(dst := peer.number), peer.table, k, q, pad);
  }

  lemma PortNumber(topo: Topology, tables: TableMap, vs: Vertices, p: nat)
    requires PortsOk(topo, tables, vs) && p in topo.ports
    ensures RealPort(topo.ports[p].number)
  {}

  /** A rule that sends to a port without a link: its packets reach the port's sink. */
  lemma UnlinkedPortDelivers(tables: TableMap, vs: Vertices, infl: Influences, topo: Topology, feeds: Feeds, e: EdgeMap,
                             src: nat, p: nat, t: Transfer, q: Packet, pad: Mask)
    requires GraphOk(tables, vs, infl, topo, feeds, e, pad) && src in vs
    requires vs[src].rule.kind == Flow && vs[src].rule.action == ToPort(p, t) && p in topo.ports && p !in topo.links
    ensures IsChanger(t.changer, pad) && topo.ports[p].sink in vs
    ensures IsCarried(q, e, src, topo.ports[p].sink, |pad|) <==>
              Leaves(q, vs[src].rule, t, pad) && q in Content(vs[topo.ports[p].sink].rule.domain, |pad|)
  {
    hide Content, IsMatch, IsCarried, GraphOk, Leaves, IsChanger;
    MatchAt(tables, vs, infl, topo, feeds, e, src, pad);
    FeedDelivers(tables, vs, infl, topo, feeds, e, src, t, topo.ports[p].sink, q, pad);
  }

  /** A rule that sends to a table: its packets enter it as its transfer leaves them. */
  lemma TableForwards(tables: TableMap, vs: Vertices, infl: Influences, topo: Topology, feeds: Feeds, e: EdgeMap,
                      src: nat, x: nat, t: Transfer, k: nat, q: Packet, pad: Mask)
    requires GraphOk(tables, vs, infl, topo, feeds, e, pad) && src in vs && x in tables && k < |tables[x]|
    requires vs[src].rule.kind == Flow && vs[src].rule.action == ToTable(x, t)
    ensures IsChanger(t.changer, pad)
    ensures IsCarried(q, e, src, tables[x][k].id, |pad|) <==> Leaves(q, vs[src].rule, t, pad) && q in Effective(tables[x], tables[x][k], |pad|)
  {
    hide Content, IsMatch, IsCarried, GraphOk, Effective, Leaves, IsChanger;
    MatchAt(tables, vs, infl, topo, feeds, e, src, pad);
    FeedForwards(tables, vs, infl, topo, feeds, e, src, t, x, k, q, pad);
  }

  /** A rule that drops its packets or sends them to the controller. */
  lemma SpecialDelivers(tables: TableMap, vs: Vertices, infl: Influences, topo: Topology, feeds: Feeds, e: EdgeMap,
                        src: nat, s: nat, t: Transfer, q: Packet, pad: Mask)
    requires GraphOk(tables, vs, infl, topo, feeds, e, pad) && src in vs
    requires vs[src].rule.kind == Flow && vs[src].rule.action == ToSink(s, t)
    ensures IsChanger(t.changer, pad) && s in vs
    ensures IsCarried(q, e, src, s, |pad|) <==> Leaves(q, vs[src].rule, t, pad) && q in Content(vs[s].rule.domain, |pad|)
  {
    hide Content, IsMatch, IsCarried, GraphOk, Leaves, IsChanger;
    MatchAt(tables, vs, infl, topo, feeds, e, src, pad);
    FeedDelivers(tables, vs, infl, topo, feeds, e, src, t, s, q, pad);
  }

  /** The source rule of a port without a link: packets enter the front table unchanged. */
  lemma SourceForwards(tables: TableMap, vs: Vertices, infl: Influences, topo: Topology, feeds: Feeds, e: EdgeMap,
                       p: nat, k: nat, q: Packet, pad: Mask)
    requires GraphOk(tables, vs, infl, topo, feeds, e, pad) && p in topo.ports && p !in topo.links
    requires topo.ports[p].table in tables && k < |tables[topo.ports[p].table]|
    ensures topo.ports[p].source in vs
    ensures var rules, src := tables[topo.ports[p].table], topo.ports[p].source;
      IsCarried(q, e, src, rules[k].id, |pad|) <==> q in Content(vs[src].rule.domain, |pad|) && q in Effective(rules, rules[k], |pad|)
  {
    hide Content, IsMatch, IsCarried, GraphOk, Effective, Leaves, IsChanger, IsTransfer, PortTransfer;
    var src := topo.ports[p].source;
    GraphMore(tables, vs, infl, topo, feeds, e, pad);
    GraphFacts(tables, vs, infl, topo, feeds, e, pad);
    assert vs[src].rule.id == src;
    MatchAt(tables, vs, infl, topo, feeds, e, src, pad);
    FeedForwards(tables, vs, infl, topo, feeds, e, src, IdentityTransfer(pad), topo.ports[p].table, k, q, pad);
    IdentityLeaves(q, vs[src].rule, pad);
  }

  lemma IdentityLeaves(q: Packet, r: Rule, pad: Mask)
    requires IsPad(pad) && IsMatch(r.domain, pad)
    ensures IsChanger(IdentityTransfer(pad).changer, pad)
    ensures Leaves(q, r, IdentityTransfer(pad), pad) <==> q in Content(r.domain, |pad|)
  {
    hide Has, IsHeader, IsChanger, ApplyHeader, PortTransfer, IsDomain;
    PortTransferKeeps(NONE, pad, pad);
    IdentityPort(pad);
    ChangerFits(IdentityTransfer(pad).changer, pad);
    forall h | IsHeader(h, |pad|) ensures |h| == |pad| && ApplyHeader(h, IdentityTransfer(pad).changer) == h {
      HeaderHasLength(h, |pad|);
      PortTransferKeeps(NONE, h, pad);
    }
  }

  lemma IdentityPort(pad: Mask)
    ensures IdentityTransfer(pad).dst == NONE
  {}

  // --- nothing else ---

  /** Where edges lead: by the kind and the action of the rule they come from. */
  lemma EdgesLead(tables: TableMap, vs: Vertices, infl: Influences, topo: Topology, feeds: Feeds, e: EdgeMap, id: nat, pad: Mask)
    requires GraphOk(tables, vs, infl, topo, feeds, e, pad) && id in e
    ensures e[id].src in vs && e[id].dst in vs
    ensures var r, v, t := vs[e[id].src].rule, vs[e[id].dst].rule, e[id].transfer;
      match r.kind
      case Sink => false
      case Source =>
        exists p :: p in topo.ports && p !in topo.links && topo.ports[p].source == e[id].src && v.kind == Flow && v.table == topo.ports[p].table
                    && t == IdentityTransfer(pad)
      case Flow =>
        match r.action
        case NoAction => false
        case ToTable(x, transfer) => v.kind == Flow && v.table == x && t == transfer
        case ToSink(s, transfer) => e[id].dst == s && v.kind == Sink && t == transfer
        case ToPort(p, transfer) =>
          p in topo.ports &&
          if p in topo.links && topo.links[p] in topo.ports then
            && v.kind == Flow && v.table == topo.ports[topo.links[p]].table
            && t.changer == transfer.changer && t.dst == topo.ports[topo.links[p]].number
          else e[id].dst == topo.ports[p].sink && v.kind == Sink && t == transfer
  {
    hide GraphOk, IsTransfer, IdentityTransfer, IsMatch;
    EdgesFollowFeeds(tables, vs, infl, topo, feeds, e, id, pad);
    GraphMore(tables, vs, infl, topo, feeds, e, pad);
    MatchAt(tables, vs, infl, topo, feeds, e, e[id].src, pad);
  }

  /** No edge carries an empty list: empty() found something in every edge's domain, which
      is a packet if the domain has no diffs. */
  lemma EdgesNonempty(tables: TableMap, vs: Vertices, infl: Influences, topo: Topology, feeds: Feeds, e: EdgeMap, id: nat, pad: Mask)
    requires GraphOk(tables, vs, infl, topo, feeds, e, pad) && id in e
    ensures Nonempty(e[id].domain)
    ensures NoDiffs(e[id].domain.header) ==> exists q :: q in Content(e[id].domain, |pad|)
  {
    hide IsMatch, IsTransfer, FeedOf, TopologyOk, TablesOk, Img, Known, Nonempty, IsDomain, Content;
    assert EdgeSound(e[id], vs, feeds, pad);
    DomainHasTerms(e[id].domain, pad);
    if NoDiffs(e[id].domain.header) {
      var q := NonemptyHas(e[id].domain, pad);
      InContents(q, e[id].domain, pad);
    }
  }

  lemma DomainHasTerms(d: NetworkSpace, pad: Mask)
    requires IsDomain(d, pad)
    ensures AreTerms(d.header, pad)
  {}
}
