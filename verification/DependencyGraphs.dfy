/** The dependency graph (src/network/DependencyGraph.cpp): it follows the rules of all
    tables and keeps, incrementally, every rule's effective domain and the edges along
    which packets pass from rule to rule. */
module DependencyGraphs {
  import opened Options
  import opened Sequences
  import opened Masks
  import opened NetworkSpaces
  import opened Tables
  import opened Edges
  import opened EdgeInstallers
  import opened EdgeReturns
  import opened InfluenceGraphs
  import opened RuleJoins
  import opened Topologies
  import opened GraphStates
  import opened RuleUpdates
  import opened TopologyUpdates

  class DependencyGraph {
    const pad: Mask
    const inst: EdgeInstaller
    var tables: TableMap
    var vertices: Vertices
    var influences: Influences
    var topo: Topology
    ghost var feeds: Feeds

    /** A graph with the two special sinks, drop and controller. */
    constructor (pad: Mask, drop: Rule, controller: Rule)
      requires IsPad(pad) && drop.kind == Sink && controller.kind == Sink && drop.id != controller.id
      requires IsMatch(drop.domain, pad) && IsMatch(controller.domain, pad)
      ensures Valid() && this.pad == pad && fresh(inst)
      ensures tables == map[] && influences == map[] && inst.edges == map[]
      ensures vertices == map[drop.id := Vertex(drop, drop.domain), controller.id := Vertex(controller, controller.domain)]
      ensures topo == Topology(map[], map[], map[], map[], {drop.id, controller.id})
    {
      hide IsMatch, IsDomain;
      this.pad := pad;
      inst := new EdgeInstaller(pad);
      tables, influences, feeds := map[], map[], map[];
      vertices := map[drop.id := Vertex(drop, drop.domain), controller.id := Vertex(controller, controller.domain)];
      topo := Topology(map[], map[], map[], map[], {drop.id, controller.id});
      new;
      MatchIsDomain(drop.domain, pad);
      MatchIsDomain(controller.domain, pad);
      NothingYet(vertices, topo, pad);
    }

    ghost predicate Valid()
      reads this, inst
    {
      && inst.Valid() && inst.pad == pad && inst.emptyEdges == {}
      && GraphOk(tables, vertices, influences, topo, feeds, inst.edges, pad)
    }

    /** deleteRule() for a flow rule at position k of its table; a miss rule must stay.
        The network removes the rule from the table afterwards. */
    method DeleteRule(x: nat, k: nat)
      requires Valid() && x in tables && k < |tables[x]| && HasMiss(tables[x][..k] + tables[x][k + 1..], |pad|)
      modifies this`tables, this`vertices, this`influences, this`feeds, inst`edges, inst`emptyEdges, inst`nextEdge
      ensures Valid()
      ensures tables == old(tables)[x := old(tables[x][..k] + tables[x][k + 1..])]
      ensures SameRules(old(vertices - {tables[x][k].id}), vertices)
      ensures Rerouted(old(inst.edges), inst.edges, old(tables[x][k].id), old(inst.nextEdge))
    {
      hide GraphOk, HasMiss, SameRules, WithoutRule, Rerouted;
      var d := tables[x][k];
      var s, vs, infl := UninstallRule(inst, tables, vertices, influences, topo, x, k, feeds);
      tables, vertices, influences, feeds := tables[x := s], vs, infl, feeds - {d.id};
    }

    /** A new table with its miss rule and, for the front table of a new switch, the ports
        of the switch: `sources` lists the source rules among `ends`. */
    method AddTable(x: nat, miss: Rule, ends: Vertices, sources: seq<nat>, more: Topology)
      requires Valid() && NewTable(tables, vertices, topo, more, x, miss, ends, pad)
      requires forall id :: id in sources <==> id in ends && FeedOf(ends[id].rule, more, pad).Some?
      modifies this`tables, this`vertices, this`topo, this`feeds, inst`edges, inst`emptyEdges, inst`nextEdge
      ensures Valid() && topo == more && tables == old(tables)[x := [miss]] && vertices == Extended(old(vertices), ends, miss)
      ensures GrownFrom(old(inst.edges), inst.edges, [miss.id] + sources)
      ensures Distinct([miss.id] + sources) ==> OncePerPair(old(inst.edges), inst.edges)
    {
      hide GraphOk, NewTable, FeedOf, Extended, GrownFrom, OncePerPair, Distinct;
      var vs, f := InstallTable(inst, tables, vertices, topo, more, x, miss, ends, sources, influences, feeds);
      tables, vertices, topo, feeds := tables[x := [miss]], vs, more, f;
    }

    /** addLink(). */
    method AddLink(a: nat, b: nat)
      requires Valid() && CanLink(topo, a, b)
      modifies this`topo, this`feeds, inst`edges, inst`emptyEdges, inst`nextEdge
      ensures Valid() && topo.links == old(topo.links)[a := b][b := a] && topo == old(topo).(links := topo.links)
      ensures a in topo.ports && b in topo.ports
      ensures Relinked(old(inst.edges), inst.edges, vertices, {a, b}, {topo.ports[a].sink, topo.ports[b].sink}, {topo.ports[b].source, topo.ports[a].source})
    {
      hide GraphOk, CanLink, Relinked;
      var linked, f := LinkPorts(inst, tables, vertices, topo, a, b, influences, feeds);
      topo, feeds := linked, f;
    }

    /** addRule() for a flow rule. */
    method AddRule(d: Rule) returns (ghost g: map<nat, nat>)
      requires Valid() && NewRule(d, tables, vertices, topo, pad)
      modifies this`tables, this`vertices, this`influences, this`feeds, inst`edges, inst`emptyEdges, inst`nextEdge
      ensures Valid()
      ensures tables.Keys == old(tables).Keys && Joins(tables[d.table], old(tables)[d.table], d)
      ensures forall t | t in tables && t != d.table :: tables[t] == old(tables)[t]
      ensures SameRules(WithVertex(old(vertices), d), vertices)
      ensures Branched(old(inst.edges), inst.edges, d.id, g)
    {
      hide GraphOk, NewRule, Joins, SameRules, WithFeed, WithVertex, Branched;
      NewRuleFacts(d, tables, vertices, topo, pad);
      var t, vs, infl;
      t, vs, infl, g := InstallRule(inst, tables, vertices, influences, topo, d, feeds);
      tables, vertices, influences, feeds := tables[d.table := t], vs, infl, WithFeed(feeds, d, topo, pad);
    }
  }

  lemma NothingYet(vs: Vertices, topo: Topology, pad: Mask)
    requires IsPad(pad) && topo == Topology(map[], map[], map[], map[], topo.specials)
    requires forall id | id in vs :: vs[id].rule.id == id && vs[id].rule.kind == Sink && vs[id].domain == vs[id].rule.domain &&
                IsMatch(vs[id].rule.domain, pad) && IsDomain(vs[id].domain, pad)
    ensures GraphOk(map[], vs, map[], topo, map[], map[], pad)
  {
    hide IsMatch, IsDomain;
  }

  // --- what the graph says in every state ---

  /** A packet lies in a rule's effective domain exactly when that rule is the
      highest-priority match for it. */
  lemma DomainsAreFirstMatches(tables: TableMap, vs: Vertices, infl: Influences, topo: Topology, feeds: Feeds, e: EdgeMap,
                               x: nat, k: nat, p: Packet, pad: Mask)
    requires GraphOk(tables, vs, infl, topo, feeds, e, pad) && x in tables && k < |tables[x]|
    ensures tables[x][k].id in vs
    ensures p in Content(vs[tables[x][k].id].domain, |pad|) <==> FirstMatch(tables[x], p, |pad|) == k
  {
    hide Content, Nonempty, Effective, InfluencesOn, HasMiss, IsMatch, Served, FeedsOk, FeedsAre, TopologyOk, RulesOk, VerticesOk, Known;
    assert tables[x][k] in tables[x] && RuleAt(tables[x], tables[x][k], vs, infl, pad) && TableOk(tables[x], x, pad);
    EffectiveIsFirstMatch(tables[x], k, p, |pad|);
  }

  /** The edges from a rule to the rules of the table it feeds carry exactly the packets
      that it sends and that the other rule is the first to match. */
  lemma EdgesForward(tables: TableMap, vs: Vertices, infl: Influences, topo: Topology, feeds: Feeds, e: EdgeMap,
                     src: nat, t: Transfer, x: nat, k: nat, q: Packet, pad: Mask)
    requires GraphOk(tables, vs, infl, topo, feeds, e, pad) && x in tables && k < |tables[x]|
    requires src in vs && FeedOf(vs[src].rule, topo, pad) == Some(Feed(TableDest(x), t))
    ensures IsTransfer(t, pad)
    ensures IsCarried(q, e, src, tables[x][k].id, |pad|) <==>
              q in Img(t, vs[src].rule.domain, pad) && FirstMatch(tables[x], q, |pad|) == k
  {
    hide Content, Nonempty, IsMatch, IsTransfer, FeedOf, TopologyOk, TablesOk, Img, CarriesVia;
    var dst := tables[x][k];
    DomainsAreFirstMatches(tables, vs, infl, topo, feeds, e, x, k, q, pad);
    GraphFacts(tables, vs, infl, topo, feeds, e, pad);
    assert dst in tables[x] && DestHas(feeds[src].dest, vs[dst.id]);
    PairCarries(vs, feeds, e, src, dst.id, pad);
    assert q in Carries(e, src, dst.id, |pad|) <==> IsCarried(q, e, src, dst.id, |pad|);
  }

  /** The edges to a sink carry all that is sent there. */
  lemma EdgesDeliver(tables: TableMap, vs: Vertices, infl: Influences, topo: Topology, feeds: Feeds, e: EdgeMap,
                     src: nat, t: Transfer, sink: nat, q: Packet, pad: Mask)
    requires GraphOk(tables, vs, infl, topo, feeds, e, pad)
    requires src in vs && FeedOf(vs[src].rule, topo, pad) == Some(Feed(SinkDest(sink), t))
    ensures IsTransfer(t, pad) && IsSink(sink, vs)
    ensures IsCarried(q, e, src, sink, |pad|) <==>
              q in Img(t, vs[src].rule.domain, pad) && q in Content(vs[sink].rule.domain, |pad|)
  {
    hide Content, Nonempty, IsMatch, IsTransfer, FeedOf, TopologyOk, TablesOk, Img, CarriesVia, Known;
    GraphFacts(tables, vs, infl, topo, feeds, e, pad);
    FeedLeaves(vs[src].rule, topo, tables, vs, pad);
    PairCarries(vs, feeds, e, src, sink, pad);
    assert q in Carries(e, src, sink, |pad|) <==> IsCarried(q, e, src, sink, |pad|);
  }

  /** There are no other edges: each leads where its source rule sends packets. */
  lemma EdgesFollowFeeds(tables: TableMap, vs: Vertices, infl: Influences, topo: Topology, feeds: Feeds, e: EdgeMap, id: nat, pad: Mask)
    requires GraphOk(tables, vs, infl, topo, feeds, e, pad) && id in e
    ensures e[id].src in vs && e[id].dst in vs
    ensures var feed := FeedOf(vs[e[id].src].rule, topo, pad);
      feed.Some? && DestHas(feed.value.dest, vs[e[id].dst]) && e[id].transfer == feed.value.transfer
  {
    hide Content, Nonempty, IsMatch, IsTransfer, FeedOf, TopologyOk, TablesOk, Img, Known;
    assert EdgeSound(e[id], vs, feeds, pad);
  }
}
