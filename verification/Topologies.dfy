/** Ports, links and where a rule sends its packets (src/network/Network.cpp,
    add_edges_to_port and add_edges_to_table in src/network/DependencyGraph.cpp). */
module Topologies {
  import opened Options
  import opened Masks
  import opened HeaderChangers
  import opened NetworkSpaces
  import opened Tables
  import opened Edges

  /** A port of switch sw with its number there, the front table of the switch and the
      port's source and sink rules. */
  datatype Port = Port(number: nat, sw: nat, table: nat, source: nat, sink: nat)

  /** sources finds the port of a source rule, switches the switch of a table; specials
      are the sinks of no port (drop, controller). */
  datatype Topology = Topology(ports: map<nat, Port>, links: map<nat, nat>, sources: map<nat, nat>,
                               switches: map<nat, nat>, specials: set<nat>)

  type TableMap = map<nat, seq<Rule>>

  /** Where the packets of r arrive: a linked port leads to the front table of the other
      switch, an unlinked one to its sink; a source rule feeds its switch while the
      port has no link. */
  function FeedOf(r: Rule, topo: Topology, pad: Mask): Option<Feed>
  {
    match r.kind
    case Sink => None
    case Source =>
      if r.id in topo.sources && topo.sources[r.id] in topo.ports && topo.sources[r.id] !in topo.links
      then Some(Feed(TableDest(topo.ports[topo.sources[r.id]].table), IdentityTransfer(pad)))
      else None
    case Flow =>
      match r.action
      case NoAction => None
      case ToTable(t, transfer) => Some(Feed(TableDest(t), transfer))
      case ToSink(s, transfer) => Some(Feed(SinkDest(s), transfer))
      case ToPort(p, transfer) =>
        if p !in topo.ports then None
        else if p in topo.links && topo.links[p] in topo.ports
        then var peer := topo.ports[topo.links[p]]; Some(Feed(TableDest(peer.table), transfer.(dst := peer.number)))
        else Some(Feed(SinkDest(topo.ports[p].sink), transfer))
  }

  predicate IsSink(s: nat, vs: Vertices)
  {
    s in vs && vs[s].rule.kind == Sink
  }

  /** A flow rule sends to a registered table other than its own, to a port of its own
      switch or to a special sink. */
  predicate RuleOk(r: Rule, topo: Topology, tables: TableMap, vs: Vertices, pad: Mask)
  {
    && IsMatch(r.domain, pad)
    && (r.kind == Source ==>
          r.id in topo.sources && topo.sources[r.id] in topo.ports && topo.ports[topo.sources[r.id]].source == r.id)
    && (r.kind == Flow ==>
          r.table in tables && r.table in topo.switches &&
          match r.action
          case NoAction => true
          case ToTable(t, transfer) => t in tables && t != r.table && IsTransfer(transfer, pad)
          case ToSink(s, transfer) => s in topo.specials && IsSink(s, vs) && IsTransfer(transfer, pad)
          case ToPort(p, transfer) =>
            p in topo.ports && topo.ports[p].sw == topo.switches[r.table] && IsTransfer(transfer, pad))
  }

  /** Links join ports of different switches both ways. */
  predicate LinksOk(topo: Topology)
  {
    forall a | a in topo.links ::
      && a in topo.ports && topo.links[a] in topo.ports && topo.links[a] in topo.links && topo.links[topo.links[a]] == a
      && topo.ports[a].sw != topo.ports[topo.links[a]].sw
  }

  predicate PortsOk(topo: Topology, tables: TableMap, vs: Vertices)
  {
    forall p | p in topo.ports :: var port := topo.ports[p];
      && RealPort(port.number) && port.table in tables
      && port.table in topo.switches && topo.switches[port.table] == port.sw
      && IsSink(port.sink, vs) && port.source in vs && vs[port.source].rule.kind == Source
      && port.source in topo.sources && topo.sources[port.source] == p
      && port.sink !in topo.specials && forall q | q in topo.ports && q != p :: topo.ports[q].sink != port.sink
  }

  predicate TopologyOk(topo: Topology, tables: TableMap, vs: Vertices)
  {
    LinksOk(topo) && PortsOk(topo, tables, vs)
  }

  /** A feed leads to a registered table that is not the rule's own, or to a sink. */
  lemma FeedLeaves(r: Rule, topo: Topology, tables: TableMap, vs: Vertices, pad: Mask)
    requires IsPad(pad) && TopologyOk(topo, tables, vs) && RuleOk(r, topo, tables, vs, pad) && FeedOf(r, topo, pad).Some?
    ensures var feed := FeedOf(r, topo, pad).value;
      && IsTransfer(feed.transfer, pad)
      && (feed.dest.TableDest? ==> feed.dest.table in tables && (r.kind == Flow ==> feed.dest.table != r.table))
      && (feed.dest.SinkDest? ==> IsSink(feed.dest.sink, vs))
  {
    hide IsChanger, IsMatch, PortTransfer;
    PortTransferKeeps(NONE, pad, pad);
  }

  /** The feeds of all vertices. */
  ghost predicate FeedsAre(feeds: Feeds, vs: Vertices, topo: Topology, pad: Mask)
  {
    forall id | id in feeds || id in vs ::
      && (id in feeds <==> id in vs && FeedOf(vs[id].rule, topo, pad).Some?)
      && (id in feeds ==> FeedOf(vs[id].rule, topo, pad) == Some(feeds[id]))
  }

  ghost predicate RulesOk(topo: Topology, tables: TableMap, vs: Vertices, pad: Mask)
  {
    forall id | id in vs :: vs[id].rule.id == id && RuleOk(vs[id].rule, topo, tables, vs, pad)
  }
}
