/** New switches, tables and links (addSwitch in src/Detector.cpp, addRule for ports and
    miss rules and addLink in src/network/DependencyGraph.cpp). */
module TopologyUpdates {
  import opened Options
  import opened Sequences
  import opened Masks
  import opened NetworkSpaces
  import opened Tables
  import opened Edges
  import opened EdgeInstallers
  import opened EdgeMoves
  import opened InfluenceGraphs
  import opened RuleJoins
  import opened Topologies
  import opened GraphStates
  import opened RuleUpdates

  /** All that should flow from src is carried. */
  ghost predicate Serves(vs: Vertices, feeds: Feeds, e: EdgeMap, src: nat, pad: Mask)
    requires FeedsOk(vs, feeds, pad) && src in feeds
  {
    forall dst | dst in vs && DestHas(feeds[src].dest, vs[dst]) :: PairOk(vs, feeds, e, {}, src, dst, pad)
  }

  ghost predicate GrownFrom(e0: EdgeMap, e1: EdgeMap, srcs: seq<nat>)
  {
    && (forall k | k in e0 :: k in e1 && e1[k] == e0[k])
    && (forall k | k in e1 && k !in e0 :: e1[k].src in srcs)
  }

  lemma GrownServes(vs: Vertices, feeds: Feeds, e0: EdgeMap, e1: EdgeMap, src: nat, pad: Mask)
    requires FeedsOk(vs, feeds, pad) && src in feeds && Serves(vs, feeds, e0, src, pad)
    requires forall k | k in e0 :: k in e1 && e1[k] == e0[k]
    ensures Serves(vs, feeds, e1, src, pad)
  {
    hide Content, Nonempty, IsTransfer, IsMatch, PairOk;
    forall dst | dst in vs && DestHas(feeds[src].dest, vs[dst]) ensures PairOk(vs, feeds, e1, {}, src, dst, pad) {
      KeepsPairs(vs, feeds, e0, {}, e1, {}, src, dst, pad);
    }
  }

  /** Edges from the rules srcs to wherever each of them sends its packets. */
  method ServeSources(inst: EdgeInstaller, vs: Vertices, srcs: seq<nat>, tables: TableMap, topo: Topology,
                      ghost feeds: Feeds, ghost infl: Influences)
    requires inst.Valid() && inst.emptyEdges == {} && FeedsOk(vs, feeds, inst.pad)
    requires TablesOk(tables, vs, infl, inst.pad) && VerticesOk(tables, vs)
    requires forall src | src in srcs :: src in feeds && src in vs && FeedOf(vs[src].rule, topo, inst.pad) == Some(feeds[src]) &&
               (feeds[src].dest.SinkDest? ==> IsSink(feeds[src].dest.sink, vs))
    requires AllSound(vs, feeds, inst.edges, {}, inst.pad)
    modifies inst`edges, inst`nextEdge
    ensures inst.Valid() && inst.emptyEdges == {} && AllSound(vs, feeds, inst.edges, {}, inst.pad)
    ensures GrownFrom(old(inst.edges), inst.edges, srcs) && old(inst.nextEdge) <= inst.nextEdge
    ensures Distinct(srcs) ==> OncePerPair(old(inst.edges), inst.edges)
    ensures forall k | k in inst.edges && k !in old(inst.edges) :: k >= old(inst.nextEdge)
    ensures forall src | src in srcs :: Serves(vs, feeds, inst.edges, src, inst.pad)
  {
    hide Content, Nonempty, IsTransfer, IsMatch, PairOk, AllSound, TablesOk, VerticesOk, FeedOf, FeedsOk, Serves, IsSink, Distinct, OncePerPair;
    ghost var e0 := inst.edges;
    NoneNew(e0);
    for i := 0 to |srcs|
      invariant inst.Valid() && inst.emptyEdges == {} && AllSound(vs, feeds, inst.edges, {}, inst.pad)
      invariant GrownFrom(e0, inst.edges, srcs) && old(inst.nextEdge) <= inst.nextEdge
      invariant forall k | k in inst.edges && k !in e0 :: inst.edges[k].src in srcs[..i] && k >= old(inst.nextEdge)
      invariant Distinct(srcs) ==> OncePerPair(e0, inst.edges)
      invariant forall src | src in srcs[..i] :: Serves(vs, feeds, inst.edges, src, inst.pad)
    {
      var src := srcs[i];
      assert src in srcs && srcs[..i + 1] == srcs[..i] + [src];
      var feed := FeedOf(vs[src].rule, topo, inst.pad).value;
      ghost var e1 := inst.edges;
      SinkIds(vs, feeds, feed, inst.pad);
      DestIdsAre(feed, tables, vs, infl, inst.pad);
      AddEdges(inst, vs, src, DestIds(feed.dest, tables), feed.transfer, feeds);
      if Distinct(srcs) { OnceForSource(e0, e1, inst.edges, srcs, i); }
      ServesFrom(vs, feeds, inst.edges, src, DestIds(feed.dest, tables), inst.pad);
      forall s | s in srcs[..i] ensures Serves(vs, feeds, inst.edges, s, inst.pad) {
        GrownServes(vs, feeds, e1, inst.edges, s, inst.pad);
      }
    }
    assert srcs[..|srcs|] == srcs;
  }

  lemma OnceForSource(e0: EdgeMap, e1: EdgeMap, e2: EdgeMap, srcs: seq<nat>, i: nat)
    requires i < |srcs| && Distinct(srcs) && OncePerPair(e0, e1) && OncePerPair(e1, e2)
    requires (forall k | k in e1 && k !in e0 :: e1[k].src in srcs[..i]) && forall k | k in e2 && k !in e1 :: e2[k].src == srcs[i]
    requires forall k | k in e1 :: k in e2 && e2[k] == e1[k]
    ensures OncePerPair(e0, e2)
  {
    assert srcs[i] !in srcs[..i];
  }

  lemma SinkIds(vs: Vertices, feeds: Feeds, feed: Feed, pad: Mask)
    requires FeedsOk(vs, feeds, pad) && (feed.dest.SinkDest? ==> IsSink(feed.dest.sink, vs))
    ensures forall id | id in vs :: vs[id].rule.id == id
    ensures feed.dest.SinkDest? ==> IsSink(feed.dest.sink, vs) && vs[feed.dest.sink].rule.id == feed.dest.sink
  {}

  lemma ServesFrom(vs: Vertices, feeds: Feeds, e: EdgeMap, src: nat, dsts: seq<nat>, pad: Mask)
    requires FeedsOk(vs, feeds, pad) && src in feeds
    requires forall x | x in vs :: DestHas(feeds[src].dest, vs[x]) <==> x in dsts
    requires forall x | x in dsts :: x in vs && PairOk(vs, feeds, e, {}, src, x, pad)
    ensures Serves(vs, feeds, e, src, pad)
  {
    hide Content, Nonempty, IsTransfer, IsMatch, PairOk;
  }

  // --- addLink ---

  predicate SendsTo(r: Rule, a: nat)
  {
    r.kind == Flow && r.action.ToPort? && r.action.port == a
  }

  /** Port::srcRules(): the rules that send packets to port a. */
  method SourceRules(vs: Vertices, a: nat) returns (srcs: seq<nat>)
    ensures Distinct(srcs) && forall id :: id in srcs <==> id in vs && SendsTo(vs[id].rule, a)
  {
    srcs := [];
    NoneDistinct<nat>();
    var todo := vs.Keys;
    while todo != {}
      invariant todo <= vs.Keys && Distinct(srcs)
      invariant forall id :: id in srcs <==> id in vs && id !in todo && SendsTo(vs[id].rule, a)
      decreases todo
    {
      var id :| id in todo;
      todo := todo - {id};
      if SendsTo(vs[id].rule, a) {
        DistinctAppend(srcs, id);
        srcs := srcs + [id];
      }
    }
  }

  /** The feeds while port a is being connected to port b. */
  ghost predicate Redirected(f0: Feeds, f1: Feeds, vs: Vertices, a: nat, sink: nat, source: nat)
  {
    && f1.Keys == f0.Keys - {source}
    && (forall id | id in f0 && id in vs && SendsTo(vs[id].rule, a) :: f0[id].dest == SinkDest(sink))
    && (forall id | id in f1 && id in vs && !SendsTo(vs[id].rule, a) :: f1[id] == f0[id] && f0[id].dest != SinkDest(sink))
  }

  lemma CutSound(vs: Vertices, f0: Feeds, f1: Feeds, e: Edge, a: nat, sink: nat, source: nat, pad: Mask)
    requires FeedsOk(vs, f0, pad) && EdgeSound(e, vs, f0, pad) && Redirected(f0, f1, vs, a, sink, source) && sink in vs && vs[sink].rule.kind == Sink
    requires e.dst != sink && e.src != source
    ensures EdgeSound(e, vs, f1, pad)
  {
    hide Content, Nonempty, Img, IsTransfer, IsMatch, Flowing;
    assert vs[e.dst].rule.id == e.dst;
  }

  lemma CutPorts(vs: Vertices, f0: Feeds, f1: Feeds, e0: EdgeMap, e1: EdgeMap, e2: EdgeMap, a: nat, sink: nat, source: nat, pad: Mask)
    requires FeedsOk(vs, f0, pad) && FeedsOk(vs, f1, pad) && Served(vs, f0, e0, {}, {}, pad)
    requires Redirected(f0, f1, vs, a, sink, source) && sink in vs && vs[sink].rule.kind == Sink
    requires e1 == map id | id in e0 && e0[id].dst != sink :: e0[id]
    requires e2 == map id | id in e1 && e1[id].src != source :: e1[id]
    ensures AllSound(vs, f1, e2, {}, pad)
    ensures forall src | src in f1 && !SendsTo(vs[src].rule, a) :: Serves(vs, f1, e2, src, pad)
  {
    hide Content, Nonempty, Img, IsTransfer, IsMatch, Carried, Flowing, EdgeSound;
    forall id | id in e2 ensures EdgeSound(e2[id], vs, f1, pad) {
      assert EdgeSound(e0[id], vs, f0, pad);
      CutSound(vs, f0, f1, e0[id], a, sink, source, pad);
    }
    forall src, dst | src in f1 && !SendsTo(vs[src].rule, a) && dst in vs && DestHas(f1[src].dest, vs[dst])
      ensures PairOk(vs, f1, e2, {}, src, dst, pad)
    {
      assert PairOk(vs, f0, e0, {}, src, dst, pad) && dst != sink && src != source;
      KeepsCarried(Want(vs, src, dst, f0[src].transfer, pad), e0, {}, e2, {}, src, dst, |pad|);
    }
  }

  /** The edges of e0 that stay are those neither into the sinks nor out of the sources; new
      ones start at rules that send to one of the ports, one for each pair of rules. */
  ghost predicate Relinked(e0: EdgeMap, e: EdgeMap, vs: Vertices, ports: set<nat>, sinks: set<nat>, sources: set<nat>)
  {
    && (forall k | k in e0 :: k in e <==> e0[k].dst !in sinks && e0[k].src !in sources)
    && (forall k | k in e0 && k in e :: e[k] == e0[k])
    && (forall k | k in e && k !in e0 :: e[k].src in vs && exists p :: p in ports && SendsTo(vs[e[k].src].rule, p))
    && OncePerPair(e0, e)
  }

  lemma ConnectedEdges(e0: EdgeMap, e1: EdgeMap, e2: EdgeMap, e: EdgeMap, vs: Vertices, a: nat, sink: nat, source: nat, srcs: seq<nat>, next: nat)
    requires e1 == (map id | id in e0 && e0[id].dst != sink :: e0[id]) && e2 == map id | id in e1 && e1[id].src != source :: e1[id]
    requires GrownFrom(e2, e, srcs) && OncePerPair(e2, e) && forall id :: id in srcs <==> id in vs && SendsTo(vs[id].rule, a)
    requires (forall k | k in e0 :: k < next) && forall k | k in e && k !in e2 :: k >= next
    ensures Relinked(e0, e, vs, {a}, {sink}, {source})
  {
    hide SendsTo;
  }

  /** The two directions together. */
  lemma BothConnected(e0: EdgeMap, e1: EdgeMap, e: EdgeMap, vs: Vertices, a: nat, b: nat, s1: nat, s2: nat, t1: nat, t2: nat)
    requires a != b && Relinked(e0, e1, vs, {a}, {s1}, {t1}) && Relinked(e1, e, vs, {b}, {s2}, {t2})
    requires forall k | k in e && k !in e1 :: k !in e0
    ensures Relinked(e0, e, vs, {a, b}, {s1, s2}, {t1, t2})
  {
    forall k | k in e && k !in e0 ensures e[k].src in vs && (SendsTo(vs[e[k].src].rule, a) || SendsTo(vs[e[k].src].rule, b)) {
      if k in e1 { assert e[k] == e1[k]; }
    }
  }

  /** One direction of addLink: rules that send to port a now feed the other switch, and
      the source of the port behind the link feeds nothing. */
  method Connect(inst: EdgeInstaller, vs: Vertices, a: nat, sink: nat, source: nat, tables: TableMap, topo: Topology,
                 ghost f0: Feeds, ghost f1: Feeds, ghost infl: Influences)
    requires inst.Valid() && inst.emptyEdges == {} && FeedsOk(vs, f0, inst.pad) && FeedsOk(vs, f1, inst.pad)
    requires Served(vs, f0, inst.edges, {}, {}, inst.pad) && TablesOk(tables, vs, infl, inst.pad) && VerticesOk(tables, vs)
    requires Redirected(f0, f1, vs, a, sink, source) && IsSink(sink, vs)
    requires forall id | id in vs && SendsTo(vs[id].rule, a) ::
               id in f1 && FeedOf(vs[id].rule, topo, inst.pad) == Some(f1[id]) && f1[id].dest.TableDest?
    modifies inst`edges, inst`emptyEdges, inst`nextEdge
    ensures inst.Valid() && inst.emptyEdges == {} && Served(vs, f1, inst.edges, {}, {}, inst.pad)
    ensures Relinked(old(inst.edges), inst.edges, vs, {a}, {sink}, {source}) && old(inst.nextEdge) <= inst.nextEdge
    ensures forall k | k in inst.edges && k !in old(inst.edges) :: k >= old(inst.nextEdge)
  {
    hide Content, Nonempty, IsTransfer, IsMatch, AllSound, AllPairs, TablesOk, VerticesOk, FeedOf, FeedsOk, Serves, Redirected, Served,
         SendsTo, Distinct, OncePerPair;
    ghost var e0, next := inst.edges, inst.nextEdge;
    inst.DeleteInEdges(sink);
    ghost var e1 := inst.edges;
    inst.DeleteOutEdges(source);
    ghost var e2 := inst.edges;
    CutPorts(vs, f0, f1, e0, e1, e2, a, sink, source, inst.pad);
    var srcs := SourceRules(vs, a);
    FeedsHaveVertices(vs, f1, inst.pad);
    ServeSources(inst, vs, srcs, tables, topo, f1, infl);
    ConnectedEdges(e0, e1, e2, inst.edges, vs, a, sink, source, srcs, next);
    forall src | src in f1 && !SendsTo(vs[src].rule, a) ensures Serves(vs, f1, inst.edges, src, inst.pad) {
      GrownServes(vs, f1, e2, inst.edges, src, inst.pad);
    }
    AllServed(vs, f1, inst.edges, inst.pad);
  }

  lemma FeedsHaveVertices(vs: Vertices, feeds: Feeds, pad: Mask)
    requires FeedsOk(vs, feeds, pad)
    ensures forall src | src in feeds :: src in vs
  {}

  lemma AllServed(vs: Vertices, feeds: Feeds, e: EdgeMap, pad: Mask)
    requires FeedsOk(vs, feeds, pad) && AllSound(vs, feeds, e, {}, pad)
    requires forall src | src in feeds :: Serves(vs, feeds, e, src, pad)
    ensures Served(vs, feeds, e, {}, {}, pad)
  {
    hide Content, Nonempty, IsTransfer, IsMatch, AllSound, PairOk;
    forall src, dst | src in feeds && dst in vs && DestHas(feeds[src].dest, vs[dst])
      ensures PairOk(vs, feeds, e, {}, src, dst, pad)
    {
      assert Serves(vs, feeds, e, src, pad);
    }
  }

  ghost function Redirect(f0: Feeds, vs: Vertices, a: nat, source: nat, topo: Topology, pad: Mask): Feeds
  {
    map id | id in f0 && id != source ::
      if id in vs && SendsTo(vs[id].rule, a) && FeedOf(vs[id].rule, topo, pad).Some? then FeedOf(vs[id].rule, topo, pad).value else f0[id]
  }

  function Linked(topo: Topology, a: nat, b: nat): Topology
  {
    topo.(links := topo.links[a := b][b := a])
  }

  /** Two unlinked ports of different switches. */
  predicate CanLink(topo: Topology, a: nat, b: nat)
  {
    a in topo.ports && b in topo.ports && a !in topo.links && b !in topo.links && topo.ports[a].sw != topo.ports[b].sw
  }

  lemma LinkedTopology(topo: Topology, tables: TableMap, vs: Vertices, a: nat, b: nat, pad: Mask)
    requires TopologyOk(topo, tables, vs) && RulesOk(topo, tables, vs, pad) && CanLink(topo, a, b)
    ensures TopologyOk(Linked(topo, a, b), tables, vs) && RulesOk(Linked(topo, a, b), tables, vs, pad)
  {
    hide IsMatch, IsTransfer, RuleOk;
    var linked := Linked(topo, a, b);
    forall id | id in vs ensures RuleOk(vs[id].rule, linked, tables, vs, pad) {
      assert RuleOk(vs[id].rule, topo, tables, vs, pad);
      LinkedRule(vs[id].rule, topo, tables, vs, a, b, pad);
    }
  }

  lemma LinkedRule(r: Rule, topo: Topology, tables: TableMap, vs: Vertices, a: nat, b: nat, pad: Mask)
    requires RuleOk(r, topo, tables, vs, pad)
    ensures RuleOk(r, Linked(topo, a, b), tables, vs, pad)
  {
    hide IsMatch, IsTransfer;
  }

  lemma RedirectOk(f0: Feeds, vs: Vertices, a: nat, source: nat, topo: Topology, tables: TableMap, pad: Mask)
    requires FeedsOk(vs, f0, pad) && IsPad(pad) && TopologyOk(topo, tables, vs) && RulesOk(topo, tables, vs, pad)
    ensures FeedsOk(vs, Redirect(f0, vs, a, source, topo, pad), pad)
  {
    hide IsMatch, IsTransfer, FeedOf, TopologyOk, RuleOk;
    forall id | id in vs && FeedOf(vs[id].rule, topo, pad).Some? ensures IsTransfer(FeedOf(vs[id].rule, topo, pad).value.transfer, pad) {
      FeedLeaves(vs[id].rule, topo, tables, vs, pad);
    }
  }

  /** Who feeds the sink of a port without a link: the rules that send to the port. */
  lemma SinkFeeders(r: Rule, topo: Topology, tables: TableMap, vs: Vertices, a: nat, pad: Mask)
    requires TopologyOk(topo, tables, vs) && RuleOk(r, topo, tables, vs, pad) && a in topo.ports && a !in topo.links
    ensures SendsTo(r, a) ==> FeedOf(r, topo, pad).Some? && FeedOf(r, topo, pad).value.dest == SinkDest(topo.ports[a].sink)
    ensures FeedOf(r, topo, pad).Some? && FeedOf(r, topo, pad).value.dest == SinkDest(topo.ports[a].sink) ==> SendsTo(r, a)
  {
    hide IsMatch, IsTransfer, IdentityTransfer;
  }

  /** How the feed of a rule changes with a link. */
  lemma LinkedFeed(r: Rule, topo: Topology, tables: TableMap, vs: Vertices, a: nat, b: nat, pad: Mask)
    requires TopologyOk(topo, tables, vs) && RuleOk(r, topo, tables, vs, pad) && CanLink(topo, a, b)
    ensures SendsTo(r, a) || SendsTo(r, b) ==>
              FeedOf(r, Linked(topo, a, b), pad).Some? && FeedOf(r, Linked(topo, a, b), pad).value.dest.TableDest?
    ensures r.id == topo.ports[a].source || r.id == topo.ports[b].source ==> r.kind == Source ==> FeedOf(r, Linked(topo, a, b), pad).None?
    ensures !SendsTo(r, a) && !SendsTo(r, b) && !(r.kind == Source && (r.id == topo.ports[a].source || r.id == topo.ports[b].source)) ==>
              FeedOf(r, Linked(topo, a, b), pad) == FeedOf(r, topo, pad)
  {
    hide IsMatch, IsTransfer, IdentityTransfer;
  }

  /** What happens to the feed of the rule id when ports a and b are linked. */
  ghost predicate LinkFact(id: nat, feeds: Feeds, vs: Vertices, topo: Topology, a: nat, b: nat, pad: Mask)
    requires id in vs && a in topo.ports && b in topo.ports
  {
    var r, after := vs[id].rule, FeedOf(vs[id].rule, Linked(topo, a, b), pad);
    && (SendsTo(r, a) ==> id in feeds && feeds[id].dest == SinkDest(topo.ports[a].sink) && after.Some? && after.value.dest.TableDest?)
    && (SendsTo(r, b) ==> id in feeds && feeds[id].dest == SinkDest(topo.ports[b].sink) && after.Some? && after.value.dest.TableDest?)
    && (id in feeds && !SendsTo(r, a) ==> feeds[id].dest != SinkDest(topo.ports[a].sink))
    && (id in feeds && !SendsTo(r, b) ==> feeds[id].dest != SinkDest(topo.ports[b].sink))
    && (if id == topo.ports[a].source || id == topo.ports[b].source then !SendsTo(r, a) && !SendsTo(r, b) && after.None?
        else !SendsTo(r, a) && !SendsTo(r, b) ==> if id in feeds then after == Some(feeds[id]) else after.None?)
  }

  lemma LinkFactHolds(id: nat, feeds: Feeds, topo: Topology, tables: TableMap, vs: Vertices, a: nat, b: nat, pad: Mask)
    requires id in vs && FeedsAre(feeds, vs, topo, pad) && TopologyOk(topo, tables, vs) && RulesOk(topo, tables, vs, pad)
    requires CanLink(topo, a, b)
    ensures LinkFact(id, feeds, vs, topo, a, b, pad)
  {
    hide IsMatch, IsTransfer, FeedOf, RuleOk, LinksOk, PortsOk;
    SourceKinds(topo, tables, vs, a, b);
    SinkFeeders(vs[id].rule, topo, tables, vs, a, pad);
    SinkFeeders(vs[id].rule, topo, tables, vs, b, pad);
    LinkedFeed(vs[id].rule, topo, tables, vs, a, b, pad);
  }

  /** The feeds after both directions are those of the linked topology. */
  lemma LinkFeeds(feeds: Feeds, f1: Feeds, f2: Feeds, topo: Topology, vs: Vertices, a: nat, b: nat, pad: Mask)
    requires a in topo.ports && b in topo.ports && a != b && forall id | id in feeds :: id in vs
    requires forall id | id in vs :: LinkFact(id, feeds, vs, topo, a, b, pad)
    requires f1 == Redirect(feeds, vs, a, topo.ports[b].source, Linked(topo, a, b), pad)
    requires f2 == Redirect(f1, vs, b, topo.ports[a].source, Linked(topo, a, b), pad)
    ensures Redirected(feeds, f1, vs, a, topo.ports[a].sink, topo.ports[b].source)
    ensures Redirected(f1, f2, vs, b, topo.ports[b].sink, topo.ports[a].source)
    ensures FeedsAre(f2, vs, Linked(topo, a, b), pad)
    ensures forall id | id in vs && SendsTo(vs[id].rule, a) :: id in f1 && FeedOf(vs[id].rule, Linked(topo, a, b), pad) == Some(f1[id]) && f1[id].dest.TableDest?
    ensures forall id | id in vs && SendsTo(vs[id].rule, b) :: id in f2 && FeedOf(vs[id].rule, Linked(topo, a, b), pad) == Some(f2[id]) && f2[id].dest.TableDest?
  {
    hide FeedOf, Linked;
  }

  lemma SourceKinds(topo: Topology, tables: TableMap, vs: Vertices, a: nat, b: nat)
    requires TopologyOk(topo, tables, vs) && CanLink(topo, a, b)
    ensures topo.ports[a].source in vs && vs[topo.ports[a].source].rule.kind == Source
    ensures topo.ports[b].source in vs && vs[topo.ports[b].source].rule.kind == Source
    ensures IsSink(topo.ports[a].sink, vs) && IsSink(topo.ports[b].sink, vs)
  {}

  /** addLink: both directions, one after the other. */
  method LinkPorts(inst: EdgeInstaller, tables: TableMap, vs: Vertices, topo: Topology, a: nat, b: nat, ghost infl: Influences, ghost feeds: Feeds)
    returns (linked: Topology, ghost f2: Feeds)
    requires inst.Valid() && inst.emptyEdges == {} && GraphOk(tables, vs, infl, topo, feeds, inst.edges, inst.pad)
    requires CanLink(topo, a, b)
    modifies inst`edges, inst`emptyEdges, inst`nextEdge
    ensures inst.Valid() && inst.emptyEdges == {} && linked == Linked(topo, a, b)
    ensures GraphOk(tables, vs, infl, linked, f2, inst.edges, inst.pad)
    ensures a in topo.ports && b in topo.ports
    ensures Relinked(old(inst.edges), inst.edges, vs, {a, b}, {topo.ports[a].sink, topo.ports[b].sink}, {topo.ports[b].source, topo.ports[a].source})
  {
    hide GraphOk, TopologyOk, FeedsOk, FeedOf, Redirect, Redirected, RulesOk, FeedsAre, TablesOk, VerticesOk, Served, AllSound,
         AllPairs, Known, IsPad, RulesAt, TableOk, Sorted, IsSink, SendsTo, Linked, LinkFact, Relinked;
    ghost var e0 := inst.edges;
    GraphFacts(tables, vs, infl, topo, feeds, inst.edges, inst.pad);
    GraphMore(tables, vs, infl, topo, feeds, inst.edges, inst.pad);
    linked := Linked(topo, a, b);
    LinkedTopology(topo, tables, vs, a, b, inst.pad);
    SourceKinds(topo, tables, vs, a, b);
    ghost var f1 := Redirect(feeds, vs, a, topo.ports[b].source, linked, inst.pad);
    f2 := Redirect(f1, vs, b, topo.ports[a].source, linked, inst.pad);
    RedirectOk(feeds, vs, a, topo.ports[b].source, linked, tables, inst.pad);
    RedirectOk(f1, vs, b, topo.ports[a].source, linked, tables, inst.pad);
    forall id | id in vs ensures LinkFact(id, feeds, vs, topo, a, b, inst.pad) {
      LinkFactHolds(id, feeds, topo, tables, vs, a, b, inst.pad);
    }
    FeedsHaveVertices(vs, feeds, inst.pad);
    LinkFeeds(feeds, f1, f2, topo, vs, a, b, inst.pad);
    Connect(inst, vs, a, topo.ports[a].sink, topo.ports[b].source, tables, linked, feeds, f1, infl);
    ghost var e1 := inst.edges;
    Connect(inst, vs, b, topo.ports[b].sink, topo.ports[a].source, tables, linked, f1, f2, infl);
    BothConnected(e0, e1, inst.edges, vs, a, b, topo.ports[a].sink, topo.ports[b].sink, topo.ports[b].source, topo.ports[a].source);
    AssembleGraph(tables, vs, infl, linked, f2, inst.edges, inst.pad);
  }

  // --- a new table, with the ports whose packets it gets ---

  function Extended(vs: Vertices, ends: Vertices, miss: Rule): Vertices
  {
    vs + ends + map[miss.id := Vertex(miss, miss.domain)]
  }

  /** More ports, for table x and without links. */
  predicate MorePorts(topo0: Topology, topo1: Topology, x: nat)
  {
    && topo1.links == topo0.links && topo1.specials == topo0.specials
    && (forall p | p in topo0.ports :: p in topo1.ports && topo1.ports[p] == topo0.ports[p])
    && (forall p | p in topo1.ports && p !in topo0.ports :: topo1.ports[p].table == x)
    && (forall id | id in topo0.sources :: id in topo1.sources && topo1.sources[id] == topo0.sources[id])
  }

  /** Table x is new; `ends` are the sources and sinks of its ports; miss matches all. */
  ghost predicate NewTable(tables: TableMap, vs: Vertices, topo0: Topology, topo1: Topology, x: nat, miss: Rule, ends: Vertices, pad: Mask)
  {
    && x !in tables && miss.kind == Flow && miss.table == x && IsMiss(miss, |pad|)
    && miss.id !in vs && miss.id !in ends && (forall id | id in ends :: id !in vs && ends[id].domain == ends[id].rule.domain)
    && (forall id | id in ends :: ends[id].rule.kind == Sink ||
          (ends[id].rule.kind == Source && id in topo1.sources && topo1.sources[id] !in topo0.ports))
    && MorePorts(topo0, topo1, x)
    && TopologyOk(topo1, tables[x := [miss]], Extended(vs, ends, miss))
    && RulesOk(topo1, tables[x := [miss]], Extended(vs, ends, miss), pad)
  }

  ghost function FeedsOf(vs: Vertices, topo: Topology, pad: Mask): Feeds
  {
    map id | id in vs && FeedOf(vs[id].rule, topo, pad).Some? :: FeedOf(vs[id].rule, topo, pad).value
  }

  lemma OldFeed(r: Rule, topo0: Topology, topo1: Topology, tables: TableMap, vs: Vertices, x: nat, pad: Mask)
    requires RuleOk(r, topo0, tables, vs, pad) && MorePorts(topo0, topo1, x) && LinksOk(topo0)
    ensures FeedOf(r, topo1, pad) == FeedOf(r, topo0, pad)
  {
    hide IsMatch, IsTransfer, IdentityTransfer;
  }

  lemma NewFeedsOk(vs: Vertices, topo: Topology, tables: TableMap, pad: Mask)
    requires IsPad(pad) && TopologyOk(topo, tables, vs) && RulesOk(topo, tables, vs, pad)
    requires forall id | id in vs :: VertexOk(vs[id], pad)
    ensures FeedsOk(vs, FeedsOf(vs, topo, pad), pad) && FeedsAre(FeedsOf(vs, topo, pad), vs, topo, pad)
    ensures forall id | id in FeedsOf(vs, topo, pad) && FeedsOf(vs, topo, pad)[id].dest.SinkDest? :: IsSink(FeedsOf(vs, topo, pad)[id].dest.sink, vs)
  {
    hide IsMatch, IsTransfer, FeedOf, TopologyOk;
    forall id | id in vs && FeedOf(vs[id].rule, topo, pad).Some?
      ensures IsTransfer(FeedOf(vs[id].rule, topo, pad).value.transfer, pad)
      ensures FeedOf(vs[id].rule, topo, pad).value.dest.SinkDest? ==> IsSink(FeedOf(vs[id].rule, topo, pad).value.dest.sink, vs)
    {
      FeedLeaves(vs[id].rule, topo, tables, vs, pad);
    }
  }

  lemma ExtendedDomains(vs: Vertices, feeds: Feeds, ends: Vertices, miss: Rule, pad: Mask)
    requires FeedsOk(vs, feeds, pad) && forall id | id in Extended(vs, ends, miss) :: IsMatch(Extended(vs, ends, miss)[id].rule.domain, pad)
    requires forall id | id in ends :: ends[id].domain == ends[id].rule.domain
    ensures forall id | id in Extended(vs, ends, miss) :: VertexOk(Extended(vs, ends, miss)[id], pad)
  {
    hide IsTransfer;
    forall id | id in Extended(vs, ends, miss) ensures VertexOk(Extended(vs, ends, miss)[id], pad) {
      MatchIsDomain(Extended(vs, ends, miss)[id].rule.domain, pad);
    }
  }

  /** A table of one rule. */
  lemma MissAlone(miss: Rule, vs: Vertices, infl: Influences, x: nat, pad: Mask)
    requires miss.id in vs && vs[miss.id] == Vertex(miss, miss.domain) && (miss.id, miss.id) !in infl
    requires miss.kind == Flow && miss.table == x && IsMatch(miss.domain, pad) && IsMiss(miss, |pad|)
    ensures TableOk([miss], x, pad) && RulesAt([miss], vs, infl, pad)
  {
    hide Content, Nonempty, IsMatch, InfluenceOk, IsMiss;
    assert miss in [miss];
    assert Effective([miss], miss, |pad|) == Matched(miss, |pad|);
  }

  lemma TableExtends(tables: TableMap, vs: Vertices, infl: Influences, topo0: Topology, topo1: Topology, feeds: Feeds, e: EdgeMap,
                     x: nat, miss: Rule, ends: Vertices, pad: Mask)
    requires GraphOk(tables, vs, infl, topo0, feeds, e, pad) && NewTable(tables, vs, topo0, topo1, x, miss, ends, pad)
    ensures var vs1 := Extended(vs, ends, miss);
      TablesOk(tables[x := [miss]], vs1, infl, pad) && VerticesOk(tables[x := [miss]], vs1) && Known(infl, vs1)
  {
    hide IsMatch, NoOverlaps, HasMiss, Sorted, InfluencesOn, Effective, TopologyOk, FeedsOk, Served, FeedsAre, FeedOf, RuleOk, MorePorts,
         TableOk, RulesAt;
    var vs1 := Extended(vs, ends, miss);
    assert RuleOk(vs1[miss.id].rule, topo1, tables[x := [miss]], vs1, pad);
    RuleOkMatch(miss, topo1, tables[x := [miss]], vs1, pad);
    MissAlone(miss, vs1, infl, x, pad);
    forall y | y in tables ensures RulesAt(tables[y], vs1, infl, pad) {
      VertexKeepsRules(tables[y], vs, vs1, infl, pad);
    }
  }

  lemma RuleOkMatch(r: Rule, topo: Topology, tables: TableMap, vs: Vertices, pad: Mask)
    requires RuleOk(r, topo, tables, vs, pad)
    ensures IsMatch(r.domain, pad)
  {}

  /** The feeds of old rules stay and do not lead to what is new. */
  ghost predicate FeedStays(id: nat, vs: Vertices, feeds: Feeds, feeds1: Feeds, tables: TableMap)
  {
    && (id in feeds <==> id in feeds1)
    && (id in feeds ==>
          && feeds1[id] == feeds[id]
          && (feeds[id].dest.TableDest? ==> feeds[id].dest.table in tables)
          && (feeds[id].dest.SinkDest? ==> feeds[id].dest.sink in vs))
  }

  lemma FeedsStay(tables: TableMap, vs: Vertices, infl: Influences, topo0: Topology, topo1: Topology, feeds: Feeds, e: EdgeMap,
                  x: nat, miss: Rule, ends: Vertices, pad: Mask)
    requires GraphOk(tables, vs, infl, topo0, feeds, e, pad) && NewTable(tables, vs, topo0, topo1, x, miss, ends, pad)
    ensures forall id | id in vs :: FeedStays(id, vs, feeds, FeedsOf(Extended(vs, ends, miss), topo1, pad), tables)
  {
    hide IsMatch, TablesOk, Known, PortsOk, FeedOf, RuleOk, MorePorts, Served, FeedsOk, VerticesOk, IsMiss;
    forall id | id in vs ensures FeedStays(id, vs, feeds, FeedsOf(Extended(vs, ends, miss), topo1, pad), tables) {
      OldFeed(vs[id].rule, topo0, topo1, tables, vs, x, pad);
      if id in feeds { FeedLeaves(vs[id].rule, topo0, tables, vs, pad); }
    }
  }

  /** The edges so far are sound and serve the old rules. */
  lemma OldServed(vs: Vertices, vs1: Vertices, feeds: Feeds, feeds1: Feeds, tables: TableMap, x: nat, e: EdgeMap, pad: Mask)
    requires FeedsOk(vs, feeds, pad) && FeedsOk(vs1, feeds1, pad) && Served(vs, feeds, e, {}, {}, pad)
    requires forall id | id in vs :: id in vs1 && vs1[id] == vs[id] && FeedStays(id, vs, feeds, feeds1, tables)
    requires forall id | id in vs1 && id !in vs :: vs1[id].rule.kind == Flow ==> vs1[id].rule.table !in tables
    ensures AllSound(vs1, feeds1, e, {}, pad) && forall src | src in feeds1 && src in vs :: Serves(vs1, feeds1, e, src, pad)
  {
    hide Content, Nonempty, Img, IsTransfer, IsMatch, Carried, Flowing;
    forall id | id in e ensures EdgeSound(e[id], vs1, feeds1, pad) {
      assert EdgeSound(e[id], vs, feeds, pad) && FeedStays(e[id].src, vs, feeds, feeds1, tables);
    }
    forall src, dst | src in feeds1 && src in vs && dst in vs1 && DestHas(feeds1[src].dest, vs1[dst])
      ensures PairOk(vs1, feeds1, e, {}, src, dst, pad)
    {
      assert FeedStays(src, vs, feeds, feeds1, tables);
      assert vs1[dst].rule.id == dst;
      assert dst in vs && PairOk(vs, feeds, e, {}, src, dst, pad);
    }
  }

  lemma NewTableFacts(tables: TableMap, vs: Vertices, topo0: Topology, topo1: Topology, x: nat, miss: Rule, ends: Vertices, pad: Mask)
    requires NewTable(tables, vs, topo0, topo1, x, miss, ends, pad)
    ensures var vs1, tables1 := Extended(vs, ends, miss), tables[x := [miss]];
      && TopologyOk(topo1, tables1, vs1) && RulesOk(topo1, tables1, vs1, pad) && miss.id in vs1 && vs1[miss.id].rule == miss
      && (forall id | id in vs :: id in vs1 && vs1[id] == vs[id])
      && (forall id | id in vs1 && id !in vs :: vs1[id].rule.kind == Flow ==> vs1[id].rule.table !in tables)
      && (forall id | id in vs1 && id !in vs :: id == miss.id || (id in ends && vs1[id] == ends[id] && ends[id].rule.kind != Flow))
      && (forall id | id in vs1 :: IsMatch(vs1[id].rule.domain, pad)) && forall id | id in ends :: ends[id].domain == ends[id].rule.domain && id in vs1 && vs1[id] == ends[id]
  {
    hide IsMatch, TopologyOk, MorePorts, IsMiss;
    var vs1, tables1 := Extended(vs, ends, miss), tables[x := [miss]];
    forall id | id in vs1 ensures IsMatch(vs1[id].rule.domain, pad) {
      assert RuleOk(vs1[id].rule, topo1, tables1, vs1, pad);
    }
  }

  lemma FeedOfAre(vs: Vertices, topo: Topology, pad: Mask)
    ensures forall id :: id in FeedsOf(vs, topo, pad) <==> id in vs && FeedOf(vs[id].rule, topo, pad).Some?
    ensures forall id | id in FeedsOf(vs, topo, pad) :: FeedOf(vs[id].rule, topo, pad) == Some(FeedsOf(vs, topo, pad)[id])
    ensures forall id | id in vs && vs[id].rule.kind == Sink :: id !in FeedsOf(vs, topo, pad)
  {}

  /** addRule for a miss rule, after the sources and sinks of its ports: edges from the
      miss rule, then edges from every source to it. */
  method InstallTable(inst: EdgeInstaller, tables: TableMap, vs0: Vertices, topo0: Topology, topo1: Topology, x: nat, miss: Rule,
                      ends: Vertices, sources: seq<nat>, ghost infl: Influences, ghost feeds: Feeds)
    returns (vs: Vertices, ghost feeds1: Feeds)
    requires inst.Valid() && inst.emptyEdges == {} && GraphOk(tables, vs0, infl, topo0, feeds, inst.edges, inst.pad)
    requires NewTable(tables, vs0, topo0, topo1, x, miss, ends, inst.pad)
    requires forall id :: id in sources <==> id in ends && FeedOf(ends[id].rule, topo1, inst.pad).Some?
    modifies inst`edges, inst`emptyEdges, inst`nextEdge
    ensures inst.Valid() && inst.emptyEdges == {} && vs == Extended(vs0, ends, miss)
    ensures GraphOk(tables[x := [miss]], vs, infl, topo1, feeds1, inst.edges, inst.pad)
    ensures GrownFrom(old(inst.edges), inst.edges, [miss.id] + sources)
    ensures Distinct([miss.id] + sources) ==> OncePerPair(old(inst.edges), inst.edges)
  {
    hide *;
    vs := Extended(vs0, ends, miss);
    feeds1 := FeedsOf(vs, topo1, inst.pad);
    ghost var tables1, e0 := tables[x := [miss]], inst.edges;
    GraphFacts(tables, vs0, infl, topo0, feeds, e0, inst.pad);
    NewTableFacts(tables, vs0, topo0, topo1, x, miss, ends, inst.pad);
    ExtendedDomains(vs0, feeds, ends, miss, inst.pad);
    NewFeedsOk(vs, topo1, tables1, inst.pad);
    FeedOfAre(vs, topo1, inst.pad);
    TableExtends(tables, vs0, infl, topo0, topo1, feeds, e0, x, miss, ends, inst.pad);
    FeedsStay(tables, vs0, infl, topo0, topo1, feeds, e0, x, miss, ends, inst.pad);
    OldServed(vs0, vs, feeds, feeds1, tables, x, e0, inst.pad);
    var srcs := if FeedOf(miss, topo1, inst.pad).Some? then [miss.id] else [];
    ServeSources(inst, vs, srcs, tables[x := [miss]], topo1, feeds1, infl);
    ghost var e1 := inst.edges;
    StillServed(vs, feeds1, e0, e1, srcs, inst.pad);
    ServeSources(inst, vs, sources, tables[x := [miss]], topo1, feeds1, infl);
    StillServed(vs, feeds1, e1, inst.edges, sources, inst.pad);
    TableEdges(e0, e1, inst.edges, miss.id, srcs, sources);
    AllServed(vs, feeds1, inst.edges, inst.pad);
    AssembleGraph(tables1, vs, infl, topo1, feeds1, inst.edges, inst.pad);
  }

  lemma TableEdges(e0: EdgeMap, e1: EdgeMap, e2: EdgeMap, miss: nat, srcs: seq<nat>, sources: seq<nat>)
    requires GrownFrom(e0, e1, srcs) && GrownFrom(e1, e2, sources) && (srcs == [] || srcs == [miss])
    requires (Distinct(srcs) ==> OncePerPair(e0, e1)) && (Distinct(sources) ==> OncePerPair(e1, e2))
    ensures GrownFrom(e0, e2, [miss] + sources)
    ensures Distinct([miss] + sources) ==> OncePerPair(e0, e2)
  {
    hide Distinct;
    OneIsDistinct(miss);
    NoneDistinct<nat>();
    if Distinct([miss] + sources) { TailDistinct(miss, sources); }
  }

  lemma TailDistinct(x: nat, s: seq<nat>)
    requires Distinct([x] + s)
    ensures Distinct(s) && x !in s
  {
    assert ([x] + s)[0] == x && forall i | 0 <= i < |s| :: ([x] + s)[i + 1] == s[i];
    if i :| 0 <= i < |s| && s[i] == x { assert ([x] + s)[i + 1] == x; }
  }

  lemma StillServed(vs: Vertices, feeds: Feeds, e0: EdgeMap, e1: EdgeMap, srcs: seq<nat>, pad: Mask)
    requires FeedsOk(vs, feeds, pad) && GrownFrom(e0, e1, srcs)
    ensures forall src | src in feeds && Serves(vs, feeds, e0, src, pad) :: Serves(vs, feeds, e1, src, pad)
  {
    hide FeedsOk, Serves;
    forall src | src in feeds && Serves(vs, feeds, e0, src, pad) ensures Serves(vs, feeds, e1, src, pad) {
      GrownServes(vs, feeds, e0, e1, src, pad);
    }
  }
}
