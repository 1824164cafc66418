/** addRule and deleteRule of src/network/DependencyGraph.cpp: what they do to the state
    of the graph, step by step. */
module RuleUpdates {
  import opened Sequences
  import opened Masks
  import opened NetworkSpaces
  import opened Tables
  import opened Edges
  import opened EdgeInstallers
  import opened EdgeMoves
  import opened EdgeReturns
  import opened InfluenceGraphs
  import opened RuleChanges
  import opened RuleJoins
  import opened RuleLeaves
  import opened Topologies
  import opened GraphStates

  predicate NoEdgesInto(e: EdgeMap, d: nat)
  {
    forall k | k in e :: e[k].dst != d
  }

  ghost predicate NotInfluenced(infl: Influences, d: nat)
  {
    forall u: nat, l: nat | (u, l) in infl :: u != d && l != d
  }

  /** While no edge enters d, its domain does not matter. */
  lemma DomainSet(vs0: Vertices, vs: Vertices, feeds: Feeds, e: EdgeMap, d: nat, pad: Mask)
    requires FeedsOk(vs0, feeds, pad) && Served(vs0, feeds, e, {}, {d}, pad) && NoEdgesInto(e, d)
    requires d in vs0 && d in vs && vs == vs0[d := vs[d]] && vs[d].rule == vs0[d].rule && IsDomain(vs[d].domain, pad)
    requires vs[d].domain.port == vs[d].rule.domain.port
    ensures FeedsOk(vs, feeds, pad) && Served(vs, feeds, e, {}, {d}, pad)
  {
    hide Content, Nonempty, Img, IsTransfer, IsDomain, Carried;
    forall id | id in e ensures EdgeSound(e[id], vs, feeds, pad) {
      assert EdgeSound(e[id], vs0, feeds, pad) && vs[e[id].dst] == vs0[e[id].dst] && vs[e[id].src].rule == vs0[e[id].src].rule;
    }
    forall src, dst | src in feeds && dst in vs && dst !in {d} && DestHas(feeds[src].dest, vs[dst])
      ensures PairOk(vs, feeds, e, {}, src, dst, pad)
    {
      assert vs[dst] == vs0[dst] && vs[src].rule == vs0[src].rule && PairOk(vs0, feeds, e, {}, src, dst, pad);
    }
  }

  /** A rule's own vertex and influences are set; the rules of s do not notice. */
  lemma OthersKeep(s: seq<Rule>, d: Rule, vs0: Vertices, vs: Vertices, i0: Influences, i1: Influences, pad: Mask)
    requires d.id in vs0 && d.id in vs && vs == vs0[d.id := vs[d.id]] && OnlyOn(i0, i1, d.id)
    requires NotInfluenced(i0, d.id) && forall u | u in s :: u.id != d.id && RuleAt(s, u, vs0, i0, pad)
    ensures forall u | u in s :: (d.id, u.id) !in i1 && RuleAt(s, u, vs, i1, pad)
  {
    hide RuleAt;
    forall u | u in s ensures (d.id, u.id) !in i1 && RuleAt(s, u, vs, i1, pad) {
      OthersStay(s, u, d.id, vs0, vs, i0, i1, pad);
    }
  }

  /** add_in_edges for a rule that has just got its vertex. */
  method AddInEdges(inst: EdgeInstaller, t: seq<Rule>, k: nat, d: Rule, vs0: Vertices, i0: Influences,
                    ghost feeds: Feeds, ghost s: seq<Rule>)
    returns (vs: Vertices, infl: Influences, ghost g: map<nat, nat>)
    requires inst.Valid() && FeedsOk(vs0, feeds, inst.pad) && Known(i0, vs0) && inst.emptyEdges == {}
    requires Served(vs0, feeds, inst.edges, {}, {d.id}, inst.pad) && NoEdgesInto(inst.edges, d.id)
    requires Placed(t, s, d, inst.pad) && k < |t| && t[k] == d
    requires d.id in vs0 && vs0[d.id].rule == d && NotInfluenced(i0, d.id)
    requires forall u | u in s :: RuleAt(s, u, vs0, i0, inst.pad)
    modifies inst`edges, inst`emptyEdges, inst`nextEdge
    ensures inst.Valid() && FeedsOk(vs, feeds, inst.pad) && Known(infl, vs)
    ensures Served(vs, feeds, inst.edges, inst.emptyEdges, {}, inst.pad)
    ensures RulesAt(t, vs, infl, inst.pad) && OnlyTable(t, vs0, vs, i0, infl)
    ensures Copied(old(inst.edges), inst.edges, d.id, old(inst.nextEdge), g)
  {
    hide Copied, IsMatch, InfluenceOk, Effective, Content, IsDomain, Served, NoOverlaps, HasMiss, Sorted, InfluencesOn;
    PlacedSorted(t, s, d, inst.pad);
    assert forall r | r in t :: r.id in vs0 && vs0[r.id].rule == r;
    infl := UpperInfluences(t, k, i0, vs0, inst.pad);
    var domain := EffectiveDomain(t, infl, d, t, inst.pad);
    vs := vs0[d.id := Vertex(d, domain)];
    OthersKeep(s, d, vs0, vs, i0, infl, inst.pad);
    DomainSet(vs0, vs, feeds, inst.edges, d.id, inst.pad);
    ghost var vs1, i1 := vs, infl;
    OnlyTableSelf(t, vs0, i0);
    OnlyTableStep(t, vs0, vs0, vs1, i0, i0, i1, d);
    vs, infl, g := HandOverAll(inst, t, k, d, vs, infl, feeds, s);
    OnlyTableTrans(t, vs0, vs1, vs, i0, i1, infl);
  }

  lemma OnlyTableTrans(t: seq<Rule>, vs0: Vertices, vs1: Vertices, vs2: Vertices, i0: Influences, i1: Influences, i2: Influences)
    requires OnlyTable(t, vs0, vs1, i0, i1) && OnlyTable(t, vs1, vs2, i1, i2)
    ensures OnlyTable(t, vs0, vs2, i0, i2)
  {}

  // --- addRule ---

  /** A flow rule that is not in the graph yet and overlaps no rule of its priority. */
  ghost predicate NewRule(d: Rule, tables: TableMap, vs: Vertices, topo: Topology, pad: Mask)
  {
    && d.kind == Flow && d.id !in vs && RuleOk(d, topo, tables, vs, pad)
    && forall r | r in tables[d.table] ::
         r.domain.port == d.domain.port && (r.priority == d.priority ==> Matched(r, |pad|) !! Matched(d, |pad|))
  }

  function WithVertex(vs: Vertices, d: Rule): Vertices
  {
    vs[d.id := Vertex(d, d.domain)]
  }

  ghost function WithFeed(feeds: Feeds, d: Rule, topo: Topology, pad: Mask): Feeds
  {
    var feed := FeedOf(d, topo, pad);
    if feed.Some? then feeds[d.id := feed.value] else feeds
  }

  lemma InsertedJoins(t: seq<Rule>, s: seq<Rule>, k: nat, d: Rule)
    requires Inserted(t, s, k, d)
    ensures Joins(t, s, d)
    ensures forall i | 0 <= i < |t| && i != k :: t[i] == s[if i < k then i else i - 1]
  {
    forall x ensures x in t <==> x in s || x == d {
      if i :| 0 <= i < |s| && s[i] == x { assert t[if i < k then i else i + 1] == x; }
      assert t[k] == d;
    }
  }

  lemma InsertedApart(t: seq<Rule>, s: seq<Rule>, k: nat, d: Rule, n: nat)
    requires Inserted(t, s, k, d) && NoOverlaps(s, n)
    requires forall r | r in s && r.priority == d.priority :: Matched(r, n) !! Matched(d, n)
    ensures NoOverlaps(t, n)
  {
    hide Matched;
    InsertedJoins(t, s, k, d);
    forall i, j | 0 <= i < j < |t| && t[i].priority == t[j].priority ensures Matched(t[i], n) !! Matched(t[j], n) {
      if i == k { assert t[j] in s; } else if j == k { assert t[i] in s; }
    }
  }

  lemma RulePlaced(t: seq<Rule>, s: seq<Rule>, k: nat, d: Rule, tables: TableMap, vs: Vertices, infl: Influences, topo: Topology, pad: Mask)
    requires d.table in tables && s == tables[d.table] && TablesOk(tables, vs, infl, pad) && NewRule(d, tables, vs, topo, pad)
    requires Inserted(t, s, k, d) && Sorted(t)
    ensures Placed(t, s, d, pad) && Joins(t, s, d)
  {
    hide Matched, IsMatch, InfluencesOn, Effective, IsMiss, Inserted, NoOverlaps, Sorted;
    InsertedJoins(t, s, k, d);
    InsertedApart(t, s, k, d, |pad|);
    forall u | u in s ensures u.id != d.id { assert RuleAt(s, u, vs, infl, pad); }
    var m :| m in s && IsMiss(m, |pad|);
    assert m in t;
  }

  lemma VertexAdded(tables: TableMap, vs: Vertices, infl: Influences, topo: Topology, feeds: Feeds, e: EdgeMap, d: Rule, pad: Mask)
    requires GraphOk(tables, vs, infl, topo, feeds, e, pad) && d.id !in vs && RuleOk(d, topo, tables, vs, pad)
    ensures var vs1, feeds1 := WithVertex(vs, d), WithFeed(feeds, d, topo, pad);
      && FeedsOk(vs1, feeds1, pad) && FeedsAre(feeds1, vs1, topo, pad) && Known(infl, vs1)
      && AllSound(vs1, feeds1, e, {}, pad) && NoEdgesInto(e, d.id) && NotInfluenced(infl, d.id)
  {
    hide Content, Nonempty, Img, IsTransfer, IsMatch, AllPairs, TablesOk, FeedOf, LinksOk, PortsOk, RulesOk, VerticesOk;
    var vs1, feeds1 := WithVertex(vs, d), WithFeed(feeds, d, topo, pad);
    MatchIsDomain(d.domain, pad);
    if FeedOf(d, topo, pad).Some? { FeedLeaves(d, topo, tables, vs, pad); }
    forall id | id in e ensures EdgeSound(e[id], vs1, feeds1, pad) && e[id].dst != d.id {
      assert EdgeSound(e[id], vs, feeds, pad);
    }
  }

  lemma VertexKeepsPair(vs: Vertices, feeds: Feeds, e: EdgeMap, d: Rule, topo: Topology, src: nat, dst: nat, pad: Mask)
    requires FeedsOk(vs, feeds, pad) && AllPairs(vs, feeds, e, {}, {}, pad) && d.id !in vs
    requires FeedsOk(WithVertex(vs, d), WithFeed(feeds, d, topo, pad), pad)
    requires src in feeds && dst in vs && DestHas(feeds[src].dest, vs[dst])
    ensures PairOk(WithVertex(vs, d), WithFeed(feeds, d, topo, pad), e, {}, src, dst, pad)
  {
    hide Content, Nonempty, Img, IsTransfer, IsMatch, Carried, FeedOf;
    assert PairOk(vs, feeds, e, {}, src, dst, pad);
  }

  /** After add_out_edges, only the edges into d are missing. */
  lemma OutEdgesDone(tables: TableMap, vs: Vertices, infl: Influences, topo: Topology, feeds: Feeds, e0: EdgeMap, e1: EdgeMap, d: Rule, pad: Mask)
    requires GraphOk(tables, vs, infl, topo, feeds, e0, pad) && d.id !in vs && RuleOk(d, topo, tables, vs, pad)
    requires var vs1, feeds1, feed := WithVertex(vs, d), WithFeed(feeds, d, topo, pad), FeedOf(d, topo, pad);
      && FeedsOk(vs1, feeds1, pad) && NoEdgesInto(e0, d.id)
      && if feed.None? then e1 == e0 else
           var dsts := DestIds(feed.value.dest, tables);
           && Grown(e0, e1, d.id, dsts)
           && forall x | x in dsts :: x in vs1 && PairOk(vs1, feeds1, e1, {}, d.id, x, pad)
    ensures NoEdgesInto(e1, d.id)
    ensures AllPairs(WithVertex(vs, d), WithFeed(feeds, d, topo, pad), e1, {}, {d.id}, pad)
  {
    hide Content, Nonempty, Img, IsTransfer, IsMatch, PairOk, FeedOf, LinksOk, PortsOk, TablesOk, VerticesOk, Known, AllSound;
    var vs1, feeds1, feed := WithVertex(vs, d), WithFeed(feeds, d, topo, pad), FeedOf(d, topo, pad);
    if feed.Some? {
      FeedLeaves(d, topo, tables, vs, pad);
      DestIdsAre(feed.value, tables, vs, infl, pad);
    }
    forall src, dst | src in feeds1 && dst in vs1 && dst != d.id && DestHas(feeds1[src].dest, vs1[dst])
      ensures PairOk(vs1, feeds1, e1, {}, src, dst, pad)
    {
      if src != d.id {
        VertexKeepsPair(vs, feeds, e0, d, topo, src, dst, pad);
        KeepsPairs(vs1, feeds1, e0, {}, e1, {}, src, dst, pad);
      }
    }
  }

  /** Removing the edges found empty. */
  lemma EmptyCleared(vs: Vertices, feeds: Feeds, e: EdgeMap, dead: set<nat>, pad: Mask)
    requires FeedsOk(vs, feeds, pad) && Served(vs, feeds, e, dead, {}, pad)
    ensures Served(vs, feeds, e - dead, {}, {}, pad)
  {
    hide Content, Nonempty, Img, IsTransfer, IsMatch, Carried, EdgeSound, Flowing;
    forall src, dst | src in feeds && dst in vs && DestHas(feeds[src].dest, vs[dst])
      ensures PairOk(vs, feeds, e - dead, {}, src, dst, pad)
    {
      assert PairOk(vs, feeds, e, dead, src, dst, pad);
      KeepsCarried(Want(vs, src, dst, feeds[src].transfer, pad), e, dead, e - dead, {}, src, dst, |pad|);
    }
  }

  /** Another table does not notice. */
  lemma OtherTable(t: seq<Rule>, s: seq<Rule>, vs0: Vertices, vs: Vertices, i0: Influences, i1: Influences, pad: Mask)
    requires OnlyTable(t, vs0, vs, i0, i1) && (forall r | r in t :: r.id in vs0 && vs0[r.id].rule == r)
    requires RulesAt(s, vs0, i0, pad) && forall r | r in s :: r !in t
    ensures RulesAt(s, vs, i1, pad)
  {
    hide Content, Nonempty, Effective, InfluenceOk, Matched;
    forall r | r in s ensures RuleAt(s, r, vs, i1, pad) {
      assert RuleAt(s, r, vs0, i0, pad) && !HasId(t, r.id);
    }
  }

  lemma TopologyKept(topo: Topology, t0: TableMap, t1: TableMap, v0: Vertices, v1: Vertices, pad: Mask)
    requires TopologyOk(topo, t0, v0) && RulesOk(topo, t0, v0, pad) && t0.Keys <= t1.Keys
    requires forall id | id in v0 :: id in v1 && v1[id].rule == v0[id].rule
    requires forall id | id in v1 && id !in v0 :: v1[id].rule.id == id && RuleOk(v1[id].rule, topo, t0, v0, pad)
    ensures TopologyOk(topo, t1, v1) && RulesOk(topo, t1, v1, pad)
  {
    hide LinksOk, IsMatch, IsTransfer;
    forall id | id in v1 ensures RuleOk(v1[id].rule, topo, t1, v1, pad) {
      assert RuleOk(v1[id].rule, topo, t0, v0, pad);
    }
  }

  lemma FeedsKept(feeds: Feeds, vs0: Vertices, vs: Vertices, topo: Topology, pad: Mask)
    requires FeedsAre(feeds, vs0, topo, pad) && SameRules(vs0, vs)
    ensures FeedsAre(feeds, vs, topo, pad)
  {
    hide FeedOf;
  }

  /** Table x becomes t; the others do not notice. */
  lemma TablesAfter(tables: TableMap, vs0: Vertices, i0: Influences, x: nat, t: seq<Rule>, vs: Vertices, i1: Influences, pad: Mask)
    requires forall y | y in tables && y != x :: TableOk(tables[y], y, pad) && RulesAt(tables[y], vs0, i0, pad)
    requires TableOk(t, x, pad) && RulesAt(t, vs, i1, pad) && OnlyTable(t, vs0, vs, i0, i1)
    ensures TablesOk(tables[x := t], vs, i1, pad)
  {
    hide IsMatch, NoOverlaps, HasMiss, Sorted, InfluencesOn, Effective;
    forall y | y in tables && y != x ensures RulesAt(tables[y], vs, i1, pad) {
      forall r | r in t ensures r.id in vs0 && vs0[r.id].rule == r && r !in tables[y] {
        assert RuleAt(t, r, vs, i1, pad);
      }
      OtherTable(t, tables[y], vs0, vs, i0, i1, pad);
    }
  }

  lemma VerticesAfter(tables: TableMap, vs0: Vertices, vs: Vertices, x: nat, t: seq<Rule>)
    requires SameRules(vs0, vs) && (forall id | id in vs && vs[id].rule !in t :: vs[id] == vs0[id])
    requires forall r | r in t :: r.kind == Flow && r.table == x
    requires forall id | id in vs0 :: var r := vs0[id].rule;
               if r.kind != Flow then vs0[id].domain == r.domain
               else if r.table == x then r in t else r.table in tables && r in tables[r.table]
    ensures VerticesOk(tables[x := t], vs)
  {}

  /** The state after addRule. */
  lemma RuleAdded(tables: TableMap, vs: Vertices, infl: Influences, topo: Topology, feeds: Feeds, e0: EdgeMap,
                  t: seq<Rule>, d: Rule, vs2: Vertices, i2: Influences, e2: EdgeMap, dead: set<nat>, pad: Mask)
    requires GraphOk(tables, vs, infl, topo, feeds, e0, pad) && NewRule(d, tables, vs, topo, pad)
    requires d.table in tables && Placed(t, tables[d.table], d, pad)
    requires var vs1, feeds1 := WithVertex(vs, d), WithFeed(feeds, d, topo, pad);
      && FeedsAre(feeds1, vs1, topo, pad) && FeedsOk(vs2, feeds1, pad) && Known(i2, vs2)
      && Served(vs2, feeds1, e2, dead, {}, pad) && RulesAt(t, vs2, i2, pad) && OnlyTable(t, vs1, vs2, infl, i2)
    ensures GraphOk(tables[d.table := t], vs2, i2, topo, WithFeed(feeds, d, topo, pad), e2 - dead, pad)
    ensures SameRules(WithVertex(vs, d), vs2)
  {
    hide Served, IsMatch, NoOverlaps, HasMiss, Sorted, InfluencesOn, Effective, FeedOf, PortsOk, LinksOk, FeedsOk, Known, OnlyTable,
         RulesAt, FeedsAre, Matched, WithFeed, TopologyOk, RulesOk, RuleOk;
    var vs1, feeds1 := WithVertex(vs, d), WithFeed(feeds, d, topo, pad);
    EmptyCleared(vs2, feeds1, e2, dead, pad);
    OnlyTableRules(t, vs1, vs2, infl, i2);
    FeedsKept(feeds1, vs1, vs2, topo, pad);
    TopologyAdded(tables, tables[d.table := t], topo, d, vs, vs2, pad);
    forall y | y in tables && y != d.table ensures RulesAt(tables[y], vs1, infl, pad) {
      VertexKeepsRules(tables[y], vs, vs1, infl, pad);
    }
    TablesAfter(tables, vs1, infl, d.table, t, vs2, i2, pad);
    VerticesAfter(tables, vs1, vs2, d.table, t);
  }

  lemma TopologyAdded(t0: TableMap, t1: TableMap, topo: Topology, d: Rule, vs: Vertices, vs2: Vertices, pad: Mask)
    requires TopologyOk(topo, t0, vs) && RulesOk(topo, t0, vs, pad) && t0.Keys <= t1.Keys
    requires d.id !in vs && RuleOk(d, topo, t0, vs, pad) && SameRules(WithVertex(vs, d), vs2)
    ensures TopologyOk(topo, t1, vs2) && RulesOk(topo, t1, vs2, pad)
  {
    hide TopologyOk, RuleOk;
    TopologyKept(topo, t0, t1, vs, vs2, pad);
  }

  lemma OnlyTableRules(t: seq<Rule>, vs0: Vertices, vs: Vertices, i0: Influences, i1: Influences)
    requires OnlyTable(t, vs0, vs, i0, i1)
    ensures SameRules(vs0, vs) && forall id | id in vs && vs[id].rule !in t :: vs[id] == vs0[id]
  {}

  lemma RulesHaveVertices(tables: TableMap, vs: Vertices, infl: Influences, pad: Mask)
    requires TablesOk(tables, vs, infl, pad)
    ensures forall x, r | x in tables && r in tables[x] :: r.table == x && r.kind == Flow && r.id in vs && vs[r.id].rule == r
  {
    hide Effective, InfluencesOn, NoOverlaps, HasMiss, Sorted, IsMatch;
    forall x, r | x in tables && r in tables[x] ensures r.table == x && r.kind == Flow && r.id in vs && vs[r.id].rule == r {
      assert RuleAt(tables[x], r, vs, infl, pad);
    }
  }

  lemma VertexKeepsRules(s: seq<Rule>, vs0: Vertices, vs1: Vertices, infl: Influences, pad: Mask)
    requires RulesAt(s, vs0, infl, pad) && forall id | id in vs0 :: id in vs1 && vs1[id] == vs0[id]
    ensures RulesAt(s, vs1, infl, pad)
  {
    hide Effective, InfluencesOn, Content;
  }

  lemma NewRuleFacts(d: Rule, tables: TableMap, vs: Vertices, topo: Topology, pad: Mask)
    requires NewRule(d, tables, vs, topo, pad)
    ensures d.table in tables && d.id !in vs && RuleOk(d, topo, tables, vs, pad)
  {}

  lemma GraphFacts(tables: TableMap, vs: Vertices, infl: Influences, topo: Topology, feeds: Feeds, e: EdgeMap, pad: Mask)
    requires GraphOk(tables, vs, infl, topo, feeds, e, pad)
    ensures IsPad(pad) && FeedsOk(vs, feeds, pad) && TablesOk(tables, vs, infl, pad) && VerticesOk(tables, vs) && Known(infl, vs)
    ensures TopologyOk(topo, tables, vs) && AllSound(vs, feeds, e, {}, pad) && AllPairs(vs, feeds, e, {}, {}, pad)
    ensures Served(vs, feeds, e, {}, {}, pad)
    ensures forall x, r | x in tables && r in tables[x] :: r.table == x && r.kind == Flow && r.id in vs && vs[r.id].rule == r
    ensures forall x | x in tables :: TableOk(tables[x], x, pad) && Sorted(tables[x]) && RulesAt(tables[x], vs, infl, pad)
  {
    hide FeedsOk, VerticesOk, Known, TopologyOk, AllSound, AllPairs, RulesAt, Sorted, NoOverlaps, HasMiss, IsMatch, RulesOk, FeedsAre;
    RulesHaveVertices(tables, vs, infl, pad);
  }

  lemma DestFacts(d: Rule, tables: TableMap, vs: Vertices, infl: Influences, topo: Topology, feeds: Feeds, e: EdgeMap, pad: Mask)
    requires GraphOk(tables, vs, infl, topo, feeds, e, pad) && d.id !in vs && RuleOk(d, topo, tables, vs, pad)
    requires FeedOf(d, topo, pad).Some?
    ensures var feed, vs1, feeds1 := FeedOf(d, topo, pad).value, WithVertex(vs, d), WithFeed(feeds, d, topo, pad);
      && d.id in feeds1 && feeds1[d.id] == feed
      && (forall x | x in DestIds(feed.dest, tables) :: x in vs1 && DestHas(feed.dest, vs1[x])) && Distinct(DestIds(feed.dest, tables))
  {
    hide FeedOf, RuleOk, TablesOk, VerticesOk, Served, FeedsAre, IsMatch, TopologyOk, Known;
    FeedLeaves(d, topo, tables, vs, pad);
    DestIdsAre(FeedOf(d, topo, pad).value, tables, vs, infl, pad);
  }

  /** What addRule adds: edges out of d, at most one to each rule, and copies of edges into
      other rules, at most one of each, that enter d. */
  ghost predicate Branched(e0: EdgeMap, e: EdgeMap, d: nat, g: map<nat, nat>)
  {
    && (forall k | k in e && k in e0 :: e[k].src == e0[k].src && e[k].dst == e0[k].dst && e[k].transfer == e0[k].transfer)
    && (forall k | k in e && k !in e0 :: e[k].src == d || (e[k].dst == d && CopyOf(e[k], k, e0, d, g)))
    && (forall j, k | j in e && k in e && j !in e0 && k !in e0 && e[j].src == d && e[k].src == d && e[j].dst == e[k].dst && e[k].dst != d :: j == k)
    && forall j, k | j in e && k in e && j !in e0 && k !in e0 && e[j].src != d && e[k].src != d && j in g && k in g && g[j] == g[k] :: j == k
  }

  lemma BranchedEdges(e0: EdgeMap, e1: EdgeMap, e2: EdgeMap, e: EdgeMap, d: nat, dsts: seq<nat>, limit: nat, g: map<nat, nat>)
    requires (e1 == e0 || Grown(e0, e1, d, dsts)) && OncePerPair(e0, e1) && Copied(e1, e2, d, limit, g)
    requires forall id | id in e :: id in e2 && e[id] == e2[id]
    ensures Branched(e0, e, d, g)
  {}

  /** What addRule does: vertex, edges out of it, edges into it. */
  method InstallRule(inst: EdgeInstaller, tables: TableMap, vs0: Vertices, i0: Influences, topo: Topology, d: Rule, ghost feeds: Feeds)
    returns (t: seq<Rule>, vs: Vertices, infl: Influences, ghost g: map<nat, nat>)
    requires inst.Valid() && inst.emptyEdges == {} && GraphOk(tables, vs0, i0, topo, feeds, inst.edges, inst.pad)
    requires d.table in tables && NewRule(d, tables, vs0, topo, inst.pad)
    modifies inst`edges, inst`emptyEdges, inst`nextEdge
    ensures inst.Valid() && inst.emptyEdges == {}
    ensures GraphOk(tables[d.table := t], vs, infl, topo, WithFeed(feeds, d, topo, inst.pad), inst.edges, inst.pad)
    ensures Joins(t, tables[d.table], d) && SameRules(WithVertex(vs0, d), vs)
    ensures Branched(old(inst.edges), inst.edges, d.id, g)
  {
    hide *;
    GraphFacts(tables, vs0, i0, topo, feeds, inst.edges, inst.pad);
    NewRuleFacts(d, tables, vs0, topo, inst.pad);
    var k;
    t, k := InsertRule(tables[d.table], d);
    RulePlaced(t, tables[d.table], k, d, tables, vs0, i0, topo, inst.pad);
    vs := WithVertex(vs0, d);
    ghost var feeds1, e0 := WithFeed(feeds, d, topo, inst.pad), inst.edges;
    VertexAdded(tables, vs0, i0, topo, feeds, e0, d, inst.pad);
    var feed := FeedOf(d, topo, inst.pad);
    NoneNew(e0);
    if feed.Some? {
      DestFacts(d, tables, vs0, i0, topo, feeds, e0, inst.pad);
      AddEdges(inst, vs, d.id, DestIds(feed.value.dest, tables), feed.value.transfer, feeds1);
    }
    ghost var e1, limit, dsts := inst.edges, inst.nextEdge, if feed.Some? then DestIds(feed.value.dest, tables) else [];
    OutEdgesDone(tables, vs0, i0, topo, feeds, e0, inst.edges, d, inst.pad);
    ReadyForIn(vs0, i0, tables[d.table], feeds1, inst.edges, d, inst.pad);
    vs, infl, g := AddInEdges(inst, t, k, d, vs, i0, feeds1, tables[d.table]);
    RuleAdded(tables, vs0, i0, topo, feeds, e0, t, d, vs, infl, inst.edges, inst.emptyEdges, inst.pad);
    ghost var e2, dead := inst.edges, inst.emptyEdges;
    inst.ClearEmptyEdges();
    assert inst.edges == e2 - dead;
    BranchedEdges(e0, e1, e2, inst.edges, d.id, dsts, limit, g);
  }

  lemma ReadyForIn(vs0: Vertices, i0: Influences, s: seq<Rule>, feeds: Feeds, e: EdgeMap, d: Rule, pad: Mask)
    requires d.id !in vs0 && FeedsOk(WithVertex(vs0, d), feeds, pad) && RulesAt(s, vs0, i0, pad)
    requires AllSound(WithVertex(vs0, d), feeds, e, {}, pad) && AllPairs(WithVertex(vs0, d), feeds, e, {}, {d.id}, pad)
    ensures Served(WithVertex(vs0, d), feeds, e, {}, {d.id}, pad)
    ensures d.id in WithVertex(vs0, d) && WithVertex(vs0, d)[d.id].rule == d
    ensures forall u | u in s :: RuleAt(s, u, WithVertex(vs0, d), i0, pad)
  {
    hide AllSound, AllPairs, FeedsOk, InfluencesOn, Effective, Content;
    VertexKeepsRules(s, vs0, WithVertex(vs0, d), i0, pad);
  }

  // --- deleteRule ---

  lemma OutDeleted(tables: TableMap, vs: Vertices, infl: Influences, topo: Topology, feeds: Feeds, e0: EdgeMap, e1: EdgeMap, d: nat, pad: Mask)
    requires GraphOk(tables, vs, infl, topo, feeds, e0, pad)
    requires e1 == map id | id in e0 && e0[id].src != d :: e0[id]
    ensures FeedsOk(vs, feeds - {d}, pad) && Served(vs, feeds - {d}, e1, {}, {}, pad)
  {
    hide Content, Nonempty, Img, IsTransfer, IsMatch, Carried, TablesOk, FeedsAre, TopologyOk, RulesOk, VerticesOk, Flowing;
    var feeds1 := feeds - {d};
    forall id | id in e1 ensures EdgeSound(e1[id], vs, feeds1, pad) {
      assert EdgeSound(e0[id], vs, feeds, pad);
    }
    forall src, dst | src in feeds1 && dst in vs && DestHas(feeds1[src].dest, vs[dst])
      ensures PairOk(vs, feeds1, e1, {}, src, dst, pad)
    {
      assert PairOk(vs, feeds, e0, {}, src, dst, pad);
      KeepsCarried(Want(vs, src, dst, feeds[src].transfer, pad), e0, {}, e1, {}, src, dst, |pad|);
    }
  }

  function WithoutRule(infl: Influences, d: nat): Influences
  {
    map k | k in infl && k.0 != d && k.1 != d :: infl[k]
  }

  /** No edge touches d any more: its vertex can go. */
  lemma VertexRemoved(vs: Vertices, infl: Influences, feeds: Feeds, e: EdgeMap, d: nat, pad: Mask)
    requires FeedsOk(vs, feeds, pad) && Known(infl, vs) && d !in feeds
    requires Served(vs, feeds, e, {}, {d}, pad) && NoEdgesInto(e, d)
    ensures FeedsOk(vs - {d}, feeds, pad) && Known(WithoutRule(infl, d), vs - {d})
    ensures Served(vs - {d}, feeds, e, {}, {}, pad)
  {
    hide Content, Nonempty, Img, IsTransfer, IsMatch, Carried, Flowing;
    forall id | id in e ensures EdgeSound(e[id], vs - {d}, feeds, pad) {
      assert EdgeSound(e[id], vs, feeds, pad);
    }
    forall src, dst | src in feeds && dst in vs - {d} && DestHas(feeds[src].dest, vs[dst])
      ensures PairOk(vs - {d}, feeds, e, {}, src, dst, pad)
    {
      assert dst !in {d} && PairOk(vs, feeds, e, {}, src, dst, pad);
    }
  }

  /** Clearing the edges into d and those found empty. */
  lemma InDeleted(vs: Vertices, feeds: Feeds, e: EdgeMap, dead: set<nat>, e3: EdgeMap, dead3: set<nat>, d: nat, pad: Mask)
    requires FeedsOk(vs, feeds, pad) && Served(vs, feeds, e, dead, {}, pad)
    requires e3 == (map id | id in e && e[id].dst != d :: e[id]) && dead3 == dead * e3.Keys
    ensures Served(vs, feeds, e3 - dead3, {}, {d}, pad) && NoEdgesInto(e3 - dead3, d)
  {
    hide Content, Nonempty, Img, IsTransfer, IsMatch, Carried, EdgeSound, Flowing;
    forall src, dst | src in feeds && dst in vs && dst !in {d} && DestHas(feeds[src].dest, vs[dst])
      ensures PairOk(vs, feeds, e3 - dead3, {}, src, dst, pad)
    {
      assert PairOk(vs, feeds, e, dead, src, dst, pad);
      KeepsCarried(Want(vs, src, dst, feeds[src].transfer, pad), e, dead, e3 - dead3, {}, src, dst, |pad|);
    }
  }

  predicate Removed(t: seq<Rule>, s: seq<Rule>, k: nat)
  {
    k < |t| && s == t[..k] + t[k + 1..]
  }

  lemma RuleRemoved(t: seq<Rule>, s: seq<Rule>, k: nat, d: Rule, vs: Vertices, infl: Influences, pad: Mask)
    requires Removed(t, s, k) && t[k] == d && TableOk(t, d.table, pad) && RulesAt(t, vs, infl, pad) && HasMiss(s, |pad|)
    ensures Placed(t, s, d, pad) && Sorted(s) && Joins(t, s, d) && NoOverlaps(s, |pad|)
  {
    hide Matched, IsMatch, InfluencesOn, Effective, IsMiss, HasMiss;
    forall i | 0 <= i < |s| ensures s[i] == t[if i < k then i else i + 1] {}
    forall x ensures x in t <==> x in s || x == d {
      if i :| 0 <= i < |t| && t[i] == x && i != k { assert s[if i < k then i else i - 1] == x; }
    }
    forall i | 0 <= i < |s| ensures s[i].id != d.id {
      var j := if i < k then i else i + 1;
      assert t[j] in t && d in t && (Above(t[j], t[k]) || Above(t[k], t[j]));
      assert RuleAt(t, t[j], vs, infl, pad) && RuleAt(t, d, vs, infl, pad);
    }
  }

  /** A rule and its influences go: the rules of other tables, and of its own, stay right. */
  lemma RulesWithout(s: seq<Rule>, vs: Vertices, infl: Influences, d: nat, pad: Mask)
    requires RulesAt(s, vs, infl, pad) && forall r | r in s :: r.id != d
    ensures RulesAt(s, vs - {d}, WithoutRule(infl, d), pad)
  {
    hide Content, Nonempty, Effective, InfluenceOk, Matched;
    forall r | r in s ensures RuleAt(s, r, vs - {d}, WithoutRule(infl, d), pad) {
      assert RuleAt(s, r, vs, infl, pad);
    }
  }

  lemma TopologyWithout(topo: Topology, t0: TableMap, t1: TableMap, vs: Vertices, d: nat, pad: Mask)
    requires TopologyOk(topo, t0, vs) && RulesOk(topo, t0, vs, pad) && t0.Keys == t1.Keys
    requires d in vs && vs[d].rule.kind == Flow
    ensures TopologyOk(topo, t1, vs - {d}) && RulesOk(topo, t1, vs - {d}, pad)
  {
    hide LinksOk, IsMatch, IsTransfer;
    forall id | id in vs - {d} ensures RuleOk(vs[id].rule, topo, t1, vs - {d}, pad) {
      assert RuleOk(vs[id].rule, topo, t0, vs, pad);
    }
  }

  lemma TopologySame(topo: Topology, t: TableMap, v0: Vertices, v1: Vertices, pad: Mask)
    requires TopologyOk(topo, t, v0) && RulesOk(topo, t, v0, pad) && SameRules(v0, v1)
    ensures TopologyOk(topo, t, v1) && RulesOk(topo, t, v1, pad)
  {
    hide TopologyOk, RuleOk;
    TopologyKept(topo, t, t, v0, v1, pad);
  }

  lemma AssembleGraph(tables: TableMap, vs: Vertices, infl: Influences, topo: Topology, feeds: Feeds, e: EdgeMap, pad: Mask)
    requires IsPad(pad) && TablesOk(tables, vs, infl, pad) && VerticesOk(tables, vs) && Known(infl, vs)
    requires TopologyOk(topo, tables, vs) && RulesOk(topo, tables, vs, pad) && FeedsAre(feeds, vs, topo, pad)
    requires FeedsOk(vs, feeds, pad) && Served(vs, feeds, e, {}, {}, pad)
    ensures GraphOk(tables, vs, infl, topo, feeds, e, pad)
  {
    hide TablesOk, VerticesOk, Known, TopologyOk, RulesOk, FeedsAre, FeedsOk, Served, IsPad;
  }

  lemma TablesWithout(tables: TableMap, vs: Vertices, infl: Influences, t: seq<Rule>, s: seq<Rule>, d: Rule,
                      vs2: Vertices, i2: Influences, pad: Mask)
    requires TablesOk(tables, vs, infl, pad) && d.table in tables && t == tables[d.table] && d in t
    requires Placed(t, s, d, pad) && NoOverlaps(s, |pad|) && RulesAt(s, vs2, i2, pad) && OnlyTable(t, vs, vs2, infl, i2)
    ensures TablesOk(tables[d.table := s], vs2 - {d.id}, WithoutRule(i2, d.id), pad)
  {
    hide IsMatch, NoOverlaps, HasMiss, Sorted, InfluencesOn, Effective, OnlyTable, Matched, WithoutRule, RulesAt;
    RulesHaveVertices(tables, vs, infl, pad);
    RulesWithout(s, vs2, i2, d.id, pad);
    forall y | y in tables && y != d.table ensures RulesAt(tables[y], vs2 - {d.id}, WithoutRule(i2, d.id), pad) {
      OtherTable(t, tables[y], vs, vs2, infl, i2, pad);
      RulesWithout(tables[y], vs2, i2, d.id, pad);
    }
  }

  lemma FeedsWithout(feeds: Feeds, vs: Vertices, vs2: Vertices, topo: Topology, d: nat, pad: Mask)
    requires FeedsAre(feeds, vs, topo, pad) && SameRules(vs, vs2)
    ensures FeedsAre(feeds - {d}, vs2 - {d}, topo, pad) && SameRules(vs - {d}, vs2 - {d})
  {
    hide FeedOf;
  }

  lemma GraphMore(tables: TableMap, vs: Vertices, infl: Influences, topo: Topology, feeds: Feeds, e: EdgeMap, pad: Mask)
    requires GraphOk(tables, vs, infl, topo, feeds, e, pad)
    ensures RulesOk(topo, tables, vs, pad) && FeedsAre(feeds, vs, topo, pad) && forall id | id in vs :: vs[id].rule.id == id
  {
    hide TablesOk, VerticesOk, Known, TopologyOk, FeedsAre, Served, IsPad, RuleOk;
  }

  /** The state after deleteRule. */
  lemma RuleGone(tables: TableMap, vs: Vertices, infl: Influences, topo: Topology, feeds: Feeds, e0: EdgeMap,
                 t: seq<Rule>, s: seq<Rule>, d: Rule, vs2: Vertices, i2: Influences, e4: EdgeMap, pad: Mask)
    requires GraphOk(tables, vs, infl, topo, feeds, e0, pad) && d.table in tables && t == tables[d.table] && d in t
    requires Placed(t, s, d, pad) && NoOverlaps(s, |pad|) && Joins(t, s, d)
    requires Known(i2, vs2) && RulesAt(s, vs2, i2, pad) && OnlyTable(t, vs, vs2, infl, i2)
    requires FeedsOk(vs2, feeds - {d.id}, pad) && Served(vs2, feeds - {d.id}, e4, {}, {d.id}, pad) && NoEdgesInto(e4, d.id)
    ensures GraphOk(tables[d.table := s], vs2 - {d.id}, WithoutRule(i2, d.id), topo, feeds - {d.id}, e4, pad)
    ensures SameRules(vs - {d.id}, vs2 - {d.id})
  {
    hide *;
    GraphFacts(tables, vs, infl, topo, feeds, e0, pad);
    GraphMore(tables, vs, infl, topo, feeds, e0, pad);
    OnlyTableRules(t, vs, vs2, infl, i2);
    SameRulesHas(vs, vs2, d);
    VertexRemoved(vs2, i2, feeds - {d.id}, e4, d.id, pad);
    TopologySame(topo, tables, vs, vs2, pad);
    TopologyWithout(topo, tables, tables[d.table := s], vs2, d.id, pad);
    TablesWithout(tables, vs, infl, t, s, d, vs2, i2, pad);
    FeedsWithout(feeds, vs, vs2, topo, d.id, pad);
    RemovedVertices(tables, vs, vs2, d, t, s);
    AssembleGraph(tables[d.table := s], vs2 - {d.id}, WithoutRule(i2, d.id), topo, feeds - {d.id}, e4, pad);
  }

  lemma SameRulesHas(vs: Vertices, vs2: Vertices, d: Rule)
    requires SameRules(vs, vs2) && d.id in vs && vs[d.id].rule == d
    ensures d.id in vs2 && vs2[d.id].rule == d
  {}

  lemma RemovedVertices(tables: TableMap, vs: Vertices, vs2: Vertices, d: Rule, t: seq<Rule>, s: seq<Rule>)
    requires VerticesOk(tables, vs) && SameRules(vs, vs2) && d.table in tables && t == tables[d.table] && Joins(t, s, d)
    requires (forall id | id in vs :: vs[id].rule.id == id) && (forall r | r in t :: r.kind == Flow)
    requires forall id | id in vs2 && vs2[id].rule !in t :: vs2[id] == vs[id]
    ensures VerticesOk(tables[d.table := s], vs2 - {d.id})
  {}

  /** What deleteRule does: edges out, the packets it took, edges in, vertex. */
  method UninstallRule(inst: EdgeInstaller, tables: TableMap, vs0: Vertices, i0: Influences, topo: Topology, x: nat, k: nat, ghost feeds: Feeds)
    returns (s: seq<Rule>, vs: Vertices, infl: Influences)
    requires inst.Valid() && inst.emptyEdges == {} && GraphOk(tables, vs0, i0, topo, feeds, inst.edges, inst.pad)
    requires x in tables && k < |tables[x]| && HasMiss(tables[x][..k] + tables[x][k + 1..], |inst.pad|)
    modifies inst`edges, inst`emptyEdges, inst`nextEdge
    ensures inst.Valid() && inst.emptyEdges == {} && s == tables[x][..k] + tables[x][k + 1..]
    ensures GraphOk(tables[x := s], vs, infl, topo, feeds - {tables[x][k].id}, inst.edges, inst.pad)
    ensures SameRules(vs0 - {tables[x][k].id}, vs)
    ensures Rerouted(old(inst.edges), inst.edges, tables[x][k].id, old(inst.nextEdge))
  {
    hide *;
    var t, d := tables[x], tables[x][k];
    s := t[..k] + t[k + 1..];
    ghost var e0, feeds1 := inst.edges, feeds - {d.id};
    GraphFacts(tables, vs0, i0, topo, feeds, e0, inst.pad);
    IdsBelow(inst);
    assert d in t;
    MakeRemoved(t, s, k);
    RuleRemoved(t, s, k, d, vs0, i0, inst.pad);
    inst.DeleteOutEdges(d.id);
    ghost var e1, limit := inst.edges, inst.nextEdge;
    OutDeleted(tables, vs0, i0, topo, feeds, e0, inst.edges, d.id, inst.pad);
    vs, infl := TakeBackAll(inst, t, d, vs0, i0, feeds1, s);
    ghost var e2, dead := inst.edges, inst.emptyEdges;
    inst.DeleteInEdges(d.id);
    InDeleted(vs, feeds1, e2, dead, inst.edges, inst.emptyEdges, d.id, inst.pad);
    ghost var e3, dead3 := inst.edges, inst.emptyEdges;
    inst.ClearEmptyEdges();
    assert inst.edges == e3 - dead3;
    DeletedEdges(e0, e1, e2, inst.edges, d.id, limit);
    RuleGone(tables, vs0, i0, topo, feeds, e0, t, s, d, vs, infl, inst.edges, inst.pad);
    vs, infl := vs - {d.id}, WithoutRule(infl, d.id);
  }

  /** New edges start at other rules than the one that goes, so those deleted do not matter. */
  lemma DeletedEdges(e0: EdgeMap, e1: EdgeMap, e2: EdgeMap, e: EdgeMap, d: nat, limit: nat)
    requires e1 == (map id | id in e0 && e0[id].src != d :: e0[id]) && Rerouting(e1, e2, d, limit)
    requires (forall id | id in e0 :: id < limit) && forall id | id in e :: id in e2 && e[id] == e2[id]
    ensures Rerouted(e0, e, d, limit)
  {
    forall k | k in e && k !in e0 ensures NoEdge(e0, e[k].src, e[k].dst) && !NoEdge(e0, e[k].src, d) {
      assert k !in e1 && NoEdge(e1, e2[k].src, e2[k].dst);
      var j :| j in e1 && e1[j].src == e[k].src && e1[j].dst == d;
      assert e0[j].src == e[k].src && e0[j].dst == d;
      assert forall m | m in e0 && e0[m].src == e[k].src :: m in e1 && e1[m] == e0[m];
    }
  }

  lemma MakeRemoved(t: seq<Rule>, s: seq<Rule>, k: nat)
    requires k < |t| && s == t[..k] + t[k + 1..]
    ensures Removed(t, s, k)
  {}
}
