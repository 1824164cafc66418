/** What holds of the dependency graph between its operations, and add_edges
    (src/network/DependencyGraph.cpp). */
module GraphStates {
  import opened Sequences
  import opened Masks
  import opened NetworkSpaces
  import opened Tables
  import opened Edges
  import opened EdgeInstallers
  import opened EdgeMoves
  import opened EdgeReturns
  import opened InfluenceGraphs
  import opened RuleJoins
  import opened Topologies

  /** Flow vertices are the rules of the tables; the others keep their own domain. */
  predicate VerticesOk(tables: TableMap, vs: Vertices)
  {
    forall id | id in vs ::
      var r := vs[id].rule;
      if r.kind == Flow then r.table in tables && r in tables[r.table] else vs[id].domain == r.domain
  }

  ghost predicate TablesOk(tables: TableMap, vs: Vertices, infl: Influences, pad: Mask)
  {
    forall t | t in tables :: TableOk(tables[t], t, pad) && RulesAt(tables[t], vs, infl, pad)
  }

  ghost predicate GraphOk(tables: TableMap, vs: Vertices, infl: Influences, topo: Topology, feeds: Feeds, e: EdgeMap, pad: Mask)
  {
    && IsPad(pad) && TablesOk(tables, vs, infl, pad) && VerticesOk(tables, vs) && Known(infl, vs)
    && TopologyOk(topo, tables, vs) && RulesOk(topo, tables, vs, pad) && FeedsAre(feeds, vs, topo, pad)
    && FeedsOk(vs, feeds, pad) && Served(vs, feeds, e, {}, {}, pad)
  }

  /** add_edges: an edge from src to each of dsts, as far as packets flow there. */
  method AddEdges(inst: EdgeInstaller, vs: Vertices, src: nat, dsts: seq<nat>, t: Transfer, ghost feeds: Feeds)
    requires inst.Valid() && inst.emptyEdges == {} && FeedsOk(vs, feeds, inst.pad)
    requires src in feeds && t == feeds[src].transfer && forall x | x in dsts :: x in vs && DestHas(feeds[src].dest, vs[x])
    requires AllSound(vs, feeds, inst.edges, {}, inst.pad)
    modifies inst`edges, inst`nextEdge
    ensures inst.Valid() && inst.emptyEdges == {} && AllSound(vs, feeds, inst.edges, {}, inst.pad)
    ensures Grown(old(inst.edges), inst.edges, src, dsts) && old(inst.nextEdge) <= inst.nextEdge
    ensures Distinct(dsts) ==> OncePerPair(old(inst.edges), inst.edges)
    ensures forall k | k in inst.edges && k !in old(inst.edges) :: k >= old(inst.nextEdge)
    ensures forall x | x in dsts :: src in vs && PairOk(vs, feeds, inst.edges, {}, src, x, inst.pad)
  {
    hide IsMatch, Content, IsDomain, PairOk, AllSound, IsTransfer, Flowing, Distinct, OncePerPair;
    ghost var e0 := inst.edges;
    NoneNew(e0);
    for i := 0 to |dsts|
      invariant inst.Valid() && inst.emptyEdges == {} && AllSound(vs, feeds, inst.edges, {}, inst.pad)
      invariant Grown(e0, inst.edges, src, dsts) && old(inst.nextEdge) <= inst.nextEdge
      invariant forall k | k in inst.edges && k !in e0 :: inst.edges[k].dst in dsts[..i] && k >= old(inst.nextEdge)
      invariant Distinct(dsts) ==> OncePerPair(e0, inst.edges)
      invariant forall x | x in dsts[..i] :: PairOk(vs, feeds, inst.edges, {}, src, x, inst.pad)
    {
      ghost var e1, n := inst.edges, inst.nextEdge;
      assert dsts[i] in dsts && dsts[..i + 1] == dsts[..i] + [dsts[i]];
      inst.AddEdge(vs[src], vs[dsts[i]], t);
      EdgeAdded(vs, feeds, e1, inst.edges, n, src, dsts[i], dsts, inst.pad);
      if Distinct(dsts) { OnceMore(e0, e1, inst.edges, dsts, i, src); }
      forall x | x in dsts[..i] ensures PairOk(vs, feeds, inst.edges, {}, src, x, inst.pad) {
        KeepsPairs(vs, feeds, e1, {}, inst.edges, {}, src, x, inst.pad);
      }
    }
    assert dsts[..|dsts|] == dsts;
  }

  /** e1 has the edges of e0 and others from src to vertices of dsts. */
  predicate Grown(e0: EdgeMap, e1: EdgeMap, src: nat, dsts: seq<nat>)
  {
    && (forall k | k in e0 :: k in e1 && e1[k] == e0[k])
    && (forall k | k in e1 && k !in e0 :: e1[k].src == src && e1[k].dst in dsts)
  }

  /** No two of the new edges join the same rules. */
  predicate OncePerPair(e0: EdgeMap, e1: EdgeMap)
  {
    forall j, k | j in e1 && k in e1 && j !in e0 && k !in e0 && e1[j].src == e1[k].src && e1[j].dst == e1[k].dst :: j == k
  }

  lemma NoneNew(e: EdgeMap)
    ensures OncePerPair(e, e)
  {}

  lemma OnceMore(e0: EdgeMap, e1: EdgeMap, e2: EdgeMap, dsts: seq<nat>, i: nat, src: nat)
    requires i < |dsts| && Distinct(dsts) && OncePerPair(e0, e1) && Grown(e1, e2, src, dsts)
    requires forall k | k in e1 && k !in e0 :: e1[k].dst in dsts[..i]
    requires forall j, k | j in e2 && k in e2 && j !in e1 && k !in e1 :: j == k && e2[k].dst == dsts[i]
    ensures OncePerPair(e0, e2)
  {
    assert dsts[i] !in dsts[..i];
  }

  lemma EdgeAdded(vs: Vertices, feeds: Feeds, e0: EdgeMap, e1: EdgeMap, n: nat, src: nat, dst: nat, dsts: seq<nat>, pad: Mask)
    requires FeedsOk(vs, feeds, pad) && src in feeds && dst in vs && DestHas(feeds[src].dest, vs[dst]) && dst in dsts
    requires AllSound(vs, feeds, e0, {}, pad) && n !in e0
    requires Added(e0, e1, n, vs[src], vs[dst], feeds[src].transfer, pad)
    ensures AllSound(vs, feeds, e1, {}, pad) && PairOk(vs, feeds, e1, {}, src, dst, pad) && Grown(e0, e1, src, dsts)
    ensures forall s, x :: Keeps(e0, {}, e1, {}, s, x)
    ensures forall k | k in e1 && k !in e0 :: k == n && e1[k].dst == dst
  {
    hide Content, Nonempty, IsDomain, PairOk, IsTransfer, Flowing, EdgeSound, ExactEdge, Carried;
    var t := feeds[src].transfer;
    PairFrom(vs, feeds, e1, {}, src, dst, pad);
    ExactServes(e1, {}, n, vs[src], vs[dst], t, pad);
    if e1 != e0 { ExactSound(vs, feeds, e1[n], src, dst, t, pad); ExactEnds(e1[n], vs[src], vs[dst], t, pad); }
  }

  lemma KeepsPairs(vs: Vertices, feeds: Feeds, e0: EdgeMap, d0: set<nat>, e1: EdgeMap, d1: set<nat>, src: nat, dst: nat, pad: Mask)
    requires src in feeds && src in vs && dst in vs && IsTransfer(feeds[src].transfer, pad)
    requires Keeps(e0, d0, e1, d1, src, dst) && PairOk(vs, feeds, e0, d0, src, dst, pad)
    ensures PairOk(vs, feeds, e1, d1, src, dst, pad)
  {
    hide Content, Nonempty, Flowing, IsTransfer, Carried, Keeps;
    KeepsCarried(Want(vs, src, dst, feeds[src].transfer, pad), e0, d0, e1, d1, src, dst, |pad|);
  }

  function Ids(rules: seq<Rule>): (ids: seq<nat>)
    ensures |ids| == |rules| && forall i | 0 <= i < |ids| :: ids[i] == rules[i].id
    ensures forall r | r in rules :: r.id in ids
    ensures forall x | x in ids :: exists r :: r in rules && r.id == x
  {
    var ids := seq(|rules|, i requires 0 <= i < |rules| => rules[i].id);
    assert forall i | 0 <= i < |rules| :: ids[i] == rules[i].id;
    ids
  }

  /** The vertices a feed leads to. */
  function DestIds(dest: Dest, tables: TableMap): seq<nat>
  {
    match dest
    case TableDest(t) => if t in tables then Ids(tables[t]) else []
    case SinkDest(s) => [s]
  }

  lemma DestIdsAre(feed: Feed, tables: TableMap, vs: Vertices, infl: Influences, pad: Mask)
    requires TablesOk(tables, vs, infl, pad) && VerticesOk(tables, vs)
    requires feed.dest.SinkDest? ==> IsSink(feed.dest.sink, vs) && vs[feed.dest.sink].rule.id == feed.dest.sink
    requires forall id | id in vs :: vs[id].rule.id == id
    ensures forall x | x in vs :: DestHas(feed.dest, vs[x]) <==> x in DestIds(feed.dest, tables)
    ensures forall x | x in DestIds(feed.dest, tables) :: x in vs
    ensures Distinct(DestIds(feed.dest, tables))
  {
    hide NoOverlaps, HasMiss, Sorted, IsMatch, InfluencesOn, Effective, Distinct;
    match feed.dest
    case TableDest(t) =>
      if t in tables {
        TableIdsDiffer(tables[t], t, vs, infl, pad);
      } else {
        NoneDistinct<nat>();
      }
    case SinkDest(x) => OneIsDistinct(x);
  }

  /** The rules of a table have different ids. */
  lemma TableIdsDiffer(rules: seq<Rule>, t: nat, vs: Vertices, infl: Influences, pad: Mask)
    requires TableOk(rules, t, pad) && RulesAt(rules, vs, infl, pad)
    ensures Distinct(Ids(rules))
  {
    hide NoOverlaps, HasMiss, IsMatch, InfluencesOn, Effective;
    var ids := Ids(rules);
    forall i, j | 0 <= i < j < |ids| ensures ids[i] != ids[j] {
      assert Above(rules[i], rules[j]) && RuleAt(rules, rules[i], vs, infl, pad) && RuleAt(rules, rules[j], vs, infl, pad);
    }
  }
}
