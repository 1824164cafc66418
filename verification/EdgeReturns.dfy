/** Handing the edges of a leaving rule back to the rules below it (the inner loop of
    delete_in_edges in src/network/DependencyGraph.cpp). */
module EdgeReturns {
  import opened Masks
  import opened NetworkSpaces
  import opened Tables
  import opened Edges
  import opened EdgeInstallers
  import opened EdgeMoves

  /** vs0 and vs differ in the domain of l, which gained at most what d takes. */
  ghost predicate Gained(vs0: Vertices, vs: Vertices, l: nat, d: nat, n: nat)
  {
    && l in vs && d in vs && l != d && l in vs0
    && vs0 == vs[l := vs0[l]] && vs0[l].rule == vs[l].rule
    && Content(vs0[l].domain, n) <= Content(vs[l].domain, n)
    && Content(vs[l].domain, n) <= Content(vs0[l].domain, n) + Content(vs[d].domain, n)
  }

  /** Edges into l come from rules that feed its table; those found empty have nothing to carry. */
  ghost predicate IntoOk(vs: Vertices, feeds: Feeds, e: EdgeMap, dead: set<nat>, l: nat, pad: Mask)
    requires FeedsOk(vs, feeds, pad) && l in vs
  {
    forall k | k in e && e[k].dst == l ::
      && e[k].src in feeds && DestHas(feeds[e[k].src].dest, vs[l]) && e[k].transfer == feeds[e[k].src].transfer
      && (k in dead ==> Flowing(vs[e[k].src], vs[l], e[k].transfer, pad) == iset{})
  }

  /** What the body of the walk does: the oldest edge from src to l is updated and no edge
      is added; one is added only if there is none. */
  ghost predicate Returned(vs: Vertices, e1: EdgeMap, d1: set<nat>, e2: EdgeMap, d2: set<nat>, n: nat, src: nat, l: nat, t: Transfer, pad: Mask)
    requires src in vs && l in vs && IsTransfer(t, pad)
  {
    || (NoEdge(e1, src, l) && d2 == d1 && Added(e1, e2, n, vs[src], vs[l], t, pad))
    || exists id :: OldestEdge(e1, src, l, id) && e1[id].transfer == t && Updated(e1, d1, e2, d2, id, vs[src], vs[l], pad)
  }

  method ReturnEdge(inst: EdgeInstaller, vs: Vertices, src: nat, l: nat, t: Transfer, ghost feeds: Feeds)
    requires inst.Valid() && FeedsOk(vs, feeds, inst.pad) && l in vs && src in feeds && t == feeds[src].transfer
    requires IntoOk(vs, feeds, inst.edges, inst.emptyEdges, l, inst.pad)
    modifies inst`edges, inst`emptyEdges, inst`nextEdge
    ensures inst.Valid() && inst.nextEdge >= old(inst.nextEdge) && src in vs && IsTransfer(t, inst.pad)
    ensures Returned(vs, old(inst.edges), old(inst.emptyEdges), inst.edges, inst.emptyEdges, old(inst.nextEdge), src, l, t, inst.pad)
  {
    hide Content, Nonempty, Img, IsTransfer, IsMatch, IsDomain, Flowing, ExactEdge;
    var found := inst.FindEdge(src, l);
    if found.Some? {
      inst.UpdateEdge(found.value, vs[src], vs[l]);
    } else {
      inst.AddEdge(vs[src], vs[l], t);
    }
  }

  /** How far the walk over the in-edges of d got: l gets all it should from src, or an
      edge of d with all that flows from src is still to come. */
  ghost predicate Returning(vs: Vertices, feeds: Feeds, e0: EdgeMap, d0: set<nat>, e: EdgeMap, dead: set<nat>,
                            src: nat, l: nat, d: nat, i: nat, pad: Mask)
    requires src in feeds && src in vs && l in vs && d in vs && IsTransfer(feeds[src].transfer, pad)
  {
    || PairOk(vs, feeds, e, dead, src, l, pad)
    || exists id :: id >= i && CarriedBy(Want(vs, src, d, feeds[src].transfer, pad), id, e0, d0, src, d, |pad|)
  }

  ghost predicate AllReturning(vs: Vertices, feeds: Feeds, e0: EdgeMap, d0: set<nat>, e: EdgeMap, dead: set<nat>,
                               l: nat, d: nat, i: nat, pad: Mask)
    requires FeedsOk(vs, feeds, pad) && l in vs && d in vs
  {
    forall src | src in feeds && DestHas(feeds[src].dest, vs[l]) :: Returning(vs, feeds, e0, d0, e, dead, src, l, d, i, pad)
  }

  // --- which edges are new ---

  /** Edges of e0 keep their ends. A new edge comes from a rule that had an edge into d, it
      joins two rules that had no edge, and it is the only one between them. */
  ghost predicate Rerouted(e0: EdgeMap, e: EdgeMap, d: nat, limit: nat)
  {
    && (forall k | k in e && k in e0 :: e[k].src == e0[k].src && e[k].dst == e0[k].dst && e[k].transfer == e0[k].transfer)
    && (forall k | k in e && k !in e0 :: k >= limit && e[k].dst != d && NoEdge(e0, e[k].src, e[k].dst) && !NoEdge(e0, e[k].src, d))
    && forall j, k | j in e && k in e && j !in e0 && k !in e0 && e[j].src == e[k].src && e[j].dst == e[k].dst :: j == k
  }

  /** While the walk lasts, no edge goes. */
  ghost predicate Rerouting(e0: EdgeMap, e: EdgeMap, d: nat, limit: nat)
  {
    Rerouted(e0, e, d, limit) && e0.Keys <= e.Keys
  }

  lemma StartRerouting(e: EdgeMap, d: nat, limit: nat)
    ensures Rerouting(e, e, d, limit)
  {}

  /** No edge is added where there is one, and all keep their ends. */
  lemma ReturnedEnds(vs: Vertices, e1: EdgeMap, d1: set<nat>, e2: EdgeMap, d2: set<nat>, n: nat, src: nat, l: nat, t: Transfer, pad: Mask)
    requires src in vs && l in vs && vs[src].rule.id == src && vs[l].rule.id == l && IsTransfer(t, pad) && n !in e1
    requires Returned(vs, e1, d1, e2, d2, n, src, l, t, pad)
    ensures forall k | k in e1 :: k in e2 && e2[k].src == e1[k].src && e2[k].dst == e1[k].dst && e2[k].transfer == e1[k].transfer
    ensures forall k | k in e2 && k !in e1 :: k == n && e2[k].src == src && e2[k].dst == l && NoEdge(e1, src, l)
  {
    hide Content, Nonempty, Img, IsTransfer, IsDomain, Flowing, EdgeShape, NoEdge;
  }

  lemma StepRerouting(vs: Vertices, e0: EdgeMap, e1: EdgeMap, d1: set<nat>, e2: EdgeMap, d2: set<nat>, n: nat, id: nat, l: nat, d: nat,
                      limit: nat, t: Transfer, pad: Mask)
    requires Rerouting(e0, e1, d, limit) && id in e1 && e1[id].dst == d && l != d && n !in e1 && n >= limit
    requires e1[id].src in vs && l in vs && vs[e1[id].src].rule.id == e1[id].src && vs[l].rule.id == l && IsTransfer(t, pad)
    requires Returned(vs, e1, d1, e2, d2, n, e1[id].src, l, t, pad)
    ensures Rerouting(e0, e2, d, limit)
  {
    hide Returned, IsTransfer;
    ReturnedEnds(vs, e1, d1, e2, d2, n, e1[id].src, l, t, pad);
    assert id in e0 && e0[id].src == e1[id].src && e0[id].dst == d;
  }

  lemma ReroutingTrans(e0: EdgeMap, e1: EdgeMap, e2: EdgeMap, d: nat, limit: nat, later: nat)
    requires Rerouting(e0, e1, d, limit) && Rerouting(e1, e2, d, later) && limit <= later
    ensures Rerouting(e0, e2, d, limit)
  {}

  /** No two rules have more edges than before, unless they had none and have one now. */
  lemma NoMoreEdges(e0: EdgeMap, e: EdgeMap, d: nat, limit: nat, src: nat, dst: nat)
    requires Rerouted(e0, e, d, limit)
    ensures var before, after := EdgesFrom(e0, src, dst), EdgesFrom(e, src, dst); |after| <= if before == {} then 1 else |before|
  {
    var before, after := EdgesFrom(e0, src, dst), EdgesFrom(e, src, dst);
    if before == {} {
      assert NoEdge(e0, src, dst) by { forall k | k in e0 ensures !(e0[k].src == src && e0[k].dst == dst) { assert k !in before; } }
      if j :| j in after {
        assert after <= {j};
        SubsetSize(after, {j});
      }
    } else {
      assert after <= before;
      SubsetSize(after, before);
    }
  }

  function EdgesFrom(e: EdgeMap, src: nat, dst: nat): set<nat>
  {
    set k | k in e && e[k].src == src && e[k].dst == dst
  }

  lemma {:induction false} SubsetSize(a: set<nat>, b: set<nat>)
    requires a <= b
    ensures |a| <= |b|
  {
    if x :| x in a {
      SubsetSize(a - {x}, b - {x});
    }
  }

  /** The walk touches edges into l only. */
  ghost predicate Elsewhere(e0: EdgeMap, d0: set<nat>, e: EdgeMap, dead: set<nat>, l: nat)
  {
    && (forall k | k in e0 && e0[k].dst != l :: k in e && e[k] == e0[k] && (k in dead <==> k in d0))
    && (forall k | k in e && (k !in e0 || e0[k].dst == l) :: e[k].dst == l)
  }

  lemma GainedSound(vs0: Vertices, vs: Vertices, feeds: Feeds, e: EdgeMap, dead: set<nat>, l: nat, d: nat, pad: Mask)
    requires Gained(vs0, vs, l, d, |pad|) && AllSound(vs0, feeds, e, dead, pad)
    ensures AllSound(vs, feeds, e, dead, pad)
  {
    hide Content, Nonempty, Img, IsTransfer, IsDomain;
    forall id | id in e && id !in dead ensures EdgeSound(e[id], vs, feeds, pad) {
      assert EdgeSound(e[id], vs0, feeds, pad) && vs[e[id].src].rule == vs0[e[id].src].rule;
      if e[id].dst != l { assert vs[e[id].dst] == vs0[e[id].dst]; }
    }
  }

  lemma GainedPair(vs0: Vertices, vs: Vertices, feeds: Feeds, e: EdgeMap, dead: set<nat>, src: nat, dst: nat, l: nat, d: nat, pad: Mask)
    requires Gained(vs0, vs, l, d, |pad|) && src in feeds && src in vs && dst in vs && IsTransfer(feeds[src].transfer, pad)
    requires PairOk(vs0, feeds, e, dead, src, dst, pad)
    requires dst != l || Want(vs, src, d, feeds[src].transfer, pad) == iset{}
    ensures PairOk(vs, feeds, e, dead, src, dst, pad)
  {
    hide Content, Nonempty, Img, IsTransfer, Carried;
    var t := feeds[src].transfer;
    assert vs[src].rule == vs0[src].rule;
    if dst == l {
      Disjoint(Img(t, vs[src].rule.domain, pad), Content(vs[d].domain, |pad|));
    } else {
      assert vs0[dst] == vs[dst];
    }
    assert Want(vs, src, dst, t, pad) == Want(vs0, src, dst, t, pad);
  }

  lemma StartReturn(vs0: Vertices, vs: Vertices, feeds: Feeds, e: EdgeMap, dead: set<nat>, l: nat, d: nat, limit: nat, pad: Mask)
    requires FeedsOk(vs, feeds, pad) && FeedsOk(vs0, feeds, pad) && vs0.Keys == vs.Keys
    requires Gained(vs0, vs, l, d, |pad|) && SameDest(vs, l, d)
    requires AllSound(vs0, feeds, e, dead, pad) && AllPairs(vs0, feeds, e, dead, {}, pad)
    requires (forall k | k in e :: k < limit) && forall k | k in dead :: k in e && e[k].dst != l && e[k].dst != d
    ensures l in vs && d in vs && Elsewhere(e, dead, e, dead, l) && AllSound(vs, feeds, e, dead, pad)
    ensures IntoOk(vs, feeds, e, dead, l, pad) && AllReturning(vs, feeds, e, dead, e, dead, l, d, 0, pad)
    ensures IntoOk(vs, feeds, e, dead, d, pad)
  {
    hide Content, Nonempty, Img, IsTransfer, IsDomain, PairOk, Flowing, Carried, CarriedBy;
    GainedSound(vs0, vs, feeds, e, dead, l, d, pad);
    forall src | src in feeds && DestHas(feeds[src].dest, vs[l])
      ensures Returning(vs, feeds, e, dead, e, dead, src, l, d, 0, pad)
    {
      assert PairOk(vs0, feeds, e, dead, src, l, pad) && PairOk(vs0, feeds, e, dead, src, d, pad);
      GainedPair(vs0, vs, feeds, e, dead, src, d, l, d, pad);
      if Want(vs, src, d, feeds[src].transfer, pad) == iset{} {
        GainedPair(vs0, vs, feeds, e, dead, src, l, l, d, pad);
      } else {
        FullEdge(vs, feeds, e, dead, src, d, pad);
      }
    }
  }

  lemma FullEdge(vs: Vertices, feeds: Feeds, e: EdgeMap, dead: set<nat>, src: nat, dst: nat, pad: Mask)
    requires src in feeds && src in vs && dst in vs && IsTransfer(feeds[src].transfer, pad)
    requires PairOk(vs, feeds, e, dead, src, dst, pad) && Want(vs, src, dst, feeds[src].transfer, pad) != iset{}
    ensures exists id :: id >= 0 && CarriedBy(Want(vs, src, dst, feeds[src].transfer, pad), id, e, dead, src, dst, |pad|)
  {
    hide Content, Nonempty, Img, IsTransfer, Flowing, CarriedBy;
  }

  lemma ReturnedFrame(vs: Vertices, e1: EdgeMap, d1: set<nat>, e2: EdgeMap, d2: set<nat>, n: nat, src: nat, l: nat, t: Transfer, pad: Mask)
    requires src in vs && l in vs && IsTransfer(t, pad) && vs[src].rule.id == src && vs[l].rule.id == l && n !in e1
    requires Returned(vs, e1, d1, e2, d2, n, src, l, t, pad)
    ensures Elsewhere(e1, d1, e2, d2, l) && forall k | k in e2 && k !in e1 :: k == n
    ensures forall other | other != src :: Keeps(e1, d1, e2, d2, other, l)
  {
    hide Content, Nonempty, Img, IsTransfer, IsDomain, Flowing;
  }

  lemma ElsewhereTrans(e0: EdgeMap, d0: set<nat>, e1: EdgeMap, d1: set<nat>, e2: EdgeMap, d2: set<nat>, l: nat)
    requires Elsewhere(e0, d0, e1, d1, l) && Elsewhere(e1, d1, e2, d2, l)
    ensures Elsewhere(e0, d0, e2, d2, l)
  {}

  lemma ReturnedOk(vs: Vertices, feeds: Feeds, e1: EdgeMap, d1: set<nat>, e2: EdgeMap, d2: set<nat>, n: nat, src: nat, l: nat, pad: Mask)
    requires FeedsOk(vs, feeds, pad) && l in vs && src in feeds && DestHas(feeds[src].dest, vs[l]) && n !in e1 && n !in d1
    requires Returned(vs, e1, d1, e2, d2, n, src, l, feeds[src].transfer, pad)
    requires AllSound(vs, feeds, e1, d1, pad) && IntoOk(vs, feeds, e1, d1, l, pad)
    ensures AllSound(vs, feeds, e2, d2, pad) && IntoOk(vs, feeds, e2, d2, l, pad)
    ensures PairOk(vs, feeds, e2, d2, src, l, pad)
  {
    hide Content, Nonempty, Img, IsTransfer, IsDomain, Flowing, EdgeSound, ExactEdge, Carried, PairOk;
    var t := feeds[src].transfer;
    PairFrom(vs, feeds, e2, d2, src, l, pad);
    if NoEdge(e1, src, l) && d2 == d1 && Added(e1, e2, n, vs[src], vs[l], t, pad) {
      ExactServes(e2, d2, n, vs[src], vs[l], t, pad);
      if e2 != e1 { ExactSound(vs, feeds, e2[n], src, l, t, pad); ExactEnds(e2[n], vs[src], vs[l], t, pad); }
    } else {
      var id :| OldestEdge(e1, src, l, id) && e1[id].transfer == t && Updated(e1, d1, e2, d2, id, vs[src], vs[l], pad);
      ExactServes(e2, d2, id, vs[src], vs[l], t, pad);
      if ExactEdge(e2[id], vs[src], vs[l], t, pad) {
        ExactSound(vs, feeds, e2[id], src, l, t, pad);
        ExactEnds(e2[id], vs[src], vs[l], t, pad);
      }
    }
  }

  lemma ExactEnds(e: Edge, src: Vertex, dst: Vertex, t: Transfer, pad: Mask)
    requires ExactEdge(e, src, dst, t, pad)
    ensures e.src == src.rule.id && e.dst == dst.rule.id && e.transfer == t
  {}

  /** One step of the walk: the edge i of d, or any other edge. */
  lemma StepReturning(vs: Vertices, feeds: Feeds, e0: EdgeMap, d0: set<nat>, e1: EdgeMap, d1: set<nat>, e2: EdgeMap, d2: set<nat>,
                      l: nat, d: nat, i: nat, pad: Mask)
    requires FeedsOk(vs, feeds, pad) && l in vs && d in vs
    requires AllReturning(vs, feeds, e0, d0, e1, d1, l, d, i, pad)
    requires
      || (e2 == e1 && d2 == d1 && !(i in e0 && e0[i].dst == d))
      || (&& i in e0 && e0[i].src in feeds && DestHas(feeds[e0[i].src].dest, vs[l])
          && PairOk(vs, feeds, e2, d2, e0[i].src, l, pad)
          && forall other | other != e0[i].src :: Keeps(e1, d1, e2, d2, other, l))
    ensures AllReturning(vs, feeds, e0, d0, e2, d2, l, d, i + 1, pad)
  {
    hide Content, Nonempty, Img, IsTransfer, IsDomain, Flowing, Carried, PairOk, Keeps;
    forall src | src in feeds && DestHas(feeds[src].dest, vs[l])
      ensures Returning(vs, feeds, e0, d0, e2, d2, src, l, d, i + 1, pad)
    {
      assert Returning(vs, feeds, e0, d0, e1, d1, src, l, d, i, pad);
      if PairOk(vs, feeds, e1, d1, src, l, pad) && !(i in e0 && src == e0[i].src) {
        PairFrom(vs, feeds, e1, d1, src, l, pad);
        PairFrom(vs, feeds, e2, d2, src, l, pad);
        if !(e2 == e1 && d2 == d1) {
          KeepsCarried(Flowing(vs[src], vs[l], feeds[src].transfer, pad), e1, d1, e2, d2, src, l, |pad|);
        }
      }
    }
  }

  lemma DEdge(vs: Vertices, feeds: Feeds, e0: EdgeMap, d0: set<nat>, e1: EdgeMap, d1: set<nat>, l: nat, d: nat, id: nat, pad: Mask)
    requires FeedsOk(vs, feeds, pad) && l in vs && d in vs && l != d && SameDest(vs, l, d)
    requires Elsewhere(e0, d0, e1, d1, l) && IntoOk(vs, feeds, e0, d0, d, pad)
    ensures id in e1 && e1[id].dst == d <==> id in e0 && e0[id].dst == d
    ensures id in e1 && e1[id].dst == d ==>
              && e1[id] == e0[id] && e0[id].src in feeds && DestHas(feeds[e0[id].src].dest, vs[l])
              && e0[id].transfer == feeds[e0[id].src].transfer
  {
    hide Content, Nonempty, Img, IsTransfer, IsDomain, Flowing;
  }

  lemma EndReturn(vs0: Vertices, vs: Vertices, feeds: Feeds, e0: EdgeMap, d0: set<nat>, e: EdgeMap, dead: set<nat>, l: nat, d: nat,
                  limit: nat, pad: Mask)
    requires FeedsOk(vs, feeds, pad) && FeedsOk(vs0, feeds, pad) && vs0.Keys == vs.Keys
    requires Gained(vs0, vs, l, d, |pad|) && SameDest(vs, l, d) && AllPairs(vs0, feeds, e0, d0, {}, pad)
    requires (forall k | k in e0 :: k < limit) && Elsewhere(e0, d0, e, dead, l)
    requires AllReturning(vs, feeds, e0, d0, e, dead, l, d, limit, pad)
    ensures AllPairs(vs, feeds, e, dead, {}, pad)
  {
    hide Content, Nonempty, Img, IsTransfer, IsDomain, Flowing, Carried, PairOk;
    forall src, dst | src in feeds && dst in vs && DestHas(feeds[src].dest, vs[dst])
      ensures PairOk(vs, feeds, e, dead, src, dst, pad)
    {
      if dst == l {
        assert Returning(vs, feeds, e0, d0, e, dead, src, l, d, limit, pad);
      } else {
        assert vs0[dst] == vs[dst] && PairOk(vs0, feeds, e0, d0, src, dst, pad);
        GainedPair(vs0, vs, feeds, e0, d0, src, dst, l, d, pad);
        PairFrom(vs, feeds, e0, d0, src, dst, pad);
        PairFrom(vs, feeds, e, dead, src, dst, pad);
        KeepsCarried(Flowing(vs[src], vs[dst], feeds[src].transfer, pad), e0, d0, e, dead, src, dst, |pad|);
      }
    }
  }

  lemma GainedFacts(vs0: Vertices, vs: Vertices, l: nat, d: nat, n: nat)
    requires Gained(vs0, vs, l, d, n)
    ensures l in vs && d in vs && l in vs0 && l != d
  {}

  /** The walk over the in-edges of d after l got back what d took from it. */
  method ReturnEdges(inst: EdgeInstaller, vs: Vertices, l: nat, d: nat, ghost vs0: Vertices, ghost feeds: Feeds)
    requires inst.Valid() && FeedsOk(vs, feeds, inst.pad) && FeedsOk(vs0, feeds, inst.pad) && vs0.Keys == vs.Keys
    requires Gained(vs0, vs, l, d, |inst.pad|) && SameDest(vs, l, d)
    requires AllSound(vs0, feeds, inst.edges, inst.emptyEdges, inst.pad)
    requires AllPairs(vs0, feeds, inst.edges, inst.emptyEdges, {}, inst.pad)
    requires forall k | k in inst.emptyEdges :: inst.edges[k].dst != l && inst.edges[k].dst != d
    modifies inst`edges, inst`emptyEdges, inst`nextEdge
    ensures inst.Valid()
    ensures AllSound(vs, feeds, inst.edges, inst.emptyEdges, inst.pad)
    ensures AllPairs(vs, feeds, inst.edges, inst.emptyEdges, {}, inst.pad)
    ensures forall k | k in inst.emptyEdges :: inst.edges[k].dst == l || (k in old(inst.emptyEdges) && k in old(inst.edges) && inst.edges[k] == old(inst.edges)[k])
    ensures old(inst.nextEdge) <= inst.nextEdge && Rerouting(old(inst.edges), inst.edges, d, old(inst.nextEdge))
  {
    hide Content, Nonempty, Img, IsTransfer, IsDomain, Flowing, AllSound, AllPairs, AllReturning, EdgeSound, Gained, Returned, PairOk, Keeps, IntoOk, Rerouting;
    var limit := inst.nextEdge;
    ghost var pad := inst.pad;
    ghost var e0, d0 := inst.edges, inst.emptyEdges;
    StartReturn(vs0, vs, feeds, e0, d0, l, d, limit, pad);
    StartRerouting(e0, d, limit);
    GainedFacts(vs0, vs, l, d, |pad|);
    for id := 0 to limit
      invariant inst.Valid() && limit <= inst.nextEdge && l in vs && d in vs
      invariant Elsewhere(e0, d0, inst.edges, inst.emptyEdges, l)
      invariant forall k | k in inst.edges && k !in e0 :: k >= limit
      invariant AllSound(vs, feeds, inst.edges, inst.emptyEdges, pad) && IntoOk(vs, feeds, inst.edges, inst.emptyEdges, l, pad)
      invariant AllReturning(vs, feeds, e0, d0, inst.edges, inst.emptyEdges, l, d, id, pad)
      invariant Rerouting(e0, inst.edges, d, limit)
    {
      ghost var e1, d1, n := inst.edges, inst.emptyEdges, inst.nextEdge;
      DEdge(vs, feeds, e0, d0, e1, d1, l, d, id, pad);
      if id in inst.edges && inst.edges[id].dst == d {
        var edge := inst.edges[id];
        ReturnEdge(inst, vs, edge.src, l, edge.transfer, feeds);
        StepRerouting(vs, e0, e1, d1, inst.edges, inst.emptyEdges, n, id, l, d, limit, edge.transfer, pad);
        ReturnedFrame(vs, e1, d1, inst.edges, inst.emptyEdges, n, edge.src, l, edge.transfer, pad);
        ElsewhereTrans(e0, d0, e1, d1, inst.edges, inst.emptyEdges, l);
        ReturnedOk(vs, feeds, e1, d1, inst.edges, inst.emptyEdges, n, edge.src, l, pad);
      }
      StepReturning(vs, feeds, e0, d0, e1, d1, inst.edges, inst.emptyEdges, l, d, id, pad);
    }
    EndReturn(vs0, vs, feeds, e0, d0, inst.edges, inst.emptyEdges, l, d, limit, pad);
  }
}
