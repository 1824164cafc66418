/** Handing edges over between rules of one table when a rule joins or leaves
    (the inner loops of add_in_edges and delete_in_edges in
    src/network/DependencyGraph.cpp). */
module EdgeMoves {
  import opened Masks
  import opened NetworkSpaces
  import opened Tables
  import opened Edges
  import opened EdgeInstallers

  /** Live edges from src to dst are as before. */
  ghost predicate Keeps(e0: EdgeMap, d0: set<nat>, e1: EdgeMap, d1: set<nat>, src: nat, dst: nat)
  {
    forall id | id in e0 && id !in d0 && e0[id].src == src && e0[id].dst == dst ::
      id in e1 && id !in d1 && e1[id] == e0[id]
  }

  lemma KeepsCarried(w: iset<Packet>, e0: EdgeMap, d0: set<nat>, e1: EdgeMap, d1: set<nat>, src: nat, dst: nat, n: nat)
    requires Keeps(e0, d0, e1, d1, src, dst) && Carried(w, e0, d0, src, dst, n)
    ensures Carried(w, e1, d1, src, dst, n)
  {
    hide Content;
    if w != iset{} {
      var id :| CarriedBy(w, id, e0, d0, src, dst, n);
      assert CarriedBy(w, id, e1, d1, src, dst, n);
    }
  }

  /** An exact edge serves its pair, and so does the absence of anything to carry. */
  lemma ExactServes(e: EdgeMap, dead: set<nat>, id: nat, src: Vertex, dst: Vertex, t: Transfer, pad: Mask)
    requires IsTransfer(t, pad)
    requires (id in e && id !in dead && ExactEdge(e[id], src, dst, t, pad)) || Flowing(src, dst, t, pad) == iset{}
    ensures Carried(Flowing(src, dst, t, pad), e, dead, src.rule.id, dst.rule.id, |pad|)
  {
    hide Content, Nonempty, Img, Flowing, IsTransfer, IsDomain;
    if Flowing(src, dst, t, pad) != iset{} {
      assert CarriedBy(Flowing(src, dst, t, pad), id, e, dead, src.rule.id, dst.rule.id, |pad|);
    }
  }

  // --- a rule d joins above l ---

  /** vs0 and vs differ in the domain of l, which lost what d takes. */
  ghost predicate Lost(vs0: Vertices, vs: Vertices, l: nat, d: nat, n: nat)
  {
    && l in vs && d in vs && l != d && l in vs0
    && vs0 == vs[l := vs0[l]] && vs0[l].rule == vs[l].rule
    && Content(vs[l].domain, n) == Content(vs0[l].domain, n) - Content(vs[d].domain, n)
  }

  /** What should flow from src to d of the packets in `seen` is carried to d. */
  ghost predicate Taken(vs: Vertices, feeds: Feeds, e: EdgeMap, dead: set<nat>, src: nat, d: nat, seen: iset<Packet>, pad: Mask)
    requires src in feeds && src in vs && d in vs && IsTransfer(feeds[src].transfer, pad)
  {
    || Want(vs, src, d, feeds[src].transfer, pad) * seen == iset{}
    || Carried(Want(vs, src, d, feeds[src].transfer, pad), e, dead, src, d, |pad|)
  }

  /** An edge that shares nothing with d is still sound after l lost what d takes. */
  lemma LostSound(vs0: Vertices, vs: Vertices, feeds: Feeds, e: Edge, l: nat, d: nat, pad: Mask)
    requires Lost(vs0, vs, l, d, |pad|) && EdgeSound(e, vs0, feeds, pad)
    requires e.dst == l ==> Content(e.domain, |pad|) * Content(vs[d].domain, |pad|) == iset{}
    ensures EdgeSound(e, vs, feeds, pad)
  {
    hide Content, Nonempty, Img, IsTransfer, IsDomain;
    assert vs[e.src].rule == vs0[e.src].rule;
    if e.dst == l {
      Disjoint(Content(e.domain, |pad|), Content(vs[d].domain, |pad|));
      assert Content(e.domain, |pad|) <= Want(vs, e.src, l, e.transfer, pad);
    } else {
      assert vs[e.dst] == vs0[e.dst];
    }
  }

  lemma LostPair(vs0: Vertices, vs: Vertices, feeds: Feeds, e: EdgeMap, dead: set<nat>, src: nat, dst: nat, l: nat, d: nat, pad: Mask)
    requires Lost(vs0, vs, l, d, |pad|) && src in feeds && src in vs && dst in vs && IsTransfer(feeds[src].transfer, pad)
    requires PairOk(vs0, feeds, e, dead, src, dst, pad) && dst != l
    ensures PairOk(vs, feeds, e, dead, src, dst, pad)
  {
    hide Content, Nonempty, Img, IsTransfer, Carried;
    assert vs[src].rule == vs0[src].rule && vs[dst] == vs0[dst];
    assert Want(vs, src, dst, feeds[src].transfer, pad) == Want(vs0, src, dst, feeds[src].transfer, pad);
  }

  /** How far the walk over the in-edges of l got for the packets from src: either an
      edge still to come carries all that flowed to l, or both l and d are served. */
  ghost predicate Progress(vs0: Vertices, vs: Vertices, feeds: Feeds, e0: EdgeMap, d0: set<nat>, e: EdgeMap, dead: set<nat>,
                           src: nat, l: nat, d: nat, seen: iset<Packet>, i: nat, pad: Mask)
    requires src in feeds && src in vs && src in vs0 && l in vs && l in vs0 && d in vs && IsTransfer(feeds[src].transfer, pad)
  {
    || (exists id :: id >= i && CarriedBy(Want(vs0, src, l, feeds[src].transfer, pad), id, e0, d0, src, l, |pad|))
    || (PairOk(vs, feeds, e, dead, src, l, pad)
        && Taken(vs, feeds, e, dead, src, d, seen + Content(vs0[l].domain, |pad|), pad))
  }

  /** If nothing that flowed to l is d's, then l still gets everything and d needs nothing of it. */
  lemma NothingTaken(vs0: Vertices, vs: Vertices, feeds: Feeds, e: EdgeMap, dead: set<nat>, src: nat, l: nat, d: nat,
                     seen: iset<Packet>, pad: Mask)
    requires Lost(vs0, vs, l, d, |pad|) && src in feeds && src in vs && src in vs0 && IsTransfer(feeds[src].transfer, pad)
    requires PairOk(vs0, feeds, e, dead, src, l, pad)
    requires Want(vs0, src, l, feeds[src].transfer, pad) * Content(vs[d].domain, |pad|) == iset{}
    requires Taken(vs, feeds, e, dead, src, d, seen, pad)
    ensures PairOk(vs, feeds, e, dead, src, l, pad)
    ensures Taken(vs, feeds, e, dead, src, d, seen + Content(vs0[l].domain, |pad|), pad)
  {
    hide Content, Nonempty, Img, IsTransfer, CarriedBy;
    var t := feeds[src].transfer;
    assert vs[src].rule == vs0[src].rule;
    Disjoint(Want(vs0, src, l, t, pad), Content(vs[d].domain, |pad|));
    assert Want(vs, src, l, t, pad) == Want(vs0, src, l, t, pad);
    var w := Want(vs, src, d, t, pad);
    if w * seen == iset{} {
      assert w * (seen + Content(vs0[l].domain, |pad|)) == iset{};
    }
  }

  /** What the body of the walk does with the in-edge id of l: if it shares a packet with
      d, a new edge n takes from the same source to d all that should flow there, and
      the edge itself is updated. */
  ghost predicate Moved(vs: Vertices, e1: EdgeMap, d1: set<nat>, e2: EdgeMap, d2: set<nat>, n: nat, id: nat, l: nat, d: nat, pad: Mask)
    requires id in e1 && e1[id].src in vs && l in vs && d in vs && IsTransfer(e1[id].transfer, pad)
  {
    var src, t := vs[e1[id].src], e1[id].transfer;
    || (e2 == e1 && d2 == d1 && Content(e1[id].domain, |pad|) * Content(vs[d].domain, |pad|) == iset{})
    || (&& Shares(e1[id].domain, vs[d].domain, pad)
        && exists m :: Added(e1, m, n, src, vs[d], t, pad) && id in m && m[id] == e1[id] && Updated(m, d1, e2, d2, id, src, vs[l], pad))
  }

  /** The body of the walk: one in-edge of l. */
  method MoveEdge(inst: EdgeInstaller, vs: Vertices, id: nat, l: nat, d: nat, ghost vs0: Vertices, ghost feeds: Feeds)
    requires inst.Valid() && FeedsOk(vs, feeds, inst.pad) && Lost(vs0, vs, l, d, |inst.pad|)
    requires id in inst.edges && inst.edges[id].dst == l && EdgeSound(inst.edges[id], vs0, feeds, inst.pad)
    modifies inst`edges, inst`emptyEdges, inst`nextEdge
    ensures inst.Valid() && inst.nextEdge >= old(inst.nextEdge)
    ensures old(inst.edges)[id].src in vs && l in vs && d in vs && IsTransfer(old(inst.edges)[id].transfer, inst.pad)
    ensures Moved(vs, old(inst.edges), old(inst.emptyEdges), inst.edges, inst.emptyEdges, old(inst.nextEdge), id, l, d, inst.pad)
  {
    hide Content, Nonempty, Img, IsTransfer, IsMatch, IsDomain, Flowing, ExactEdge, FoundEmpty;
    var edge := inst.edges[id];
    assert IsTransfer(edge.transfer, inst.pad) && IsDomain(edge.domain, inst.pad);
    var common := MeetDomains(edge.domain, vs[d].domain, inst.pad);
    var e, _ := IsEmpty(common, inst.pad);
    if !e {
      assert Shares(edge.domain, vs[d].domain, inst.pad);
      inst.AddEdge(vs[edge.src], vs[d], edge.transfer);
      ghost var m := inst.edges;
      inst.UpdateEdge(id, vs[edge.src], vs[l]);
      assert Added(old(inst.edges), m, old(inst.nextEdge), vs[edge.src], vs[d], edge.transfer, inst.pad);
    }
  }

  /** Edges of e0 that the walk up to i has not touched. */
  ghost predicate Untouched(e0: EdgeMap, d0: set<nat>, e: EdgeMap, dead: set<nat>, l: nat, i: nat)
  {
    && (forall k | k in e0 :: k in e && e[k].src == e0[k].src && e[k].dst == e0[k].dst)
    && (forall k | k in e0 && (k >= i || e0[k].dst != l) :: e[k] == e0[k] && (k in dead <==> k in d0))
  }

  /** One step of the walk, seen from a rule src: if the walk moved src's edge, it now
      serves l and d; if it did not, the edge shares nothing with d. */
  lemma StepProgress(vs0: Vertices, vs: Vertices, feeds: Feeds, e0: EdgeMap, d0: set<nat>, e1: EdgeMap, d1: set<nat>,
                     e2: EdgeMap, d2: set<nat>, src: nat, l: nat, d: nat, seen: iset<Packet>, i: nat, pad: Mask)
    requires Lost(vs0, vs, l, d, |pad|) && src in feeds && src in vs && src in vs0 && IsTransfer(feeds[src].transfer, pad)
    requires l in vs && l in vs0 && d in vs
    requires Progress(vs0, vs, feeds, e0, d0, e1, d1, src, l, d, seen, i, pad)
    requires Taken(vs, feeds, e1, d1, src, d, seen, pad) && Untouched(e0, d0, e1, d1, l, i)
    requires Keeps(e1, d1, e2, d2, src, d)
    requires
      || (Keeps(e1, d1, e2, d2, src, l)
          && (i in e1 && e1[i].src == src && e1[i].dst == l ==>
                Content(e1[i].domain, |pad|) * Content(vs[d].domain, |pad|) == iset{}))
      || (PairOk(vs, feeds, e2, d2, src, l, pad) && Carried(Want(vs, src, d, feeds[src].transfer, pad), e2, d2, src, d, |pad|))
    ensures Progress(vs0, vs, feeds, e0, d0, e2, d2, src, l, d, seen, i + 1, pad)
    ensures Taken(vs, feeds, e2, d2, src, d, seen, pad)
  {
    hide Content, Nonempty, Flowing, IsTransfer, Carried, Lost;
    var t := feeds[src].transfer;
    var w0 := Want(vs0, src, l, t, pad);
    KeepsTaken(vs, feeds, e1, d1, e2, d2, src, d, seen, pad);
    var moved := PairOk(vs, feeds, e2, d2, src, l, pad) && Carried(Want(vs, src, d, t, pad), e2, d2, src, d, |pad|);
    if !moved && CarriedBy(w0, i, e0, d0, src, l, |pad|) {
      assert CarriedBy(w0, i, e1, d1, src, l, |pad|);
      Disjoint(Content(e1[i].domain, |pad|), Content(vs[d].domain, |pad|));
      assert w0 * Content(vs[d].domain, |pad|) == iset{};
      StillCarried(w0, i, e1, d1, src, l, |pad|);
      NothingTaken(vs0, vs, feeds, e1, d1, src, l, d, seen, pad);
    }
    if !moved && PairOk(vs, feeds, e1, d1, src, l, pad) && Taken(vs, feeds, e1, d1, src, d, seen + Content(vs0[l].domain, |pad|), pad) {
      KeepsTaken(vs, feeds, e1, d1, e2, d2, src, d, seen + Content(vs0[l].domain, |pad|), pad);
      KeepsCarried(Want(vs, src, l, t, pad), e1, d1, e2, d2, src, l, |pad|);
    }
  }

  lemma StillCarried(w: iset<Packet>, id: nat, e: EdgeMap, dead: set<nat>, src: nat, dst: nat, n: nat)
    requires CarriedBy(w, id, e, dead, src, dst, n)
    ensures Carried(w, e, dead, src, dst, n)
  {}

  lemma KeepsTaken(vs: Vertices, feeds: Feeds, e0: EdgeMap, d0: set<nat>, e1: EdgeMap, d1: set<nat>, src: nat, d: nat,
                   seen: iset<Packet>, pad: Mask)
    requires src in feeds && src in vs && d in vs && IsTransfer(feeds[src].transfer, pad)
    requires Keeps(e0, d0, e1, d1, src, d) && Taken(vs, feeds, e0, d0, src, d, seen, pad)
    ensures Taken(vs, feeds, e1, d1, src, d, seen, pad)
  {
    hide Content, Nonempty, Flowing, IsTransfer, Carried, Keeps;
    var w := Want(vs, src, d, feeds[src].transfer, pad);
    if w * seen != iset{} { KeepsCarried(w, e0, d0, e1, d1, src, d, |pad|); }
  }

  /** Before the walk: the pair to l was served. */
  lemma StartProgress(vs0: Vertices, vs: Vertices, feeds: Feeds, e: EdgeMap, dead: set<nat>,
                      src: nat, l: nat, d: nat, seen: iset<Packet>, pad: Mask)
    requires Lost(vs0, vs, l, d, |pad|) && src in feeds && src in vs && src in vs0 && IsTransfer(feeds[src].transfer, pad)
    requires l in vs && l in vs0 && d in vs
    requires PairOk(vs0, feeds, e, dead, src, l, pad) && Taken(vs, feeds, e, dead, src, d, seen, pad)
    ensures Progress(vs0, vs, feeds, e, dead, e, dead, src, l, d, seen, 0, pad)
  {
    hide Content, Nonempty, Flowing, IsTransfer, CarriedBy, Lost;
    if Want(vs0, src, l, feeds[src].transfer, pad) == iset{} {
      NothingTaken(vs0, vs, feeds, e, dead, src, l, d, seen, pad);
    }
  }

  ghost predicate SoundSoFar(vs0: Vertices, vs: Vertices, feeds: Feeds, e: EdgeMap, dead: set<nat>, l: nat, i: nat, limit: nat, pad: Mask)
  {
    forall id | id in e && id !in dead :: EdgeSound(e[id], if e[id].dst == l && i <= id < limit then vs0 else vs, feeds, pad)
  }

  /** l and d are rules of one table. */
  predicate SameDest(vs: Vertices, l: nat, d: nat)
    requires l in vs && d in vs
  {
    vs[l].rule.kind == Flow && vs[d].rule.kind == Flow && vs[l].rule.table == vs[d].rule.table
  }

  ghost predicate AllProgress(vs0: Vertices, vs: Vertices, feeds: Feeds, e0: EdgeMap, d0: set<nat>, e: EdgeMap, dead: set<nat>,
                              l: nat, d: nat, seen: iset<Packet>, i: nat, pad: Mask)
    requires FeedsOk(vs, feeds, pad) && vs0.Keys == vs.Keys && l in vs && d in vs
  {
    forall src | src in feeds && DestHas(feeds[src].dest, vs[l]) ::
      && Progress(vs0, vs, feeds, e0, d0, e, dead, src, l, d, seen, i, pad)
      && Taken(vs, feeds, e, dead, src, d, seen, pad)
  }

  /** Every rule of the destination hands d what it takes of the packets in `seen`. */
  ghost predicate AllTaken(vs: Vertices, feeds: Feeds, e: EdgeMap, dead: set<nat>, d: nat, seen: iset<Packet>, pad: Mask)
    requires FeedsOk(vs, feeds, pad) && d in vs
  {
    forall src | src in feeds && DestHas(feeds[src].dest, vs[d]) :: Taken(vs, feeds, e, dead, src, d, seen, pad)
  }

  ghost predicate WalkAt(e0: EdgeMap, d0: set<nat>, e: EdgeMap, dead: set<nat>, l: nat, d: nat, i: nat, limit: nat)
  {
    && Untouched(e0, d0, e, dead, l, i)
    && (forall k | k in e && k !in e0 :: k >= limit && e[k].dst == d)
    && (forall k | k in dead && k !in d0 :: k in e0 && e0[k].dst == l)
    && (forall k | k in dead && k in e && e[k].dst == l :: k < i)
  }

  lemma MovedWalk(vs: Vertices, e0: EdgeMap, d0: set<nat>, e1: EdgeMap, d1: set<nat>, e2: EdgeMap, d2: set<nat>, n: nat,
                  id: nat, l: nat, d: nat, limit: nat, pad: Mask)
    requires id in e0 && id in e1 && e1[id].src in vs && l in vs && d in vs && l != d && IsTransfer(e1[id].transfer, pad)
    requires Moved(vs, e1, d1, e2, d2, n, id, l, d, pad) && e1[id].dst == l && n !in e1 && n >= limit > id
    requires vs[l].rule.id == l && vs[d].rule.id == d && vs[e1[id].src].rule.id == e1[id].src
    requires WalkAt(e0, d0, e1, d1, l, d, id, limit)
    ensures WalkAt(e0, d0, e2, d2, l, d, id + 1, limit)
    ensures forall src :: Keeps(e1, d1, e2, d2, src, d)
    ensures forall src | src != e1[id].src :: Keeps(e1, d1, e2, d2, src, l)
  {
    hide Content, Nonempty, Img, IsTransfer, IsDomain, Flowing;
    MovedFrame(vs, e1, d1, e2, d2, n, id, l, d, pad);
  }

  /** The body touches nothing but the edge id and the new edge n. */
  lemma MovedFrame(vs: Vertices, e1: EdgeMap, d1: set<nat>, e2: EdgeMap, d2: set<nat>, n: nat, id: nat, l: nat, d: nat, pad: Mask)
    requires id in e1 && e1[id].src in vs && l in vs && d in vs && IsTransfer(e1[id].transfer, pad)
    requires Moved(vs, e1, d1, e2, d2, n, id, l, d, pad) && e1[id].dst == l && n !in e1
    requires vs[l].rule.id == l && vs[d].rule.id == d && vs[e1[id].src].rule.id == e1[id].src
    ensures id in e2 && e2[id].src == e1[id].src && e2[id].dst == l && (d2 == d1 || d2 == d1 + {id})
    ensures forall k | k in e1 && k != id :: k in e2 && e2[k] == e1[k]
    ensures forall k | k in e2 && k !in e1 :: k == n && e2[k].dst == d
  {
    hide Content, Nonempty, Img, IsTransfer, IsDomain, Flowing;
  }

  lemma MovedSound(vs0: Vertices, vs: Vertices, feeds: Feeds, e1: EdgeMap, d1: set<nat>, e2: EdgeMap, d2: set<nat>, n: nat,
                   id: nat, l: nat, d: nat, limit: nat, pad: Mask)
    requires id in e1 && e1[id].src in vs && IsTransfer(e1[id].transfer, pad) && Lost(vs0, vs, l, d, |pad|)
    requires FeedsOk(vs, feeds, pad) && FeedsOk(vs0, feeds, pad) && SameDest(vs, l, d)
    requires Moved(vs, e1, d1, e2, d2, n, id, l, d, pad) && e1[id].dst == l && id !in d1 && n >= limit > id
    requires SoundSoFar(vs0, vs, feeds, e1, d1, l, id, limit, pad)
    ensures SoundSoFar(vs0, vs, feeds, e2, d2, l, id + 1, limit, pad)
  {
    hide Content, Nonempty, Img, IsTransfer, IsDomain, Flowing, EdgeSound, ExactEdge;
    var src, t := e1[id].src, e1[id].transfer;
    assert EdgeSound(e1[id], vs0, feeds, pad);
    SoundFacts(vs0, feeds, e1[id], pad);
    if e2 == e1 && d2 == d1 && Content(e1[id].domain, |pad|) * Content(vs[d].domain, |pad|) == iset{} {
      LostSound(vs0, vs, feeds, e1[id], l, d, pad);
    } else {
      if id in e2 && ExactEdge(e2[id], vs[src], vs[l], t, pad) { ExactSound(vs, feeds, e2[id], src, l, t, pad); }
      if n in e2 && ExactEdge(e2[n], vs[src], vs[d], t, pad) { ExactSound(vs, feeds, e2[n], src, d, t, pad); }
      MovedOthers(vs0, vs, feeds, e1, d1, e2, d2, n, id, l, limit, pad);
    }
  }

  lemma MovedOthers(vs0: Vertices, vs: Vertices, feeds: Feeds, e1: EdgeMap, d1: set<nat>, e2: EdgeMap, d2: set<nat>, n: nat,
                    id: nat, l: nat, limit: nat, pad: Mask)
    requires SoundSoFar(vs0, vs, feeds, e1, d1, l, id, limit, pad) && n >= limit > id && d1 <= d2
    requires forall k | k in e2 && k != id && k != n :: k in e1 && e2[k] == e1[k]
    requires id in e2 && id !in d2 ==> EdgeSound(e2[id], vs, feeds, pad)
    requires n in e2 ==> EdgeSound(e2[n], vs, feeds, pad) || (n in e1 && e2[n] == e1[n])
    ensures SoundSoFar(vs0, vs, feeds, e2, d2, l, id + 1, limit, pad)
  {
    hide EdgeSound;
  }

  lemma SoundFacts(vs: Vertices, feeds: Feeds, e: Edge, pad: Mask)
    requires EdgeSound(e, vs, feeds, pad)
    ensures e.src in feeds && e.src in vs && e.dst in vs && DestHas(feeds[e.src].dest, vs[e.dst])
    ensures e.transfer == feeds[e.src].transfer
  {}

  lemma ExactSound(vs: Vertices, feeds: Feeds, e: Edge, src: nat, dst: nat, t: Transfer, pad: Mask)
    requires FeedsOk(vs, feeds, pad) && src in feeds && src in vs && dst in vs
    requires ExactEdge(e, vs[src], vs[dst], t, pad) && t == feeds[src].transfer && DestHas(feeds[src].dest, vs[dst])
    ensures EdgeSound(e, vs, feeds, pad)
  {
    hide Content, Nonempty, Img, IsTransfer, IsDomain, Flowing;
  }

  lemma MovedProgress(vs0: Vertices, vs: Vertices, feeds: Feeds, e0: EdgeMap, d0: set<nat>, e1: EdgeMap, d1: set<nat>,
                      e2: EdgeMap, d2: set<nat>, n: nat, id: nat, l: nat, d: nat, seen: iset<Packet>, limit: nat, pad: Mask)
    requires Lost(vs0, vs, l, d, |pad|) && FeedsOk(vs, feeds, pad) && vs0.Keys == vs.Keys
    requires id in e0 && id in e1 && id !in d1 && e1[id].dst == l && EdgeSound(e1[id], vs0, feeds, pad)
    requires e1[id].src in vs && IsTransfer(e1[id].transfer, pad) && n !in e1 && n >= limit > id && n !in d1
    requires Moved(vs, e1, d1, e2, d2, n, id, l, d, pad) && WalkAt(e0, d0, e1, d1, l, d, id, limit)
    requires AllProgress(vs0, vs, feeds, e0, d0, e1, d1, l, d, seen, id, pad)
    ensures AllProgress(vs0, vs, feeds, e0, d0, e2, d2, l, d, seen, id + 1, pad)
  {
    hide Content, Nonempty, Img, IsTransfer, IsDomain, Flowing, ExactEdge, Progress, Taken, PairOk, Carried;
    var t := e1[id].transfer;
    MovedWalk(vs, e0, d0, e1, d1, e2, d2, n, id, l, d, limit, pad);
    var moved := !(e2 == e1 && d2 == d1 && Content(e1[id].domain, |pad|) * Content(vs[d].domain, |pad|) == iset{});
    if moved {
      MovedServes(vs, e1, d1, e2, d2, n, id, l, d, pad);
    }
    forall src | src in feeds && DestHas(feeds[src].dest, vs[l])
      ensures Progress(vs0, vs, feeds, e0, d0, e2, d2, src, l, d, seen, id + 1, pad)
      ensures Taken(vs, feeds, e2, d2, src, d, seen, pad)
    {
      PairFrom(vs, feeds, e2, d2, src, l, pad);
      StepProgress(vs0, vs, feeds, e0, d0, e1, d1, e2, d2, src, l, d, seen, id, pad);
    }
  }

  lemma PairFrom(vs: Vertices, feeds: Feeds, e: EdgeMap, dead: set<nat>, src: nat, dst: nat, pad: Mask)
    requires src in feeds && src in vs && dst in vs && IsTransfer(feeds[src].transfer, pad)
    ensures PairOk(vs, feeds, e, dead, src, dst, pad) <==>
              Carried(Flowing(vs[src], vs[dst], feeds[src].transfer, pad), e, dead, src, dst, |pad|)
  {}

  /** A moved edge serves both l and d. */
  lemma MovedServes(vs: Vertices, e1: EdgeMap, d1: set<nat>, e2: EdgeMap, d2: set<nat>, n: nat, id: nat, l: nat, d: nat, pad: Mask)
    requires id in e1 && e1[id].src in vs && l in vs && d in vs && IsTransfer(e1[id].transfer, pad)
    requires Moved(vs, e1, d1, e2, d2, n, id, l, d, pad) && id !in d1 && n !in d1 && n !in e1
    requires vs[l].rule.id == l && vs[d].rule.id == d && vs[e1[id].src].rule.id == e1[id].src
    requires !(e2 == e1 && d2 == d1 && Content(e1[id].domain, |pad|) * Content(vs[d].domain, |pad|) == iset{})
    ensures Carried(Flowing(vs[e1[id].src], vs[l], e1[id].transfer, pad), e2, d2, e1[id].src, l, |pad|)
    ensures Carried(Flowing(vs[e1[id].src], vs[d], e1[id].transfer, pad), e2, d2, e1[id].src, d, |pad|)
  {
    hide Content, Nonempty, Img, IsTransfer, IsDomain, Flowing, ExactEdge, Carried;
    var src, t := vs[e1[id].src], e1[id].transfer;
    ExactServes(e2, d2, id, src, vs[l], t, pad);
    ExactServes(e2, d2, n, src, vs[d], t, pad);
  }

  lemma StartWalk(vs0: Vertices, vs: Vertices, feeds: Feeds, e: EdgeMap, dead: set<nat>, l: nat, d: nat,
                  seen: iset<Packet>, limit: nat, pad: Mask)
    requires FeedsOk(vs, feeds, pad) && FeedsOk(vs0, feeds, pad) && vs0.Keys == vs.Keys
    requires Lost(vs0, vs, l, d, |pad|) && SameDest(vs, l, d)
    requires AllSound(vs0, feeds, e, dead, pad) && AllPairs(vs0, feeds, e, dead, {d}, pad)
    requires AllTaken(vs, feeds, e, dead, d, seen, pad)
    requires (forall k | k in e :: k < limit) && forall k | k in dead :: k in e && e[k].dst != l
    ensures WalkAt(e, dead, e, dead, l, d, 0, limit) && SoundSoFar(vs0, vs, feeds, e, dead, l, 0, limit, pad)
    ensures AllProgress(vs0, vs, feeds, e, dead, e, dead, l, d, seen, 0, pad)
  {
    hide Content, Nonempty, Img, IsTransfer, IsDomain, Flowing, Progress, Taken, PairOk, EdgeSound;
    forall id | id in e && id !in dead && e[id].dst != l ensures EdgeSound(e[id], vs, feeds, pad) {
      LostSound(vs0, vs, feeds, e[id], l, d, pad);
    }
    forall src | src in feeds && DestHas(feeds[src].dest, vs[l])
      ensures Progress(vs0, vs, feeds, e, dead, e, dead, src, l, d, seen, 0, pad)
    {
      assert PairOk(vs0, feeds, e, dead, src, l, pad);
      StartProgress(vs0, vs, feeds, e, dead, src, l, d, seen, pad);
    }
  }

  lemma EndWalk(vs0: Vertices, vs: Vertices, feeds: Feeds, e0: EdgeMap, d0: set<nat>, e: EdgeMap, dead: set<nat>, l: nat, d: nat,
                seen: iset<Packet>, limit: nat, pad: Mask)
    requires FeedsOk(vs, feeds, pad) && FeedsOk(vs0, feeds, pad) && vs0.Keys == vs.Keys
    requires Lost(vs0, vs, l, d, |pad|) && SameDest(vs, l, d) && AllPairs(vs0, feeds, e0, d0, {d}, pad)
    requires forall k | k in e0 :: k < limit
    requires WalkAt(e0, d0, e, dead, l, d, limit, limit) && SoundSoFar(vs0, vs, feeds, e, dead, l, limit, limit, pad)
    requires AllProgress(vs0, vs, feeds, e0, d0, e, dead, l, d, seen, limit, pad)
    ensures AllSound(vs, feeds, e, dead, pad) && AllPairs(vs, feeds, e, dead, {d}, pad)
    ensures AllTaken(vs, feeds, e, dead, d, seen + Content(vs0[l].domain, |pad|), pad)
  {
    hide Content, Nonempty, Img, IsTransfer, IsDomain, Flowing, Taken, PairOk, EdgeSound;
    forall src, dst | src in feeds && dst in vs && dst != d && DestHas(feeds[src].dest, vs[dst])
      ensures PairOk(vs, feeds, e, dead, src, dst, pad)
    {
      if dst == l {
        assert Progress(vs0, vs, feeds, e0, d0, e, dead, src, l, d, seen, limit, pad);
      } else {
        assert vs0[dst] == vs[dst] && PairOk(vs0, feeds, e0, d0, src, dst, pad);
        LostPair(vs0, vs, feeds, e0, d0, src, dst, l, d, pad);
        PairFrom(vs, feeds, e0, d0, src, dst, pad);
        PairFrom(vs, feeds, e, dead, src, dst, pad);
        KeepsCarried(Flowing(vs[src], vs[dst], feeds[src].transfer, pad), e0, d0, e, dead, src, dst, |pad|);
      }
    }
    forall src | src in feeds && DestHas(feeds[src].dest, vs[d])
      ensures Taken(vs, feeds, e, dead, src, d, seen + Content(vs0[l].domain, |pad|), pad)
    {
      assert DestHas(feeds[src].dest, vs[l]);
      assert Progress(vs0, vs, feeds, e0, d0, e, dead, src, l, d, seen, limit, pad);
    }
  }

  lemma LostFacts(vs0: Vertices, vs: Vertices, l: nat, d: nat, n: nat)
    requires Lost(vs0, vs, l, d, n)
    ensures l in vs && d in vs && l in vs0 && l != d
  {}

  lemma SoundAt(vs0: Vertices, vs: Vertices, feeds: Feeds, e: EdgeMap, dead: set<nat>, id: nat, l: nat, i: nat, limit: nat, pad: Mask)
    requires SoundSoFar(vs0, vs, feeds, e, dead, l, i, limit, pad) && id in e && id !in dead && e[id].dst == l && i <= id < limit
    requires vs0.Keys == vs.Keys
    ensures EdgeSound(e[id], vs0, feeds, pad) && e[id].src in vs && IsTransfer(e[id].transfer, pad)
  {}

  /** An edge that does not enter l is passed over. */
  lemma SkipWalk(vs0: Vertices, vs: Vertices, feeds: Feeds, e0: EdgeMap, d0: set<nat>, e: EdgeMap, dead: set<nat>, id: nat,
                 l: nat, d: nat, seen: iset<Packet>, limit: nat, pad: Mask)
    requires FeedsOk(vs, feeds, pad) && vs0.Keys == vs.Keys && Lost(vs0, vs, l, d, |pad|) && l in vs && d in vs
    requires !(id in e && e[id].dst == l)
    requires WalkAt(e0, d0, e, dead, l, d, id, limit) && SoundSoFar(vs0, vs, feeds, e, dead, l, id, limit, pad)
    requires AllProgress(vs0, vs, feeds, e0, d0, e, dead, l, d, seen, id, pad)
    ensures WalkAt(e0, d0, e, dead, l, d, id + 1, limit) && SoundSoFar(vs0, vs, feeds, e, dead, l, id + 1, limit, pad)
    ensures AllProgress(vs0, vs, feeds, e0, d0, e, dead, l, d, seen, id + 1, pad)
  {
    hide Content, Nonempty, Img, IsTransfer, IsDomain, Flowing, Progress, Taken, PairOk, EdgeSound;
    forall src | src in feeds && DestHas(feeds[src].dest, vs[l])
      ensures Progress(vs0, vs, feeds, e0, d0, e, dead, src, l, d, seen, id + 1, pad)
    {
      StepProgress(vs0, vs, feeds, e0, d0, e, dead, e, dead, src, l, d, seen, id, pad);
    }
  }

  // --- which edges are new ---

  /** Edges of e0 keep their ends. g maps every new edge to the edge of e0 for which it was
      added: one from the same rule to a rule other than d. No edge has two copies. */
  ghost predicate Copied(e0: EdgeMap, e: EdgeMap, d: nat, limit: nat, g: map<nat, nat>)
  {
    && (forall k | k in e0 :: k in e && e[k].src == e0[k].src && e[k].dst == e0[k].dst && e[k].transfer == e0[k].transfer)
    && (forall k | k in e && k !in e0 :: k >= limit && e[k].dst == d && CopyOf(e[k], k, e0, d, g))
    && forall j, k | j in e && k in e && j !in e0 && k !in e0 && j in g && k in g && g[j] == g[k] :: j == k
  }

  predicate CopyOf(e: Edge, k: nat, e0: EdgeMap, d: nat, g: map<nat, nat>)
  {
    k in g && g[k] in e0 && e0[g[k]].src == e.src && e0[g[k]].dst != d
  }

  /** The edges copied so far entered l and have been passed. */
  ghost predicate Copying(e0: EdgeMap, e: EdgeMap, l: nat, d: nat, i: nat, limit: nat, g: map<nat, nat>)
  {
    && Copied(e0, e, d, limit, g) && (forall k | k in g :: k >= limit)
    && forall k | k in e && k !in e0 :: k in g && g[k] < i && g[k] in e0 && e0[g[k]].dst == l
  }

  lemma StartCopying(e: EdgeMap, l: nat, d: nat, limit: nat)
    ensures Copying(e, e, l, d, 0, limit, map[])
  {}

  /** What a step does to the ends of the edges. */
  lemma MovedEnds(vs: Vertices, e1: EdgeMap, d1: set<nat>, e2: EdgeMap, d2: set<nat>, n: nat, id: nat, l: nat, d: nat, pad: Mask)
    requires id in e1 && e1[id].src in vs && l in vs && d in vs && IsTransfer(e1[id].transfer, pad) && n !in e1 && e1[id].dst == l
    requires vs[l].rule.id == l && vs[d].rule.id == d && vs[e1[id].src].rule.id == e1[id].src
    requires Moved(vs, e1, d1, e2, d2, n, id, l, d, pad)
    ensures forall k | k in e1 :: k in e2 && e2[k].src == e1[k].src && e2[k].dst == e1[k].dst && e2[k].transfer == e1[k].transfer
    ensures forall k | k in e2 && k !in e1 :: k == n && e2[k].src == e1[id].src && e2[k].dst == d
  {
    hide Content, Nonempty, Img, IsTransfer, IsDomain, Flowing, EdgeShape, Shares;
  }

  lemma StepCopying(vs: Vertices, e0: EdgeMap, e1: EdgeMap, d1: set<nat>, e2: EdgeMap, d2: set<nat>, n: nat, id: nat, l: nat, d: nat,
                    limit: nat, g: map<nat, nat>, pad: Mask)
    requires id in e1 && e1[id].src in vs && l in vs && d in vs && IsTransfer(e1[id].transfer, pad) && n !in e1 && e1[id].dst == l
    requires vs[l].rule.id == l && vs[d].rule.id == d && vs[e1[id].src].rule.id == e1[id].src && l != d && n >= limit
    requires Moved(vs, e1, d1, e2, d2, n, id, l, d, pad) && Copying(e0, e1, l, d, id, limit, g) && id in e0
    ensures Copying(e0, e2, l, d, id + 1, limit, g[n := id])
  {
    hide Moved, IsTransfer;
    MovedEnds(vs, e1, d1, e2, d2, n, id, l, d, pad);
    assert n !in e0;
  }

  lemma SkipCopying(e0: EdgeMap, e: EdgeMap, l: nat, d: nat, i: nat, limit: nat, g: map<nat, nat>)
    requires Copying(e0, e, l, d, i, limit, g)
    ensures Copying(e0, e, l, d, i + 1, limit, g)
  {}

  /** The walk over the in-edges of l after it lost what d takes: afterwards the edges
      are sound, l still gets all it should, and d has an edge from every rule that
      sent l packets which are now d's. */
  method MoveEdges(inst: EdgeInstaller, vs: Vertices, l: nat, d: nat, ghost vs0: Vertices, ghost feeds: Feeds, ghost seen: iset<Packet>)
    returns (ghost g: map<nat, nat>)
    requires inst.Valid() && FeedsOk(vs, feeds, inst.pad) && FeedsOk(vs0, feeds, inst.pad) && vs0.Keys == vs.Keys
    requires Lost(vs0, vs, l, d, |inst.pad|) && SameDest(vs, l, d)
    requires AllSound(vs0, feeds, inst.edges, inst.emptyEdges, inst.pad)
    requires AllPairs(vs0, feeds, inst.edges, inst.emptyEdges, {d}, inst.pad)
    requires AllTaken(vs, feeds, inst.edges, inst.emptyEdges, d, seen, inst.pad)
    requires forall k | k in inst.emptyEdges :: inst.edges[k].dst != l
    modifies inst`edges, inst`emptyEdges, inst`nextEdge
    ensures inst.Valid()
    ensures AllSound(vs, feeds, inst.edges, inst.emptyEdges, inst.pad)
    ensures AllPairs(vs, feeds, inst.edges, inst.emptyEdges, {d}, inst.pad)
    ensures AllTaken(vs, feeds, inst.edges, inst.emptyEdges, d, seen + Content(vs0[l].domain, |inst.pad|), inst.pad)
    ensures forall k | k in inst.emptyEdges :: inst.edges[k].dst == l || (k in old(inst.emptyEdges) && k in old(inst.edges) && inst.edges[k] == old(inst.edges)[k])
    ensures old(inst.nextEdge) <= inst.nextEdge
    ensures Copying(old(inst.edges), inst.edges, l, d, old(inst.nextEdge), old(inst.nextEdge), g)
  {
    hide Content, Nonempty, Img, IsTransfer, IsDomain, Flowing, AllSound, AllPairs, AllTaken, AllProgress, SoundSoFar, EdgeSound, Lost, Moved, Copying;
    var limit := inst.nextEdge;
    ghost var pad := inst.pad;
    ghost var e0, d0 := inst.edges, inst.emptyEdges;
    LostFacts(vs0, vs, l, d, |pad|);
    StartWalk(vs0, vs, feeds, e0, d0, l, d, seen, limit, pad);
    g := map[];
    StartCopying(e0, l, d, limit);
    for id := 0 to limit
      invariant inst.Valid() && limit <= inst.nextEdge
      invariant WalkAt(e0, d0, inst.edges, inst.emptyEdges, l, d, id, limit)
      invariant SoundSoFar(vs0, vs, feeds, inst.edges, inst.emptyEdges, l, id, limit, pad)
      invariant AllProgress(vs0, vs, feeds, e0, d0, inst.edges, inst.emptyEdges, l, d, seen, id, pad)
      invariant Copying(e0, inst.edges, l, d, id, limit, g)
    {
      if id in inst.edges && inst.edges[id].dst == l {
        ghost var e1, d1, n := inst.edges, inst.emptyEdges, inst.nextEdge;
        SoundAt(vs0, vs, feeds, e1, d1, id, l, id, limit, pad);
        MoveEdge(inst, vs, id, l, d, vs0, feeds);
        MovedWalk(vs, e0, d0, e1, d1, inst.edges, inst.emptyEdges, n, id, l, d, limit, pad);
        MovedSound(vs0, vs, feeds, e1, d1, inst.edges, inst.emptyEdges, n, id, l, d, limit, pad);
        MovedProgress(vs0, vs, feeds, e0, d0, e1, d1, inst.edges, inst.emptyEdges, n, id, l, d, seen, limit, pad);
        StepCopying(vs, e0, e1, d1, inst.edges, inst.emptyEdges, n, id, l, d, limit, g, pad);
        g := g[n := id];
      } else {
        SkipCopying(e0, inst.edges, l, d, id, limit, g);
        SkipWalk(vs0, vs, feeds, e0, d0, inst.edges, inst.emptyEdges, id, l, d, seen, limit, pad);
      }
    }
    EndWalk(vs0, vs, feeds, e0, d0, inst.edges, inst.emptyEdges, l, d, seen, limit, pad);
  }
}
