/** What a rule that joins or leaves a table does to the domains below it
    (add_in_edges and delete_in_edges in src/network/DependencyGraph.cpp). */
module RuleChanges {
  import opened Masks
  import opened NetworkSpaces
  import opened Tables
  import opened Edges
  import opened EdgeMoves
  import opened EdgeReturns
  import opened InfluenceGraphs

  /** A vertex or an influence of l changes; the other rules do not notice. */
  lemma OthersStay(view: seq<Rule>, r: Rule, l: nat, vs0: Vertices, vs: Vertices, i0: Influences, i1: Influences, pad: Mask)
    requires RuleAt(view, r, vs0, i0, pad) && r.id != l && l in vs0 && l in vs && vs == vs0[l := vs[l]] && OnlyOn(i0, i1, l)
    ensures RuleAt(view, r, vs, i1, pad)
  {
    hide Content, Nonempty, InfluenceOk, Matched, Effective;
    forall u | u in view
      ensures (u.id, r.id) in i1 ==> u.priority > r.priority && InfluenceOk(i1[(u.id, r.id)], u, r, pad)
      ensures (u.id, r.id) !in i1 && u.priority > r.priority ==> Matched(u, |pad|) !! Matched(r, |pad|)
    {
      assert (u.id, r.id) in i0 <==> (u.id, r.id) in i1;
    }
  }

  // --- joining ---

  /** With the influence of d, the influences on l are those of the new table. */
  lemma InfluencesJoin(t: seq<Rule>, s: seq<Rule>, d: Rule, l: Rule, i0: Influences, i1: Influences, pad: Mask)
    requires Joins(t, s, d) && InfluencesOn(s, i0, l, pad) && d.priority > l.priority
    requires i1 == i0 || ((d.id, l.id) in i1 && i1 == i0[(d.id, l.id) := i1[(d.id, l.id)]])
    requires forall u | u in s :: u.id != d.id
    requires (d.id, l.id) in i1 ==> InfluenceOk(i1[(d.id, l.id)], d, l, pad)
    requires (d.id, l.id) !in i1 ==> Matched(d, |pad|) !! Matched(l, |pad|)
    ensures InfluencesOn(t, i1, l, pad)
  {
    hide Content, Nonempty, InfluenceOk, Matched;
  }

  /** Rules of at least d's priority do not notice d. */
  lemma UppersStay(t: seq<Rule>, s: seq<Rule>, d: Rule, r: Rule, vs: Vertices, infl: Influences, pad: Mask)
    requires Joins(t, s, d) && RuleAt(s, r, vs, infl, pad) && d.priority <= r.priority && (d.id, r.id) !in infl
    ensures RuleAt(t, r, vs, infl, pad)
  {
    hide Content, Nonempty, InfluenceOk, Matched;
    JoinOthers(t, s, d, r, |pad|);
  }

  /** A rule below d that shares nothing with d does not notice it either. */
  lemma ApartStays(t: seq<Rule>, s: seq<Rule>, d: Rule, l: Rule, vs: Vertices, infl: Influences, pad: Mask)
    requires Joins(t, s, d) && RuleAt(s, l, vs, infl, pad) && d.priority > l.priority && (d.id, l.id) !in infl
    requires Matched(d, |pad|) !! Matched(l, |pad|) && forall u | u in s :: u.id != d.id
    ensures RuleAt(t, l, vs, infl, pad) && Effective(s, l, |pad|) * Effective(t, d, |pad|) == iset{}
  {
    hide Content, Nonempty, InfluenceOk;
    JoinOthers(t, s, d, l, |pad|);
    InfluencesJoin(t, s, d, l, infl, infl, pad);
  }

  lemma JoinLoses(t: seq<Rule>, s: seq<Rule>, d: Rule, l: Rule, vs0: Vertices, vs: Vertices, pad: Mask)
    requires Joins(t, s, d) && d.priority > l.priority && l.id != d.id
    requires l.id in vs && d.id in vs && l.id in vs0 && vs == vs0[l.id := vs[l.id]] && vs0[l.id].rule == vs[l.id].rule
    requires Content(vs0[l.id].domain, |pad|) == Effective(s, l, |pad|)
    requires Content(vs[l.id].domain, |pad|) == Effective(t, l, |pad|)
    requires Content(vs[d.id].domain, |pad|) == Effective(t, d, |pad|)
    ensures Lost(vs0, vs, l.id, d.id, |pad|)
  {
    hide Content, Nonempty, Matched;
    JoinLower(t, s, d, l, |pad|);
    assert vs0 == vs[l.id := vs0[l.id]];
  }

  // --- leaving ---

  lemma LeaveGains(t: seq<Rule>, s: seq<Rule>, d: Rule, l: Rule, vs0: Vertices, vs: Vertices, pad: Mask)
    requires Joins(t, s, d) && d.priority > l.priority && l.id != d.id
    requires l.id in vs && d.id in vs && l.id in vs0 && vs == vs0[l.id := vs[l.id]] && vs0[l.id].rule == vs[l.id].rule
    requires Content(vs0[l.id].domain, |pad|) == Effective(t, l, |pad|)
    requires Content(vs[l.id].domain, |pad|) == Effective(s, l, |pad|)
    requires Content(vs[d.id].domain, |pad|) == Effective(t, d, |pad|)
    ensures Gained(vs0, vs, l.id, d.id, |pad|)
  {
    hide Content, Nonempty, Matched;
    JoinLower(t, s, d, l, |pad|);
    assert vs0 == vs[l.id := vs0[l.id]];
  }

  /** Without the influence of d, the influences on l are those of the smaller table. */
  lemma InfluencesLeave(t: seq<Rule>, s: seq<Rule>, d: Rule, l: Rule, i0: Influences, i1: Influences, pad: Mask)
    requires Joins(t, s, d) && InfluencesOn(t, i0, l, pad) && i1 == i0 - {(d.id, l.id)}
    requires forall u | u in s :: u.id != d.id
    ensures InfluencesOn(s, i1, l, pad)
  {
    hide Content, Nonempty, InfluenceOk, Matched;
  }

  /** A rule on which d has no influence does not notice that d leaves. */
  lemma LeaveStays(t: seq<Rule>, s: seq<Rule>, d: Rule, l: Rule, vs: Vertices, infl: Influences, pad: Mask)
    requires Joins(t, s, d) && RuleAt(t, l, vs, infl, pad) && (d.id, l.id) !in infl
    requires forall u | u in s :: u.id != d.id
    ensures RuleAt(s, l, vs, infl, pad)
  {
    hide Content, Nonempty, InfluenceOk, Matched;
    assert d in t;
    JoinOthers(t, s, d, l, |pad|);
    assert infl == infl - {(d.id, l.id)};
    InfluencesLeave(t, s, d, l, infl, infl, pad);
  }

  /** What d takes, it takes from rules below it: what they held before covers it. */
  lemma LowersCover(t: seq<Rule>, s: seq<Rule>, d: Rule, seen: iset<Packet>, n: nat)
    requires Sorted(s) && Joins(t, s, d) && NoOverlaps(t, n) && d !in s
    requires HasMiss(s, n) && forall r | r in s :: r.domain.port == d.domain.port
    requires forall l | l in s && l.priority < d.priority :: Effective(s, l, n) <= seen
    ensures Effective(t, d, n) <= seen
  {
    hide Effective, Content;
    var m :| m in s && IsMiss(m, n);
    forall p | p in Effective(t, d, n) ensures p in seen {
      MatchedFacts(d, p, t, n);
      assert p in Matched(m, n);
      SomeLower(t, s, d, p, n);
      var l :| l in s && l.priority < d.priority && p in Effective(s, l, n);
    }
  }

  lemma MatchedFacts(d: Rule, p: Packet, t: seq<Rule>, n: nat)
    requires p in Effective(t, d, n)
    ensures p in Matched(d, n) && IsPacket(p, n) && PortHas(d.domain.port, p.port)
  {}

  /** Everything seen: d gets all it should. */
  lemma SeenAll(vs: Vertices, feeds: Feeds, e: EdgeMap, dead: set<nat>, d: nat, seen: iset<Packet>, pad: Mask)
    requires FeedsOk(vs, feeds, pad) && d in vs && Content(vs[d].domain, |pad|) <= seen
    requires AllTaken(vs, feeds, e, dead, d, seen, pad) && AllPairs(vs, feeds, e, dead, {d}, pad)
    ensures AllPairs(vs, feeds, e, dead, {}, pad)
  {
    hide Content, Nonempty, Img, IsTransfer, IsDomain, Carried;
    forall src, dst | src in feeds && dst in vs && DestHas(feeds[src].dest, vs[dst])
      ensures PairOk(vs, feeds, e, dead, src, dst, pad)
    {
      if dst == d {
        assert Taken(vs, feeds, e, dead, src, d, seen, pad);
        assert Want(vs, src, d, feeds[src].transfer, pad) * seen == Want(vs, src, d, feeds[src].transfer, pad);
        if Want(vs, src, d, feeds[src].transfer, pad) == iset{} {
          EmptyCarried(e, dead, src, d, |pad|);
        }
      } else {
        assert dst !in {d};
      }
    }
  }

  lemma EmptyCarried(e: EdgeMap, dead: set<nat>, src: nat, dst: nat, n: nat)
    ensures Carried(iset{}, e, dead, src, dst, n)
  {}
}
