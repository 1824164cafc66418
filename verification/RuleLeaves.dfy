/** A rule leaves its table: the rules below it get back the packets it took and the
    edges for them (delete_in_edges in src/network/DependencyGraph.cpp). */
module RuleLeaves {
  import opened Masks
  import opened NetworkSpaces
  import opened Tables
  import opened Edges
  import opened EdgeInstallers
  import opened EdgeReturns
  import opened InfluenceGraphs
  import opened RuleChanges
  import opened RuleJoins

  /** The body of the loop of delete_in_edges: the lower rule l gets back what d took. */
  method TakeBack(inst: EdgeInstaller, t: seq<Rule>, d: Rule, l: Rule, vs0: Vertices, i0: Influences,
                  ghost feeds: Feeds, ghost s: seq<Rule>)
    returns (vs: Vertices, infl: Influences)
    requires inst.Valid() && FeedsOk(vs0, feeds, inst.pad) && Known(i0, vs0)
    requires Served(vs0, feeds, inst.edges, inst.emptyEdges, {}, inst.pad)
    requires Placed(t, s, d, inst.pad) && l in s && (d.id, l.id) in i0
    requires RuleAt(t, l, vs0, i0, inst.pad) && RuleAt(t, d, vs0, i0, inst.pad)
    requires forall k | k in inst.emptyEdges && k in inst.edges :: inst.edges[k].dst != l.id && inst.edges[k].dst != d.id
    modifies inst`edges, inst`emptyEdges, inst`nextEdge
    ensures inst.Valid() && FeedsOk(vs, feeds, inst.pad) && Known(infl, vs)
    ensures Served(vs, feeds, inst.edges, inst.emptyEdges, {}, inst.pad)
    ensures l.id in vs && l.id in vs0 && vs == vs0[l.id := vs[l.id]] && vs0[l.id].rule == l && vs[l.id].rule == l
    ensures OnlyOn(i0, infl, l.id) && RuleAt(s, l, vs, infl, inst.pad) && (d.id, l.id) !in infl
    ensures forall k | k in inst.emptyEdges && k in inst.edges :: inst.edges[k].dst == l.id ||
              (k in old(inst.emptyEdges) && k in old(inst.edges) && inst.edges[k] == old(inst.edges)[k])
    ensures old(inst.nextEdge) <= inst.nextEdge && Rerouting(old(inst.edges), inst.edges, d.id, old(inst.nextEdge))
  {
    hide IsMatch, InfluenceOk, Effective, Content, IsDomain, AllSound, AllPairs, Gained, NoOverlaps, HasMiss, Sorted, Rerouting;
    assert d in t && l in t && IsMatch(l.domain, inst.pad);
    infl := i0 - {(d.id, l.id)};
    InfluencesLeave(t, s, d, l, i0, infl, inst.pad);
    var domain := EffectiveDomain(t, infl, l, s, inst.pad);
    vs := vs0[l.id := Vertex(l, domain)];
    FeedsOkStep(vs0, vs, feeds, l.id, inst.pad);
    LeaveGains(t, s, d, l, vs0, vs, inst.pad);
    ReturnEdges(inst, vs, l.id, d.id, vs0, feeds);
  }

  /** The rules from position i on still see the table with d, all others the one without. */
  ghost predicate LeftOk(t: seq<Rule>, s: seq<Rule>, d: Rule, i: nat, vs: Vertices, infl: Influences, pad: Mask)
    requires i <= |t|
  {
    && (forall r | r in s :: RuleAt(if r in t[i..] then t else s, r, vs, infl, pad))
    && RuleAt(t, d, vs, infl, pad)
  }

  lemma SortedOnce(t: seq<Rule>, i: nat)
    requires Sorted(t) && i < |t|
    ensures t[i..] == [t[i]] + t[i + 1..] && t[i] !in t[i + 1..] && t[i] in t[i..]
  {
    forall j | i < j < |t| ensures t[j] != t[i] {
      assert Above(t[i], t[j]);
    }
  }

  lemma NoSelfInfluence(t: seq<Rule>, d: Rule, vs: Vertices, infl: Influences, pad: Mask)
    requires RuleAt(t, d, vs, infl, pad) && d in t
    ensures (d.id, d.id) !in infl
  {
    hide Content, Effective, Matched;
  }

  lemma LeftFirst(t: seq<Rule>, s: seq<Rule>, d: Rule, i: nat, vs: Vertices, infl: Influences, pad: Mask)
    requires i < |t| && LeftOk(t, s, d, i, vs, infl, pad) && Placed(t, s, d, pad)
    ensures RuleAt(t, d, vs, infl, pad) && (t[i] == d ==> (d.id, d.id) !in infl)
    ensures t[i] != d ==> t[i] in s && t[i].id != d.id && RuleAt(t, t[i], vs, infl, pad)
    ensures t[i..] == [t[i]] + t[i + 1..] && t[i] !in t[i + 1..] && t[i] in t[i..]
  {
    hide RuleAt, Sorted, NoOverlaps, HasMiss, IsMatch;
    assert d in t && t[i] in t;
    SortedOnce(t, i);
    NoSelfInfluence(t, d, vs, infl, pad);
  }

  /** The rule at position i has no influence of d left. */
  lemma LeftStays(t: seq<Rule>, s: seq<Rule>, d: Rule, i: nat, vs0: Vertices, vs: Vertices, i0: Influences, i1: Influences, pad: Mask)
    requires i < |t| && LeftOk(t, s, d, i, vs0, i0, pad) && Placed(t, s, d, pad)
    requires t[i].id in vs0 && t[i].id in vs && vs == vs0[t[i].id := vs[t[i].id]] && OnlyOn(i0, i1, t[i].id)
    requires if t[i] == d then vs == vs0 && i1 == i0 else RuleAt(s, t[i], vs, i1, pad)
    ensures LeftOk(t, s, d, i + 1, vs, i1, pad)
    ensures forall r | r in t[i + 1..] :: r in t[i..] && r.id != t[i].id
  {
    hide RuleAt, TableOk;
    LeftFirst(t, s, d, i, vs0, i0, pad);
    LeftIds(t, s, d, i, vs0, i0, pad);
    var l := t[i];
    if l != d { OthersStay(t, d, l.id, vs0, vs, i0, i1, pad); }
    forall r | r in s ensures RuleAt(if r in t[i + 1..] then t else s, r, vs, i1, pad) {
      if l != d && r != l {
        OthersStay(if r in t[i + 1..] then t else s, r, l.id, vs0, vs, i0, i1, pad);
      }
    }
  }

  lemma LeftIds(t: seq<Rule>, s: seq<Rule>, d: Rule, i: nat, vs: Vertices, infl: Influences, pad: Mask)
    requires i < |t| && LeftOk(t, s, d, i, vs, infl, pad) && Placed(t, s, d, pad)
    ensures forall r, q | r in t && q in t && r.id == q.id :: r == q
    ensures forall r | r in t[i + 1..] :: r in t[i..] && r.id != t[i].id
  {
    hide Content, Effective, InfluencesOn, NoOverlaps, HasMiss, IsMatch;
    LeftFirst(t, s, d, i, vs, infl, pad);
    forall r, q | r in t && q in t && r.id == q.id ensures r == q {
      if r != d && q != d {
        assert RuleAt(if r in t[i..] then t else s, r, vs, infl, pad) && RuleAt(if q in t[i..] then t else s, q, vs, infl, pad);
      }
    }
    forall r | r in t[i + 1..] ensures r in t[i..] && r.id != t[i].id {
      assert r in t && t[i] in t;
    }
  }

  lemma LeaveSkip(t: seq<Rule>, s: seq<Rule>, d: Rule, l: Rule, vs: Vertices, infl: Influences, pad: Mask)
    requires Placed(t, s, d, pad) && RuleAt(t, l, vs, infl, pad) && (d.id, l.id) !in infl
    ensures RuleAt(s, l, vs, infl, pad) && l.id in vs && vs == vs[l.id := vs[l.id]] && OnlyOn(infl, infl, l.id)
  {
    hide Content, Effective, InfluencesOn, TableOk, HasMiss, Sorted;
    LeaveStays(t, s, d, l, vs, infl, pad);
  }

  lemma LeftDone(t: seq<Rule>, s: seq<Rule>, d: Rule, vs: Vertices, infl: Influences, pad: Mask)
    requires LeftOk(t, s, d, |t|, vs, infl, pad)
    ensures RulesAt(s, vs, infl, pad)
  {
    hide RuleAt;
  }

  lemma LeftStart(t: seq<Rule>, s: seq<Rule>, d: Rule, vs: Vertices, infl: Influences, pad: Mask)
    requires Placed(t, s, d, pad) && RulesAt(t, vs, infl, pad)
    ensures LeftOk(t, s, d, 0, vs, infl, pad) && d in t && t[0..] == t
  {
    hide RuleAt, TableOk, HasMiss, Sorted;
  }

  lemma RuleHasVertex(t: seq<Rule>, r: Rule, vs: Vertices, infl: Influences, pad: Mask)
    requires RuleAt(t, r, vs, infl, pad)
    ensures r.id in vs && vs[r.id].rule == r && vs == vs[r.id := vs[r.id]] && OnlyOn(infl, infl, r.id)
  {
    hide Content, Effective, InfluencesOn;
  }

  /** The loop of delete_in_edges over the influences of d, in the order of the table. */
  method TakeBackAll(inst: EdgeInstaller, t: seq<Rule>, d: Rule, vs0: Vertices, i0: Influences,
                     ghost feeds: Feeds, ghost s: seq<Rule>)
    returns (vs: Vertices, infl: Influences)
    requires inst.Valid() && FeedsOk(vs0, feeds, inst.pad) && Known(i0, vs0) && inst.emptyEdges == {}
    requires Served(vs0, feeds, inst.edges, {}, {}, inst.pad)
    requires Placed(t, s, d, inst.pad) && RulesAt(t, vs0, i0, inst.pad)
    modifies inst`edges, inst`emptyEdges, inst`nextEdge
    ensures inst.Valid() && FeedsOk(vs, feeds, inst.pad) && Known(infl, vs)
    ensures Served(vs, feeds, inst.edges, inst.emptyEdges, {}, inst.pad)
    ensures RulesAt(s, vs, infl, inst.pad) && OnlyTable(t, vs0, vs, i0, infl)
    ensures forall k | k in inst.emptyEdges && k in inst.edges :: inst.edges[k].dst != d.id
    ensures old(inst.nextEdge) <= inst.nextEdge && Rerouting(old(inst.edges), inst.edges, d.id, old(inst.nextEdge))
  {
    hide *;
    StartRerouting(inst.edges, d.id, inst.nextEdge);
    vs, infl := vs0, i0;
    LeftStart(t, s, d, vs, infl, inst.pad);
    OnlyTableSelf(t, vs0, i0);
    for i := 0 to |t|
      invariant inst.Valid() && FeedsOk(vs, feeds, inst.pad) && Known(infl, vs)
      invariant Served(vs, feeds, inst.edges, inst.emptyEdges, {}, inst.pad)
      invariant LeftOk(t, s, d, i, vs, infl, inst.pad) && OnlyTable(t, vs0, vs, i0, infl)
      invariant forall k, r | k in inst.emptyEdges && k in inst.edges && r in t[i..] :: inst.edges[k].dst != r.id
      invariant forall k | k in inst.emptyEdges && k in inst.edges :: inst.edges[k].dst != d.id
      invariant old(inst.nextEdge) <= inst.nextEdge && Rerouting(old(inst.edges), inst.edges, d.id, old(inst.nextEdge))
    {
      ghost var vs1, i1, e1, next1 := vs, infl, inst.edges, inst.nextEdge;
      var l := t[i];
      LeftFirst(t, s, d, i, vs, infl, inst.pad);
      if l == d { RuleHasVertex(t, d, vs, infl, inst.pad); }
      if (d.id, l.id) in infl {
        vs, infl := TakeBack(inst, t, d, l, vs, infl, feeds, s);
        ReroutingTrans(old(inst.edges), e1, inst.edges, d.id, old(inst.nextEdge), next1);
        OnlyTableStep(t, vs0, vs1, vs, i0, i1, infl, l);
      } else if l != d {
        LeaveSkip(t, s, d, l, vs, infl, inst.pad);
      }
      LeftStays(t, s, d, i, vs1, vs, i1, infl, inst.pad);
    }
    LeftDone(t, s, d, vs, infl, inst.pad);
  }
}
