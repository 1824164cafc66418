/** A rule joins its table: the rules below hand it the packets it takes and the edges
    for them (add_in_edges in src/network/DependencyGraph.cpp). */
module RuleJoins {
  import opened Masks
  import opened NetworkSpaces
  import opened Tables
  import opened Edges
  import opened EdgeInstallers
  import opened EdgeMoves
  import opened InfluenceGraphs
  import opened RuleChanges

  /** Only the domains of rules of t change, and influences on them. */
  ghost predicate OnlyTable(t: seq<Rule>, vs0: Vertices, vs: Vertices, i0: Influences, i1: Influences)
  {
    && SameRules(vs0, vs)
    && (forall id | id in vs && vs[id].rule !in t :: vs[id] == vs0[id])
    && (forall u: nat, l: nat | !HasId(t, l) :: ((u, l) in i0 <==> (u, l) in i1) && ((u, l) in i0 ==> i1[(u, l)] == i0[(u, l)]))
  }

  predicate HasId(t: seq<Rule>, id: nat)
  {
    exists r :: r in t && r.id == id
  }

  lemma OnlyTableStep(t: seq<Rule>, vs0: Vertices, vs1: Vertices, vs2: Vertices, i0: Influences, i1: Influences, i2: Influences, l: Rule)
    requires OnlyTable(t, vs0, vs1, i0, i1) && l in t && l.id in vs1 && l.id in vs2 && vs1[l.id].rule == l && vs2[l.id].rule == l
    requires vs2 == vs1[l.id := vs2[l.id]] && OnlyOn(i1, i2, l.id)
    ensures OnlyTable(t, vs0, vs2, i0, i2)
  {}

  lemma OnlyTableSelf(t: seq<Rule>, vs: Vertices, infl: Influences)
    ensures OnlyTable(t, vs, vs, infl, infl)
  {}

  lemma FeedsOkStep(vs0: Vertices, vs: Vertices, feeds: Feeds, id: nat, pad: Mask)
    requires FeedsOk(vs0, feeds, pad) && id in vs0 && id in vs && vs == vs0[id := vs[id]]
    requires vs[id].rule == vs0[id].rule && IsDomain(vs[id].domain, pad) && vs[id].domain.port == vs[id].rule.domain.port
    ensures FeedsOk(vs, feeds, pad)
  {}

  /** Sound edges, all pairs served except those into `except`. */
  ghost predicate Served(vs: Vertices, feeds: Feeds, e: EdgeMap, dead: set<nat>, except: set<nat>, pad: Mask)
    requires FeedsOk(vs, feeds, pad)
  {
    AllSound(vs, feeds, e, dead, pad) && AllPairs(vs, feeds, e, dead, except, pad)
  }

  /** Table t is s with d at its place. */
  ghost predicate Placed(t: seq<Rule>, s: seq<Rule>, d: Rule, pad: Mask)
  {
    && TableOk(t, d.table, pad) && Sorted(s) && Joins(t, s, d) && HasMiss(s, |pad|)
    && forall u | u in s :: u.id != d.id
  }

  /** The rules below d from position i on still see the table without d, all others
      the table with d. */
  ghost predicate RestOk(t: seq<Rule>, s: seq<Rule>, d: Rule, lower: seq<Rule>, i: nat, vs: Vertices, infl: Influences, pad: Mask)
    requires i <= |lower|
  {
    && (forall j, k | 0 <= j < k < |lower| :: lower[j] != lower[k])
    && (forall r | r in lower :: r in s && r in t && r.priority < d.priority)
    && (forall r | r in s :: RuleAt(if r in lower[i..] then s else t, r, vs, infl, pad))
    && (forall r | r in lower[i..] :: (d.id, r.id) !in infl) && RuleAt(t, d, vs, infl, pad)
    && forall r, q | r in t && q in t && r.id == q.id :: r == q
  }

  lemma PlacedSorted(t: seq<Rule>, s: seq<Rule>, d: Rule, pad: Mask)
    requires Placed(t, s, d, pad)
    ensures Sorted(t) && d in t && forall r | r in s :: r in t && r != d
  {}

  lemma StartHandOver(t: seq<Rule>, s: seq<Rule>, d: Rule, lower: seq<Rule>, vs: Vertices, infl: Influences, pad: Mask)
    requires Placed(t, s, d, pad) && RuleAt(t, d, vs, infl, pad)
    requires forall u | u in s :: (d.id, u.id) !in infl && RuleAt(s, u, vs, infl, pad)
    requires forall r | r in lower :: r in t
    requires forall r | r in t :: r in lower <==> r.priority < d.priority
    requires exists j | 0 <= j <= |t| :: lower == t[j..]
    ensures RestOk(t, s, d, lower, 0, vs, infl, pad) && lower[0..] == lower
  {
    hide InfluencesOn, Effective, NoOverlaps, HasMiss, IsMatch;
    var j :| 0 <= j <= |t| && lower == t[j..];
    forall i, k | 0 <= i < k < |lower| ensures lower[i] != lower[k] {
      assert Above(t[j + i], t[j + k]);
    }
    forall r, q | r in t && q in t && r.id == q.id ensures r == q {
      if r != d && q != d { assert RuleAt(s, r, vs, infl, pad) && RuleAt(s, q, vs, infl, pad); }
    }
    forall r | r in s ensures RuleAt(if r in lower then s else t, r, vs, infl, pad) {
      assert r in t;
      if r !in lower { UppersStay(t, s, d, r, vs, infl, pad); }
    }
  }

  lemma NoneTaken(vs: Vertices, feeds: Feeds, e: EdgeMap, d: nat, pad: Mask)
    requires FeedsOk(vs, feeds, pad) && d in vs
    ensures AllTaken(vs, feeds, e, {}, d, iset{}, pad)
  {
    hide Content, Img, IsTransfer, IsDomain, Flowing, Carried;
  }

  lemma RestFirst(t: seq<Rule>, s: seq<Rule>, d: Rule, lower: seq<Rule>, i: nat, vs: Vertices, infl: Influences, pad: Mask)
    requires i < |lower| && RestOk(t, s, d, lower, i, vs, infl, pad)
    ensures lower[i] in lower[i..] && lower[i] in lower && lower[i] in s && lower[i] in t && d.priority > lower[i].priority
    ensures RuleAt(s, lower[i], vs, infl, pad) && (d.id, lower[i].id) !in infl && RuleAt(t, d, vs, infl, pad)
  {
    hide RuleAt;
    assert lower[i..][0] == lower[i];
  }

  /** After one lower rule was handled. */
  lemma RestStays(t: seq<Rule>, s: seq<Rule>, d: Rule, lower: seq<Rule>, i: nat, vs0: Vertices, vs: Vertices,
                  i0: Influences, i1: Influences, pad: Mask)
    requires i < |lower| && RestOk(t, s, d, lower, i, vs0, i0, pad) && Placed(t, s, d, pad)
    requires lower[i].id in vs0 && lower[i].id in vs && vs == vs0[lower[i].id := vs[lower[i].id]] && OnlyOn(i0, i1, lower[i].id)
    requires RuleAt(t, lower[i], vs, i1, pad)
    ensures RestOk(t, s, d, lower, i + 1, vs, i1, pad)
    ensures forall r | r in lower[i + 1..] :: r.id != lower[i].id && r in lower[i..]
  {
    hide RuleAt, Placed, OnlyOn;
    var l := lower[i];
    var rest := lower[i + 1..];
    PlacedOthers(t, s, d, pad);
    RestTail(lower, i);
    OthersStay(t, d, l.id, vs0, vs, i0, i1, pad);
    forall r | r in rest ensures r.id != l.id && (d.id, r.id) !in i1 {
      assert r in t && l in t;
      OnlyOnOthers(i0, i1, l.id, (d.id, r.id));
    }
    forall r | r in s ensures RuleAt(if r in rest then s else t, r, vs, i1, pad) {
      if r != l {
        assert r in t && l in t;
        OthersStay(if r in rest then s else t, r, l.id, vs0, vs, i0, i1, pad);
      }
    }
  }

  lemma PlacedOthers(t: seq<Rule>, s: seq<Rule>, d: Rule, pad: Mask)
    requires Placed(t, s, d, pad)
    ensures d in t && forall r | r in s :: r in t && r.id != d.id
  {}

  lemma OnlyOnOthers(i0: Influences, i1: Influences, l: nat, key: (nat, nat))
    requires OnlyOn(i0, i1, l) && key.1 != l
    ensures key in i1 <==> key in i0
  {}

  /** What comes after the first of the remaining rules. */
  lemma RestTail(lower: seq<Rule>, i: nat)
    requires i < |lower| && forall j, k | 0 <= j < k < |lower| :: lower[j] != lower[k]
    ensures lower[i] in lower && lower[i] in lower[i..]
    ensures forall r :: r in lower[i + 1..] <==> r in lower[i..] && r != lower[i]
    ensures forall r | r in lower[i..] :: r in lower
  {
    var rest := lower[i + 1..];
    assert lower[i..] == [lower[i]] + rest;
    forall r | r in rest ensures r != lower[i] {
      var k :| 0 <= k < |rest| && rest[k] == r;
      assert lower[i + 1 + k] == r;
    }
  }

  lemma EndHandOver(t: seq<Rule>, s: seq<Rule>, d: Rule, lower: seq<Rule>, seen: iset<Packet>, vs: Vertices, feeds: Feeds,
                    infl: Influences, e: EdgeMap, dead: set<nat>, pad: Mask)
    requires Placed(t, s, d, pad) && RestOk(t, s, d, lower, |lower|, vs, infl, pad)
    requires forall r | r in t :: r in lower <==> r.priority < d.priority
    requires forall l | l in lower :: Effective(s, l, |pad|) <= seen
    requires FeedsOk(vs, feeds, pad) && d.id in vs && Served(vs, feeds, e, dead, {d.id}, pad)
    requires AllTaken(vs, feeds, e, dead, d.id, seen, pad)
    ensures RulesAt(t, vs, infl, pad) && Served(vs, feeds, e, dead, {}, pad)
  {
    hide InfluencesOn, Effective, NoOverlaps, HasMiss, IsMatch, AllTaken, AllPairs, AllSound, FeedsOk;
    LowersCover(t, s, d, seen, |pad|);
    SeenAll(vs, feeds, e, dead, d.id, seen, pad);
  }

  /** The body of the second loop of add_in_edges: the lower rule l gives d what d
      takes of its packets, with the edges for them. */
  method HandOver(inst: EdgeInstaller, t: seq<Rule>, d: Rule, l: Rule, vs0: Vertices, i0: Influences,
                  ghost feeds: Feeds, ghost s: seq<Rule>, ghost seen: iset<Packet>)
    returns (vs: Vertices, infl: Influences, ghost g: map<nat, nat>)
    requires inst.Valid() && FeedsOk(vs0, feeds, inst.pad) && Known(i0, vs0) && Served(vs0, feeds, inst.edges, inst.emptyEdges, {d.id}, inst.pad)
    requires Placed(t, s, d, inst.pad) && d.priority > l.priority && l in s
    requires RuleAt(s, l, vs0, i0, inst.pad) && RuleAt(t, d, vs0, i0, inst.pad) && (d.id, l.id) !in i0
    requires AllTaken(vs0, feeds, inst.edges, inst.emptyEdges, d.id, seen, inst.pad)
    requires forall k | k in inst.emptyEdges && k in inst.edges :: inst.edges[k].dst != l.id
    modifies inst`edges, inst`emptyEdges, inst`nextEdge
    ensures inst.Valid() && FeedsOk(vs, feeds, inst.pad) && Known(infl, vs) && Served(vs, feeds, inst.edges, inst.emptyEdges, {d.id}, inst.pad)
    ensures l.id in vs && l.id in vs0 && vs == vs0[l.id := vs[l.id]] && vs0[l.id].rule == l && vs[l.id].rule == l
    ensures OnlyOn(i0, infl, l.id) && RuleAt(t, l, vs, infl, inst.pad)
    ensures d.id in vs && AllTaken(vs, feeds, inst.edges, inst.emptyEdges, d.id, seen + Effective(s, l, |inst.pad|), inst.pad)
    ensures forall k | k in inst.emptyEdges && k in inst.edges :: inst.edges[k].dst == l.id ||
              (k in old(inst.emptyEdges) && k in old(inst.edges) && inst.edges[k] == old(inst.edges)[k])
    ensures l.id != d.id && old(inst.nextEdge) <= inst.nextEdge
    ensures Copying(old(inst.edges), inst.edges, l.id, d.id, old(inst.nextEdge), old(inst.nextEdge), g)
  {
    hide IsMatch, InfluenceOk, Effective, Content, IsDomain, AllSound, AllPairs, AllTaken, Lost, NoOverlaps, HasMiss, Sorted, Copying;
    g := map[];
    NothingCopied(inst.edges, l.id, d.id, inst.nextEdge);
    assert d in t && l in t && IsMatch(d.domain, inst.pad) && IsMatch(l.domain, inst.pad);
    var e, influence := Influence(d, l, inst.pad);
    vs, infl := vs0, i0;
    if !e {
      infl := i0[(d.id, l.id) := influence];
      InfluencesJoin(t, s, d, l, i0, infl, inst.pad);
      var domain := EffectiveDomain(t, infl, l, t, inst.pad);
      vs := vs0[l.id := Vertex(l, domain)];
      FeedsOkStep(vs0, vs, feeds, l.id, inst.pad);
      JoinLoses(t, s, d, l, vs0, vs, inst.pad);
      LostKeepsTaken(vs0, vs, feeds, inst.edges, inst.emptyEdges, l.id, d.id, seen, inst.pad);
      g := MoveEdges(inst, vs, l.id, d.id, vs0, feeds, seen);
    } else {
      ApartStays(t, s, d, l, vs, infl, inst.pad);
      NothingSeen(vs, feeds, inst.edges, inst.emptyEdges, d.id, seen, Effective(s, l, |inst.pad|), inst.pad);
    }
  }

  /** The edges found empty enter none of the rules from position i on. */
  predicate DeadBefore(e: EdgeMap, dead: set<nat>, lower: seq<Rule>, i: nat)
    requires i <= |lower|
  {
    forall k, r | k in dead && k in e && r in lower[i..] :: e[k].dst != r.id
  }

  /** All that the first i rules held before has been looked at. */
  ghost predicate SeenBefore(lower: seq<Rule>, i: nat, s: seq<Rule>, seen: iset<Packet>, n: nat)
    requires i <= |lower|
  {
    forall l | l in lower[..i] :: Effective(s, l, n) <= seen
  }

  lemma DeadNext(e0: EdgeMap, d0: set<nat>, e: EdgeMap, dead: set<nat>, lower: seq<Rule>, i: nat)
    requires i < |lower| && DeadBefore(e0, d0, lower, i) && forall r | r in lower[i + 1..] :: r.id != lower[i].id && r in lower[i..]
    requires forall k | k in dead && k in e :: e[k].dst == lower[i].id || (k in d0 && k in e0 && e[k] == e0[k])
    ensures DeadBefore(e, dead, lower, i + 1)
  {}

  lemma DeadFirst(e: EdgeMap, dead: set<nat>, lower: seq<Rule>, i: nat)
    requires i < |lower| && DeadBefore(e, dead, lower, i)
    ensures forall k | k in dead && k in e :: e[k].dst != lower[i].id
  {
    assert lower[i] in lower[i..];
  }

  lemma SeenNext(lower: seq<Rule>, i: nat, s: seq<Rule>, seen: iset<Packet>, n: nat)
    requires i < |lower| && SeenBefore(lower, i, s, seen, n)
    ensures SeenBefore(lower, i + 1, s, seen + Effective(s, lower[i], n), n)
  {
    hide Effective;
    assert lower[..i + 1] == lower[..i] + [lower[i]];
  }

  lemma HandingStarts(e: EdgeMap, lower: seq<Rule>, s: seq<Rule>, n: nat)
    ensures DeadBefore(e, {}, lower, 0) && SeenBefore(lower, 0, s, iset{}, n)
  {
    hide Effective;
  }

  lemma HandingEnds(lower: seq<Rule>, s: seq<Rule>, seen: iset<Packet>, n: nat)
    requires SeenBefore(lower, |lower|, s, seen, n)
    ensures forall l | l in lower :: Effective(s, l, n) <= seen
  {
    hide Effective;
    assert lower[..|lower|] == lower;
  }

  lemma NothingCopied(e: EdgeMap, l: nat, d: nat, limit: nat)
    ensures Copying(e, e, l, d, limit, limit, map[]) && Copied(e, e, d, limit, map[])
  {}

  /** No edge into the rules from position i on has been copied. */
  predicate NotCopied(e0: EdgeMap, e: EdgeMap, lower: seq<Rule>, i: nat, g: map<nat, nat>)
    requires i <= |lower|
  {
    forall k, r | k in e && k !in e0 && r in lower[i..] :: k in g && g[k] in e0 && e0[g[k]].dst != r.id
  }

  lemma NoneCopied(e: EdgeMap, lower: seq<Rule>)
    ensures NotCopied(e, e, lower, 0, map[])
  {}

  /** The copies made for one more lower rule. */
  lemma CopiedNext(e0: EdgeMap, e1: EdgeMap, e2: EdgeMap, lower: seq<Rule>, i: nat, d: nat, limit: nat, next: nat, g: map<nat, nat>, more: map<nat, nat>)
    requires i < |lower| && lower[i].id != d && limit <= next && forall k | k in e1 :: k < next
    requires Copied(e0, e1, d, limit, g) && NotCopied(e0, e1, lower, i, g) && Copying(e1, e2, lower[i].id, d, next, next, more)
    requires forall r | r in lower[i + 1..] :: r.id != lower[i].id && r in lower[i..]
    ensures Copied(e0, e2, d, limit, g + more) && NotCopied(e0, e2, lower, i + 1, g + more)
  {
    var both := g + more;
    assert lower[i] in lower[i..];
    forall k | k in e2 && k !in e0 ensures k >= limit && e2[k].dst == d && CopyOf(e2[k], k, e0, d, both) {
      if k in e1 { assert k !in more; }
    }
    forall k | k in e2 && k !in e1 ensures both[k] == more[k] && more[k] in e0 && e0[more[k]].dst == lower[i].id {
      assert e1[more[k]].dst != d;
    }
    forall k | k in e1 && k !in e0 ensures both[k] == g[k] && e0[g[k]].dst != lower[i].id {}
  }

  /** The second loop of add_in_edges. */
  method HandOverAll(inst: EdgeInstaller, t: seq<Rule>, k: nat, d: Rule, vs0: Vertices, i0: Influences,
                     ghost feeds: Feeds, ghost s: seq<Rule>)
    returns (vs: Vertices, infl: Influences, ghost g: map<nat, nat>)
    requires inst.Valid() && FeedsOk(vs0, feeds, inst.pad) && Known(i0, vs0) && Served(vs0, feeds, inst.edges, {}, {d.id}, inst.pad) && inst.emptyEdges == {}
    requires Placed(t, s, d, inst.pad) && k < |t| && t[k] == d
    requires forall u | u in s :: (d.id, u.id) !in i0 && RuleAt(s, u, vs0, i0, inst.pad)
    requires d.id in vs0 && RuleAt(t, d, vs0, i0, inst.pad)
    modifies inst`edges, inst`emptyEdges, inst`nextEdge
    ensures inst.Valid() && FeedsOk(vs, feeds, inst.pad) && Known(infl, vs) && Served(vs, feeds, inst.edges, inst.emptyEdges, {}, inst.pad)
    ensures RulesAt(t, vs, infl, inst.pad) && OnlyTable(t, vs0, vs, i0, infl)
    ensures Copied(old(inst.edges), inst.edges, d.id, old(inst.nextEdge), g)
  {
    hide *;
    g := map[];
    ghost var e0 := inst.edges;
    ghost var seen: iset<Packet> := iset{};
    PlacedSorted(t, s, d, inst.pad);
    var lower := LowerRules(t, k);
    StartHandOver(t, s, d, lower, vs0, i0, inst.pad);
    NoneTaken(vs0, feeds, inst.edges, d.id, inst.pad);
    OnlyTableSelf(t, vs0, i0);
    HandingStarts(inst.edges, lower, s, |inst.pad|);
    NothingCopied(e0, d.id, d.id, inst.nextEdge);
    NoneCopied(e0, lower);
    vs, infl := vs0, i0;
    for i := 0 to |lower|
      invariant inst.Valid() && FeedsOk(vs, feeds, inst.pad) && Known(infl, vs) && d.id in vs
      invariant Served(vs, feeds, inst.edges, inst.emptyEdges, {d.id}, inst.pad)
      invariant RestOk(t, s, d, lower, i, vs, infl, inst.pad)
      invariant AllTaken(vs, feeds, inst.edges, inst.emptyEdges, d.id, seen, inst.pad)
      invariant SeenBefore(lower, i, s, seen, |inst.pad|) && DeadBefore(inst.edges, inst.emptyEdges, lower, i)
      invariant OnlyTable(t, vs0, vs, i0, infl)
      invariant old(inst.nextEdge) <= inst.nextEdge && Copied(e0, inst.edges, d.id, old(inst.nextEdge), g) && NotCopied(e0, inst.edges, lower, i, g)
    {
      ghost var vs1, i1, e1, d1, next, more := vs, infl, inst.edges, inst.emptyEdges, inst.nextEdge, map[];
      IdsBelow(inst);
      var l := lower[i];
      RestFirst(t, s, d, lower, i, vs, infl, inst.pad);
      DeadFirst(e1, d1, lower, i);
      vs, infl, more := HandOver(inst, t, d, l, vs, infl, feeds, s, seen);
      SeenNext(lower, i, s, seen, |inst.pad|);
      seen := seen + Effective(s, l, |inst.pad|);
      RestStays(t, s, d, lower, i, vs1, vs, i1, infl, inst.pad);
      OnlyTableStep(t, vs0, vs1, vs, i0, i1, infl, l);
      DeadNext(e1, d1, inst.edges, inst.emptyEdges, lower, i);
      CopiedNext(e0, e1, inst.edges, lower, i, d.id, old(inst.nextEdge), next, g, more);
      g := g + more;
    }
    HandingEnds(lower, s, seen, |inst.pad|);
    EndHandOver(t, s, d, lower, seen, vs, feeds, infl, inst.edges, inst.emptyEdges, inst.pad);
  }

  lemma LostKeepsTaken(vs0: Vertices, vs: Vertices, feeds: Feeds, e: EdgeMap, dead: set<nat>, l: nat, d: nat, seen: iset<Packet>, pad: Mask)
    requires FeedsOk(vs, feeds, pad) && FeedsOk(vs0, feeds, pad) && Lost(vs0, vs, l, d, |pad|) && l in vs && d in vs && d in vs0
    requires AllTaken(vs0, feeds, e, dead, d, seen, pad)
    ensures AllTaken(vs, feeds, e, dead, d, seen, pad)
  {
    hide Content, Img, IsTransfer, IsDomain, Carried;
    assert vs0[d] == vs[d];
    forall src | src in feeds && DestHas(feeds[src].dest, vs[d]) ensures Taken(vs, feeds, e, dead, src, d, seen, pad) {
      assert vs0[src].rule == vs[src].rule && Taken(vs0, feeds, e, dead, src, d, seen, pad);
    }
  }

  /** Packets that are not d's make no difference. */
  lemma NothingSeen(vs: Vertices, feeds: Feeds, e: EdgeMap, dead: set<nat>, d: nat, seen: iset<Packet>, more: iset<Packet>, pad: Mask)
    requires FeedsOk(vs, feeds, pad) && d in vs && more * Content(vs[d].domain, |pad|) == iset{}
    requires AllTaken(vs, feeds, e, dead, d, seen, pad)
    ensures AllTaken(vs, feeds, e, dead, d, seen + more, pad)
  {
    hide Content, Img, IsTransfer, IsDomain, Carried;
    Disjoint(more, Content(vs[d].domain, |pad|));
    forall src | src in feeds && DestHas(feeds[src].dest, vs[d]) ensures Taken(vs, feeds, e, dead, src, d, seen + more, pad) {
      assert Taken(vs, feeds, e, dead, src, d, seen, pad);
      var w := Want(vs, src, d, feeds[src].transfer, pad);
      assert w * (seen + more) == w * seen;
    }
  }
}
