/** Effective domains and the influences between the rules of one table
    (update_domain and the influence graph of src/network/DependencyGraph.cpp). */
module InfluenceGraphs {
  import opened Masks
  import opened HeaderLists
  import opened NetworkSpaces
  import opened Tables
  import opened Edges

  /** An influence (u, l): rule u takes packets from the lower rule l. */
  type Influences = map<(nat, nat), NetworkSpace>

  /** A table's rules: sorted, without overlaps at one priority, all listening to the
      same port, with a miss rule that matches whatever arrives there. */
  ghost predicate TableOk(rules: seq<Rule>, t: nat, pad: Mask)
  {
    && Sorted(rules) && NoOverlaps(rules, |pad|)
    && (forall r | r in rules :: r.kind == Flow && r.table == t && IsMatch(r.domain, pad))
    && (forall r, s | r in rules && s in rules :: r.domain.port == s.domain.port)
    && HasMiss(rules, |pad|)
  }

  ghost predicate HasMiss(rules: seq<Rule>, n: nat)
  {
    exists m :: m in rules && IsMiss(m, n)
  }

  ghost predicate IsMiss(m: Rule, n: nat)
  {
    forall p | IsPacket(p, n) && PortHas(m.domain.port, p.port) :: p in Matched(m, n)
  }

  /** The influences on l from rules of its table are those of all higher rules that
      share a packet with it. */
  ghost predicate InfluencesOn(rules: seq<Rule>, infl: Influences, l: Rule, pad: Mask)
  {
    forall u | u in rules ::
      && ((u.id, l.id) in infl ==> u.priority > l.priority && InfluenceOk(infl[(u.id, l.id)], u, l, pad))
      && ((u.id, l.id) !in infl && u.priority > l.priority ==> Matched(u, |pad|) !! Matched(l, |pad|))
  }

  predicate IsInfluence(d: NetworkSpace, l: Rule, pad: Mask)
  {
    IsDomain(d, pad) && NoDiffs(d.header) && d.port == l.domain.port
  }

  ghost predicate InfluenceOk(d: NetworkSpace, u: Rule, l: Rule, pad: Mask)
  {
    IsInfluence(d, l, pad) && Content(d, |pad|) == Matched(u, |pad|) * Matched(l, |pad|) && Content(d, |pad|) != iset{}
  }

  /** The vertex and the influences of r are right for a table with the rules `view`. */
  ghost predicate RuleAt(view: seq<Rule>, r: Rule, vs: Vertices, infl: Influences, pad: Mask)
  {
    && r.id in vs && vs[r.id].rule == r && Content(vs[r.id].domain, |pad|) == Effective(view, r, |pad|)
    && InfluencesOn(view, infl, r, pad)
  }

  ghost predicate RulesAt(rules: seq<Rule>, vs: Vertices, infl: Influences, pad: Mask)
  {
    forall r | r in rules :: RuleAt(rules, r, vs, infl, pad)
  }

  /** The packets of l that its influences leave, when they come from all higher rules. */
  lemma RemainingIsEffective(rules: seq<Rule>, infl: Influences, l: Rule, w: iset<Packet>, pad: Mask)
    requires InfluencesOn(rules, infl, l, pad)
    requires forall p :: p in w <==> (p in Matched(l, |pad|) &&
               forall u | u in rules && (u.id, l.id) in infl :: p !in Content(infl[(u.id, l.id)], |pad|))
    ensures w == Effective(rules, l, |pad|)
  {
    hide Content, IsInfluence;
    forall p ensures p in w <==> p in Effective(rules, l, |pad|) {
      if p in w {
        forall u | u in rules && u.priority > l.priority ensures p !in Matched(u, |pad|) {
          if (u.id, l.id) in infl { assert p !in Content(infl[(u.id, l.id)], |pad|); }
        }
      }
      if p in Effective(rules, l, |pad|) {
        forall u | u in rules && (u.id, l.id) in infl ensures p !in Content(infl[(u.id, l.id)], |pad|) {}
      }
    }
  }

  /** update_domain(): the rule's own domain minus its influences, which come from the
      rules of `view`. */
  method EffectiveDomain(rules: seq<Rule>, infl: Influences, l: Rule, ghost view: seq<Rule>, pad: Mask) returns (d: NetworkSpace)
    requires InfluencesOn(view, infl, l, pad) && IsMatch(l.domain, pad)
    requires forall u | u in view :: u in rules
    requires forall u | u in rules && (u.id, l.id) in infl :: u in view
    ensures IsDomain(d, pad) && d.port == l.domain.port && Content(d, |pad|) == Effective(view, l, |pad|)
  {
    hide Content, NsHas, IsPacket, AreTerms;
    ghost var n := |pad|;
    d := l.domain;
    for i := 0 to |rules|
      invariant IsDomain(d, pad) && d.port == l.domain.port
      invariant forall p :: p in Content(d, n) <==> (p in Matched(l, n) &&
                  forall k | 0 <= k < i && (rules[k].id, l.id) in infl :: p !in Content(infl[(rules[k].id, l.id)], n))
    {
      var key := (rules[i].id, l.id);
      if key in infl {
        assert rules[i] in view && InfluenceOk(infl[key], rules[i], l, pad);
        d := Subtract(d, infl[key], pad);
      }
    }
    forall p
      ensures p in Content(d, n) <==> (p in Matched(l, n) &&
                forall u | u in view && (u.id, l.id) in infl :: p !in Content(infl[(u.id, l.id)], n))
    {
      if p in Content(d, n) {
        forall u | u in view && (u.id, l.id) in infl ensures p !in Content(infl[(u.id, l.id)], n) {
          var k :| 0 <= k < |rules| && rules[k] == u;
        }
      }
    }
    RemainingIsEffective(view, infl, l, Content(d, n), pad);
  }

  /** Domains of one port: operator-= is the difference of their packets. */
  method Subtract(d: NetworkSpace, i: NetworkSpace, pad: Mask) returns (c: NetworkSpace)
    requires IsDomain(d, pad) && IsDomain(i, pad) && NoDiffs(i.header) && i.port == d.port
    ensures IsDomain(c, pad) && c.port == d.port && Content(c, |pad|) == Content(d, |pad|) - Content(i, |pad|)
  {
    hide IsPacket, AreTerms, Has;
    c := Minus(d, i, pad);
  }

  /** The influence of u on l, if and only if they share a packet. */
  method Influence(u: Rule, l: Rule, pad: Mask) returns (e: bool, d: NetworkSpace)
    requires IsMatch(u.domain, pad) && IsMatch(l.domain, pad) && u.domain.port == l.domain.port
    ensures e <==> Matched(u, |pad|) !! Matched(l, |pad|)
    ensures !e ==> InfluenceOk(d, u, l, pad)
  {
    hide Content, NsHas, IsPacket, AreTerms, FoundEmpty, Nonempty;
    var common := MeetDomains(u.domain, l.domain, pad);
    e, d := IsEmpty(common, pad);
    if e {
      Disjoint(Matched(u, |pad|), Matched(l, |pad|));
    } else {
      var p := NonemptyHas(d, pad);
      InContents(p, d, pad);
    }
  }

  lemma InContents(p: Packet, d: NetworkSpace, pad: Mask)
    requires IsPacket(p, |pad|) && NsHas(p, d)
    ensures p in Content(d, |pad|)
  {}

  /** Only influences on r change. */
  ghost predicate OnlyOn(i0: Influences, i1: Influences, r: nat)
  {
    forall u, l | l != r :: ((u, l) in i0 <==> (u, l) in i1) && ((u, l) in i0 ==> i1[(u, l)] == i0[(u, l)])
  }

  ghost predicate Known(infl: Influences, vs: Vertices)
  {
    forall u, l | (u, l) in infl :: u in vs && l in vs
  }

  predicate SameRules(vs: Vertices, ws: Vertices)
  {
    vs.Keys == ws.Keys && forall id | id in vs :: vs[id].rule == ws[id].rule
  }

  /** The first loop of add_in_edges: influences of the rules above position k. */
  method UpperInfluences(rules: seq<Rule>, k: nat, i0: Influences, vs: Vertices, pad: Mask) returns (infl: Influences)
    requires Sorted(rules) && k < |rules| && Known(i0, vs)
    requires forall r | r in rules :: IsMatch(r.domain, pad) && r.domain.port == rules[k].domain.port && r.id in vs && vs[r.id].rule == r
    requires forall u :: (u, rules[k].id) !in i0
    ensures OnlyOn(i0, infl, rules[k].id) && Known(infl, vs) && InfluencesOn(rules, infl, rules[k], pad)
  {
    hide IsMatch, InfluenceOk, Matched;
    var upper := UpperRules(rules, k);
    infl := i0;
    for j := 0 to |upper|
      invariant OnlyOn(i0, infl, rules[k].id) && Known(infl, vs)
      invariant forall u | u in rules ::
                  && ((u.id, rules[k].id) in infl ==> u in upper[..j] && InfluenceOk(infl[(u.id, rules[k].id)], u, rules[k], pad))
                  && ((u.id, rules[k].id) !in infl && u in upper[..j] ==> Matched(u, |pad|) !! Matched(rules[k], |pad|))
    {
      var u := upper[j];
      assert u in upper && upper[..j + 1] == upper[..j] + [u];
      var e, d := Influence(u, rules[k], pad);
      if !e { infl := infl[(u.id, rules[k].id) := d]; }
    }
    assert upper[..|upper|] == upper;
  }
}
