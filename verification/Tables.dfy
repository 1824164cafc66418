/** Flow tables (src/network/Switch.cpp) and what it means for a rule to match.

    A table keeps its rules in descending order of priority and, within a priority,
    of rule number, as std::map with std::greater does for the rule ids. */
module Tables {
  import opened NetworkSpaces

  datatype Kind = Flow | Source | Sink

  /** Where a rule sends its packets: to a table, to a port, to a special sink (drop,
      controller), or nowhere. Each rule has one action. */
  datatype Action =
    | NoAction
    | ToTable(table: nat, transfer: Transfer)
    | ToPort(port: nat, transfer: Transfer)
    | ToSink(sink: nat, transfer: Transfer)

  datatype Rule = Rule(id: nat, kind: Kind, table: nat, priority: nat, domain: NetworkSpace, action: Action)

  /** The packets of a domain. */
  ghost function Content(d: NetworkSpace, n: nat): iset<Packet>
  {
    iset p | IsPacket(p, n) && NsHas(p, d)
  }

  ghost function Matched(r: Rule, n: nat): iset<Packet>
  {
    Content(r.domain, n)
  }

  /** a precedes b in a table. */
  predicate Above(a: Rule, b: Rule)
  {
    a.priority > b.priority || (a.priority == b.priority && a.id > b.id)
  }

  predicate Sorted(rules: seq<Rule>)
  {
    forall i, j | 0 <= i < j < |rules| :: Above(rules[i], rules[j])
  }

  // --- upperRules, lowerRules ---

  /** upperRules(): from the rule upwards to the first one with a greater priority. */
  method UpperRules(rules: seq<Rule>, k: nat) returns (upper: seq<Rule>)
    requires Sorted(rules) && k < |rules|
    ensures forall r | r in rules :: r in upper <==> r.priority > rules[k].priority
    ensures forall r | r in upper :: r in rules
  {
    var j := k + 1;
    while j > 0 && rules[j - 1].priority <= rules[k].priority
      invariant 0 <= j <= k + 1
      invariant forall i | j <= i < |rules| :: rules[i].priority <= rules[k].priority
    {
      j := j - 1;
    }
    upper := rules[..j];
    assert forall i | 0 <= i < j :: rules[i].priority > rules[k].priority && upper[i] == rules[i];
  }

  /** lowerRules(): from the rule downwards to the first one with a smaller priority. */
  method LowerRules(rules: seq<Rule>, k: nat) returns (lower: seq<Rule>)
    requires Sorted(rules) && k < |rules|
    ensures forall r | r in rules :: r in lower <==> r.priority < rules[k].priority
    ensures forall r | r in lower :: r in rules
    ensures exists j | 0 <= j <= |rules| :: lower == rules[j..]
  {
    var j := k;
    while j < |rules| && rules[j].priority >= rules[k].priority
      invariant k <= j <= |rules|
      invariant forall i | 0 <= i < j :: rules[i].priority >= rules[k].priority
    {
      j := j + 1;
    }
    lower := rules[j..];
    assert forall i | j <= i < |rules| :: rules[i].priority < rules[k].priority && lower[i - j] == rules[i];
  }

  predicate Inserted(t: seq<Rule>, s: seq<Rule>, k: nat, d: Rule)
  {
    k <= |s| && t == s[..k] + [d] + s[k..]
  }

  /** Puts a rule at its place in the table. */
  method InsertRule(rules: seq<Rule>, r: Rule) returns (t: seq<Rule>, k: nat)
    requires Sorted(rules) && forall x | x in rules :: x.id != r.id
    ensures Inserted(t, rules, k, r) && k < |t| && t[k] == r && Sorted(t)
    ensures forall i, j | 0 <= i < j < |t| :: t[i].priority > t[j].priority || (t[i].priority == t[j].priority && t[i].id > t[j].id)
  {
    k := 0;
    while k < |rules| && Above(rules[k], r)
      invariant 0 <= k <= |rules| && forall i | 0 <= i < k :: Above(rules[i], r)
    {
      k := k + 1;
    }
    t := rules[..k] + [r] + rules[k..];
    forall i | k <= i < |rules| ensures Above(r, rules[i]) {
      assert rules[i] in rules && rules[k] in rules;
    }
  }

  // --- which rule a packet selects ---

  lemma Disjoint(a: iset<Packet>, b: iset<Packet>)
    requires a * b == iset{}
    ensures forall p | p in a :: p !in b
  {
    forall p | p in a ensures p !in b {
      assert p in b ==> p in a * b;
    }
  }

  /** The packets of r that no rule of a higher priority matches. */
  ghost function Effective(rules: seq<Rule>, r: Rule, n: nat): iset<Packet>
  {
    iset p | p in Matched(r, n) && forall u | u in rules && u.priority > r.priority :: p !in Matched(u, n)
  }

  /** Rules of one priority match no packet in common. */
  ghost predicate NoOverlaps(rules: seq<Rule>, n: nat)
  {
    forall i, j | 0 <= i < j < |rules| && rules[i].priority == rules[j].priority ::
      Matched(rules[i], n) !! Matched(rules[j], n)
  }

  /** The position of the rule that handles p: the first match from the top. */
  ghost function FirstMatch(rules: seq<Rule>, p: Packet, n: nat): (k: nat)
    ensures k <= |rules|
    ensures k < |rules| ==> p in Matched(rules[k], n)
    ensures forall i | 0 <= i < k :: p !in Matched(rules[i], n)
  {
    if rules == [] then 0
    else if p in Matched(rules[0], n) then 0
    else 1 + FirstMatch(rules[1..], p, n)
  }

  /** Section 5.3 of the OpenFlow Switch Specification 1.3: the highest-priority match
      is selected. It is the rule whose effective packets include p. */
  lemma EffectiveIsFirstMatch(rules: seq<Rule>, k: nat, p: Packet, n: nat)
    requires Sorted(rules) && NoOverlaps(rules, n) && k < |rules|
    ensures p in Effective(rules, rules[k], n) <==> FirstMatch(rules, p, n) == k
  {
    hide Content;
    var f := FirstMatch(rules, p, n);
    if p in Effective(rules, rules[k], n) {
      assert f >= k;
    }
    if f == k {
      forall u | u in rules && u.priority > rules[k].priority ensures p !in Matched(u, n) {
        var i :| 0 <= i < |rules| && rules[i] == u;
      }
    }
  }

  // --- what changes when a rule d joins the table ---

  /** Table t is table s with rule d. */
  ghost predicate Joins(t: seq<Rule>, s: seq<Rule>, d: Rule)
  {
    forall x :: x in t <==> x in s || x == d
  }

  /** Below d, a rule loses exactly what d takes. */
  lemma JoinLower(t: seq<Rule>, s: seq<Rule>, d: Rule, l: Rule, n: nat)
    requires Joins(t, s, d) && d.priority > l.priority
    ensures Effective(t, l, n) == Effective(s, l, n) - Effective(t, d, n)
    ensures Effective(s, l, n) * Matched(d, n) <= Effective(t, d, n)
    ensures Effective(t, l, n) !! Matched(d, n)
  {
    hide Content;
    forall p | p in Effective(s, l, n) && p in Matched(d, n) ensures p in Effective(t, d, n) {}
    forall p ensures p in Effective(t, l, n) <==> p in Effective(s, l, n) - Effective(t, d, n) {}
  }

  /** Elsewhere nothing changes. */
  lemma JoinOthers(t: seq<Rule>, s: seq<Rule>, d: Rule, l: Rule, n: nat)
    requires Joins(t, s, d)
    requires d.priority <= l.priority || Matched(d, n) !! Matched(l, n)
    ensures Effective(t, l, n) == Effective(s, l, n)
  {
    hide Content;
    forall p ensures p in Effective(t, l, n) <==> p in Effective(s, l, n) {}
  }

  /** Without d, what d took from a table that matches everything is taken by a lower rule. */
  lemma SomeLower(t: seq<Rule>, s: seq<Rule>, d: Rule, p: Packet, n: nat)
    requires Sorted(s) && Joins(t, s, d) && NoOverlaps(t, n) && d !in s
    requires p in Effective(t, d, n) && exists m :: m in s && p in Matched(m, n)
    ensures exists l :: l in s && l.priority < d.priority && p in Effective(s, l, n)
  {
    hide Content;
    var f := FirstMatch(s, p, n);
    var m :| m in s && p in Matched(m, n);
    var l := s[f];
    assert l in t && d in t;
    SamePriority(t, l, d, p, n);
    assert p in Effective(s, l, n) by {
      forall u | u in s && u.priority > l.priority ensures p !in Matched(u, n) {
        var i :| 0 <= i < |s| && s[i] == u;
      }
    }
  }

  lemma SamePriority(t: seq<Rule>, a: Rule, b: Rule, p: Packet, n: nat)
    requires NoOverlaps(t, n) && a in t && b in t && a != b && p in Matched(a, n) && p in Matched(b, n)
    ensures a.priority != b.priority
  {
    hide Content;
    var i :| 0 <= i < |t| && t[i] == a;
    var j :| 0 <= j < |t| && t[j] == b;
    if i < j { } else { assert j < i; }
  }
}
