/** A source rule and a sink rule with links between them: the smallest network in which
    the forest of src/flow_predictor/FlowPredictor.cpp has a path. A link that is added
    after a narrower one is passed over by is_existing_child(), and headers are missed. */
module SmallNetworks {
  import opened Words
  import opened Masks
  import opened HeaderLists
  import opened HeaderChangers
  import opened RewriteWords
  import opened Rewriting
  import opened NetworkSpaces
  import opened Tables
  import opened Edges
  import opened Forests
  import opened ForestGrowth
  import opened SubtreeGrowth
  import opened SubtreeRemoval
  import opened PathCounters
  import opened Coverings
  import opened FlowPredictors
  import OutOfTurn

  /** The headers of m at every port. */
  function Space(m: Mask): NetworkSpace
  {
    NetworkSpace(ANY, [Term(m, [])])
  }

  function Ends(n: nat): Rules
  {
    map[0 := Rule(0, Source, 0, 0, Space(AllX(n)), NoAction), 1 := Rule(1, Sink, 0, 0, Space(AllX(n)), NoAction)]
  }

  function Link(m: Mask, pad: Mask): Edge
  {
    Edge(0, 1, IdentityTransfer(pad), Space(m))
  }

  lemma SpaceHas(h: Mask, m: Mask)
    ensures Has(h, Space(m).header) <==> In(h, m)
  {
    hide In;
    assert Space(m).header[0] == Term(m, []);
  }

  lemma SpaceIsMatch(m: Mask, pad: Mask)
    requires IsPad(pad) && IsMask(m, pad)
    ensures IsMatch(Space(m), pad)
  {
    hide IsPad, IsMask;
  }

  /** Nothing is rewritten, so every mask lies in the image. */
  lemma KeepsAll(m: Mask, c: Changer, pad: Mask)
    requires IsChanger(c, pad) && c.identity && |m| == |pad|
    ensures InImage([Term(m, [])], c)
  {
    hide Extra, Words.And, Not, Keep, ExactWhenSet, IsPad;
    forall i | 0 <= i < |m| ensures Extra(Words.And(m[i], Not(Keep(c.mask[i]))), c.rewrite[i]) == 0 {
      KeepsWord(m[i], Keep(c.mask[i]), c.rewrite[i]);
    }
  }

  lemma KeepsWord(w: Word, keep: Word, r: Word)
    requires keep == !0
    ensures Extra(Words.And(w, Not(keep)), r) == 0
  {}

  lemma LinkOk(m: Mask, pad: Mask)
    requires IsPad(pad) && IsMask(m, pad)
    ensures RulesOk(Ends(|pad|), pad) && EdgeOk(Link(m, pad), Ends(|pad|), pad)
  {
    hide IsPad, IsChanger, InImage, PortTransfer, AllX;
    AllXIsMask(pad);
    SpaceIsMatch(m, pad);
    SpaceIsMatch(AllX(|pad|), pad);
    PortTransferKeeps(NONE, pad, pad);
    AllXKeeps(NONE, pad);
    KeepsAll(m, IdentityTransfer(pad).changer, pad);
  }

  /** What passes a link. */
  lemma LinkPasses(h: Mask, m: Mask, pad: Mask)
    requires IsPad(pad) && IsMask(m, pad) && IsHeader(h, |pad|)
    ensures Fitting(Link(m, pad).transfer, |h|) && Push(h, Link(m, pad).transfer) == h
    ensures Passes(h, Ends(|pad|)[0], Link(m, pad), Space(AllX(|pad|))) <==> In(h, m)
  {
    hide IsPad, IsMask, In, Exact, PortTransfer, AllX, IsChanger, ApplyHeader;
    AllXIsMask(pad);
    PortTransferKeeps(NONE, h, pad);
    ChangerFits(IdentityTransfer(pad).changer, pad);
    SpaceHas(h, m);
    SpaceHas(h, AllX(|pad|));
  }

  lemma LinksFit(links: EdgeMap, pad: Mask)
    requires IsPad(pad) && forall id | id in links :: id < 2 && exists m :: IsMask(m, pad) && links[id] == Link(m, pad)
    ensures FlowGraph(Ends(|pad|), links, pad) && EdgesOk(links, 2, Ends(|pad|), pad) && Acyclic(links, map[0 := 0, 1 := 1])
    ensures PortsFit(Ends(|pad|), links)
  {
    hide IsPad, IsMask, EdgeOk, RulesOk, HeadersApart, IdentityTransfer, AllX;
    AllXIsMask(pad);
    LinkOk(AllX(|pad|), pad);
    forall id | id in links ensures EdgeOk(links[id], Ends(|pad|), pad) && links[id].src == 0 && links[id].dst == 1 {
      var m :| IsMask(m, pad) && links[id] == Link(m, pad);
      LinkOk(m, pad);
    }
  }

  /** The run of OutOfTurn.RunOutOfTurn happens in this network. */
  lemma OneLink(pad: Mask)
    requires IsPad(pad)
    ensures OutOfTurn.OneEdge(Link(AllX(|pad|), pad), Ends(|pad|), pad)
  {
    hide IsPad, IsMask, FlowGraph, EdgesOk, Acyclic, PortsFit, AllX, IdentityTransfer, Passes;
    AllXIsMask(pad);
    LinksFit(map[0 := Link(AllX(|pad|), pad)], pad);
    AllXHasNoZ(|pad|);
    var h := PickHeader(AllX(|pad|));
    PickHeaderIn(AllX(|pad|));
    LinkPasses(h, AllX(|pad|), pad);
  }

  lemma AllXHasNoZ(n: nat)
    ensures |AllX(n)| == n && NoZ(AllX(n))
  {}

  // --- a wider link after a narrower one ---

  /** A node of the source below the only root, grown along a link that does not carry h. */
  ghost predicate Narrow(f: Forest, c: nat, h: Mask)
  {
    && Live(f.nodes, 0) && f.nodes[0].rule == 1 && f.nodes[0].parent == 0
    && Live(f.nodes, c) && f.nodes[c].rule == 0 && f.nodes[c].parent == 0 && c != 0 && !Has(h, f.nodes[c].domain.header)
  }

  lemma NarrowStays(f: Forest, g: Forest, c: nat, h: Mask)
    requires Narrow(f, c, h) && CountsNothingNew(f, g) && SameLives(f, g)
    ensures Narrow(g, c, h)
  {
    hide Has;
  }

  /** A source has one node below the root, so what this node lacks is not covered. */
  lemma NarrowMisses(f: Forest, via: Vias, edges: EdgeMap, c: nat, h: Mask, pad: Mask)
    requires PredictorOk(f, via, Ends(|pad|), edges, pad) && (forall id | id in edges :: edges[id].dst == 1) && Narrow(f, c, h)
    ensures !InLiveNode(f.nodes, 0, h)
  {
    hide NodesOk, MappingOk, ChildrenOk, ParentsOk, PathsOk, SourcesHavePaths, Has, AllX;
    forall b ensures !Covers(f.nodes, b, 0, h) {
      if Live(f.nodes, b) && f.nodes[b].rule == 0 {
        ChainFacts(f, via, Ends(|pad|), b, pad);
        var id := GrownAlong(f.nodes, f.mapping, via, edges, b);
        ViaEnds(f, via, Ends(|pad|), b, pad);
        ChainFacts(f, via, Ends(|pad|), f.nodes[b].parent, pad);
        OnlyChild(f.nodes, f.mapping, 0, b, c);
      }
    }
  }

  /** After the first link the forest has the root and one node below it. */
  lemma FirstLink(f: Forest, via: Vias, m: Mask, h: Mask, pad: Mask) returns (c: nat)
    requires IsPad(pad) && IsMask(m, pad) && IsHeader(h, |pad|) && !In(h, m)
    requires PredictorOk(f, via, Ends(|pad|), map[0 := Link(m, pad)], pad) && Live(f.nodes, 0) && f.nodes[0].rule == 1
    requires HandledAt(f.nodes, Ends(|pad|), 0, Link(m, pad), |pad|)
    ensures Narrow(f, c, h)
  {
    hide IsPad, IsMask, NodesOk, MappingOk, ParentsOk, RootsOk, PathsOk, SourcesHavePaths, AllX, IdentityTransfer, In, Has, Passes, NoPreimage;
    ChainFacts(f, via, Ends(|pad|), 0, pad);
    RootSpace(f, via, pad);
    SomethingPasses(m, pad);
    c :| c in f.nodes[0].children && c in f.nodes && f.nodes[c].rule == 0;
    assert ChildrenAt(f.nodes, 0);
    var id := GrownAlong(f.nodes, f.mapping, via, map[0 := Link(m, pad)], c);
    ChildHas(f.nodes, via, Ends(|pad|), c, h, pad);
    LinkPasses(h, m, pad);
  }

  lemma RootSpace(f: Forest, via: Vias, pad: Mask)
    requires ForestOk(f, via, Ends(|pad|), pad) && 0 in f.nodes && f.nodes[0].rule == 1 && f.nodes[0].parent == 0
    ensures f.nodes[0].domain == Space(AllX(|pad|))
  {
    hide ListsOk, PathsOk, ChildAt, AllX;
    assert NodeAt(f.nodes, via, Ends(|pad|), 0, pad);
  }

  lemma SomethingPasses(m: Mask, pad: Mask)
    requires IsPad(pad) && IsMask(m, pad)
    ensures !NoPreimage(Link(m, pad), Ends(|pad|)[0], Space(AllX(|pad|)), |pad|)
  {
    hide IsPad, AllX, IdentityTransfer, Passes, In, Extra, HasZ, Pick, Exact;
    var h := PickHeader(m);
    PickHeaderIn(m);
    LinkPasses(h, m, pad);
  }

  /** h flows along the wide link. */
  lemma WideFlows(m: Mask, h: Mask, edges: EdgeMap, pad: Mask)
    requires IsPad(pad) && IsMask(m, pad) && IsHeader(h, |pad|) && FlowGraph(Ends(|pad|), edges, pad)
    requires 1 in edges && edges[1] == Link(m, pad) && In(h, m)
    ensures Flows(Ends(|pad|), edges, 0, h, [1], pad)
  {
    hide IsPad, IsMask, IsHeader, FlowGraph, AllX, IdentityTransfer, In, Has, Push;
    LinkPasses(h, m, pad);
    SpaceHas(h, m);
    assert [1][1..] == [];
    assert Flows(Ends(|pad|), edges, 1, h, [], pad);
  }

  /** From the constructor on: a link for m, then a link for all headers. All edges are
      handled, but the headers outside m, which flow along the second link, are missed. */
  method MissedHeader(m: Mask, h: Mask, pad: Mask) returns (p: FlowPredictor)
    requires IsPad(pad) && IsMask(m, pad) && IsHeader(h, |pad|) && !In(h, m)
    ensures p.Valid() && p.pad == pad && p.rules == Ends(|pad|) && p.edges == map[0 := Link(m, pad), 1 := Link(AllX(|pad|), pad)]
    ensures p.handled == p.edges.Keys && PortsFit(p.rules, p.edges)
    ensures Flows(p.rules, p.edges, 0, h, [1], pad) && !InLiveNode(p.forest.nodes, 0, h)
  {
    hide IsPad, IsMask, In, IsHeader, Has, AllX, IdentityTransfer, FlowGraph, EdgesOk, Acyclic, PredictorOk, CountersOk, Handles, Rooted,
         NewPaths, CountsNothingNew, SameLives, Done, HandledAt, Link, Forests.RulesOk, PortsFit, Flows, InLiveNode;
    ghost var all := AllX(|pad|);
    AllXIsMask(pad);
    LinkOk(m, pad);
    p := new FlowPredictor(pad, Ends(|pad|));
    var narrow := map[0 := Link(m, pad)];
    LinksFit(narrow, pad);
    p.SetEdges(narrow, 2, map[0 := 0, 1 := 1]);
    LinkEnds(m, pad);
    p.AddEdge(0, 0);
    ghost var c := FirstLink(p.forest, p.via, m, h, pad);
    var wide := map[0 := Link(m, pad), 1 := Link(AllX(|pad|), pad)];
    LinksFit(wide, pad);
    p.SetEdges(wide, 2, map[0 := 0, 1 := 1]);
    ghost var f := p.forest;
    p.AddEdge(1, 0);
    NarrowStays(f, p.forest, c, h);
    LinkEnds(all, pad);
    NarrowMisses(p.forest, p.via, wide, c, h, pad);
    WideFlows(all, h, wide, pad);
    assert p.handled == p.edges.Keys;
  }

  lemma LinkEnds(m: Mask, pad: Mask)
    ensures Link(m, pad).src == 0 && Link(m, pad).dst == 1
  {}
}
