/** EdgeInstaller of src/network/DependencyGraph.cpp: adds, updates and removes the edges
    of the rule graph (src/network/Graph.hpp). */
module EdgeInstallers {
  import opened Options
  import opened Masks
  import opened NetworkSpaces
  import opened Tables
  import opened Edges

  /** An edge that carries all that should flow between two vertices. */
  ghost predicate ExactEdge(e: Edge, src: Vertex, dst: Vertex, t: Transfer, pad: Mask)
  {
    && e.src == src.rule.id && e.dst == dst.rule.id && e.transfer == t && IsTransfer(t, pad)
    && IsDomain(e.domain, pad) && EdgeShape(e.domain, t, src.rule, dst.rule)
    && Content(e.domain, |pad|) == Flowing(src, dst, t, pad) && Nonempty(e.domain)
  }

  /** What addEdge does with the edges: nothing, if nothing should flow. */
  ghost predicate Added(e0: EdgeMap, e1: EdgeMap, id: nat, src: Vertex, dst: Vertex, t: Transfer, pad: Mask)
    requires IsTransfer(t, pad)
  {
    || (e1 == e0 && Flowing(src, dst, t, pad) == iset{})
    || (id in e1 && e1 == e0[id := e1[id]] && ExactEdge(e1[id], src, dst, t, pad))
  }

  /** What updateEdge does: the edge becomes exact or, if it is found empty, it is marked. */
  ghost predicate Updated(e0: EdgeMap, d0: set<nat>, e1: EdgeMap, d1: set<nat>, id: nat, src: Vertex, dst: Vertex, pad: Mask)
    requires id in e0 && IsTransfer(e0[id].transfer, pad)
  {
    || (d1 == d0 && id in e1 && e1 == e0[id := e1[id]] && ExactEdge(e1[id], src, dst, e0[id].transfer, pad))
    || (d1 == d0 + {id} && e1 == e0 && Flowing(src, dst, e0[id].transfer, pad) == iset{})
  }

  predicate NoEdge(e: EdgeMap, src: nat, dst: nat)
  {
    forall k | k in e :: !(e[k].src == src && e[k].dst == dst)
  }

  /** The oldest of the edges from src to dst. */
  predicate OldestEdge(e: EdgeMap, src: nat, dst: nat, id: nat)
  {
    id in e && e[id].src == src && e[id].dst == dst && forall k | k in e && k < id :: !(e[k].src == src && e[k].dst == dst)
  }

  class EdgeInstaller {
    const pad: Mask

    /** The edges by the order of their creation. */
    var edges: EdgeMap
    var nextEdge: nat

    /** Edges found empty; they stay in the graph until the end of the operation. */
    var emptyEdges: set<nat>

    constructor (pad: Mask)
      ensures this.pad == pad && edges == map[] && emptyEdges == {} && Valid()
    {
      this.pad, edges, nextEdge, emptyEdges := pad, map[], 0, {};
    }

    predicate Valid()
      reads this
    {
      (forall id | id in edges :: id < nextEdge) && emptyEdges <= edges.Keys
    }

    method AddEdge(src: Vertex, dst: Vertex, t: Transfer)
      requires Valid() && VertexOk(src, pad) && VertexOk(dst, pad) && IsTransfer(t, pad)
      modifies this`edges, this`nextEdge
      ensures Valid() && old(nextEdge) <= nextEdge
      ensures Added(old(edges), edges, old(nextEdge), src, dst, t, pad)
    {
      hide Content, Img, IsTransfer, IsMatch, IsDomain, Nonempty;
      var e, domain := EdgeDomain(src.rule.domain, dst.domain, t, pad);
      if !e {
        edges := edges[nextEdge := Edge(src.rule.id, dst.rule.id, t, domain)];
        nextEdge := nextEdge + 1;
      }
    }

    method UpdateEdge(id: nat, src: Vertex, dst: Vertex)
      requires Valid() && id in edges && edges[id].src == src.rule.id && edges[id].dst == dst.rule.id
      requires VertexOk(src, pad) && VertexOk(dst, pad) && IsTransfer(edges[id].transfer, pad)
      modifies this`edges, this`emptyEdges
      ensures Valid() && Updated(old(edges), old(emptyEdges), edges, emptyEdges, id, src, dst, pad)
    {
      hide Content, Img, IsTransfer, IsMatch, IsDomain, Nonempty;
      var e, domain := EdgeDomain(src.rule.domain, dst.domain, edges[id].transfer, pad);
      if !e {
        edges := edges[id := edges[id].(domain := domain)];
      } else {
        emptyEdges := emptyEdges + {id};
      }
    }

    /** Graph::edge(): the oldest edge from src to dst. */
    method FindEdge(src: nat, dst: nat) returns (found: Option<nat>)
      requires Valid()
      ensures found.None? ==> NoEdge(edges, src, dst)
      ensures found.Some? ==> OldestEdge(edges, src, dst, found.value)
    {
      for id := 0 to nextEdge
        invariant forall k | k in edges && k < id :: !(edges[k].src == src && edges[k].dst == dst)
      {
        if id in edges && edges[id].src == src && edges[id].dst == dst { return Some(id); }
      }
      found := None;
    }

    method DeleteOutEdges(src: nat)
      requires Valid()
      modifies this`edges, this`emptyEdges
      ensures Valid() && forall id :: id in edges <==> id in old(edges) && old(edges)[id].src != src
      ensures (forall id | id in edges :: edges[id] == old(edges)[id]) && forall id :: id in emptyEdges <==> id in old(emptyEdges) && id in edges
    {
      edges := map id | id in edges && edges[id].src != src :: edges[id];
      emptyEdges := emptyEdges * edges.Keys;
    }

    method DeleteInEdges(dst: nat)
      requires Valid()
      modifies this`edges, this`emptyEdges
      ensures Valid() && forall id :: id in edges <==> id in old(edges) && old(edges)[id].dst != dst
      ensures (forall id | id in edges :: edges[id] == old(edges)[id]) && forall id :: id in emptyEdges <==> id in old(emptyEdges) && id in edges
    {
      edges := map id | id in edges && edges[id].dst != dst :: edges[id];
      emptyEdges := emptyEdges * edges.Keys;
    }

    method ClearEmptyEdges()
      requires Valid()
      modifies this`edges, this`emptyEdges
      ensures Valid() && emptyEdges == {} && forall id :: id in edges <==> id in old(edges) && id !in old(emptyEdges)
      ensures forall id | id in edges :: edges[id] == old(edges)[id]
    {
      edges, emptyEdges := edges - emptyEdges, {};
    }
  }

  lemma IdsBelow(inst: EdgeInstaller)
    requires inst.Valid()
    ensures forall id | id in inst.edges :: id < inst.nextEdge
  {}
}
