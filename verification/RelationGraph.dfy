/**
 The neighbour relation the graph code sees: relationships indexed by source and
 by target, as the engine's adapters present them.
 */
module RelationGraph {
  import opened Collections
  import opened Walks

  datatype Relationship = Relationship(
    id: Id,
    sourceID: Id,
    targetID: Id,
    relType: string,
    weight: real
  )

  datatype RelStore = RelStore(outEdges: map<Id, seq<Relationship>>, inEdges: map<Id, seq<Relationship>>) {

    function GetOutgoing(e: Id): seq<Relationship> {
      if e in outEdges then outEdges[e] else []
    }

    function GetIncoming(e: Id): seq<Relationship> {
      if e in inEdges then inEdges[e] else []
    }

    function GetNeighbors(e: Id): seq<Relationship> {
      GetOutgoing(e) + GetIncoming(e)
    }

    /** Both indexes list the same relationships, each under the right endpoint. */
    ghost predicate Consistent() {
      && (forall e: Id, r :: e in outEdges && r in outEdges[e] ==> r.sourceID == e && r in GetIncoming(r.targetID))
      && (forall e: Id, r :: e in inEdges && r in inEdges[e] ==> r.targetID == e && r in GetOutgoing(r.sourceID))
    }

    /** One step along a relationship, in either direction. */
    ghost function Neighbourhood(): Edges {
      (set e: Id, r | e in outEdges && r in outEdges[e] :: (e, r.targetID)) +
      (set e: Id, r | e in inEdges && r in inEdges[e] :: (e, r.sourceID))
    }

    /** Every edge of the neighbourhood comes from a listed relationship. */
    lemma NeighbourhoodWitness(a: Id, b: Id) returns (r: Relationship, forward: bool)
      requires (a, b) in Neighbourhood()
      ensures forward ==> r in GetOutgoing(a) && r.targetID == b
      ensures !forward ==> r in GetIncoming(a) && r.sourceID == b
    {
      if (a, b) in (set e: Id, q | e in outEdges && q in outEdges[e] :: (e, q.targetID)) {
        var e: Id, q :| e in outEdges && q in outEdges[e] && (e, q.targetID) == (a, b);
        r, forward := q, true;
      } else {
        var e: Id, q :| e in inEdges && q in inEdges[e] && (e, q.sourceID) == (a, b);
        r, forward := q, false;
      }
    }

    /** With consistent indexes the neighbourhood is undirected. */
    lemma NeighbourhoodSymmetric()
      requires Consistent()
      ensures Symmetric(Neighbourhood())
    {
    }
  }
}
