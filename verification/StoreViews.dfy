/** What the graph code sees of a store's relationships, and the text of a relationship's key. */
module StoreViews {

  import opened Collections
  import opened Tables
  import StoreContents
  import opened StoreTables
  import RelationGraph
  import Walks

  // ---------------------------------------------------------------- the key as text

  const DIGITS: string := "0123456789"

  function Decimal(n: nat): (s: string)
    ensures |s| > 0 && '|' !in s
  {
    if n < 10 then [DIGITS[n]] else Decimal(n / 10) + [DIGITS[n % 10]]
  }

  function MakeRelKey(sourceID: Id, targetID: Id, kind: string): string {
    Decimal(sourceID) + "|" + Decimal(targetID) + "|" + kind
  }

  lemma {:induction false} DecimalInjective(m: nat, n: nat)
    requires Decimal(m) == Decimal(n)
    ensures m == n
    decreases m
  {
    var s, t := Decimal(m), Decimal(n);
    if m >= 10 {
      assert Decimal(m / 10) == s[..|s| - 1] && Decimal(n / 10) == t[..|t| - 1];
      DecimalInjective(m / 10, n / 10);
    }
  }

  function BarAt(s: string): nat {
    if s == "" || s[0] == '|' then 0 else 1 + BarAt(s[1..])
  }

  lemma {:induction false} BarAfter(a: string, b: string)
    requires '|' !in a
    ensures BarAt(a + "|" + b) == |a|
    decreases |a|
  {
    var s := a + "|" + b;
    if a != "" {
      assert s[0] == a[0] && a[0] in a && s[1..] == a[1..] + "|" + b;
      BarAfter(a[1..], b);
    }
  }

  /** Two texts that go on after their first bar agree before it and after it. */
  lemma SplitAtBar(a: string, b: string, c: string, d: string)
    requires '|' !in a && '|' !in c && a + "|" + b == c + "|" + d
    ensures a == c && b == d
  {
    var s := a + "|" + b;
    BarAfter(a, b);
    BarAfter(c, d);
    assert s[..|a|] == a && s[..|c|] == c;
    assert s[|a| + 1..] == b && s[|c| + 1..] == d;
  }

  /** Distinct source, target and type have distinct keys, whatever characters the type has. */
  lemma RelKeyInjective(s1: Id, t1: Id, k1: string, s2: Id, t2: Id, k2: string)
    requires MakeRelKey(s1, t1, k1) == MakeRelKey(s2, t2, k2)
    ensures s1 == s2 && t1 == t2 && k1 == k2
  {
    var rest1, rest2 := Decimal(t1) + "|" + k1, Decimal(t2) + "|" + k2;
    assert MakeRelKey(s2, t2, k2) == Decimal(s2) + "|" + rest2;
    SplitAtBar(Decimal(s1), rest1, Decimal(s2), rest2);
    SplitAtBar(Decimal(t1), k1, Decimal(t2), k2);
    DecimalInjective(s1, s2);
    DecimalInjective(t1, t2);
  }

  // ---------------------------------------------------------------- the neighbour relation

  function Seen(t: RelationshipTable, weigh: Float32 -> real, id: Id): RelationGraph.Relationship
    requires id in t.rows
  {
    var r := t.rows[id];
    RelationGraph.Relationship(id, r.sourceID, r.targetID, r.kind, weigh(r.weight))
  }

  /** The relationships behind a list of ids. */
  function SeenAll(t: RelationshipTable, weigh: Float32 -> real, ids: seq<Id>): (rels: seq<RelationGraph.Relationship>)
    requires forall i: Id :: i in ids ==> i in t.rows
    ensures |rels| == |ids| && forall i :: 0 <= i < |ids| ==> rels[i] == Seen(t, weigh, ids[i])
  {
    seq(|ids|, (i: nat) requires i < |ids| => Seen(t, weigh, ids[i]))
  }

  /** The store as the graph traversals see it. */
  function View(t: RelationshipTable, weigh: Float32 -> real): RelationGraph.RelStore
    requires forall e: Id, i: Id :: e in t.outEdges && i in t.outEdges[e] ==> i in t.rows
    requires forall e: Id, i: Id :: e in t.inEdges && i in t.inEdges[e] ==> i in t.rows
  {
    RelationGraph.RelStore(map e: Id | e in t.outEdges :: SeenAll(t, weigh, t.outEdges[e]),
                           map e: Id | e in t.inEdges :: SeenAll(t, weigh, t.inEdges[e]))
  }

  lemma EdgesLive(t: RelationshipTable)
    requires RelationshipsOk(t)
    ensures forall e: Id, i: Id :: e in t.outEdges && i in t.outEdges[e] ==>
      i in t.rows && t.rows[i].sourceID == e
    ensures forall e: Id, i: Id :: e in t.inEdges && i in t.inEdges[e] ==>
      i in t.rows && t.rows[i].targetID == e
    ensures forall i: Id :: i in t.rows ==>
      && t.rows[i].sourceID in t.outEdges && i in t.outEdges[t.rows[i].sourceID]
      && t.rows[i].targetID in t.inEdges && i in t.inEdges[t.rows[i].targetID]
  {
    hide IsIndex;
  }

  lemma OutgoingIsIncoming(t: RelationshipTable, weigh: Float32 -> real, e: Id, r: RelationGraph.Relationship)
    requires RelationshipsOk(t) && e in View(t, weigh).outEdges && r in View(t, weigh).outEdges[e]
    ensures r.sourceID == e && r in View(t, weigh).GetIncoming(r.targetID)
  {
    hide RelationshipsOk;
    EdgesLive(t);
    var v := View(t, weigh);
    var k :| 0 <= k < |t.outEdges[e]| && v.outEdges[e][k] == r;
    var i := t.outEdges[e][k];
    assert r == Seen(t, weigh, i) && i in t.inEdges[r.targetID];
    var j :| 0 <= j < |t.inEdges[r.targetID]| && t.inEdges[r.targetID][j] == i;
    assert v.inEdges[r.targetID][j] == r;
  }

  lemma IncomingIsOutgoing(t: RelationshipTable, weigh: Float32 -> real, e: Id, r: RelationGraph.Relationship)
    requires RelationshipsOk(t) && e in View(t, weigh).inEdges && r in View(t, weigh).inEdges[e]
    ensures r.targetID == e && r in View(t, weigh).GetOutgoing(r.sourceID)
  {
    hide RelationshipsOk;
    EdgesLive(t);
    var v := View(t, weigh);
    var k :| 0 <= k < |t.inEdges[e]| && v.inEdges[e][k] == r;
    var i := t.inEdges[e][k];
    assert r == Seen(t, weigh, i) && i in t.outEdges[r.sourceID];
    var j :| 0 <= j < |t.outEdges[r.sourceID]| && t.outEdges[r.sourceID][j] == i;
    assert v.outEdges[r.sourceID][j] == r;
  }

  /**
   A store whose indexes are right gives the traversals consistent edge lists, so the
   neighbour relation they walk is symmetric: outgoing edges of one end are incoming of the other.
   */
  lemma ViewIsConsistent(t: RelationshipTable, weigh: Float32 -> real)
    requires RelationshipsOk(t)
    ensures (forall e: Id, i: Id :: e in t.outEdges && i in t.outEdges[e] ==> i in t.rows)
    ensures (forall e: Id, i: Id :: e in t.inEdges && i in t.inEdges[e] ==> i in t.rows)
    ensures View(t, weigh).Consistent() && Walks.Symmetric(View(t, weigh).Neighbourhood())
  {
    EdgesLive(t);
    hide RelationshipsOk, View;
    var v := View(t, weigh);
    forall e: Id, r | e in v.outEdges && r in v.outEdges[e]
      ensures r.sourceID == e && r in v.GetIncoming(r.targetID)
    {
      OutgoingIsIncoming(t, weigh, e, r);
    }
    forall e: Id, r | e in v.inEdges && r in v.inEdges[e]
      ensures r.targetID == e && r in v.GetOutgoing(r.sourceID)
    {
      IncomingIsOutgoing(t, weigh, e, r);
    }
    v.NeighbourhoodSymmetric();
  }
}
