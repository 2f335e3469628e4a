/**
 Directed edge sets, walks of a given length and exact distances: the reference
 notions the graph traversals are proved against.
 */
module Walks {
  import opened Collections

  type Edges = set<(Id, Id)>

  /** `v` can be reached from some member of `from` by a walk of exactly `n` edges. */
  ghost predicate Walk(edges: Edges, from: set<Id>, v: Id, n: nat)
    decreases n
  {
    if n == 0 then v in from
    else exists u: Id :: Walk(edges, from, u, n - 1) && (u, v) in edges
  }

  /** `d` is the length of a shortest walk from `from` to `v`. */
  ghost predicate IsDistance(edges: Edges, from: set<Id>, v: Id, d: nat) {
    && Walk(edges, from, v, d)
    && forall m: nat :: m < d ==> !Walk(edges, from, v, m)
  }

  ghost predicate Reachable(edges: Edges, from: set<Id>, v: Id) {
    exists n: nat :: Walk(edges, from, v, n)
  }

  ghost predicate Symmetric(edges: Edges) {
    forall u: Id, v: Id :: (u, v) in edges ==> (v, u) in edges
  }

  lemma WalkStep(edges: Edges, from: set<Id>, u: Id, v: Id, n: nat)
    requires Walk(edges, from, u, n) && (u, v) in edges
    ensures Walk(edges, from, v, n + 1)
  {
  }

  /** Walks compose end to end. */
  lemma {:induction false} WalkCompose(edges: Edges, from: set<Id>, u: Id, m: nat, v: Id, n: nat)
    requires Walk(edges, from, u, m) && Walk(edges, {u}, v, n)
    ensures Walk(edges, from, v, m + n)
    decreases n
  {
    if n > 0 {
      var w: Id :| Walk(edges, {u}, w, n - 1) && (w, v) in edges;
      WalkCompose(edges, from, u, m, w, n - 1);
    }
  }

  /** In a symmetric edge set a walk can be followed backwards. */
  lemma {:induction false} WalkReverse(edges: Edges, u: Id, v: Id, n: nat)
    requires Symmetric(edges) && Walk(edges, {u}, v, n)
    ensures Walk(edges, {v}, u, n)
    decreases n
  {
    if n > 0 {
      var w: Id :| Walk(edges, {u}, w, n - 1) && (w, v) in edges;
      WalkReverse(edges, u, w, n - 1);
      WalkCompose(edges, {v}, w, 1, u, n - 1);
    }
  }

  /** A set closed under the edges and containing the start holds every reachable node. */
  lemma {:induction false} WalkStaysInside(edges: Edges, from: set<Id>, inside: set<Id>, v: Id, n: nat)
    requires from <= inside
    requires forall a: Id, b: Id :: (a, b) in edges && a in inside ==> b in inside
    requires Walk(edges, from, v, n)
    ensures v in inside
    decreases n
  {
    if n > 0 {
      var w: Id :| Walk(edges, from, w, n - 1) && (w, v) in edges;
      WalkStaysInside(edges, from, inside, w, n - 1);
    }
  }

  lemma ReachStart(edges: Edges, from: set<Id>, v: Id)
    requires v in from
    ensures Reachable(edges, from, v)
  {
    assert Walk(edges, from, v, 0);
  }

  lemma ReachStep(edges: Edges, from: set<Id>, u: Id, v: Id)
    requires Reachable(edges, from, u) && (u, v) in edges
    ensures Reachable(edges, from, v)
  {
    var n: nat :| Walk(edges, from, u, n);
    WalkStep(edges, from, u, v, n);
  }

  lemma ReachCompose(edges: Edges, from: set<Id>, u: Id, v: Id)
    requires Reachable(edges, from, u) && Reachable(edges, {u}, v)
    ensures Reachable(edges, from, v)
  {
    var m: nat :| Walk(edges, from, u, m);
    var n: nat :| Walk(edges, {u}, v, n);
    WalkCompose(edges, from, u, m, v, n);
  }

  lemma ReachReverse(edges: Edges, u: Id, v: Id)
    requires Symmetric(edges) && Reachable(edges, {u}, v)
    ensures Reachable(edges, {v}, u)
  {
    var n: nat :| Walk(edges, {u}, v, n);
    WalkReverse(edges, u, v, n);
  }

  lemma ReachStaysInside(edges: Edges, from: set<Id>, inside: set<Id>, v: Id)
    requires from <= inside
    requires forall a: Id, b: Id :: (a, b) in edges && a in inside ==> b in inside
    requires Reachable(edges, from, v)
    ensures v in inside
  {
    var n: nat :| Walk(edges, from, v, n);
    WalkStaysInside(edges, from, inside, v, n);
  }
}
