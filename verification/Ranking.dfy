/**
 Scored results: sorting by descending score and what it means for a list to be the
 top `k` of a set of candidates.
 */
module Ranking {
  import opened Collections

  datatype Scored = Scored(id: Id, score: real)

  ghost predicate Descending(s: seq<Scored>) {
    forall i, j :: 0 <= i < j < |s| ==> s[j].score <= s[i].score
  }

  ghost predicate DistinctIds(s: seq<Scored>) {
    forall i, j :: 0 <= i < j < |s| ==> s[i].id != s[j].id
  }

  /** Each candidate of the list once, with its score, and no others. */
  ghost predicate Enumerates(s: seq<Scored>, members: set<Id>, f: Id -> real) {
    && DistinctIds(s)
    && (forall i :: 0 <= i < |s| ==> s[i].id in members && s[i].score == f(s[i].id))
    && |s| == |members|
  }

  ghost function IdSet(s: seq<Scored>): set<Id> {
    set i | 0 <= i < |s| :: s[i].id
  }

  /** `results` are `k` best of `members` (all, if there are fewer), best first; ties fall either way. */
  ghost predicate TopK(results: seq<Scored>, members: set<Id>, f: Id -> real, k: nat) {
    && |results| == (if k <= |members| then k else |members|)
    && DistinctIds(results) && Descending(results)
    && (forall i :: 0 <= i < |results| ==> results[i].id in members && results[i].score == f(results[i].id))
    && (forall v: Id, i :: v in members && v !in IdSet(results) && 0 <= i < |results| ==> f(v) <= results[i].score)
  }

  lemma {:induction false} IdSetSize(s: seq<Scored>)
    requires DistinctIds(s)
    ensures |IdSet(s)| == |s|
    decreases |s|
  {
    if s != [] {
      var n := |s| - 1;
      IdSetSize(s[..n]);
      assert IdSet(s) == IdSet(s[..n]) + {s[n].id};
    }
  }

  lemma EnumeratesAll(s: seq<Scored>, members: set<Id>, f: Id -> real)
    requires Enumerates(s, members, f)
    ensures IdSet(s) == members
  {
    IdSetSize(s);
    SubsetSize(IdSet(s), members);
  }

  /** Two top-`k` lists of the same candidates show the same scores, place by place. */
  lemma TopScoresAgree(a: seq<Scored>, b: seq<Scored>, members: set<Id>, f: Id -> real, k: nat)
    requires TopK(a, members, f, k) && TopK(b, members, f, k)
    ensures |a| == |b| && forall i :: 0 <= i < |a| ==> a[i].score == b[i].score
  {
    forall i: nat | i < |a|
      ensures a[i].score == b[i].score
    {
      NoHigher(a, b, members, f, k, i);
      NoHigher(b, a, members, f, k, i);
    }
  }

  /** The first `i + 1` entries of `a` cannot all beat entry `i` of `b`. */
  lemma NoHigher(a: seq<Scored>, b: seq<Scored>, members: set<Id>, f: Id -> real, k: nat, i: nat)
    requires TopK(a, members, f, k) && TopK(b, members, f, k) && i < |a| == |b|
    ensures a[i].score <= b[i].score
  {
    if a[i].score > b[i].score {
      var head := IdSet(a[..i + 1]);
      IdSetSize(a[..i + 1]);
      IdSetSize(b[..i]);
      SubsetSize(head, IdSet(b[..i]));
    }
  }

  /** Ranks pairwise distinct scores the same way, so the ids agree as well. */
  lemma TopIdsAgree(a: seq<Scored>, b: seq<Scored>, members: set<Id>, f: Id -> real, k: nat)
    requires TopK(a, members, f, k) && TopK(b, members, f, k)
    requires forall u: Id, v: Id :: u in members && v in members && f(u) == f(v) ==> u == v
    ensures a == b
  {
    TopScoresAgree(a, b, members, f, k);
  }

  /** A sorted enumeration cut after `k` entries is a top `k`. */
  lemma PrefixIsTopK(sorted: seq<Scored>, members: set<Id>, f: Id -> real, k: nat)
    requires Enumerates(sorted, members, f) && Descending(sorted)
    ensures TopK(sorted[..if k <= |sorted| then k else |sorted|], members, f, k)
  {
    EnumeratesAll(sorted, members, f);
  }

  lemma {:induction false} Best(s: seq<Scored>) returns (m: nat)
    requires |s| > 0
    ensures m < |s| && forall i :: 0 <= i < |s| ==> s[i].score <= s[m].score
    decreases |s|
  {
    m := |s| - 1;
    if |s| > 1 {
      var m' := Best(s[..|s| - 1]);
      if s[m'].score > s[m].score {
        m := m';
      }
    }
  }

  /** Library sort by descending score: a permutation, ties in any order. */
  lemma TakenOut(s: seq<Scored>, m: nat)
    requires m < |s|
    ensures multiset(s) == multiset(s[..m] + s[m + 1..]) + multiset{s[m]}
    ensures forall p :: p in s[..m] + s[m + 1..] ==> p in s
  {
    assert s == s[..m] + [s[m]] + s[m + 1..];
  }

  method SortByScore(s: seq<Scored>) returns (sorted: seq<Scored>)
    ensures multiset(sorted) == multiset(s) && |sorted| == |s| && Descending(sorted)
  {
    sorted := [];
    var rest := s;
    while |rest| > 0
      invariant multiset(sorted) + multiset(rest) == multiset(s)
      invariant |sorted| + |rest| == |s|
      invariant Descending(sorted)
      invariant forall i, p :: 0 <= i < |sorted| && p in rest ==> p.score <= sorted[i].score
      decreases |rest|
    {
      ghost var best := Best(rest);
      var m :| 0 <= m < |rest| && forall i :: 0 <= i < |rest| ==> rest[i].score <= rest[m].score;
      TakenOut(rest, m);
      sorted := sorted + [rest[m]];
      rest := rest[..m] + rest[m + 1..];
    }
  }

  /** Distinctness of ids only depends on which entries there are. */
  lemma SortKeepsDistinctIds(s: seq<Scored>, sorted: seq<Scored>)
    requires DistinctIds(s) && multiset(sorted) == multiset(s)
    ensures DistinctIds(sorted)
    ensures forall i :: 0 <= i < |sorted| ==> sorted[i] in s
  {
    forall i | 0 <= i < |sorted|
      ensures sorted[i] in s
    {
      assert sorted[i] in multiset(sorted);
    }
    forall i, j | 0 <= i < j < |sorted|
      ensures sorted[i].id != sorted[j].id
    {
      if sorted[i].id == sorted[j].id {
        TwiceInBag(sorted, i, j);
        OnceInBag(s, sorted[i]);
      }
    }
  }

  lemma SortKeepsEnumeration(s: seq<Scored>, sorted: seq<Scored>, members: set<Id>, f: Id -> real)
    requires Enumerates(s, members, f) && multiset(sorted) == multiset(s) && |sorted| == |s|
    ensures Enumerates(sorted, members, f)
  {
    SortKeepsDistinctIds(s, sorted);
  }

  lemma TwiceInBag(s: seq<Scored>, i: nat, j: nat)
    requires i < j < |s| && s[i] == s[j]
    ensures multiset(s)[s[i]] >= 2
  {
    assert s == s[..i] + [s[i]] + s[i + 1..j] + [s[j]] + s[j + 1..];
  }

  lemma {:induction false} OnceInBag(s: seq<Scored>, p: Scored)
    requires DistinctIds(s)
    ensures multiset(s)[p] <= 1
    decreases |s|
  {
    if s != [] {
      var n := |s| - 1;
      assert s == s[..n] + [s[n]];
      OnceInBag(s[..n], p);
    }
  }

  /** The `k` best of an enumeration, sorted. */
  method TakeTop(s: seq<Scored>, ghost members: set<Id>, ghost f: Id -> real, k: nat) returns (results: seq<Scored>)
    requires Enumerates(s, members, f)
    ensures TopK(results, members, f, k)
  {
    var sorted := SortByScore(s);
    SortKeepsEnumeration(s, sorted, members, f);
    PrefixIsTopK(sorted, members, f, k);
    results := sorted[..if k <= |sorted| then k else |sorted|];
  }
}
