/**
 Finite sums of reals over sets and over lists of node identifiers.
 */
module Sums {
  import opened Collections

  ghost function Pick(s: set<Id>): (x: Id)
    requires s != {}
    ensures x in s
  {
    var x: Id :| x in s; x
  }

  ghost function Sum(s: set<Id>, f: Id -> real): real
    decreases s
  {
    if s == {} then 0.0 else f(Pick(s)) + Sum(s - {Pick(s)}, f)
  }

  /** Any member may be taken out first. */
  lemma {:induction false} SumRemove(s: set<Id>, x: Id, f: Id -> real)
    requires x in s
    ensures Sum(s, f) == f(x) + Sum(s - {x}, f)
    decreases s
  {
    var y := Pick(s);
    if y != x {
      SumRemove(s - {y}, x, f);
      SumRemove(s - {x}, y, f);
      assert s - {y} - {x} == s - {x} - {y};
    }
  }

  lemma {:induction false} SumCongruent(s: set<Id>, f: Id -> real, g: Id -> real)
    requires forall x: Id :: x in s ==> f(x) == g(x)
    ensures Sum(s, f) == Sum(s, g)
    decreases s
  {
    if s != {} {
      SumCongruent(s - {Pick(s)}, f, g);
    }
  }

  lemma {:induction false} SumAdd(s: set<Id>, f: Id -> real, g: Id -> real, h: Id -> real)
    requires forall x: Id :: x in s ==> h(x) == f(x) + g(x)
    ensures Sum(s, h) == Sum(s, f) + Sum(s, g)
    decreases s
  {
    if s != {} {
      SumAdd(s - {Pick(s)}, f, g, h);
    }
  }

  /** A member contributing nothing can be left out. */
  lemma SumDropZero(s: set<Id>, x: Id, f: Id -> real)
    requires f(x) == 0.0
    ensures Sum(s - {x}, f) == Sum(s, f)
  {
    if x in s {
      SumRemove(s, x, f);
    } else {
      assert s - {x} == s;
    }
  }

  lemma {:induction false} SumZero(s: set<Id>, f: Id -> real)
    requires forall x: Id :: x in s ==> f(x) == 0.0
    ensures Sum(s, f) == 0.0
    decreases s
  {
    if s != {} {
      SumZero(s - {Pick(s)}, f);
    }
  }

  ghost function SeqSum(s: seq<Id>, f: Id -> real): real {
    if s == [] then 0.0 else SeqSum(s[..|s| - 1], f) + f(s[|s| - 1])
  }

  lemma SeqSumSnoc(s: seq<Id>, k: nat, f: Id -> real)
    requires k < |s|
    ensures SeqSum(s[..k + 1], f) == SeqSum(s[..k], f) + f(s[k])
  {
    assert s[..k + 1][..k] == s[..k];
  }

  /** Summing a duplicate-free list is summing over the set with non-members at zero. */
  lemma {:induction false} SeqSumIsSum(s: seq<Id>, all: set<Id>, f: Id -> real, g: Id -> real)
    requires Distinct(s) && forall x :: x in s ==> x in all
    requires forall x: Id :: x in all ==> g(x) == if x in s then f(x) else 0.0
    ensures SeqSum(s, f) == Sum(all, g)
    decreases |s|
  {
    if s == [] {
      SumZero(all, g);
    } else {
      var init, last := s[..|s| - 1], s[|s| - 1];
      var g' := (x: Id) => if x in init then f(x) else 0.0;
      SeqSumIsSum(init, all, f, g');
      SumRemove(all, last, g);
      SumRemove(all, last, g');
      SumCongruent(all - {last}, g, g');
    }
  }
}
