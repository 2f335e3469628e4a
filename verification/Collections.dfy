/**
 Node identifiers and the few notions about lists and sets of them that every
 component shares.
 */
module Collections {
  // uint64 in the program
  type Id = nat

  // A float32 is modelled by its IEEE 754 bit pattern.
  type Float32 = x: nat | x < 0x1_0000_0000
  type Vec = seq<Float32>

  ghost predicate Distinct(s: seq<Id>) {
    forall i, j :: 0 <= i < j < |s| ==> s[i] != s[j]
  }

  /** Some list holds both. */
  ghost predicate Together(lists: seq<seq<Id>>, u: Id, v: Id) {
    exists i :: 0 <= i < |lists| && u in lists[i] && v in lists[i]
  }

  /** Non-empty duplicate-free lists, pairwise disjoint, covering exactly `nodes`. */
  ghost predicate IsPartition(lists: seq<seq<Id>>, nodes: set<Id>) {
    && (forall i :: 0 <= i < |lists| ==> |lists[i]| > 0 && Distinct(lists[i]))
    && (forall i, j :: 0 <= i < j < |lists| ==> forall v: Id :: v in lists[i] ==> v !in lists[j])
    && (forall v: Id :: v in nodes <==> Together(lists, v, v))
  }

  lemma AtLeastTwo(s: set<Id>, a: Id, b: Id)
    requires a in s && b in s && a != b
    ensures |s| > 1
  {
    assert s == {a, b} + (s - {a, b});
  }

  lemma SubsetSize(a: set<Id>, b: set<Id>)
    requires a <= b
    ensures |a| <= |b| && (|a| == |b| ==> a == b)
  {
    assert b == a + (b - a);
  }

  ghost function Members(s: seq<Id>): set<Id> {
    set v | v in s
  }

  lemma {:induction false} DistinctSize(s: seq<Id>)
    requires Distinct(s)
    ensures |Members(s)| == |s|
    decreases |s|
  {
    if s != [] {
      var n := |s| - 1;
      DistinctSize(s[..n]);
      assert Members(s) == Members(s[..n]) + {s[n]};
    }
  }
}
