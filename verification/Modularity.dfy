/**
 Modularity of a partition of a weighted graph, and the exact effect on it of moving
 one node to another community.
 */
module Modularity {
  import opened Collections
  import opened Sums

  type Comm = nat

  function Product(a: real, b: real): (r: real)
    ensures a > 0.0 && b > 0.0 ==> r > 0.0
    ensures a < 0.0 && b < 0.0 ==> r > 0.0
  {
    a * b
  }

  /**
   The graph as the clustering sees it. `strength` and `total` are what the builder
   accumulated; nothing here needs them to be the row sums of `adj`.
   */
  datatype WeightedGraph = WeightedGraph(
    adj: map<Id, map<Id, real>>,
    strength: map<Id, real>,
    total: real,
    resolution: real
  ) {
    function Weight(i: Id, j: Id): real {
      if i in adj && j in adj[i] then adj[i][j] else 0.0
    }

    function Strength(i: Id): real {
      if i in strength then strength[i] else 0.0
    }

    ghost predicate SymmetricWeights() {
      forall i: Id, j: Id :: Weight(i, j) == Weight(j, i)
    }

    function M2(): real {
      2.0 * total
    }

    function M2Squared(): (r: real)
      ensures total != 0.0 ==> r != 0.0
    {
      Product(M2(), M2())
    }

    /** What an ordered pair in one community contributes: A/2m - r k k'/(2m)^2. */
    function PairTerm(i: Id, j: Id): real {
      if total == 0.0 then 0.0
      else Weight(i, j) / M2() - resolution * Strength(i) * Strength(j) / M2Squared()
    }
  }

  ghost function Contribution(g: WeightedGraph, part: map<Id, Comm>, i: Id, j: Id): real {
    if i in part && j in part && part[i] == part[j] then g.PairTerm(i, j) else 0.0
  }

  ghost function RowTerms(g: WeightedGraph, part: map<Id, Comm>, i: Id): Id -> real {
    (j: Id) => Contribution(g, part, i, j)
  }

  ghost function Row(g: WeightedGraph, part: map<Id, Comm>, i: Id, s: set<Id>): real {
    Sum(s, RowTerms(g, part, i))
  }

  ghost function Rows(g: WeightedGraph, part: map<Id, Comm>, s: set<Id>): Id -> real {
    (i: Id) => Row(g, part, i, s)
  }

  /** Sum over all ordered pairs of nodes that share a community. */
  ghost function Quality(g: WeightedGraph, part: map<Id, Comm>): real {
    Sum(part.Keys, Rows(g, part, part.Keys))
  }

  ghost function Ties(g: WeightedGraph, part: map<Id, Comm>, x: Id, c: Comm): Id -> real {
    (j: Id) => if j in part && part[j] == c then g.PairTerm(x, j) else 0.0
  }

  /** How strongly `x` is tied to community `c`, itself left out. */
  ghost function Attachment(g: WeightedGraph, part: map<Id, Comm>, x: Id, c: Comm): real {
    Sum(part.Keys - {x}, Ties(g, part, x, c))
  }

  ghost function Gain(g: WeightedGraph, part: map<Id, Comm>, x: Id, c: Comm): real
    requires x in part
  {
    Attachment(g, part, x, c) - Attachment(g, part, x, part[x])
  }

  /** The part of the quality that does not involve `x` at all. */
  ghost function Rest(g: WeightedGraph, part: map<Id, Comm>, x: Id): real {
    Sum(part.Keys - {x}, Rows(g, part, part.Keys - {x}))
  }

  ghost function Column(g: WeightedGraph, part: map<Id, Comm>, x: Id): Id -> real {
    (i: Id) => Contribution(g, part, i, x)
  }

  lemma ColumnIsRow(g: WeightedGraph, part: map<Id, Comm>, x: Id, s: set<Id>)
    requires g.SymmetricWeights()
    ensures Sum(s, Column(g, part, x)) == Row(g, part, x, s)
  {
  }

  lemma OtherRowsSplit(g: WeightedGraph, part: map<Id, Comm>, x: Id)
    requires x in part
    ensures Sum(part.Keys - {x}, Rows(g, part, part.Keys)) ==
              Sum(part.Keys - {x}, Column(g, part, x)) + Rest(g, part, x)
  {
    var nodes, others := part.Keys, part.Keys - {x};
    forall i: Id | i in others
      ensures Rows(g, part, nodes)(i) == Column(g, part, x)(i) + Rows(g, part, others)(i)
    {
      SumRemove(nodes, x, RowTerms(g, part, i));
    }
    SumAdd(others, Column(g, part, x), Rows(g, part, others), Rows(g, part, nodes));
  }

  /** Quality splits into the pairs without `x` and, twice, the pairs of `x` with the others. */
  lemma QualitySplit(g: WeightedGraph, part: map<Id, Comm>, x: Id)
    requires g.SymmetricWeights() && x in part
    ensures Quality(g, part) == g.PairTerm(x, x) + 2.0 * Row(g, part, x, part.Keys - {x}) + Rest(g, part, x)
  {
    SumRemove(part.Keys, x, Rows(g, part, part.Keys));
    SumRemove(part.Keys, x, RowTerms(g, part, x));
    OtherRowsSplit(g, part, x);
    ColumnIsRow(g, part, x, part.Keys - {x});
  }

  lemma RowIsAttachment(g: WeightedGraph, part: map<Id, Comm>, x: Id)
    requires x in part
    ensures Row(g, part, x, part.Keys - {x}) == Attachment(g, part, x, part[x])
  {
    SumCongruent(part.Keys - {x}, RowTerms(g, part, x), Ties(g, part, x, part[x]));
  }

  lemma MoveKeepsRest(g: WeightedGraph, part: map<Id, Comm>, x: Id, c: Comm)
    requires x in part
    ensures Rest(g, part[x := c], x) == Rest(g, part, x)
    ensures Attachment(g, part[x := c], x, c) == Attachment(g, part, x, c)
  {
    var moved := part[x := c];
    var others := part.Keys - {x};
    assert moved.Keys == part.Keys;
    forall i: Id | i in others
      ensures Row(g, moved, i, others) == Row(g, part, i, others)
    {
      SumCongruent(others, RowTerms(g, moved, i), RowTerms(g, part, i));
    }
    SumCongruent(others, Rows(g, moved, others), Rows(g, part, others));
    SumCongruent(others, Ties(g, moved, x, c), Ties(g, part, x, c));
  }

  /** Moving `x` to community `c` changes the quality by exactly twice the gain. */
  lemma MoveChangesQuality(g: WeightedGraph, part: map<Id, Comm>, x: Id, c: Comm)
    requires g.SymmetricWeights() && x in part
    ensures Quality(g, part[x := c]) == Quality(g, part) + 2.0 * Gain(g, part, x, c)
  {
    var moved := part[x := c];
    QualitySplit(g, part, x);
    QualitySplit(g, moved, x);
    RowIsAttachment(g, part, x);
    RowIsAttachment(g, moved, x);
    MoveKeepsRest(g, part, x, c);
  }

  /** Only who shares a community with whom matters, not the community numbers. */
  lemma QualityOfSamePartition(g: WeightedGraph, part: map<Id, Comm>, part': map<Id, Comm>)
    requires part.Keys == part'.Keys
    requires forall i: Id, j: Id :: i in part && j in part ==> (part[i] == part[j] <==> part'[i] == part'[j])
    ensures Quality(g, part) == Quality(g, part')
  {
    var nodes := part.Keys;
    forall i: Id | i in nodes
      ensures Row(g, part, i, nodes) == Row(g, part', i, nodes)
    {
      SumCongruent(nodes, RowTerms(g, part, i), RowTerms(g, part', i));
    }
    SumCongruent(nodes, Rows(g, part, nodes), Rows(g, part', nodes));
  }

  /** A duplicate-free list of exactly the members of community `c`. */
  ghost predicate Lists(part: map<Id, Comm>, c: Comm, members: seq<Id>) {
    && Distinct(members)
    && forall v: Id :: v in members <==> v in part && part[v] == c
  }

  /** Weights from `x` to the others. */
  ghost function LinkTerms(g: WeightedGraph, x: Id): Id -> real {
    (j: Id) => if j == x then 0.0 else g.Weight(x, j)
  }

  /** Strengths of the others. */
  ghost function StrengthTerms(g: WeightedGraph, x: Id): Id -> real {
    (j: Id) => if j == x then 0.0 else g.Strength(j)
  }

  ghost function PairTerms(g: WeightedGraph, x: Id): Id -> real {
    (j: Id) => if j == x then 0.0 else g.PairTerm(x, j)
  }

  /** The code's combination of the link sum and the strength sum. */
  function Combine(g: WeightedGraph, x: Id, links: real, strengths: real): real
    requires g.total != 0.0
  {
    links / g.M2() - g.resolution * g.Strength(x) * strengths / g.M2Squared()
  }

  /** The two sums the code forms over a member list give the attachment. */
  lemma AttachmentFromLists(g: WeightedGraph, part: map<Id, Comm>, x: Id, c: Comm, members: seq<Id>)
    requires Lists(part, c, members) && g.total != 0.0
    ensures Attachment(g, part, x, c) ==
              Combine(g, x, SeqSum(members, LinkTerms(g, x)), SeqSum(members, StrengthTerms(g, x)))
  {
    var onSet := (j: Id) => if j in members then PairTerms(g, x)(j) else 0.0;
    SeqSumIsSum(members, part.Keys, PairTerms(g, x), onSet);
    SumDropZero(part.Keys, x, onSet);
    SumCongruent(part.Keys - {x}, onSet, Ties(g, part, x, c));
    SumOfTerms(g, x, members);
  }

  lemma {:induction false} SumOfTerms(g: WeightedGraph, x: Id, members: seq<Id>)
    requires g.total != 0.0
    ensures SeqSum(members, PairTerms(g, x)) ==
              Combine(g, x, SeqSum(members, LinkTerms(g, x)), SeqSum(members, StrengthTerms(g, x)))
    decreases |members|
  {
    if members != [] {
      var init, last := members[..|members| - 1], members[|members| - 1];
      SumOfTerms(g, x, init);
      CombineAdds(g, x, SeqSum(init, LinkTerms(g, x)), LinkTerms(g, x)(last),
                  SeqSum(init, StrengthTerms(g, x)), StrengthTerms(g, x)(last));
      CombineOne(g, x, last);
    }
  }

  lemma CombineOne(g: WeightedGraph, x: Id, j: Id)
    requires g.total != 0.0
    ensures Combine(g, x, LinkTerms(g, x)(j), StrengthTerms(g, x)(j)) == PairTerms(g, x)(j)
  {
  }

  lemma CombineAdds(g: WeightedGraph, x: Id, a: real, a': real, b: real, b': real)
    requires g.total != 0.0
    ensures Combine(g, x, a + a', b + b') == Combine(g, x, a, b) + Combine(g, x, a', b')
  {
  }

}
