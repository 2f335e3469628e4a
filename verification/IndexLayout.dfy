/**
 Where the numbers of a saved index lie in its bytes, least significant byte first.
 */
module IndexLayout {
  import opened Collections
  import opened LayerSearch
  import opened IndexCodec

  /** The number the `n` bytes from `at` spell. */
  ghost function WordAt(b: seq<Byte>, at: nat, n: nat): nat
    requires at + n <= |b|
    decreases n
  {
    if n == 0 then 0 else b[at] + 256 * WordAt(b, at + 1, n - 1)
  }

  lemma {:induction false} WordOfBytes(b: seq<Byte>, at: nat, x: nat, n: nat)
    requires at + n <= |b| && b[at..at + n] == LE(x, n) && x < Power256(n)
    ensures WordAt(b, at, n) == x
    decreases n
  {
    if n > 0 {
      var s := b[at..at + n];
      assert s[0] == x % 256 && s[1..] == LE(x / 256, n - 1);
      assert b[at + 1..at + n] == s[1..];
      WordOfBytes(b, at + 1, x / 256, n - 1);
    }
  }

  lemma Widths()
    ensures Power256(4) == TWO_32 && Power256(8) == TWO_64
  {
    assert Power256(2) == 0x1_0000 && Power256(4) == 256 * (256 * Power256(2));
    assert Power256(6) == 256 * (256 * Power256(4)) && Power256(8) == 256 * (256 * Power256(6));
  }

  /** Dimension, node count, entry id and top level, then the nodes from byte 20 on. */
  lemma FileLayout(data: IndexData, order: seq<Node>)
    requires data.dimension < TWO_32 && |order| < TWO_32 && data.entryID < TWO_64 && -TWO_31 <= data.maxLevel < TWO_31
    ensures var b := FileOf(data, order);
      && |b| >= 20 && b[20..] == PutNodes(order)
      && WordAt(b, 0, 4) == data.dimension && WordAt(b, 4, 4) == |order| && WordAt(b, 8, 8) == data.entryID
      && WordAt(b, 16, 4) == if data.maxLevel >= 0 then data.maxLevel else data.maxLevel + TWO_32
  {
    Widths();
    hide LE, Power256, PutNodes;
    var b := FileOf(data, order);
    var p0, p1, p2, p3 := PutInt32(data.dimension), PutInt32(|order|), PutUint64(data.entryID), PutInt32(data.maxLevel);
    assert b == p0 + (p1 + (p2 + p3)) + PutNodes(order);
    assert b[0..4] == p0 && b[4..8] == p1 && b[8..16] == p2 && b[16..20] == p3;
    WordOfBytes(b, 0, data.dimension, 4);
    WordOfBytes(b, 4, |order|, 4);
    WordOfBytes(b, 8, data.entryID, 8);
    WordOfBytes(b, 16, data.maxLevel % TWO_32, 4);
  }

  lemma {:induction false} AllAt(b: seq<Byte>, at: nat, xs: seq<nat>, width: nat, i: nat)
    requires at + |PutAll(xs, width)| <= |b| && b[at..at + |PutAll(xs, width)|] == PutAll(xs, width)
    requires i < |xs| && forall j :: 0 <= j < |xs| ==> xs[j] < Power256(width)
    ensures at + i * width + width <= |b| && WordAt(b, at + i * width, width) == xs[i]
    decreases |xs|
  {
    var all, tail := PutAll(xs, width), PutAll(xs[1..], width);
    assert all == LE(xs[0], width) + tail;
    assert b[at..at + width] == all[..width] && all[..width] == LE(xs[0], width);
    if i == 0 {
      WordOfBytes(b, at, xs[0], width);
    } else {
      assert b[at + width..at + width + |tail|] == all[width..] && all[width..] == tail;
      AllAt(b, at + width, xs[1..], width, i - 1);
      assert at + width + (i - 1) * width == at + i * width;
    }
  }

  lemma {:induction false} AllLength(xs: seq<nat>, width: nat)
    ensures |PutAll(xs, width)| == |xs| * width
    decreases |xs|
  {
    if xs != [] {
      AllLength(xs[1..], width);
      assert |xs| * width == width + |xs[1..]| * width;
    }
  }

  /** Id, level and vector of a node, then its lists. */
  lemma NodeLayout(node: Node, dimension: nat)
    requires NodeRepresentable(node, dimension)
    ensures var b := PutNode(node);
      && |b| >= 12 + 4 * dimension && b[12 + 4 * dimension..] == PutLists(node.friends)
      && WordAt(b, 0, 8) == node.id && WordAt(b, 8, 4) == node.level
      && forall i: nat :: i < dimension ==> WordAt(b, 12 + i * 4, 4) == node.vector[i]
  {
    Widths();
    hide LE, Power256, PutAll, PutLists;
    var b, p0, p1, p2 := PutNode(node), PutUint64(node.id), PutInt32(node.level), PutAll(node.vector, 4);
    AllLength(node.vector, 4);
    assert b == p0 + (p1 + (p2 + PutLists(node.friends)));
    assert b[0..8] == p0 && b[8..12] == p1 && b[12..12 + 4 * dimension] == p2;
    WordOfBytes(b, 0, node.id, 8);
    WordOfBytes(b, 8, node.level, 4);
    forall i: nat | i < dimension ensures WordAt(b, 12 + i * 4, 4) == node.vector[i] {
      AllAt(b, 12, node.vector, 4, i);
    }
  }

  lemma IdsAt(b: seq<Byte>, at: nat, list: seq<Id>)
    requires at + |PutAll(list, 8)| <= |b| && b[at..at + |PutAll(list, 8)|] == PutAll(list, 8)
    requires forall j :: 0 <= j < |list| ==> list[j] < TWO_64
    ensures forall j: nat :: j < |list| ==> at + j * 8 + 8 <= |b| && WordAt(b, at + j * 8, 8) == list[j]
  {
    hide LE, Power256, PutAll;
    Widths();
    forall j: nat | j < |list| ensures at + j * 8 + 8 <= |b| && WordAt(b, at + j * 8, 8) == list[j] {
      AllAt(b, at, list, 8, j);
    }
  }

  lemma ThreeParts(p0: seq<Byte>, p1: seq<Byte>, p2: seq<Byte>)
    ensures var b := p0 + p1 + p2;
      b[0..|p0|] == p0 && b[|p0|..|p0| + |p1|] == p1 && b[|p0| + |p1|..] == p2
  {
  }

  lemma CountWord(b: seq<Byte>, x: nat)
    requires x < TWO_31
    ensures |PutInt32(x)| == 4 && (|b| >= 4 && b[0..4] == PutInt32(x) ==> WordAt(b, 0, 4) == x)
  {
    hide LE, Power256;
    Widths();
    if |b| >= 4 && b[0..4] == PutInt32(x) {
      WordOfBytes(b, 0, x, 4);
    }
  }

  lemma OneListLayout(b: seq<Byte>, list: seq<Id>, tail: seq<Byte>)
    requires b == PutInt32(|list|) + PutAll(list, 8) + tail
    requires |list| < TWO_31 && forall j :: 0 <= j < |list| ==> list[j] < TWO_64
    ensures |b| == 4 + 8 * |list| + |tail| && b[4 + 8 * |list|..] == tail && WordAt(b, 0, 4) == |list|
    ensures forall j: nat :: j < |list| ==> WordAt(b, 4 + j * 8, 8) == list[j]
  {
    hide *;
    var p0, p1 := PutInt32(|list|), PutAll(list, 8);
    AllLength(list, 8);
    ThreeParts(p0, p1, tail);
    CountWord(b, |list|);
    IdsAt(b, 4, list);
  }

  /** Length and ids of the first list, then the other lists. */
  lemma ListLayout(lists: seq<seq<Id>>)
    requires lists != [] && Representable(lists)
    ensures var b, n := PutLists(lists), |lists[0]|;
      && |b| >= 4 + 8 * n && b[4 + 8 * n..] == PutLists(lists[1..])
      && WordAt(b, 0, 4) == n && forall j: nat :: j < n ==> WordAt(b, 4 + j * 8, 8) == lists[0][j]
  {
    OneListLayout(PutLists(lists), lists[0], PutLists(lists[1..]));
  }
}
