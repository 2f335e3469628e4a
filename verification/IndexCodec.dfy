/**
 The binary file format of the vector index. Loading what was saved gives back the
 index exactly when it lies within the loader's bounds.
 */
module IndexCodec {
  import opened Collections
  import opened LayerSearch
  import opened Wrappers

  type Byte = x: nat | x < 256

  datatype Parsed<T> = NoParse | Parsed(value: T, rest: seq<Byte>)

  datatype IndexData = IndexData(dimension: nat, entryID: Id, maxLevel: int, nodes: Nodes)

  function Power256(n: nat): (p: nat)
    ensures p >= 1
  {
    if n == 0 then 1 else 256 * Power256(n - 1)
  }

  /** Little-endian bytes of an unsigned number. */
  function LE(x: nat, n: nat): (s: seq<Byte>)
    ensures |s| == n
  {
    if n == 0 then [] else [x % 256] + LE(x / 256, n - 1)
  }

  function UnLE(s: seq<Byte>): nat {
    if s == [] then 0 else s[0] + 256 * UnLE(s[1..])
  }

  const TWO_31 := 0x8000_0000
  const TWO_32 := 0x1_0000_0000
  const TWO_64 := 0x1_0000_0000_0000_0000

  /** A conversion to int32 keeps the low 32 bits. */
  function PutInt32(x: int): seq<Byte> {
    LE(x % TWO_32, 4)
  }

  function PutUint64(x: nat): seq<Byte> {
    LE(x, 8)
  }

  function GetUint(bytes: seq<Byte>, n: nat): Parsed<nat> {
    if |bytes| < n then NoParse else Parsed(UnLE(bytes[..n]), bytes[n..])
  }

  function GetInt32(bytes: seq<Byte>): Parsed<int> {
    match GetUint(bytes, 4)
    case NoParse => NoParse
    case Parsed(x, rest) => Parsed(if x >= TWO_31 then x - TWO_32 else x, rest)
  }

  lemma UintRoundTrip(x: nat, n: nat, rest: seq<Byte>)
    requires x < Power256(n)
    ensures GetUint(LE(x, n) + rest, n) == Parsed(x, rest)
  {
  }

  lemma Int32RoundTrip(x: int, rest: seq<Byte>)
    requires -TWO_31 <= x < TWO_31
    ensures GetInt32(PutInt32(x) + rest) == Parsed(x, rest)
  {
    UintRoundTrip(x % TWO_32, 4, rest);
  }

  /** Fixed-width numbers one after the other. */
  function PutAll(xs: seq<nat>, width: nat): seq<Byte> {
    if xs == [] then [] else LE(xs[0], width) + PutAll(xs[1..], width)
  }

  function GetAll(bytes: seq<Byte>, count: nat, width: nat): Parsed<seq<nat>>
    decreases count
  {
    if count == 0 then Parsed([], bytes)
    else
      match GetUint(bytes, width)
      case NoParse => NoParse
      case Parsed(x, rest) =>
        match GetAll(rest, count - 1, width)
        case NoParse => NoParse
        case Parsed(xs, rest') => Parsed([x] + xs, rest')
  }

  lemma {:induction false} AllRoundTrip(xs: seq<nat>, width: nat, rest: seq<Byte>)
    requires forall i :: 0 <= i < |xs| ==> xs[i] < Power256(width)
    ensures GetAll(PutAll(xs, width) + rest, |xs|, width) == Parsed(xs, rest)
    decreases |xs|
  {
    if xs == [] {
    } else {
      var tail := PutAll(xs[1..], width) + rest;
      assert PutAll(xs, width) + rest == LE(xs[0], width) + tail;
      UintRoundTrip(xs[0], width, tail);
      AllRoundTrip(xs[1..], width, rest);
      assert [xs[0]] + xs[1..] == xs;
    }
  }

  const MAX_FRIENDS := 10000
  const MAX_LEVEL := 20

  function PutLists(lists: seq<seq<Id>>): seq<Byte> {
    if lists == [] then [] else PutInt32(|lists[0]|) + PutAll(lists[0], 8) + PutLists(lists[1..])
  }

  function GetLists(bytes: seq<Byte>, count: nat): Parsed<seq<seq<Id>>>
    decreases count
  {
    if count == 0 then Parsed([], bytes)
    else
      match GetInt32(bytes)
      case NoParse => NoParse
      case Parsed(n, rest) =>
        if n < 0 || n > MAX_FRIENDS then NoParse
        else
          match GetAll(rest, n, 8)
          case NoParse => NoParse
          case Parsed(list, rest') =>
            match GetLists(rest', count - 1)
            case NoParse => NoParse
            case Parsed(lists, rest'') => Parsed([list] + lists, rest'')
  }

  ghost predicate ListsFit(lists: seq<seq<Id>>) {
    forall i :: 0 <= i < |lists| ==> |lists[i]| <= MAX_FRIENDS
  }

  /** Sizes and ids fit the widths of the format, whatever the loader's bounds. */
  ghost predicate Representable(lists: seq<seq<Id>>) {
    forall i :: 0 <= i < |lists| ==> |lists[i]| < TWO_31 && forall j :: 0 <= j < |lists[i]| ==> lists[i][j] < TWO_64
  }

  lemma {:induction false} ListsRoundTrip(lists: seq<seq<Id>>, rest: seq<Byte>)
    requires Representable(lists)
    ensures GetLists(PutLists(lists) + rest, |lists|) == if ListsFit(lists) then Parsed(lists, rest) else NoParse
    decreases |lists|
  {
    if lists == [] {
      assert PutLists(lists) + rest == rest;
    } else {
      var head, tail := lists[0], PutLists(lists[1..]) + rest;
      assert PutLists(lists) + rest == PutInt32(|head|) + (PutAll(head, 8) + tail);
      assert Representable(lists[1..]) && Representable([head]);
      ListRoundTrip(head, tail, |lists| - 1);
      ListsRoundTrip(lists[1..], rest);
      assert [head] + lists[1..] == lists;
      assert ListsFit(lists) <==> |head| <= MAX_FRIENDS && ListsFit(lists[1..]);
    }
  }

  /** One list, then what the rest of the bytes give. */
  lemma ListRoundTrip(head: seq<Id>, tail: seq<Byte>, n: nat)
    requires Representable([head])
    ensures GetLists(PutInt32(|head|) + (PutAll(head, 8) + tail), n + 1) ==
      if |head| > MAX_FRIENDS then NoParse
      else
        match GetLists(tail, n)
        case NoParse => NoParse
        case Parsed(lists, rest) => Parsed([head] + lists, rest)
  {
    hide PutAll, GetAll, PutInt32, GetInt32;
    assert [head][0] == head;
    Int32RoundTrip(|head|, PutAll(head, 8) + tail);
    AllRoundTrip(head, 8, tail);
  }

  function PutNode(node: Node): seq<Byte> {
    PutUint64(node.id) + (PutInt32(node.level) + PutNodeBody(node))
  }

  function PutNodeBody(node: Node): seq<Byte> {
    PutAll(node.vector, 4) + PutLists(node.friends)
  }

  function GetNode(bytes: seq<Byte>, dimension: nat): Parsed<Node> {
    match GetUint(bytes, 8)
    case NoParse => NoParse
    case Parsed(id, rest) =>
      match GetInt32(rest)
      case NoParse => NoParse
      case Parsed(level, rest) => if level < 0 || level > MAX_LEVEL then NoParse else GetNodeBody(rest, id, level, dimension)
  }

  function GetNodeBody(bytes: seq<Byte>, id: Id, level: nat, dimension: nat): Parsed<Node> {
    match GetAll(bytes, dimension, 4)
    case NoParse => NoParse
    case Parsed(words, rest) =>
      match GetLists(rest, level + 1)
      case NoParse => NoParse
      case Parsed(friends, rest) => Parsed(Node(id, ToVector(words), level, friends), rest)
  }

  /** Four bytes always form a float32 pattern. */
  function ToVector(words: seq<nat>): Vec {
    seq(|words|, i requires 0 <= i < |words| => words[i] % TWO_32)
  }

  ghost predicate NodeRepresentable(node: Node, dimension: nat) {
    && node.id < TWO_64 && node.level < TWO_31 && |node.vector| == dimension
    && |node.friends| == node.level + 1 && Representable(node.friends)
  }

  ghost predicate NodeFits(node: Node) {
    node.level <= MAX_LEVEL && ListsFit(node.friends)
  }

  lemma BodyRoundTrip(node: Node, dimension: nat, rest: seq<Byte>)
    requires NodeRepresentable(node, dimension)
    ensures GetNodeBody(PutNodeBody(node) + rest, node.id, node.level, dimension) ==
              if ListsFit(node.friends) then Parsed(node, rest) else NoParse
  {
    hide PutAll, GetAll, PutLists, GetLists;
    var afterVector := PutLists(node.friends) + rest;
    assert PutNodeBody(node) + rest == PutAll(node.vector, 4) + afterVector;
    AllRoundTrip(node.vector, 4, afterVector);
    ListsRoundTrip(node.friends, rest);
    assert ToVector(node.vector) == node.vector;
  }

  lemma NodeRoundTrip(node: Node, dimension: nat, rest: seq<Byte>)
    requires NodeRepresentable(node, dimension)
    ensures GetNode(PutNode(node) + rest, dimension) == if NodeFits(node) then Parsed(node, rest) else NoParse
  {
    var afterLevel := PutNodeBody(node) + rest;
    var afterID := PutInt32(node.level) + afterLevel;
    assert PutNode(node) + rest == PutUint64(node.id) + afterID;
    UintRoundTrip(node.id, 8, afterID);
    Int32RoundTrip(node.level, afterLevel);
    if node.level <= MAX_LEVEL {
      BodyRoundTrip(node, dimension, rest);
    }
  }

  function PutNodes(nodes: seq<Node>): seq<Byte> {
    if nodes == [] then [] else PutNode(nodes[0]) + PutNodes(nodes[1..])
  }

  lemma {:induction false} PutNodesSnoc(nodes: seq<Node>, node: Node)
    ensures PutNodes(nodes + [node]) == PutNodes(nodes) + PutNode(node)
    decreases |nodes|
  {
    if nodes == [] {
    } else {
      assert (nodes + [node])[1..] == nodes[1..] + [node];
      PutNodesSnoc(nodes[1..], node);
    }
  }

  /** Reads `count` nodes into the map read so far. */
  function GetNodes(bytes: seq<Byte>, count: nat, dimension: nat, sofar: Nodes): Option<Nodes>
    decreases count
  {
    if count == 0 then Some(sofar)
    else
      match GetNode(bytes, dimension)
      case NoParse => None
      case Parsed(node, rest) => GetNodes(rest, count - 1, dimension, sofar[node.id := node])
  }

  ghost function Entered(nodes: seq<Node>, sofar: Nodes): Nodes {
    if nodes == [] then sofar else Entered(nodes[1..], sofar[nodes[0].id := nodes[0]])
  }

  ghost predicate AllFit(nodes: seq<Node>) {
    forall i :: 0 <= i < |nodes| ==> NodeFits(nodes[i])
  }

  lemma {:induction false} NodesRoundTrip(nodes: seq<Node>, dimension: nat, sofar: Nodes)
    requires forall i :: 0 <= i < |nodes| ==> NodeRepresentable(nodes[i], dimension)
    ensures GetNodes(PutNodes(nodes), |nodes|, dimension, sofar) ==
              if AllFit(nodes) then Some(Entered(nodes, sofar)) else None
    decreases |nodes|
  {
    if nodes != [] {
      NodeRoundTrip(nodes[0], dimension, PutNodes(nodes[1..]));
      NodesRoundTrip(nodes[1..], dimension, sofar[nodes[0].id := nodes[0]]);
      hide NodeRepresentable, PutNode, GetNode, NodeFits;
      assert nodes == [nodes[0]] + nodes[1..];
      assert AllFit(nodes) <==> NodeFits(nodes[0]) && AllFit(nodes[1..]);
    }
  }

  const MAX_DIMENSION := 10000
  const MAX_COUNT := 100000000

  function PutHeader(dimension: nat, count: nat, entryID: Id, maxLevel: int): seq<Byte> {
    PutInt32(dimension) + (PutInt32(count) + (PutUint64(entryID) + PutInt32(maxLevel)))
  }

  datatype Header = Header(dimension: int, count: int, entryID: Id, maxLevel: int)

  function GetHeader(bytes: seq<Byte>): Parsed<Header> {
    match GetInt32(bytes)
    case NoParse => NoParse
    case Parsed(dimension, rest) =>
      match GetInt32(rest)
      case NoParse => NoParse
      case Parsed(count, rest) =>
        match GetUint(rest, 8)
        case NoParse => NoParse
        case Parsed(entryID, rest) =>
          match GetInt32(rest)
          case NoParse => NoParse
          case Parsed(maxLevel, rest) => Parsed(Header(dimension, count, entryID, maxLevel), rest)
  }

  predicate HeaderFits(h: Header) {
    0 < h.dimension <= MAX_DIMENSION && 0 <= h.count <= MAX_COUNT && -1 <= h.maxLevel <= MAX_LEVEL
  }

  lemma HeaderRoundTrip(h: Header, rest: seq<Byte>)
    requires 0 <= h.dimension < TWO_31 && 0 <= h.count < TWO_31 && h.entryID < TWO_64 && -TWO_31 <= h.maxLevel < TWO_31
    ensures GetHeader(PutHeader(h.dimension, h.count, h.entryID, h.maxLevel) + rest) == Parsed(h, rest)
  {
    var r3 := PutInt32(h.maxLevel) + rest;
    var r2 := PutUint64(h.entryID) + r3;
    var r1 := PutInt32(h.count) + r2;
    assert PutHeader(h.dimension, h.count, h.entryID, h.maxLevel) + rest == PutInt32(h.dimension) + r1;
    Int32RoundTrip(h.dimension, r1);
    Int32RoundTrip(h.count, r2);
    UintRoundTrip(h.entryID, 8, r3);
    Int32RoundTrip(h.maxLevel, rest);
  }

  /** The whole file, for nodes written in the given order. */
  function FileOf(data: IndexData, order: seq<Node>): seq<Byte> {
    PutHeader(data.dimension, |order|, data.entryID, data.maxLevel) + PutNodes(order)
  }

  /** `order` lists the nodes, each once. */
  ghost predicate Lists(order: seq<Node>, nodes: Nodes) {
    && |order| == |nodes|
    && (forall i :: 0 <= i < |order| ==> order[i].id in nodes && nodes[order[i].id] == order[i])
    && (forall i, j :: 0 <= i < j < |order| ==> order[i].id != order[j].id)
  }

  function LoadFile(bytes: seq<Byte>): Option<IndexData> {
    match GetHeader(bytes)
    case NoParse => None
    case Parsed(h, rest) =>
      if !HeaderFits(h) then None
      else
        match GetNodes(rest, h.count, h.dimension, map[])
        case None => None
        case Some(nodes) => Some(IndexData(h.dimension, h.entryID, h.maxLevel, nodes))
  }

  ghost predicate DataRepresentable(data: IndexData) {
    && data.dimension < TWO_31 && |data.nodes| < TWO_31 && data.entryID < TWO_64 && -TWO_31 <= data.maxLevel < TWO_31
    && forall v: Id :: v in data.nodes ==> data.nodes[v].id == v && NodeRepresentable(data.nodes[v], data.dimension)
  }

  /** The bounds the loader enforces. */
  ghost predicate WithinBounds(data: IndexData) {
    && HeaderFits(Header(data.dimension, |data.nodes|, data.entryID, data.maxLevel))
    && forall v: Id :: v in data.nodes ==> NodeFits(data.nodes[v])
  }

  lemma {:induction false} EnteredIs(order: seq<Node>, sofar: Nodes)
    requires forall i, j :: 0 <= i < j < |order| ==> order[i].id != order[j].id
    ensures forall v: Id :: v in Entered(order, sofar) <==> v in sofar || exists i :: 0 <= i < |order| && order[i].id == v
    ensures forall i :: 0 <= i < |order| ==> order[i].id in Entered(order, sofar) && Entered(order, sofar)[order[i].id] == order[i]
    ensures forall v: Id :: v in sofar && (forall i :: 0 <= i < |order| ==> order[i].id != v) ==>
              v in Entered(order, sofar) && Entered(order, sofar)[v] == sofar[v]
    decreases |order|
  {
    if order != [] {
      var tail, next := order[1..], sofar[order[0].id := order[0]];
      EnteredIs(tail, next);
    }
  }

  lemma ListsEvery(order: seq<Node>, nodes: Nodes)
    requires Lists(order, nodes)
    ensures forall v: Id :: v in nodes ==> exists i :: 0 <= i < |order| && order[i].id == v
  {
    var ids: seq<Id> := seq(|order|, i requires 0 <= i < |order| => order[i].id);
    DistinctSize(ids);
    SubsetSize(Members(ids), nodes.Keys);
  }

  lemma ListedOnce(order: seq<Node>, nodes: Nodes)
    requires Lists(order, nodes)
    ensures Entered(order, map[]) == nodes
  {
    EnteredIs(order, map[]);
    ListsEvery(order, nodes);
  }

  /** Saving and loading, in any node order: the same index, or a refusal exactly when it is out of bounds. */
  lemma FileRoundTrip(data: IndexData, order: seq<Node>)
    requires DataRepresentable(data) && Lists(order, data.nodes)
    ensures LoadFile(FileOf(data, order)) == if WithinBounds(data) then Some(data) else None
  {
    var h := Header(data.dimension, |order|, data.entryID, data.maxLevel);
    HeaderRoundTrip(h, PutNodes(order));
    NodesRoundTrip(order, data.dimension, map[]);
    ListedOnce(order, data.nodes);
    ListsEvery(order, data.nodes);
  }

  /** Writes the nodes in whatever order the map yields them. */
  method Save(data: IndexData) returns (bytes: seq<Byte>, ghost order: seq<Node>)
    requires forall v: Id :: v in data.nodes ==> data.nodes[v].id == v
    ensures Lists(order, data.nodes) && bytes == FileOf(data, order)
  {
    var header := PutHeader(data.dimension, |data.nodes|, data.entryID, data.maxLevel);
    var body: seq<Byte> := [];
    order := [];
    var rest := data.nodes.Keys;
    while rest != {}
      invariant rest <= data.nodes.Keys && |order| + |rest| == |data.nodes.Keys|
      invariant body == PutNodes(order)
      invariant forall i :: 0 <= i < |order| ==> order[i].id in data.nodes && data.nodes[order[i].id] == order[i] && order[i].id !in rest
      invariant forall i, j :: 0 <= i < j < |order| ==> order[i].id != order[j].id
      decreases rest
    {
      var id: Id :| id in rest;
      rest := rest - {id};
      PutNodesSnoc(order, data.nodes[id]);
      body := body + PutNode(data.nodes[id]);
      order := order + [data.nodes[id]];
    }
    bytes := header + body;
  }

  /** Reads header and nodes one by one, refusing anything out of bounds. */
  method Load(bytes: seq<Byte>) returns (r: Option<IndexData>)
    ensures r == LoadFile(bytes)
  {
    var header := GetHeader(bytes);
    if header.NoParse? || !HeaderFits(header.value) {
      return None;
    }
    var h, rest := header.value, header.rest;
    var nodes: Nodes := map[];
    var i := 0;
    while i < h.count
      invariant 0 <= i <= h.count
      invariant GetNodes(header.rest, h.count, h.dimension, map[]) == GetNodes(rest, h.count - i, h.dimension, nodes)
    {
      var node := GetNode(rest, h.dimension);
      if node.NoParse? {
        return None;
      }
      nodes := nodes[node.value.id := node.value];
      rest := node.rest;
      i := i + 1;
    }
    r := Some(IndexData(h.dimension, h.entryID, h.maxLevel, nodes));
  }
}
