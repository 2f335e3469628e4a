/**
 The integrity check of the layered graph.
 */
module HnswIntegrity {
  import opened Collections
  import opened Sums
  import opened LayerSearch
  import opened HnswLinks
  import opened HnswInsert

  /** How many entries of a list name no live node. */
  function DanglingIn(nodes: Nodes, list: seq<Id>): nat {
    |list| - |Live(nodes, list)|
  }

  /** The same over the first `k` lists of a node. */
  ghost function DanglingUpTo(nodes: Nodes, lists: seq<seq<Id>>, k: nat): nat
    requires k <= |lists|
  {
    if k == 0 then 0 else DanglingUpTo(nodes, lists, k - 1) + DanglingIn(nodes, lists[k - 1])
  }

  ghost function DanglingOf(nodes: Nodes): Id -> real {
    (v: Id) => if v in nodes then DanglingUpTo(nodes, nodes[v].friends, |nodes[v].friends|) as real else 0.0
  }

  ghost function Orphans(nodes: Nodes): set<Id> {
    set v | v in nodes && |nodes[v].friends| > 0 && nodes[v].friends[0] == []
  }

  /** Each node has the right size, an allowed level and one list per level. */
  ghost predicate NodesOk(nodes: Nodes, dimension: nat, config: HNSWConfig) {
    forall v: Id :: v in nodes ==> NodeOk(nodes[v], dimension, config)
  }

  predicate NodeOk(node: Node, dimension: nat, config: HNSWConfig) {
    |node.vector| == dimension && node.level <= config.maxLevel && |node.friends| == node.level + 1
  }

  /** What passes: sound nodes, at most 1% dangling references, at most 5% orphans. */
  ghost predicate Sound(nodes: Nodes, entryID: Id, dimension: nat, config: HNSWConfig) {
    |nodes| == 0 || (
      && entryID in nodes && NodesOk(nodes, dimension, config)
      && Sum(nodes.Keys, DanglingOf(nodes)) <= (|nodes| / 100) as real
      && (|nodes| > 1 ==> |Orphans(nodes)| <= |nodes| / 20))
  }

  method CountDangling(nodes: Nodes, lists: seq<seq<Id>>) returns (count: nat)
    ensures count == DanglingUpTo(nodes, lists, |lists|)
  {
    count := 0;
    for l := 0 to |lists|
      invariant count == DanglingUpTo(nodes, lists, l)
    {
      var missing := CountMissing(nodes, lists[l]);
      count := count + missing;
    }
  }

  method CountMissing(nodes: Nodes, list: seq<Id>) returns (count: nat)
    ensures count == DanglingIn(nodes, list)
  {
    count := 0;
    for i := 0 to |list|
      invariant count == DanglingIn(nodes, list[..i])
    {
      assert list[..i + 1][..i] == list[..i];
      if list[i] !in nodes {
        count := count + 1;
      }
    }
    assert list[..|list|] == list;
  }

  /** Passes exactly the sound indexes. */
  method ValidateIntegrity(nodes: Nodes, entryID: Id, dimension: nat, config: HNSWConfig) returns (ok: bool)
    ensures ok <==> Sound(nodes, entryID, dimension, config)
  {
    if |nodes| == 0 {
      return true;
    }
    if entryID !in nodes {
      return false;
    }
    var orphanCount: nat, danglingRefCount: nat := 0, 0;
    var rest := nodes.Keys;
    while rest != {}
      invariant Checked(nodes, dimension, config, rest, danglingRefCount, orphanCount)
      decreases rest
    {
      var id: Id :| id in rest;
      var sound;
      sound, danglingRefCount, orphanCount := CheckNode(nodes, dimension, config, rest, danglingRefCount, orphanCount, id);
      if !sound {
        return false;
      }
      rest := rest - {id};
    }
    CheckedAll(nodes, entryID, dimension, config, danglingRefCount, orphanCount);
    ok := danglingRefCount <= |nodes| / 100 && orphanCount <= |nodes| / 20;
  }

  /** Checks one node and adds its dangling references and orphanhood to the counters. */
  method CheckNode(nodes: Nodes, dimension: nat, config: HNSWConfig, ghost rest: set<Id>, dangling0: nat, orphans0: nat, id: Id)
    returns (sound: bool, dangling: nat, orphans: nat)
    requires Checked(nodes, dimension, config, rest, dangling0, orphans0) && id in rest
    ensures sound <==> NodeOk(nodes[id], dimension, config)
    ensures sound ==> Checked(nodes, dimension, config, rest - {id}, dangling, orphans)
  {
    sound, dangling, orphans := NodeOk(nodes[id], dimension, config), dangling0, orphans0;
    if !sound {
      return;
    }
    var missing := CountDangling(nodes, nodes[id].friends);
    var orphan := if |nodes[id].friends[0]| == 0 && |nodes| > 1 then 1 else 0;
    CheckedOneMore(nodes, dimension, config, rest, dangling0, orphans0, id, missing, orphan);
    dangling, orphans := dangling0 + missing, orphans0 + orphan;
  }

  /** The counters after all nodes outside `rest`. */
  ghost predicate Checked(nodes: Nodes, dimension: nat, config: HNSWConfig, rest: set<Id>, dangling: nat, orphans: nat) {
    && rest <= nodes.Keys
    && (forall v: Id :: v in nodes && v !in rest ==> NodeOk(nodes[v], dimension, config))
    && dangling as real == Sum(nodes.Keys - rest, DanglingOf(nodes))
    && orphans == if |nodes| > 1 then |Orphans(nodes) - rest| else 0
  }

  lemma CheckedOneMore(nodes: Nodes, dimension: nat, config: HNSWConfig, rest: set<Id>, dangling: nat, orphans: nat, id: Id,
                       missing: nat, orphan: nat)
    requires Checked(nodes, dimension, config, rest, dangling, orphans) && id in rest && NodeOk(nodes[id], dimension, config)
    requires missing == DanglingUpTo(nodes, nodes[id].friends, |nodes[id].friends|)
    requires orphan == if |nodes[id].friends[0]| == 0 && |nodes| > 1 then 1 else 0
    ensures Checked(nodes, dimension, config, rest - {id}, dangling + missing, orphans + orphan)
  {
    DanglingOneMore(nodes, rest, dangling, id, missing);
    assert |nodes[id].friends[0]| == 0 <==> nodes[id].friends[0] == [];
    hide Sum, DanglingUpTo, DanglingOf, Orphans, NodeOk;
    OrphansTakeIn(Orphans(nodes), rest, id);
  }

  lemma DanglingOneMore(nodes: Nodes, rest: set<Id>, dangling: nat, id: Id, missing: nat)
    requires rest <= nodes.Keys && id in rest && dangling as real == Sum(nodes.Keys - rest, DanglingOf(nodes))
    requires missing == DanglingUpTo(nodes, nodes[id].friends, |nodes[id].friends|)
    ensures (dangling + missing) as real == Sum(nodes.Keys - (rest - {id}), DanglingOf(nodes))
  {
    hide Sum, DanglingUpTo;
    SumTakesIn(nodes.Keys, rest, id, DanglingOf(nodes));
  }

  lemma CheckedAll(nodes: Nodes, entryID: Id, dimension: nat, config: HNSWConfig, dangling: nat, orphans: nat)
    requires Checked(nodes, dimension, config, {}, dangling, orphans) && |nodes| > 0 && entryID in nodes
    ensures dangling <= |nodes| / 100 && orphans <= |nodes| / 20 <==> Sound(nodes, entryID, dimension, config)
  {
    hide Sum, DanglingUpTo, NodeOk;
    assert nodes.Keys - {} == nodes.Keys && Orphans(nodes) - {} == Orphans(nodes);
  }

  lemma SumTakesIn(all: set<Id>, rest: set<Id>, x: Id, f: Id -> real)
    requires rest <= all && x in rest
    ensures Sum(all - (rest - {x}), f) == Sum(all - rest, f) + f(x)
  {
    SumRemove(all - (rest - {x}), x, f);
    assert all - (rest - {x}) - {x} == all - rest;
  }

  lemma OrphansTakeIn(orphans: set<Id>, rest: set<Id>, x: Id)
    requires x in rest
    ensures |orphans - (rest - {x})| == |orphans - rest| + if x in orphans then 1 else 0
  {
    if x in orphans {
      assert orphans - (rest - {x}) == (orphans - rest) + {x};
    } else {
      assert orphans - (rest - {x}) == orphans - rest;
    }
  }

  /** With nothing dangling and nobody orphaned, sound nodes pass. */
  lemma WholePasses(nodes: Nodes, entryID: Id, dimension: nat, config: HNSWConfig)
    requires |nodes| > 0 && entryID in nodes && NodesOk(nodes, dimension, config) && Whole(nodes)
    ensures Sound(nodes, entryID, dimension, config)
  {
    NothingDangles(nodes);
    if |nodes| > 1 {
      NobodyOrphaned(nodes);
    }
  }

  lemma NobodyOrphaned(nodes: Nodes)
    requires forall v: Id :: v in nodes ==> FriendsAt(nodes, v, 0) != []
    ensures Orphans(nodes) == {}
  {
    forall v: Id
      ensures v !in Orphans(nodes)
    {
      assert v in nodes ==> FriendsAt(nodes, v, 0) != [];
    }
  }

  lemma NothingDangles(nodes: Nodes)
    requires NoDangling(nodes)
    ensures Sum(nodes.Keys, DanglingOf(nodes)) == 0.0
  {
    forall v: Id | v in nodes
      ensures DanglingOf(nodes)(v) == 0.0
    {
      NoneDangling(nodes, v, |nodes[v].friends|);
    }
    SumZero(nodes.Keys, DanglingOf(nodes));
  }

  lemma {:induction false} NoneDangling(nodes: Nodes, v: Id, k: nat)
    requires NoDangling(nodes) && v in nodes && k <= |nodes[v].friends|
    ensures DanglingUpTo(nodes, nodes[v].friends, k) == 0
    decreases k
  {
    if k > 0 {
      NoneDangling(nodes, v, k - 1);
      assert FriendsAt(nodes, v, k - 1) == nodes[v].friends[k - 1];
      LiveAll(nodes, nodes[v].friends[k - 1]);
    }
  }

  /** Two or more nodes without any links do not pass. */
  lemma LinklessFails(nodes: Nodes, entryID: Id, dimension: nat, config: HNSWConfig)
    requires |nodes| > 1 && GraphOk(nodes, 0)
    ensures !Sound(nodes, entryID, dimension, config)
  {
    forall v: Id
      ensures v in Orphans(nodes) <==> v in nodes
    {
      if v in nodes {
        assert ListOk(nodes, 0, v, 0) && |nodes[v].friends| == nodes[v].level + 1;
      }
    }
    assert Orphans(nodes) == nodes.Keys;
  }
}
