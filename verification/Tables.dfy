/**
 Tables of rows by id, the secondary indexes kept beside them, and totals over them.
 */
module Tables {

  import opened Collections
  import opened Wrappers

  // ---------------------------------------------------------------- unique indexes

  /** The index is the inverse of the rows' keys: exactly the keys in use, each leading to its row. */
  ghost predicate IsIndex<K(!new), V>(rows: map<Id, V>, index: map<K, Id>, key: V -> Option<K>) {
    && (forall k :: k in index ==> index[k] in rows && key(rows[index[k]]) == Some(k))
    && (forall i: Id :: i in rows && key(rows[i]).Some? ==>
          key(rows[i]).value in index && index[key(rows[i]).value] == i)
  }

  /** Some row has the key. */
  ghost predicate InUse<K, V>(rows: map<Id, V>, key: V -> Option<K>, k: K) {
    exists i: Id :: i in rows && key(rows[i]) == Some(k)
  }

  /** No two rows have the same key. */
  ghost predicate KeysUnique<K, V>(rows: map<Id, V>, key: V -> Option<K>) {
    forall i: Id, j: Id :: i in rows && j in rows && i != j && key(rows[i]).Some? ==> key(rows[i]) != key(rows[j])
  }

  lemma IndexAdd<K(!new), V>(rows: map<Id, V>, index: map<K, Id>, key: V -> Option<K>, id: Id, v: V)
    requires IsIndex(rows, index, key) && id !in rows
    requires key(v).Some? ==> key(v).value !in index
    ensures IsIndex(rows[id := v], if key(v).Some? then index[key(v).value := id] else index, key)
  {
  }

  lemma IndexDrop<K(!new), V>(rows: map<Id, V>, index: map<K, Id>, key: V -> Option<K>, id: Id)
    requires IsIndex(rows, index, key) && id in rows
    ensures IsIndex(rows - {id}, if key(rows[id]).Some? then index - {key(rows[id]).value} else index, key)
  {
  }

  lemma IndexUpdate<K(!new), V>(rows: map<Id, V>, index: map<K, Id>, key: V -> Option<K>, id: Id, v: V)
    requires IsIndex(rows, index, key) && id in rows && key(v) == key(rows[id])
    ensures IsIndex(rows[id := v], index, key)
  {
  }

  // ---------------------------------------------------------------- groupings

  /** Every group lists, once each, exactly the rows with its key. */
  ghost predicate IsGrouping<K(!new), V>(rows: map<Id, V>, groups: map<K, seq<Id>>, key: V -> Option<K>) {
    && (forall k :: k in groups ==> Distinct(groups[k]))
    && (forall k, i: Id :: k in groups && i in groups[k] ==> i in rows && key(rows[i]) == Some(k))
    && (forall i: Id :: i in rows && key(rows[i]).Some? ==>
          key(rows[i]).value in groups && i in groups[key(rows[i]).value])
  }

  function GroupOf<K, V>(groups: map<K, seq<V>>, k: K): seq<V> {
    if k in groups then groups[k] else []
  }

  lemma GroupLookup<K(!new), V>(rows: map<Id, V>, groups: map<K, seq<Id>>, key: V -> Option<K>, k: K)
    requires IsGrouping(rows, groups, key)
    ensures GroupOf(groups, k) != [] <==> InUse(rows, key, k)
    ensures forall i: Id :: i in GroupOf(groups, k) <==> i in rows && key(rows[i]) == Some(k)
  {
    if GroupOf(groups, k) != [] {
      var i := groups[k][0];
      assert i in rows && key(rows[i]) == Some(k);
    }
  }

  lemma GroupAdd<K(!new), V>(rows: map<Id, V>, groups: map<K, seq<Id>>, key: V -> Option<K>, id: Id, v: V)
    requires IsGrouping(rows, groups, key) && id !in rows
    ensures IsGrouping(rows[id := v],
                       if key(v).Some? then groups[key(v).value := GroupOf(groups, key(v).value) + [id]] else groups,
                       key)
  {
  }

  lemma GroupUpdate<K(!new), V>(rows: map<Id, V>, groups: map<K, seq<Id>>, key: V -> Option<K>, id: Id, v: V)
    requires IsGrouping(rows, groups, key) && id in rows && key(v) == key(rows[id])
    ensures IsGrouping(rows[id := v], groups, key)
  {
  }

  /** The list without the first occurrence of the id. */
  function Without(ids: seq<Id>, id: Id): seq<Id> {
    if ids == [] then []
    else if ids[0] == id then ids[1..]
    else [ids[0]] + Without(ids[1..], id)
  }

  lemma {:induction false} WithoutMembers(ids: seq<Id>, id: Id)
    requires Distinct(ids)
    ensures Distinct(Without(ids, id))
    ensures forall x: Id :: x in Without(ids, id) <==> x in ids && x != id
    decreases |ids|
  {
    if ids != [] {
      var rest := ids[1..];
      WithoutMembers(rest, id);
      assert ids[0] !in rest;
    }
  }

  /** The rest of the list is spliced around the first occurrence. */
  method RemoveID(ids: seq<Id>, id: Id) returns (r: seq<Id>)
    ensures r == Without(ids, id)
  {
    var i := 0;
    while i < |ids|
      invariant i <= |ids|
      invariant Without(ids, id) == ids[..i] + Without(ids[i..], id)
    {
      if ids[i] == id {
        assert Without(ids[i..], id) == ids[i + 1..];
        return ids[..i] + ids[i + 1..];
      }
      assert ids[i..][1..] == ids[i + 1..] && ids[..i + 1] == ids[..i] + [ids[i]];
      i := i + 1;
    }
    assert ids[..i] + [] == ids;
    return ids;
  }

  /** Taking a row out of its group; an emptied group may stay or go. */
  lemma GroupDrop<K(!new), V>(rows: map<Id, V>, groups: map<K, seq<Id>>, key: V -> Option<K>, id: Id)
    requires IsGrouping(rows, groups, key) && id in rows && key(rows[id]).Some?
    ensures var k := key(rows[id]).value;
      var left := Without(GroupOf(groups, k), id);
      && k in groups
      && IsGrouping(rows - {id}, groups[k := left], key)
      && (left == [] ==> IsGrouping(rows - {id}, groups - {k}, key))
  {
    var k := key(rows[id]).value;
    WithoutMembers(groups[k], id);
    hide Without, Distinct;
  }

  lemma RowsDrop<V>(rows: map<Id, V>, id: Id)
    requires id in rows
    ensures |rows| == |rows - {id}| + 1
  {
  }

  // ---------------------------------------------------------------- totals

  ghost function AnyKey(costs: map<Id, nat>): (i: Id)
    requires |costs| > 0
    ensures i in costs
  {
    var i: Id :| i in costs; i
  }

  ghost function Total(costs: map<Id, nat>): nat
    decreases |costs|
  {
    if |costs| == 0 then 0 else costs[AnyKey(costs)] + Total(costs - {AnyKey(costs)})
  }

  /** Any row may be counted first. */
  lemma {:induction false} TotalDrop(costs: map<Id, nat>, id: Id)
    requires id in costs
    ensures Total(costs) == costs[id] + Total(costs - {id})
    decreases |costs|
  {
    var i := AnyKey(costs);
    if i != id {
      TotalDrop(costs - {i}, id);
      TotalDrop(costs - {id}, i);
      assert costs - {i} - {id} == costs - {id} - {i};
    }
  }

  lemma TotalAdd(costs: map<Id, nat>, id: Id, x: nat)
    requires id !in costs
    ensures Total(costs[id := x]) == Total(costs) + x
  {
    TotalDrop(costs[id := x], id);
    assert costs[id := x] - {id} == costs;
  }
}
