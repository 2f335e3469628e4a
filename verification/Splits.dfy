/**
 Which communities of a hierarchy were split and how: what the size and level limits
 leave whole, and what every split answers to.
 */
module Splits {
  import opened Collections
  import opened Hierarchy

  /**
   The limits of one run; `whole` holds of the sets that clustering did not divide, and
   `splitting` of a set, the level it was divided into and the lists it was divided into.
   */
  datatype Limits = Limits(minSize: int, maxLevels: int, whole: set<Id> -> bool,
                           splitting: (set<Id>, nat, seq<seq<Id>>) -> bool)

  ghost function Lists(communities: seq<HierarchicalCommunity>): seq<seq<Id>> {
    seq(|communities|, i requires 0 <= i < |communities| => communities[i].entityIDs)
  }

  /** The lists of a community's children, in the order it names them. */
  ghost function ChildLists(levels: Levels, l: nat, i: nat): seq<seq<Id>>
    requires l < |levels| && i < |levels[l]|
  {
    var kids := levels[l][i].children;
    seq(|kids|, k requires 0 <= k < |kids| =>
          if l + 1 < |levels| && kids[k] < |levels[l + 1]| then levels[l + 1][kids[k]].entityIDs else [])
  }

  ghost predicate Queued(queue: seq<SplitTask>, level: nat, parentIdx: int) {
    exists a :: 0 <= a < |queue| && queue[a].level == level && queue[a].parentIdx == parentIdx
  }

  /** A set of `size` nodes, when not divided, is too small or too deep, waits, or cannot be divided. */
  ghost predicate LeftWhole(lim: Limits, queue: seq<SplitTask>, nodes: set<Id>, size: nat, level: nat, parentIdx: int) {
    size >= lim.minSize && level < lim.maxLevels ==> Queued(queue, level, parentIdx) || lim.whole(nodes)
  }

  ghost predicate Handled(lim: Limits, levels: Levels, queue: seq<SplitTask>, l: nat, i: nat)
    requires l < |levels| && i < |levels[l]|
  {
    var c := levels[l][i];
    if c.children != [] then
      |c.entityIDs| >= lim.minSize && lim.splitting(Members(c.entityIDs), l + 1, ChildLists(levels, l, i))
    else LeftWhole(lim, queue, Members(c.entityIDs), |c.entityIDs|, l + 1, i)
  }

  ghost predicate TopHandled(lim: Limits, levels: Levels, nodes: set<Id>, queue: seq<SplitTask>) {
    if levels != [] then |nodes| >= lim.minSize && lim.splitting(nodes, 0, Lists(levels[0]))
    else LeftWhole(lim, queue, nodes, |nodes|, 0, -1)
  }

  /**
   The whole node set and every community are divided, into lists that answer to `splitting`,
   or left whole for a reason; only what is large enough is divided.
   */
  ghost predicate Thorough(lim: Limits, levels: Levels, nodes: set<Id>, queue: seq<SplitTask>) {
    && TopHandled(lim, levels, nodes, queue)
    && forall l: nat, i: nat :: l < |levels| && i < |levels[l]| ==> Handled(lim, levels, queue, l, i)
  }

  /** A task may be dropped when its community is too small, too deep or cannot be divided. */
  lemma DroppingKeepsThorough(lim: Limits, levels: Levels, nodes: set<Id>, task: SplitTask, rest: seq<SplitTask>)
    requires TaskOk(levels, nodes, task) && Thorough(lim, levels, nodes, [task] + rest)
    requires task.level >= lim.maxLevels || |task.entityIDs| < lim.minSize || lim.whole(Members(task.entityIDs))
    ensures Thorough(lim, levels, nodes, rest)
  {
    DistinctSize(task.entityIDs);
    StillQueued(task, rest, rest);
    forall l: nat, i: nat | l < |levels| && i < |levels[l]| ensures Handled(lim, levels, rest, l, i) {
      assert Handled(lim, levels, [task] + rest, l, i);
    }
  }

  lemma StillQueued(task: SplitTask, rest: seq<SplitTask>, queue: seq<SplitTask>)
    requires rest <= queue
    ensures forall level: nat, p: int :: Queued([task] + rest, level, p) && !(level == task.level && p == task.parentIdx)
                                         ==> Queued(queue, level, p)
  {
    forall level: nat, p: int | Queued([task] + rest, level, p) && !(level == task.level && p == task.parentIdx)
      ensures Queued(queue, level, p)
    {
      var a :| 0 <= a < |[task] + rest| && ([task] + rest)[a].level == level && ([task] + rest)[a].parentIdx == p;
      assert queue[a - 1] == ([task] + rest)[a];
    }
  }

  /** Every part that is large enough and not too deep gets its task. */
  lemma {:induction false} NewTasksComplete(subs: seq<seq<Id>>, task: SplitTask, base: nat, minSize: int, maxLevels: int, k: nat)
    requires k < |subs| && |subs[k]| >= minSize && task.level + 1 < maxLevels
    ensures Queued(NewTasks(subs, task, base, minSize, maxLevels), task.level + 1, base + k)
    decreases |subs|
  {
    var n := |subs| - 1;
    var ts, last := NewTasks(subs[..n], task, base, minSize, maxLevels), SplitTask(subs[n], task.level + 1, base + n);
    if k < n {
      NewTasksComplete(subs[..n], task, base, minSize, maxLevels, k);
      var a :| 0 <= a < |ts| && ts[a].level == task.level + 1 && ts[a].parentIdx == base + k;
      assert NewTasks(subs, task, base, minSize, maxLevels)[a] == ts[a];
    } else {
      assert NewTasks(subs, task, base, minSize, maxLevels) == ts + [last];
      assert (ts + [last])[|ts|] == last;
    }
  }

  /** A split divides its community as `splitting` asks and leaves tasks for the parts. */
  lemma SplitKeepsThorough(lim: Limits, levels: Levels, nodes: set<Id>, task: SplitTask, rest: seq<SplitTask>,
                           subs: seq<seq<Id>>, r: Levels)
    requires Nested(levels, nodes) && TaskOk(levels, nodes, task) && SplitShape(levels, task, subs, r)
    requires Thorough(lim, levels, nodes, [task] + rest)
    requires |task.entityIDs| >= lim.minSize && subs != []
    requires lim.splitting(Members(task.entityIDs), task.level, subs)
    ensures Thorough(lim, r, nodes, rest + NewTasks(subs, task, |LevelOrEmpty(levels, task.level)|, lim.minSize, lim.maxLevels))
  {
    var base := |LevelOrEmpty(levels, task.level)|;
    var ts := NewTasks(subs, task, base, lim.minSize, lim.maxLevels);
    SplitHandlesTop(lim, levels, nodes, task, rest, subs, r, rest + ts);
    forall l: nat, i: nat | l < |r| && i < |r[l]| ensures Handled(lim, r, rest + ts, l, i) {
      if i >= |LevelOrEmpty(levels, l)| {
        NewIsHandled(lim, levels, task, rest, subs, r, i);
      } else if l + 1 == task.level && i == task.parentIdx {
        SplitIsHandled(lim, levels, nodes, task, subs, r, rest + ts);
      } else {
        OldIsHandled(lim, levels, nodes, task, rest, subs, r, rest + ts, l, i);
      }
    }
  }

  lemma SplitHandlesTop(lim: Limits, levels: Levels, nodes: set<Id>, task: SplitTask, rest: seq<SplitTask>,
                        subs: seq<seq<Id>>, r: Levels, queue: seq<SplitTask>)
    requires TaskOk(levels, nodes, task) && SplitShape(levels, task, subs, r)
    requires TopHandled(lim, levels, nodes, [task] + rest) && |task.entityIDs| >= lim.minSize
    requires lim.splitting(Members(task.entityIDs), task.level, subs)
    ensures TopHandled(lim, r, nodes, queue)
  {
    if task.level == 0 {
      DistinctSize(task.entityIDs);
      assert forall k: nat :: k < |subs| ==> r[0][0 + k].entityIDs == subs[k];
      assert Lists(r[0]) == subs;
    } else {
      assert forall i: nat :: i < |levels[0]| ==> r[0][i].entityIDs == levels[0][i].entityIDs;
      assert Lists(r[0]) == Lists(levels[0]);
    }
  }

  lemma NewIsHandled(lim: Limits, levels: Levels, task: SplitTask, rest: seq<SplitTask>, subs: seq<seq<Id>>, r: Levels, i: nat)
    requires task.level <= |levels| && SplitShape(levels, task, subs, r)
    requires |LevelOrEmpty(levels, task.level)| <= i < |r[task.level]|
    ensures Handled(lim, r, rest + NewTasks(subs, task, |LevelOrEmpty(levels, task.level)|, lim.minSize, lim.maxLevels), task.level, i)
  {
    var base := |LevelOrEmpty(levels, task.level)|;
    var k, ts := i - base, NewTasks(subs, task, base, lim.minSize, lim.maxLevels);
    assert r[task.level][base + k] == HierarchicalCommunity(subs[k], task.level, task.parentIdx, []);
    if |subs[k]| >= lim.minSize && task.level + 1 < lim.maxLevels {
      NewTasksComplete(subs, task, base, lim.minSize, lim.maxLevels, k);
      var a :| 0 <= a < |ts| && ts[a].level == task.level + 1 && ts[a].parentIdx == base + k;
      assert (rest + ts)[|rest| + a] == ts[a];
    }
  }

  lemma SplitIsHandled(lim: Limits, levels: Levels, nodes: set<Id>, task: SplitTask, subs: seq<seq<Id>>, r: Levels,
                       queue: seq<SplitTask>)
    requires TaskOk(levels, nodes, task) && SplitShape(levels, task, subs, r)
    requires task.level > 0 && |task.entityIDs| >= lim.minSize && subs != []
    requires lim.splitting(Members(task.entityIDs), task.level, subs)
    ensures task.parentIdx < |r[task.level - 1]| && Handled(lim, r, queue, task.level - 1, task.parentIdx)
  {
    var l, i, base: nat := task.level - 1, task.parentIdx, |LevelOrEmpty(levels, task.level)|;
    var kids := r[l][i].children;
    assert kids == Consecutive(base, |subs|);
    assert ChildLists(r, l, i) == subs by {
      forall k | 0 <= k < |subs| ensures ChildLists(r, l, i)[k] == subs[k] {
        assert kids[k] == base + k && r[task.level][base + k].entityIDs == subs[k];
      }
    }
  }

  lemma OldIsHandled(lim: Limits, levels: Levels, nodes: set<Id>, task: SplitTask, rest: seq<SplitTask>, subs: seq<seq<Id>>,
                     r: Levels, queue: seq<SplitTask>, l: nat, i: nat)
    requires Nested(levels, nodes) && TaskOk(levels, nodes, task) && SplitShape(levels, task, subs, r) && rest <= queue
    requires l < |levels| && i < |levels[l]| && i < |r[l]| && !(l + 1 == task.level && i == task.parentIdx)
    requires Handled(lim, levels, [task] + rest, l, i)
    ensures Handled(lim, r, queue, l, i)
  {
    StillQueued(task, rest, queue);
    SameChildLists(levels, nodes, task, subs, r, l, i);
  }

  lemma SameChildLists(levels: Levels, nodes: set<Id>, task: SplitTask, subs: seq<seq<Id>>, r: Levels, l: nat, i: nat)
    requires Nested(levels, nodes) && SameCommunities(levels, task, r)
    requires l < |levels| && i < |levels[l]| && i < |r[l]| && !(l + 1 == task.level && i == task.parentIdx)
    ensures r[l][i] == levels[l][i] && ChildLists(r, l, i) == ChildLists(levels, l, i)
  {
    var kids := levels[l][i].children;
    assert ChildrenOk(levels, l, i);
    forall k | 0 <= k < |kids| ensures ChildLists(r, l, i)[k] == ChildLists(levels, l, i)[k] {
      assert kids[k] in kids && IsChild(levels, l, i, kids[k]);
    }
  }
}
