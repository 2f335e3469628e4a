/**
 The tree of communities built level by level: a nested partition of the nodes.
 */
module Hierarchy {
  import opened Collections

  datatype HierarchicalCommunity = HierarchicalCommunity(
    entityIDs: seq<Id>,
    level: nat,
    parentIdx: int,
    children: seq<nat>
  )

  datatype SplitTask = SplitTask(entityIDs: seq<Id>, level: nat, parentIdx: int)

  type Levels = seq<seq<HierarchicalCommunity>>

  /** Community `i` of level `l` is well formed on its own. */
  ghost predicate CommunityOk(levels: Levels, l: nat, i: nat)
    requires l < |levels| && i < |levels[l]|
  {
    var c := levels[l][i];
    && |c.entityIDs| > 0 && Distinct(c.entityIDs) && c.level == l
    && ParentOk(levels, l, c)
  }

  /** A community below the top lies inside its parent, which is strictly larger. */
  ghost predicate ParentOk(levels: Levels, l: nat, c: HierarchicalCommunity)
    requires l < |levels|
  {
    if l == 0 then c.parentIdx == -1
    else
      && 0 <= c.parentIdx < |levels[l - 1]|
      && Members(c.entityIDs) < Members(levels[l - 1][c.parentIdx].entityIDs)
  }

  /** Community `k` of the next level names community `i` of level `l` as its parent. */
  ghost predicate IsChild(levels: Levels, l: nat, i: nat, k: nat) {
    l + 1 < |levels| && k < |levels[l + 1]| && levels[l + 1][k].parentIdx == i
  }

  /** `Children` lists, once each, exactly the communities that name this one as parent. */
  ghost predicate ChildrenOk(levels: Levels, l: nat, i: nat)
    requires l < |levels| && i < |levels[l]|
  {
    var kids := levels[l][i].children;
    && (forall a, b :: 0 <= a < b < |kids| ==> kids[a] != kids[b])
    && (forall k: nat :: k in kids <==> IsChild(levels, l, i, k))
  }

  ghost predicate InSomeChild(levels: Levels, l: nat, i: nat, v: Id) {
    exists k: nat :: IsChild(levels, l, i, k) && v in levels[l + 1][k].entityIDs
  }

  /** The children, if any, cover the parent. */
  ghost predicate CoverOk(levels: Levels, l: nat, i: nat)
    requires l < |levels| && i < |levels[l]|
  {
    levels[l][i].children != [] ==> forall v: Id :: v in levels[l][i].entityIDs ==> InSomeChild(levels, l, i, v)
  }

  ghost predicate DisjointOk(levels: Levels, l: nat)
    requires l < |levels|
  {
    forall i: nat, j: nat :: i < j < |levels[l]| ==> Members(levels[l][i].entityIDs) !! Members(levels[l][j].entityIDs)
  }

  /** Level 0, when there is one, partitions all the nodes. */
  ghost predicate TopOk(levels: Levels, nodes: set<Id>) {
    |levels| > 0 ==>
      && (forall v: Id :: v in nodes ==> exists i: nat :: i < |levels[0]| && v in levels[0][i].entityIDs)
      && (forall i: nat :: i < |levels[0]| ==> Members(levels[0][i].entityIDs) <= nodes)
  }

  ghost predicate Nested(levels: Levels, nodes: set<Id>) {
    && TopOk(levels, nodes)
    && (forall l: nat, i: nat :: l < |levels| && i < |levels[l]| ==> CommunityOk(levels, l, i))
    && (forall l: nat, i: nat :: l < |levels| && i < |levels[l]| ==> ChildrenOk(levels, l, i))
    && (forall l: nat, i: nat :: l < |levels| && i < |levels[l]| ==> CoverOk(levels, l, i))
    && (forall l: nat :: l < |levels| ==> DisjointOk(levels, l))
  }

  /** A queued split is for a community that has not been split yet. */
  ghost predicate TaskOk(levels: Levels, nodes: set<Id>, task: SplitTask) {
    && Distinct(task.entityIDs) && |task.entityIDs| > 0
    && if task.level == 0 then task.parentIdx == -1 && levels == [] && Members(task.entityIDs) == nodes
       else
         && task.level <= |levels| && 0 <= task.parentIdx < |levels[task.level - 1]|
         && levels[task.level - 1][task.parentIdx].entityIDs == task.entityIDs
         && levels[task.level - 1][task.parentIdx].children == []
  }

  function LevelOrEmpty(levels: Levels, l: nat): seq<HierarchicalCommunity> {
    if l < |levels| then levels[l] else []
  }

  function Consecutive(base: nat, n: nat): seq<nat> {
    seq(n, (i: nat) => base + i)
  }

  /** Appends one community to its level and its index to its parent's children. */
  function EnterOne(levels: Levels, task: SplitTask, ids: seq<Id>): (r: Levels)
    requires task.level < |levels|
    ensures |r| == |levels| && |r[task.level]| == |levels[task.level]| + 1
  {
    var commIdx := |levels[task.level]|;
    var entered := levels[task.level := levels[task.level] + [HierarchicalCommunity(ids, task.level, task.parentIdx, [])]];
    if task.level > 0 && 0 <= task.parentIdx < |entered[task.level - 1]| then
      var parents := entered[task.level - 1];
      var parent := parents[task.parentIdx];
      entered[task.level - 1 := parents[task.parentIdx := parent.(children := parent.children + [commIdx])]]
    else entered
  }

  /** The levels after one community has been split into `subs`. */
  function AfterSplit(levels: Levels, task: SplitTask, subs: seq<seq<Id>>): (r: Levels)
    requires task.level <= |levels|
    ensures |r| > task.level && |r[task.level]| == |LevelOrEmpty(levels, task.level)| + |subs|
  {
    if subs == [] then if task.level < |levels| then levels else levels + [[]]
    else EnterOne(AfterSplit(levels, task, subs[..|subs| - 1]), task, subs[|subs| - 1])
  }

  /** What a split leaves as it was: everything but the new communities and the parent's children. */
  ghost predicate SplitShape(levels: Levels, task: SplitTask, subs: seq<seq<Id>>, r: Levels)
    requires task.level <= |levels|
  {
    && SameSizes(levels, task, |subs|, r)
    && SameCommunities(levels, task, r)
    && Entered(levels, task, subs, r)
    && ParentLists(levels, task, |subs|, r)
  }

  ghost predicate SameSizes(levels: Levels, task: SplitTask, n: nat, r: Levels)
    requires task.level <= |levels|
  {
    && |r| == (if task.level < |levels| then |levels| else |levels| + 1)
    && (forall l: nat :: l < |r| ==> |r[l]| == |LevelOrEmpty(levels, l)| + (if l == task.level then n else 0))
  }

  ghost predicate SameCommunities(levels: Levels, task: SplitTask, r: Levels) {
    && |levels| <= |r|
    && forall l: nat, i: nat :: l < |levels| && i < |levels[l]| ==>
         && i < |r[l]|
         && r[l][i] == levels[l][i].(children := r[l][i].children)
         && (!(l + 1 == task.level && i == task.parentIdx) ==> r[l][i].children == levels[l][i].children)
  }

  ghost predicate Entered(levels: Levels, task: SplitTask, subs: seq<seq<Id>>, r: Levels) {
    var base := |LevelOrEmpty(levels, task.level)|;
    && task.level < |r| && |r[task.level]| == base + |subs|
    && forall k: nat :: k < |subs| ==>
         r[task.level][base + k] == HierarchicalCommunity(subs[k], task.level, task.parentIdx, [])
  }

  ghost predicate ParentLists(levels: Levels, task: SplitTask, n: nat, r: Levels)
    requires task.level <= |levels|
  {
    task.level > 0 && 0 <= task.parentIdx < |levels[task.level - 1]| ==>
      && task.level - 1 < |r| && task.parentIdx < |r[task.level - 1]|
      && r[task.level - 1][task.parentIdx].children ==
           levels[task.level - 1][task.parentIdx].children + Consecutive(|LevelOrEmpty(levels, task.level)|, n)
  }

  lemma {:induction false} AfterSplitShape(levels: Levels, task: SplitTask, subs: seq<seq<Id>>)
    requires task.level <= |levels|
    requires task.level > 0 ==> 0 <= task.parentIdx < |levels[task.level - 1]|
    ensures SplitShape(levels, task, subs, AfterSplit(levels, task, subs))
    decreases |subs|
  {
    if subs != [] {
      var n := |subs| - 1;
      AfterSplitShape(levels, task, subs[..n]);
      EnterOneShape(levels, task, subs, AfterSplit(levels, task, subs[..n]));
    }
  }

  lemma EnterOneShape(levels: Levels, task: SplitTask, subs: seq<seq<Id>>, r: Levels)
    requires task.level <= |levels| && |subs| > 0
    requires task.level > 0 ==> 0 <= task.parentIdx < |levels[task.level - 1]|
    requires SplitShape(levels, task, subs[..|subs| - 1], r)
    ensures SplitShape(levels, task, subs, EnterOne(r, task, subs[|subs| - 1]))
  {
    EnterOneAppends(levels, task, subs, r);
  }

  lemma EnterOneAppends(levels: Levels, task: SplitTask, subs: seq<seq<Id>>, r: Levels)
    requires |subs| > 0 && Entered(levels, task, subs[..|subs| - 1], r)
    ensures Entered(levels, task, subs, EnterOne(r, task, subs[|subs| - 1]))
  {
  }

  /** Two or more non-empty disjoint lists covering `whole` are each strictly smaller than it. */
  lemma PartsAreSmaller(subs: seq<seq<Id>>, whole: set<Id>, k: nat)
    requires IsPartition(subs, whole) && |subs| >= 2 && k < |subs|
    ensures Members(subs[k]) < whole
  {
    var other := if k == 0 then 1 else 0;
    var w := subs[other][0];
    assert Together(subs, w, w);
  }

  /** Splitting an unsplit community into a proper partition keeps the hierarchy nested. */
  lemma SplitKeepsNested(levels: Levels, nodes: set<Id>, task: SplitTask, subs: seq<seq<Id>>, r: Levels)
    requires Nested(levels, nodes) && TaskOk(levels, nodes, task)
    requires IsPartition(subs, Members(task.entityIDs)) && |subs| >= 2
    requires SplitShape(levels, task, subs, r)
    ensures Nested(r, nodes)
  {
    SplitKeepsTop(levels, nodes, task, subs, r);
    forall l: nat, i: nat | l < |r| && i < |r[l]|
      ensures CommunityOk(r, l, i)
    {
      SplitKeepsCommunity(levels, nodes, task, subs, r, l, i);
    }
    forall l: nat, i: nat | l < |r| && i < |r[l]|
      ensures ChildrenOk(r, l, i)
    {
      SplitKeepsChildren(levels, nodes, task, subs, r, l, i);
    }
    forall l: nat, i: nat | l < |r| && i < |r[l]|
      ensures CoverOk(r, l, i)
    {
      SplitKeepsCover(levels, nodes, task, subs, r, l, i);
    }
    forall l: nat | l < |r|
      ensures DisjointOk(r, l)
    {
      SplitKeepsDisjoint(levels, nodes, task, subs, r, l);
    }
  }

  lemma SplitKeepsTop(levels: Levels, nodes: set<Id>, task: SplitTask, subs: seq<seq<Id>>, r: Levels)
    requires Nested(levels, nodes) && TaskOk(levels, nodes, task)
    requires IsPartition(subs, Members(task.entityIDs)) && |subs| >= 2
    requires SplitShape(levels, task, subs, r)
    ensures TopOk(r, nodes)
  {
    if task.level == 0 {
      forall i: nat | i < |r[0]|
        ensures Members(r[0][i].entityIDs) <= nodes
      {
        assert r[0][0 + i].entityIDs == subs[i];
      }
    }
  }

  lemma SplitKeepsCommunity(levels: Levels, nodes: set<Id>, task: SplitTask, subs: seq<seq<Id>>, r: Levels, l: nat, i: nat)
    requires Nested(levels, nodes) && TaskOk(levels, nodes, task)
    requires IsPartition(subs, Members(task.entityIDs)) && |subs| >= 2
    requires SplitShape(levels, task, subs, r) && l < |r| && i < |r[l]|
    ensures CommunityOk(r, l, i)
  {
    var count := |LevelOrEmpty(levels, l)|;
    if i < count {
      assert CommunityOk(levels, l, i);
    } else {
      var k: nat := i - count;
      PartsAreSmaller(subs, Members(task.entityIDs), k);
    }
  }

  /** A split adds its new communities as children of the split one and no other parentage. */
  lemma ChildrenAfterSplit(levels: Levels, nodes: set<Id>, task: SplitTask, subs: seq<seq<Id>>, r: Levels, l: nat, i: nat, c: nat)
    requires TaskOk(levels, nodes, task) && SplitShape(levels, task, subs, r)
    requires l < |levels| && i < |levels[l]|
    ensures var base := |LevelOrEmpty(levels, task.level)|;
      IsChild(r, l, i, c) <==>
        IsChild(levels, l, i, c) || (l + 1 == task.level && i == task.parentIdx && base <= c < base + |subs|)
  {
    var base := |LevelOrEmpty(levels, task.level)|;
    if l + 1 == task.level && base <= c < base + |subs| {
      assert r[task.level][base + (c - base)] == HierarchicalCommunity(subs[c - base], task.level, task.parentIdx, []);
    }
  }

  lemma NewHasNoChildren(levels: Levels, nodes: set<Id>, task: SplitTask, subs: seq<seq<Id>>, r: Levels, i: nat)
    requires Nested(levels, nodes) && TaskOk(levels, nodes, task)
    requires SplitShape(levels, task, subs, r) && |LevelOrEmpty(levels, task.level)| <= i < |r[task.level]|
    ensures ChildrenOk(r, task.level, i)
  {
    var l, k: nat := task.level, i - |LevelOrEmpty(levels, task.level)|;
    assert r[l][|LevelOrEmpty(levels, l)| + k] == HierarchicalCommunity(subs[k], l, task.parentIdx, []);
    forall c: nat
      ensures !IsChild(r, l, i, c)
    {
      if l + 1 < |levels| && c < |levels[l + 1]| {
        assert CommunityOk(levels, l + 1, c);
      }
    }
  }

  lemma SplitKeepsChildren(levels: Levels, nodes: set<Id>, task: SplitTask, subs: seq<seq<Id>>, r: Levels, l: nat, i: nat)
    requires Nested(levels, nodes) && TaskOk(levels, nodes, task)
    requires SplitShape(levels, task, subs, r) && l < |r| && i < |r[l]|
    ensures ChildrenOk(r, l, i)
  {
    if i >= |LevelOrEmpty(levels, l)| {
      NewHasNoChildren(levels, nodes, task, subs, r, i);
    } else {
      assert ChildrenOk(levels, l, i);
      forall c: nat {
        ChildrenAfterSplit(levels, nodes, task, subs, r, l, i, c);
      }
      if l + 1 == task.level && i == task.parentIdx {
        var base := |LevelOrEmpty(levels, task.level)|;
        var kids := Consecutive(base, |subs|);
        forall c: nat
          ensures c in kids <==> base <= c < base + |subs|
        {
          if base <= c < base + |subs| {
            assert kids[c - base] == c;
          }
        }
      }
    }
  }

  lemma SplitKeepsCover(levels: Levels, nodes: set<Id>, task: SplitTask, subs: seq<seq<Id>>, r: Levels, l: nat, i: nat)
    requires Nested(levels, nodes) && TaskOk(levels, nodes, task)
    requires IsPartition(subs, Members(task.entityIDs))
    requires SplitShape(levels, task, subs, r) && l < |r| && i < |r[l]|
    ensures CoverOk(r, l, i)
  {
    var count := |LevelOrEmpty(levels, l)|;
    if i >= count {
      var k: nat := i - count;
      assert r[task.level][count + k] == HierarchicalCommunity(subs[k], task.level, task.parentIdx, []);
    } else if l + 1 == task.level && i == task.parentIdx {
      PartsCover(levels, nodes, task, subs, r);
    } else {
      OldChildrenCover(levels, nodes, task, subs, r, l, i);
    }
  }

  /** The parts cover the community that was split. */
  lemma PartsCover(levels: Levels, nodes: set<Id>, task: SplitTask, subs: seq<seq<Id>>, r: Levels)
    requires TaskOk(levels, nodes, task) && IsPartition(subs, Members(task.entityIDs))
    requires SplitShape(levels, task, subs, r) && 0 < task.level && 0 <= task.parentIdx
    requires task.level - 1 < |r| && task.parentIdx < |r[task.level - 1]|
    ensures CoverOk(r, task.level - 1, task.parentIdx)
  {
    var l, i, base: nat := task.level - 1, task.parentIdx, |LevelOrEmpty(levels, task.level)|;
    forall v: Id | v in r[l][i].entityIDs
      ensures InSomeChild(r, l, i, v)
    {
      assert v in Members(task.entityIDs);
      assert Together(subs, v, v);
      var k: nat :| k < |subs| && v in subs[k];
      assert r[task.level][base + k].entityIDs == subs[k];
      assert IsChild(r, l, i, base + k);
    }
  }

  lemma OldChildrenCover(levels: Levels, nodes: set<Id>, task: SplitTask, subs: seq<seq<Id>>, r: Levels, l: nat, i: nat)
    requires Nested(levels, nodes) && TaskOk(levels, nodes, task) && SplitShape(levels, task, subs, r)
    requires l < |levels| && l < |r| && i < |levels[l]| && i < |r[l]| && !(l + 1 == task.level && i == task.parentIdx)
    ensures CoverOk(r, l, i)
  {
    if r[l][i].children != [] {
      assert CoverOk(levels, l, i);
      forall v: Id | v in r[l][i].entityIDs
        ensures InSomeChild(r, l, i, v)
      {
        assert InSomeChild(levels, l, i, v);
        var k: nat :| IsChild(levels, l, i, k) && v in levels[l + 1][k].entityIDs;
        assert r[l + 1][k] == levels[l + 1][k].(children := r[l + 1][k].children);
        assert IsChild(r, l, i, k);
      }
    }
  }

  lemma SplitKeepsDisjoint(levels: Levels, nodes: set<Id>, task: SplitTask, subs: seq<seq<Id>>, r: Levels, l: nat)
    requires Nested(levels, nodes) && TaskOk(levels, nodes, task)
    requires IsPartition(subs, Members(task.entityIDs)) && |subs| >= 2
    requires SplitShape(levels, task, subs, r) && l < |r|
    ensures DisjointOk(r, l)
  {
    var count := |LevelOrEmpty(levels, l)|;
    forall i: nat, j: nat | i < j < |r[l]|
      ensures Members(r[l][i].entityIDs) !! Members(r[l][j].entityIDs)
    {
      if j < count {
        assert DisjointOk(levels, l);
      } else {
        var k: nat := j - count;
        if i < count {
          PartsAreSmaller(subs, Members(task.entityIDs), k);
          OldIsElsewhere(levels, nodes, task, i);
        } else {
          var k': nat := i - count;
          assert r[task.level][count + k'].entityIDs == subs[k'];
        }
      }
    }
  }

  /** Communities already on the task's level lie in other parents. */
  lemma OldIsElsewhere(levels: Levels, nodes: set<Id>, task: SplitTask, i: nat)
    requires Nested(levels, nodes) && TaskOk(levels, nodes, task)
    requires i < |LevelOrEmpty(levels, task.level)|
    ensures Members(levels[task.level][i].entityIDs) !! Members(task.entityIDs)
  {
    var l, up: nat := task.level, task.level - 1;
    assert CommunityOk(levels, l, i);
    var p := levels[l][i].parentIdx;
    assert ChildrenOk(levels, up, task.parentIdx);
    assert p == task.parentIdx ==> IsChild(levels, up, task.parentIdx, i);
    assert DisjointOk(levels, up);
  }

  /** Queued splits: each for its own unsplit community. */
  ghost predicate QueueOk(levels: Levels, nodes: set<Id>, queue: seq<SplitTask>) {
    && (forall a :: 0 <= a < |queue| ==> TaskOk(levels, nodes, queue[a]))
    && (forall a, b :: 0 <= a < b < |queue| ==> queue[a].level != queue[b].level || queue[a].parentIdx != queue[b].parentIdx)
  }

  lemma PopQueue(levels: Levels, nodes: set<Id>, task: SplitTask, rest: seq<SplitTask>)
    requires QueueOk(levels, nodes, [task] + rest)
    ensures TaskOk(levels, nodes, task) && QueueOk(levels, nodes, rest)
    ensures forall a :: 0 <= a < |rest| ==> rest[a].level != task.level || rest[a].parentIdx != task.parentIdx
  {
    var queue := [task] + rest;
    assert queue[0] == task;
    assert forall a :: 0 <= a < |rest| ==> rest[a] == queue[a + 1];
  }

  lemma PartsAreNonEmpty(subs: seq<seq<Id>>, whole: set<Id>)
    requires IsPartition(subs, whole)
    ensures forall i :: 0 <= i < |subs| ==> |subs[i]| > 0
  {
  }

  /** The communities large enough to be split further, one level down. */
  function NewTasks(subs: seq<seq<Id>>, task: SplitTask, base: nat, minSize: int, maxLevels: int): seq<SplitTask> {
    if subs == [] then []
    else
      var n := |subs| - 1;
      NewTasks(subs[..n], task, base, minSize, maxLevels)
      + if |subs[n]| >= minSize && task.level + 1 < maxLevels then [SplitTask(subs[n], task.level + 1, base + n)] else []
  }

  /** Tasks for some of the parts, in order, each naming the index its part was entered at. */
  ghost predicate TasksFrom(ts: seq<SplitTask>, subs: seq<seq<Id>>, task: SplitTask, base: nat) {
    && (forall a :: 0 <= a < |ts| ==> TaskFrom(ts[a], subs, task, base))
    && (forall a, b :: 0 <= a < b < |ts| ==> ts[a].parentIdx < ts[b].parentIdx)
  }

  ghost predicate TaskFrom(t: SplitTask, subs: seq<seq<Id>>, task: SplitTask, base: nat) {
    && t.level == task.level + 1 && base <= t.parentIdx < base + |subs|
    && t.entityIDs == subs[t.parentIdx - base]
  }

  lemma {:induction false} NewTasksComeFromSubs(subs: seq<seq<Id>>, task: SplitTask, base: nat, minSize: int, maxLevels: int)
    ensures TasksFrom(NewTasks(subs, task, base, minSize, maxLevels), subs, task, base)
    decreases |subs|
  {
    if subs != [] {
      var n := |subs| - 1;
      NewTasksComeFromSubs(subs[..n], task, base, minSize, maxLevels);
    }
  }

  /** After a split the remaining and the new tasks are again for unsplit communities. */
  lemma SplitKeepsQueue(levels: Levels, nodes: set<Id>, task: SplitTask, rest: seq<SplitTask>, subs: seq<seq<Id>>,
                        r: Levels, minSize: int, maxLevels: int)
    requires Nested(levels, nodes) && TaskOk(levels, nodes, task) && QueueOk(levels, nodes, rest)
    requires forall a :: 0 <= a < |rest| ==> rest[a].level != task.level || rest[a].parentIdx != task.parentIdx
    requires IsPartition(subs, Members(task.entityIDs)) && SplitShape(levels, task, subs, r)
    ensures QueueOk(r, nodes, rest + NewTasks(subs, task, |LevelOrEmpty(levels, task.level)|, minSize, maxLevels))
  {
    var base := |LevelOrEmpty(levels, task.level)|;
    var ts := NewTasks(subs, task, base, minSize, maxLevels);
    NewTasksComeFromSubs(subs, task, base, minSize, maxLevels);
    QueueJoin(r, nodes, rest, ts, task.level + 1, base);
  }

  lemma QueueJoin(levels: Levels, nodes: set<Id>, rest: seq<SplitTask>, ts: seq<SplitTask>, level: nat, base: nat)
    requires forall a :: 0 <= a < |rest| ==> TaskOk(levels, nodes, rest[a])
    requires forall a, b :: 0 <= a < b < |rest| ==> rest[a].level != rest[b].level || rest[a].parentIdx != rest[b].parentIdx
    requires forall a :: 0 <= a < |rest| ==> rest[a].level == level ==> rest[a].parentIdx < base
    requires forall a :: 0 <= a < |ts| ==> TaskOk(levels, nodes, ts[a]) && ts[a].level == level && base <= ts[a].parentIdx
    requires forall a, b :: 0 <= a < b < |ts| ==> ts[a].parentIdx < ts[b].parentIdx
    ensures QueueOk(levels, nodes, rest + ts)
  {
  }

  /** Decreasing measure of the work queue. */
  ghost function TaskWeight(task: SplitTask, maxLevels: int): nat {
    (if task.level < maxLevels then |task.entityIDs| * (maxLevels - task.level) else 0) + 1
  }

  ghost function QueueWeight(queue: seq<SplitTask>, maxLevels: int): nat {
    if queue == [] then 0
    else QueueWeight(queue[..|queue| - 1], maxLevels) + TaskWeight(queue[|queue| - 1], maxLevels)
  }

  lemma {:induction false} QueueWeightConcat(a: seq<SplitTask>, b: seq<SplitTask>, maxLevels: int)
    ensures QueueWeight(a + b, maxLevels) == QueueWeight(a, maxLevels) + QueueWeight(b, maxLevels)
    decreases |b|
  {
    if b == [] {
      assert a + b == a;
    } else {
      var n := |b| - 1;
      assert (a + b)[..|a + b| - 1] == a + b[..n];
      QueueWeightConcat(a, b[..n], maxLevels);
    }
  }

  ghost function TotalSize(subs: seq<seq<Id>>): nat {
    if subs == [] then 0 else TotalSize(subs[..|subs| - 1]) + |subs[|subs| - 1]|
  }

  /** Disjoint duplicate-free lists hold no more entries than the set they lie in. */
  lemma {:induction false} DisjointListsFit(subs: seq<seq<Id>>, whole: set<Id>)
    requires forall i :: 0 <= i < |subs| ==> Distinct(subs[i]) && Members(subs[i]) <= whole
    requires forall i, j :: 0 <= i < j < |subs| ==> Members(subs[i]) !! Members(subs[j])
    ensures TotalSize(subs) <= |whole|
    decreases |subs|
  {
    if subs != [] {
      var n := |subs| - 1;
      var last := Members(subs[n]);
      DisjointListsFit(subs[..n], whole - last);
      DistinctSize(subs[n]);
    }
  }

  lemma {:induction false} NewTasksWeight(subs: seq<seq<Id>>, task: SplitTask, base: nat, minSize: int, maxLevels: int)
    requires task.level < maxLevels
    requires forall i :: 0 <= i < |subs| ==> |subs[i]| > 0
    ensures QueueWeight(NewTasks(subs, task, base, minSize, maxLevels), maxLevels) <= TotalSize(subs) * (maxLevels - task.level)
    decreases |subs|
  {
    if subs != [] {
      var n := |subs| - 1;
      var before := NewTasks(subs[..n], task, base, minSize, maxLevels);
      NewTasksWeight(subs[..n], task, base, minSize, maxLevels);
      ChildFits(TotalSize(subs[..n]), QueueWeight(before, maxLevels), |subs[n]|, maxLevels - task.level);
      if !(|subs[n]| >= minSize && task.level + 1 < maxLevels) {
        assert before + [] == before;
      }
    }
  }

  lemma ChildFits(size: nat, weight: nat, n: nat, h: nat)
    requires weight <= size * h && n >= 1 && h >= 1
    ensures weight + (n * (h - 1) + 1) <= (size + n) * h
    ensures weight <= (size + n) * h
  {
  }

  lemma Scaled(a: nat, b: nat, h: nat)
    requires a <= b
    ensures a * h <= b * h
  {
  }

  /** Every round of the work loop makes the queue lighter. */
  lemma SplitMakesLighter(task: SplitTask, rest: seq<SplitTask>, subs: seq<seq<Id>>, base: nat, minSize: int, maxLevels: int)
    requires task.level < maxLevels && Distinct(task.entityIDs)
    requires IsPartition(subs, Members(task.entityIDs))
    ensures QueueWeight(rest + NewTasks(subs, task, base, minSize, maxLevels), maxLevels) < QueueWeight([task] + rest, maxLevels)
  {
    PartitionSize(subs, task.entityIDs);
    Scaled(TotalSize(subs), |task.entityIDs|, maxLevels - task.level);
    NewTasksWeight(subs, task, base, minSize, maxLevels);
    QueueWeightConcat(rest, NewTasks(subs, task, base, minSize, maxLevels), maxLevels);
    PopMakesLighter(task, rest, maxLevels);
  }

  lemma PartitionSize(subs: seq<seq<Id>>, whole: seq<Id>)
    requires Distinct(whole) && IsPartition(subs, Members(whole))
    ensures TotalSize(subs) <= |whole|
  {
    DisjointListsFit(subs, Members(whole));
    DistinctSize(whole);
  }

  lemma PopMakesLighter(task: SplitTask, rest: seq<SplitTask>, maxLevels: int)
    ensures QueueWeight([task] + rest, maxLevels) == TaskWeight(task, maxLevels) + QueueWeight(rest, maxLevels)
  {
    QueueWeightConcat([task], rest, maxLevels);
  }

  /** Enters the parts of one split and queues those large enough for the next level. */
  method AddSplit(levels0: Levels, task: SplitTask, subs: seq<seq<Id>>, minSize: int, maxLevels: int, queue0: seq<SplitTask>)
    returns (levels: Levels, queue: seq<SplitTask>)
    requires task.level <= |levels0|
    requires forall i :: 0 <= i < |subs| ==> |subs[i]| > 0
    ensures levels == AfterSplit(levels0, task, subs)
    ensures queue == queue0 + NewTasks(subs, task, |LevelOrEmpty(levels0, task.level)|, minSize, maxLevels)
  {
    ghost var base := |LevelOrEmpty(levels0, task.level)|;
    levels, queue := levels0, queue0;
    if |levels| <= task.level {
      levels := levels + [[]];
    }
    for k := 0 to |subs|
      invariant levels == AfterSplit(levels0, task, subs[..k])
      invariant queue == queue0 + NewTasks(subs[..k], task, base, minSize, maxLevels)
    {
      var commIdx := |levels[task.level]|;
      levels := EnterOne(levels, task, subs[k]);
      assert subs[..k + 1][..k] == subs[..k];
      if |subs[k]| >= minSize && task.level + 1 < maxLevels {
        queue := queue + [SplitTask(subs[k], task.level + 1, commIdx)];
      }
    }
    assert subs[..|subs|] == subs;
  }
}
