/** The task list of one simulation: the two-level table that `hierarchicalData` assembles
    from the flat list of tasks and subtasks, the columns computed from it, and which
    row actions each role is offered. */
module TaskList {
  import opened SeqFacts
  import opened JsValue
  import opened MasterData

  datatype ParentRef = ParentRef(id: int, name: string)

  /** A row as the list endpoint returns it. `parentId` and the ids are 0 when absent. */
  datatype TaskRow = TaskRow(
    id: int, kind: int, name: string,
    parent: Option<ParentRef>, parentId: int,
    totalQuestion: Value, maxErrors: Value)

  /** `subTask.parent?.id || subTask.parentId` */
  function ParentIdOf(s: TaskRow): int {
    if s.parent.Some? && s.parent.value.id != 0 then s.parent.value.id else s.parentId
  }

  // ---------------------------------------------------------------------------------
  // The `Map` that `hierarchicalData` fills: insertion-ordered slots with distinct keys.

  /** A task is stored under its numeric id, an orphan under the string `orphan_<id>`;
      the two kinds of key never coincide. */
  datatype Key = TaskKey(id: int) | OrphanKey(id: int)

  /** A task carries the children collected for it; an orphan is the subtask as it came. */
  datatype Entry = TaskEntry(task: TaskRow, children: seq<TaskRow>) | OrphanEntry(sub: TaskRow)

  datatype Slot = Slot(key: Key, entry: Entry)

  function EntryRow(e: Entry): TaskRow {
    match e
    case TaskEntry(t, _) => t
    case OrphanEntry(s) => s
  }

  predicate MapHas(m: seq<Slot>, k: Key) {
    exists i :: 0 <= i < |m| && m[i].key == k
  }

  predicate UniqueKeys(m: seq<Slot>) {
    forall i, j :: 0 <= i < j < |m| ==> m[i].key != m[j].key
  }

  /** Where key `k` sits, or -1. */
  function FindKey(m: seq<Slot>, k: Key): (i: int)
    ensures -1 <= i < |m|
    ensures i >= 0 ==> m[i].key == k && forall j :: 0 <= j < i ==> m[j].key != k
    ensures i < 0 <==> !MapHas(m, k)
  {
    if m == [] then -1
    else if m[0].key == k then 0
    else
      var r := FindKey(m[1..], k);
      assert MapHas(m, k) ==> MapHas(m[1..], k) by {
        if MapHas(m, k) {
          var i :| 0 <= i < |m| && m[i].key == k;
          assert m[1..][i - 1] == m[i];
        }
      }
      if r < 0 then -1 else r + 1
  }

  /** `map.set(k, e)`: an existing key keeps its place and takes the new value; a new key
      goes last. */
  function MapSet(m: seq<Slot>, k: Key, e: Entry): (r: seq<Slot>)
    ensures MapHas(m, k) ==> |r| == |m| && r[FindKey(m, k)] == Slot(k, e)
    ensures MapHas(m, k) ==> forall j :: 0 <= j < |m| && j != FindKey(m, k) ==> r[j] == m[j]
    ensures !MapHas(m, k) ==> r == m + [Slot(k, e)]
    ensures UniqueKeys(m) ==> UniqueKeys(r)
  {
    var i := FindKey(m, k);
    if i >= 0 then m[i := Slot(k, e)] else m + [Slot(k, e)]
  }

  /** `Array.from(map.values())` */
  function MapValues(m: seq<Slot>): (vs: seq<Entry>)
    ensures |vs| == |m| && forall i :: 0 <= i < |m| ==> vs[i] == m[i].entry
  {
    if m == [] then []
    else
      var init := MapValues(m[..|m| - 1]);
      assert forall i :: 0 <= i < |init| ==> m[i] == m[..|m| - 1][i];
      init + [m[|m| - 1].entry]
  }

  // ---------------------------------------------------------------------------------
  // What `hierarchicalData` computes, pass by pass.

  /** The first pass over the rows: every TASK row is stored with no children yet. */
  function FirstPass(rows: seq<TaskRow>): seq<Slot> {
    if rows == [] then []
    else
      var m := FirstPass(rows[..|rows| - 1]);
      var item := rows[|rows| - 1];
      if item.kind == TASK then MapSet(m, TaskKey(item.id), TaskEntry(item, [])) else m
  }

  /** The rows that the first pass puts aside for the second: the SUBTASK rows, in order. */
  function Subtasks(rows: seq<TaskRow>): (subs: seq<TaskRow>)
    ensures forall s :: s in subs <==> s in rows && s.kind == SUBTASK
    ensures |subs| <= |rows|
  {
    if rows == [] then []
    else
      var item := rows[|rows| - 1];
      Subtasks(rows[..|rows| - 1]) + (if item.kind == SUBTASK then [item] else [])
  }

  /** The TASK rows, in order. */
  function Tasks(rows: seq<TaskRow>): (tasks: seq<TaskRow>)
    ensures forall t :: t in tasks <==> t in rows && t.kind == TASK
    ensures |tasks| <= |rows|
  {
    if rows == [] then []
    else
      var item := rows[|rows| - 1];
      Tasks(rows[..|rows| - 1]) + (if item.kind == TASK then [item] else [])
  }

  /** The subtasks are set aside in input order: those of two lists in a row are the first list's followed by the second's. */
  lemma {:induction false} SubtasksAppend(a: seq<TaskRow>, b: seq<TaskRow>)
    ensures Subtasks(a + b) == Subtasks(a) + Subtasks(b)
    decreases |b|
  {
    if b == [] {
      AppendEmpty(a);
      AppendEmpty(Subtasks(a));
    } else {
      var init := b[..|b| - 1];
      var last := b[|b| - 1];
      var tail := if last.kind == SUBTASK then [last] else [];
      SplitLast(a, b);
      SubtasksAppend(a, init);
      AppendAssoc(Subtasks(a), Subtasks(init), tail);
    }
  }

  /** The TASK rows keep the input order: those of two lists in a row are the first list's followed by the second's. */
  lemma {:induction false} TasksAppend(a: seq<TaskRow>, b: seq<TaskRow>)
    ensures Tasks(a + b) == Tasks(a) + Tasks(b)
    decreases |b|
  {
    if b == [] {
      AppendEmpty(a);
      AppendEmpty(Tasks(a));
    } else {
      var init := b[..|b| - 1];
      var last := b[|b| - 1];
      var tail := if last.kind == TASK then [last] else [];
      SplitLast(a, b);
      TasksAppend(a, init);
      AppendAssoc(Tasks(a), Tasks(init), tail);
    }
  }

  /** One step of the second pass: a subtask whose parent id names a stored task joins that
      task's children with `parent` rewritten to the task's id and name; any other subtask is
      stored on its own under `orphan_<id>`. */
  function Place(m: seq<Slot>, s: TaskRow): seq<Slot> {
    var pid := ParentIdOf(s);
    var i := FindKey(m, TaskKey(pid));
    if pid != 0 && i >= 0 then
      match m[i].entry
      case TaskEntry(t, children) =>
        m[i := Slot(TaskKey(pid), TaskEntry(t, children + [Reparent(s, t)]))]
      case OrphanEntry(_) => m
    else
      MapSet(m, OrphanKey(s.id), OrphanEntry(s))
  }

  /** `{...subTask, parent: {id: parentTask.id, name: parentTask.name}}` */
  function Reparent(s: TaskRow, t: TaskRow): TaskRow {
    s.(parent := Some(ParentRef(t.id, t.name)))
  }

  function SecondPass(m: seq<Slot>, subs: seq<TaskRow>): seq<Slot> {
    if subs == [] then m else Place(SecondPass(m, subs[..|subs| - 1]), subs[|subs| - 1])
  }

  /** The table `hierarchicalData` returns. */
  function Hierarchy(data: seq<TaskRow>): seq<Entry> {
    if data == [] then [] else MapValues(SecondPass(FirstPass(data), Subtasks(data)))
  }

  /** `hierarchicalData`: two passes over the rows that fill a map, then its values. */
  method HierarchicalData(data: seq<TaskRow>) returns (result: seq<Entry>)
    ensures result == Hierarchy(data)
  {
    if |data| == 0 {
      return [];
    }
    var tasksMap, subTasks := CollectRows(data);
    tasksMap := AttachSubtasks(tasksMap, subTasks);
    result := MapValues(tasksMap);
  }

  /** The first loop of `hierarchicalData`: TASK rows go into the map, SUBTASK rows are put
      aside in order. */
  method CollectRows(data: seq<TaskRow>) returns (tasksMap: seq<Slot>, subTasks: seq<TaskRow>)
    ensures tasksMap == FirstPass(data)
    ensures subTasks == Subtasks(data)
  {
    tasksMap := [];
    subTasks := [];
    var i := 0;
    while i < |data|
      invariant 0 <= i <= |data|
      invariant tasksMap == FirstPass(data[..i])
      invariant subTasks == Subtasks(data[..i])
    {
      var item := data[i];
      assert data[..i + 1][..i] == data[..i];
      assert data[..i + 1][i] == item;
      if item.kind == TASK {
        tasksMap := MapSet(tasksMap, TaskKey(item.id), TaskEntry(item, []));
      } else if item.kind == SUBTASK {
        subTasks := subTasks + [item];
      }
      i := i + 1;
    }
    assert data[..i] == data;
  }

  /** The second loop of `hierarchicalData`: each subtask in turn joins its parent task or is
      stored as an orphan. */
  method AttachSubtasks(m: seq<Slot>, subTasks: seq<TaskRow>) returns (tasksMap: seq<Slot>)
    ensures tasksMap == SecondPass(m, subTasks)
  {
    tasksMap := m;
    var j := 0;
    while j < |subTasks|
      invariant 0 <= j <= |subTasks|
      invariant tasksMap == SecondPass(m, subTasks[..j])
    {
      assert subTasks[..j + 1][..j] == subTasks[..j];
      ghost var before := tasksMap;
      var subTask := subTasks[j];
      var parentId := ParentIdOf(subTask);
      var k := FindKey(tasksMap, TaskKey(parentId));
      if parentId != 0 && k >= 0 {
        match tasksMap[k].entry
        case TaskEntry(parentTask, children) =>
          tasksMap := tasksMap[k := Slot(TaskKey(parentId), TaskEntry(parentTask, children + [Reparent(subTask, parentTask)]))];
        case OrphanEntry(_) =>
      } else {
        tasksMap := MapSet(tasksMap, OrphanKey(subTask.id), OrphanEntry(subTask));
      }
      assert tasksMap == Place(before, subTask);
      j := j + 1;
    }
    assert subTasks[..j] == subTasks;
  }

  // ---------------------------------------------------------------------------------
  // The same table described row by row.

  predicate DistinctIds(rows: seq<TaskRow>) {
    forall i, j :: 0 <= i < j < |rows| ==> rows[i].id != rows[j].id
  }

  function TaskIds(tasks: seq<TaskRow>): set<int> {
    set t | t in tasks :: t.id
  }

  predicate Attaches(s: TaskRow, t: TaskRow) {
    ParentIdOf(s) != 0 && ParentIdOf(s) == t.id
  }

  predicate IsOrphan(s: TaskRow, ids: set<int>) {
    ParentIdOf(s) == 0 || ParentIdOf(s) !in ids
  }

  /** The children a task collects: the subtasks naming it as parent, in order, each with
      `parent` rewritten to the task. */
  function ChildrenOf(t: TaskRow, subs: seq<TaskRow>): (children: seq<TaskRow>)
    ensures |children| <= |subs|
    ensures forall c :: c in children ==> c.parent == Some(ParentRef(t.id, t.name))
    ensures forall s :: s in subs && Attaches(s, t) ==> Reparent(s, t) in children
    ensures forall c :: c in children ==> exists s :: s in subs && Attaches(s, t) && c == Reparent(s, t)
  {
    if subs == [] then []
    else
      var s := subs[|subs| - 1];
      ChildrenOf(t, subs[..|subs| - 1]) + (if Attaches(s, t) then [Reparent(s, t)] else [])
  }

  /** The subtasks left on their own, in order. */
  function Orphans(subs: seq<TaskRow>, ids: set<int>): (orphans: seq<TaskRow>)
    ensures forall s :: s in orphans <==> s in subs && IsOrphan(s, ids)
    ensures |orphans| <= |subs|
  {
    if subs == [] then []
    else
      var s := subs[|subs| - 1];
      Orphans(subs[..|subs| - 1], ids) + (if IsOrphan(s, ids) then [s] else [])
  }

  /** The orphans keep the input order: those of two lists in a row are the first list's followed by the second's. */
  lemma {:induction false} OrphansAppend(a: seq<TaskRow>, b: seq<TaskRow>, ids: set<int>)
    ensures Orphans(a + b, ids) == Orphans(a, ids) + Orphans(b, ids)
    decreases |b|
  {
    if b == [] {
      AppendEmpty(a);
      AppendEmpty(Orphans(a, ids));
    } else {
      var init := b[..|b| - 1];
      var last := b[|b| - 1];
      var tail := if IsOrphan(last, ids) then [last] else [];
      SplitLast(a, b);
      OrphansAppend(a, init, ids);
      AppendAssoc(Orphans(a, ids), Orphans(init, ids), tail);
    }
  }

  function TaskSlots(tasks: seq<TaskRow>, subs: seq<TaskRow>): seq<Slot> {
    seq(|tasks|, i requires 0 <= i < |tasks| =>
      Slot(TaskKey(tasks[i].id), TaskEntry(tasks[i], ChildrenOf(tasks[i], subs))))
  }

  function OrphanSlots(orphans: seq<TaskRow>): seq<Slot> {
    seq(|orphans|, i requires 0 <= i < |orphans| => Slot(OrphanKey(orphans[i].id), OrphanEntry(orphans[i])))
  }

  lemma TaskSlotsSnoc(tasks: seq<TaskRow>, t: TaskRow, subs: seq<TaskRow>)
    ensures TaskSlots(tasks + [t], subs) == TaskSlots(tasks, subs) + [Slot(TaskKey(t.id), TaskEntry(t, ChildrenOf(t, subs)))]
  {
  }

  /** The first pass stores the TASK rows in order, each without children. */
  lemma {:induction false} FirstPassStoresTasks(rows: seq<TaskRow>)
    requires DistinctIds(Tasks(rows))
    ensures FirstPass(rows) == TaskSlots(Tasks(rows), [])
  {
    if rows != [] {
      var init := rows[..|rows| - 1];
      var item := rows[|rows| - 1];
      var before := Tasks(init);
      assert Tasks(rows) == before + (if item.kind == TASK then [item] else []);
      assert DistinctIds(before) by {
        forall i, j | 0 <= i < j < |before| ensures before[i].id != before[j].id {
          assert before[i] == Tasks(rows)[i] && before[j] == Tasks(rows)[j];
        }
      }
      FirstPassStoresTasks(init);
      var m := TaskSlots(before, []);
      if item.kind == TASK {
        forall k | 0 <= k < |m| ensures m[k].key != TaskKey(item.id) {
          assert Tasks(rows)[k] == before[k];
          assert Tasks(rows)[|before|] == item;
        }
        assert !MapHas(m, TaskKey(item.id));
        TaskSlotsSnoc(before, item, []);
      }
    }
  }

  /** Where the slot of the task with a given id sits among the task slots. */
  lemma TaskSlotIndex(tasks: seq<TaskRow>, subs: seq<TaskRow>, rest: seq<Slot>, pid: int) returns (k: int)
    requires DistinctIds(tasks)
    requires forall j :: 0 <= j < |rest| ==> rest[j].key.OrphanKey?
    ensures pid in TaskIds(tasks) ==> 0 <= k < |tasks| && tasks[k].id == pid
    ensures pid in TaskIds(tasks) ==> FindKey(TaskSlots(tasks, subs) + rest, TaskKey(pid)) == k
    ensures pid !in TaskIds(tasks) ==> FindKey(TaskSlots(tasks, subs) + rest, TaskKey(pid)) < 0
  {
    var m := TaskSlots(tasks, subs) + rest;
    k := FindKey(m, TaskKey(pid));
    if pid in TaskIds(tasks) {
      var t :| t in tasks && t.id == pid;
      var n :| 0 <= n < |tasks| && tasks[n] == t;
      assert m[n].key == TaskKey(pid);
      assert k <= n;
      assert tasks[k].id == pid;
    } else {
      forall j | 0 <= j < |m| ensures m[j].key != TaskKey(pid) {
        if j < |tasks| {
          assert tasks[j] in tasks;
        } else {
          assert m[j] == rest[j - |tasks|];
        }
      }
    }
  }

  /** The second pass, described entry by entry: every task in order with the children that
      name it, then the orphans in order. */
  lemma ChildrenStep(t: TaskRow, init: seq<TaskRow>, s: TaskRow)
    ensures ChildrenOf(t, init + [s]) == ChildrenOf(t, init) + (if Attaches(s, t) then [Reparent(s, t)] else [])
  {
    assert (init + [s])[..|init|] == init;
  }

  /** Of tasks with distinct ids, a subtask attaching to the one at position `k` adds a child
      to that task alone. */
  lemma ChildrenAt(tasks: seq<TaskRow>, init: seq<TaskRow>, s: TaskRow, k: int, j: int)
    requires DistinctIds(tasks)
    requires 0 <= k < |tasks| && ParentIdOf(s) != 0 && tasks[k].id == ParentIdOf(s)
    requires 0 <= j < |tasks|
    ensures ChildrenOf(tasks[j], init + [s]) == ChildrenOf(tasks[j], init) + (if j == k then [Reparent(s, tasks[k])] else [])
  {
    ChildrenStep(tasks[j], init, s);
    assert Attaches(s, tasks[j]) <==> j == k;
  }

  /** A subtask whose parent id is a task's joins that task's children, reparented. */
  lemma PlaceAttached(tasks: seq<TaskRow>, init: seq<TaskRow>, orphans: seq<TaskRow>, s: TaskRow, k: int)
    requires DistinctIds(tasks)
    requires 0 <= k < |tasks| && ParentIdOf(s) != 0 && tasks[k].id == ParentIdOf(s)
    requires FindKey(TaskSlots(tasks, init) + OrphanSlots(orphans), TaskKey(ParentIdOf(s))) == k
    ensures Place(TaskSlots(tasks, init) + OrphanSlots(orphans), s)
      == TaskSlots(tasks, init + [s]) + OrphanSlots(orphans)
  {
    var m := TaskSlots(tasks, init) + OrphanSlots(orphans);
    var t := tasks[k];
    var pid := ParentIdOf(s);
    assert m[k] == TaskSlots(tasks, init)[k];
    var placed := m[k := Slot(TaskKey(pid), TaskEntry(t, ChildrenOf(t, init) + [Reparent(s, t)]))];
    assert Place(m, s) == placed;
    var want := TaskSlots(tasks, init + [s]) + OrphanSlots(orphans);
    forall j | 0 <= j < |tasks| ensures placed[j] == want[j] {
      ChildrenAt(tasks, init, s, k, j);
      var before := ChildrenOf(tasks[j], init);
      assert want[j] == Slot(TaskKey(tasks[j].id), TaskEntry(tasks[j], ChildrenOf(tasks[j], init + [s])));
      if j == k {
        assert placed[j] == Slot(TaskKey(pid), TaskEntry(t, before + [Reparent(s, t)]));
      } else {
        assert before + [] == before;
        assert placed[j] == m[j] == Slot(TaskKey(tasks[j].id), TaskEntry(tasks[j], before));
      }
    }
    forall j | |tasks| <= j < |want| ensures placed[j] == want[j] {
      assert placed[j] == m[j] == OrphanSlots(orphans)[j - |tasks|];
    }
    assert placed == want;
  }

  /** A subtask whose parent id is falsy or names no task is stored last, on its own. */
  lemma PlaceOrphan(tasks: seq<TaskRow>, init: seq<TaskRow>, orphans: seq<TaskRow>, s: TaskRow)
    requires IsOrphan(s, TaskIds(tasks))
    requires ParentIdOf(s) == 0 ||
      FindKey(TaskSlots(tasks, init) + OrphanSlots(orphans), TaskKey(ParentIdOf(s))) < 0
    requires forall o :: o in orphans ==> o.id != s.id
    ensures Place(TaskSlots(tasks, init) + OrphanSlots(orphans), s)
      == TaskSlots(tasks, init + [s]) + OrphanSlots(orphans + [s])
  {
    var m := TaskSlots(tasks, init) + OrphanSlots(orphans);
    var newSlot := Slot(OrphanKey(s.id), OrphanEntry(s));
    forall j | 0 <= j < |m| ensures m[j].key != OrphanKey(s.id) {
      if j >= |tasks| {
        assert m[j] == OrphanSlots(orphans)[j - |tasks|];
        assert orphans[j - |tasks|] in orphans;
      }
    }
    assert Place(m, s) == m + [newSlot];
    forall j | 0 <= j < |tasks| ensures ChildrenOf(tasks[j], init + [s]) == ChildrenOf(tasks[j], init) {
      ChildrenStep(tasks[j], init, s);
      assert tasks[j] in tasks;
      assert !Attaches(s, tasks[j]);
    }
    assert TaskSlots(tasks, init + [s]) == TaskSlots(tasks, init);
    assert OrphanSlots(orphans + [s]) == OrphanSlots(orphans) + [newSlot];
  }

  /** With distinct ids, the last subtask's id is not among the orphans before it. */
  lemma LastIdIsNew(subs: seq<TaskRow>, ids: set<int>)
    requires DistinctIds(subs) && subs != []
    ensures forall o :: o in Orphans(subs[..|subs| - 1], ids) ==> o.id != subs[|subs| - 1].id
  {
    var init := subs[..|subs| - 1];
    forall o | o in Orphans(init, ids) ensures o.id != subs[|subs| - 1].id {
      var n :| 0 <= n < |init| && init[n] == o;
      assert subs[n] == o;
    }
  }

  /** The second pass, described entry by entry: every task in order with the children that
      name it, then the orphans in order. */
  lemma {:induction false} SecondPassShape(tasks: seq<TaskRow>, subs: seq<TaskRow>)
    requires DistinctIds(tasks) && DistinctIds(subs)
    ensures SecondPass(TaskSlots(tasks, []), subs)
      == TaskSlots(tasks, subs) + OrphanSlots(Orphans(subs, TaskIds(tasks)))
  {
    var ids := TaskIds(tasks);
    if subs == [] {
      assert OrphanSlots([]) == [];
      assert TaskSlots(tasks, subs) + [] == TaskSlots(tasks, []);
    } else {
      var init := subs[..|subs| - 1];
      var s := subs[|subs| - 1];
      assert subs == init + [s];
      SecondPassShape(tasks, init);
      var orphans := Orphans(init, ids);
      var m := TaskSlots(tasks, init) + OrphanSlots(orphans);
      assert SecondPass(TaskSlots(tasks, []), subs) == Place(m, s);
      var pid := ParentIdOf(s);
      var k := TaskSlotIndex(tasks, init, OrphanSlots(orphans), pid);
      if pid != 0 && pid in ids {
        assert Orphans(subs, ids) == orphans;
        PlaceAttached(tasks, init, orphans, s, k);
      } else {
        assert Orphans(subs, ids) == orphans + [s];
        LastIdIsNew(subs, ids);
        PlaceOrphan(tasks, init, orphans, s);
      }
    }
  }

  /** A table holding every task of `tasks` in order with the children it collects from
      `subs`, followed by every subtask of `orphans` in order, and nothing else. */
  predicate Shaped(h: seq<Entry>, tasks: seq<TaskRow>, subs: seq<TaskRow>, orphans: seq<TaskRow>) {
    && |h| == |tasks| + |orphans|
    && (forall i :: 0 <= i < |tasks| ==> h[i] == TaskEntry(tasks[i], ChildrenOf(tasks[i], subs)))
    && (forall i :: 0 <= i < |orphans| ==> h[|tasks| + i] == OrphanEntry(orphans[i]))
  }

  /** The assembled table: every TASK row once, in input order, with its children; then
      every orphan subtask once, in input order. Rows of any other kind do not appear. */
  lemma HierarchyShape(data: seq<TaskRow>)
    requires DistinctIds(Tasks(data)) && DistinctIds(Subtasks(data))
    ensures Shaped(Hierarchy(data), Tasks(data), Subtasks(data), Orphans(Subtasks(data), TaskIds(Tasks(data))))
  {
    var tasks := Tasks(data);
    var subs := Subtasks(data);
    var orphans := Orphans(subs, TaskIds(tasks));
    if data == [] {
      assert tasks == [] && orphans == [];
    } else {
      HierarchySlots(data);
      SlotValues(tasks, subs, orphans);
    }
  }

  /** The table is the values of the task slots followed by the orphan slots. */
  lemma HierarchySlots(data: seq<TaskRow>)
    requires DistinctIds(Tasks(data)) && DistinctIds(Subtasks(data))
    ensures Hierarchy(data) == MapValues(TaskSlots(Tasks(data), Subtasks(data)) + OrphanSlots(Orphans(Subtasks(data), TaskIds(Tasks(data)))))
  {
    FirstPassStoresTasks(data);
    SecondPassShape(Tasks(data), Subtasks(data));
  }

  /** The values of the task slots followed by the orphan slots. */
  lemma SlotValues(tasks: seq<TaskRow>, subs: seq<TaskRow>, orphans: seq<TaskRow>)
    ensures Shaped(MapValues(TaskSlots(tasks, subs) + OrphanSlots(orphans)), tasks, subs, orphans)
  {
    var slots := TaskSlots(tasks, subs) + OrphanSlots(orphans);
    var vs := MapValues(slots);
    forall i | 0 <= i < |tasks| ensures vs[i] == TaskEntry(tasks[i], ChildrenOf(tasks[i], subs)) {
      assert vs[i] == slots[i].entry;
      assert slots[i] == TaskSlots(tasks, subs)[i];
    }
    forall i | 0 <= i < |orphans| ensures vs[|tasks| + i] == OrphanEntry(orphans[i]) {
      assert vs[|tasks| + i] == slots[|tasks| + i].entry;
      assert slots[|tasks| + i] == OrphanSlots(orphans)[i];
    }
  }

  /** No rows, no table. */
  lemma EmptyHierarchy()
    ensures Hierarchy([]) == []
  {
  }

  function TotalChildren(tasks: seq<TaskRow>, subs: seq<TaskRow>): nat {
    if tasks == [] then 0
    else TotalChildren(tasks[..|tasks| - 1], subs) + |ChildrenOf(tasks[|tasks| - 1], subs)|
  }

  lemma TaskIdsSnoc(init: seq<TaskRow>, t: TaskRow)
    ensures TaskIds(init + [t]) == TaskIds(init) + {t.id}
  {
    assert forall u :: u in init + [t] <==> u in init || u == t;
  }

  /** How many tasks a subtask attaches to: one when its parent id is a task's, else none. */
  lemma {:induction false} AttachCount(tasks: seq<TaskRow>, subs: seq<TaskRow>, s: TaskRow)
    requires DistinctIds(tasks)
    ensures TotalChildren(tasks, subs + [s]) == TotalChildren(tasks, subs)
      + (if IsOrphan(s, TaskIds(tasks)) then 0 else 1)
  {
    if tasks != [] {
      var init := tasks[..|tasks| - 1];
      var t := tasks[|tasks| - 1];
      assert tasks == init + [t];
      assert DistinctIds(init);
      AttachCount(init, subs, s);
      ChildrenStep(t, subs, s);
      TaskIdsSnoc(init, t);
      forall u | u in init ensures u.id != t.id {
        var n :| 0 <= n < |init| && init[n] == u;
        assert tasks[n] == u;
      }
      assert t.id !in TaskIds(init);
    }
  }

  /** Every subtask ends up either as an orphan or as exactly one task's child. */
  lemma {:induction false} SubtasksConserved(tasks: seq<TaskRow>, subs: seq<TaskRow>)
    requires DistinctIds(tasks)
    ensures |Orphans(subs, TaskIds(tasks))| + TotalChildren(tasks, subs) == |subs|
  {
    if subs == [] {
      ZeroChildren(tasks);
    } else {
      var init := subs[..|subs| - 1];
      var s := subs[|subs| - 1];
      var ids := TaskIds(tasks);
      SubtasksConserved(tasks, init);
      OrphansSnocCount(subs, ids);
      assert init + [s] == subs;
      AttachCount(tasks, init, s);
    }
  }

  /** The last subtask adds one orphan when it is one, and none otherwise. */
  lemma OrphansSnocCount(subs: seq<TaskRow>, ids: set<int>)
    requires subs != []
    ensures |Orphans(subs, ids)| == |Orphans(subs[..|subs| - 1], ids)| + (if IsOrphan(subs[|subs| - 1], ids) then 1 else 0)
  {
  }

  /** Nothing is lost or duplicated: the top-level entries and all the children together
      number as many as the TASK and SUBTASK rows of the input. */
  lemma Conservation(data: seq<TaskRow>)
    requires DistinctIds(Tasks(data)) && DistinctIds(Subtasks(data))
    ensures |Hierarchy(data)| + TotalChildren(Tasks(data), Subtasks(data)) == |Tasks(data)| + |Subtasks(data)|
  {
    HierarchyShape(data);
    SubtasksConserved(Tasks(data), Subtasks(data));
  }

  lemma {:induction false} ZeroChildren(tasks: seq<TaskRow>)
    ensures TotalChildren(tasks, []) == 0
  {
    if tasks != [] {
      ZeroChildren(tasks[..|tasks| - 1]);
    }
  }

  // ---------------------------------------------------------------------------------
  // Columns and row actions.

  /** `hierarchicalData.findIndex(item => item.id === id)` */
  function FindEntry(h: seq<Entry>, id: int): (i: int)
    ensures -1 <= i < |h|
    ensures i >= 0 ==> EntryRow(h[i]).id == id && forall j :: 0 <= j < i ==> EntryRow(h[j]).id != id
    ensures i < 0 ==> forall j :: 0 <= j < |h| ==> EntryRow(h[j]).id != id
  {
    if h == [] then -1
    else if EntryRow(h[0]).id == id then 0
    else
      var r := FindEntry(h[1..], id);
      assert forall j :: 1 <= j < |h| ==> h[j] == h[1..][j - 1];
      if r < 0 then -1 else r + 1
  }

  /** The '#' column: a TASK row's 1-based position in the table, '' for other rows. */
  function IndexCell(record: TaskRow, h: seq<Entry>): (cell: Value)
    ensures record.kind != TASK ==> cell == Str("")
    ensures record.kind == TASK ==> cell.Num? && 0 <= cell.n <= |h|
    ensures record.kind == TASK ==> (cell.n == 0 <==> forall j :: 0 <= j < |h| ==> EntryRow(h[j]).id != record.id)
    ensures record.kind == TASK && cell.n >= 1 ==> EntryRow(h[cell.n - 1]).id == record.id
  {
    if record.kind == TASK then Num(FindEntry(h, record.id) + 1) else Str("")
  }

  /** In a table of that shape whose tasks have distinct ids, each task is numbered by its
      own position. */
  lemma IndexInShaped(h: seq<Entry>, tasks: seq<TaskRow>, subs: seq<TaskRow>, orphans: seq<TaskRow>, p: int)
    requires DistinctIds(tasks) && Shaped(h, tasks, subs, orphans)
    requires 0 <= p < |tasks| && tasks[p].kind == TASK
    ensures IndexCell(tasks[p], h) == Num(p + 1)
  {
    assert EntryRow(h[p]) == tasks[p];
    forall j | 0 <= j < p ensures EntryRow(h[j]).id != tasks[p].id {
      assert EntryRow(h[j]) == tasks[j];
    }
  }

  /** The TASK rows are numbered 1, 2, 3, ... in input order. */
  lemma IndexNumbersTasks(data: seq<TaskRow>, p: int)
    requires DistinctIds(Tasks(data)) && DistinctIds(Subtasks(data))
    requires 0 <= p < |Tasks(data)|
    ensures IndexCell(Tasks(data)[p], Hierarchy(data)) == Num(p + 1)
  {
    var tasks := Tasks(data);
    HierarchyShape(data);
    assert tasks[p] in tasks;
    IndexInShaped(Hierarchy(data), tasks, Subtasks(data), Orphans(Subtasks(data), TaskIds(tasks)), p);
  }

  /** The totalQuestion and maxErrors columns: the value, or 0 when it is missing, for a
      SUBTASK; '-' for any other row. */
  function CountCell(record: TaskRow, value: Value): (cell: Value)
    ensures record.kind != SUBTASK ==> cell == Str("-")
    ensures record.kind == SUBTASK && Truthy(value) ==> cell == value
    ensures record.kind == SUBTASK && !Truthy(value) ==> cell == Num(0)
  {
    if record.kind == SUBTASK then Or(value, Num(0)) else Str("-")
  }

  /** The permission codes the action column asks about. */
  datatype Permissions = Permissions(
    update: bool, delete: bool, create: bool,
    educatorQuestionList: bool, questionList: bool)

  datatype Action = Edit | Delete | CreateSubTask | ViewDetails | Questions

  /** The buttons a row shows: the column guards, combined with the create-subtask and
      question buttons' own kind tests. */
  function OfferedActions(role: Role, kind: int, perms: Permissions): (acts: set<Action>)
    ensures CreateSubTask in acts <==> kind == TASK && IsEducator(role) && perms.create
    ensures Questions in acts ==> kind == SUBTASK
    ensures kind == SUBTASK ==>
      (Questions in acts <==> if IsEducator(role) then perms.educatorQuestionList else perms.questionList)
    ensures ViewDetails in acts <==> !IsEducator(role)
    ensures Edit in acts <==> IsEducator(role) && perms.update
    ensures Delete in acts <==> IsEducator(role) && perms.delete
  {
    var questionPerm := if IsEducator(role) then perms.educatorQuestionList else perms.questionList;
    (if IsEducator(role) && perms.update then {Edit} else {})
    + (if IsEducator(role) && perms.delete then {Delete} else {})
    + (if kind == TASK && IsEducator(role) && perms.create then {CreateSubTask} else {})
    + (if !IsEducator(role) then {ViewDetails} else {})
    + (if kind == SUBTASK && questionPerm then {Questions} else {})
  }
}
