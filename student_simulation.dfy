/** The student's view of one simulation: its tasks grouped under their parents, the
    level badge, and the task each "start" link opens. Unlike the editor's hierarchy there
    is no orphan rule: a subtask whose parent is not listed is not shown. */
module StudentSimulation {
  import opened SeqFacts
  import opened JsValue
  import MasterData

  /** A task as the student endpoint returns it; `parentId` is `parent.id`, `None` when the
      task has no `parent`. */
  datatype StudentTask = StudentTask(id: int, name: string, title: string, parentId: Option<int>)

  /** A top-level task with the tasks listed under it. */
  datatype Group = Group(task: StudentTask, children: seq<StudentTask>)

  /** `tasks.filter(task => !task.parent)` */
  function TopLevel(tasks: seq<StudentTask>): (r: seq<StudentTask>)
    ensures forall t :: t in r <==> t in tasks && t.parentId.None?
    ensures |r| <= |tasks|
  {
    if tasks == [] then []
    else
      var last := tasks[|tasks| - 1];
      assert tasks == tasks[..|tasks| - 1] + [last];
      TopLevel(tasks[..|tasks| - 1]) + (if last.parentId.None? then [last] else [])
  }

  /** `childTasks.filter(child => child.parent.id === parent.id)` */
  function ChildrenOf(tasks: seq<StudentTask>, id: int): (r: seq<StudentTask>)
    ensures forall t :: t in r <==> t in tasks && t.parentId == Some(id)
    ensures |r| <= |tasks|
  {
    if tasks == [] then []
    else
      var last := tasks[|tasks| - 1];
      assert tasks == tasks[..|tasks| - 1] + [last];
      ChildrenOf(tasks[..|tasks| - 1], id) + (if last.parentId == Some(id) then [last] else [])
  }

  /** Filtering keeps the list order: the top-level tasks of two lists in a row are those
      of the first followed by those of the second. */
  lemma {:induction false} TopLevelAppend(a: seq<StudentTask>, b: seq<StudentTask>)
    ensures TopLevel(a + b) == TopLevel(a) + TopLevel(b)
    decreases |b|
  {
    if b == [] {
      AppendEmpty(a);
      AppendEmpty(TopLevel(a));
    } else {
      var init := b[..|b| - 1];
      var last := b[|b| - 1];
      var tail := if last.parentId.None? then [last] else [];
      SplitLast(a, b);
      TopLevelAppend(a, init);
      AppendAssoc(TopLevel(a), TopLevel(init), tail);
    }
  }

  /** The children of a task in two lists in a row are those of the first list followed by
      those of the second. */
  lemma {:induction false} ChildrenOfAppend(a: seq<StudentTask>, b: seq<StudentTask>, id: int)
    ensures ChildrenOf(a + b, id) == ChildrenOf(a, id) + ChildrenOf(b, id)
    decreases |b|
  {
    if b == [] {
      AppendEmpty(a);
      AppendEmpty(ChildrenOf(a, id));
    } else {
      var init := b[..|b| - 1];
      var last := b[|b| - 1];
      var tail := if last.parentId == Some(id) then [last] else [];
      SplitLast(a, b);
      ChildrenOfAppend(a, init, id);
      AppendAssoc(ChildrenOf(a, id), ChildrenOf(init, id), tail);
    }
  }

  /** `groupTasksByParent()`: one group per top-level task, in list order, each holding the
      tasks whose parent is that task, in list order. */
  function GroupTasksByParent(tasks: seq<StudentTask>): (groups: seq<Group>)
    ensures |groups| == |TopLevel(tasks)|
    ensures forall i :: 0 <= i < |groups| ==>
      groups[i].task == TopLevel(tasks)[i] && groups[i].children == ChildrenOf(tasks, groups[i].task.id)
  {
    var top := TopLevel(tasks);
    seq(|top|, i requires 0 <= i < |top| => Group(top[i], ChildrenOf(tasks, top[i].id)))
  }

  /** The top-level task of each group, in order. */
  function Heads(groups: seq<Group>): (ts: seq<StudentTask>)
    ensures |ts| == |groups|
    ensures forall i :: 0 <= i < |groups| ==> ts[i] == groups[i].task
  {
    seq(|groups|, i requires 0 <= i < |groups| => groups[i].task)
  }

  /** The groups follow the list: for a list made of `a` then `b`, the groups of `a`'s
      top-level tasks come first, in order, then those of `b`'s; and in every group the
      children listed in `a` come before those listed in `b`. */
  lemma GroupsInListOrder(a: seq<StudentTask>, b: seq<StudentTask>)
    ensures Heads(GroupTasksByParent(a + b)) == TopLevel(a) + TopLevel(b)
    ensures forall g :: g in GroupTasksByParent(a + b) ==> g.children == ChildrenOf(a, g.task.id) + ChildrenOf(b, g.task.id)
  {
    var groups := GroupTasksByParent(a + b);
    TopLevelAppend(a, b);
    assert Heads(groups) == TopLevel(a + b);
    forall g | g in groups ensures g.children == ChildrenOf(a, g.task.id) + ChildrenOf(b, g.task.id) {
      var i :| 0 <= i < |groups| && groups[i] == g;
      ChildrenOfAppend(a, b, g.task.id);
    }
  }

  /** A task is shown at the top level exactly when it has no parent. */
  lemma TopLevelExactly(tasks: seq<StudentTask>, t: StudentTask)
    ensures (exists g :: g in GroupTasksByParent(tasks) && g.task == t) <==> t in tasks && t.parentId.None?
  {
    var groups := GroupTasksByParent(tasks);
    var top := TopLevel(tasks);
    if t in tasks && t.parentId.None? {
      var i :| 0 <= i < |top| && top[i] == t;
      assert groups[i] in groups && groups[i].task == t;
    }
  }

  /** A subtask is shown under a group exactly when its parent is that group's task; one
      whose parent is not a listed top-level task is shown nowhere. */
  lemma ChildPlacement(tasks: seq<StudentTask>, c: StudentTask)
    requires c in tasks && c.parentId.Some?
    ensures forall g :: g in GroupTasksByParent(tasks) ==> (c in g.children <==> g.task.id == c.parentId.value)
    ensures (forall t :: t in tasks && t.parentId.None? ==> t.id != c.parentId.value) ==>
      forall g :: g in GroupTasksByParent(tasks) ==> c !in g.children
  {
    var groups := GroupTasksByParent(tasks);
    forall g | g in groups ensures g.task in tasks && g.task.parentId.None? {
      var i :| 0 <= i < |groups| && groups[i] == g;
      assert TopLevel(tasks)[i] in TopLevel(tasks);
    }
  }

  /** What a group's start links open: its own task when it has no children, otherwise one
      link per child, in order. */
  function StartTargets(g: Group): (ids: seq<int>)
    ensures |ids| == if g.children == [] then 1 else |g.children|
    ensures g.children == [] ==> ids == [g.task.id]
    ensures g.children != [] ==> forall k :: 0 <= k < |ids| ==> ids[k] == g.children[k].id
  {
    if g.children == [] then [g.task.id]
    else seq(|g.children|, k requires 0 <= k < |g.children| => g.children[k].id)
  }

  /** Every link a student can follow opens a task of this simulation, and a top-level
      task is opened directly only when it has nothing under it. */
  lemma StartTargetsAreTasks(tasks: seq<StudentTask>, g: Group, id: int)
    requires g in GroupTasksByParent(tasks)
    requires id in StartTargets(g)
    ensures exists t :: t in tasks && t.id == id
    ensures id == g.task.id && g.children != [] ==> exists c :: c in g.children && c.id == id
  {
    var groups := GroupTasksByParent(tasks);
    var i :| 0 <= i < |groups| && groups[i] == g;
    assert g.task in TopLevel(tasks);
    if g.children != [] {
      var k :| 0 <= k < |g.children| && StartTargets(g)[k] == id;
      assert g.children[k] in g.children;
    }
  }

  /** `getLevelColor(level)` */
  function LevelColor(level: Value): (color: string)
    ensures StrictEquals(level, Num(1)) ==> color == "green"
    ensures StrictEquals(level, Num(2)) ==> color == "orange"
    ensures StrictEquals(level, Num(3)) ==> color == "red"
    ensures !(level.Num? && 1 <= level.n <= 3) ==> color == "default"
  {
    if StrictEquals(level, Num(1)) then "green"
    else if StrictEquals(level, Num(2)) then "orange"
    else if StrictEquals(level, Num(3)) then "red"
    else "default"
  }

  /** `getLevelText(level)` */
  function LevelText(level: Value): (text: string)
    ensures StrictEquals(level, Num(1)) ==> text == "Dễ"
    ensures StrictEquals(level, Num(2)) ==> text == "Trung bình"
    ensures StrictEquals(level, Num(3)) ==> text == "Khó"
    ensures !(level.Num? && 1 <= level.n <= 3) ==> text == "Chưa xác định"
  {
    if StrictEquals(level, Num(1)) then "Dễ"
    else if StrictEquals(level, Num(2)) then "Trung bình"
    else if StrictEquals(level, Num(3)) then "Khó"
    else "Chưa xác định"
  }

  /** The badge knows exactly the levels of the level table: a number gets a real colour
      and text exactly when the table lists it. */
  lemma LevelsAgreeWithTable(n: int)
    ensures LevelColor(Num(n)) != "default" <==> MasterData.LookupChoice(MasterData.LevelOptions, n).Some?
    ensures LevelText(Num(n)) != "Chưa xác định" <==> MasterData.LookupChoice(MasterData.LevelOptions, n).Some?
  {
    MasterData.TableValues();
    MasterData.LookupChoiceFinds(MasterData.LevelOptions, n);
  }
}
