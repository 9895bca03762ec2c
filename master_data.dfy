/** The constant option tables of the admin front end, and the dictionaries the list
    pages build from them with `Object.fromEntries`. A label is kept as the identifier
    of its translated message. */
module MasterData {
  import opened JsValue

  // Moderation statuses of a simulation (the list page's own constants).
  const STATUS_ACTIVE: int := 1
  const STATUS_PENDING: int := 0
  const STATUS_WAITING_APPROVE: int := 2
  const STATUS_WAITING_APPROVE_DELETE: int := 3
  const STATUS_LOCK: int := -1
  const STATUS_REJECT: int := -2

  // Kinds of a task row.
  const TASK: int := 1
  const SUBTASK: int := 2

  /** The signed-in user's type. The pages that branch on it test only for an educator (or,
      on the profile form, for an administrator); everyone else takes the other branch. */
  datatype Role = Admin | Educator | Student

  predicate IsEducator(role: Role) {
    role == Educator
  }

  datatype Choice = Choice(value: int, messageId: string, color: string)

  const EducatorStatusOptions: seq<Choice> := [
    Choice(1, "statusActive", "#00A648"),
    Choice(2, "statusWaitingApproveSinup", "#FFBF00"),
    Choice(0, "statusWaitingOtp", "#007accff"),
    Choice(-2, "statusReject", "#CC0000")
  ]

  const LevelOptions: seq<Choice> := [
    Choice(1, "level_1", "#00A648"),
    Choice(2, "level_2", "#FFBF00"),
    Choice(3, "level_3", "#CC0000")
  ]

  const SimulationStatusOptions: seq<Choice> := [
    Choice(STATUS_ACTIVE, "statusActive", "#00A648"),
    Choice(STATUS_WAITING_APPROVE, "statusWaitingApprove", "#1890ff"),
    Choice(STATUS_WAITING_APPROVE_DELETE, "statusWaitingApproveDelete", "#fa8c16")
  ]

  const TaskKindOptions: seq<Choice> := [
    Choice(TASK, "task", "#00A648"),
    Choice(SUBTASK, "subtask", "#FFBF00")
  ]

  const QuestionTypeOptions: seq<Choice> := [
    Choice(1, "question.type.file", "blue"),
    Choice(2, "question.type.text", "green"),
    Choice(3, "question.type.choice", "orange")
  ]

  function Values(table: seq<Choice>): seq<int> {
    seq(|table|, i requires 0 <= i < |table| => table[i].value)
  }

  predicate DistinctValues(table: seq<Choice>) {
    forall i, j :: 0 <= i < j < |table| ==> table[i].value != table[j].value
  }

  /** `Object.fromEntries(table.map(item => [item.value, item]))`: a later entry with the
      same value replaces an earlier one. */
  function FromEntries(table: seq<Choice>): map<int, Choice> {
    if table == [] then map[]
    else FromEntries(table[..|table| - 1])[table[|table| - 1].value := table[|table| - 1]]
  }

  /** `dictionary[value] || {}`; `None` is the empty object, which renders an empty tag. */
  function LookupChoice(table: seq<Choice>, value: int): Option<Choice> {
    var d := FromEntries(table);
    if value in d then Some(d[value]) else None
  }

  /** With distinct values the dictionary has exactly the table's values as keys, and each
      key leads back to its own row: no entry of the table is shadowed. */
  lemma {:induction false} FromEntriesFindsEveryRow(table: seq<Choice>)
    requires DistinctValues(table)
    ensures forall v :: v in FromEntries(table) <==> v in Values(table)
    ensures forall i :: 0 <= i < |table| ==>
      table[i].value in FromEntries(table) && FromEntries(table)[table[i].value] == table[i]
  {
    if table != [] {
      var init := table[..|table| - 1];
      FromEntriesFindsEveryRow(init);
      assert Values(table) == Values(init) + [table[|table| - 1].value];
      forall i | 0 <= i < |table|
        ensures table[i].value in FromEntries(table) && FromEntries(table)[table[i].value] == table[i]
      {
        if i < |table| - 1 {
          assert table[i] == init[i];
        }
      }
    }
  }

  /** The lookup finds a row exactly for the values the table lists. */
  lemma LookupChoiceFinds(table: seq<Choice>, value: int)
    requires DistinctValues(table)
    ensures LookupChoice(table, value).Some? <==> value in Values(table)
    ensures LookupChoice(table, value).Some? ==> LookupChoice(table, value).value.value == value
  {
    FromEntriesFindsEveryRow(table);
    if value in Values(table) {
      var i := ValueIndex(table, value);
      assert FromEntries(table)[table[i].value] == table[i];
    }
  }

  /** The position of a listed value. */
  lemma ValueIndex(table: seq<Choice>, value: int) returns (i: nat)
    requires value in Values(table)
    ensures i < |table| && table[i].value == value
  {
    var k :| 0 <= k < |Values(table)| && Values(table)[k] == value;
    i := k;
  }

  /** The simulation status table lists ACTIVE, WAITING_APPROVE and WAITING_APPROVE_DELETE
      only, so a PENDING, LOCK or REJECT row gets an empty status tag. */
  lemma SimulationStatusTag(status: int)
    ensures DistinctValues(SimulationStatusOptions)
    ensures LookupChoice(SimulationStatusOptions, status).Some? <==>
      status == STATUS_ACTIVE || status == STATUS_WAITING_APPROVE || status == STATUS_WAITING_APPROVE_DELETE
    ensures status == STATUS_PENDING || status == STATUS_LOCK || status == STATUS_REJECT ==>
      LookupChoice(SimulationStatusOptions, status) == None
  {
    assert Values(SimulationStatusOptions) == [1, 2, 3];
    LookupChoiceFinds(SimulationStatusOptions, status);
  }

  /** The value sets of the remaining tables, each without repetition. */
  lemma TableValues()
    ensures DistinctValues(EducatorStatusOptions) && Values(EducatorStatusOptions) == [1, 2, 0, -2]
    ensures DistinctValues(LevelOptions) && Values(LevelOptions) == [1, 2, 3]
    ensures DistinctValues(QuestionTypeOptions) && Values(QuestionTypeOptions) == [1, 2, 3]
    ensures DistinctValues(TaskKindOptions) && Values(TaskKindOptions) == [TASK, SUBTASK]
  {
  }
}
