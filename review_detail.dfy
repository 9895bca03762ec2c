/** An educator's review of one student's work on a simulation: the student's answers
    grouped by task with per-task counts, the task outline, and the review text that is
    created, updated or deleted. */
module ReviewDetail {
  import opened SeqFacts
  import opened Text
  import opened JsValue
  import opened ApiEnvelope

  /** One recorded answer. `taskId` is `taskQuestion?.task?.id`, 0 when absent. */
  datatype Answer = Answer(id: int, taskId: int, isCorrect: Value)

  // ---------------------------------------------------------------------------------
  // Grouping answers by task.

  /** The answers given on one task, in the order they were listed. */
  function AnswersOf(answers: seq<Answer>, taskId: int): (r: seq<Answer>)
    ensures forall a :: a in r <==> a in answers && a.taskId == taskId
    ensures r != [] <==> Answered(answers, taskId)
    ensures |r| <= |answers|
  {
    if answers == [] then []
    else
      var last := answers[|answers| - 1];
      assert answers == answers[..|answers| - 1] + [last];
      AnswersOf(answers[..|answers| - 1], taskId) + (if last.taskId == taskId then [last] else [])
  }

  /** The task ids that own at least one answer. */
  predicate Answered(answers: seq<Answer>, taskId: int) {
    exists a :: a in answers && a.taskId == taskId
  }

  /** The grouping the `forEach` builds: a key for every task that has an answer, holding
      that task's answers in order; answers without a task are left out. */
  method GroupAnswersByTask(answers: seq<Answer>) returns (groups: map<int, seq<Answer>>)
    ensures forall id :: id in groups <==> id != 0 && Answered(answers, id)
    ensures forall id :: id in groups ==> groups[id] == AnswersOf(answers, id)
  {
    groups := map[];
    var i := 0;
    while i < |answers|
      invariant 0 <= i <= |answers|
      invariant forall id :: id in groups <==> id != 0 && Answered(answers[..i], id)
      invariant forall id :: id in groups ==> groups[id] == AnswersOf(answers[..i], id)
    {
      var answer := answers[i];
      var taskId := answer.taskId;
      assert answers[..i + 1] == answers[..i] + [answer];
      AnswersOfSnoc(answers[..i], answer);
      if taskId != 0 {
        groups := AddToGroup(groups, answer);
      }
      i := i + 1;
    }
    assert answers[..i] == answers;
  }

  /** One step of the `forEach`: the task's group is created when missing, then the answer
      is pushed onto it. */
  method AddToGroup(groups: map<int, seq<Answer>>, answer: Answer) returns (r: map<int, seq<Answer>>)
    ensures forall id :: id in r <==> id in groups || id == answer.taskId
    ensures r[answer.taskId] == GroupOf(groups, answer.taskId) + [answer]
    ensures forall id :: id in groups && id != answer.taskId ==> r[id] == groups[id]
  {
    r := groups;
    if answer.taskId !in r {
      r := r[answer.taskId := []];
    }
    r := r[answer.taskId := r[answer.taskId] + [answer]];
  }

  lemma AnswersOfSnoc(prefix: seq<Answer>, a: Answer)
    ensures forall id :: AnswersOf(prefix + [a], id) == AnswersOf(prefix, id) + (if a.taskId == id then [a] else [])
    ensures forall id :: Answered(prefix + [a], id) <==> Answered(prefix, id) || a.taskId == id
  {
    var p := prefix + [a];
    assert p[..|p| - 1] == prefix;
    assert a in p;
  }

  /** `groupedAnswersByTask[taskId] || []` */
  function GroupOf(groups: map<int, seq<Answer>>, taskId: int): seq<Answer> {
    if taskId in groups then groups[taskId] else []
  }

  /** The percentage shown: `0` when there is nothing to count, otherwise the ratio, which
      is printed with one decimal (the floating-point text is not modelled). */
  datatype Percentage = ZeroPercent | Ratio(correct: nat, total: nat)

  datatype TaskStats = TaskStats(correctCount: nat, totalCount: nat, percentage: Percentage)

  /** `a.isCorrect` */
  function AnswerVerdict(a: Answer): Value {
    a.isCorrect
  }

  /** `getTaskStats(taskId)` */
  function GetTaskStats(groups: map<int, seq<Answer>>, taskId: int): (s: TaskStats)
    ensures s.totalCount == |GroupOf(groups, taskId)|
    ensures s.correctCount <= s.totalCount
    ensures s.correctCount == 0 <==> forall i :: 0 <= i < s.totalCount ==> !Truthy(GroupOf(groups, taskId)[i].isCorrect)
    ensures s.totalCount == 0 <==> s.percentage == ZeroPercent
    ensures s.percentage.Ratio? ==> s.percentage.correct == s.correctCount && s.percentage.total == s.totalCount
  {
    var taskAnswers := GroupOf(groups, taskId);
    var correct := CountTruthy(taskAnswers, AnswerVerdict);
    var total := |taskAnswers|;
    TaskStats(correct, total, if total > 0 then Ratio(correct, total) else ZeroPercent)
  }

  /** The counts shown for a task are those of the student's answers on that task. */
  lemma StatsCountTaskAnswers(answers: seq<Answer>, groups: map<int, seq<Answer>>, taskId: int)
    requires forall id :: id in groups <==> id != 0 && Answered(answers, id)
    requires forall id :: id in groups ==> groups[id] == AnswersOf(answers, id)
    requires taskId != 0
    ensures GetTaskStats(groups, taskId).totalCount == |AnswersOf(answers, taskId)|
    ensures GetTaskStats(groups, taskId).correctCount == CountTruthy(AnswersOf(answers, taskId), AnswerVerdict)
  {
  }

  // ---------------------------------------------------------------------------------
  // The task outline.

  datatype ReviewTask = ReviewTask(id: int, kind: int, parentId: Option<int>)

  /** `tasks.filter(t => t.kind === 1)` */
  function MainTasks(tasks: seq<ReviewTask>): (r: seq<ReviewTask>)
    ensures forall t :: t in r <==> t in tasks && t.kind == 1
  {
    if tasks == [] then []
    else
      var last := tasks[|tasks| - 1];
      assert tasks == tasks[..|tasks| - 1] + [last];
      MainTasks(tasks[..|tasks| - 1]) + (if last.kind == 1 then [last] else [])
  }

  /** `tasks.filter(t => t.kind === 2 && t.parent?.id === parentId)` */
  function SubTasks(tasks: seq<ReviewTask>, parentId: int): (r: seq<ReviewTask>)
    ensures forall t :: t in r <==> t in tasks && t.kind == 2 && t.parentId == Some(parentId)
  {
    if tasks == [] then []
    else
      var last := tasks[|tasks| - 1];
      assert tasks == tasks[..|tasks| - 1] + [last];
      SubTasks(tasks[..|tasks| - 1], parentId) + (if last.kind == 2 && last.parentId == Some(parentId) then [last] else [])
  }

  /** The main tasks keep the list order: those of two lists in a row are the first list's followed by the second's. */
  lemma {:induction false} MainTasksAppend(a: seq<ReviewTask>, b: seq<ReviewTask>)
    ensures MainTasks(a + b) == MainTasks(a) + MainTasks(b)
    decreases |b|
  {
    if b == [] {
      AppendEmpty(a);
      AppendEmpty(MainTasks(a));
    } else {
      var init := b[..|b| - 1];
      var last := b[|b| - 1];
      var tail := if last.kind == 1 then [last] else [];
      SplitLast(a, b);
      MainTasksAppend(a, init);
      AppendAssoc(MainTasks(a), MainTasks(init), tail);
    }
  }

  /** `getSubTasks` keeps the list order: the subtasks of two lists in a row are the first list's followed by the second's. */
  lemma {:induction false} SubTasksAppend(a: seq<ReviewTask>, b: seq<ReviewTask>, parentId: int)
    ensures SubTasks(a + b, parentId) == SubTasks(a, parentId) + SubTasks(b, parentId)
    decreases |b|
  {
    if b == [] {
      AppendEmpty(a);
      AppendEmpty(SubTasks(a, parentId));
    } else {
      var init := b[..|b| - 1];
      var last := b[|b| - 1];
      var tail := if last.kind == 2 && last.parentId == Some(parentId) then [last] else [];
      SplitLast(a, b);
      SubTasksAppend(a, init, parentId);
      AppendAssoc(SubTasks(a, parentId), SubTasks(init, parentId), tail);
    }
  }

  /** A subtask is listed under one main task at most: the lists of two different parents
      share nothing. */
  lemma SubTasksDisjoint(tasks: seq<ReviewTask>, p: int, q: int)
    requires p != q
    ensures forall t :: t in SubTasks(tasks, p) ==> t !in SubTasks(tasks, q)
  {
  }

  /** `studentInfo?.fullName || username`: the account's full name, or the user name when
      there is none. */
  function DisplayName(fullName: Value, username: string): (shown: Value)
    ensures Truthy(fullName) ==> shown == fullName
    ensures !Truthy(fullName) ==> shown == Str(username)
  {
    Or(fullName, Str(username))
  }

  // ---------------------------------------------------------------------------------
  // Saving and deleting the review.

  datatype Review = Review(id: int, content: string)

  datatype ReviewRequest =
    | UpdateReview(id: int, content: string)
    | CreateReview(simulationId: int, username: string, content: string)
    | DeleteReview(id: int)

  /** `null` review id. */
  const NO_REVIEW: int := 0

  /** `error?.message || 'Có lỗi xảy ra!'` */
  function ErrorText(f: Failure): (t: string)
    ensures t != ""
    ensures f.message != "" ==> t == f.message
  {
    if f.message != "" then f.message else "Có lỗi xảy ra!"
  }

  class ReviewEditor {
    const simulationId: int
    const username: string
    var reviewId: int
    var content: string        // the form's `content` field
    var reloads: nat           // how many times the review was fetched again
    var notices: seq<Notice>

    constructor (simulationId: int, username: string)
      ensures this.simulationId == simulationId && this.username == username
      ensures reviewId == NO_REVIEW && content == "" && reloads == 0 && notices == []
    {
      this.simulationId := simulationId;
      this.username := username;
      reviewId := NO_REVIEW;
      content := "";
      reloads := 0;
      notices := [];
    }

    /** The effect run when an existing review arrives. */
    method LoadExisting(existing: Option<Review>)
      modifies this
      ensures existing.Some? ==> reviewId == existing.value.id && content == existing.value.content
      ensures existing.None? ==> reviewId == old(reviewId) && content == old(content)
      ensures reloads == old(reloads) && notices == old(notices)
    {
      if existing.Some? {
        reviewId := existing.value.id;
        content := existing.value.content;
      }
    }

    /** `handleSaveReview(values)`: blank text is refused without a call; otherwise an
        update of the existing review or the creation of one. Any completed call counts as
        done and the review is fetched again. */
    method SaveReview(text: Option<string>, outcome: CallOutcome) returns (sent: Option<ReviewRequest>)
      modifies this
      ensures text.None? || AllSpace(text.value) ==>
        sent.None? && notices == old(notices) + [ErrorNotice("Vui lòng nhập nội dung nhận xét!")]
        && reloads == old(reloads)
      ensures text.Some? && !AllSpace(text.value) && old(reviewId) != NO_REVIEW ==>
        sent == Some(UpdateReview(old(reviewId), text.value))
      ensures text.Some? && !AllSpace(text.value) && old(reviewId) == NO_REVIEW ==>
        sent == Some(CreateReview(simulationId, username, text.value))
      ensures text.Some? && !AllSpace(text.value) && outcome.Completed? ==>
        reloads == old(reloads) + 1
        && notices == old(notices) + [SuccessNotice(if old(reviewId) != NO_REVIEW then "Cập nhật nhận xét thành công!" else "Tạo nhận xét thành công!")]
      ensures text.Some? && !AllSpace(text.value) && outcome.Failed? ==>
        reloads == old(reloads) && notices == old(notices) + [ErrorNotice(ErrorText(outcome.failure))]
      ensures reviewId == old(reviewId) && content == old(content)
    {
      if text.None? || Trim(text.value) == "" {
        TrimEmptyIffBlank(if text.Some? then text.value else "");
        notices := notices + [ErrorNotice("Vui lòng nhập nội dung nhận xét!")];
        return None;
      }
      TrimEmptyIffBlank(text.value);
      if reviewId != NO_REVIEW {
        sent := Some(UpdateReview(reviewId, text.value));
      } else {
        sent := Some(CreateReview(simulationId, username, text.value));
      }
      match outcome {
        case Completed(_) =>
          notices := notices + [SuccessNotice(if reviewId != NO_REVIEW then "Cập nhật nhận xét thành công!" else "Tạo nhận xét thành công!")];
          reloads := reloads + 1;
        case Failed(f) =>
          notices := notices + [ErrorNotice(ErrorText(f))];
      }
    }

    /** `handleDeleteReview()`: after the confirmation, a delete of the current review; when
        it completes the review id and the form are cleared and the review fetched again. */
    method DeleteReviewConfirmed(confirmed: bool, outcome: CallOutcome) returns (sent: Option<ReviewRequest>)
      modifies this
      ensures !confirmed ==> sent.None? && unchanged(this)
      ensures confirmed ==> sent == Some(DeleteReview(old(reviewId)))
      ensures confirmed && outcome.Completed? ==>
        reviewId == NO_REVIEW && content == "" && reloads == old(reloads) + 1
        && notices == old(notices) + [SuccessNotice("Xóa nhận xét thành công!")]
      ensures confirmed && outcome.Failed? ==>
        reviewId == old(reviewId) && content == old(content) && reloads == old(reloads)
        && notices == old(notices) + [ErrorNotice(ErrorText(outcome.failure))]
    {
      if !confirmed {
        return None;
      }
      sent := Some(DeleteReview(reviewId));
      match outcome {
        case Completed(_) =>
          notices := notices + [SuccessNotice("Xóa nhận xét thành công!")];
          reviewId := NO_REVIEW;
          content := "";
          reloads := reloads + 1;
        case Failed(f) =>
          notices := notices + [ErrorNotice(ErrorText(f))];
      }
    }
  }
}
