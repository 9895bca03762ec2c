/** The page a student sees before working on a task: the task's progress status, whether
    the exercise counts as started, the guard on starting it, resetting it, and the icon
    for the kind of material the task carries. */
module TaskDetail {
  import opened Text
  import opened JsValue
  import opened ApiEnvelope

  /** The student's progress record: `state` is 0 (not started), 1 (in progress) or
      2 (finished) as the server sends it, `None` when absent or `null`. */
  datatype ProgressRecord = ProgressRecord(id: int, state: Option<int>)

  datatype Status = Status(text: string, color: string)

  /** `getProgressStatus()` */
  function ProgressStatus(progress: Option<ProgressRecord>): (s: Status)
    ensures progress.None? ==> s == Status("Chưa bắt đầu", "default")
    ensures progress.Some? && progress.value.state == Some(0) ==> s == Status("Chưa bắt đầu", "default")
    ensures progress.Some? && progress.value.state == Some(1) ==> s == Status("Đang thực hiện", "processing")
    ensures progress.Some? && progress.value.state == Some(2) ==> s == Status("Đã hoàn thành", "success")
    ensures progress.Some? && !(progress.value.state.Some? && 0 <= progress.value.state.value <= 2) ==>
      s == Status("Chưa xác định", "default")
  {
    if progress.None? then Status("Chưa bắt đầu", "default")
    else
      match progress.value.state
      case Some(0) => Status("Chưa bắt đầu", "default")
      case Some(1) => Status("Đang thực hiện", "processing")
      case Some(2) => Status("Đã hoàn thành", "success")
      case _ => Status("Chưa xác định", "default")
  }

  /** `progress.state > 0`: an absent or `null` state compares as not started. */
  predicate StateStarted(state: Option<int>) {
    state.Some? && state.value > 0
  }

  /** For the three states the server uses, the exercise counts as started exactly when the
      status is no longer "not started"; the status shows "finished" only for a started one. */
  lemma StartedAgreesWithStatus(p: ProgressRecord)
    requires p.state.Some? && 0 <= p.state.value <= 2
    ensures StateStarted(p.state) <==> ProgressStatus(Some(p)).text != "Chưa bắt đầu"
    ensures ProgressStatus(Some(p)).color == "success" ==> StateStarted(p.state)
  {
  }

  /** The main button's label: start, review the result of a finished exercise, or carry on. */
  function ActionLabel(hasStarted: bool, progress: Option<ProgressRecord>): (caption: string)
    ensures !hasStarted ==> caption == "Bắt đầu làm bài"
    ensures hasStarted && progress.Some? && progress.value.state == Some(2) ==> caption == "Xem lại kết quả"
    ensures hasStarted && !(progress.Some? && progress.value.state == Some(2)) ==> caption == "Tiếp tục làm bài"
  {
    if !hasStarted then "Bắt đầu làm bài"
    else if progress.Some? && progress.value.state == Some(2) then "Xem lại kết quả"
    else "Tiếp tục làm bài"
  }

  datatype Icon = VideoIcon | FileIcon | ImageIcon | BookIcon

  /** `getTaskTypeIcon(task)`: video first, then file, then image, otherwise a book. */
  function TaskIcon(task: Value): (icon: Icon)
    ensures icon == VideoIcon <==> Truthy(Get(task, "videoPath"))
    ensures icon == FileIcon <==> !Truthy(Get(task, "videoPath")) && Truthy(Get(task, "filePath"))
    ensures icon == ImageIcon <==> !Truthy(Get(task, "videoPath")) && !Truthy(Get(task, "filePath")) && Truthy(Get(task, "imagePath"))
    ensures icon == BookIcon <==> !Truthy(Get(task, "videoPath")) && !Truthy(Get(task, "filePath")) && !Truthy(Get(task, "imagePath"))
  {
    if Truthy(Get(task, "videoPath")) then VideoIcon
    else if Truthy(Get(task, "filePath")) then FileIcon
    else if Truthy(Get(task, "imagePath")) then ImageIcon
    else BookIcon
  }

  /** The route of the exercise page for a task. */
  function ExercisePath(simulationId: string, taskId: string): (path: string)
    ensures StartsWith(path, "/simulations/" + simulationId + "/tasks/")
    ensures EndsWith(path, taskId + "/exercise")
  {
    var head := "/simulations/" + simulationId + "/tasks/";
    var path := head + taskId + "/exercise";
    assert path[..|head|] == head;
    assert path[|path| - |taskId + "/exercise"|..] == taskId + "/exercise";
    path
  }

  class TaskDetailState {
    const simulationId: string
    const taskId: string
    var questionCount: nat
    var progress: Option<ProgressRecord>
    var hasStarted: bool
    var progressFetches: nat      // how many times a reset asked for the progress again
    var notices: seq<Notice>

    constructor (simulationId: string, taskId: string)
      ensures this.simulationId == simulationId && this.taskId == taskId
      ensures questionCount == 0 && progress.None? && !hasStarted && progressFetches == 0 && notices == []
    {
      this.simulationId := simulationId;
      this.taskId := taskId;
      questionCount := 0;
      progress := None;
      hasStarted := false;
      progressFetches := 0;
      notices := [];
    }

    /** `fetchQuestions()`: the number of questions listed, when the server answers with
        `result`. */
    method FetchQuestions(ok: bool, content: seq<Value>)
      modifies this
      ensures ok ==> questionCount == |content|
      ensures !ok ==> questionCount == old(questionCount)
      ensures progress == old(progress) && hasStarted == old(hasStarted)
      ensures progressFetches == old(progressFetches) && notices == old(notices)
    {
      if ok {
        questionCount := |content|;
      }
    }

    /** `fetchProgress()`: on `result` the returned record (`None` for `data: null`) is
        stored and the exercise counts as started exactly when a record came back whose state
        is above 0. */
    method FetchProgress(ok: bool, data: Option<ProgressRecord>)
      modifies this
      ensures ok ==> progress == data
      ensures ok ==> (hasStarted <==> data.Some? && StateStarted(data.value.state))
      ensures !ok ==> progress == old(progress) && hasStarted == old(hasStarted)
      ensures progressFetches == old(progressFetches)
      ensures questionCount == old(questionCount) && notices == old(notices)
    {
      if ok {
        progress := data;
        hasStarted := data.Some? && StateStarted(data.value.state);
      }
    }

    /** `handleStartExercise()`: a task without questions shows an error and stays; otherwise
        the exercise page opens. */
    method StartExercise() returns (navigateTo: Option<string>)
      modifies this
      ensures navigateTo.Some? <==> questionCount > 0
      ensures navigateTo.Some? ==> navigateTo.value == ExercisePath(simulationId, taskId)
      ensures questionCount == 0 ==> notices == old(notices) + [ErrorNotice("Bài tập này chưa có câu hỏi")]
      ensures questionCount > 0 ==> notices == old(notices)
      ensures questionCount == old(questionCount) && progress == old(progress) && hasStarted == old(hasStarted)
      ensures progressFetches == old(progressFetches)
    {
      if questionCount == 0 {
        notices := notices + [ErrorNotice("Bài tập này chưa có câu hỏi")];
        return None;
      }
      navigateTo := Some(ExercisePath(simulationId, taskId));
    }

    /** `handleRestartExercise()`: after the confirmation, a reset whose `result` marks the
        exercise as not started and requests the progress again; a failed call shows an
        error; a completed call without `result` changes nothing. */
    method RestartExercise(confirmed: bool, outcome: CallOutcome) returns (requested: bool)
      modifies this
      ensures requested == confirmed
      ensures confirmed && outcome.Completed? && Truthy(outcome.response.result) ==>
        !hasStarted && progressFetches == old(progressFetches) + 1
        && notices == old(notices) + [SuccessNotice("Đã reset bài tập thành công")]
      ensures confirmed && outcome.Failed? ==>
        hasStarted == old(hasStarted) && progressFetches == old(progressFetches)
        && notices == old(notices) + [ErrorNotice("Không thể reset bài tập")]
      ensures !(confirmed && outcome.Completed? && Truthy(outcome.response.result)) && !(confirmed && outcome.Failed?) ==>
        hasStarted == old(hasStarted) && progressFetches == old(progressFetches) && notices == old(notices)
      ensures questionCount == old(questionCount) && progress == old(progress)
    {
      requested := confirmed;
      if !confirmed {
        return;
      }
      match outcome {
        case Completed(r) =>
          if Truthy(r.result) {
            notices := notices + [SuccessNotice("Đã reset bài tập thành công")];
            hasStarted := false;
            progressFetches := progressFetches + 1;
          }
        case Failed(_) =>
          notices := notices + [ErrorNotice("Không thể reset bài tập")];
      }
    }
  }
}
