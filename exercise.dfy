/** A student working through the questions of one task: moving between questions,
    choosing answers, and submitting them one call per answered question, each judged
    against the question's options on the client. */
module Exercise {
  import opened JsValue
  import opened ApiEnvelope

  /** A question as listed for the student; `parsedOptions` is `undefined` until the options
      text has been parsed. */
  datatype Question = Question(id: int, options: Value, parsedOptions: Value)

  /** The options of a question once the list has loaded: the parsed value when the options
      text is set and parses (`parsed` is what `JSON.parse` returns, `None` when it throws),
      an empty list when it does not parse, and nothing when there is no text. */
  function ParseOptions(q: Question, parsed: Option<Value>): (r: Question)
    ensures r.id == q.id && r.options == q.options
    ensures !Truthy(q.options) ==> r.parsedOptions == q.parsedOptions
    ensures Truthy(q.options) && parsed.None? ==> r.parsedOptions == Arr([])
    ensures Truthy(q.options) && parsed.Some? ==> r.parsedOptions == parsed.value
  {
    if Truthy(q.options) then q.(parsedOptions := if parsed.Some? then parsed.value else Arr([]))
    else q
  }

  function ParseAll(list: seq<Question>, parsed: seq<Option<Value>>): (r: seq<Question>)
    requires |parsed| == |list|
    ensures |r| == |list|
    ensures forall i :: 0 <= i < |list| ==> r[i] == ParseOptions(list[i], parsed[i])
  {
    seq(|list|, i requires 0 <= i < |list| => ParseOptions(list[i], parsed[i]))
  }

  /** How `options.find(opt => opt.isCorrect)` ends: a `TypeError` when it reaches a `null`
      or `undefined` element first, no option, or the first option marked correct. */
  datatype Search = Throws | Missing | Found(option: Value)

  predicate MarkedCorrect(opt: Value) {
    Truthy(Get(opt, "isCorrect"))
  }

  /** No option from position `k` up to before position `i` is empty or marked correct. */
  predicate NoneBetween(items: seq<Value>, k: int, i: int) {
    forall j :: k <= j < i && 0 <= j < |items| ==> !IsNullish(items[j]) && !MarkedCorrect(items[j])
  }

  /** No option before position `i` is empty or marked correct. */
  predicate NoneBefore(items: seq<Value>, i: int) {
    NoneBetween(items, 0, i)
  }

  /** `find` from position `k` on. */
  function FindFrom(items: seq<Value>, k: nat): (r: Search)
    requires k <= |items|
    decreases |items| - k
    ensures r.Missing? <==> NoneBetween(items, k, |items|)
    ensures r.Found? ==> exists i :: k <= i < |items| && items[i] == r.option && MarkedCorrect(items[i]) && NoneBetween(items, k, i)
    ensures r.Throws? ==> exists i :: k <= i < |items| && IsNullish(items[i]) && NoneBetween(items, k, i)
  {
    if k == |items| then Missing
    else if IsNullish(items[k]) then Throws
    else if MarkedCorrect(items[k]) then Found(items[k])
    else
      var r := FindFrom(items, k + 1);
      if r.Found? then
        ghost var i :| k + 1 <= i < |items| && items[i] == r.option && MarkedCorrect(items[i]) && NoneBetween(items, k + 1, i);
        assert NoneBetween(items, k, i);
        r
      else if r.Throws? then
        ghost var i :| k + 1 <= i < |items| && IsNullish(items[i]) && NoneBetween(items, k + 1, i);
        assert NoneBetween(items, k, i);
        r
      else r
  }

  /** `options.find(opt => opt.isCorrect)`: the first option marked correct, unless an empty
      element comes first. */
  function FindCorrect(items: seq<Value>): (r: Search)
    ensures r.Missing? <==> NoneBefore(items, |items|)
    ensures r.Found? ==> exists i :: 0 <= i < |items| && items[i] == r.option && MarkedCorrect(items[i]) && NoneBefore(items, i)
    ensures r.Throws? ==> exists i :: 0 <= i < |items| && IsNullish(items[i]) && NoneBefore(items, i)
  {
    FindFrom(items, 0)
  }

  /** `correctOption && userAnswer === correctOption.key` for `correctOption =
      parsedOptions?.find(opt => opt.isCorrect)`; `None` when that expression throws (the
      options are a value other than a list, `null` or `undefined`, or the search meets an
      empty element). With no option marked correct the verdict is `undefined`. */
  function Judge(parsedOptions: Value, userAnswer: Value): (verdict: Option<Value>)
    ensures IsNullish(parsedOptions) ==> verdict == Some(Undefined)
    ensures !IsNullish(parsedOptions) && !parsedOptions.Arr? ==> verdict.None?
    ensures verdict.Some? ==> verdict.value == Undefined || verdict.value.Bool?
    ensures verdict == Some(Bool(true)) <==>
      parsedOptions.Arr? && FindCorrect(parsedOptions.items).Found?
      && StrictEquals(userAnswer, Get(FindCorrect(parsedOptions.items).option, "key"))
  {
    if IsNullish(parsedOptions) then Some(Undefined)
    else if !parsedOptions.Arr? then None
    else
      match FindCorrect(parsedOptions.items)
      case Throws => None
      case Missing => Some(Undefined)
      case Found(opt) => Some(Bool(StrictEquals(userAnswer, Get(opt, "key"))))
  }

  /** Options text that does not parse can never be judged correct. */
  lemma UnparseableNeverCorrect(q: Question, userAnswer: Value)
    requires Truthy(q.options)
    ensures Judge(ParseOptions(q, None).parsedOptions, userAnswer) == Some(Undefined)
  {
    assert FindCorrect([]) == Missing;
  }

  /** `answers[question.id]` */
  function AnswerOf(answers: map<int, Value>, id: int): Value {
    if id in answers then answers[id] else Undefined
  }

  /** One answer sent to the server. */
  datatype AnswerRequest = AnswerRequest(taskQuestionId: int, progressId: Value, answer: Value, isCorrect: Value)

  /** One answer the server accepted, as the results screen keeps it. */
  datatype Recorded = Recorded(questionId: int, answer: Value, isCorrect: Value)

  /** How one remote call ends: answered with `result` set, answered without it, or
      rejected, which the surrounding `catch` turns into the error notice. */
  datatype Reply = Accepted | Refused | Rejected

  /** Where the submission loop stands: what was sent, what was accepted, and whether it
      stopped on an exception (a `TypeError` while judging or a rejected call). */
  datatype Run = Run(sent: seq<AnswerRequest>, recorded: seq<Recorded>, thrown: bool)

  /** One turn of the loop: an unanswered question is skipped, an answered one is judged,
      sent, and recorded when the server's `result` is set. Once the loop has thrown, nothing
      more happens, and a turn sends at most one answer and records at most what it sends. */
  function Step(run: Run, q: Question, answers: map<int, Value>, progressId: Value, reply: Reply): (r: Run)
    ensures run.thrown || !Truthy(AnswerOf(answers, q.id)) ==> r == run
    ensures run.sent <= r.sent && |r.sent| <= |run.sent| + 1
    ensures run.recorded <= r.recorded && |r.recorded| - |run.recorded| <= |r.sent| - |run.sent|
    ensures |r.recorded| > |run.recorded| ==> reply == Accepted && !r.thrown
    ensures |r.sent| > |run.sent| ==> r.sent[|run.sent|].taskQuestionId == q.id && r.sent[|run.sent|].answer == AnswerOf(answers, q.id)
    ensures !run.thrown && Truthy(AnswerOf(answers, q.id)) ==>
      (r.thrown <==> Judge(q.parsedOptions, AnswerOf(answers, q.id)).None? || reply == Rejected)
    ensures !run.thrown && Truthy(AnswerOf(answers, q.id)) && Judge(q.parsedOptions, AnswerOf(answers, q.id)).None? ==>
      r.sent == run.sent && r.recorded == run.recorded
    ensures !run.thrown && Truthy(AnswerOf(answers, q.id)) && Judge(q.parsedOptions, AnswerOf(answers, q.id)).Some? ==>
      r.sent == run.sent + [AnswerRequest(q.id, progressId, AnswerOf(answers, q.id), Judge(q.parsedOptions, AnswerOf(answers, q.id)).value)]
    ensures !run.thrown && Truthy(AnswerOf(answers, q.id)) && Judge(q.parsedOptions, AnswerOf(answers, q.id)).Some? ==>
      (reply == Accepted ==> r.recorded == run.recorded + [Recorded(q.id, AnswerOf(answers, q.id), Judge(q.parsedOptions, AnswerOf(answers, q.id)).value)])
      && (reply != Accepted ==> r.recorded == run.recorded)
  {
    var userAnswer := AnswerOf(answers, q.id);
    if run.thrown || !Truthy(userAnswer) then run
    else
      match Judge(q.parsedOptions, userAnswer)
      case None => run.(thrown := true)
      case Some(verdict) =>
        Run(run.sent + [AnswerRequest(q.id, progressId, userAnswer, verdict)],
            if reply == Accepted then run.recorded + [Recorded(q.id, userAnswer, verdict)] else run.recorded,
            reply == Rejected)
  }

  /** The loop over all questions in order; `replies[i]` is how the call for question `i`
      ends. It records no more than it sends, and sends no more than there are questions. */
  function Submission(qs: seq<Question>, answers: map<int, Value>, progressId: Value, replies: seq<Reply>): (r: Run)
    requires |replies| == |qs|
    ensures |r.recorded| <= |r.sent| <= |qs|
  {
    if qs == [] then Run([], [], false)
    else
      Step(Submission(qs[..|qs| - 1], answers, progressId, replies[..|qs| - 1]),
           qs[|qs| - 1], answers, progressId, replies[|qs| - 1])
  }

  /** `r.isCorrect` */
  function RecordedVerdict(r: Recorded): Value {
    r.isCorrect
  }

  /** `results.filter(r => r.isCorrect).length` */
  function CountCorrect(recorded: seq<Recorded>): (n: nat)
    ensures n <= |recorded|
  {
    CountTruthy(recorded, RecordedVerdict)
  }

  /** The number of questions that have a (truthy) answer. */
  function AnsweredCount(qs: seq<Question>, answers: map<int, Value>): (n: nat)
    ensures n <= |qs|
  {
    if qs == [] then 0
    else AnsweredCount(qs[..|qs| - 1], answers) + (if Truthy(AnswerOf(answers, qs[|qs| - 1].id)) then 1 else 0)
  }

  /** A submission that runs to the end sends one answer per answered question and records
      at most that many; the correct ones are among the recorded ones. */
  lemma {:induction false} SubmissionCounts(qs: seq<Question>, answers: map<int, Value>, progressId: Value, replies: seq<Reply>)
    requires |replies| == |qs|
    ensures var run := Submission(qs, answers, progressId, replies);
      CountCorrect(run.recorded) <= |run.recorded| <= |run.sent| <= AnsweredCount(qs, answers) <= |qs|
    ensures var run := Submission(qs, answers, progressId, replies);
      !run.thrown ==> |run.sent| == AnsweredCount(qs, answers)
  {
    if qs != [] {
      SubmissionCounts(qs[..|qs| - 1], answers, progressId, replies[..|qs| - 1]);
    }
  }

  /** Question `i` of the list was answered with `r.answer`, the server accepted it, and
      `r` carries its verdict. */
  predicate RecordedFrom(qs: seq<Question>, answers: map<int, Value>, replies: seq<Reply>, r: Recorded, i: int)
    requires |replies| == |qs|
  {
    0 <= i < |qs| && qs[i].id == r.questionId && replies[i] == Accepted && r.answer == AnswerOf(answers, qs[i].id)
    && Truthy(r.answer) && Judge(qs[i].parsedOptions, r.answer) == Some(r.isCorrect)
  }

  /** Every recorded answer is the truthy answer given to a question of the list whose
      submission was accepted, and carries that question's verdict. */
  lemma {:induction false} RecordedAreAccepted(qs: seq<Question>, answers: map<int, Value>, progressId: Value, replies: seq<Reply>)
    requires |replies| == |qs|
    ensures forall r :: r in Submission(qs, answers, progressId, replies).recorded ==> exists i :: RecordedFrom(qs, answers, replies, r, i)
  {
    if qs != [] {
      var n := |qs| - 1;
      RecordedAreAccepted(qs[..n], answers, progressId, replies[..n]);
      var prev := Submission(qs[..n], answers, progressId, replies[..n]);
      var run := Submission(qs, answers, progressId, replies);
      forall r | r in run.recorded
        ensures exists i :: RecordedFrom(qs, answers, replies, r, i)
      {
        if r in prev.recorded {
          var i :| RecordedFrom(qs[..n], answers, replies[..n], r, i);
          assert qs[i] == qs[..n][i] && replies[i] == replies[..n][i];
          assert RecordedFrom(qs, answers, replies, r, i);
        } else {
          assert RecordedFrom(qs, answers, replies, r, n);
        }
      }
    }
  }

  /** `{correct, total}` of the score; the percentage is not modelled. */
  datatype Score = Score(correct: nat, total: nat)

  /** `progress.id` and `progress.state` of the student's progress on the task. */
  datatype Progress = Progress(id: Value, state: Value)

  class ExerciseSession {
    var questions: seq<Question>
    var currentIndex: int
    var answers: map<int, Value>
    var submitted: seq<Recorded>
    var isSubmitted: bool
    var progress: Option<Progress>
    var score: Option<Score>
    var completions: nat           // `completeTask` calls made
    var notices: seq<Notice>

    /** The current question is always one of the list, or the first place of an empty
        list: `0 <= currentIndex <= max(0, questions.length - 1)`. */
    predicate Valid()
      reads this
    {
      0 <= currentIndex && (currentIndex == 0 || currentIndex < |questions|)
    }

    constructor ()
      ensures Valid()
      ensures questions == [] && currentIndex == 0 && answers == map[] && submitted == []
      ensures !isSubmitted && progress.None? && score.None? && completions == 0 && notices == []
    {
      questions := [];
      currentIndex := 0;
      answers := map[];
      submitted := [];
      isSubmitted := false;
      progress := None;
      score := None;
      completions := 0;
      notices := [];
    }

    /** `fetchQuestions()`: when the server answers with `result`, the listed questions with
        their options parsed; `parsed[i]` is what parsing question `i`'s options gives. A
        rejected call shows the error notice and changes nothing else. */
    method FetchQuestions(reply: Reply, content: seq<Question>, parsed: seq<Option<Value>>)
      requires |parsed| == |content|
      requires Valid()
      modifies this
      ensures reply == Accepted ==> questions == ParseAll(content, parsed)
      ensures reply != Accepted ==> questions == old(questions)
      ensures reply == Rejected ==> notices == old(notices) + [ErrorNotice("Không thể tải danh sách câu hỏi")]
      ensures reply != Rejected ==> notices == old(notices)
      ensures currentIndex == old(currentIndex) && answers == old(answers) && submitted == old(submitted)
      ensures isSubmitted == old(isSubmitted) && progress == old(progress) && score == old(score)
      ensures completions == old(completions)
      ensures old(currentIndex) == 0 ==> Valid()
    {
      if reply == Rejected {
        notices := notices + [ErrorNotice("Không thể tải danh sách câu hỏi")];
      } else if reply == Accepted {
        questions := ParseAll(content, parsed);
      }
    }

    /** `fetchProgress()`: stores the progress and, only for a finished task (state 2),
        returns the progress id whose earlier answers are to be loaded. */
    method FetchProgress(ok: bool, p: Progress) returns (loadPreviousFor: Option<Value>)
      modifies this
      ensures ok ==> progress == Some(p)
      ensures !ok ==> progress == old(progress)
      ensures loadPreviousFor.Some? <==> ok && StrictEquals(p.state, Num(2))
      ensures loadPreviousFor.Some? ==> loadPreviousFor.value == p.id
      ensures questions == old(questions) && currentIndex == old(currentIndex) && answers == old(answers)
      ensures submitted == old(submitted) && isSubmitted == old(isSubmitted) && score == old(score)
      ensures completions == old(completions) && notices == old(notices)
    {
      loadPreviousFor := None;
      if ok {
        progress := Some(p);
        if StrictEquals(p.state, Num(2)) {
          loadPreviousFor := Some(p.id);
        }
      }
    }

    /** `fetchPreviousAnswers(progressId)`: shows the earlier answers as submitted and scores
        them against their own number. */
    method LoadPreviousAnswers(ok: bool, previous: seq<Recorded>)
      modifies this
      ensures ok ==> submitted == previous && isSubmitted && score == Some(Score(CountCorrect(previous), |previous|))
      ensures !ok ==> submitted == old(submitted) && isSubmitted == old(isSubmitted) && score == old(score)
      ensures questions == old(questions) && currentIndex == old(currentIndex) && answers == old(answers)
      ensures progress == old(progress) && completions == old(completions) && notices == old(notices)
    {
      if ok {
        submitted := previous;
        isSubmitted := true;
        score := Some(Score(CountCorrect(previous), |previous|));
      }
    }

    /** `handleAnswerChange(questionId, value)`: only that question's answer changes. */
    method SetAnswer(questionId: int, value: Value)
      modifies this
      ensures answers == old(answers)[questionId := value]
      ensures AnswerOf(answers, questionId) == value
      ensures forall id :: id != questionId ==> AnswerOf(answers, id) == AnswerOf(old(answers), id)
      ensures questions == old(questions) && currentIndex == old(currentIndex) && submitted == old(submitted)
      ensures isSubmitted == old(isSubmitted) && progress == old(progress) && score == old(score)
      ensures completions == old(completions) && notices == old(notices)
    {
      answers := answers[questionId := value];
    }

    /** `handleNext()` */
    method Next()
      requires Valid()
      modifies this
      ensures Valid()
      ensures old(currentIndex) < |questions| - 1 ==> currentIndex == old(currentIndex) + 1
      ensures old(currentIndex) >= |questions| - 1 ==> currentIndex == old(currentIndex)
      ensures questions == old(questions) && answers == old(answers) && submitted == old(submitted)
      ensures isSubmitted == old(isSubmitted) && progress == old(progress) && score == old(score)
      ensures completions == old(completions) && notices == old(notices)
    {
      if currentIndex < |questions| - 1 {
        currentIndex := currentIndex + 1;
      }
    }

    /** `handlePrevious()` */
    method Previous()
      requires Valid()
      modifies this
      ensures Valid()
      ensures old(currentIndex) > 0 ==> currentIndex == old(currentIndex) - 1
      ensures old(currentIndex) == 0 ==> currentIndex == 0
      ensures questions == old(questions) && answers == old(answers) && submitted == old(submitted)
      ensures isSubmitted == old(isSubmitted) && progress == old(progress) && score == old(score)
      ensures completions == old(completions) && notices == old(notices)
    {
      if currentIndex > 0 {
        currentIndex := currentIndex - 1;
      }
    }

    /** The number shown in the confirmation: questions minus answered keys. It is never
        more than the number of questions, and all of them before any answer is chosen;
        `UnansweredIsMissing` shows it counts the questions without an answer. */
    function UnansweredCount(): (n: int)
      reads this
      ensures n <= |questions|
      ensures answers == map[] ==> n == |questions|
    {
      |questions| - |answers.Keys|
    }

    /** What the loop does on the current state. */
    function RunOf(replies: seq<Reply>): Run
      reads this
      requires |replies| == |questions|
    {
      Submission(questions, answers, ProgressId(progress), replies)
    }

    /** `submitAllAnswers()`: one call per answered question, in order, judged on the
        client; `replies[i]` is how the call for question `i` ends, and `completed` whether
        `completeTask` succeeds. When the loop runs to the end the accepted answers are
        shown, scored against the number of questions, and the task is marked complete,
        with the success notice only when that call succeeds. A `TypeError` while judging
        or a rejected call stops the loop and shows the error notice with nothing else
        changed. */
    method SubmitAllAnswers(replies: seq<Reply>, completed: bool) returns (sent: seq<AnswerRequest>)
      requires |replies| == |questions|
      modifies this
      ensures questions == old(questions) && currentIndex == old(currentIndex) && answers == old(answers)
      ensures progress == old(progress)
      ensures sent == old(RunOf(replies)).sent
      ensures !old(RunOf(replies)).thrown ==> submitted == old(RunOf(replies)).recorded && isSubmitted
      ensures !old(RunOf(replies)).thrown ==> score == Some(Score(CountCorrect(submitted), |questions|))
      ensures !old(RunOf(replies)).thrown ==> completions == old(completions) + 1
      ensures !old(RunOf(replies)).thrown && completed ==> notices == old(notices) + [SuccessNotice("Nộp bài thành công!")]
      ensures !old(RunOf(replies)).thrown && !completed ==> notices == old(notices) + [ErrorNotice("Không thể nộp bài. Vui lòng thử lại.")]
      ensures old(RunOf(replies)).thrown ==> submitted == old(submitted) && isSubmitted == old(isSubmitted)
      ensures old(RunOf(replies)).thrown ==> score == old(score) && completions == old(completions)
      ensures old(RunOf(replies)).thrown ==> notices == old(notices) + [ErrorNotice("Không thể nộp bài. Vui lòng thử lại.")]
    {
      var run := SendAnswers(questions, answers, ProgressId(progress), replies);
      sent := run.sent;
      if run.thrown {
        notices := notices + [ErrorNotice("Không thể nộp bài. Vui lòng thử lại.")];
        return;
      }
      submitted := run.recorded;
      isSubmitted := true;
      score := Some(Score(CountCorrect(run.recorded), |questions|));
      completions := completions + 1;
      if completed {
        notices := notices + [SuccessNotice("Nộp bài thành công!")];
      } else {
        notices := notices + [ErrorNotice("Không thể nộp bài. Vui lòng thử lại.")];
      }
    }
  }

  /** The `for` loop of `submitAllAnswers()`: one call per answered question, in order,
      stopping at the first question the client cannot judge or the first rejected call. */
  method SendAnswers(questions: seq<Question>, answers: map<int, Value>, progressId: Value, replies: seq<Reply>)
    returns (run: Run)
    requires |replies| == |questions|
    ensures run == Submission(questions, answers, progressId, replies)
  {
    var results: seq<Recorded> := [];
    var sent: seq<AnswerRequest> := [];
    var i := 0;
    while i < |questions|
      invariant 0 <= i <= |questions|
      invariant Submission(questions[..i], answers, progressId, replies[..i]) == Run(sent, results, false)
    {
      var question := questions[i];
      assert questions[..i + 1][..i] == questions[..i];
      assert replies[..i + 1][..i] == replies[..i];
      var userAnswer := AnswerOf(answers, question.id);
      if Truthy(userAnswer) {
        var verdict := Judge(question.parsedOptions, userAnswer);
        if verdict.None? {
          ThrownStays(questions, answers, progressId, replies, i + 1);
          return Run(sent, results, true);
        }
        sent := sent + [AnswerRequest(question.id, progressId, userAnswer, verdict.value)];
        if replies[i] == Rejected {
          ThrownStays(questions, answers, progressId, replies, i + 1);
          return Run(sent, results, true);
        }
        if replies[i] == Accepted {
          results := results + [Recorded(question.id, userAnswer, verdict.value)];
        }
      }
      i := i + 1;
    }
    assert questions[..i] == questions && replies[..i] == replies;
    run := Run(sent, results, false);
  }

  /** `progress?.id` */
  function ProgressId(progress: Option<Progress>): Value {
    if progress.Some? then progress.value.id else Undefined
  }

  /** Once the loop has thrown it sends nothing more. */
  lemma {:induction false} ThrownStays(qs: seq<Question>, answers: map<int, Value>, progressId: Value, replies: seq<Reply>, k: nat)
    requires |replies| == |qs| && k <= |qs|
    requires Submission(qs[..k], answers, progressId, replies[..k]).thrown
    ensures Submission(qs, answers, progressId, replies) == Submission(qs[..k], answers, progressId, replies[..k])
    decreases |qs| - k
  {
    if k < |qs| {
      assert qs[..k + 1][..k] == qs[..k];
      assert replies[..k + 1][..k] == replies[..k];
      ThrownStays(qs, answers, progressId, replies, k + 1);
    } else {
      assert qs[..k] == qs && replies[..k] == replies;
    }
  }

  function Ids(qs: seq<Question>): set<int> {
    set i | 0 <= i < |qs| :: qs[i].id
  }

  predicate DistinctIds(qs: seq<Question>) {
    forall i, j :: 0 <= i < j < |qs| ==> qs[i].id != qs[j].id
  }

  /** The number of questions whose id is not among `keys`. */
  function MissingCount(qs: seq<Question>, keys: set<int>): (n: nat)
    ensures n <= |qs|
  {
    if qs == [] then 0
    else MissingCount(qs[..|qs| - 1], keys) + (if qs[|qs| - 1].id in keys then 0 else 1)
  }

  /** With distinct question ids and answers only for listed questions, the count shown
      before submitting is exactly the number of questions without an answer, so it is
      never negative. */
  lemma {:induction false} UnansweredIsMissing(qs: seq<Question>, keys: set<int>)
    requires DistinctIds(qs)
    requires keys <= Ids(qs)
    ensures |qs| - |keys| == MissingCount(qs, keys)
  {
    if qs == [] {
      assert keys == {};
    } else {
      var n := |qs| - 1;
      var last := qs[n];
      var init := qs[..n];
      var rest := keys - {last.id};
      LastSplit(qs);
      assert rest <= Ids(init);
      UnansweredIsMissing(init, rest);
      MissingAgree(init, rest, keys, last.id);
      assert MissingCount(qs, keys) == MissingCount(init, keys) + (if last.id in keys then 0 else 1);
      if last.id in keys {
        assert keys == rest + {last.id} && last.id !in rest;
        assert |keys| == |rest| + 1;
      } else {
        assert keys == rest;
      }
    }
  }

  /** The last question of a list with distinct ids, against the ones before it. */
  lemma LastSplit(qs: seq<Question>)
    requires DistinctIds(qs) && qs != []
    ensures Ids(qs) == Ids(qs[..|qs| - 1]) + {qs[|qs| - 1].id}
    ensures DistinctIds(qs[..|qs| - 1])
    ensures qs[|qs| - 1].id !in Ids(qs[..|qs| - 1])
  {
    var n := |qs| - 1;
    IdsSnoc(qs[..n], qs[n]);
    assert qs == qs[..n] + [qs[n]];
  }

  lemma IdsSnoc(init: seq<Question>, last: Question)
    ensures Ids(init + [last]) == Ids(init) + {last.id}
  {
    var qs := init + [last];
    forall k | k in Ids(qs) ensures k in Ids(init) + {last.id} {
      var i :| 0 <= i < |qs| && qs[i].id == k;
      if i < |init| {
        assert init[i] == qs[i];
      }
    }
    forall k | k in Ids(init) ensures k in Ids(qs) {
      var i :| 0 <= i < |init| && init[i].id == k;
      assert qs[i] == init[i];
    }
    assert qs[|init|] == last;
  }

  /** Two key sets that differ at most in one id, absent from the questions, leave the
      same questions unanswered. */
  lemma {:induction false} MissingAgree(qs: seq<Question>, a: set<int>, b: set<int>, other: int)
    requires other !in Ids(qs)
    requires forall k :: k != other ==> (k in a <==> k in b)
    ensures MissingCount(qs, a) == MissingCount(qs, b)
  {
    if qs != [] {
      var n := |qs| - 1;
      IdsSnoc(qs[..n], qs[n]);
      assert qs == qs[..n] + [qs[n]];
      MissingAgree(qs[..n], a, b, other);
    }
  }
}
