/** The quiz page of a generated level (src/pages/PersonalizedLevelDetail.tsx):
    an answer array with one entry per question, the unanswered check that
    guards submission, and the retry reset. */
module PersonalizedLevelDetail {
  import opened Common

  /** A level of a generated dungeon: the expected answers of its questions
      and its XP. */
  datatype QuizLevel = QuizLevel(expected: seq<string>, xp: int)

  /** The fields of the backend's reply that the page keeps. */
  datatype QuizResult = QuizResult(correct: int, total: int, xp: int)

  /** What `handleSubmit` does: nothing, the "Incomplete" notice with the
      number of empty answers, or a request carrying the answers. */
  datatype SubmitOutcome =
    | Ignored
    | Incomplete(unanswered: nat)
    | Requested(userId: Option<int>, answers: seq<string>)

  /** `new Array(n).fill("")`. */
  function EmptyAnswers(n: nat): (r: seq<string>)
    ensures |r| == n && forall i :: 0 <= i < n ==> r[i] == ""
  {
    seq(n, i => "")
  }

  /** `answers.filter(a => !a).length`: a string is falsy exactly when empty. */
  function Unanswered(answers: seq<string>): (k: nat)
    ensures k <= |answers|
    decreases |answers|
  {
    if answers == [] then 0
    else Unanswered(answers[..|answers| - 1]) + (if answers[|answers| - 1] == "" then 1 else 0)
  }

  /** No empty answer is left exactly when the count is zero. */
  lemma {:induction false} UnansweredZeroIff(answers: seq<string>)
    ensures Unanswered(answers) == 0 <==> forall i :: 0 <= i < |answers| ==> answers[i] != ""
    decreases |answers|
  {
    if answers != [] {
      var m := |answers| - 1;
      UnansweredZeroIff(answers[..m]);
      assert forall i :: 0 <= i < m ==> answers[..m][i] == answers[i];
    }
  }

  /** A freshly reset answer array leaves every question unanswered. */
  lemma {:induction false} UnansweredOfEmpty(n: nat)
    ensures Unanswered(EmptyAnswers(n)) == n
    decreases n
  {
    if n > 0 {
      UnansweredOfEmpty(n - 1);
      assert EmptyAnswers(n)[..n - 1] == EmptyAnswers(n - 1);
    }
  }

  /** Setting one answer changes the count by that entry alone. */
  lemma {:induction false} UnansweredUpdate(answers: seq<string>, i: nat, a: string)
    requires i < |answers|
    ensures Unanswered(answers[i := a]) + (if answers[i] == "" then 1 else 0)
            == Unanswered(answers) + (if a == "" then 1 else 0)
    decreases |answers|
  {
    var m := |answers| - 1;
    if i < m {
      UnansweredUpdate(answers[..m], i, a);
      assert answers[i := a][..m] == answers[..m][i := a];
    } else {
      assert answers[i := a][..m] == answers[..m];
    }
  }

  /** `"Please answer all ${unanswered} remaining question(s)."` */
  function IncompleteMessage(unanswered: nat): (m: string)
    ensures |m| > 0 && m[|m| - 1] == '.'
  {
    "Please answer all " + NatToString(unanswered) + " remaining question(s)."
  }

  /** The notice determines the count: two different numbers of unanswered
      questions never give the same text. */
  lemma IncompleteMessageInjective(a: nat, b: nat)
    requires IncompleteMessage(a) == IncompleteMessage(b)
    ensures a == b
  {
    var p := "Please answer all ";
    var q := " remaining question(s).";
    var m := IncompleteMessage(a);
    assert m == p + NatToString(a) + q;
    assert m == p + NatToString(b) + q;
    assert NatToString(a) == m[|p|..|m| - |q|];
    assert NatToString(b) == m[|p|..|m| - |q|];
    NatToStringInjective(a, b);
  }

  /** `allCorrect = result?.correct === result?.total`: with no result both
      sides are `undefined`, so it holds. */
  predicate AllCorrect(result: Option<QuizResult>) {
    result.None? || result.value.correct == result.value.total
  }

  class PersonalizedLevelPage {
    /** `parseInt(levelIndex || "0")`; `None` is NaN. */
    const levelIdx: Option<int>
    /** The levels of the loaded dungeon, or `None` before loading. */
    var dungeon: Option<seq<QuizLevel>>
    var level: Option<QuizLevel>
    var answers: seq<string>
    var showQuiz: bool
    var submitting: bool
    var submitted: bool
    var result: Option<QuizResult>

    /** While a level is loaded there is one answer per question. */
    predicate Valid()
      reads this
    {
      level.Some? ==> |answers| == |level.value.expected|
    }

    constructor(levelIdx0: Option<int>)
      ensures levelIdx == levelIdx0 && dungeon.None? && level.None? && answers == []
      ensures !showQuiz && !submitting && !submitted && result.None?
      ensures Valid()
    {
      levelIdx := levelIdx0;
      dungeon := None;
      level := None;
      answers := [];
      showQuiz := false;
      submitting := false;
      submitted := false;
      result := None;
    }

    /** The part of `fetchData` after the dungeon arrived: the level at the
        index, when there is one, with `n` empty answers. */
    method Load(levels: seq<QuizLevel>)
      modifies this
      requires Valid()
      ensures Valid()
      ensures dungeon == Some(levels)
      ensures levelIdx.Some? && 0 <= levelIdx.value < |levels| ==>
                level == Some(levels[levelIdx.value]) && answers == EmptyAnswers(|levels[levelIdx.value].expected|)
      ensures !(levelIdx.Some? && 0 <= levelIdx.value < |levels|) ==> level == old(level) && answers == old(answers)
      ensures showQuiz == old(showQuiz) && submitting == old(submitting)
      ensures submitted == old(submitted) && result == old(result)
    {
      dungeon := Some(levels);
      if levelIdx.Some? && 0 <= levelIdx.value < |levels| {
        var l := levels[levelIdx.value];
        level := Some(l);
        answers := EmptyAnswers(|l.expected|);
      }
    }

    /** The "Start Quiz" button. */
    method StartQuiz()
      modifies this
      requires Valid()
      ensures Valid()
      ensures showQuiz
      ensures dungeon == old(dungeon) && level == old(level) && answers == old(answers)
      ensures submitting == old(submitting) && submitted == old(submitted) && result == old(result)
    {
      showQuiz := true;
    }

    /** `handleAnswerChange(i, a)`, called from the radio group of question `i`. */
    method AnswerChange(i: int, a: string)
      modifies this
      requires Valid() && level.Some? && 0 <= i < |level.value.expected|
      ensures Valid()
      ensures |answers| == |old(answers)| && answers[i] == a
      ensures forall j :: 0 <= j < |answers| && j != i ==> answers[j] == old(answers)[j]
      ensures dungeon == old(dungeon) && level == old(level) && showQuiz == old(showQuiz)
      ensures submitting == old(submitting) && submitted == old(submitted) && result == old(result)
    {
      var newAnswers := answers;
      newAnswers := newAnswers[i := a];
      answers := newAnswers;
    }

    /** `handleSubmit`. `dungeonId` and `userId` are the route parameter and
        the stored user id (an empty string is falsy); `response` is the
        backend's reply, `None` when the request fails. */
    method Submit(dungeonId: Option<string>, userId: Option<string>, response: Option<QuizResult>)
      returns (outcome: SubmitOutcome)
      modifies this
      requires Valid()
      ensures Valid()
      ensures (dungeonId.None? || dungeonId.value == "" || userId.None? || userId.value == "" || old(level).None?)
              ==> outcome == Ignored
      ensures outcome.Ignored? || outcome.Incomplete? ==>
                dungeon == old(dungeon) && level == old(level) && answers == old(answers)
                && submitting == old(submitting) && submitted == old(submitted) && result == old(result)
      ensures outcome.Incomplete? <==> outcome != Ignored && Unanswered(old(answers)) > 0
      ensures outcome.Incomplete? ==> outcome.unanswered == Unanswered(old(answers))
      ensures outcome.Requested? ==>
                outcome == Requested(JsParseInt(userId.value), old(answers))
                && (forall i :: 0 <= i < |old(answers)| ==> old(answers)[i] != "")
                && !submitting
                && (response.Some? ==> submitted && result == response)
                && (response.None? ==> submitted == old(submitted) && result == old(result))
      ensures outcome.Requested? && response.Some? ==>
                (NextLevelShown() <==> response.value.correct == response.value.total && NextLevelOffered())
      ensures dungeon == old(dungeon) && level == old(level) && answers == old(answers)
      ensures showQuiz == old(showQuiz)
    {
      if dungeonId.None? || dungeonId.value == "" || userId.None? || userId.value == "" || level.None? {
        return Ignored;
      }
      var unanswered := Unanswered(answers);
      if unanswered > 0 {
        return Incomplete(unanswered);
      }
      UnansweredZeroIff(answers);
      submitting := true;
      outcome := Requested(JsParseInt(userId.value), answers);
      if response.Some? {
        result := response;
        submitted := true;
      }
      submitting := false;
    }

    /** `handleRetry`: `level?.quiz.questions.length || 0` empty answers. */
    method Retry()
      modifies this
      requires Valid()
      ensures Valid()
      ensures answers == EmptyAnswers(if level.Some? then |level.value.expected| else 0)
      ensures !submitted && result.None?
      ensures !NextLevelShown()
      ensures dungeon == old(dungeon) && level == old(level) && showQuiz == old(showQuiz)
      ensures submitting == old(submitting)
    {
      answers := EmptyAnswers(if level.Some? then |level.value.expected| else 0);
      submitted := false;
      result := None;
    }

    /** "Review Lesson": back to the lesson, then `handleRetry`. */
    method ReviewLesson()
      modifies this
      requires Valid()
      ensures Valid()
      ensures !showQuiz && answers == EmptyAnswers(if level.Some? then |level.value.expected| else 0)
      ensures !submitted && result.None?
      ensures dungeon == old(dungeon) && level == old(level) && submitting == old(submitting)
    {
      showQuiz := false;
      Retry();
    }

    /** `dungeon.levels[levelIdx + 1]` exists. */
    predicate NextLevelOffered()
      reads this
    {
      dungeon.Some? && levelIdx.Some? && 0 <= levelIdx.value + 1 < |dungeon.value|
    }

    /** The "Next Level" button: inside the results card
        (`submitted && result`), in its all-correct branch, when the next
        level exists. */
    predicate NextLevelShown()
      reads this
    {
      submitted && result.Some? && AllCorrect(result) && NextLevelOffered()
    }

    /** The button leads to a level that exists, and only after a result
        with every question right. */
    lemma NextLevelNeedsAllCorrect()
      requires NextLevelShown()
      ensures result.value.correct == result.value.total
      ensures levelIdx.value + 1 < |dungeon.value|
      ensures dungeon.value[levelIdx.value + 1] in dungeon.value
    {
    }

    /** After a retry of a level with questions, submitting is refused with
        every question reported as unanswered. */
    lemma RetryBlocksSubmit()
      requires Valid() && level.Some? && |level.value.expected| > 0
      requires answers == EmptyAnswers(|level.value.expected|)
      ensures Unanswered(answers) == |level.value.expected| > 0
    {
      UnansweredOfEmpty(|level.value.expected|);
    }
  }
}
