/** The quiz page of a level (src/pages/LevelDetail.tsx): phase and question
    navigation, answer recording, local scoring and the unescaped lesson
    transform. */
module LevelDetail {
  import opened Common
  import Sanitize
  import Backend

  datatype Phase = Lesson | Quiz | Results

  datatype Score = Score(correct: nat, total: nat)

  /** What the page sends to `POST /api/levels/{id}/submit`. `userId` is
      `None` when `parseInt` gives NaN. */
  datatype SubmitRequest = SubmitRequest(userId: Option<int>, answers: seq<string>)

  /** The number of questions `i` whose recorded answer equals `expected[i]`
      (a question without an answer never counts). */
  function LocalCorrect(expected: seq<string>, answers: map<int, string>): (c: nat)
    ensures c <= |expected|
    decreases |expected|
  {
    if expected == [] then 0
    else
      var i := |expected| - 1;
      LocalCorrect(expected[..i], answers) + (if i in answers && answers[i] == expected[i] then 1 else 0)
  }

  /** `Object.values(answers)`: the values in ascending order of the
      (non-negative integer) keys below `bound`. */
  function ValuesInKeyOrder(answers: map<int, string>, bound: nat): (r: seq<string>)
    ensures |r| <= bound
    decreases bound
  {
    if bound == 0 then []
    else
      ValuesInKeyOrder(answers, bound - 1) + (if bound - 1 in answers then [answers[bound - 1]] else [])
  }

  /** The keys `0 .. n-1`, exactly. */
  ghost predicate KeysAreIndices(answers: map<int, string>, n: nat) {
    forall k :: k in answers <==> 0 <= k < n
  }

  lemma {:induction false} ValuesOfIndices(answers: map<int, string>, n: nat)
    requires forall k :: 0 <= k < n ==> k in answers
    ensures |ValuesInKeyOrder(answers, n)| == n
    ensures forall i :: 0 <= i < n ==> ValuesInKeyOrder(answers, n)[i] == answers[i]
    decreases n
  {
    if n > 0 {
      ValuesOfIndices(answers, n - 1);
    }
  }

  /** When every question has exactly one answer, the count shown on the page
      equals the count the backend computes from `Object.values(answers)`. */
  lemma {:induction false} LocalScoreMatchesBackend(expected: seq<string>, answers: map<int, string>, n: nat)
    requires n == |expected| && KeysAreIndices(answers, n)
    ensures LocalCorrect(expected, answers)
            == Backend.CountCorrect(Wrap(expected), ValuesInKeyOrder(answers, n))
  {
    ValuesOfIndices(answers, n);
    PrefixScoresAgree(expected, answers, ValuesInKeyOrder(answers, n), n);
  }

  function Wrap(xs: seq<string>): (r: seq<Option<string>>)
    ensures |r| == |xs| && forall i :: 0 <= i < |xs| ==> r[i] == Some(xs[i])
  {
    seq(|xs|, i requires 0 <= i < |xs| => Some(xs[i]))
  }

  lemma {:induction false} PrefixScoresAgree(expected: seq<string>, answers: map<int, string>, vals: seq<string>, n: nat)
    requires |vals| == n && |expected| <= n
    requires forall k :: 0 <= k < n ==> k in answers && vals[k] == answers[k]
    ensures LocalCorrect(expected, answers) == Backend.CountCorrect(Wrap(expected), vals)
    decreases |expected|
  {
    if expected != [] {
      var i := |expected| - 1;
      PrefixScoresAgree(expected[..i], answers, vals, n);
      assert Wrap(expected)[..i] == Wrap(expected[..i]);
    }
  }

  /** The lesson markup of this page: code blocks, bold, inline code, newlines;
      there is no HTML escaping and no italic rule. */
  const LevelPreClass := "bg-dungeon-stone p-4 rounded text-xs overflow-x-auto pixel-border"

  /** No newline is left in the markup. */
  function LessonHtml(lesson: string): (html: string)
    ensures forall i :: 0 <= i < |html| ==> html[i] != '\n'
  {
    Sanitize.BreaksNoNewline(Sanitize.Pass(Sanitize.InlineCode,
      Sanitize.Pass(Sanitize.Bold, Sanitize.Pass(Sanitize.CodeBlock(LevelPreClass), lesson))));
    Sanitize.Breaks(Sanitize.Pass(Sanitize.InlineCode,
      Sanitize.Pass(Sanitize.Bold, Sanitize.Pass(Sanitize.CodeBlock(LevelPreClass), lesson))))
  }

  /** Text without backtick, `*` or newline is returned unchanged, markup
      characters included: nothing is escaped. */
  lemma LessonHtmlPlain(lesson: string)
    requires forall i :: 0 <= i < |lesson| ==> lesson[i] != '`' && lesson[i] != '*' && lesson[i] != '\n'
    ensures LessonHtml(lesson) == lesson
  {
    Sanitize.PassPlain(Sanitize.CodeBlock(LevelPreClass), lesson);
    Sanitize.PassPlain(Sanitize.Bold, lesson);
    Sanitize.PassPlain(Sanitize.InlineCode, lesson);
    Sanitize.BreaksPrefix(lesson, []);
    assert lesson + [] == lesson;
  }

  /** A denylisted tag in a lesson reaches the page as written, where the
      sanitizer of the other lesson pages never lets one through. */
  lemma LessonHtmlKeepsTags(lesson: string, i: nat, p: string)
    requires forall i :: 0 <= i < |lesson| ==> lesson[i] != '`' && lesson[i] != '*' && lesson[i] != '\n'
    requires i <= |lesson| && p in Sanitize.TagPatterns
    requires Sanitize.MatchesAt(Sanitize.Literal(p), lesson[i..])
    ensures i <= |LessonHtml(lesson)| && Sanitize.MatchesAt(Sanitize.Literal(p), LessonHtml(lesson)[i..])
    ensures i <= |Sanitize.ParseLesson(lesson)| ==> !Sanitize.MatchesAt(Sanitize.Literal(p), Sanitize.ParseLesson(lesson)[i..])
  {
    LessonHtmlPlain(lesson);
    if i <= |Sanitize.ParseLesson(lesson)| {
      Sanitize.ParseLessonNoDangerousTag(lesson, i, p);
    }
  }

  class LevelDetailPage {
    /** The expected answers of the loaded level's questions; `None` before
        the level is loaded. */
    var level: Option<seq<string>>
    var phase: Phase
    var currentQuestion: int
    var answers: map<int, string>
    var results: Option<Score>
    var submitting: bool

    function QuestionCount(): nat
      reads this
    {
      if level.Some? then |level.value| else 0
    }

    /** The current question is 0 or a valid question index, and every
        recorded answer belongs to such an index. */
    predicate Valid()
      reads this
    {
      0 <= currentQuestion && (currentQuestion == 0 || currentQuestion < QuestionCount())
      && forall k :: k in answers ==> 0 <= k && (k == 0 || k < QuestionCount())
    }

    constructor(level0: Option<seq<string>>)
      ensures level == level0 && phase == Lesson && currentQuestion == 0
      ensures answers == map[] && results.None? && !submitting
      ensures Valid()
    {
      level := level0;
      phase := Lesson;
      currentQuestion := 0;
      answers := map[];
      results := None;
      submitting := false;
    }

    /** `handleStartQuiz`. */
    method StartQuiz()
      modifies this
      requires Valid()
      ensures Valid()
      ensures phase == Quiz && currentQuestion == 0 && answers == map[]
      ensures level == old(level) && results == old(results) && submitting == old(submitting)
    {
      phase := Quiz;
      currentQuestion := 0;
      answers := map[];
    }

    /** `handleAnswer`: only the current question's entry changes, and Next
        is enabled exactly when that answer is not empty. */
    method Answer(answer: string)
      modifies this
      requires Valid()
      ensures Valid()
      ensures answers == old(answers)[old(currentQuestion) := answer]
      ensures NextDisabled() <==> answer == ""
      ensures forall k :: k != currentQuestion ==> (k in answers <==> k in old(answers))
      ensures forall k :: k != currentQuestion && k in answers ==> answers[k] == old(answers)[k]
      ensures level == old(level) && phase == old(phase) && currentQuestion == old(currentQuestion)
      ensures results == old(results) && submitting == old(submitting)
    {
      answers := answers[currentQuestion := answer];
    }

    /** `handleNextQuestion`. */
    method NextQuestion()
      modifies this
      requires Valid()
      ensures Valid()
      ensures currentQuestion == if old(currentQuestion) < QuestionCount() - 1 then old(currentQuestion) + 1
                                 else old(currentQuestion)
      ensures QuestionCount() >= 1 ==> 0 <= currentQuestion <= QuestionCount() - 1
      ensures level == old(level) && phase == old(phase) && answers == old(answers)
      ensures results == old(results) && submitting == old(submitting)
    {
      if level.Some? && currentQuestion < |level.value| - 1 {
        currentQuestion := currentQuestion + 1;
      }
    }

    /** `handlePrevQuestion`. */
    method PrevQuestion()
      modifies this
      requires Valid()
      ensures Valid()
      ensures currentQuestion == if old(currentQuestion) > 0 then old(currentQuestion) - 1 else 0
      ensures QuestionCount() >= 1 ==> 0 <= currentQuestion <= QuestionCount() - 1
      ensures level == old(level) && phase == old(phase) && answers == old(answers)
      ensures results == old(results) && submitting == old(submitting)
    {
      if currentQuestion > 0 {
        currentQuestion := currentQuestion - 1;
      }
    }

    /** `disabled={!answers[currentQuestion]}` on Next. */
    predicate NextDisabled()
      reads this
    {
      currentQuestion !in answers || answers[currentQuestion] == ""
    }

    /** `disabled={Object.keys(answers).length < n || submitting}` on Submit. */
    predicate SubmitDisabled()
      reads this
    {
      |answers.Keys| < QuestionCount() || submitting
    }

    /** With Submit enabled on a quiz of at least one question, every question
        has exactly one answer. */
    lemma SubmitEnabledMeansAllAnswered()
      requires Valid() && !SubmitDisabled() && QuestionCount() >= 1
      ensures KeysAreIndices(answers, QuestionCount())
    {
      var n := QuestionCount();
      var idx := Range(n);
      assert answers.Keys <= idx;
      if exists k :: 0 <= k < n && k !in answers {
        var k :| 0 <= k < n && k !in answers;
        assert answers.Keys <= idx - {k};
        assert idx == (idx - {k}) + {k};
        SubsetSize(answers.Keys, idx - {k});
      }
    }

    /** `handleSubmitQuiz`: scores locally, sends the request and, when the
        request goes through (`requestOk`), shows the local result. */
    method SubmitQuiz(userIdText: Option<string>, requestOk: bool) returns (request: Option<SubmitRequest>)
      modifies this
      requires Valid()
      ensures Valid()
      ensures old(level).None? ==> request.None? && phase == old(phase) && results == old(results)
                                   && submitting == old(submitting)
      ensures old(level).Some? ==>
                request == Some(SubmitRequest(
                  if userIdText.Some? && userIdText.value != "" then JsParseInt(userIdText.value) else Some(0),
                  ValuesInKeyOrder(old(answers), if |old(level).value| > 0 then |old(level).value| else 1)))
                && !submitting
                && (requestOk ==>
                      phase == Results
                      && results == Some(Score(LocalCorrect(old(level).value, old(answers)), |old(level).value|)))
                && (!requestOk ==> phase == old(phase) && results == old(results))
      ensures level == old(level) && answers == old(answers) && currentQuestion == old(currentQuestion)
    {
      if level.None? {
        return None;
      }
      submitting := true;
      var questions := level.value;
      var correct := 0;
      for index := 0 to |questions|
        invariant correct == LocalCorrect(questions[..index], answers)
      {
        assert questions[..index + 1][..index] == questions[..index];
        if index in answers && answers[index] == questions[index] {
          correct := correct + 1;
        }
      }
      assert questions[..|questions|] == questions;
      var total := |questions|;
      var userId := if userIdText.Some? && userIdText.value != "" then JsParseInt(userIdText.value) else Some(0);
      request := Some(SubmitRequest(userId, ValuesInKeyOrder(answers, if total > 0 then total else 1)));
      if requestOk {
        results := Some(Score(correct, total));
        phase := Results;
      }
      submitting := false;
    }

    /** `handleRetry`. */
    method Retry()
      modifies this
      requires Valid()
      ensures Valid()
      ensures phase == Lesson && answers == map[] && results.None? && currentQuestion == 0
      ensures level == old(level) && submitting == old(submitting)
    {
      phase := Lesson;
      answers := map[];
      results := None;
      currentQuestion := 0;
    }
  }

  /** The passed flag of a result: all questions right. */
  predicate Passed(s: Score) {
    s.correct == s.total
  }

  lemma LocalPassedIff(expected: seq<string>, answers: map<int, string>)
    ensures Passed(Score(LocalCorrect(expected, answers), |expected|)) <==>
              forall i :: 0 <= i < |expected| ==> i in answers && answers[i] == expected[i]
  {
    LocalCorrectFull(expected, answers);
  }

  lemma {:induction false} LocalCorrectFull(expected: seq<string>, answers: map<int, string>)
    ensures LocalCorrect(expected, answers) == |expected| <==>
              forall i :: 0 <= i < |expected| ==> i in answers && answers[i] == expected[i]
    decreases |expected|
  {
    if expected != [] {
      var i := |expected| - 1;
      LocalCorrectFull(expected[..i], answers);
      assert forall j :: 0 <= j < i ==> expected[..i][j] == expected[j];
    }
  }

  /** The integers `0 .. n-1`. */
  function Range(n: nat): (r: set<int>)
    ensures |r| == n
    ensures forall k :: k in r <==> 0 <= k < n
  {
    if n == 0 then {} else Range(n - 1) + {n - 1}
  }

  lemma SubsetSize(a: set<int>, b: set<int>)
    requires a <= b
    ensures |a| <= |b|
  {
    assert b == a + (b - a);
  }
}
