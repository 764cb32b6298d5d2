/** Grading a lesson quiz: counting correctly answered questions, turning the
    count into a 0-100 score, recording it, and choosing the feedback shown. */
module LessonQuiz {
  import opened Wrappers
  import opened LessonTypes
  import LessonProgressStore
  import Metrics
  import Toasts

  /** The selected option id for each answered question id. */
  type Answers = map<string, string>

  /** The first option flagged correct (`options.find(opt => opt.isCorrect)`). */
  function CorrectOption(options: seq<QuizOption>): (r: Option<QuizOption>)
    ensures r.None? <==> forall i :: 0 <= i < |options| ==> !options[i].isCorrect
    ensures r.Some? ==> exists i :: 0 <= i < |options| && options[i] == r.value && r.value.isCorrect &&
                                    forall j :: 0 <= j < i ==> !options[j].isCorrect
    decreases |options|
  {
    if options == [] then None
    else if options[0].isCorrect then Some(options[0])
    else
      var r := CorrectOption(options[1..]);
      assert r.Some? ==> exists i :: 0 <= i < |options| && options[i] == r.value && r.value.isCorrect &&
                                     forall j :: 0 <= j < i ==> !options[j].isCorrect by {
        if r.Some? {
          var i :| 0 <= i < |options[1..]| && options[1..][i] == r.value && r.value.isCorrect &&
                   forall j :: 0 <= j < i ==> !options[1..][j].isCorrect;
          assert options[i + 1] == r.value;
          assert forall j :: 0 <= j < i + 1 ==> !options[j].isCorrect by {
            forall j | 0 <= j < i + 1
              ensures !options[j].isCorrect
            {
              if j > 0 {
                assert options[j] == options[1..][j - 1];
              }
            }
          }
        }
      }
      r
  }

  /** A question scores when an answer is selected (a non-empty option id) and
      it equals the id of the first option flagged correct. */
  predicate AnsweredCorrectly(q: QuizQuestion, answers: Answers) {
    && q.id in answers
    && answers[q.id] != ""
    && CorrectOption(q.options).Some?
    && answers[q.id] == CorrectOption(q.options).value.id
  }

  /** `correctCount`: how many questions are answered correctly. */
  function CorrectCount(quiz: seq<QuizQuestion>, answers: Answers): (n: nat)
    ensures n <= |quiz|
    ensures n == |quiz| <==> forall i :: 0 <= i < |quiz| ==> AnsweredCorrectly(quiz[i], answers)
    ensures n == 0 <==> forall i :: 0 <= i < |quiz| ==> !AnsweredCorrectly(quiz[i], answers)
    decreases |quiz|
  {
    if quiz == [] then 0
    else
      var rest := CorrectCount(quiz[1..], answers);
      assert forall i :: 1 <= i < |quiz| ==> quiz[i] == quiz[1..][i - 1];
      (if AnsweredCorrectly(quiz[0], answers) then 1 else 0) + rest
  }

  /** Grading one more question adds one exactly when it is answered
      correctly, so the count is the number of correctly answered questions. */
  lemma {:induction false} CorrectCountAppend(quiz: seq<QuizQuestion>, q: QuizQuestion, answers: Answers)
    ensures CorrectCount(quiz + [q], answers) == CorrectCount(quiz, answers) + (if AnsweredCorrectly(q, answers) then 1 else 0)
    decreases |quiz|
  {
    if quiz != [] {
      assert (quiz + [q])[1..] == quiz[1..] + [q];
      CorrectCountAppend(quiz[1..], q, answers);
    }
  }

  /** The quiz score, `Math.round(correct / questions * 100)`.  An empty quiz
      would divide by zero, so at least one question is required. */
  function QuizScore(quiz: seq<QuizQuestion>, answers: Answers): (score: nat)
    requires |quiz| > 0
    ensures var c := CorrectCount(quiz, answers);
            && 2 * |quiz| * score <= 200 * c + |quiz| < 2 * |quiz| * (score + 1)
            && score <= 100
            && (score == 100 <==> 200 * (|quiz| - c) <= |quiz|)
            && (score == 0 <==> 200 * c < |quiz|)
  {
    var c := CorrectCount(quiz, answers);
    Metrics.PercentExtremes(c, |quiz|);
    Metrics.RoundHalfUp(100 * c, |quiz|)
  }

  /** Every question answered correctly gives a perfect score. */
  lemma AllCorrectIsPerfect(quiz: seq<QuizQuestion>, answers: Answers)
    requires |quiz| > 0
    requires forall i :: 0 <= i < |quiz| ==> AnsweredCorrectly(quiz[i], answers)
    ensures QuizScore(quiz, answers) == 100
  {
  }

  /** On quizzes of fewer than 200 questions, a perfect score means every
      question was answered correctly. */
  lemma PerfectMeansAllCorrect(quiz: seq<QuizQuestion>, answers: Answers)
    requires 0 < |quiz| < 200
    requires QuizScore(quiz, answers) == 100
    ensures forall i :: 0 <= i < |quiz| ==> AnsweredCorrectly(quiz[i], answers)
  {
  }

  /** The three feedback messages after a submission. */
  datatype Feedback = Perfect | Passed | KeepGoing {
    function Message(): string {
      match this
      case Perfect => "Perfect score! You completed this lesson."
      case Passed => "Nice work! You passed this lesson quiz."
      case KeepGoing => "Keep going. Review the lesson and try the quiz again."
    }

    function Kind(): Toasts.ToastType {
      match this
      case Perfect => Toasts.Success
      case Passed => Toasts.Success
      case KeepGoing => Toasts.Info
    }
  }

  /** The feedback tier for a score: exactly 100 is perfect, 60 and above
      passes, anything lower asks to keep going. */
  function FeedbackFor(score: int): (r: Feedback)
    ensures r == Perfect <==> score == 100
    ensures r == Passed <==> score != 100 && score >= 60
    ensures r == KeepGoing <==> score < 60
  {
    if score == 100 then Perfect
    else if score >= 60 then Passed
    else KeepGoing
  }

  datatype QuizOutcome = QuizOutcome(progress: seq<LessonProgress>, score: nat, feedback: Feedback)

  /** Storing a graded lesson: afterwards the lesson reads back as completed
      with exactly that score, every other lesson reads back as before, and
      ids stay unique. */
  function RecordScore(progress: seq<LessonProgress>, lessonId: string, score: nat): (r: seq<LessonProgress>)
    ensures LessonProgressStore.GetLessonProgress(r, lessonId) == Some(LessonProgress(lessonId, true, score))
    ensures forall other :: other != lessonId ==>
              LessonProgressStore.GetLessonProgress(r, other) == LessonProgressStore.GetLessonProgress(progress, other)
    ensures LessonProgressStore.UniqueLessonIds(progress) ==> LessonProgressStore.UniqueLessonIds(r)
  {
    var next := LessonProgressStore.MarkLessonCompleted(progress, lessonId, score);
    LessonProgressStore.MarkThenGet(progress, lessonId, score);
    assert forall other :: other != lessonId ==>
             LessonProgressStore.GetLessonProgress(next, other) == LessonProgressStore.GetLessonProgress(progress, other) by {
      forall other | other != lessonId
        ensures LessonProgressStore.GetLessonProgress(next, other) == LessonProgressStore.GetLessonProgress(progress, other)
      {
        LessonProgressStore.MarkOthersUnaffected(progress, lessonId, score, other);
      }
    }
    assert LessonProgressStore.UniqueLessonIds(progress) ==> LessonProgressStore.UniqueLessonIds(next) by {
      if LessonProgressStore.UniqueLessonIds(progress) {
        LessonProgressStore.MarkPreservesUniqueness(progress, lessonId, score);
      }
    }
    next
  }

  /** `handleSubmit`: grades the quiz, records the lesson as completed with
      that score whatever it is (zero included), and picks the feedback. */
  function SubmitQuiz(lesson: Lesson, answers: Answers, progress: seq<LessonProgress>): (r: QuizOutcome)
    requires |lesson.quiz| > 0
    ensures r.score <= 100
    ensures 2 * |lesson.quiz| * r.score <= 200 * CorrectCount(lesson.quiz, answers) + |lesson.quiz|
            < 2 * |lesson.quiz| * (r.score + 1)
    ensures LessonProgressStore.GetLessonProgress(r.progress, lesson.id) == Some(LessonProgress(lesson.id, true, r.score))
    ensures forall other :: other != lesson.id ==>
              LessonProgressStore.GetLessonProgress(r.progress, other) == LessonProgressStore.GetLessonProgress(progress, other)
    ensures LessonProgressStore.UniqueLessonIds(progress) ==> LessonProgressStore.UniqueLessonIds(r.progress)
    ensures r.feedback == Perfect <==> r.score == 100
    ensures r.feedback == KeepGoing <==> r.score < 60
  {
    var score := QuizScore(lesson.quiz, answers);
    var c := CorrectCount(lesson.quiz, answers);
    assert 2 * |lesson.quiz| * score <= 200 * c + |lesson.quiz| < 2 * |lesson.quiz| * (score + 1);
    QuizOutcome(RecordScore(progress, lesson.id, score), score, FeedbackFor(score))
  }

  /** `handleAnswerChange`: records the selected option for one question and
      leaves every other answer as it was. */
  function HandleAnswerChange(answers: Answers, questionId: string, optionId: string): (r: Answers)
    ensures r.Keys == answers.Keys + {questionId}
    ensures r[questionId] == optionId
    ensures forall k :: k in answers && k != questionId ==> r[k] == answers[k]
  {
    answers[questionId := optionId]
  }

  /** Changing one question's answer does not affect whether any other
      question is answered correctly. */
  lemma AnswerChangeIsLocal(q: QuizQuestion, answers: Answers, questionId: string, optionId: string)
    requires q.id != questionId
    ensures AnsweredCorrectly(q, HandleAnswerChange(answers, questionId, optionId)) == AnsweredCorrectly(q, answers)
  {
  }

  /** Selecting the first correct option answers the question correctly, as
      long as that option's id is non-empty. */
  lemma SelectingCorrectOption(q: QuizQuestion, answers: Answers, opt: QuizOption)
    requires CorrectOption(q.options) == Some(opt) && opt.id != ""
    ensures AnsweredCorrectly(q, HandleAnswerChange(answers, q.id, opt.id))
  {
  }
}
