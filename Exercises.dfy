/** Exercises and quizzes (exercises.py): answer checking by exercise type,
    quiz numbering, the fallback exercise, and the log of the last 100
    attempts. The LLM replies that exercises are built from are parameters. */
module Exercises {
  import opened Wrappers
  import opened Seqs
  import opened Text

  /** The answers a student can give and an exercise can store: an option
      index or a text. */
  datatype Answer = Index(i: int) | Text(s: string)

  /** `str(answer)`. */
  function AnswerText(a: Answer): string
  {
    match a
    case Index(i) => IntToString(i)
    case Text(s) => s
  }

  /** An exercise; a field the generated JSON lacks is `None`. */
  datatype Exercise = Exercise(
    kind: Option<string>,
    question: string,
    topic: string,
    subtopic: string,
    difficulty: string,
    options: seq<string>,
    correctAnswer: Option<Answer>,
    expectedKeywords: Option<seq<string>>,
    explanation: Option<string>,
    questionNumber: Option<int>)

  /** `_get_default_exercise` (exercises.py:65-76). */
  function DefaultExercise(topic: string, subtopic: string, difficulty: string, kind: string): (e: Exercise)
    ensures |e.options| == 4 && e.correctAnswer == Some(Index(0))
    ensures e.kind == Some(kind) && e.topic == topic && e.subtopic == subtopic && e.difficulty == difficulty
  {
    Exercise(Some(kind), "Explain " + subtopic + " in " + topic + ".", topic, subtopic, difficulty,
             ["Option A", "Option B", "Option C", "Option D"], Some(Index(0)), None,
             Some("This is a placeholder exercise."), None)
  }

  /** `generate_exercise` once the LLM has answered: the parsed reply with
      its type, topic, subtopic and difficulty overwritten, or the default
      exercise when there is no usable reply. */
  function GenerateExercise(topic: string, subtopic: string, difficulty: string, kind: string,
                            reply: Option<Exercise>): (e: Exercise)
    ensures e.kind == Some(kind) && e.topic == topic && e.subtopic == subtopic && e.difficulty == difficulty
    ensures reply.None? ==> e == DefaultExercise(topic, subtopic, difficulty, kind)
    ensures reply.Some? ==> e.question == reply.value.question && e.options == reply.value.options
                            && e.correctAnswer == reply.value.correctAnswer
  {
    match reply
    case None => DefaultExercise(topic, subtopic, difficulty, kind)
    case Some(x) => x.(kind := Some(kind), topic := topic, subtopic := subtopic, difficulty := difficulty)
  }

  /** `any(kw.lower() in answer for kw in keywords)`. */
  function AnyKeyword(answer: string, keywords: seq<string>): (found: bool)
    ensures found <==> exists i :: 0 <= i < |keywords| && Contains(answer, Lower(keywords[i]))
    decreases |keywords|
  {
    if keywords == [] then false
    else if Contains(answer, Lower(keywords[0])) then true
    else
      var rest := AnyKeyword(answer, keywords[1..]);
      assert forall i :: 1 <= i < |keywords| ==> keywords[i] == keywords[1..][i - 1];
      rest
  }

  /** What `check_answer` shows as the correct answer. */
  datatype Shown = ShownAnswer(answer: Option<Answer>) | ShownKeywords(keywords: seq<string>)

  datatype Checked = Checked(correct: bool, explanation: string, userAnswer: Answer, correctAnswer: Shown)

  /** `exercise.get("type", "multiple_choice")`. */
  function Kind(e: Exercise): string
  {
    e.kind.GetOr("multiple_choice")
  }

  /** `check_answer`: a multiple-choice answer is right when it equals the
      stored answer; a short answer when its lower-cased text contains some
      lower-cased expected keyword; a coding answer or an unknown type never
      is. */
  function CheckAnswer(e: Exercise, answer: Answer): (r: Checked)
    ensures Kind(e) == "multiple_choice" ==>
              (r.correct <==> e.correctAnswer == Some(answer)) && r.correctAnswer == ShownAnswer(e.correctAnswer)
    ensures Kind(e) == "short_answer" ==>
              (r.correct <==> exists i :: 0 <= i < |e.expectedKeywords.GetOr([])|
                                          && Contains(Lower(AnswerText(answer)), Lower(e.expectedKeywords.GetOr([])[i])))
    ensures Kind(e) != "multiple_choice" && Kind(e) != "short_answer" ==> !r.correct
    ensures Kind(e) != "multiple_choice" ==> r.correctAnswer == ShownKeywords(e.expectedKeywords.GetOr([]))
    ensures r.explanation == e.explanation.GetOr("") && r.userAnswer == answer
  {
    var kind := Kind(e);
    var correct :=
      if kind == "multiple_choice" then e.correctAnswer == Some(answer)
      else if kind == "short_answer" then AnyKeyword(Lower(AnswerText(answer)), e.expectedKeywords.GetOr([]))
      else false;
    var shown :=
      if kind == "multiple_choice" then ShownAnswer(e.correctAnswer)
      else ShownKeywords(e.expectedKeywords.GetOr([]));
    Checked(correct, e.explanation.GetOr(""), answer, shown)
  }

  /** A short answer with no expected keywords is always wrong, while an
      empty keyword accepts every answer (it is a substring of any text). */
  lemma ShortAnswerEdgeCases(e: Exercise, answer: Answer)
    requires Kind(e) == "short_answer"
    ensures e.expectedKeywords.GetOr([]) == [] ==> !CheckAnswer(e, answer).correct
    ensures "" in e.expectedKeywords.GetOr([]) ==> CheckAnswer(e, answer).correct
  {
    var kws := e.expectedKeywords.GetOr([]);
    if "" in kws {
      var i :| 0 <= i < |kws| && kws[i] == "";
      assert Lower(kws[i]) <= Lower(AnswerText(answer));
    }
  }

  /** The default exercise accepts exactly option 0. */
  lemma DefaultExerciseAnswer(topic: string, subtopic: string, difficulty: string, answer: Answer)
    ensures CheckAnswer(DefaultExercise(topic, subtopic, difficulty, "multiple_choice"), answer).correct
            <==> answer == Index(0)
  {
  }

  /** One entry of the attempt log. */
  datatype Attempt = Attempt(exercise: Exercise, userAnswer: Answer, correct: bool, timestamp: int)

  /** The log keeps at most this many attempts. */
  const MaxAttempts: nat := 100

  /** The log after `_save_quiz_attempt` appends `a`. */
  function Logged(log: seq<Attempt>, a: Attempt): (r: seq<Attempt>)
    ensures |r| == if |log| + 1 <= MaxAttempts then |log| + 1 else MaxAttempts
  {
    KeepLast(log + [a], MaxAttempts)
  }

  /** The new attempt is last, the log never exceeds 100 entries, and the
      entries kept are the most recent ones in their original order. */
  lemma LoggedKeepsRecent(log: seq<Attempt>, a: Attempt)
    ensures var r := Logged(log, a);
            r != [] && r[|r| - 1] == a && |r| <= MaxAttempts
            && r[..|r| - 1] == log[|log| + 1 - |r|..]
            && (|log| < MaxAttempts ==> r == log + [a])
  {
    var r := Logged(log, a);
    var all := log + [a];
    assert all == all[..|all| - |r|] + r;
    assert r == all[|all| - |r|..];
    assert r[..|r| - 1] == all[|all| - |r|..|all| - 1];
  }

  /** `ExerciseGenerator`: `attempts` is the stored attempt log. */
  class ExerciseGenerator {
    const studentId: string
    var attempts: seq<Attempt>

    constructor (studentId: string, stored: seq<Attempt>)
      ensures this.studentId == studentId && attempts == stored
    {
      this.studentId := studentId;
      attempts := stored;
    }

    /** `check_answer` followed by `_save_quiz_attempt`. */
    method CheckAndRecord(e: Exercise, answer: Answer, now: int) returns (r: Checked)
      modifies this
      ensures r == CheckAnswer(e, answer)
      ensures attempts == Logged(old(attempts), Attempt(e, answer, r.correct, now))
    {
      r := CheckAnswer(e, answer);
      SaveQuizAttempt(e, answer, r.correct, now);
    }

    /** `_save_quiz_attempt`: append, then keep the last 100. */
    method SaveQuizAttempt(e: Exercise, answer: Answer, correct: bool, now: int)
      modifies this
      ensures attempts == Logged(old(attempts), Attempt(e, answer, correct, now))
    {
      attempts := attempts + [Attempt(e, answer, correct, now)];
      if |attempts| > MaxAttempts {
        attempts := attempts[|attempts| - MaxAttempts..];
      }
    }

    /** `generate_quiz`: `replies(i)` is the LLM's answer for question
        `i + 1`. The quiz has `n` multiple-choice questions numbered 1 to
        `n` in order. */
    method GenerateQuiz(topic: string, n: int, replies: nat -> Option<Exercise>) returns (quiz: seq<Exercise>)
      ensures |quiz| == if n > 0 then n else 0
      ensures forall i :: 0 <= i < |quiz| ==>
                quiz[i] == GenerateExercise(topic, "General", "Intermediate", "multiple_choice", replies(i))
                           .(questionNumber := Some(i + 1))
      ensures forall i :: 0 <= i < |quiz| ==>
                quiz[i].questionNumber == Some(i + 1) && Kind(quiz[i]) == "multiple_choice"
    {
      quiz := [];
      var i := 0;
      while i < n
        invariant 0 <= i && (i <= n || i == 0)
        invariant |quiz| == i
        invariant forall j :: 0 <= j < i ==>
                    quiz[j] == GenerateExercise(topic, "General", "Intermediate", "multiple_choice", replies(j))
                               .(questionNumber := Some(j + 1))
      {
        var exercise := GenerateExercise(topic, "General", "Intermediate", "multiple_choice", replies(i));
        exercise := exercise.(questionNumber := Some(i + 1));
        quiz := quiz + [exercise];
        i := i + 1;
      }
    }
  }
}
