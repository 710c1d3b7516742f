/**
 * Lessons and the onboarding questionnaire of the "pro" app variant.  A quiz
 * question is answered by choosing option 0 or 1, option 0 being the right
 * one by authoring convention; finishing scores the answers, shows the
 * result and awards the lesson's XP whatever the score.
 */
module ProLesson {

  import opened Wrappers
  import opened Answers
  import opened ProGame

  // ---------------------------------------------------------------------
  // Scoring

  /** `allAnswered`: every question index holds option 0 or option 1. */
  function AllChosen(quizLength: nat, answers: map<nat, int>): (r: bool)
    ensures r <==> forall i :: 0 <= i < quizLength ==> i in answers && (answers[i] == 0 || answers[i] == 1)
  {
    if quizLength == 0 then true
    else
      && AllChosen(quizLength - 1, answers)
      && quizLength - 1 in answers
      && (answers[quizLength - 1] == 0 || answers[quizLength - 1] == 1)
  }

  /** Whether question `i` holds the right option: `(answers[i] ?? -1) === 0`. */
  predicate IsCorrect(answers: map<nat, int>, i: nat) {
    i in answers && answers[i] == 0
  }

  /** The scoring `reduce` over the quiz's indices. */
  function CountCorrect(quizLength: nat, answers: map<nat, int>): (r: nat)
    ensures r <= quizLength
  {
    if quizLength == 0 then 0
    else CountCorrect(quizLength - 1, answers) + (if IsCorrect(answers, quizLength - 1) then 1 else 0)
  }

  /** The questions answered right. */
  function CorrectSet(quizLength: nat, answers: map<nat, int>): set<nat> {
    set i: nat | i < quizLength && IsCorrect(answers, i)
  }

  /** The score counts exactly the questions whose answer is option 0. */
  lemma {:induction false} CountCorrectIsCorrectSet(quizLength: nat, answers: map<nat, int>)
    ensures CountCorrect(quizLength, answers) == |CorrectSet(quizLength, answers)|
  {
    if quizLength > 0 {
      var n := quizLength - 1;
      CountCorrectIsCorrectSet(n, answers);
      if IsCorrect(answers, n) {
        assert CorrectSet(quizLength, answers) == CorrectSet(n, answers) + {n};
      } else {
        assert CorrectSet(quizLength, answers) == CorrectSet(n, answers);
      }
    }
  }

  /** Changing one answer moves the score by the change at that question alone. */
  lemma {:induction false} ChooseChangesScore(quizLength: nat, answers: map<nat, int>, i: nat, idx: int)
    ensures CountCorrect(quizLength, answers[i := idx])
      == CountCorrect(quizLength, answers)
         - (if i < quizLength && IsCorrect(answers, i) then 1 else 0)
         + (if i < quizLength && idx == 0 then 1 else 0)
  {
    if quizLength > 0 {
      ChooseChangesScore(quizLength - 1, answers, i, idx);
    }
  }

  function Max1(n: nat): nat {
    if n < 1 then 1 else n
  }

  /**
   * The result percentage `(correct / Math.max(1, total)) * 100 | 0` over
   * exact fractions: truncated toward zero, never rounded.
   */
  function ResultPct(correct: nat, total: nat): (p: nat)
    ensures p * Max1(total) <= 100 * correct < (p + 1) * Max1(total)
    ensures correct <= total ==> p <= 100
    ensures total == 0 ==> p == 100 * correct
  {
    var p := (100 * correct) / Max1(total);
    PctAtMostHundred(correct, total, p);
    p
  }

  lemma PctAtMostHundred(correct: nat, total: nat, p: nat)
    requires p * Max1(total) <= 100 * correct
    ensures correct <= total ==> p <= 100
  {
    if correct <= total && p > 100 {
      MulMonotone(Max1(total), 101, p);
      MulMonotone(100, correct, Max1(total));
    }
  }

  lemma {:induction false} MulMonotone(c: nat, x: int, y: int)
    requires x <= y
    ensures c * x <= c * y && x * c <= y * c
  {
    if c > 0 {
      MulMonotone(c - 1, x, y);
      assert c * x == (c - 1) * x + x;
      assert c * y == (c - 1) * y + y;
    }
  }

  /** A full score shows 100, and only a full score does. */
  lemma FullScoreIff(correct: nat, total: nat)
    requires 0 < total && correct <= total
    ensures ResultPct(correct, total) == 100 <==> correct == total
  {
    var p := ResultPct(correct, total);
    assert Max1(total) == total;
    if correct == total {
      if p < 100 {
        MulMonotone(total, p + 1, 100);
      } else if p > 100 {
        MulMonotone(total, 101, p);
      }
    } else if p == 100 {
      MulMonotone(100, correct + 1, total);
    }
  }

  /** `lesson.xp || 10`: a lesson without XP is worth ten. */
  function LessonXp(xp: int): (r: int)
    ensures xp != 0 ==> r == xp
    ensures xp == 0 ==> r == 10
  {
    if xp == 0 then 10 else xp
  }

  /** The lesson's own storage entry: `{ complete, answers }`. */
  datatype LessonRecord = LessonRecord(complete: bool, answers: map<nat, int>)

  datatype Score = Score(correct: nat, total: nat)

  /** `Lesson` for a lesson found in the catalog. */
  class ProLessonView {

    const quizLength: nat
    const xp: int
    var answers: map<nat, int>
    var complete: bool
    var showResult: bool
    var score: Score
    /** The lesson's storage entry. */
    var stored: Option<LessonRecord>

    /** After mounting: completion and answers come from the stored entry, if any. */
    constructor (quizLength: nat, xp: int, stored: Option<LessonRecord>)
      ensures this.quizLength == quizLength && this.xp == xp && this.stored == stored
      ensures complete == (stored.Some? && stored.value.complete)
      ensures answers == if stored.Some? then stored.value.answers else map[]
      ensures !showResult && score == Score(0, 0)
    {
      this.quizLength := quizLength;
      this.xp := xp;
      this.stored := stored;
      complete := stored.Some? && stored.value.complete;
      answers := if stored.Some? then stored.value.answers else map[];
      showResult := false;
      score := Score(0, 0);
    }

    /** `choose(i, idx)`. */
    method Choose(i: nat, idx: int)
      modifies this`answers
      ensures answers == old(answers)[i := idx]
    {
      answers := answers[i := idx];
    }

    /**
     * `finish()`, with `onAward` bound to the game hook's `awardXp`: the
     * first finish of a fully answered lesson scores it, shows the result,
     * stores completion and awards the XP; a later one only shows the result.
     */
    method Finish(hook: ProGameHook)
      modifies this`complete, this`stored, this`showResult, this`score, hook`game
      ensures var fires := !old(complete) && AllChosen(quizLength, answers);
        && complete == (old(complete) || fires)
        && showResult == (old(showResult) || old(complete) || fires)
        && score == (if fires then Score(CountCorrect(quizLength, answers), quizLength) else old(score))
        && stored == (if fires then Some(LessonRecord(true, answers)) else old(stored))
        && hook.game == (if fires then AwardState(old(hook.game), LessonXp(xp)) else old(hook.game))
    {
      if !complete && AllChosen(quizLength, answers) {
        score := Score(CountCorrect(quizLength, answers), quizLength);
        showResult := true;
        stored := Some(LessonRecord(true, answers));
        complete := true;
        hook.AwardXp(LessonXp(xp));
      } else if complete {
        showResult := true;
      }
    }
  }

  /** The pro `Questionnaire`: the question being asked and the answers so far. */
  class Questionnaire {

    const questionCount: nat
    var i: nat
    var answers: seq<Option<bool>>

    /** After mounting: a saved quiz (its answers, or none saved) puts the questionnaire at its end. */
    constructor (questionCount: nat, saved: Option<seq<Option<bool>>>)
      ensures this.questionCount == questionCount
      ensures saved.None? ==> i == 0 && answers == []
      ensures saved.Some? ==> i == questionCount && answers == saved.value
    {
      this.questionCount := questionCount;
      if saved.Some? {
        i := questionCount;
        answers := saved.value;
      } else {
        i := 0;
        answers := [];
      }
    }

    /** `done`: the summary is shown instead of a question. */
    predicate Done()
      reads this
    {
      i >= questionCount
    }

    /** `record(val)`: writes the answer at the current question and moves on. */
    method Record(val: bool)
      modifies this`i, this`answers
      ensures answers == WriteAt(old(answers), old(i), val)
      ensures i == old(i) + 1
    {
      var next := WriteAt(answers, i, val);
      answers := next;
      i := i + 1;
    }
  }
}
