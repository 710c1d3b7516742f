/**
 * The main app's onboarding quiz (ten yes/no questions, one at a time) and
 * the track it recommends from the number of "yes" answers.
 */
module Onboarding {

  import opened Wrappers
  import opened Answers

  const QuestionCount: nat := 10

  /** `Quiz`: the question being asked and the answers so far. */
  class Quiz {

    var index: nat
    var answers: seq<Option<bool>>

    /** After mounting: a saved quiz (its `answers`, or none saved) puts the quiz at its end. */
    constructor (saved: Option<seq<Option<bool>>>)
      ensures saved.None? ==> index == 0 && answers == []
      ensures saved.Some? ==> index == QuestionCount && answers == saved.value
    {
      if saved.Some? {
        index := QuestionCount;
        answers := saved.value;
      } else {
        index := 0;
        answers := [];
      }
    }

    /** In a quiz taken from the start, the answers so far are exactly one per question asked. */
    ghost predicate Fresh()
      reads this
    {
      index <= QuestionCount && |answers| == index
    }

    /** `done`. */
    predicate Done()
      reads this
    {
      index >= QuestionCount
    }

    /** `handle(val)`: ignored once every question was asked; otherwise records the answer and moves on. */
    method Handle(val: bool)
      modifies this
      ensures old(Done()) ==> index == old(index) && answers == old(answers)
      ensures !old(Done()) ==> index == old(index) + 1 && answers == WriteAt(old(answers), old(index), val)
      ensures old(Fresh()) ==> Fresh()
      ensures old(Fresh()) && !old(Done()) ==> answers == old(answers) + [Some(val)]
    {
      if index >= QuestionCount {
        return;
      }
      var next := WriteAt(answers, index, val);
      answers := next;
      index := index + 1;
    }
  }

  /**
   * `recommendTrack(score)` over a catalog of `trackCount` tracks: the
   * beginner track up to 3, the middle one up to 7, the advanced one above,
   * falling back to an earlier track when the catalog is shorter.  With no
   * track at all there is nothing to recommend.
   */
  function RecommendTrack(score: int, trackCount: nat): (r: Option<nat>)
    ensures r.Some? <==> trackCount > 0
    ensures r.Some? ==> r.value < trackCount
    ensures trackCount >= 3 ==> r == Some(if score <= 3 then 0 else if score <= 7 then 1 else 2)
  {
    if trackCount == 0 then None
    else if score <= 3 then Some(0)
    else if score <= 7 then Some(if trackCount > 1 then 1 else 0)
    else Some(if trackCount > 2 then 2 else if trackCount > 1 then 1 else 0)
  }

  /** A higher score never recommends an earlier track. */
  lemma RecommendMonotone(s1: int, s2: int, trackCount: nat)
    requires s1 <= s2 && trackCount > 0
    ensures RecommendTrack(s1, trackCount).value <= RecommendTrack(s2, trackCount).value
  {
  }
}

/**
 * Finishing a lesson in the main app: the lesson can be finished once every
 * quiz question has a yes/no answer, whether right or wrong; finishing marks
 * it complete in its own storage entry, awards its XP and ticks the weekly
 * challenge; finishing a completed lesson only closes it.
 */
module LessonCompletion {

  import opened Wrappers
  import opened Gamification

  /** The lesson's own storage entry: `{ complete, answers }`. */
  datatype LessonRecord = LessonRecord(complete: bool, answers: map<nat, bool>)

  /** `allAnswered`: every question index holds `true` or `false`. */
  function AllAnswered(quizLength: nat, answers: map<nat, bool>): (r: bool)
    ensures r <==> forall i :: 0 <= i < quizLength ==> i in answers
  {
    if quizLength == 0 then true
    else AllAnswered(quizLength - 1, answers) && quizLength - 1 in answers
  }

  /** `Lesson` for a lesson that exists in the catalog. */
  class LessonView {

    const quizLength: nat
    const xp: int
    var answers: map<nat, bool>
    var complete: bool
    /** The lesson's storage entry. */
    var stored: Option<LessonRecord>

    /** After mounting: completion and answers come from the stored entry, if any. */
    constructor (quizLength: nat, xp: int, stored: Option<LessonRecord>)
      ensures this.quizLength == quizLength && this.xp == xp && this.stored == stored
      ensures complete == (stored.Some? && stored.value.complete)
      ensures answers == if stored.Some? then stored.value.answers else map[]
    {
      this.quizLength := quizLength;
      this.xp := xp;
      this.stored := stored;
      complete := stored.Some? && stored.value.complete;
      answers := if stored.Some? then stored.value.answers else map[];
    }

    /** `setAns(i, val)`. */
    method SetAnswer(i: nat, val: bool)
      modifies this`answers
      ensures answers == old(answers)[i := val]
    {
      answers := answers[i := val];
    }

    /**
     * `finish()`, with `onAward` and `onWeeklyTick` bound to the hook's
     * `awardXp` and `recordLessonComplete`.  Returns whether the lesson was
     * closed.  Which answers are right is never looked at.
     */
    method Finish(hook: GameHook, today: string) returns (closed: bool)
      modifies this`complete, this`stored, hook`writes
      ensures var fires := !old(complete) && AllAnswered(quizLength, answers);
        && complete == (old(complete) || fires)
        && closed == old(complete)
        && stored == (if fires then Some(LessonRecord(true, answers)) else old(stored))
        && hook.writes == old(hook.writes) + (if fires then FinishWrites(hook.game, xp, today) else [])
    {
      closed := false;
      if !complete && AllAnswered(quizLength, answers) {
        complete := true;
        stored := Some(LessonRecord(true, answers));
        ghost var start := hook.writes;
        hook.AwardXp(xp, today);
        hook.RecordLessonComplete(today);
        AppendAssoc(start, [AwardWrite(hook.game, xp, today)], RecordWrites(hook.game, today));
      } else if complete {
        closed := true;
      }
    }
  }
}
