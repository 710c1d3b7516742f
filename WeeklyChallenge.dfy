/**
 * The weekly challenge record both app variants keep inside their game state:
 * a lessons-per-week goal, the lessons completed this week and bonus tiers
 * that each pay their reward once.
 */
module WeeklyChallenge {

  datatype Tier = Tier(target: int, rewardXp: int, awarded: bool)

  datatype Weekly = Weekly(weekId: int, target: int, completed: int, tiers: seq<Tier>, done: bool)

  /**
   * What the handlers read from the wall clock: `new Date().toDateString()`,
   * the same for 24 hours earlier, and the current `weekId()`.
   */
  datatype Clock = Clock(today: string, yesterday: string, week: int)

  /** The goal in force: `w.target || 5`, so an unset (zero) target counts as five. */
  function Goal(w: Weekly): (g: int)
    ensures g != 0
    ensures w.target != 0 ==> g == w.target
  {
    if w.target == 0 then 5 else w.target
  }

  /**
   * What the weekly bookkeeping keeps true: progress lies between zero and the
   * goal, `done` says whether the goal is reached, and a tier (whose target is
   * positive) is awarded exactly when this week's progress has reached it.
   */
  predicate Consistent(w: Weekly) {
    && 0 <= w.completed <= Goal(w)
    && (w.done <==> w.completed >= Goal(w))
    && forall t :: t in w.tiers ==> t.target > 0 && (t.awarded <==> t.target <= w.completed)
  }

  /** The three tiers of a fresh week: 3 lessons for 30 XP, 5 for 50, 7 for 100. */
  const DefaultTiers: seq<Tier> := [Tier(3, 30, false), Tier(5, 50, false), Tier(7, 100, false)]

  /** `defaultWeekly()`: a fresh challenge for the week `week`, nothing done and nothing awarded. */
  function DefaultWeekly(week: int): (w: Weekly)
    ensures w.weekId == week && w.target == 5 && w.completed == 0 && !w.done
    ensures w.tiers == DefaultTiers && forall t :: t in w.tiers ==> !t.awarded
    ensures Consistent(w)
  {
    Weekly(week, 5, 0, DefaultTiers, false)
  }
}
