/**
 * The XP, streak, badge and weekly-challenge bookkeeping of the main app
 * (`useGamification`).
 *
 * Every handler builds a whole new `game` from the `game` value of the render
 * it belongs to and hands it to `setGame`; nothing reads the state a previous
 * handler of the same event wrote.  So when one event runs several handlers,
 * the value written last replaces the others.  The model keeps exactly that:
 * each handler is a function from the render's snapshot to the values it
 * writes, and an event ends in the last value written.
 */
module Gamification {

  import opened Wrappers
  import opened Badges
  import opened WeeklyChallenge

  const FirstSteps: string := "First Steps"
  /** The app spells this badge with a non-breaking hyphen. */
  const StreakBadge: string := "3\U{2011}Day Streak"
  const CenturyBadge: string := "Century XP"

  datatype Game = Game(xp: int, streak: int, lastActive: Option<string>, badges: seq<string>, weekly: Weekly)

  /** The state used when nothing was loaded. */
  function InitialGame(week: int): Game {
    Game(0, 0, None, [], DefaultWeekly(week))
  }

  /** The state an event leaves behind: the last value written, or the snapshot when nothing was written. */
  function Settle(snapshot: Game, writes: seq<Game>): (r: Game)
    ensures writes == [] ==> r == snapshot
    ensures writes != [] ==> r in writes
  {
    if writes == [] then snapshot else writes[|writes| - 1]
  }

  /** Later writes replace earlier ones: once `later` writes anything, neither the snapshot nor the earlier writes matter. */
  lemma LastWriteWins(snapshot: Game, other: Game, earlier: seq<Game>, later: seq<Game>)
    requires later != []
    ensures Settle(snapshot, earlier + later) == Settle(other, later)
  {
  }

  function Sum(xs: seq<int>): int {
    if xs == [] then 0 else Sum(xs[..|xs| - 1]) + xs[|xs| - 1]
  }

  // ---------------------------------------------------------------------
  // Mount effects

  /** The streak effect: on a new day the streak grows if the last activity was yesterday and restarts at 1 otherwise. */
  function StreakWrite(g: Game, c: Clock): (w: Option<Game>)
    ensures w.None? <==> g.lastActive == Some(c.today)
    ensures w.Some? ==> w.value.lastActive == Some(c.today)
    ensures w.Some? ==> w.value.streak == if g.lastActive == Some(c.yesterday) then g.streak + 1 else 1
    ensures w.Some? ==> w.value.(streak := g.streak, lastActive := g.lastActive) == g
  {
    if g.lastActive == Some(c.today) then None
    else
      var next := if g.lastActive == Some(c.yesterday) then g.streak + 1 else 1;
      Some(g.(streak := next, lastActive := Some(c.today)))
  }

  /** The week effect: a challenge from another week is replaced by a fresh one. */
  function WeekWrite(g: Game, week: int): (w: Option<Game>)
    ensures w.Some? <==> g.weekly.weekId != week
    ensures w.Some? ==> w.value == g.(weekly := DefaultWeekly(week))
  {
    if g.weekly.weekId != week then Some(g.(weekly := DefaultWeekly(week))) else None
  }

  function OptionToSeq(o: Option<Game>): seq<Game> {
    if o.Some? then [o.value] else []
  }

  /** Both mount effects, in order, each reading the same snapshot. */
  function MountWrites(g: Game, c: Clock): (r: seq<Game>)
    ensures |r| <= 2
    ensures r == [] <==> g.lastActive == Some(c.today) && g.weekly.weekId == c.week
  {
    OptionToSeq(StreakWrite(g, c)) + OptionToSeq(WeekWrite(g, c.week))
  }

  /** As written, a mount leaves XP and badges alone and ends with the challenge reset exactly when the stored week is another. */
  lemma MountSettles(g: Game, c: Clock)
    ensures Settle(g, MountWrites(g, c)).weekly == if g.weekly.weekId != c.week then DefaultWeekly(c.week) else g.weekly
    ensures Settle(g, MountWrites(g, c)).xp == g.xp
    ensures Settle(g, MountWrites(g, c)).badges == g.badges
  {
  }

  /** Opening the app again on the same day changes nothing more. */
  lemma StreakIdempotent(g: Game, c: Clock)
    requires StreakWrite(g, c).Some?
    ensures StreakWrite(StreakWrite(g, c).value, c).None?
  {
  }

  /** Opening the app on each of a run of days, one after another, with no week change: the result of each event. */
  function OpenDaily(g: Game, days: seq<string>, week: int): Game
    requires |days| >= 1
    decreases |days|
  {
    if |days| == 1 then g
    else
      var before := OpenDaily(g, days[..|days| - 1], week);
      var c := Clock(days[|days| - 1], days[|days| - 2], week);
      Settle(before, MountWrites(before, c))
  }

  /**
   * The streak counts consecutive days: starting from a state last active on
   * `days[0]`, opening the app on each following day (all days distinct,
   * within the challenge's week) adds one per day.
   */
  /** One more day in the same week, after the previous day: the streak grows by one and today is recorded. */
  lemma OpenNextDay(g: Game, c: Clock)
    requires g.lastActive == Some(c.yesterday) && c.today != c.yesterday && g.weekly.weekId == c.week
    ensures Settle(g, MountWrites(g, c)) == g.(streak := g.streak + 1, lastActive := Some(c.today))
  {
    assert MountWrites(g, c) == [g.(streak := g.streak + 1, lastActive := Some(c.today))];
  }

  lemma {:induction false} StreakCountsConsecutiveDays(g: Game, days: seq<string>)
    requires |days| >= 1 && g.lastActive == Some(days[0])
    requires forall i, j :: 0 <= i < j < |days| ==> days[i] != days[j]
    ensures OpenDaily(g, days, g.weekly.weekId).streak == g.streak + |days| - 1
    ensures OpenDaily(g, days, g.weekly.weekId).lastActive == Some(days[|days| - 1])
    ensures OpenDaily(g, days, g.weekly.weekId).weekly == g.weekly
    decreases |days|
  {
    if |days| > 1 {
      var init := days[..|days| - 1];
      StreakCountsConsecutiveDays(g, init);
      assert days[|days| - 2] != days[|days| - 1];
      OpenNextDay(OpenDaily(g, init, g.weekly.weekId), Clock(days[|days| - 1], days[|days| - 2], g.weekly.weekId));
    }
  }

  /**
   * As written, when a new day and a new week meet, the week reset is written
   * last from the old snapshot and the streak update is lost: the streak and
   * the last-active day stay as they were.
   */
  lemma MountLosesStreakOnNewWeek(g: Game, c: Clock)
    requires g.lastActive != Some(c.today) && g.weekly.weekId != c.week
    ensures Settle(g, MountWrites(g, c)) == g.(weekly := DefaultWeekly(c.week))
    ensures Settle(g, MountWrites(g, c)).lastActive != Some(c.today)
  {
  }

  /** An instance: active yesterday with a 4-day streak, first open of a new week; the streak stays 4 and today is not recorded. */
  lemma MountLosesStreakExample()
    ensures var g := Game(0, 4, Some("Sun Oct 11 2026"), [], DefaultWeekly(20363));
            var c := Clock("Mon Oct 12 2026", "Sun Oct 11 2026", 20373);
            var after := Settle(g, MountWrites(g, c));
            after.streak == 4 && after.lastActive == Some("Sun Oct 11 2026")
  {
  }

  /** The mount effects composed as updaters of the current state: both changes survive. */
  function MountComposed(g: Game, c: Clock): (r: Game)
    ensures r.weekly == if g.weekly.weekId != c.week then DefaultWeekly(c.week) else g.weekly
    ensures r.lastActive == Some(c.today)
    ensures r.streak == if g.lastActive == Some(c.today) then g.streak
                        else if g.lastActive == Some(c.yesterday) then g.streak + 1 else 1
    ensures r.xp == g.xp && r.badges == g.badges
  {
    var s := StreakWrite(g, c).GetOr(g);
    WeekWrite(s, c.week).GetOr(s)
  }

  // ---------------------------------------------------------------------
  // awardXp

  /** `awardXp(amount)`: the value written; its badges are the old ones once each, then any newly earned. */
  function AwardWrite(g: Game, amount: int, today: string): (r: Game)
    ensures r.xp == g.xp + amount
    ensures r.lastActive == Some(today)
    ensures r.streak == g.streak && r.weekly == g.weekly
  {
    var nextXp := g.xp + amount;
    var badges := AddBadgeIf(AddBadgeIf(AddBadge(Dedup(g.badges), FirstSteps), g.streak >= 3, StreakBadge), nextXp >= 100, CenturyBadge);
    g.(xp := nextXp, badges := badges, lastActive := Some(today))
  }

  /** The badges after `awardXp`: each once, the old ones and whichever are newly earned. */
  lemma AwardWriteBadges(g: Game, amount: int, today: string)
    ensures NoDups(AwardWrite(g, amount, today).badges)
    ensures forall b :: b in AwardWrite(g, amount, today).badges <==>
      b in g.badges || b == FirstSteps || (b == StreakBadge && g.streak >= 3) || (b == CenturyBadge && g.xp + amount >= 100)
  {
  }

  /** Awarding once per event, event after event. */
  function AwardAll(g: Game, amounts: seq<int>, today: string): Game {
    if amounts == [] then g
    else AwardWrite(AwardAll(g, amounts[..|amounts| - 1], today), amounts[|amounts| - 1], today)
  }

  /** Over separate events, XP is the sum of the amounts awarded and the other counters stay put. */
  lemma {:induction false} AwardAllAddsUp(g: Game, amounts: seq<int>, today: string)
    ensures AwardAll(g, amounts, today).xp == g.xp + Sum(amounts)
    ensures AwardAll(g, amounts, today).streak == g.streak
    ensures AwardAll(g, amounts, today).weekly == g.weekly
    ensures forall b :: b in g.badges ==> b in AwardAll(g, amounts, today).badges
    ensures amounts != [] ==> FirstSteps in AwardAll(g, amounts, today).badges
  {
    if amounts != [] {
      AwardAllAddsUp(g, amounts[..|amounts| - 1], today);
      AwardWriteBadges(AwardAll(g, amounts[..|amounts| - 1], today), amounts[|amounts| - 1], today);
    }
  }

  /** Awarding 30 and then 20 XP to a fresh state gives 50 XP and the "First Steps" badge. */
  lemma AwardScenario(week: int, today: string)
    ensures AwardAll(InitialGame(week), [30, 20], today).xp == 50
    ensures FirstSteps in AwardAll(InitialGame(week), [30, 20], today).badges
  {
    AwardAllAddsUp(InitialGame(week), [30, 20], today);
    assert Sum([30, 20]) == 50 by {
      assert [30, 20][..1] == [30];
      assert [30][..0] == [];
    }
  }

  // ---------------------------------------------------------------------
  // setWeeklyTarget

  /** `tiers.map(t => ({...t, awarded: false}))`. */
  function Unawarded(ts: seq<Tier>): (r: seq<Tier>)
    ensures |r| == |ts|
    ensures forall j :: 0 <= j < |ts| ==> r[j] == ts[j].(awarded := false)
  {
    seq(|ts|, j requires 0 <= j < |ts| => ts[j].(awarded := false))
  }

  /** `setWeeklyTarget(target)`: the value written. */
  function TargetWrite(g: Game, target: int): (r: Game)
    ensures r.weekly.target == target && r.weekly.completed == 0 && !r.weekly.done
    ensures r.weekly.weekId == g.weekly.weekId
    ensures |r.weekly.tiers| == |g.weekly.tiers|
    ensures forall j :: 0 <= j < |r.weekly.tiers| ==>
      !r.weekly.tiers[j].awarded
      && r.weekly.tiers[j].target == g.weekly.tiers[j].target
      && r.weekly.tiers[j].rewardXp == g.weekly.tiers[j].rewardXp
    ensures r.(weekly := g.weekly) == g
  {
    var w := g.weekly;
    g.(weekly := w.(target := target, completed := 0, tiers := Unawarded(w.tiers), done := false))
  }

  /** A new goal (one of the offered 3, 5, 7, or none) keeps the weekly bookkeeping consistent. */
  lemma TargetKeepsConsistent(g: Game, target: int)
    requires Consistent(g.weekly) && target >= 0
    ensures Consistent(TargetWrite(g, target).weekly)
  {
    var r := TargetWrite(g, target).weekly;
    forall t | t in r.tiers
      ensures t.target > 0 && !t.awarded
    {
      var j :| 0 <= j < |r.tiers| && r.tiers[j] == t;
      assert g.weekly.tiers[j] in g.weekly.tiers;
    }
  }

  // ---------------------------------------------------------------------
  // recordLessonComplete

  /** A tier pays out when it was not yet awarded and the new count reaches it. */
  predicate Fires(t: Tier, completed: int) {
    !t.awarded && completed >= t.target
  }

  /** The tier list after `completed` lessons: every firing tier marked awarded. */
  function AwardTiers(ts: seq<Tier>, completed: int): (r: seq<Tier>)
    ensures |r| == |ts|
  {
    if ts == [] then []
    else
      var t := ts[|ts| - 1];
      AwardTiers(ts[..|ts| - 1], completed) + [if Fires(t, completed) then t.(awarded := true) else t]
  }

  /** Tier by tier, a tier ends up awarded when it already was or the count reaches it; nothing else about it changes. */
  lemma {:induction false} AwardTiersMarks(ts: seq<Tier>, completed: int)
    ensures forall j :: 0 <= j < |ts| ==>
      AwardTiers(ts, completed)[j] == ts[j].(awarded := ts[j].awarded || completed >= ts[j].target)
  {
    if ts != [] {
      AwardTiersMarks(ts[..|ts| - 1], completed);
    }
  }

  /** The rewards requested through `awardXp`, one per firing tier, in tier order. */
  function NewRewards(ts: seq<Tier>, completed: int): (r: seq<int>)
    ensures |r| <= |ts|
  {
    if ts == [] then []
    else
      var t := ts[|ts| - 1];
      NewRewards(ts[..|ts| - 1], completed) + (if Fires(t, completed) then [t.rewardXp] else [])
  }

  /** The positions, below `n`, of the tiers that fire, in tier order. */
  function FiringTiers(ts: seq<Tier>, completed: int, n: nat): (r: seq<int>)
    requires n <= |ts|
    ensures forall k :: 0 <= k < |r| ==> 0 <= r[k] < n && Fires(ts[r[k]], completed)
    ensures forall j :: 0 <= j < n && Fires(ts[j], completed) ==> j in r
    ensures forall k, l :: 0 <= k < l < |r| ==> r[k] < r[l]
    decreases n
  {
    if n == 0 then []
    else FiringTiers(ts, completed, n - 1) + (if Fires(ts[n - 1], completed) then [n - 1] else [])
  }

  lemma {:induction false} NewRewardsUpTo(ts: seq<Tier>, completed: int, n: nat)
    requires n <= |ts|
    ensures |NewRewards(ts[..n], completed)| == |FiringTiers(ts, completed, n)|
    ensures forall k :: 0 <= k < |FiringTiers(ts, completed, n)| ==>
      NewRewards(ts[..n], completed)[k] == ts[FiringTiers(ts, completed, n)[k]].rewardXp
    decreases n
  {
    if n > 0 {
      NewRewardsUpTo(ts, completed, n - 1);
      TierStep(ts, n - 1, completed);
    }
  }

  /**
   * The rewards requested are, in tier order, exactly the rewards of the tiers
   * that fire, and a tier fires exactly when it was unawarded and `AwardTiers`
   * marks it awarded.
   */
  lemma NewRewardsPayFiringTiers(ts: seq<Tier>, completed: int)
    ensures |NewRewards(ts, completed)| == |FiringTiers(ts, completed, |ts|)|
    ensures forall k :: 0 <= k < |FiringTiers(ts, completed, |ts|)| ==>
      NewRewards(ts, completed)[k] == ts[FiringTiers(ts, completed, |ts|)[k]].rewardXp
    ensures forall j :: 0 <= j < |ts| ==>
      (Fires(ts[j], completed) <==> !ts[j].awarded && AwardTiers(ts, completed)[j].awarded)
  {
    AwardTiersMarks(ts, completed);
    NewRewardsUpTo(ts, completed, |ts|);
    assert ts[..|ts|] == ts;
  }

  /** A tier pays at most once: after the tiers are marked for a count, no count up to it fires any tier again. */
  lemma {:induction false} TiersPayOnce(ts: seq<Tier>, completed: int, later: int)
    requires later <= completed
    ensures NewRewards(AwardTiers(ts, completed), later) == []
  {
    if ts != [] {
      var init := ts[..|ts| - 1];
      var marked := AwardTiers(ts, completed);
      TiersPayOnce(init, completed, later);
      assert marked[..|marked| - 1] == AwardTiers(init, completed);
      assert !Fires(marked[|marked| - 1], later);
    }
  }

  /** The `awardXp` writes for a list of rewards, all from one snapshot. */
  function AwardWrites(g: Game, rewards: seq<int>, today: string): (r: seq<Game>)
    ensures |r| == |rewards|
  {
    if rewards == [] then []
    else AwardWrites(g, rewards[..|rewards| - 1], today) + [AwardWrite(g, rewards[|rewards| - 1], today)]
  }

  /** Each write is `awardXp` of its own reward, computed from the one snapshot: none sees another. */
  lemma {:induction false} AwardWritesEach(g: Game, rewards: seq<int>, today: string)
    ensures forall k :: 0 <= k < |rewards| ==> AwardWrites(g, rewards, today)[k] == AwardWrite(g, rewards[k], today)
  {
    if rewards != [] {
      AwardWritesEach(g, rewards[..|rewards| - 1], today);
    }
  }

  lemma TierStep(ts: seq<Tier>, i: int, completed: int)
    requires 0 <= i < |ts|
    ensures AwardTiers(ts[..i + 1], completed)
         == AwardTiers(ts[..i], completed) + [if Fires(ts[i], completed) then ts[i].(awarded := true) else ts[i]]
    ensures NewRewards(ts[..i + 1], completed)
         == if Fires(ts[i], completed) then NewRewards(ts[..i], completed) + [ts[i].rewardXp]
            else NewRewards(ts[..i], completed)
  {
    assert ts[..i + 1][..i] == ts[..i];
  }

  /** A firing tier appends its `awardXp` write and its awarded copy. */
  lemma FireStep(g: Game, ts: seq<Tier>, i: int, completed: int, today: string, start: seq<Game>)
    requires 0 <= i < |ts| && Fires(ts[i], completed)
    ensures start + AwardWrites(g, NewRewards(ts[..i], completed), today) + [AwardWrite(g, ts[i].rewardXp, today)]
         == start + AwardWrites(g, NewRewards(ts[..i + 1], completed), today)
    ensures AwardTiers(ts[..i], completed) + [ts[i].(awarded := true)] == AwardTiers(ts[..i + 1], completed)
  {
    var before := NewRewards(ts[..i], completed);
    TierStep(ts, i, completed);
    AwardWritesSnoc(g, before, ts[i].rewardXp, today);
    AppendAssoc(start, AwardWrites(g, before, today), [AwardWrite(g, ts[i].rewardXp, today)]);
  }

  /** A tier that does not fire requests nothing and is kept as it is. */
  lemma SkipStep(ts: seq<Tier>, i: int, completed: int)
    requires 0 <= i < |ts| && !Fires(ts[i], completed)
    ensures NewRewards(ts[..i + 1], completed) == NewRewards(ts[..i], completed)
    ensures AwardTiers(ts[..i], completed) + [ts[i]] == AwardTiers(ts[..i + 1], completed)
  {
    TierStep(ts, i, completed);
  }

  lemma AwardWritesSnoc(g: Game, rewards: seq<int>, x: int, today: string)
    ensures AwardWrites(g, rewards + [x], today) == AwardWrites(g, rewards, today) + [AwardWrite(g, x, today)]
  {
    assert (rewards + [x])[..|rewards|] == rewards;
  }

  lemma AppendAssoc<T>(a: seq<T>, b: seq<T>, c: seq<T>)
    ensures a + b + c == a + (b + c)
  {
  }

  /** The final write of `recordLessonComplete` for a challenge not yet done. */
  function RecordFinal(g: Game): (r: Game)
    requires !g.weekly.done
    ensures r.weekly.completed == g.weekly.completed + 1
    ensures r.weekly.done <==> r.weekly.completed >= Goal(g.weekly)
    ensures r.weekly.tiers == AwardTiers(g.weekly.tiers, r.weekly.completed)
    ensures r.weekly.(completed := g.weekly.completed, tiers := g.weekly.tiers, done := false) == g.weekly
    ensures r.(weekly := g.weekly) == g
  {
    var w := g.weekly;
    var completed := w.completed + 1;
    g.(weekly := w.(completed := completed, tiers := AwardTiers(w.tiers, completed), done := completed >= Goal(w)))
  }

  lemma RecordFinalUnfolds(g: Game)
    requires !g.weekly.done
    ensures var w := g.weekly;
      RecordFinal(g) == g.(weekly := w.(completed := w.completed + 1, tiers := AwardTiers(w.tiers, w.completed + 1), done := w.completed + 1 >= Goal(w)))
  {
  }

  /** Everything `recordLessonComplete` writes: nothing once the week is done, else one `awardXp` per firing tier and then the new challenge. */
  function RecordWrites(g: Game, today: string): (r: seq<Game>)
    ensures r == [] <==> g.weekly.done
    ensures |r| <= |g.weekly.tiers| + 1
  {
    if g.weekly.done then []
    else AwardWrites(g, NewRewards(g.weekly.tiers, g.weekly.completed + 1), today) + [RecordFinal(g)]
  }

  lemma RecordWritesUnfolds(g: Game, today: string)
    requires !g.weekly.done
    ensures RecordWrites(g, today) == AwardWrites(g, NewRewards(g.weekly.tiers, g.weekly.completed + 1), today) + [RecordFinal(g)]
  {
  }

  /** As written, the event ends in the final write, which carries the snapshot's XP and badges: tier rewards are requested but lost. */
  lemma RecordKeepsSnapshotXp(g: Game, today: string)
    requires !g.weekly.done
    ensures Settle(g, RecordWrites(g, today)) == RecordFinal(g)
    ensures Settle(g, RecordWrites(g, today)).xp == g.xp
    ensures Settle(g, RecordWrites(g, today)).badges == g.badges
  {
  }

  /** Recording a lesson keeps the weekly bookkeeping consistent; in particular `completed` never passes the goal. */
  lemma RecordKeepsConsistent(g: Game, today: string)
    requires Consistent(g.weekly)
    ensures Consistent(Settle(g, RecordWrites(g, today)).weekly)
    ensures Settle(g, RecordWrites(g, today)).weekly.completed <= Goal(g.weekly)
  {
    if !g.weekly.done {
      var w := g.weekly;
      var r := RecordFinal(g).weekly;
      AwardTiersMarks(w.tiers, r.completed);
      forall t | t in r.tiers
        ensures t.target > 0 && (t.awarded <==> t.target <= r.completed)
      {
        var j :| 0 <= j < |r.tiers| && r.tiers[j] == t;
        assert w.tiers[j] in w.tiers;
      }
    }
  }

  /** The events of the main app that act on its game, each a separate event with its own render. */
  datatype Event = Mount(c: Clock) | Award(amount: int, today: string) | Record(today: string) | SetTarget(target: int)

  /** The state one event leaves behind, as written. */
  function Step(g: Game, e: Event): Game {
    match e
    case Mount(c) => Settle(g, MountWrites(g, c))
    case Award(amount, today) => AwardWrite(g, amount, today)
    case Record(today) => Settle(g, RecordWrites(g, today))
    case SetTarget(target) => TargetWrite(g, target)
  }

  function Replay(g: Game, es: seq<Event>): Game {
    if es == [] then g else Step(Replay(g, es[..|es| - 1]), es[|es| - 1])
  }

  /** Every new goal is one of the three the weekly controls offer. */
  predicate OfferedTargets(es: seq<Event>) {
    forall k :: 0 <= k < |es| && es[k].SetTarget? ==> es[k].target in {3, 5, 7}
  }

  /** Any run of events with offered goals keeps the weekly bookkeeping consistent. */
  lemma {:induction false} ReplayKeepsConsistent(g: Game, es: seq<Event>)
    requires Consistent(g.weekly) && OfferedTargets(es)
    ensures Consistent(Replay(g, es).weekly)
  {
    if es != [] {
      var init := es[..|es| - 1];
      assert OfferedTargets(init) by {
        forall k | 0 <= k < |init| && init[k].SetTarget?
          ensures init[k].target in {3, 5, 7}
        {
          assert init[k] == es[k];
        }
      }
      ReplayKeepsConsistent(g, init);
      var before := Replay(g, init);
      match es[|es| - 1]
      case Mount(c) => MountSettles(before, c);
      case Award(amount, today) =>
      case Record(today) => RecordKeepsConsistent(before, today);
      case SetTarget(target) => TargetKeepsConsistent(before, target);
    }
  }

  /**
   * From a fresh game, through any run of events with offered goals, no tier
   * above the goal in force is ever awarded: under the default goal of 5 the
   * 7-lesson tier never pays.
   */
  lemma NoTierBeyondGoal(week: int, es: seq<Event>)
    requires OfferedTargets(es)
    ensures var w := Replay(InitialGame(week), es).weekly;
      forall t :: t in w.tiers && t.target > Goal(w) ==> !t.awarded
  {
    ReplayKeepsConsistent(InitialGame(week), es);
  }

  /** The worked example: 2 of 5 done, record one more; the 3-lesson tier is awarded, the goal is not reached, and the 30 XP is lost. */
  lemma RecordScenario(xp: int, today: string)
    ensures var w := Weekly(20373, 5, 2, DefaultTiers, false);
            var g := Game(xp, 1, None, [], w);
            var after := Settle(g, RecordWrites(g, today));
            && after.weekly.completed == 3
            && after.weekly.tiers[0].awarded && !after.weekly.tiers[1].awarded
            && !after.weekly.done
            && after.xp == xp
  {
    AwardTiersMarks(DefaultTiers, 3);
  }

  /** `recordLessonComplete` composed as updaters of the current state: the tier rewards are paid. */
  function RecordComposed(g: Game, today: string): (r: Game)
    ensures g.weekly.done ==> r == g
    ensures !g.weekly.done ==> r.weekly == RecordFinal(g).weekly
    ensures !g.weekly.done ==> r.xp == g.xp + Sum(NewRewards(g.weekly.tiers, g.weekly.completed + 1))
  {
    if g.weekly.done then g
    else
      var paid := AwardAll(g, NewRewards(g.weekly.tiers, g.weekly.completed + 1), today);
      AwardAllAddsUp(g, NewRewards(g.weekly.tiers, g.weekly.completed + 1), today);
      paid.(weekly := RecordFinal(g).weekly)
  }

  // ---------------------------------------------------------------------
  // Finishing a lesson: `onAward(lesson.xp)` then `onWeeklyTick()`, one event

  function FinishWrites(g: Game, lessonXp: int, today: string): (r: seq<Game>)
    ensures |r| >= 1 && r[0] == AwardWrite(g, lessonXp, today)
    ensures g.weekly.done ==> r == [AwardWrite(g, lessonXp, today)]
    ensures !g.weekly.done ==> r[|r| - 1] == RecordFinal(g)
  {
    [AwardWrite(g, lessonXp, today)] + RecordWrites(g, today)
  }

  /** As written, the lesson's XP survives the event only when the weekly challenge was already done. */
  lemma FinishKeepsLessonXpOnlyWhenDone(g: Game, lessonXp: int, today: string)
    ensures Settle(g, FinishWrites(g, lessonXp, today)).xp == if g.weekly.done then g.xp + lessonXp else g.xp
  {
    if !g.weekly.done {
      assert Settle(g, FinishWrites(g, lessonXp, today)) == RecordFinal(g);
    }
  }

  /** Finishing a lesson with the handlers composed as updaters: the lesson XP and all tier rewards are paid. */
  function FinishComposed(g: Game, lessonXp: int, today: string): (r: Game)
    ensures r.xp == g.xp + lessonXp + (if g.weekly.done then 0 else Sum(NewRewards(g.weekly.tiers, g.weekly.completed + 1)))
    ensures r.weekly == (if g.weekly.done then g.weekly else RecordFinal(g).weekly)
  {
    var h := AwardWrite(g, lessonXp, today);
    RecordComposedFrom(g, h, today);
    RecordComposed(h, today)
  }

  /** `recordLessonComplete` applied to a state whose challenge is `g`'s: the challenge advances as from `g`, and XP grows by `g`'s tier rewards. */
  lemma RecordComposedFrom(g: Game, h: Game, today: string)
    requires h.weekly == g.weekly
    ensures RecordComposed(h, today).weekly == if g.weekly.done then g.weekly else RecordFinal(g).weekly
    ensures RecordComposed(h, today).xp == h.xp + if g.weekly.done then 0 else Sum(NewRewards(g.weekly.tiers, g.weekly.completed + 1))
  {
    if !g.weekly.done {
      RecordFinalUnfolds(g);
      RecordFinalUnfolds(h);
    }
  }

  // ---------------------------------------------------------------------
  // Storage: `usePersistentSlice((s) => s?.game, initial)`

  /** A value of the app's storage blob, as far as the main app writes and reads one. */
  datatype Stored = Number(n: int) | Text(text: Option<string>) | Names(names: seq<string>) | Challenge(w: Weekly)
                  | GameObject(game: Game) | Other

  type Blob = map<string, Stored>

  /** The top-level keys the slice's fields land on. */
  const SliceKeys: set<string> := {"xp", "streak", "lastActive", "badges", "weekly"}

  /** `selector(load())` with the selector `s => s?.game`: the `game` entry, when it holds a game. */
  function LoadGame(b: Blob): (r: Option<Game>)
    ensures r.Some? <==> "game" in b && b["game"].GameObject?
    ensures r.Some? ==> b["game"] == GameObject(r.value)
  {
    if "game" in b && b["game"].GameObject? then Some(b["game"].game) else None
  }

  /** `save({ ...current, ...slice })`: the game's fields are spread over the top level of the blob. */
  function SaveSlice(b: Blob, g: Game): (r: Blob)
    ensures r.Keys == b.Keys + SliceKeys
    ensures r["xp"] == Number(g.xp) && r["streak"] == Number(g.streak) && r["lastActive"] == Text(g.lastActive)
    ensures r["badges"] == Names(g.badges) && r["weekly"] == Challenge(g.weekly)
    ensures forall k :: k in b && k !in SliceKeys ==> r[k] == b[k]
  {
    b["xp" := Number(g.xp)]["streak" := Number(g.streak)]["lastActive" := Text(g.lastActive)]
     ["badges" := Names(g.badges)]["weekly" := Challenge(g.weekly)]
  }

  /** The app's two storage writes: the game slice, and the quiz's `quiz` entry. */
  datatype Save = SliceSave(g: Game) | QuizSave

  function Apply(b: Blob, w: Save): Blob {
    match w
    case SliceSave(g) => SaveSlice(b, g)
    case QuizSave => b["quiz" := Other]
  }

  function ApplyAll(b: Blob, ws: seq<Save>): Blob {
    if ws == [] then b else Apply(ApplyAll(b, ws[..|ws| - 1]), ws[|ws| - 1])
  }

  /** As written, no storage write of the app touches the `game` entry, so what loads never changes. */
  lemma {:induction false} SavesNeverRestore(b: Blob, ws: seq<Save>)
    ensures LoadGame(ApplyAll(b, ws)) == LoadGame(b)
  {
    if ws != [] {
      SavesNeverRestore(b, ws[..|ws| - 1]);
    }
  }

  /** The game one opening of the app shows after its mount effects: the loaded game, or the initial one of this week. */
  function OpenedGame(b: Blob, c: Clock): Game {
    var g := LoadGame(b).GetOr(InitialGame(c.week));
    Settle(g, MountWrites(g, c))
  }

  /**
   * As written, the game is never restored: whatever the app saved before,
   * in however many sessions, an opening starts from the initial game and
   * ends with no XP, no badges and a streak of 1.
   */
  lemma ReopenStartsOver(b: Blob, ws: seq<Save>, c: Clock)
    requires LoadGame(b) == None
    ensures OpenedGame(ApplyAll(b, ws), c).streak == 1
    ensures OpenedGame(ApplyAll(b, ws), c).xp == 0 && OpenedGame(ApplyAll(b, ws), c).badges == []
    ensures OpenedGame(ApplyAll(b, ws), c).lastActive == Some(c.today)
  {
    SavesNeverRestore(b, ws);
  }

  /** The save the load expects, `save({ ...current, game: slice })`: only the `game` entry changes. */
  function SaveGameEntry(b: Blob, g: Game): (r: Blob)
    ensures LoadGame(r) == Some(g)
    ensures r.Keys == b.Keys + {"game"}
    ensures forall k :: k in b && k != "game" ==> r[k] == b[k]
  {
    b["game" := GameObject(g)]
  }

  /** Opening the app on each of a run of days, saving the game as the load expects after each opening. */
  function OpenDaysRestored(b: Blob, days: seq<string>, week: int): Blob
    requires |days| >= 1
    decreases |days|
  {
    if |days| == 1 then b
    else
      var before := OpenDaysRestored(b, days[..|days| - 1], week);
      SaveGameEntry(before, OpenedGame(before, Clock(days[|days| - 1], days[|days| - 2], week)))
  }

  /** With the game saved where it is loaded from, each opening resumes the previous one: the openings chain as `OpenDaily`. */
  lemma {:induction false} ReopenRestores(b: Blob, g: Game, days: seq<string>, week: int)
    requires |days| >= 1 && LoadGame(b) == Some(g)
    ensures LoadGame(OpenDaysRestored(b, days, week)) == Some(OpenDaily(g, days, week))
    decreases |days|
  {
    if |days| > 1 {
      ReopenRestores(b, g, days[..|days| - 1], week);
    }
  }

  // ---------------------------------------------------------------------
  // The hook

  /** `useGamification`: the render's `game` and the `setGame` calls issued since. */
  class GameHook {

    /** The `game` of the current render; every handler reads it. */
    var game: Game
    /** The values passed to `setGame` since that render, oldest first. */
    var writes: seq<Game>

    /** `usePersistentSlice((s) => s?.game, initial)`: the loaded game, or the initial one. */
    constructor (loaded: Option<Game>, week: int)
      ensures game == loaded.GetOr(InitialGame(week)) && writes == []
    {
      game := loaded.GetOr(InitialGame(week));
      writes := [];
    }

    /** The state the next render shows. */
    function Pending(): Game
      reads this
    {
      Settle(game, writes)
    }

    /** The two mount effects, in order. */
    method MountEffects(c: Clock)
      modifies this`writes
      ensures writes == old(writes) + MountWrites(game, c)
    {
      if game.lastActive != Some(c.today) {
        var next := if game.lastActive == Some(c.yesterday) then game.streak + 1 else 1;
        writes := writes + [game.(streak := next, lastActive := Some(c.today))];
      }
      if game.weekly.weekId != c.week {
        writes := writes + [game.(weekly := DefaultWeekly(c.week))];
      }
    }

    /** `awardXp(amount)`: one `setGame` of the value computed from the snapshot. */
    method AwardXp(amount: int, today: string)
      modifies this`writes
      ensures writes == old(writes) + [AwardWrite(game, amount, today)]
    {
      writes := writes + [AwardWrite(game, amount, today)];
    }

    method SetWeeklyTarget(target: int)
      modifies this`writes
      ensures writes == old(writes) + [TargetWrite(game, target)]
    {
      var w := game.weekly;
      var tiers := Unawarded(w.tiers);
      writes := writes + [game.(weekly := w.(target := target, completed := 0, tiers := tiers, done := false))];
    }

    /** `recordLessonComplete()`. */
    method RecordLessonComplete(today: string)
      modifies this`writes
      ensures writes == old(writes) + RecordWrites(game, today)
    {
      var g := game;
      var w := g.weekly;
      if w.done {
        return;
      }
      var completed := w.completed + 1;
      ghost var start := writes;
      var tiers := MarkTiers(completed, today);
      ghost var requested := AwardWrites(g, NewRewards(w.tiers, completed), today);
      var final := g.(weekly := w.(completed := completed, tiers := tiers, done := completed >= Goal(w)));
      assert final == RecordFinal(g) by {
        RecordFinalUnfolds(g);
      }
      writes := writes + [final];
      assert writes == start + RecordWrites(g, today) by {
        AppendAssoc(start, requested, [final]);
        RecordWritesUnfolds(g, today);
      }
    }

    /** The `tiers.map(...)` of `recordLessonComplete`: walks the tiers in order and requests `awardXp` for each that fires. */
    method MarkTiers(completed: int, today: string) returns (tiers: seq<Tier>)
      modifies this`writes
      ensures tiers == AwardTiers(game.weekly.tiers, completed)
      ensures writes == old(writes) + AwardWrites(game, NewRewards(game.weekly.tiers, completed), today)
    {
      var g := game;
      var ts := g.weekly.tiers;
      ghost var start := writes;
      tiers := [];
      var i := 0;
      while i < |ts|
        invariant 0 <= i <= |ts|
        invariant tiers == AwardTiers(ts[..i], completed)
        invariant writes == start + AwardWrites(g, NewRewards(ts[..i], completed), today)
      {
        var t := ts[i];
        if Fires(t, completed) {
          AwardXp(t.rewardXp, today);
          FireStep(g, ts, i, completed, today, start);
          tiers := tiers + [t.(awarded := true)];
        } else {
          SkipStep(ts, i, completed);
          tiers := tiers + [t];
        }
        i := i + 1;
      }
      assert ts[..i] == ts;
    }

    /** React re-renders: the last value written becomes the new snapshot. */
    method Render()
      modifies this
      ensures game == old(Pending()) && writes == []
    {
      game := Settle(game, writes);
      writes := [];
    }
  }
}
