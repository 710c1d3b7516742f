# FinPath game state, quizzes, lessons and progress in Dafny

FinPath is a small personal-finance learning app written in React. This
project models its bookkeeping core and proves properties of it:

- **The main app** (`src/App.jsx`):
  - the weekly calendar: `startOfWeek` and `weekId`;
  - the gamification hook `useGamification`: daily streak, XP, badges, and the
    weekly challenge with its bonus tiers;
  - the onboarding quiz and the track it recommends;
  - finishing a lesson.
- **The "pro" variant** (`src/ui/App.jsx`):
  - the game hook `useGame`, which also keeps certificates and saves the game
    inside the app's storage blob;
  - the onboarding questionnaire;
  - lesson scoring and the result percentage;
  - `findNextLesson`, which walks the catalog.
- **The content-driven app** (`content_mvp/components/LessonParts.jsx`): the
  `useProgress` hook, a map from `"<track>:<lesson index>"` keys to
  completion, with a per-track percentage.

The two game hooks differ in one way that matters. The main app's handlers
call `setGame({...game, ...})`, where `game` is the value of the render the
handler belongs to. So when one event runs several handlers, the value
written last replaces the others. The pro variant uses functional updaters
`setGame(g => ...)`, so every change applies to the latest state. The model
keeps both behaviours:

- `Gamification.GameHook` records every value written since the last render
  and settles on the last one (`Settle`).
- `ProGame.ProGameHook` applies each update in turn.

Three consequences of this are listed under Findings, with a fourth about storage.

Modules, one per concern:

- `Week`: dates as day numbers, `startOfWeek` and `weekId`.
- `WeeklyChallenge`: the weekly record and `defaultWeekly`.
- `Badges`: badge lists built through a JavaScript `Set`, and `filter(Boolean)`.
- `Answers`: the yes/no answer arrays of both questionnaires.
- `Gamification`: the main app's hook.
- `Onboarding`: the main app's quiz and `recommendTrack`.
- `LessonCompletion`: the main app's lesson.
- `ProGame`: the pro variant's game hook and storage blob.
- `ProLesson`: the pro variant's lesson and questionnaire.
- `Catalog`: `findNextLesson`.
- `LessonProgress`: `useProgress`.

Wall-clock readings are parameters:

- `Clock` holds today's `toDateString()`, yesterday's, and the current
  `weekId()`.
- `today` is the day string `awardXp` stamps.
- `week` is the current week key when a fresh state is built.

Storage reads are parameters (`loaded`, `stored`, `saved`). Storage writes are
fields of the hook classes.

In two places the code does not do what its handlers are meant to do. The
model follows the code in both:

- The intended behaviour is that XP rises by 30 when a lesson reaches the
  3-lesson tier. In the main app the tier reward is written and then
  overwritten in the same event, so XP does not change (`RecordScenario`,
  Finding 1).
- `awardXp(30)` then `awardXp(20)` gives 50 XP only when the two calls are
  separate events (`AwardScenario`). Within one event of the main app the
  second call's value replaces the first.

The main app also never gets its game back from storage. It saves the game's
fields at the top level of the storage blob but loads the `game` entry, so
every opening starts from the initial game (Finding 4). Lemmas that chain
openings over a game carried from one opening to the next describe the app as
it would behave if the game were restored (`ReopenRestores`).

## Model

| member | source | states |
|---|---|---|
| Week.DayOfWeek | src/App.jsx:214 | `getDay` on day numbers is a weekday 0..6, with 1970-01-01 a Thursday |
| Week.MondayShift | src/App.jsx:215 | the shift `(day === 0 ? -6 : 1) - day` lies in -6..0, is -6 on Sunday and 0 on Monday, and always lands on a Monday |
| Week.StartOfWeek | src/App.jsx:212-219 | the start of a week is a Monday at midnight, at most six days earlier; a Sunday goes back exactly six days |
| Week.WeekId | src/App.jsx:220-222 | the week key of a date is a Monday no later than the date and less than seven days before it |
| Week.MondaysCoincide | src/App.jsx:212-219 | two Mondays less than seven days apart are the same day, so a week has exactly one start |
| Week.MondayIsFixed | src/App.jsx:220-222 | a Monday's week key is the Monday itself |
| Week.WholeWeekSharesId | src/App.jsx:220-222 | every day from Monday to Sunday, at any time of day, has the Monday's week key |
| Week.SameWeekIff | src/ui/App.jsx:65-66 | two dates share a week key exactly when the second falls in the first's Monday-to-Sunday span |
| WeeklyChallenge.DefaultWeekly | src/App.jsx:287-299 | a fresh challenge: goal 5, nothing completed, tiers 3/30, 5/50 and 7/100 all unawarded, and the bookkeeping invariant `Consistent` holds |
| WeeklyChallenge.Goal | src/App.jsx:342 | the goal in force, `w.target \|\| 5`, is never 0, and is the target whenever one is set |
| Badges.AddBadge | src/App.jsx:321-325 | `Set.add` seen through `Array.from`: membership grows by exactly `b`, order is kept, `b` goes last if new, and a present badge changes nothing |
| Badges.AddBadgeIf | src/App.jsx:323-324 | a conditional `add`: membership grows by `b` only when the condition holds, and the old list is a prefix |
| Badges.Dedup | src/App.jsx:321 | `new Set(list)` read back: no repeats and the same members |
| Badges.DedupOfDistinct | src/ui/App.jsx:73 | a list without repeats comes out of the set unchanged |
| Badges.DedupSnoc | src/ui/App.jsx:73 | putting one more element through the set is adding it to the set built so far |
| Badges.Truthy | src/ui/App.jsx:73 | `.filter(Boolean)` keeps exactly the non-empty entries |
| Badges.TruthyKeepsDistinct | src/ui/App.jsx:73 | filtering keeps a list free of repeats |
| Badges.TruthyOfTruthy | src/ui/App.jsx:73 | a list without falsy entries passes the filter unchanged |
| Badges.TruthyAddBadge | src/ui/App.jsx:73 | filtering after `add` equals `add` after filtering for a non-empty badge; a falsy one is dropped |
| Answers.WriteAt | src/App.jsx:367 | `next[i] = val` on a copy: position `i` holds the answer; other positions keep their answer or are holes past the old end; the length grows to `i + 1` when needed |
| Answers.CountTrue | src/App.jsx:354 | `filter(Boolean).length` is at most the array length |
| Answers.CountTrueIsYesCount | src/App.jsx:354 | the score is the number of positions answered "yes" |
| Answers.YesAfterWrite | src/ui/App.jsx:128 | recording an answer changes the set of "yes" positions at that one position only |
| Answers.WriteAtScore | src/ui/App.jsx:128-129 | recording an answer moves the score by the change at that position: minus an old "yes", plus a new one |
| Answers.Score | src/App.jsx:354 | the score both questionnaires hand on (the main quiz's `score` and the pro questionnaire's `onFinish` argument) is the number of "yes" answers, at most the number of answers |
| Gamification.StreakWrite | src/App.jsx:305-312 | the streak effect writes only on a new day; it sets today as last active, grows the streak after yesterday or restarts it at 1, and keeps everything else |
| Gamification.WeekWrite | src/App.jsx:314-317 | the week effect writes exactly when the stored week differs, replacing only the weekly challenge with a fresh one |
| Gamification.Settle | src/App.jsx:301 | the state an event leaves: the snapshot when nothing was written, otherwise one of the values written |
| Gamification.LastWriteWins | src/App.jsx:301 | once later handlers of an event write anything, neither the snapshot nor the earlier writes survive |
| Gamification.MountWrites | src/App.jsx:305-317 | the mount writes at most twice, and nothing exactly when today is already recorded and the stored week is this week |
| Gamification.MountSettles | src/App.jsx:305-317 | as written, a mount ends with the challenge reset exactly when the stored week is another, with XP and badges unchanged |
| Gamification.StreakIdempotent | src/App.jsx:308 | after the streak update, opening the app again the same day writes nothing |
| Gamification.StreakCountsConsecutiveDays | src/App.jsx:305-312 | if the game were restored between openings: opening the app on each of n distinct consecutive days in one week adds n - 1 to the streak, and the last day is recorded |
| Gamification.MountLosesStreakOnNewWeek | src/App.jsx:305-317 | as written, on a new day that is also a new week the event ends with only the week reset: streak and last-active day are lost |
| Gamification.MountLosesStreakExample | src/App.jsx:305-317 | an instance: a 4-day streak active yesterday stays 4 on the first open of a new week |
| Gamification.MountComposed | src/App.jsx:305-317 | both mount changes, composed as updaters: the week reset, today as last active and the streak rule all hold; XP and badges are kept |
| Gamification.AwardWrite | src/App.jsx:319-326 | `awardXp` writes XP plus the amount and stamps today; streak and weekly challenge are unchanged |
| Gamification.AwardWriteBadges | src/App.jsx:321-325 | the badges after `awardXp` have no repeats and are the old ones plus "First Steps", plus the streak badge when the streak is at least 3, plus "Century XP" at 100 XP or more |
| Gamification.AwardAllAddsUp | src/App.jsx:319-326 | over separate events XP is the sum of the amounts; streak and challenge are unchanged, no badge is lost, and "First Steps" is held after any award |
| Gamification.AwardScenario | src/App.jsx:319-326 | awarding 30 and then 20 to a fresh state gives 50 XP and "First Steps" |
| Gamification.Unawarded | src/App.jsx:330 | every tier keeps its target and reward with `awarded` cleared |
| Gamification.TargetWrite | src/App.jsx:328-332 | a new goal resets completion, `done` and every tier's award; it keeps week, tier targets and rewards, and nothing outside the challenge changes |
| Gamification.TargetKeepsConsistent | src/App.jsx:328-332 | a new non-negative goal keeps the weekly bookkeeping consistent |
| Gamification.AwardTiers | src/App.jsx:338-341 | the tier list keeps its length |
| Gamification.AwardTiersMarks | src/App.jsx:338-341 | each tier ends up awarded when it already was or the new count reaches it; nothing else about it changes |
| Gamification.NewRewards | src/App.jsx:339 | at most one reward is requested per tier |
| Gamification.FiringTiers | src/App.jsx:339 | the positions of the firing tiers, in increasing order: every one fires and every firing tier is listed |
| Gamification.NewRewardsPayFiringTiers | src/App.jsx:338-341 | the rewards requested are, in tier order, exactly the rewards of the firing tiers, and a tier fires exactly when it was unawarded and the marking awards it |
| Gamification.TiersPayOnce | src/App.jsx:338-341 | once the tiers are marked for a count, recording again at that count or below requests no reward: each tier pays at most once |
| Gamification.AwardWrites | src/App.jsx:339 | one `awardXp` write per requested reward |
| Gamification.AwardWritesEach | src/App.jsx:319-326 | each of those writes is `awardXp` of its own reward computed from the one snapshot, so none includes another's XP |
| Gamification.RecordFinal | src/App.jsx:335-343 | the final write: completion plus one, `done` exactly when the goal (the target, or 5 when unset) is reached, tiers as `AwardTiers`, and the rest of the state is the snapshot's |
| Gamification.RecordKeepsSnapshotXp | src/App.jsx:334-344 | as written, a lesson recorded in an unfinished week ends in the final write, with the snapshot's XP and badges: tier rewards are lost |
| Gamification.RecordKeepsConsistent | src/App.jsx:334-344 | recording a lesson keeps the bookkeeping consistent, and completion never passes the goal |
| Gamification.RecordWrites | src/App.jsx:334-344 | `recordLessonComplete` writes nothing exactly when the week is done, and otherwise at most one write per tier plus the final one |
| Gamification.ReplayKeepsConsistent | src/App.jsx:305-344 | any run of mounts, awards, recorded lessons and goal changes to 3, 5 or 7 keeps the weekly bookkeeping consistent |
| Gamification.NoTierBeyondGoal | src/App.jsx:287-344 | from a fresh game, through any run of those events, no tier above the goal in force is ever awarded: under the default goal of 5 the 7-lesson tier never pays |
| Gamification.RecordScenario | src/App.jsx:334-344 | 2 of 5 done, record one more: completion 3, the 3-tier awarded, the 5-tier not, not done, XP unchanged |
| Gamification.RecordComposed | src/App.jsx:334-344 | `recordLessonComplete` with updaters: a finished week is untouched; otherwise the challenge advances as written and XP grows by the sum of the tier rewards paid |
| Gamification.FinishWrites | src/App.jsx:538 | finishing a lesson writes the lesson's `awardXp` first; in a finished week that is all, otherwise the last write is the weekly one |
| Gamification.FinishKeepsLessonXpOnlyWhenDone | src/App.jsx:538 | as written, finishing a lesson keeps the lesson's XP only when the week's challenge was already done |
| Gamification.FinishComposed | src/App.jsx:538 | finishing with updaters: XP grows by the lesson XP plus the tier rewards, and the challenge advances as written |
| Gamification.LoadGame | src/App.jsx:203 | the selector `s => s?.game` finds a game exactly when the blob's `game` entry holds one |
| Gamification.SaveSlice | src/App.jsx:204-207 | `save({...current, ...slice})` puts the game's five fields at the top level and keeps every other entry, `game` included |
| Gamification.SavesNeverRestore | src/App.jsx:202-207 | as written, no sequence of the app's storage writes changes what the game load finds |
| Gamification.ReopenStartsOver | src/App.jsx:202-207 | as written, whatever was saved before, an opening starts from the initial game and ends with no XP, no badges and a streak of 1 |
| Gamification.SaveGameEntry | src/App.jsx:206 | the save the load expects: the `game` entry holds the game, and every other entry is kept |
| Gamification.ReopenRestores | src/App.jsx:202-207 | with that save, each opening resumes the game the previous one left, so openings on consecutive days chain as the streak rule intends |
| Gamification.GameHook.constructor | src/App.jsx:300-303 | the loaded game, or XP 0, streak 0, no badges and a fresh challenge |
| Gamification.GameHook.MountEffects | src/App.jsx:305-317 | the two effects append exactly the writes `MountWrites` describes |
| Gamification.GameHook.AwardXp | src/App.jsx:319-326 | appends the single `awardXp` write built from the snapshot |
| Gamification.GameHook.SetWeeklyTarget | src/App.jsx:328-332 | appends the single `setWeeklyTarget` write |
| Gamification.GameHook.RecordLessonComplete | src/App.jsx:334-344 | appends nothing for a finished week, else one `awardXp` write per firing tier in tier order and then the final write |
| Gamification.GameHook.MarkTiers | src/App.jsx:338-341 | the `tiers.map` loop returns the awarded tier list and requests `awardXp` for exactly the firing tiers, in order |
| Gamification.GameHook.Render | src/App.jsx:301 | the next render shows the last value written, and no writes are pending |
| Onboarding.Quiz.constructor | src/App.jsx:351-359 | a saved quiz puts the quiz at its end with the saved answers; otherwise it starts at question 0 with no answers |
| Onboarding.Quiz.Handle | src/App.jsx:365-368 | ignored once done; otherwise records the answer at the current question and moves on; a quiz taken from the start gains exactly one answer per question |
| Onboarding.RecommendTrack | src/App.jsx:393-397 | with three or more tracks: track 0 for scores up to 3, track 1 up to 7, track 2 above; a shorter catalog falls back to an earlier track; nothing when there is no track |
| Onboarding.RecommendMonotone | src/App.jsx:393-397 | a higher score never recommends an earlier track |
| LessonCompletion.AllAnswered | src/App.jsx:531 | true exactly when every question index holds an answer |
| LessonCompletion.LessonView.constructor | src/App.jsx:523-529 | completion and answers come from the lesson's stored entry, if any |
| LessonCompletion.LessonView.SetAnswer | src/App.jsx:532 | sets one answer and changes nothing else |
| LessonCompletion.LessonView.Finish | src/App.jsx:534-540 | the first finish of a fully answered lesson marks it complete, stores it and issues the `awardXp` and `recordLessonComplete` writes; a completed lesson only closes |
| LessonProgress.NatToString | content_mvp/components/LessonParts.jsx:14 | an index's decimal text is non-empty, all digits, and one character exactly for indices below 10 |
| LessonProgress.NatToStringInjective | content_mvp/components/LessonParts.jsx:14 | different indices have different texts |
| LessonProgress.Key | content_mvp/components/LessonParts.jsx:14 | the key is the track id, then ':', then digits only |
| LessonProgress.KeyInjective | content_mvp/components/LessonParts.jsx:14 | a key names exactly one track and lesson index |
| LessonProgress.Mark | content_mvp/components/LessonParts.jsx:15 | marking adds the lesson's key with `true` and keeps every other entry |
| LessonProgress.IsDone | content_mvp/components/LessonParts.jsx:27 | a lesson is done only when its key is stored as true, and a done lesson is counted in its track's percentage |
| LessonProgress.MarkIdempotent | content_mvp/components/LessonParts.jsx:13-20 | marking twice is marking once |
| LessonProgress.MarkDecidesOnlyItsLesson | content_mvp/components/LessonParts.jsx:27 | after marking, `isDone` holds for the lesson and is unchanged for every other lesson |
| LessonProgress.DoneIffMarked | content_mvp/components/LessonParts.jsx:13-27 | starting empty, a lesson is done exactly when it was marked |
| LessonProgress.RoundedPct | content_mvp/components/LessonParts.jsx:24 | `Math.round(done / total * 100)`: round half up, never negative, NaN for 0/0 and Infinity for n/0 |
| LessonProgress.TrackPct | content_mvp/components/LessonParts.jsx:22-25 | a track's percentage is finite exactly when the track has lessons, is never negative, and is 0 when none of its keys is stored |
| LessonProgress.RoundedPctMonotone | content_mvp/components/LessonParts.jsx:24 | more lessons done never lowers the rounded percentage |
| LessonProgress.NothingMarkedIsZero | content_mvp/components/LessonParts.jsx:22-25 | with nothing of the track marked, the percentage is 0 |
| LessonProgress.MarkNeverLowersPct | content_mvp/components/LessonParts.jsx:13-25 | marking any lesson never lowers any track's percentage |
| LessonProgress.MarkLeavesOtherTracks | content_mvp/components/LessonParts.jsx:13-25 | marking a lesson leaves another track's percentage alone unless that track's id plus ':' begins the marked track's id |
| LessonProgress.PrefixTrackCountsOthers | content_mvp/components/LessonParts.jsx:23 | the converse: marking a new lesson of the track itself, or of a track whose id begins with `trackId + ':'`, counts one more lesson for `trackId` |
| LessonProgress.PctBound | content_mvp/components/LessonParts.jsx:22-25 | the percentage is at most 100 exactly when 200 * counted < 201 * total, so it is at most 100 whenever the counted keys do not exceed the lesson count |
| LessonProgress.ProgressHook.constructor | content_mvp/components/LessonParts.jsx:5-11 | the stored map, or an empty one |
| LessonProgress.ProgressHook.MarkComplete | content_mvp/components/LessonParts.jsx:13-20 | the map becomes `Mark` of the old one, and the stored copy equals it |
| ProGame.LoadGame | src/ui/App.jsx:69 | `load()?.game` is found exactly when the blob has a game entry, and it is that entry |
| ProGame.SaveGame | src/ui/App.jsx:72 | saving replaces the game entry, keeps every other entry, and loads back the saved game |
| ProGame.SaveLoadedIsNoOp | src/ui/App.jsx:72 | saving the game just loaded leaves the blob as it was |
| ProGame.LastSaveWins | src/ui/App.jsx:72 | of two saves, the second is all that remains |
| ProGame.MountState | src/ui/App.jsx:70-71 | on a new day, today is last active and the streak grows after yesterday or restarts at 1; a different week gets a fresh challenge; XP, badges and certificates are kept |
| ProGame.MountIdempotent | src/ui/App.jsx:70-71 | mounting again on the same day and week changes nothing |
| ProGame.MountKeepsBothChanges | src/ui/App.jsx:70-71 | a new day and a new week together keep both the streak step and the week reset |
| ProGame.AwardBadges | src/ui/App.jsx:73 | the badges after an award hold "First Steps" and no falsy entry, and at most three more than before |
| ProGame.AwardBadgesAppends | src/ui/App.jsx:73 | the badge rule is the old badges, deduplicated and filtered, followed by the earned badges not held yet |
| ProGame.CleanBadgesPass | src/ui/App.jsx:73 | badges without repeats or falsy entries pass the set and the filter unchanged |
| ProGame.AwardBadgesDistinct | src/ui/App.jsx:73 | the badges after an award have no repeats and no falsy entry |
| ProGame.AwardBadgesMembers | src/ui/App.jsx:73 | the badges after an award are the old non-empty ones, "First Steps", "3-Day Streak" at a streak of 3 or more, and "200 XP Club" at 200 XP or more, and no others |
| ProGame.AwardBadgesKeepOrder | src/ui/App.jsx:73 | the old badges come first in their order, and at most three follow |
| ProGame.AwardState | src/ui/App.jsx:73 | XP grows by the amount; streak, last-active day, challenge and certificates are kept; badges have no repeats and no falsy entry and include "First Steps"; clean old badges stay a prefix |
| ProGame.CertState | src/ui/App.jsx:74 | the certificate is appended last and nothing else changes |
| ProGame.HistoryOnlyGrows | src/ui/App.jsx:68-76 | over any sequence of mounts, awards and certificates, XP grows by exactly the amounts awarded, certificates are only appended, and no held badge is lost |
| ProGame.ProGameHook.constructor | src/ui/App.jsx:69 | the stored game, or a fresh one |
| ProGame.ProGameHook.MountEffects | src/ui/App.jsx:70-71 | the guards read the mount snapshot and the updaters apply in turn, giving `MountState` |
| ProGame.ProGameHook.AwardXp | src/ui/App.jsx:73 | the game becomes `AwardState` of the current game |
| ProGame.ProGameHook.AddCertificate | src/ui/App.jsx:74 | the game becomes `CertState` of the current game |
| ProGame.ProGameHook.Persist | src/ui/App.jsx:72 | the blob becomes `SaveGame` of the old blob, and loading it gives the current game |
| ProLesson.AllChosen | src/ui/App.jsx:149 | true exactly when every question index holds option 0 or 1 |
| ProLesson.CountCorrect | src/ui/App.jsx:157 | the number correct is at most the quiz length |
| ProLesson.CountCorrectIsCorrectSet | src/ui/App.jsx:155-157 | the score counts exactly the questions answered with option 0 |
| ProLesson.ChooseChangesScore | src/ui/App.jsx:151-157 | changing one answer moves the score by the change at that question alone |
| ProLesson.ResultPct | src/ui/App.jsx:175 | `(c / max(1, t)) * 100` truncated toward zero: it truncates the exact quotient, is at most 100 when c <= t, and is 100 * c when t = 0 |
| ProLesson.FullScoreIff | src/ui/App.jsx:175 | the result shows 100 exactly for a full score |
| ProLesson.LessonXp | src/ui/App.jsx:162 | a lesson's XP, or 10 when it has none |
| ProLesson.ProLessonView.constructor | src/ui/App.jsx:142-148 | completion and answers come from the lesson's stored entry; no result shown yet |
| ProLesson.ProLessonView.Choose | src/ui/App.jsx:151 | sets one answer and changes nothing else |
| ProLesson.ProLessonView.Finish | src/ui/App.jsx:153-166 | the first finish of a fully answered lesson scores it, shows the result, stores completion and awards its XP through the game hook; a completed lesson only shows the result |
| ProLesson.Questionnaire.constructor | src/ui/App.jsx:124-126 | a saved quiz puts the questionnaire at its end with the saved answers; otherwise it starts at question 0 |
| ProLesson.Questionnaire.Record | src/ui/App.jsx:128 | records the answer at the current question and moves on, with no guard once done |
| Catalog.FindNext | src/ui/App.jsx:185-197 | `findNextLesson`: an unknown track gives `null`, and any lesson found lies in a track of the catalog |
| Catalog.FindIndex | src/ui/App.jsx:186-189 | `findIndex` gives the first position holding the id, or -1 exactly when it is absent |
| Catalog.FindNextIsSuccessor | src/ui/App.jsx:185-197 | on a well-formed catalog, `findNextLesson` finds exactly the lesson that follows in track, chapter and lesson order, and `null` when none follows |
| Catalog.TrackMissing | src/ui/App.jsx:186 | an unknown track gives `null`, and no lesson of the catalog has that track |
| Catalog.LessonMissing | src/ui/App.jsx:188-189 | an unknown chapter or lesson within a found track gives `null`, and the reference is not in that track |
| Catalog.FindNextAt | src/ui/App.jsx:191-196 | once the lesson is found: the next lesson of its chapter, else the first of the next chapter, else the first of the next track, else `null`, with a fault on an empty next chapter or track |
| Catalog.FoundCase | src/ui/App.jsx:191-196 | for a found lesson the walk gives its successor in catalog order |
| Catalog.SuccessorInTrack | src/ui/App.jsx:191-193 | within its track a lesson is followed by the next lesson of its chapter, else the next chapter's first, else whatever follows the track |
| Catalog.FindNextOutside | src/ui/App.jsx:185-197 | a reference not in the catalog has no next lesson |
| Catalog.EmptyNextChapterFaults | src/ui/App.jsx:193 | on a catalog whose next chapter is empty the walk fails reading `lessons[0].id` |

## Left out

- I/O is left out. `localStorage`, JSON encoding and decoding, and the
  swallowed storage errors become parameters and fields. A stored `game`
  entry that is not a game object is treated as missing.
- Clocks, dates and time zones are left out. `toDateString()` strings are
  opaque parameters. Dates are local day numbers. The week key is the
  Monday's day number, not the `YYYY-MM-DD` text that `toISOString` gives in
  UTC. East of UTC that text names the Sunday before, which is still one key
  per week. Daylight-saving shifts are not modelled.
- Rendering is left out: React re-render timing, the motion library,
  confetti and congratulation timers, navigation, theme, `SwipeCard` drag
  handling and the "Lesson not found" view.
- ResultPct: exact arithmetic, not IEEE doubles. JavaScript computes
  `(29 / 50) * 100` as 57.99999999999999, so `| 0` shows 57 where the model
  gives 58. The model states the intended truncation.
- RoundedPct: exact arithmetic, not IEEE doubles. The same rounding error can
  move a result sitting exactly on .5.
- The `|| 0` and `|| []` fallbacks on missing fields are left out. Fields
  are always present in the model. The two fallbacks that change values are
  kept: `target || 5` (Goal) and `lesson.xp || 10` (LessonXp).
- Lesson XP: the main app's `onAward(lesson.xp)` has no fallback, and a
  lesson without `xp` makes XP `NaN`. The model's XP is an integer.
- Storage writes are partly left out:
  - the contents of both quizzes' `quiz` storage entry, with its saved score
    (the main app's write of that entry is kept, as a key that is not `game`);
  - the storage key format of lesson entries.

  The main app's `usePersistentSlice` write-back and game load are modelled
  (`SaveSlice`, `LoadGame`); so are the loads of saved answers and lesson
  entries.
- Gamification.GameHook.constructor takes the loaded game as a parameter, and
  the lemmas that chain openings (StreakCountsConsecutiveDays,
  MountLosesStreakOnNewWeek, MountLosesStreakExample) start from a game
  carried over from an earlier opening. `src/App.jsx` as written never
  carries one over: every opening loads nothing and starts from the initial
  game (ReopenStartsOver, Finding 4). Those lemmas describe the app as it
  would behave if the game were restored (ReopenRestores).
- The certificate pass threshold and the screen that issues certificates are
  left out. Only `addCertificate` itself is modelled.
- Catalog entries carry only their ids. Titles, bodies, quiz texts and links
  do not affect any modelled behaviour.
- Catalog.FindNextIsSuccessor requires a well-formed catalog: unique track
  ids, unique chapter ids per track, and non-empty tracks and chapters. On
  other catalogs the walk can stop at the first matching id or fault
  (EmptyNextChapterFaults). FindNext models those cases as written.
- Gamification.GameHook.AwardXp is a single write of `AwardWrite`. The
  `Set` building inside it is specified by the `Badges` functions rather
  than replayed statement by statement.
- The remaining UI components and the other app shells of the repository
  (home, tracks list, progress page, legacy pages, service worker, content
  validators) are not part of this model.

## Findings

The main app writes its whole game object from the render's snapshot, so
within one event the last write wins. `Gamification.GameHook` models this as
written. The corrected members compose the same handlers as updaters of the
latest state, the way the pro variant's `useGame` does. The fourth finding
is about storage: the corrected member saves the game where the load looks
for it.

| source | as written | input that shows it | evidently intended | confidence | as-written member | corrected member |
|---|---|---|---|---|---|---|
| src/App.jsx:339-343 | `recordLessonComplete` calls `awardXp(t.rewardXp)` for each firing tier, then writes `{...game, weekly}` from the same snapshot, which overwrites the awarded XP | weekly `{target:5, completed:2}` with the 3-lesson tier unawarded; record one lesson | XP rises by 30 when the 3-lesson tier is reached | not executed | Gamification.RecordScenario | Gamification.RecordComposed |
| src/App.jsx:538 | `finish` calls `onAward(lesson.xp)` and then `onWeeklyTick()` in one event; the weekly write from the snapshot replaces the XP write | any lesson finished while the week's challenge is not done | the lesson's XP is added | not executed | Gamification.FinishKeepsLessonXpOnlyWhenDone | Gamification.FinishComposed |
| src/App.jsx:305-317 | the streak effect and the week effect both write `{...game, ...}` from the mount snapshot, and the week reset comes last | if the game were restored (see the next row): last active yesterday with a 4-day streak, first open of a new week | the streak becomes 5, today is recorded, and the week is reset | not executed | Gamification.MountLosesStreakExample | Gamification.MountComposed |
| src/App.jsx:202-207 | `usePersistentSlice` saves `{...current, ...slice}`, which puts the game's fields at the top level of the blob, while the load reads `s?.game`, an entry the app never writes | play a session, close the app, and open it again the next day | the saved game is loaded, so XP, badges and the streak carry over | not executed | Gamification.ReopenStartsOver | Gamification.ReopenRestores |
