/**
 * The game state of the "pro" app variant (`useGame`): XP, the daily streak,
 * badges, the weekly challenge and earned certificates.  Unlike the main
 * app, every change goes through a functional updater `setGame(g => ...)`,
 * so changes requested in the same event apply one after another to the
 * latest state, and none of them is lost.  The whole record is kept under
 * the `game` entry of the app's storage blob, next to the blob's other
 * entries.
 */
module ProGame {

  import opened Wrappers
  import opened Badges
  import opened WeeklyChallenge

  const FirstSteps: string := "First Steps"
  const StreakBadge: string := "3-Day Streak"
  const ClubBadge: string := "200 XP Club"

  datatype Certificate = Certificate(trackName: string, scorePct: int, date: int)

  datatype Game = Game(
    xp: int,
    streak: int,
    lastActive: Option<string>,
    badges: seq<string>,
    weekly: Weekly,
    certificates: seq<Certificate>)

  /** The record used when storage holds none. */
  function InitialGame(week: int): Game {
    Game(0, 0, None, [], DefaultWeekly(week), [])
  }

  // ---------------------------------------------------------------------
  // Storage

  /** One top-level entry of the storage blob: the game, or anything else the app keeps there. */
  datatype Entry = GameEntry(game: Game) | OtherEntry(json: string)

  type Blob = map<string, Entry>

  const GameKey: string := "game"

  /** `load()?.game`: `None` when there is no blob or it holds no game. */
  function LoadGame(stored: Option<Blob>): (r: Option<Game>)
    ensures r.Some? <==> stored.Some? && GameKey in stored.value && stored.value[GameKey].GameEntry?
    ensures r.Some? ==> stored.value[GameKey] == GameEntry(r.value)
  {
    if stored.Some? && GameKey in stored.value && stored.value[GameKey].GameEntry?
    then Some(stored.value[GameKey].game)
    else None
  }

  /** `save({...(load() || {}), game})`: the game replaces its entry, every other entry stays. */
  function SaveGame(stored: Option<Blob>, g: Game): (b: Blob)
    ensures b.Keys == stored.GetOr(map[]).Keys + {GameKey}
    ensures forall k :: k in stored.GetOr(map[]) && k != GameKey ==> b[k] == stored.GetOr(map[])[k]
    ensures LoadGame(Some(b)) == Some(g)
  {
    stored.GetOr(map[])[GameKey := GameEntry(g)]
  }

  /** Saving the game that was just loaded leaves the blob as it was. */
  lemma SaveLoadedIsNoOp(b: Blob)
    requires LoadGame(Some(b)).Some?
    ensures SaveGame(Some(b), LoadGame(Some(b)).value) == b
  {
    var g := LoadGame(Some(b)).value;
    assert SaveGame(Some(b), g).Keys == b.Keys;
  }

  /** The second of two saves is all that remains. */
  lemma LastSaveWins(stored: Option<Blob>, g1: Game, g2: Game)
    ensures SaveGame(Some(SaveGame(stored, g1)), g2) == SaveGame(stored, g2)
  {
  }

  // ---------------------------------------------------------------------
  // Mount

  /**
   * Both mount effects: the streak update (its conditions read from the
   * mount snapshot `g`) and then the week reset, each applied to the state
   * the previous one left.
   */
  function MountState(g: Game, c: Clock): (r: Game)
    ensures g.lastActive == Some(c.today) ==> r.lastActive == g.lastActive && r.streak == g.streak
    ensures g.lastActive != Some(c.today) ==>
      r.lastActive == Some(c.today) && r.streak == (if g.lastActive == Some(c.yesterday) then g.streak + 1 else 1)
    ensures r.weekly == if g.weekly.weekId != c.week then DefaultWeekly(c.week) else g.weekly
    ensures r.xp == g.xp && r.badges == g.badges && r.certificates == g.certificates
  {
    var afterStreak :=
      if g.lastActive != Some(c.today)
      then g.(lastActive := Some(c.today), streak := if g.lastActive == Some(c.yesterday) then g.streak + 1 else 1)
      else g;
    if g.weekly.weekId != c.week then afterStreak.(weekly := DefaultWeekly(c.week)) else afterStreak
  }

  /** Mounting twice on the same day and week changes nothing the second time. */
  lemma MountIdempotent(g: Game, c: Clock)
    ensures MountState(MountState(g, c), c) == MountState(g, c)
  {
  }

  /** A new week and a new day together: the streak moves on and the week is reset, both. */
  lemma MountKeepsBothChanges(g: Game, c: Clock)
    requires g.lastActive == Some(c.yesterday) && c.yesterday != c.today
    requires g.weekly.weekId != c.week
    ensures MountState(g, c).streak == g.streak + 1
    ensures MountState(g, c).weekly == DefaultWeekly(c.week)
  {
  }

  // ---------------------------------------------------------------------
  // awardXp

  /**
   * `Array.from(new Set([...held, "First Steps", streak>=3 ? "3-Day Streak" : null,
   * nextXp>=200 ? "200 XP Club" : null])).filter(Boolean)`, with `null` as "".
   */
  function AwardBadges(held: seq<string>, streak: int, nextXp: int): (r: seq<string>)
    ensures FirstSteps in r && "" !in r
    ensures |r| <= |held| + 3
  {
    Truthy(Dedup(held + [FirstSteps, if streak >= 3 then StreakBadge else "", if nextXp >= 200 then ClubBadge else ""]))
  }

  /** The badge rule is the old badges, deduplicated and filtered, followed by the earned ones not held yet. */
  lemma AwardBadgesAppends(held: seq<string>, streak: int, nextXp: int)
    ensures AwardBadges(held, streak, nextXp)
      == AddBadgeIf(AddBadgeIf(AddBadge(Truthy(Dedup(held)), FirstSteps), streak >= 3, StreakBadge), nextXp >= 200, ClubBadge)
  {
    var s := if streak >= 3 then StreakBadge else "";
    var c := if nextXp >= 200 then ClubBadge else "";
    assert held + [FirstSteps, s, c] == ((held + [FirstSteps]) + [s]) + [c];
    DedupSnoc(held, FirstSteps);
    DedupSnoc(held + [FirstSteps], s);
    DedupSnoc((held + [FirstSteps]) + [s], c);
    var d0 := Dedup(held);
    var d1 := AddBadge(d0, FirstSteps);
    var d2 := AddBadge(d1, s);
    TruthyAddBadge(d0, FirstSteps);
    TruthyAddBadge(d1, s);
    TruthyAddBadge(d2, c);
  }

  /** Badges without repetitions or falsy entries come through the set and the filter unchanged. */
  lemma CleanBadgesPass(held: seq<string>)
    ensures NoDups(held) && "" !in held ==> Truthy(Dedup(held)) == held
  {
    if NoDups(held) && "" !in held {
      DedupOfDistinct(held);
      TruthyOfTruthy(held);
    }
  }

  /** The badge rule never repeats a badge and drops the falsy entries. */
  lemma AwardBadgesDistinct(held: seq<string>, streak: int, nextXp: int)
    ensures NoDups(AwardBadges(held, streak, nextXp)) && "" !in AwardBadges(held, streak, nextXp)
  {
    AwardBadgesAppends(held, streak, nextXp);
    TruthyKeepsDistinct(Dedup(held));
  }

  /** The badges after an award are the old ones and the earned ones, no others. */
  lemma AwardBadgesMembers(held: seq<string>, streak: int, nextXp: int)
    ensures forall b :: b in AwardBadges(held, streak, nextXp) <==>
      || (b in held && b != "")
      || b == FirstSteps
      || (b == StreakBadge && streak >= 3)
      || (b == ClubBadge && nextXp >= 200)
  {
    AwardBadgesAppends(held, streak, nextXp);
  }

  /** The old badges come first, in their order, and at most three follow. */
  lemma AwardBadgesKeepOrder(held: seq<string>, streak: int, nextXp: int)
    ensures var r := AwardBadges(held, streak, nextXp); var kept := Truthy(Dedup(held));
      |kept| <= |r| <= |kept| + 3 && r[..|kept|] == kept
  {
    var kept := Truthy(Dedup(held));
    var a1 := AddBadge(kept, FirstSteps);
    var a2 := AddBadgeIf(a1, streak >= 3, StreakBadge);
    var a3 := AddBadgeIf(a2, nextXp >= 200, ClubBadge);
    AwardBadgesAppends(held, streak, nextXp);
    assert AwardBadges(held, streak, nextXp) == a3;
    PrefixOfPrefix(kept, a1, a2);
    PrefixOfPrefix(kept, a2, a3);
  }

  lemma PrefixOfPrefix(a: seq<string>, b: seq<string>, c: seq<string>)
    requires |a| <= |b| <= |c| && b[..|a|] == a && c[..|b|] == b
    ensures c[..|a|] == a
  {
    assert c[..|a|] == c[..|b|][..|a|];
  }

  /** `awardXp(amt)`. */
  function AwardState(g: Game, amt: int): (r: Game)
    ensures r.xp == g.xp + amt
    ensures r.lastActive == g.lastActive && r.streak == g.streak
    ensures r.weekly == g.weekly && r.certificates == g.certificates
    ensures NoDups(r.badges) && "" !in r.badges
    ensures FirstSteps in r.badges
    ensures NoDups(g.badges) && "" !in g.badges ==> |g.badges| <= |r.badges| && r.badges[..|g.badges|] == g.badges
  {
    var nextXp := g.xp + amt;
    AwardBadgesDistinct(g.badges, g.streak, nextXp);
    AwardBadgesMembers(g.badges, g.streak, nextXp);
    AwardBadgesKeepOrder(g.badges, g.streak, nextXp);
    CleanBadgesPass(g.badges);
    g.(xp := nextXp, badges := AwardBadges(g.badges, g.streak, nextXp))
  }

  // ---------------------------------------------------------------------
  // addCertificate

  /** `addCertificate(cert)`: appended last, nothing else touched. */
  function CertState(g: Game, cert: Certificate): (r: Game)
    ensures |r.certificates| == |g.certificates| + 1
    ensures r.certificates[..|g.certificates|] == g.certificates && r.certificates[|g.certificates|] == cert
    ensures r.(certificates := g.certificates) == g
  {
    g.(certificates := g.certificates + [cert])
  }

  // ---------------------------------------------------------------------
  // Histories

  /** One update a user's session can make to the game. */
  datatype Update = Mount(clock: Clock) | Award(amount: int) | Certify(cert: Certificate)

  function Apply(g: Game, u: Update): Game {
    match u
    case Mount(c) => MountState(g, c)
    case Award(amt) => AwardState(g, amt)
    case Certify(cert) => CertState(g, cert)
  }

  function ApplyAll(g: Game, us: seq<Update>): Game {
    if us == [] then g else Apply(ApplyAll(g, us[..|us| - 1]), us[|us| - 1])
  }

  function AwardedTotal(us: seq<Update>): int {
    if us == [] then 0
    else AwardedTotal(us[..|us| - 1]) + (if us[|us| - 1].Award? then us[|us| - 1].amount else 0)
  }

  /**
   * Over any sequence of updates, XP grows by exactly the amounts awarded,
   * certificates are only ever appended, and no held badge is lost.
   */
  lemma {:induction false} HistoryOnlyGrows(g: Game, us: seq<Update>)
    ensures ApplyAll(g, us).xp == g.xp + AwardedTotal(us)
    ensures |g.certificates| <= |ApplyAll(g, us).certificates|
    ensures ApplyAll(g, us).certificates[..|g.certificates|] == g.certificates
    ensures forall b :: b in g.badges && b != "" ==> b in ApplyAll(g, us).badges
  {
    if us != [] {
      var init := us[..|us| - 1];
      HistoryOnlyGrows(g, init);
      var mid := ApplyAll(g, init);
      var u := us[|us| - 1];
      assert ApplyAll(g, us) == Apply(mid, u);
      if u.Certify? {
        assert Apply(mid, u).certificates[..|mid.certificates|] == mid.certificates;
      }
    }
  }

  /** `useGame`: the game and the storage blob it is kept in. */
  class ProGameHook {

    var game: Game
    /** The app's storage blob; `None` when nothing (readable) is stored. */
    var stored: Option<Blob>

    /** The initial state: the stored game, or a fresh one for the week `week`. */
    constructor (stored: Option<Blob>, week: int)
      ensures game == LoadGame(stored).GetOr(InitialGame(week))
      ensures this.stored == stored
    {
      game := LoadGame(stored).GetOr(InitialGame(week));
      this.stored := stored;
    }

    /** The two mount effects, each queueing its updater when the snapshot says so. */
    method MountEffects(c: Clock)
      modifies this`game
      ensures game == MountState(old(game), c)
    {
      var snapshot := game;
      if snapshot.lastActive != Some(c.today) {
        var n := if snapshot.lastActive == Some(c.yesterday) then snapshot.streak + 1 else 1;
        game := game.(lastActive := Some(c.today), streak := n);
      }
      if snapshot.weekly.weekId != c.week {
        game := game.(weekly := DefaultWeekly(c.week));
      }
    }

    /** `awardXp(amt)`. */
    method AwardXp(amt: int)
      modifies this`game
      ensures game == AwardState(old(game), amt)
    {
      game := AwardState(game, amt);
    }

    /** `addCertificate(cert)`. */
    method AddCertificate(cert: Certificate)
      modifies this`game
      ensures game == CertState(old(game), cert)
    {
      game := game.(certificates := game.certificates + [cert]);
    }

    /** The persistence effect, run after every change of `game`. */
    method Persist()
      modifies this`stored
      ensures stored == Some(SaveGame(old(stored), game))
      ensures LoadGame(stored) == Some(game)
    {
      var blob := stored.GetOr(map[]);
      stored := Some(blob[GameKey := GameEntry(game)]);
    }
  }
}
