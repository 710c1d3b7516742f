/**
 * Per-lesson completion for the content-driven app (`useProgress`): a map
 * from `"<trackId>:<lessonIndex>"` to `true`, a lookup of one lesson, and a
 * track's completion percentage found by counting the keys that start with
 * `"<trackId>:"`.
 */
module LessonProgress {

  import opened Wrappers

  // ---------------------------------------------------------------------
  // Keys

  function DigitChar(d: nat): (c: char)
    requires d < 10
    ensures '0' <= c <= '9'
  {
    ('0' as int + d) as char
  }

  /** The decimal text of a lesson index, as a template literal writes it. */
  function NatToString(n: nat): (s: string)
    ensures 1 <= |s|
    ensures n < 10 <==> |s| == 1
    ensures forall j :: 0 <= j < |s| ==> '0' <= s[j] <= '9'
  {
    if n < 10 then [DigitChar(n)] else NatToString(n / 10) + [DigitChar(n % 10)]
  }

  /** Different indices have different decimal texts. */
  lemma {:induction false} NatToStringInjective(m: nat, n: nat)
    requires NatToString(m) == NatToString(n)
    ensures m == n
  {
    var sm, sn := NatToString(m), NatToString(n);
    if m >= 10 && n >= 10 {
      assert sm[..|sm| - 1] == NatToString(m / 10);
      assert sn[..|sn| - 1] == NatToString(n / 10);
      NatToStringInjective(m / 10, n / 10);
      assert DigitChar(m % 10) == sm[|sm| - 1] == DigitChar(n % 10);
    }
  }

  /** `` `${trackId}:${lessonIndex}` ``. */
  function Key(trackId: string, lessonIndex: nat): (k: string)
    ensures |k| == |trackId| + 1 + |NatToString(lessonIndex)|
    ensures k[..|trackId|] == trackId && k[|trackId|] == ':'
    ensures forall j :: |trackId| < j < |k| ==> k[j] != ':'
  {
    trackId + ":" + NatToString(lessonIndex)
  }

  /** A key names exactly one lesson: the track is everything before its last ':' and the index everything after. */
  lemma KeyInjective(t1: string, i1: nat, t2: string, i2: nat)
    requires Key(t1, i1) == Key(t2, i2)
    ensures t1 == t2 && i1 == i2
  {
    var k := Key(t1, i1);
    assert |t1| == |t2|;
    assert t1 == k[..|t1|] == t2;
    assert NatToString(i1) == k[|t1| + 1..] == NatToString(i2);
    NatToStringInjective(i1, i2);
  }

  // ---------------------------------------------------------------------
  // The progress map

  type Progress = map<string, bool>

  /** `markComplete(trackId, lessonIndex)`: the new map. */
  function Mark(p: Progress, trackId: string, lessonIndex: nat): (r: Progress)
    ensures r.Keys == p.Keys + {Key(trackId, lessonIndex)}
    ensures r[Key(trackId, lessonIndex)]
    ensures forall k :: k in p && k != Key(trackId, lessonIndex) ==> r[k] == p[k]
  {
    p[Key(trackId, lessonIndex) := true]
  }

  /** `isDone(trackId, lessonIndex)`: `!!progress[key]`. */
  predicate IsDone(p: Progress, trackId: string, lessonIndex: nat)
    ensures IsDone(p, trackId, lessonIndex) ==> Key(trackId, lessonIndex) in TrackKeys(p, trackId)
  {
    Key(trackId, lessonIndex) in p && p[Key(trackId, lessonIndex)]
  }

  /** Marking twice is marking once. */
  lemma MarkIdempotent(p: Progress, trackId: string, lessonIndex: nat)
    ensures Mark(Mark(p, trackId, lessonIndex), trackId, lessonIndex) == Mark(p, trackId, lessonIndex)
  {
  }

  /** Marking one lesson decides its lookup and no other lesson's. */
  lemma MarkDecidesOnlyItsLesson(p: Progress, t: string, i: nat, u: string, j: nat)
    ensures IsDone(Mark(p, t, i), t, i)
    ensures (u, j) != (t, i) ==> IsDone(Mark(p, t, i), u, j) == IsDone(p, u, j)
  {
    if (u, j) != (t, i) && Key(u, j) == Key(t, i) {
      KeyInjective(u, j, t, i);
    }
  }

  /** Marking a list of lessons, one after another, from the given map. */
  function MarkAll(p: Progress, lessons: seq<(string, nat)>): Progress {
    if lessons == [] then p
    else
      var last := lessons[|lessons| - 1];
      Mark(MarkAll(p, lessons[..|lessons| - 1]), last.0, last.1)
  }

  /** Starting from an empty map, a lesson is done exactly when it was marked. */
  lemma {:induction false} DoneIffMarked(lessons: seq<(string, nat)>, t: string, i: nat)
    ensures IsDone(MarkAll(map[], lessons), t, i) <==> (t, i) in lessons
  {
    if lessons != [] {
      var init := lessons[..|lessons| - 1];
      var last := lessons[|lessons| - 1];
      DoneIffMarked(init, t, i);
      MarkDecidesOnlyItsLesson(MarkAll(map[], init), last.0, last.1, t, i);
      assert lessons == init + [last];
    }
  }

  // ---------------------------------------------------------------------
  // Track percentage

  predicate StartsWith(s: string, prefix: string) {
    |prefix| <= |s| && s[..|prefix|] == prefix
  }

  /** The keys counted for a track: those starting with `trackId + ':'`. */
  function TrackKeys(p: Progress, trackId: string): set<string> {
    set k | k in p && StartsWith(k, trackId + ":")
  }

  /** A JavaScript number as far as a percentage can be one. */
  datatype Number = Finite(value: int) | NaN | Infinity

  /**
   * `Math.round((done / totalLessons) * 100)` over exact fractions: halves
   * round up.  With no lessons the division gives `NaN` (nothing done) or
   * `Infinity`.
   */
  function RoundedPct(done: nat, totalLessons: nat): (r: Number)
    ensures totalLessons == 0 <==> !r.Finite?
    ensures totalLessons == 0 ==> (r == NaN <==> done == 0)
    ensures r.Finite? ==> 0 <= r.value
    ensures r.Finite? ==> 2 * totalLessons * r.value <= 200 * done + totalLessons < 2 * totalLessons * (r.value + 1)
  {
    if totalLessons == 0 then (if done == 0 then NaN else Infinity)
    else Finite((200 * done + totalLessons) / (2 * totalLessons))
  }

  /** `getTrackPct(trackId, totalLessons)`. */
  function TrackPct(p: Progress, trackId: string, totalLessons: nat): (r: Number)
    ensures totalLessons == 0 <==> !r.Finite?
    ensures r.Finite? ==> 0 <= r.value
    ensures totalLessons > 0 && TrackKeys(p, trackId) == {} ==> r == Finite(0)
  {
    RoundedPct(|TrackKeys(p, trackId)|, totalLessons)
  }

  /** More lessons done never lowers the rounded percentage. */
  lemma RoundedPctMonotone(d1: nat, d2: nat, totalLessons: nat)
    requires d1 <= d2 && totalLessons > 0
    ensures RoundedPct(d1, totalLessons).value <= RoundedPct(d2, totalLessons).value
  {
    var a, b := RoundedPct(d1, totalLessons).value, RoundedPct(d2, totalLessons).value;
    if b < a {
      MulMonotone(2 * totalLessons, b + 1, a);
    }
  }

  lemma {:induction false} MulMonotone(c: nat, x: int, y: int)
    requires x <= y
    ensures c * x <= c * y
  {
    if c > 0 {
      MulMonotone(c - 1, x, y);
      assert c * x == (c - 1) * x + x;
      assert c * y == (c - 1) * y + y;
    }
  }

  /** With nothing of the track marked, the percentage is 0. */
  lemma NothingMarkedIsZero(p: Progress, trackId: string, totalLessons: nat)
    requires TrackKeys(p, trackId) == {} && totalLessons > 0
    ensures TrackPct(p, trackId, totalLessons) == Finite(0)
  {
  }

  /** Marking any lesson never lowers any track's percentage. */
  lemma MarkNeverLowersPct(p: Progress, t: string, i: nat, trackId: string, totalLessons: nat)
    requires totalLessons > 0
    ensures TrackPct(p, trackId, totalLessons).value <= TrackPct(Mark(p, t, i), trackId, totalLessons).value
  {
    assert TrackKeys(p, trackId) <= TrackKeys(Mark(p, t, i), trackId);
    SubsetSize(TrackKeys(p, trackId), TrackKeys(Mark(p, t, i), trackId));
    RoundedPctMonotone(|TrackKeys(p, trackId)|, |TrackKeys(Mark(p, t, i), trackId)|, totalLessons);
  }

  lemma SubsetSize(a: set<string>, b: set<string>)
    requires a <= b
    ensures |a| <= |b|
  {
    assert b == a + (b - a);
  }

  /**
   * Marking a lesson of track `t` leaves the percentage of another track
   * `trackId` alone unless `trackId + ':'` begins `t`, when the new key is
   * counted for both.
   */
  lemma MarkLeavesOtherTracks(p: Progress, t: string, i: nat, trackId: string, totalLessons: nat)
    requires trackId != t && !StartsWith(t, trackId + ":")
    ensures TrackPct(Mark(p, t, i), trackId, totalLessons) == TrackPct(p, trackId, totalLessons)
  {
    var k := Key(t, i);
    var pre := trackId + ":";
    if |pre| <= |k| {
      if |trackId| < |t| {
        assert k[..|pre|] == t[..|pre|];
      } else if |trackId| == |t| {
        assert k[..|pre|][..|t|] == t;
      } else {
        assert k[|trackId|] != ':';
      }
    }
    assert !StartsWith(k, pre);
    assert TrackKeys(Mark(p, t, i), trackId) == TrackKeys(p, trackId);
  }

  /**
   * The counterpart: marking a new lesson of track `t` counts one more lesson
   * for `trackId` when `t` is `trackId` itself or begins with `trackId + ':'`.
   */
  lemma PrefixTrackCountsOthers(p: Progress, t: string, i: nat, trackId: string)
    requires t == trackId || StartsWith(t, trackId + ":")
    requires Key(t, i) !in p
    ensures |TrackKeys(Mark(p, t, i), trackId)| == |TrackKeys(p, trackId)| + 1
  {
    var k := Key(t, i);
    var pre := trackId + ":";
    assert StartsWith(k, pre) by {
      if t == trackId {
        assert k[..|pre|] == pre;
      } else {
        assert k[..|pre|] == t[..|pre|];
      }
    }
    MarkAddsKey(p, t, i, trackId);
  }

  lemma MarkAddsKey(p: Progress, t: string, i: nat, trackId: string)
    requires StartsWith(Key(t, i), trackId + ":") && Key(t, i) !in p
    ensures |TrackKeys(Mark(p, t, i), trackId)| == |TrackKeys(p, trackId)| + 1
  {
    var k := Key(t, i);
    assert TrackKeys(Mark(p, t, i), trackId) == TrackKeys(p, trackId) + {k};
  }

  /** The percentage stays at most 100 exactly while the counted keys are not enough to round above it; in particular whenever they do not exceed the lesson count. */
  lemma PctBound(p: Progress, trackId: string, totalLessons: nat)
    requires totalLessons > 0
    ensures TrackPct(p, trackId, totalLessons).value <= 100 <==> 200 * |TrackKeys(p, trackId)| < 201 * totalLessons
    ensures |TrackKeys(p, trackId)| <= totalLessons ==> TrackPct(p, trackId, totalLessons).value <= 100
  {
    var v := TrackPct(p, trackId, totalLessons).value;
    if v <= 100 {
      MulMonotone(2 * totalLessons, v + 1, 101);
    } else {
      MulMonotone(2 * totalLessons, 101, v);
    }
  }

  /** `useProgress`: the progress map and its storage entry `fin-ed-progress`. */
  class ProgressHook {

    var progress: Progress
    /** The stored map; `None` when nothing is stored. */
    var stored: Option<Progress>

    /** After mounting: the stored map, or an empty one. */
    constructor (stored: Option<Progress>)
      ensures progress == stored.GetOr(map[]) && this.stored == stored
    {
      progress := stored.GetOr(map[]);
      this.stored := stored;
    }

    /** `markComplete(trackId, lessonIndex)`: extends the map and stores the result. */
    method MarkComplete(trackId: string, lessonIndex: nat)
      modifies this
      ensures progress == Mark(old(progress), trackId, lessonIndex)
      ensures stored == Some(progress)
    {
      var next := progress[Key(trackId, lessonIndex) := true];
      progress := next;
      stored := Some(next);
    }
  }
}
