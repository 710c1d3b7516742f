/**
 * The course catalog of the "pro" app variant: tracks hold chapters, which
 * hold lessons, each named by an id.  `findNextLesson` walks from a lesson to
 * the one that follows it: the next lesson of its chapter, else the first of
 * the next chapter, else the first of the next track.  When every track and
 * chapter is non-empty and ids are unique where they are looked up, that is
 * the lesson's successor in the catalog read track by track, chapter by
 * chapter.
 */
module Catalog {

  import opened Wrappers
  import opened Badges

  datatype LessonEntry = LessonEntry(id: string)
  datatype Chapter = Chapter(id: string, lessons: seq<LessonEntry>)
  datatype Track = Track(id: string, chapters: seq<Chapter>)

  /** `{ tid, cid, lid }`: where a lesson sits in the catalog. */
  datatype LessonRef = LessonRef(tid: string, cid: string, lid: string)

  /**
   * What `findNextLesson` gives: the next lesson, `null`, or the `TypeError`
   * raised when the walk reads the first lesson of an empty chapter or the
   * first chapter of an empty track.
   */
  datatype Next = Found(next: LessonRef) | NoNext | Fault

  function TrackIds(ts: seq<Track>): seq<string> {
    seq(|ts|, k requires 0 <= k < |ts| => ts[k].id)
  }

  function ChapterIds(chs: seq<Chapter>): seq<string> {
    seq(|chs|, k requires 0 <= k < |chs| => chs[k].id)
  }

  function LessonIds(ls: seq<LessonEntry>): seq<string> {
    seq(|ls|, k requires 0 <= k < |ls| => ls[k].id)
  }

  /** `findIndex(x => x.id === id)`: the first position holding `id`, or -1. */
  function FindIndex(ids: seq<string>, id: string): (r: int)
    ensures -1 <= r < |ids|
    ensures r == -1 <==> id !in ids
    ensures 0 <= r ==> ids[r] == id && id !in ids[..r]
  {
    if ids == [] then -1
    else if ids[0] == id then 0
    else
      var k := FindIndex(ids[1..], id);
      assert k >= 0 ==> ids[..k + 1] == [ids[0]] + ids[1..][..k];
      if k < 0 then -1 else k + 1
  }

  /** `findNextLesson(tracks, tid, cid, lid)`. */
  function FindNext(tracks: seq<Track>, tid: string, cid: string, lid: string): (r: Next)
    ensures tid !in TrackIds(tracks) ==> r == NoNext
    ensures r.Found? ==> r.next.tid in TrackIds(tracks)
  {
    var ti := FindIndex(TrackIds(tracks), tid);
    if ti < 0 then NoNext
    else
      var tr := tracks[ti];
      var ci := FindIndex(ChapterIds(tr.chapters), cid);
      if ci < 0 then NoNext
      else
        var ch := tr.chapters[ci];
        var li := FindIndex(LessonIds(ch.lessons), lid);
        if li < 0 then NoNext
        else if li + 1 < |ch.lessons| then Found(LessonRef(tid, cid, ch.lessons[li + 1].id))
        else if ci + 1 < |tr.chapters| then
          var nextCh := tr.chapters[ci + 1];
          if |nextCh.lessons| == 0 then Fault
          else Found(LessonRef(tid, nextCh.id, nextCh.lessons[0].id))
        else if ti + 1 < |tracks| then
          var nextTr := tracks[ti + 1];
          if |nextTr.chapters| == 0 || |nextTr.chapters[0].lessons| == 0 then Fault
          else
            assert TrackIds(tracks)[ti + 1] == nextTr.id;
            Found(LessonRef(nextTr.id, nextTr.chapters[0].id, nextTr.chapters[0].lessons[0].id))
        else NoNext
  }

  // ---------------------------------------------------------------------
  // The catalog read in order

  function ChapterRefs(tid: string, ch: Chapter): (r: seq<LessonRef>)
    ensures |r| == |ch.lessons|
    ensures forall k :: 0 <= k < |r| ==> r[k] == LessonRef(tid, ch.id, ch.lessons[k].id)
  {
    seq(|ch.lessons|, k requires 0 <= k < |ch.lessons| => LessonRef(tid, ch.id, ch.lessons[k].id))
  }

  function TrackRefs(tid: string, chs: seq<Chapter>): seq<LessonRef> {
    if chs == [] then [] else ChapterRefs(tid, chs[0]) + TrackRefs(tid, chs[1..])
  }

  /** Every lesson of the catalog, track by track and chapter by chapter. */
  function Flatten(ts: seq<Track>): seq<LessonRef> {
    if ts == [] then [] else TrackRefs(ts[0].id, ts[0].chapters) + Flatten(ts[1..])
  }

  /** The element that follows the first occurrence of `x` in `s`, if any. */
  function NextAfter(s: seq<LessonRef>, x: LessonRef): Option<LessonRef> {
    if s == [] then None
    else if s[0] == x then (if |s| > 1 then Some(s[1]) else None)
    else NextAfter(s[1..], x)
  }

  function ToNext(o: Option<LessonRef>): Next {
    if o.Some? then Found(o.value) else NoNext
  }

  /**
   * The shape `findNextLesson` relies on: track ids are distinct, every track
   * has chapters with distinct ids, and every chapter has lessons.
   */
  predicate WellFormed(ts: seq<Track>) {
    && NoDups(TrackIds(ts))
    && forall i :: 0 <= i < |ts| ==>
         && |ts[i].chapters| > 0
         && NoDups(ChapterIds(ts[i].chapters))
         && forall j :: 0 <= j < |ts[i].chapters| ==> |ts[i].chapters[j].lessons| > 0
  }

  // ---------------------------------------------------------------------
  // Facts about the order

  lemma NextAfterAbsent(s: seq<LessonRef>, x: LessonRef)
    requires x !in s
    ensures NextAfter(s, x) == None
  {
  }

  lemma {:induction false} NextAfterSkip(a: seq<LessonRef>, b: seq<LessonRef>, x: LessonRef)
    requires x !in a
    ensures NextAfter(a + b, x) == NextAfter(b, x)
  {
    if a != [] {
      assert (a + b)[0] == a[0] != x;
      assert (a + b)[1..] == a[1..] + b;
      assert x !in a[1..];
      assert NextAfter(a + b, x) == NextAfter((a + b)[1..], x);
      NextAfterSkip(a[1..], b, x);
    } else {
      assert a + b == b;
    }
  }

  lemma {:induction false} NextAfterAt(s: seq<LessonRef>, k: nat, x: LessonRef)
    requires k < |s| && s[k] == x && x !in s[..k]
    ensures NextAfter(s, x) == if k + 1 < |s| then Some(s[k + 1]) else None
  {
    if k > 0 {
      assert s[1..][..k - 1] == s[..k][1..];
      NextAfterAt(s[1..], k - 1, x);
    }
  }

  lemma {:induction false} TrackRefsBelong(tid: string, chs: seq<Chapter>)
    ensures forall x :: x in TrackRefs(tid, chs) ==> x.tid == tid && x.cid in ChapterIds(chs)
  {
    if chs != [] {
      TrackRefsBelong(tid, chs[1..]);
      assert ChapterIds(chs) == [chs[0].id] + ChapterIds(chs[1..]);
    }
  }

  lemma {:induction false} FlattenBelongs(ts: seq<Track>)
    ensures forall x :: x in Flatten(ts) ==> x.tid in TrackIds(ts)
  {
    if ts != [] {
      FlattenBelongs(ts[1..]);
      TrackRefsBelong(ts[0].id, ts[0].chapters);
      assert TrackIds(ts) == [ts[0].id] + TrackIds(ts[1..]);
    }
  }

  lemma {:induction false} TrackRefsSplit(tid: string, chs: seq<Chapter>, i: nat)
    requires i < |chs|
    ensures TrackRefs(tid, chs) == TrackRefs(tid, chs[..i]) + ChapterRefs(tid, chs[i]) + TrackRefs(tid, chs[i + 1..])
  {
    if i > 0 {
      TrackRefsSplit(tid, chs[1..], i - 1);
      assert chs[1..][..i - 1] == chs[..i][1..];
      assert chs[1..][i - 1 + 1..] == chs[i + 1..];
    }
  }

  lemma {:induction false} FlattenSplit(ts: seq<Track>, i: nat)
    requires i < |ts|
    ensures Flatten(ts) == Flatten(ts[..i]) + (TrackRefs(ts[i].id, ts[i].chapters) + Flatten(ts[i + 1..]))
  {
    if i > 0 {
      FlattenSplit(ts[1..], i - 1);
      assert ts[1..][..i - 1] == ts[..i][1..];
      assert ts[1..][i - 1 + 1..] == ts[i + 1..];
    } else {
      assert ts[..i] == [] && ts[i + 1..] == ts[1..];
    }
  }

  /** An id held once appears neither before nor after its position. */
  lemma UniqueIdElsewhere(ids: seq<string>, i: nat)
    requires i < |ids| && NoDups(ids)
    ensures ids[i] !in ids[..i] && ids[i] !in ids[i + 1..]
  {
    forall k | 0 <= k < i
      ensures ids[..i][k] != ids[i]
    {
      assert ids[..i][k] == ids[k];
    }
    var tail := ids[i + 1..];
    forall k | 0 <= k < |tail|
      ensures tail[k] != ids[i]
    {
      assert tail[k] == ids[i + 1 + k];
    }
  }

  /** A reference whose track id belongs to no earlier/later track than `i` lies in track `i`'s part only. */
  lemma OnlyInItsTrack(ts: seq<Track>, i: nat, r: LessonRef)
    requires i < |ts| && NoDups(TrackIds(ts)) && r.tid == ts[i].id
    ensures r !in Flatten(ts[..i]) && r !in Flatten(ts[i + 1..])
  {
    FlattenBelongs(ts[..i]);
    FlattenBelongs(ts[i + 1..]);
    assert TrackIds(ts[..i]) == TrackIds(ts)[..i];
    assert TrackIds(ts[i + 1..]) == TrackIds(ts)[i + 1..];
    UniqueIdElsewhere(TrackIds(ts), i);
  }

  lemma OnlyInItsChapter(tid: string, chs: seq<Chapter>, j: nat, r: LessonRef)
    requires j < |chs| && NoDups(ChapterIds(chs)) && r.cid == chs[j].id
    ensures r !in TrackRefs(tid, chs[..j]) && r !in TrackRefs(tid, chs[j + 1..])
  {
    TrackRefsBelong(tid, chs[..j]);
    TrackRefsBelong(tid, chs[j + 1..]);
    assert ChapterIds(chs[..j]) == ChapterIds(chs)[..j];
    assert ChapterIds(chs[j + 1..]) == ChapterIds(chs)[j + 1..];
    UniqueIdElsewhere(ChapterIds(chs), j);
  }

  /** The first lesson of a well-formed stretch of chapters. */
  lemma TrackRefsHead(tid: string, chs: seq<Chapter>)
    requires |chs| > 0 && |chs[0].lessons| > 0
    ensures |TrackRefs(tid, chs)| > 0 && TrackRefs(tid, chs)[0] == LessonRef(tid, chs[0].id, chs[0].lessons[0].id)
  {
  }

  lemma FlattenHead(ts: seq<Track>)
    requires |ts| > 0 && |ts[0].chapters| > 0 && |ts[0].chapters[0].lessons| > 0
    ensures |Flatten(ts)| > 0
    ensures Flatten(ts)[0] == LessonRef(ts[0].id, ts[0].chapters[0].id, ts[0].chapters[0].lessons[0].id)
  {
    TrackRefsHead(ts[0].id, ts[0].chapters);
  }

  /** The reference at position `li` of a chapter occurs there first when its lesson id does. */
  lemma FirstInChapter(tid: string, ch: Chapter, li: nat, r: LessonRef)
    requires li < |ch.lessons| && r.lid !in LessonIds(ch.lessons)[..li]
    ensures r !in ChapterRefs(tid, ch)[..li]
  {
    var c := ChapterRefs(tid, ch);
    forall k | 0 <= k < li
      ensures c[..li][k] != r
    {
      assert c[..li][k].lid == LessonIds(ch.lessons)[..li][k];
    }
  }

  /** A reference whose chapter or lesson is not found in its track does not occur in that track. */
  lemma AbsentFromTrack(tr: Track, r: LessonRef)
    requires NoDups(ChapterIds(tr.chapters))
    requires var ci := FindIndex(ChapterIds(tr.chapters), r.cid);
      ci < 0 || FindIndex(LessonIds(tr.chapters[ci].lessons), r.lid) < 0
    ensures r !in TrackRefs(tr.id, tr.chapters)
  {
    TrackRefsBelong(tr.id, tr.chapters);
    var ci := FindIndex(ChapterIds(tr.chapters), r.cid);
    if ci >= 0 {
      var ch := tr.chapters[ci];
      TrackRefsSplit(tr.id, tr.chapters, ci);
      OnlyInItsChapter(tr.id, tr.chapters, ci, r);
      var c := ChapterRefs(tr.id, ch);
      forall k | 0 <= k < |c|
        ensures c[k] != r
      {
        assert c[k].lid == LessonIds(ch.lessons)[k];
      }
    }
  }

  /**
   * Inside the lesson's own track: with the rest of the catalog `rest`
   * following, the successor of a lesson found at chapter `ci`, position `li`.
   */
  lemma SuccessorInTrack(tid: string, chs: seq<Chapter>, ci: nat, li: nat, r: LessonRef, rest: seq<LessonRef>)
    requires ci < |chs| && NoDups(ChapterIds(chs))
    requires ci + 1 < |chs| ==> |chs[ci + 1].lessons| > 0
    requires li < |chs[ci].lessons|
    requires r == LessonRef(tid, chs[ci].id, chs[ci].lessons[li].id)
    requires r.lid !in LessonIds(chs[ci].lessons)[..li]
    ensures NextAfter(TrackRefs(tid, chs) + rest, r) ==
      if li + 1 < |chs[ci].lessons| then Some(LessonRef(tid, r.cid, chs[ci].lessons[li + 1].id))
      else if ci + 1 < |chs| then Some(LessonRef(tid, chs[ci + 1].id, chs[ci + 1].lessons[0].id))
      else if |rest| > 0 then Some(rest[0])
      else None
  {
    var pc, c, qc := TrackRefs(tid, chs[..ci]), ChapterRefs(tid, chs[ci]), TrackRefs(tid, chs[ci + 1..]);
    assert TrackRefs(tid, chs) + rest == pc + c + (qc + rest) by {
      TrackRefsSplit(tid, chs, ci);
    }
    assert r !in pc by {
      OnlyInItsChapter(tid, chs, ci, r);
    }
    assert r !in c[..li] by {
      FirstInChapter(tid, chs[ci], li, r);
    }
    NextAcross(pc, c, qc + rest, li, r);
    if li + 1 >= |c| {
      if ci + 1 < |chs| {
        TrackRefsHead(tid, chs[ci + 1..]);
        assert (qc + rest)[0] == qc[0];
      } else {
        assert qc + rest == rest;
      }
    }
  }

  /** In `pc + c + tail`, with `r` first occurring at position `li` of `c`, what follows `r`. */
  lemma NextAcross(pc: seq<LessonRef>, c: seq<LessonRef>, tail: seq<LessonRef>, li: nat, r: LessonRef)
    requires li < |c| && c[li] == r && r !in c[..li] && r !in pc
    ensures NextAfter(pc + c + tail, r) ==
      if li + 1 < |c| then Some(c[li + 1]) else if |tail| > 0 then Some(tail[0]) else None
  {
    var s := c + tail;
    assert pc + c + tail == pc + s;
    NextAfterSkip(pc, s, r);
    assert s[..li] == c[..li];
    NextAfterAt(s, li, r);
  }

  /**
   * `findNextLesson` is the successor in catalog order: on a well-formed
   * catalog it finds the lesson after `r` in `Flatten`, and gives `null`
   * exactly when there is none.
   */
  lemma FindNextIsSuccessor(ts: seq<Track>, r: LessonRef)
    requires WellFormed(ts)
    ensures FindNext(ts, r.tid, r.cid, r.lid) == ToNext(NextAfter(Flatten(ts), r))
  {
    var ti := FindIndex(TrackIds(ts), r.tid);
    if ti < 0 {
      TrackMissing(ts, r);
    } else {
      InItsTrackPart(ts, r, ti);
      var chs := ts[ti].chapters;
      var ci := FindIndex(ChapterIds(chs), r.cid);
      if ci < 0 || FindIndex(LessonIds(chs[ci].lessons), r.lid) < 0 {
        LessonMissing(ts, r, ti);
      } else {
        FoundCase(ts, r, ti, ci, FindIndex(LessonIds(chs[ci].lessons), r.lid));
      }
    }
  }

  /** A lesson whose track is not found: no next lesson, and none in catalog order. */
  lemma TrackMissing(ts: seq<Track>, r: LessonRef)
    requires FindIndex(TrackIds(ts), r.tid) < 0
    ensures FindNext(ts, r.tid, r.cid, r.lid) == NoNext
    ensures NextAfter(Flatten(ts), r) == None
  {
    FlattenBelongs(ts);
    NextAfterAbsent(Flatten(ts), r);
  }

  /** With distinct track ids, the successor of a lesson of track `ti` is found from that track's part on. */
  lemma InItsTrackPart(ts: seq<Track>, r: LessonRef, ti: nat)
    requires NoDups(TrackIds(ts))
    requires ti < |ts| && ti == FindIndex(TrackIds(ts), r.tid)
    ensures NextAfter(Flatten(ts), r) == NextAfter(TrackRefs(ts[ti].id, ts[ti].chapters) + Flatten(ts[ti + 1..]), r)
  {
    var t := TrackRefs(ts[ti].id, ts[ti].chapters);
    var rest := Flatten(ts[ti + 1..]);
    FlattenSplit(ts, ti);
    assert r !in Flatten(ts[..ti]) by {
      OnlyInItsTrack(ts, ti, r);
    }
    NextAfterSkip(Flatten(ts[..ti]), t + rest, r);
  }

  /** A lesson whose track is found but whose chapter or lesson is not: no next lesson, and none in catalog order. */
  lemma LessonMissing(ts: seq<Track>, r: LessonRef, ti: nat)
    requires NoDups(TrackIds(ts))
    requires ti < |ts| && ti == FindIndex(TrackIds(ts), r.tid)
    requires NoDups(ChapterIds(ts[ti].chapters))
    requires var chs := ts[ti].chapters;
      var ci := FindIndex(ChapterIds(chs), r.cid);
      ci < 0 || FindIndex(LessonIds(chs[ci].lessons), r.lid) < 0
    ensures FindNext(ts, r.tid, r.cid, r.lid) == NoNext
    ensures NextAfter(TrackRefs(ts[ti].id, ts[ti].chapters) + Flatten(ts[ti + 1..]), r) == None
  {
    var t := TrackRefs(ts[ti].id, ts[ti].chapters);
    var rest := Flatten(ts[ti + 1..]);
    AbsentFromTrack(ts[ti], r);
    OnlyInItsTrack(ts, ti, r);
    NextAfterAbsent(t + rest, r);
  }

  /** A lesson outside the catalog has no next lesson. */
  lemma FindNextOutside(ts: seq<Track>, r: LessonRef)
    requires WellFormed(ts) && r !in Flatten(ts)
    ensures FindNext(ts, r.tid, r.cid, r.lid) == NoNext
  {
    FindNextIsSuccessor(ts, r);
    NextAfterAbsent(Flatten(ts), r);
  }

  /** The walk from a lesson found at track `ti`, chapter `ci`, position `li`. */
  lemma FoundCase(ts: seq<Track>, r: LessonRef, ti: nat, ci: nat, li: nat)
    requires WellFormed(ts)
    requires ti < |ts| && ti == FindIndex(TrackIds(ts), r.tid)
    requires ci < |ts[ti].chapters| && ci == FindIndex(ChapterIds(ts[ti].chapters), r.cid)
    requires li < |ts[ti].chapters[ci].lessons| && li == FindIndex(LessonIds(ts[ti].chapters[ci].lessons), r.lid)
    ensures FindNext(ts, r.tid, r.cid, r.lid)
      == ToNext(NextAfter(TrackRefs(ts[ti].id, ts[ti].chapters) + Flatten(ts[ti + 1..]), r))
  {
    var tr := ts[ti];
    var rest := Flatten(ts[ti + 1..]);
    FindNextAt(ts, r, ti, ci, li);
    assert r == LessonRef(tr.id, tr.chapters[ci].id, tr.chapters[ci].lessons[li].id) by {
      assert TrackIds(ts)[ti] == tr.id;
      assert ChapterIds(tr.chapters)[ci] == tr.chapters[ci].id;
      assert LessonIds(tr.chapters[ci].lessons)[li] == tr.chapters[ci].lessons[li].id;
    }
    SuccessorInTrack(tr.id, tr.chapters, ci, li, r, rest);
    if ti + 1 < |ts| {
      FlattenHead(ts[ti + 1..]);
    } else {
      assert rest == [];
    }
  }

  /** The walk once the lesson is found at track `ti`, chapter `ci`, position `li`. */
  lemma FindNextAt(ts: seq<Track>, r: LessonRef, ti: nat, ci: nat, li: nat)
    requires ti < |ts| && ti == FindIndex(TrackIds(ts), r.tid)
    requires ci < |ts[ti].chapters| && ci == FindIndex(ChapterIds(ts[ti].chapters), r.cid)
    requires li < |ts[ti].chapters[ci].lessons| && li == FindIndex(LessonIds(ts[ti].chapters[ci].lessons), r.lid)
    ensures var chs := ts[ti].chapters;
      var ls := chs[ci].lessons;
      FindNext(ts, r.tid, r.cid, r.lid) ==
        if li + 1 < |ls| then Found(LessonRef(r.tid, r.cid, ls[li + 1].id))
        else if ci + 1 < |chs| then
          (if |chs[ci + 1].lessons| == 0 then Fault else Found(LessonRef(r.tid, chs[ci + 1].id, chs[ci + 1].lessons[0].id)))
        else if ti + 1 < |ts| then
          (if |ts[ti + 1].chapters| == 0 || |ts[ti + 1].chapters[0].lessons| == 0 then Fault
           else Found(LessonRef(ts[ti + 1].id, ts[ti + 1].chapters[0].id, ts[ti + 1].chapters[0].lessons[0].id)))
        else NoNext
  {
  }

  /** On a malformed catalog the walk can fail: the chapter after the last lesson is empty. */
  lemma EmptyNextChapterFaults()
    ensures FindNext([Track("t", [Chapter("c1", [LessonEntry("l1")]), Chapter("c2", [])])], "t", "c1", "l1") == Fault
  {
    var ts := [Track("t", [Chapter("c1", [LessonEntry("l1")]), Chapter("c2", [])])];
    assert TrackIds(ts)[0] == "t";
    assert ChapterIds(ts[0].chapters)[0] == "c1";
    assert LessonIds(ts[0].chapters[0].lessons)[0] == "l1";
  }
}
