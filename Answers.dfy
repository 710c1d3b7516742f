/**
 * Onboarding answers.  Both questionnaires keep the yes/no answers in a
 * JavaScript array, copy it and assign `next[i] = val`; the score handed on is
 * `answers.filter(Boolean).length`.  A hole or `null` in the array is `None`.
 */
module Answers {

  import opened Wrappers

  /** `next[i] = v` on a copy: overwrites inside the array, appends at its end, and past its end leaves holes. */
  function WriteAt(s: seq<Option<bool>>, i: nat, v: bool): (r: seq<Option<bool>>)
    ensures |r| == if i < |s| then |s| else i + 1
    ensures r[i] == Some(v)
    ensures forall j :: 0 <= j < |r| && j != i ==> r[j] == if j < |s| then s[j] else None
  {
    if i < |s| then s[i := Some(v)] else s + seq(i - |s|, _ => None) + [Some(v)]
  }

  /** `answers.filter(Boolean).length`. */
  function CountTrue(s: seq<Option<bool>>): (n: nat)
    ensures n <= |s|
  {
    if s == [] then 0 else CountTrue(s[..|s| - 1]) + (if s[|s| - 1] == Some(true) then 1 else 0)
  }

  /** The score a questionnaire hands on: how many answers are "yes". */
  function Score(s: seq<Option<bool>>): (n: nat)
    ensures n <= |s|
    ensures n == |YesPositions(s)|
  {
    CountTrueIsYesCount(s);
    CountTrue(s)
  }

  /** The questions answered "yes". */
  function YesPositions(s: seq<Option<bool>>): set<int> {
    set i | 0 <= i < |s| && s[i] == Some(true)
  }

  /** The score is the number of questions answered "yes". */
  lemma {:induction false} CountTrueIsYesCount(s: seq<Option<bool>>)
    ensures CountTrue(s) == |YesPositions(s)|
  {
    if s != [] {
      var init := s[..|s| - 1];
      CountTrueIsYesCount(init);
      if s[|s| - 1] == Some(true) {
        assert YesPositions(s) == YesPositions(init) + {|s| - 1};
      } else {
        assert YesPositions(s) == YesPositions(init);
      }
    }
  }

  /** Recording answer `v` at position `i` changes which questions were answered "yes" at that one position only. */
  lemma YesAfterWrite(s: seq<Option<bool>>, i: nat, v: bool)
    ensures YesPositions(WriteAt(s, i, v)) == (YesPositions(s) - {i}) + (if v then {i} else {})
  {
    var r := WriteAt(s, i, v);
    forall j: int
      ensures j in YesPositions(r) <==> j in (YesPositions(s) - {i}) + (if v then {i} else {})
    {
      if 0 <= j < |r| && j != i {
        assert r[j] == if j < |s| then s[j] else None;
      }
    }
  }

  lemma SizeWithout(a: set<int>, i: int)
    ensures |a| == |a - {i}| + (if i in a then 1 else 0)
  {
    if i in a {
      assert a == (a - {i}) + {i};
    } else {
      assert a == a - {i};
    }
  }

  /** Recording answer `v` at position `i` moves the score by the change at that position. */
  lemma WriteAtScore(s: seq<Option<bool>>, i: nat, v: bool)
    ensures CountTrue(WriteAt(s, i, v))
         == CountTrue(s) - (if i < |s| && s[i] == Some(true) then 1 else 0) + (if v then 1 else 0)
  {
    var r := WriteAt(s, i, v);
    var ys, yr := YesPositions(s), YesPositions(r);
    assert yr - {i} == ys - {i} && (i in yr) == v by {
      YesAfterWrite(s, i, v);
    }
    assert (i in ys) == (i < |s| && s[i] == Some(true));
    SizeWithout(ys, i);
    SizeWithout(yr, i);
    CountTrueIsYesCount(s);
    CountTrueIsYesCount(r);
  }
}
