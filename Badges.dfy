/**
 * Badge lists.  Both app variants keep badges in an array that they rebuild
 * through a JavaScript `Set`: `Array.from(new Set(xs))` keeps the first
 * occurrence of every element in order of first appearance, and `add` on a
 * set puts a new element last and leaves a present one where it is.
 */
module Badges {

  predicate NoDups<T(==)>(s: seq<T>) {
    forall i, j :: 0 <= i < j < |s| ==> s[i] != s[j]
  }

  /** `set.add(b)` seen through `Array.from`. */
  function AddBadge(s: seq<string>, b: string): (r: seq<string>)
    ensures forall x :: x in r <==> x in s || x == b
    ensures NoDups(s) ==> NoDups(r)
    ensures |s| <= |r| <= |s| + 1 && r[..|s|] == s
    ensures b in s ==> r == s
  {
    if b in s then s else s + [b]
  }

  /** `add(b)` only when `cond` holds. */
  function AddBadgeIf(s: seq<string>, cond: bool, b: string): (r: seq<string>)
    ensures forall x :: x in r <==> x in s || (cond && x == b)
    ensures NoDups(s) ==> NoDups(r)
    ensures |r| >= |s| && r[..|s|] == s
  {
    if cond then AddBadge(s, b) else s
  }

  /** `Array.from(new Set(xs))`. */
  function Dedup(xs: seq<string>): (r: seq<string>)
    ensures NoDups(r)
    ensures forall x :: x in r <==> x in xs
    ensures |r| <= |xs|
  {
    if xs == [] then [] else AddBadge(Dedup(xs[..|xs| - 1]), xs[|xs| - 1])
  }

  /** A list without repetitions passes through the set unchanged. */
  lemma {:induction false} DedupOfDistinct(xs: seq<string>)
    requires NoDups(xs)
    ensures Dedup(xs) == xs
  {
    if xs != [] {
      var init := xs[..|xs| - 1];
      DedupOfDistinct(init);
      assert xs[|xs| - 1] !in init;
      assert init + [xs[|xs| - 1]] == xs;
    }
  }

  /** Putting one more element through the set is the same as adding it to the set built so far. */
  lemma DedupSnoc(xs: seq<string>, b: string)
    ensures Dedup(xs + [b]) == AddBadge(Dedup(xs), b)
  {
    assert (xs + [b])[..|xs|] == xs;
  }

  /** `.filter(Boolean)` on strings (and on the `null`s the app writes, which stand here as ""): drops the falsy ones. */
  function Truthy(xs: seq<string>): (r: seq<string>)
    ensures forall x :: x in r <==> x in xs && x != ""
    ensures |r| <= |xs|
  {
    if xs == [] then []
    else Truthy(xs[..|xs| - 1]) + (if xs[|xs| - 1] == "" then [] else [xs[|xs| - 1]])
  }

  lemma {:induction false} TruthyKeepsDistinct(xs: seq<string>)
    requires NoDups(xs)
    ensures NoDups(Truthy(xs))
  {
    if xs != [] {
      TruthyKeepsDistinct(xs[..|xs| - 1]);
      assert xs[|xs| - 1] !in xs[..|xs| - 1];
    }
  }

  /** A list without falsy entries passes the filter unchanged. */
  lemma {:induction false} TruthyOfTruthy(xs: seq<string>)
    requires "" !in xs
    ensures Truthy(xs) == xs
  {
    if xs != [] {
      TruthyOfTruthy(xs[..|xs| - 1]);
      assert xs[..|xs| - 1] + [xs[|xs| - 1]] == xs;
    }
  }

  /** Filtering commutes with adding a non-empty badge; adding a falsy one is filtered away. */
  lemma TruthyAddBadge(s: seq<string>, b: string)
    ensures Truthy(AddBadge(s, b)) == if b == "" then Truthy(s) else AddBadge(Truthy(s), b)
  {
    if b !in s {
      assert (s + [b])[..|s|] == s;
    }
  }
}
