/** Order-preserving selection, the reference for every filter and for what a paged run sees. */
module Sequences {

  /** The elements of `s` at the positions in `keep`, in order. */
  function Pick<T>(s: seq<T>, keep: set<nat>): seq<T> {
    if s == [] then []
    else Pick(s[..|s| - 1], keep) + if |s| - 1 in keep then [s[|s| - 1]] else []
  }

  /** Each kept element stands at the position that counts the kept elements before it. */
  lemma {:induction false} PickAt<T>(s: seq<T>, keep: set<nat>, i: nat)
    requires i < |s|
    ensures |Pick(s[..i], keep)| <= |Pick(s, keep)|
    ensures i in keep ==>
              |Pick(s[..i], keep)| < |Pick(s, keep)| && Pick(s, keep)[|Pick(s[..i], keep)|] == s[i]
    ensures Pick(s[..i], keep) <= Pick(s, keep)
  {
    var front := s[..|s| - 1];
    if i < |front| {
      PickAt(front, keep, i);
      assert front[..i] == s[..i];
    } else {
      assert front == s[..i];
    }
  }

  /** Everything selected was at a kept position. */
  lemma {:induction false} PickSource<T>(s: seq<T>, keep: set<nat>, k: nat)
    requires k < |Pick(s, keep)|
    ensures exists i: nat :: i < |s| && i in keep && Pick(s, keep)[k] == s[i] && k == |Pick(s[..i], keep)|
  {
    var front := s[..|s| - 1];
    if k < |Pick(front, keep)| {
      PickSource(front, keep, k);
      var i: nat :| i < |front| && i in keep && Pick(front, keep)[k] == front[i] && k == |Pick(front[..i], keep)|;
      assert front[..i] == s[..i];
      assert Pick(s, keep)[k] == s[i];
    } else {
      assert s[..|s| - 1] == front;
      assert |s| - 1 in keep && Pick(s, keep)[k] == s[|s| - 1];
    }
  }

  lemma {:induction false} PickCongruent<T>(s: seq<T>, a: set<nat>, b: set<nat>)
    requires forall i: nat | i < |s| :: i in a <==> i in b
    ensures Pick(s, a) == Pick(s, b)
  {
    if s != [] {
      PickCongruent(s[..|s| - 1], a, b);
    }
  }

  lemma {:induction false} PickAll<T>(s: seq<T>, keep: set<nat>)
    requires forall i: nat | i < |s| :: i in keep
    ensures Pick(s, keep) == s
  {
    if s != [] {
      PickAll(s[..|s| - 1], keep);
    }
  }

  lemma {:induction false} PickNone<T>(s: seq<T>, keep: set<nat>)
    requires forall i: nat | i < |s| :: i !in keep
    ensures Pick(s, keep) == []
  {
    if s != [] {
      PickNone(s[..|s| - 1], keep);
    }
  }

  lemma {:induction false} PickAtMost<T>(s: seq<T>, keep: set<nat>)
    ensures |Pick(s, keep)| <= |s|
  {
    if s != [] {
      PickAtMost(s[..|s| - 1], keep);
    }
  }

  /** Selection is complete exactly when no position is left out. */
  lemma {:induction false} PickWhole<T>(s: seq<T>, keep: set<nat>)
    ensures |Pick(s, keep)| == |s| <==> forall i: nat | i < |s| :: i in keep
  {
    if s != [] {
      var front := s[..|s| - 1];
      PickWhole(front, keep);
      PickAtMost(front, keep);
      if |Pick(s, keep)| == |s| {
        forall i: nat | i < |s| ensures i in keep {
          if i < |front| { assert i in keep; }
        }
      }
    }
  }

  /** A block of kept positions, followed by the selection behind it. */
  lemma {:induction false} PickBlock<T>(s: seq<T>, a: nat, b: nat, keep: set<nat>, behind: set<nat>)
    requires a <= b <= |s|
    requires forall i: nat | i < |s| :: i in keep <==> a <= i < b || i in behind
    requires forall i: nat | i < |s| && i in behind :: i >= b
    ensures Pick(s, keep) == s[a..b] + Pick(s, behind)
  {
    if a == b {
      PickCongruent(s, keep, behind);
    } else {
      var n := |s| - 1;
      var front := s[..n];
      if b <= n {
        PickBlock(front, a, b, keep, behind);
        assert front[a..b] == s[a..b];
      } else {
        PickBlock(front, a, n, keep, behind);
        assert front[a..n] + [s[n]] == s[a..b];
        PickNone(s, behind);
        PickNone(front, behind);
      }
    }
  }

  ghost predicate Distinct<T>(s: seq<T>) {
    forall i, j | 0 <= i < j < |s| :: s[i] != s[j]
  }

  /** A selection repeats nothing its source does not repeat. */
  lemma {:induction false} PickDistinct<T>(s: seq<T>, keep: set<nat>)
    requires Distinct(s)
    ensures Distinct(Pick(s, keep))
  {
    if s != [] {
      var front := s[..|s| - 1];
      PickDistinct(front, keep);
      forall k: nat | k < |Pick(front, keep)| ensures Pick(front, keep)[k] != s[|s| - 1] {
        PickSource(front, keep, k);
      }
    }
  }
}
