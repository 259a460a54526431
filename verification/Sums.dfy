/** Sums of a weight over a sequence, and how they react to one update. */
module Sums {

  ghost function SumBy<T>(f: T -> int, s: seq<T>): int {
    if s == [] then 0 else SumBy(f, s[..|s| - 1]) + f(s[|s| - 1])
  }

  lemma {:induction false} SumByUpdate<T>(f: T -> int, s: seq<T>, i: nat, v: T)
    requires i < |s|
    ensures SumBy(f, s[i := v]) == SumBy(f, s) - f(s[i]) + f(v)
  {
    var n := |s| - 1;
    if i == n {
      assert s[i := v][..n] == s[..n];
    } else {
      SumByUpdate(f, s[..n], i, v);
      assert s[i := v][..n] == s[..n][i := v];
    }
  }

  lemma {:induction false} SumByMonotone<T>(f: T -> int, g: T -> int, s: seq<T>)
    requires forall i :: 0 <= i < |s| ==> f(s[i]) <= g(s[i])
    ensures SumBy(f, s) <= SumBy(g, s)
  {
    if s != [] {
      SumByMonotone(f, g, s[..|s| - 1]);
    }
  }

  /** Sums of two sequences of the same length, compared position by position. */
  lemma {:induction false} SumByPointwise<T, U>(f: T -> int, s: seq<T>, g: U -> int, t: seq<U>)
    requires |s| == |t|
    requires forall i :: 0 <= i < |s| ==> f(s[i]) <= g(t[i])
    ensures SumBy(f, s) <= SumBy(g, t)
  {
    if s != [] {
      SumByPointwise(f, s[..|s| - 1], g, t[..|t| - 1]);
    }
  }

  lemma {:induction false} SumByZero<T>(f: T -> int, s: seq<T>)
    requires forall i :: 0 <= i < |s| ==> f(s[i]) == 0
    ensures SumBy(f, s) == 0
  {
    if s != [] {
      SumByZero(f, s[..|s| - 1]);
    }
  }

  /** A sum of non-negative weights is at least each of them. */
  lemma {:induction false} SumByAtLeast<T>(f: T -> int, s: seq<T>, i: nat)
    requires i < |s|
    requires forall k :: 0 <= k < |s| ==> 0 <= f(s[k])
    ensures f(s[i]) <= SumBy(f, s)
    ensures 0 <= SumBy(f, s)
  {
    var n := |s| - 1;
    SumByNonNegative(f, s[..n]);
    if i < n {
      SumByAtLeast(f, s[..n], i);
    }
  }

  lemma {:induction false} SumByNonNegative<T>(f: T -> int, s: seq<T>)
    requires forall k :: 0 <= k < |s| ==> 0 <= f(s[k])
    ensures 0 <= SumBy(f, s)
  {
    if s != [] {
      SumByNonNegative(f, s[..|s| - 1]);
    }
  }

  /** A positive sum has a positive summand. */
  lemma {:induction false} SumByPositive<T>(f: T -> int, s: seq<T>) returns (i: nat)
    requires SumBy(f, s) > 0
    ensures i < |s| && f(s[i]) > 0
  {
    var n := |s| - 1;
    if f(s[n]) > 0 {
      i := n;
    } else {
      i := SumByPositive(f, s[..n]);
    }
  }

  /** Two distinct positions both count towards a sum of non-negative weights. */
  lemma {:induction false} SumByTwo<T>(f: T -> int, s: seq<T>, i: nat, j: nat)
    requires i < j < |s|
    requires forall k :: 0 <= k < |s| ==> 0 <= f(s[k])
    ensures f(s[i]) + f(s[j]) <= SumBy(f, s)
  {
    var n := |s| - 1;
    if j == n {
      SumByAtLeast(f, s[..n], i);
    } else {
      SumByTwo(f, s[..n], i, j);
    }
  }

  /** Two sums over the same sequence add up summand by summand. */
  lemma {:induction false} SumByAdd<T>(f: T -> int, g: T -> int, h: T -> int, s: seq<T>)
    requires forall i :: 0 <= i < |s| ==> h(s[i]) == f(s[i]) + g(s[i])
    ensures SumBy(h, s) == SumBy(f, s) + SumBy(g, s)
  {
    if s != [] {
      SumByAdd(f, g, h, s[..|s| - 1]);
    }
  }
}
