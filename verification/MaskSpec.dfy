/** Bitmasks as sets of bit indices: what the word-level code in Mask computes. */
module MaskSpec {

  /** Least index in from..n that is absent from s, or -1. */
  ghost function LeastClear(s: set<nat>, from: nat, n: nat): (r: int)
    ensures r == -1 || from <= r < n
    ensures r == -1 ==> forall i: nat :: from <= i < n ==> i in s
    ensures r != -1 ==> r !in s && forall i: nat :: from <= i < r ==> i in s
    decreases n - from
  {
    if from >= n then -1 else if from !in s then from else LeastClear(s, from + 1, n)
  }

  /** Least index in from..n that is in s, or -1. */
  ghost function LeastSet(s: set<nat>, from: nat, n: nat): (r: int)
    ensures r == -1 || from <= r < n
    ensures r == -1 ==> forall i: nat :: from <= i < n ==> i !in s
    ensures r != -1 ==> r in s && forall i: nat :: from <= i < r ==> i !in s
    decreases n - from
  {
    if from >= n then -1 else if from in s then from else LeastSet(s, from + 1, n)
  }
}
