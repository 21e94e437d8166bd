/** Definitions that several modules share. */
module Basics {

  datatype Option<T> = None | Some(value: T)

  /** The ranges of `n` cells from `a` on and of `k` cells from `b` on have no cell in common. */
  predicate Apart(a: nat, n: nat, b: nat, k: nat) {
    a + n <= b || b + k <= a
  }

  /** The error number for input and output errors. */
  const EIO: nat := 5

  /** Some number that is not in the set. */
  function Above(s: set<nat>): (n: nat)
    ensures n !in s
  {
    AboveFrom(s, 0)
  }

  function AboveFrom(s: set<nat>, n: nat): (m: nat)
    ensures m !in s
    decreases |s - set i | 0 <= i < n && i in s|
  {
    if n !in s then n
    else
      var before, after := set i | 0 <= i < n && i in s, set i | 0 <= i < n + 1 && i in s;
      assert after == before + {n};
      assert s - after == s - before - {n};
      assert n in s - before;
      AboveFrom(s, n + 1)
  }
}
