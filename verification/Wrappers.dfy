/** Small definitions that several modules share. */
module Wrappers {
  /** Used wherever the kernel halts, is refused or finds nothing. */
  datatype Option<+T> = None | Some(value: T)

  predicate Distinct<T(==)>(s: seq<T>) {
    forall j, k | 0 <= j < k < |s| :: s[j] != s[k]
  }

  // ----- positions on a circle of `n` -----

  function Succ(n: nat, k: nat): (j: nat)
    requires k < n
    ensures j < n && j == (k + 1) % n
  {
    if k + 1 < n then k + 1 else 0
  }

  /** Steps from position `k` round to position `t`. */
  function Around(n: nat, k: nat, t: nat): nat
    requires k < n && t < n
  {
    if k <= t then t - k else n - k + t
  }
}
