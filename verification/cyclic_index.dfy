/**
 * Wrap-around stepping through `n` items, as written in the hero slider and
 * the photo lightbox: `(i + 1) % n` forward and `(i - 1 + n) % n` back, with
 * JavaScript's truncating `%`.
 */
module CyclicIndex {
  import opened JsSemantics

  /** `(i + 1) % n`. */
  function Next(i: int, n: int): int
    requires n > 0
  {
    JsRem(i + 1, n)
  }

  /** `(i - 1 + n) % n`. */
  function Prev(i: int, n: int): int
    requires n > 0
  {
    JsRem(i - 1 + n, n)
  }


  lemma ModOfSmall(a: int, n: int)
    requires 0 <= a < n
    ensures a % n == a && (a + n) % n == a
  {
  }

  /**
   * The truncating `%` on every dividend the two components compute (an
   * index, `findIndex`'s -1, plus or minus one, plus `n`): zero at `-n`, the
   * dividend itself inside (-n, n), and one wrap below `2 * n`.
   */
  lemma JsRemSmall(a: int, n: int)
    requires n > 0 && -n <= a < 2 * n
    ensures JsRem(a, n) == if a == -n then 0 else if a < n then a else a - n
  {
    if a == -n {
      ModOfSmall(0, n);
    } else if a < 0 {
      ModOfSmall(-a, n);
    } else if a < n {
      ModOfSmall(a, n);
    } else {
      ModOfSmall(a - n, n);
    }
  }

  /** From an index in range, a step forward or back stays in range and wraps at the ends. */
  lemma StepsInRange(i: int, n: int)
    requires 0 <= i < n
    ensures Next(i, n) == if i == n - 1 then 0 else i + 1
    ensures Prev(i, n) == if i == 0 then n - 1 else i - 1
    ensures 0 <= Next(i, n) < n && 0 <= Prev(i, n) < n
  {
    if i == n - 1 { ModOfSmall(0, n); } else { ModOfSmall(i + 1, n); }
    if i == 0 { ModOfSmall(n - 1, n); } else { ModOfSmall(i - 1, n); }
  }

  /** A step back undoes a step forward, and a step forward undoes a step back. */
  lemma PrevNextInverse(i: int, n: int)
    requires 0 <= i < n
    ensures Prev(Next(i, n), n) == i
    ensures Next(Prev(i, n), n) == i
  {
    StepsInRange(i, n);
    StepsInRange(Next(i, n), n);
    StepsInRange(Prev(i, n), n);
  }

  /** `k` steps forward. */
  function NextN(i: int, n: int, k: nat): int
    requires n > 0
  {
    if k == 0 then i else Next(NextN(i, n, k - 1), n)
  }

  lemma {:induction false} NextNShifts(i: int, n: int, k: nat)
    requires 0 <= i < n && k <= n
    ensures NextN(i, n, k) == if i + k < n then i + k else i + k - n
  {
    if k > 0 {
      NextNShifts(i, n, k - 1);
      StepsInRange(NextN(i, n, k - 1), n);
    }
  }

  /** `n` steps forward come back to the start. */
  lemma FullCycle(i: int, n: int)
    requires 0 <= i < n
    ensures NextN(i, n, n) == i
  {
    NextNShifts(i, n, n);
  }
}
