/**
 * The running best kept by both of the backend's move loops.
 *
 * `simple_solver` and `search_best_move_from_table` both walk the squares
 * 0..63 in increasing order, start from the "unknown" score -100, and
 * replace the best only on a strictly greater value.  `Scan` is that running
 * best, defined once over a function from square to optional value.
 */
module Scanning {
  import opened Wrappers

  /** The score that stands for "not decided" and starts every running best. */
  const UnknownScore: int := -100

  /** The best value seen so far and the square it was seen at, if any. */
  datatype Running = Running(best: int, at: Option<nat>)

  /** One loop step: a known value strictly above the best replaces it. */
  function Step(r: Running, i: nat, v: Option<int>): Running
  {
    match v
    case None => r
    case Some(x) => if x > r.best then Running(x, Some(i)) else r
  }

  /** The running best after the squares 0..n-1, starting from "unknown". */
  function Scan(f: nat -> Option<int>, n: nat): Running
  {
    if n == 0 then Running(UnknownScore, None) else Step(Scan(f, n - 1), n - 1, f(n - 1))
  }

  /**
   * When every known value lies above the "unknown" score, the scan ends on
   * no square exactly when no square had a value, and otherwise on the first
   * square holding the largest value.
   */
  lemma {:induction false} ScanFindsFirstMaximum(f: nat -> Option<int>, n: nat)
    requires forall i: nat :: i < n && f(i).Some? ==> f(i).value > UnknownScore
    ensures Scan(f, n).at.None? <==> (forall i: nat :: i < n ==> f(i).None?)
    ensures Scan(f, n).at.None? ==> Scan(f, n).best == UnknownScore
    ensures Scan(f, n).at.Some? ==>
      var k := Scan(f, n).at.value;
      && k < n
      && f(k) == Some(Scan(f, n).best)
      && (forall i: nat :: i < n && f(i).Some? ==> f(i).value <= Scan(f, n).best)
      && (forall i: nat :: i < k && f(i).Some? ==> f(i).value < Scan(f, n).best)
  {
    if n > 0 {
      ScanFindsFirstMaximum(f, n - 1);
    }
  }
}
