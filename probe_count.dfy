/**
 The bound of the probe loop shared by both versions: it runs while `count` is
 -1 or the attempts made are fewer than `count`, and after each attempt it
 sleeps only when that same condition still holds.
 */
module ProbeCount {

  /** The loop condition, checked before an attempt and again before the sleep after it. */
  predicate Continues(count: int, i: int) {
    count == -1 || i < count
  }

  /** The number of attempts a bounded run makes: `count`, or none when `count` is not positive. */
  function Bound(count: int): nat {
    if count > 0 then count else 0
  }

  /** Sleeps started once `i` attempts are complete: one after each attempt the loop will follow with another. */
  function SleepsAfter(count: int, i: nat): nat {
    if i == 0 then 0 else if Continues(count, i) then i else i - 1
  }

  /** Attempts made from attempt `i0` on when the run is stopped from outside after
      `available` more attempts at the latest. */
  function Attempts(count: int, i0: nat, available: nat): (n: nat)
    ensures n <= available
    ensures count != -1 && i0 <= Bound(count) && available >= Bound(count) - i0 ==> i0 + n == Bound(count)
    ensures count == -1 ==> n == available
  {
    if count == -1 then available
    else if count - i0 <= 0 then 0
    else if available < count - i0 then available
    else count - i0
  }

  /** A loop that made `n` attempts from `i0` and stopped because the inputs ran out or
      the count was reached made exactly `Attempts(count, i0, available)` of them. */
  lemma AttemptsOfStoppedLoop(count: int, i0: nat, n: nat, available: nat)
    requires n <= available
    requires count != -1 ==> i0 + n <= Bound(count)
    requires n == available || !Continues(count, i0 + n)
    ensures n == Attempts(count, i0, available)
  {
  }

  /** The loop never ends by itself when `count == -1`, and otherwise ends exactly after `Bound(count)` attempts. */
  lemma LoopStopsAtBound(count: int, i: nat)
    requires count != -1 ==> i <= Bound(count)
    ensures !Continues(count, i) <==> count != -1 && i == Bound(count)
  {
  }

  /** A completed bounded run of `count >= 1` attempts has slept `count - 1` times. */
  lemma SleepsBetweenAttempts(count: int)
    requires count >= 1
    ensures SleepsAfter(count, Bound(count)) == count - 1
  {
  }
}
