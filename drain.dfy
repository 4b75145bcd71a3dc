/** The drain loop of `monitorMaster` (service_windows.go:342-362): once
    the supervisor is gone, the worker checks the connection count, and
    while it is positive sleeps one tick and counts the tick, giving up once
    `AppWaitLimit > 0` ticks have been slept. The count is seen through
    `countAt(k)`, the value of the shared counter at the check made after
    `k` ticks, because other tasks change it while the loop sleeps. */
module Drain {

  /** The loop ends after exactly `sleeps` ticks: the count was positive at
      every earlier check, and either it was drained (at most 0) at the
      check after `sleeps` ticks, before any limit was reached, or the limit
      was positive and `sleeps` reached it. */
  predicate DrainsAfter(countAt: nat -> int, waitLimit: int, sleeps: nat)
  {
    (forall j: nat :: j < sleeps ==> countAt(j) > 0) &&
    ((countAt(sleeps) <= 0 && (waitLimit <= 0 || sleeps < waitLimit)) ||
     (waitLimit > 0 && sleeps == waitLimit))
  }

  /** The loop ends at all: a positive limit bounds it, and without one the
      count must drain at some check. With neither, the source waits
      forever. */
  ghost predicate Ends(countAt: nat -> int, waitLimit: int)
  {
    waitLimit > 0 || exists k: nat :: countAt(k) <= 0
  }

  /** The stopping rule determines the number of ticks. */
  lemma DrainsAfterUnique(countAt: nat -> int, waitLimit: int, s1: nat, s2: nat)
    requires DrainsAfter(countAt, waitLimit, s1) && DrainsAfter(countAt, waitLimit, s2)
    ensures s1 == s2
  {
  }

  /** What the stopping rule implies: no tick when the first check finds
      the count drained; never more ticks than a positive limit; without a
      limit, the loop ends exactly at the first drained check; and it gives
      up with connections still open only by reaching a positive limit. */
  lemma DrainConsequences(countAt: nat -> int, waitLimit: int, sleeps: nat)
    requires DrainsAfter(countAt, waitLimit, sleeps)
    ensures countAt(0) <= 0 ==> sleeps == 0
    ensures waitLimit > 0 ==> sleeps <= waitLimit
    ensures waitLimit <= 0 ==> countAt(sleeps) <= 0
    ensures countAt(sleeps) > 0 ==> waitLimit > 0 && sleeps == waitLimit
  {
  }

  /** The loop itself: check, sleep one tick, count it, give up at a
      positive limit. Returns the number of ticks slept. */
  method DrainLoop(countAt: nat -> int, waitLimit: int) returns (sleeps: nat)
    requires Ends(countAt, waitLimit)
    ensures DrainsAfter(countAt, waitLimit, sleeps)
  {
    ghost var bound: nat;
    if waitLimit > 0 {
      bound := waitLimit;
    } else {
      var k: nat :| countAt(k) <= 0;
      bound := k;
    }
    var i: nat := 0;
    while true
      invariant forall j: nat :: j < i ==> countAt(j) > 0
      invariant i <= bound
      invariant waitLimit > 0 ==> i < waitLimit
      decreases bound - i
    {
      if countAt(i) <= 0 {
        break;
      }
      i := i + 1;
      if waitLimit > 0 && i >= waitLimit {
        break;
      }
    }
    return i;
  }

  /** The timing cases of the drain: a count fixed at 0 ends with no tick; a
      count fixed positive with limit 2 gives up after 2 ticks; without a
      limit, a count that drops to 0 after 3 ticks ends after exactly 3; with
      limit 10, a count of 1 that drops to 0 after 1 tick ends after 1. */
  lemma DrainScenarios(s: nat, level: int)
    requires level > 0
    ensures DrainsAfter(_ => 0, 10, s) <==> s == 0
    ensures DrainsAfter(_ => level, 2, s) <==> s == 2
    ensures DrainsAfter(k => if k < 3 then level else 0, 0, s) <==> s == 3
    ensures DrainsAfter(k => if k < 1 then 1 else 0, 10, s) <==> s == 1
  {
    var zero: nat -> int := _ => 0;
    assert DrainsAfter(zero, 10, 0);
    if DrainsAfter(zero, 10, s) { DrainsAfterUnique(zero, 10, s, 0); }
    var busy: nat -> int := _ => level;
    assert DrainsAfter(busy, 2, 2);
    if DrainsAfter(busy, 2, s) { DrainsAfterUnique(busy, 2, s, 2); }
    var three: nat -> int := k => if k < 3 then level else 0;
    assert DrainsAfter(three, 0, 3);
    if DrainsAfter(three, 0, s) { DrainsAfterUnique(three, 0, s, 3); }
    var one: nat -> int := k => if k < 1 then 1 else 0;
    assert DrainsAfter(one, 10, 1);
    if DrainsAfter(one, 10, s) { DrainsAfterUnique(one, 10, s, 1); }
  }
}
