/** internal/daemon/daemon.go: how long Run waits before it reconnects. */
module Reconnect {
  import opened DaemonSteps
  import opened Powers

  const LONGEST := 60

  /** How many results up to and including the i-th are errors in a row. */
  function Streak(results: seq<Exit>, i: nat): nat
    requires i < |results|
  {
    if results[i] == Nil then 0 else 1 + if i == 0 then 0 else Streak(results, i - 1)
  }

  /** The seconds waited after the i-th result. */
  function Wait(results: seq<Exit>, i: nat): nat
    requires i < |results|
  {
    if results[i] == Nil then 0 else Min(Pow2(Streak(results, i) - 1), LONGEST)
  }

  lemma {:induction false} CapDoubles(n: nat)
    ensures Min(2 * Min(Pow2(n), LONGEST), LONGEST) == Min(Pow2(n + 1), LONGEST)
    ensures Pow2(n) >= 1
  {
    if n == 0 {
    } else {
      CapDoubles(n - 1);
    }
  }

  /** An error after anything but an error is followed by one second, and any other by twice
      the seconds before, but no more than 60. */
  lemma WaitRecurs(results: seq<Exit>, i: nat)
    requires i < |results|
    ensures results[i] == Nil ==> Wait(results, i) == 0
    ensures results[i] == Err && (i == 0 || results[i - 1] == Nil) ==> Wait(results, i) == 1
    ensures results[i] == Err && i > 0 && results[i - 1] == Err ==> Wait(results, i) == Min(2 * Wait(results, i - 1), 60)
  {
    if results[i] == Err && i > 0 && results[i - 1] == Err {
      CapDoubles(Streak(results, i - 1) - 1);
    }
  }

  /** Run, given what its connections return one after the other; it stops when the
      daemon is shut down. The n-th error in a row is followed by min(2^(n-1), 60)
      seconds, and only a nil result starts over. */
  method Run(results: seq<Exit>) returns (waits: seq<nat>)
    ensures |waits| == |results|
    ensures forall i | 0 <= i < |waits| :: waits[i] == Wait(results, i)
    ensures forall i | 0 <= i < |waits| && results[i] == Err :: 1 <= waits[i] <= 60
    ensures forall i | 0 <= i < |waits| && results[i] == Err ::
              waits[i] == if i > 0 && results[i - 1] == Err then Min(2 * waits[i - 1], 60) else 1
    ensures forall i | 0 <= i < |waits| && results[i] == Nil :: waits[i] == 0
  {
    forall i | 0 <= i < |results|
      ensures results[i] == Err ==>
                Wait(results, i) == if i > 0 && results[i - 1] == Err then Min(2 * Wait(results, i - 1), 60) else 1
    {
      WaitRecurs(results, i);
    }
    waits := [];
    var backoff: nat := 1;
    for i := 0 to |results|
      invariant |waits| == i
      invariant forall j | 0 <= j < i :: waits[j] == Wait(results, j)
      invariant forall j | 0 <= j < i && results[j] == Err :: 1 <= waits[j] <= LONGEST
      invariant backoff == Min(Pow2(if i == 0 then 0 else Streak(results, i - 1)), LONGEST)
    {
      CapDoubles(if i == 0 then 0 else Streak(results, i - 1));
      if results[i] == Nil {
        backoff := 1;
        waits := waits + [0];
        continue;
      }
      waits := waits + [backoff];
      backoff := Min(backoff * 2, LONGEST);
    }
  }

  lemma {:induction false} StreakOfErrors(results: seq<Exit>, i: nat)
    requires i < |results| && forall j | 0 <= j <= i :: results[j] == Err
    ensures Streak(results, i) == i + 1
  {
    if i == 0 {
    } else {
      StreakOfErrors(results, i - 1);
    }
  }

  /** In every run of the daemon no connection returns nil, so the wait never starts
      over: it counts all connections since the start, however long they lasted, and
      from the seventh on it is a full minute. */
  lemma {:induction false} BackoffNeverResets(events: seq<Event>, i: nat)
    requires IsRun(Start(), events) && i < |After(Start(), events).results|
    ensures var results := After(Start(), events).results;
            Wait(results, i) == Min(Pow2(i), 60) && (i >= 6 ==> Wait(results, i) == 60)
  {
    EveryResultIsAnError(events);
    StreakOfErrors(After(Start(), events).results, i);
    if i >= 6 {
      Pow2Grows(6, i);
      assert Pow2(6) == 64 by { assert Pow2(3) == 8; }
    }
  }
}
