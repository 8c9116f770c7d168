/** The restart loop of public/lobby/lobby.go: which runs are followed by another, and how soon. */
module Supervisor {
  import opened Cancel
  import opened GoTime
  import opened Wrappers

  const FLOOR: Duration := 15 * SECOND

  /** One pass of the loop: the clock before the run, the error it ended with, the clock when its length is taken. */
  datatype Attempt = Attempt(begun: Time, err: Option<Reason>, back: Time)

  /** Either an error of a run, or the error of the context that was cancelled. */
  datatype Result = Returned(err: Option<Reason>) | ContextError

  predicate Final(err: Option<Reason>) {
    err == Some(Downed) || err == Some(Restarted) || err == Some(Stopped)
  }

  predicate Timely(err: Option<Reason>) {
    err == None || err == Some(IdleTimeout) || err == Some(AdminTimeout)
  }

  function Uptime(a: Attempt): Duration {
    Round(Sub(a.back, a.begun), MILLISECOND)
  }

  predicate Healthy(a: Attempt) {
    Timely(a.err) && Uptime(a) >= FLOOR
  }

  /** The pause before the next run: what a timely end is short of the floor. */
  function Pause(a: Attempt): (d: Duration)
    ensures d >= 0
    ensures d > 0 <==> Timely(a.err) && !Healthy(a)
  {
    if Timely(a.err) && !Healthy(a) then FLOOR - Uptime(a) else 0
  }

  // -------------------------------------------------------------- which run is last

  /** The runs since the last healthy one. */
  function SinceHealthy(runs: seq<Attempt>): (n: nat)
    ensures n <= |runs|
    ensures forall k :: |runs| - n <= k < |runs| ==> !Healthy(runs[k])
    ensures n < |runs| ==> Healthy(runs[|runs| - n - 1])
  {
    if runs == [] || Healthy(runs[|runs| - 1]) then 0 else SinceHealthy(runs[..|runs| - 1]) + 1
  }

  /** The loop ends with run `k`. */
  predicate Stops(script: seq<Attempt>, maxFails: int, k: nat)
    requires k < |script|
  {
    Final(script[k].err) || SinceHealthy(script[..k + 1]) >= maxFails
  }

  /** The number of runs that are followed by another, if the context lasts that long. */
  function Passed(script: seq<Attempt>, maxFails: int, from: nat): (n: nat)
    requires from <= |script|
    ensures from <= n <= |script|
    ensures forall k :: from <= k < n ==> !Stops(script, maxFails, k)
    ensures n < |script| ==> Stops(script, maxFails, n)
    decreases |script| - from
  {
    if from == |script| || Stops(script, maxFails, from) then from else Passed(script, maxFails, from + 1)
  }

  function ResultOf(a: Attempt, maxFails: int): Result {
    if Timely(a.err) && a.err.None? && maxFails != 0 then Returned(Some(MaxFails)) else Returned(a.err)
  }

  lemma OneRunMore(script: seq<Attempt>, k: nat)
    requires k < |script|
    ensures SinceHealthy(script[..k + 1]) == if Healthy(script[k]) then 0 else SinceHealthy(script[..k]) + 1
  {
    assert script[..k + 1][..k] == script[..k];
  }

  /** The loop's body after a run: how many failures there are now, and whether to return or how long to sleep. */
  method Judge(a: Attempt, fails: nat, maxFails: int) returns (now: nat, ends: Option<Result>, pause: Duration)
    ensures now == if Healthy(a) then 0 else fails + 1
    ensures ends == if Final(a.err) || now >= maxFails then Some(ResultOf(a, maxFails)) else None
    ensures ends.None? ==> pause == Pause(a)
  {
    now, ends, pause := fails + 1, None, 0;
    if Final(a.err) { return now, Some(Returned(a.err)), 0; }
    if !Timely(a.err) {
      if now >= maxFails { ends := Some(Returned(a.err)); }
      return;
    }
    var uptime := Uptime(a);
    if uptime >= FLOOR { now := 0; }
    if now >= maxFails {
      ends := Some(if a.err.Some? || maxFails == 0 then Returned(a.err) else Returned(Some(MaxFails)));
      return;
    }
    if now != 0 { pause := FLOOR - uptime; }
  }

  /** Whether the loop ends with run `k`, from the failures before it. */
  lemma StopsIs(script: seq<Attempt>, maxFails: int, k: nat, fails: nat)
    requires k < |script| && fails == SinceHealthy(script[..k])
    ensures var now := if Healthy(script[k]) then 0 else fails + 1;
            && now == SinceHealthy(script[..k + 1])
            && (Stops(script, maxFails, k) <==> Final(script[k].err) || now >= maxFails)
            && Passed(script, maxFails, k) == (if Stops(script, maxFails, k) then k else Passed(script, maxFails, k + 1))
  {
    OneRunMore(script, k);
  }

  /** The loop has passed `runs` runs, of which the last `fails` were not healthy. */
  ghost predicate Underway(script: seq<Attempt>, maxFails: int, runs: nat, fails: nat, pauses: seq<Duration>) {
    && runs <= |script| && |pauses| == runs
    && fails == SinceHealthy(script[..runs])
    && Passed(script, maxFails, 0) == Passed(script, maxFails, runs)
    && forall k :: 0 <= k < runs ==> pauses[k] == Pause(script[k])
  }

  lemma OneRunPassed(script: seq<Attempt>, maxFails: int, runs: nat, fails: nat, pauses: seq<Duration>)
    requires runs < |script| && Underway(script, maxFails, runs, fails, pauses)
    ensures var now := if Healthy(script[runs]) then 0 else fails + 1;
            if Final(script[runs].err) || now >= maxFails then Passed(script, maxFails, 0) == runs
            else Underway(script, maxFails, runs + 1, now, pauses + [Pause(script[runs])])
  {
    StopsIs(script, maxFails, runs, fails);
  }

  /**
   `Run` on what the environment lets happen: the context is cancelled when the script
   is at its end. `pauses` are the sleeps, one for each run that is followed by another.
   */
  method Run(script: seq<Attempt>, maxFails: int) returns (result: Result, runs: nat, pauses: seq<Duration>)
    ensures var n := Passed(script, maxFails, 0);
            && runs == (if n < |script| then n + 1 else n)
            && result == (if n < |script| then ResultOf(script[n], maxFails) else ContextError)
            && |pauses| == n
            && forall k :: 0 <= k < n ==> pauses[k] == Pause(script[k])
  {
    var fails := 0;
    runs, pauses := 0, [];
    while runs < |script|
      invariant Underway(script, maxFails, runs, fails, pauses)
    {
      OneRunPassed(script, maxFails, runs, fails, pauses);
      var now, ends, pause := Judge(script[runs], fails, maxFails);
      fails, runs := now, runs + 1;
      if ends.Some? { return ends.value, runs, pauses; }
      pauses := pauses + [pause];
    }
    result := ContextError;
  }

  // --------------------------------------------------------------------- bounds

  /** At the loop's head the failures counted are below the limit; with a limit of 0 there is one run at most. */
  lemma FailsBelowLimit(script: seq<Attempt>, maxFails: int, k: nat)
    requires 0 < k <= Passed(script, maxFails, 0)
    ensures SinceHealthy(script[..k]) < maxFails
    ensures maxFails > 0
  {
    assert !Stops(script, maxFails, k - 1);
  }

  /** Among any `maxFails` consecutive runs that were followed by another, one was healthy. */
  lemma HealthyInEveryWindow(script: seq<Attempt>, maxFails: nat, i: nat) returns (k: nat)
    requires maxFails > 0 && i + maxFails <= Passed(script, maxFails, 0)
    ensures i <= k < i + maxFails && Healthy(script[k])
  {
    var end := i + maxFails;
    FailsBelowLimit(script, maxFails, end);
    k := end - SinceHealthy(script[..end]) - 1;
    assert script[..end][k] == script[k];
  }

  /** The clock goes forward, and the loop waits out its pauses. */
  ghost predicate Paced(script: seq<Attempt>) {
    && (forall k :: 0 <= k < |script| ==> script[k].begun <= script[k].back && IsDuration(script[k].back - script[k].begun))
    && (forall k :: 0 < k < |script| ==> script[k - 1].back + Pause(script[k - 1]) <= script[k].begun)
  }

  /** A run that is not cut off by an error of its own takes the floor's length together with its pause. */
  lemma TimelyTakesFloor(a: Attempt)
    requires a.begun <= a.back && IsDuration(a.back - a.begun) && Timely(a.err)
    ensures a.back + Pause(a) - a.begun >= FLOOR - MILLISECOND / 2
  {
    RoundNearest(Sub(a.back, a.begun), MILLISECOND);
  }

  lemma {:induction false} ClockForward(script: seq<Attempt>, i: nat, j: nat)
    requires Paced(script) && i <= j < |script|
    ensures script[i].begun <= script[j].begun
    decreases j - i
  {
    if i == j {
    } else {
      ClockForward(script, i, j - 1);
    }
  }

  /** So they span fifteen seconds, up to half a millisecond of rounding. */
  lemma WindowSpan(script: seq<Attempt>, maxFails: nat, i: nat)
    requires Paced(script) && maxFails > 0 && i + maxFails <= Passed(script, maxFails, 0)
    ensures var last := script[i + maxFails - 1];
            last.back + Pause(last) - script[i].begun >= FLOOR - MILLISECOND / 2
  {
    var k := HealthyInEveryWindow(script, maxFails, i);
    var j := i + maxFails - 1;
    ClockForward(script, i, k);
    TimelyTakesFloor(script[k]);
    if k < j {
      ClockForward(script, k + 1, j);
      assert script[(k + 1) - 1].back + Pause(script[(k + 1) - 1]) <= script[k + 1].begun;
    }
  }

  lemma OneWindowMore(n: nat, m: nat)
    requires n > 0 && m > 0
    ensures n * m == (n - 1) * m + m
    ensures (n - 1) * m == 0 <==> n == 1
    ensures (n - 1) * m >= 0
  {
  }

  /** Over a whole life: `n` windows of runs take at least `n` times that long. */
  lemma {:induction false} RestartRate(script: seq<Attempt>, maxFails: nat, n: nat)
    requires Paced(script) && maxFails > 0 && n > 0 && n * maxFails <= Passed(script, maxFails, 0)
    ensures 0 <= n * maxFails - 1 < |script|
    ensures var last := script[n * maxFails - 1];
            last.back + Pause(last) - script[0].begun >= n * (FLOOR - MILLISECOND / 2)
  {
    var i := (n - 1) * maxFails;
    OneWindowMore(n, maxFails);
    WindowSpan(script, maxFails, i);
    if n == 1 {
    } else {
      RestartRate(script, maxFails, n - 1);
      assert script[i - 1].back + Pause(script[i - 1]) <= script[i].begun;
    }
  }

  // ------------------------------------------------------------------------ errors

  /** A run that was to end ends the loop; an idle one, or one without an error, may be followed at leisure. */
  lemma ErrorsMean(err: Option<Reason>)
    ensures Final(err) <==> err in {Some(Downed), Some(Stopped), Some(Restarted)}
    ensures Timely(err) <==> err in {None, Some(IdleTimeout), Some(AdminTimeout)}
  {
  }

  /** The loop's error is the last run's; a run without one counts as a failure too many, unless none was allowed. */
  lemma ResultIs(a: Attempt, maxFails: int)
    ensures a.err.Some? ==> ResultOf(a, maxFails) == Returned(a.err)
    ensures a.err.None? && maxFails != 0 ==> ResultOf(a, maxFails) == Returned(Some(MaxFails))
    ensures a.err.None? && maxFails == 0 ==> ResultOf(a, maxFails) == Returned(None)
  {
  }

  /** Healthy is a timely run of fifteen seconds, up to half a millisecond. */
  lemma HealthyIs(a: Attempt)
    requires a.begun <= a.back && IsDuration(a.back - a.begun)
    ensures Healthy(a) ==> a.err in {None, Some(IdleTimeout), Some(AdminTimeout)} && 2 * (a.back - a.begun) >= 29_999_000_000
    ensures a.err in {None, Some(IdleTimeout), Some(AdminTimeout)} && a.back - a.begun >= 15_000_000_000 ==> Healthy(a)
  {
    RoundNearest(Sub(a.back, a.begun), MILLISECOND);
    if a.back - a.begun >= 15_000_000_000 { FloorKept(a.back - a.begun); }
  }

  lemma FloorKept(d: Duration)
    requires IsDuration(d) && d >= 15_000_000_000
    ensures Round(d, MILLISECOND) >= 15_000_000_000
  {
  }
}
