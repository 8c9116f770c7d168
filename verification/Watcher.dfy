/** The timeout and stop decisions of internal/lobby/watch.go, one tick at a time. */
module Watcher {
  import opened Cancel
  import opened Decimal
  import opened GoTime
  import opened Spec
  import opened Wrappers

  datatype Limits = Limits(timeout: Duration, adminTimeout: Duration, minUptime: Duration)

  /**
   What one tick reads. `now` is the instant the ticker sent, `clock` the later
   reading inside time.Since; the rest is the lobby's state at that moment.
   */
  datatype Seen = Seen(now: Time, clock: Time, stamp: Time, id: string, humans: nat, spec: Spec)

  const GRAIN: Duration := 100 * MICROSECOND
  const FLOOR: Duration := 200 * MILLISECOND

  // -------------------------------------------------------------------- period

  /** With both timeouts off there is nothing to watch. */
  predicate Idle(o: Limits) {
    o.timeout <= 0 && o.adminTimeout <= 0
  }

  /** A lobby is watched if either timeout is on. */
  lemma WatchedIff(o: Limits)
    ensures !Idle(o) <==> o.timeout > 0 || o.adminTimeout > 0
  {
  }

  function Period(o: Limits): (every: Duration)
    ensures FLOOR <= every <= SECOND
    ensures o.timeout > 0 ==> every <= o.timeout || every == FLOOR
    ensures o.adminTimeout > 0 ==> every <= o.adminTimeout || every == FLOOR
    ensures every in {FLOOR, SECOND} || (every in {o.timeout, o.adminTimeout} && every > 0)
  {
    var a := if o.timeout > 0 && o.timeout < SECOND then o.timeout else SECOND;
    var b := if o.adminTimeout > 0 && o.adminTimeout < a then o.adminTimeout else a;
    if b < FLOOR then FLOOR else b
  }

  /** It is the longest that the second and both timeouts allow, if that is not below the floor. */
  lemma PeriodIsLongest(o: Limits, p: Duration)
    requires p <= 1_000 * MILLISECOND
    requires (o.timeout > 0 ==> p <= o.timeout) && (o.adminTimeout > 0 ==> p <= o.adminTimeout)
    ensures p <= Period(o)
  {
  }

  // --------------------------------------------------------------------- ticks

  /** A tick that sees the lobby wanted up, or its peer full, counts as activity. */
  function LastUp(lastup: Time, x: Seen): Time {
    if x.spec.up != ZERO_TIME || x.spec.peerFull != ZERO_TIME then x.now else lastup
  }

  function LastIdle(lastup: Time, x: Seen): (t: Time)
    ensures t >= x.stamp && t >= LastUp(lastup, x) && t in {x.stamp, LastUp(lastup, x)}
  {
    if x.stamp < LastUp(lastup, x) then LastUp(lastup, x) else x.stamp
  }

  function Since(lastup: Time, x: Seen): Duration {
    Round(Sub(x.clock, LastIdle(lastup, x)), GRAIN)
  }

  /** What the tick raises, if anything. */
  function Raises(o: Limits, start: Time, lastup: Time, x: Seen): Verdict {
    if x.spec.ForceDownAfter(start) then Verdict(true, Some(Downed))
    else if x.id != "" then Verdict(false, None)
    else
      var since := Since(lastup, x);
      var v := x.spec.ReasonAfter(start, since, o.minUptime);
      if x.humans != 0 then
        var kept := if v.force then v else Verdict(false, None);
        if kept.reason.None? && o.adminTimeout > 0 && o.adminTimeout < since then Verdict(kept.force, Some(AdminTimeout))
        else kept
      else if v.reason.None? && o.timeout > 0 && o.timeout < since then Verdict(v.force, Some(Timeout))
      else v
  }

  // ----------------------------------------------------------------- one tick

  /**
   Who may be sent away by a verdict that meets `humans` in the match `id`: in a match
   it is a forced down, with humans and no match a forced reason or the admin's
   timeout, and everything else needs an empty lobby.
   */
  predicate Allowed(v: Verdict, humans: nat, id: string) {
    v.reason.Some? ==>
      && (id != "" ==> v == Verdict(true, Some(Downed)))
      && (humans != 0 ==> v.force || v.reason == Some(AdminTimeout))
      && (!v.force && v.reason != Some(AdminTimeout) ==> humans == 0 && id == "")
      && (v.reason.value in {IdleTimeout, Timeout} ==> humans == 0 && id == "")
  }

  /** A tick raises only what is allowed, and the admin's timeout only against an admin. */
  lemma RaisesOnlyWhenAllowed(o: Limits, start: Time, lastup: Time, x: Seen)
    ensures var v := Raises(o, start, lastup, x);
            && Allowed(v, x.humans, x.id)
            && (v.reason.Some? && x.id != "" ==> x.spec.ForceDownAfter(start))
            && (v.reason == Some(AdminTimeout) ==> x.humans != 0 && x.id == "" && !v.force)
            && (v.reason == Some(Timeout) ==> !v.force)
            && (v.reason.Some? ==> v.reason.value in {Downed, Stopped, Restarted, AdminTimeout, Timeout})
  {
  }

  /** Nothing in the spec asks for the lobby's end, or for its being kept up. */
  predicate Quiet(spec: Spec, start: Time) {
    && spec.up == ZERO_TIME && spec.peerFull == ZERO_TIME
    && !spec.ForceDownAfter(start) && !spec.ForceStopAfter(start) && !spec.ForceRestartAfter(start)
    && !spec.DownAfter(start) && !spec.RestartAfter(start)
    && spec.stop <= start && spec.flagStop <= start && spec.peerUp == ZERO_TIME
  }

  /**
   The timeout fires only when, up to half a grain, more than its length has passed
   since the last activity; and in an empty, quiet lobby it does fire at every tick
   that comes more than half a grain later than that.
   */
  lemma TimeoutBounds(o: Limits, start: Time, lastup: Time, x: Seen)
    requires IsDuration(o.timeout)
    ensures Raises(o, start, lastup, x).reason == Some(Timeout) ==>
              o.timeout > 0 && x.clock - LastIdle(lastup, x) > o.timeout - GRAIN / 2
    ensures Quiet(x.spec, start) && x.humans == 0 && x.id == "" && 0 < o.timeout <= MAX_INT64 - GRAIN
            && x.clock - LastIdle(lastup, x) > o.timeout + GRAIN / 2
            ==> Raises(o, start, lastup, x) == Verdict(false, Some(Timeout))
  {
    var d := Sub(x.clock, LastIdle(lastup, x));
    RoundNearest(d, GRAIN);
    assert o.timeout <= MAX_INT64 - GRAIN && x.clock - LastIdle(lastup, x) > o.timeout + GRAIN / 2 ==> d > o.timeout + GRAIN / 2;
    assert d > o.timeout - GRAIN / 2 && o.timeout > 0 ==> x.clock - LastIdle(lastup, x) > o.timeout - GRAIN / 2;
  }

  /** Nothing in the spec forces the lobby's end. */
  predicate Unforced(spec: Spec, start: Time) {
    !spec.ForceDownAfter(start) && !spec.ForceStopAfter(start) && !spec.ForceRestartAfter(start)
  }

  /** The same two sides for the admin's timeout; the other reasons of the spec do not count against humans. */
  lemma AdminTimeoutBounds(o: Limits, start: Time, lastup: Time, x: Seen)
    requires IsDuration(o.adminTimeout)
    ensures Raises(o, start, lastup, x).reason == Some(AdminTimeout) ==>
              x.humans != 0 && x.id == ""
              && o.adminTimeout > 0 && x.clock - LastIdle(lastup, x) > o.adminTimeout - GRAIN / 2
    ensures Unforced(x.spec, start) && x.humans != 0 && x.id == "" && 0 < o.adminTimeout <= MAX_INT64 - GRAIN
            && x.clock - LastIdle(lastup, x) > o.adminTimeout + GRAIN / 2
            ==> Raises(o, start, lastup, x) == Verdict(false, Some(AdminTimeout))
  {
    var d := Sub(x.clock, LastIdle(lastup, x));
    RoundNearest(d, GRAIN);
    assert o.adminTimeout <= MAX_INT64 - GRAIN && x.clock - LastIdle(lastup, x) > o.adminTimeout + GRAIN / 2
           ==> d > o.adminTimeout + GRAIN / 2;
    assert d > o.adminTimeout - GRAIN / 2 && o.adminTimeout > 0
           ==> x.clock - LastIdle(lastup, x) > o.adminTimeout - GRAIN / 2;
  }

  // -------------------------------------------------------------------- class

  /** Either a tick came, or `done` was found closed. */
  datatype Wake = TickCame(seen: Seen) | DoneClosed

  /** The ticks handled before the loop returns, and what it returns with. */
  function Outcome(o: Limits, start: Time, lastup: Time, wakes: seq<Wake>): Verdict
    decreases |wakes|
  {
    if wakes == [] || wakes[0].DoneClosed? then Verdict(false, None)
    else
      var v := Raises(o, start, lastup, wakes[0].seen);
      if v.reason.Some? then v else Outcome(o, start, LastUp(lastup, wakes[0].seen), wakes[1..])
  }

  function LastUpAfter(lastup: Time, wakes: seq<Wake>): Time {
    if wakes == [] then lastup
    else
      var before := LastUpAfter(lastup, wakes[..|wakes| - 1]);
      if wakes[|wakes| - 1].TickCame? then LastUp(before, wakes[|wakes| - 1].seen) else before
  }

  /** Wake `i` is a tick that raises nothing. */
  ghost predicate Passes(o: Limits, start: Time, lastup: Time, wakes: seq<Wake>, i: nat)
    requires i < |wakes|
  {
    wakes[i].TickCame? && Raises(o, start, LastUpAfter(lastup, wakes[..i]), wakes[i].seen).reason.None?
  }

  lemma {:induction false} LastUpFront(lastup: Time, w: Wake, wakes: seq<Wake>)
    requires w.TickCame?
    ensures LastUpAfter(lastup, [w] + wakes) == LastUpAfter(LastUp(lastup, w.seen), wakes)
  {
    if wakes == [] {
      assert [w] + wakes == [w];
      assert [w][..0] == [];
    } else {
      LastUpFront(lastup, w, wakes[..|wakes| - 1]);
      assert ([w] + wakes)[..|wakes|] == [w] + wakes[..|wakes| - 1];
    }
  }

  /** The loop returns with what the first tick raises that raises anything, or with nothing if `done` is found closed before. */
  lemma {:induction false} OutcomeIsFirst(o: Limits, start: Time, lastup: Time, wakes: seq<Wake>, k: nat)
    requires k <= |wakes| && forall i :: 0 <= i < k ==> Passes(o, start, lastup, wakes, i)
    ensures k == |wakes| || wakes[k].DoneClosed? ==> Outcome(o, start, lastup, wakes) == Verdict(false, None)
    ensures k < |wakes| && wakes[k].TickCame? ==>
              var v := Raises(o, start, LastUpAfter(lastup, wakes[..k]), wakes[k].seen);
              v.reason.Some? ==> Outcome(o, start, lastup, wakes) == v
    decreases k
  {
    if k == 0 {
      assert wakes[..0] == [];
    } else {
      var w, rest := wakes[0], wakes[1..];
      assert Passes(o, start, lastup, wakes, 0) && wakes[..0] == [];
      var next := LastUp(lastup, w.seen);
      forall i | 0 <= i < k - 1 ensures Passes(o, start, next, rest, i) {
        assert Passes(o, start, lastup, wakes, i + 1);
        assert wakes[..i + 1] == [w] + rest[..i];
        LastUpFront(lastup, w, rest[..i]);
      }
      OutcomeIsFirst(o, start, next, rest, k - 1);
      assert wakes[..k] == [w] + rest[..k - 1];
      LastUpFront(lastup, w, rest[..k - 1]);
    }
  }

  class Watcher {
    const limits: Limits
    const start: Time
    var lastup: Time

    constructor (limits: Limits, start: Time, stamp: Time)
      ensures this.limits == limits && this.start == start && lastup == stamp
    {
      this.limits, this.start, lastup := limits, start, stamp;
    }

    /** The body of the loop. */
    method Tick(x: Seen) returns (v: Verdict)
      modifies this
      ensures lastup == LastUp(old(lastup), x)
      ensures v == Raises(limits, start, old(lastup), x)
    {
      var lastidle := x.stamp;
      if x.spec.up != ZERO_TIME || x.spec.peerFull != ZERO_TIME { lastup := x.now; }
      if lastidle < lastup { lastidle := lastup; }
      var since := Round(Sub(x.clock, lastidle), GRAIN);
      if x.spec.ForceDownAfter(start) { return Verdict(true, Some(Downed)); }
      if x.id != "" { return Verdict(false, None); }
      var verdict := x.spec.ReasonAfter(start, since, limits.minUptime);
      var reason := verdict.reason;
      if x.humans != 0 {
        // An idle lobby's players are not sent away unless forced.
        if !verdict.force { reason := None; }
        if reason.None? && limits.adminTimeout > 0 && limits.adminTimeout < since {
          reason := Some(AdminTimeout);
        }
      } else if reason.None? && limits.timeout > 0 && limits.timeout < since {
        reason := Some(Timeout);
      }
      return Verdict(verdict.force, reason);
    }

    /** The loop over whatever wakes it; it ends with a reason, or when `done` is closed. */
    method Watch(wakes: seq<Wake>) returns (v: Verdict)
      modifies this
      ensures v == if Idle(limits) then Verdict(false, None) else Outcome(limits, start, old(lastup), wakes)
    {
      v := Verdict(false, None);
      if limits.timeout <= 0 && limits.adminTimeout <= 0 { return; }
      ghost var first := lastup;
      var i := 0;
      while i < |wakes|
        invariant 0 <= i <= |wakes| && v == Verdict(false, None)
        invariant Outcome(limits, start, first, wakes) == Outcome(limits, start, lastup, wakes[i..])
      {
        if wakes[i].DoneClosed? { return; }
        assert wakes[i..][1..] == wakes[i + 1..];
        v := Tick(wakes[i].seen);
        if v.reason.Some? { return; }
        v := Verdict(false, None);
        i := i + 1;
      }
    }
  }
}
