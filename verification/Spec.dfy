/** The desired status of internal/lobby/spec.go and the verdict it asks for. */
module Spec {
  import opened Cancel
  import opened GoTime
  import opened Wrappers

  datatype Spec = Spec(
    up: Time, flagUp: Time, peerFull: Time,
    down: Time, flagDown: Time, peerIdle: Time, forceDown: Time, flagForceDown: Time,
    restart: Time, flagRestart: Time, forceRestart: Time, flagForceRestart: Time,
    stop: Time, peerUp: Time, flagStop: Time, forceStop: Time, flagForceStop: Time)
  {
    predicate DownAfter(t: Time) {
      down > t || flagDown > t || peerIdle != ZERO_TIME
    }

    predicate ForceDownAfter(t: Time) {
      forceDown > t || flagForceDown > t
    }

    predicate StopAfter(t: Time, idle: Duration, grace: Duration) {
      idle >= grace && (stop > t || flagStop > t || peerUp != ZERO_TIME)
    }

    predicate ForceStopAfter(t: Time) {
      forceStop > t || flagForceStop > t
    }

    predicate RestartAfter(t: Time) {
      restart > t || flagRestart > t
    }

    predicate ForceRestartAfter(t: Time) {
      forceRestart > t || flagForceRestart > t
    }

    function ReasonAfter(t: Time, idle: Duration, grace: Duration): Verdict {
      if ForceDownAfter(t) then Verdict(true, Some(Downed))
      else if ForceStopAfter(t) then Verdict(true, Some(Stopped))
      else if ForceRestartAfter(t) then Verdict(true, Some(Restarted))
      else if DownAfter(t) then Verdict(false, Some(Downed))
      else if StopAfter(t, idle, grace) then Verdict(false, Some(Stopped))
      else if RestartAfter(t) then Verdict(false, Some(Restarted))
      else Verdict(false, None)
    }
  }

  datatype Verdict = Verdict(force: bool, reason: Option<Reason>)

  // ------------------------------------------------------------------ priority

  /** none < restart < stop < down, each forced one above all of these, in the same order. */
  function Rank(v: Verdict): nat {
    (match v.reason
     case Some(Downed) => 3
     case Some(Stopped) => 2
     case Some(Restarted) => 1
     case _ => 0)
    + if v.force then 3 else 0
  }

  /** `s` asks for the verdict of this rank. */
  predicate Asks(s: Spec, t: Time, idle: Duration, grace: Duration, rank: nat) {
    match rank
    case 6 => s.ForceDownAfter(t)
    case 5 => s.ForceStopAfter(t)
    case 4 => s.ForceRestartAfter(t)
    case 3 => s.DownAfter(t)
    case 2 => s.StopAfter(t, idle, grace)
    case 1 => s.RestartAfter(t)
    case _ => rank == 0
  }

  /** The answer is the highest-ranked of everything that is asked for. */
  lemma HighestAsked(s: Spec, t: Time, idle: Duration, grace: Duration)
    ensures var r := Rank(s.ReasonAfter(t, idle, grace));
            && Asks(s, t, idle, grace, r)
            && forall k: nat :: Asks(s, t, idle, grace, k) ==> k <= r
  {
  }

  ghost predicate SetLater(was: Time, now: Time) {
    was <= now && (was != ZERO_TIME ==> now != ZERO_TIME)
  }

  /** Every field of the spec that is ever asked was moved later or set, none was cleared. */
  ghost predicate MoreUrgent(was: Spec, now: Spec) {
    && SetLater(was.down, now.down) && SetLater(was.flagDown, now.flagDown)
    && SetLater(was.peerIdle, now.peerIdle)
    && SetLater(was.forceDown, now.forceDown) && SetLater(was.flagForceDown, now.flagForceDown)
    && SetLater(was.restart, now.restart) && SetLater(was.flagRestart, now.flagRestart)
    && SetLater(was.forceRestart, now.forceRestart) && SetLater(was.flagForceRestart, now.flagForceRestart)
    && SetLater(was.stop, now.stop) && SetLater(was.flagStop, now.flagStop)
    && SetLater(was.peerUp, now.peerUp)
    && SetLater(was.forceStop, now.forceStop) && SetLater(was.flagForceStop, now.flagForceStop)
  }

  /** A more urgent spec, an earlier start, a longer idle time or a shorter grace never lower the verdict. */
  lemma ReasonAfterMonotone(was: Spec, now: Spec, t: Time, t': Time,
                            idle: Duration, idle': Duration, grace: Duration, grace': Duration)
    requires MoreUrgent(was, now) && t' <= t && idle <= idle' && grace' <= grace
    ensures Rank(was.ReasonAfter(t, idle, grace)) <= Rank(now.ReasonAfter(t', idle', grace'))
  {
    HighestAsked(was, t, idle, grace);
    HighestAsked(now, t', idle', grace');
    var r := Rank(was.ReasonAfter(t, idle, grace));
    assert Asks(now, t', idle', grace', r);
  }
}
