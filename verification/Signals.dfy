/** Whether the child of a lobby that must end is ever told so, over every interleaving. */
module Signals {
  import opened Cancel
  import opened Shutdown
  import opened ShutdownProofs
  import opened Wrappers

  /** The child runs between its start and its reaping, and nobody signals it before. */
  predicate ChildFits(main: MainPoint, cancel: State) {
    && (main.Launching? ==> cancel.child == NotStarted && cancel.signals == 0)
    && (main.Waiting? <==> cancel.child == Running)
  }

  /** After the start: `late` says that a cause was stored before it. */
  predicate Heard(main: MainPoint, cancel: State, late: bool) {
    && !main.Launching?
    && (late ==> Settled(cancel.reason) && cancel.signals == 0)
    && (!late && main.Waiting? && cancel.reason.Some? ==> cancel.signals > 0)
  }

  lemma CalledFits(main: MainPoint, r: Reasons, reason: Reason, late: bool)
    requires ChildFits(main, r.cancel)
    ensures ChildFits(main, Called(r, reason).cancel)
    ensures Heard(main, r.cancel, late) ==> Heard(main, Called(r, reason).cancel, late)
  {
  }

  /** Another goroutine either leaves the reasons alone or makes one call. */
  ghost predicate AtMostOneCall(s: Sys, t: Sys) {
    t.main == s.main && (t.reasons == s.reasons || exists reason :: t.reasons == Called(s.reasons, reason))
  }

  lemma OthersCallOnce(s: Sys, a: Action)
    requires May(s, a) && !a.MainDoes?
    ensures AtMostOneCall(s, Next(s, a))
  {
    match a
    case OutDoes(x) =>
      if x.ReadLine? && s.pipes.outLines[0].reason.Some? {
        var t := Next(s, a);
        assert t.reasons == s.reasons || t.reasons == Called(s.reasons, s.pipes.outLines[0].reason.value);
      }
    case _ =>
  }

  lemma StepFits(s: Sys, a: Action, late: bool)
    requires May(s, a) && ChildFits(s.main, s.reasons.cancel)
    ensures var t := Next(s, a);
            && ChildFits(t.main, t.reasons.cancel)
            && (Heard(s.main, s.reasons.cancel, late) ==> Heard(t.main, t.reasons.cancel, late))
            && (a == MainDoes(Launch) && s.reasons.cancel.reason != Some(Done)
                && late == Settled(s.reasons.cancel.reason) ==>
                  Heard(t.main, t.reasons.cancel, late))
  {
    if a.MainDoes? {
      if a.main.Report? && s.main.exit.Some? { CalledFits(s.main, s.reasons, s.main.exit.value, late); }
      if a.main.ReportDone? { CalledFits(s.main, s.reasons, Done, late); }
    } else {
      OthersCallOnce(s, a);
      if reason :| Next(s, a).reasons == Called(s.reasons, reason) { CalledFits(s.main, s.reasons, reason, late); }
    }
  }

  lemma {:induction false} RunFits(states: nat -> Sys, acts: nat -> Action, logs: bool, watched: bool, i: nat)
    requires IsRun(states, acts) && states(0) == Init(logs, watched)
    ensures ChildFits(states(i).main, states(i).reasons.cancel)
  {
    if i == 0 {
    } else {
      RunFits(states, acts, logs, watched, i - 1);
      assert StepAt(states, acts, i - 1);
      StepFits(states(i - 1), acts(i - 1), false);
    }
  }

  /** Before the child's start there is nothing to read, and so no scanner gives up. */
  predicate NothingRead(s: Sys) {
    s.main.Launching? ==> s.pipes.outLines == [] && s.pipes.errLines == 0 && !s.pipes.gaveUp
  }

  lemma StepNothingRead(s: Sys, a: Action)
    requires May(s, a) && NothingRead(s) && MainFits(s.main, s.watch, s.reasons.cancel, s.pipes)
    ensures NothingRead(Next(s, a))
  {
  }

  lemma NoDoneBefore(s: Sys)
    requires Inv(s) && NothingRead(s) && s.main.Launching?
    ensures s.reasons.cancel.reason != Some(Done)
  {
  }

  lemma {:induction false} RunNothingRead(states: nat -> Sys, acts: nat -> Action, logs: bool, watched: bool, i: nat)
    requires IsRun(states, acts) && states(0) == Init(logs, watched)
    ensures NothingRead(states(i))
  {
    if i == 0 {
    } else {
      RunNothingRead(states, acts, logs, watched, i - 1);
      RunInv(states, acts, logs, watched, i - 1);
      assert StepAt(states, acts, i - 1);
      StepNothingRead(states(i - 1), acts(i - 1));
    }
  }

  lemma {:induction false} RunHeard(states: nat -> Sys, acts: nat -> Action, logs: bool, watched: bool, k: nat, i: nat)
    requires IsRun(states, acts) && states(0) == Init(logs, watched)
    requires acts(k) == MainDoes(Launch) && k < i
    ensures Heard(states(i).main, states(i).reasons.cancel, Settled(states(k).reasons.cancel.reason))
    decreases i
  {
    var late := Settled(states(k).reasons.cancel.reason);
    RunFits(states, acts, logs, watched, i - 1);
    assert StepAt(states, acts, i - 1);
    if i == k + 1 {
      RunNothingRead(states, acts, logs, watched, k);
      RunInv(states, acts, logs, watched, k);
      NoDoneBefore(states(k));
    } else {
      RunHeard(states, acts, logs, watched, k, i - 1);
    }
    StepFits(states(i - 1), acts(i - 1), late);
  }

  /**
   A living child of a lobby with a reason to end was told to stop if and only if no
   cause was there before the child was started. Otherwise nobody ever tells it: the
   stored cause swallows every later call.
   */
  lemma ToldUnlessCausedBefore(states: nat -> Sys, acts: nat -> Action, logs: bool, watched: bool, k: nat, i: nat)
    requires IsRun(states, acts) && states(0) == Init(logs, watched)
    requires acts(k) == MainDoes(Launch) && k < i
    requires states(i).pipes.alive && states(i).reasons.cancel.reason.Some?
    ensures states(i).reasons.cancel.signals > 0 <==> !Settled(states(k).reasons.cancel.reason)
  {
    RunInv(states, acts, logs, watched, i);
    RunHeard(states, acts, logs, watched, k, i);
  }

  // ------------------------------------------------------------------- the watcher's end

  /** A watcher that was started stops watching only with a reason stored. */
  predicate WatchFits(watch: WatchPoint, cancel: State) {
    watch.Watching? || cancel.reason.Some?
  }

  lemma StepWatchFits(s: Sys, a: Action)
    requires May(s, a) && WatchFits(s.watch, s.reasons.cancel)
    requires MainFits(s.main, s.watch, s.reasons.cancel, s.pipes)
    ensures var t := Next(s, a); WatchFits(t.watch, t.reasons.cancel)
  {
    if a.MainDoes? || a.WatchDoes? {
    } else {
      OthersCallOnce(s, a);
      assert Next(s, a).watch == s.watch;
    }
  }

  lemma {:induction false} RunWatchFits(states: nat -> Sys, acts: nat -> Action, logs: bool, i: nat)
    requires IsRun(states, acts) && states(0) == Init(logs, true)
    ensures WatchFits(states(i).watch, states(i).reasons.cancel)
  {
    if i == 0 {
    } else {
      RunWatchFits(states, acts, logs, i - 1);
      RunInv(states, acts, logs, true, i - 1);
      assert StepAt(states, acts, i - 1);
      StepWatchFits(states(i - 1), acts(i - 1));
    }
  }

  /**
   While the child lives, a watcher that was started is gone without a cause if and only
   if a scanner gave up on its pipe and nobody has called a cause.
   */
  lemma UnwatchedWithoutCause(states: nat -> Sys, acts: nat -> Action, logs: bool, i: nat)
    requires IsRun(states, acts) && states(0) == Init(logs, true)
    requires states(i).pipes.alive && !states(i).watch.Watching?
    ensures !Settled(states(i).reasons.cancel.reason)
            <==> states(i).pipes.gaveUp && FirstCause(states(i).reasons.calls).None?
  {
    RunInv(states, acts, logs, true, i);
    RunWatchFits(states, acts, logs, i);
    FirstCauseIsCause(states(i).reasons.calls);
  }
}
