/** What each goroutine of a lobby reports to Cancel, and that every one of them reports its end, over every interleaving. */
module Reports {
  import opened Cancel
  import opened Shutdown
  import opened ShutdownProofs
  import opened Wrappers

  /** The call of Cancel that a step makes, if it makes one. */
  function CallIn(s: Sys, a: Action): Option<Reason>
    requires May(s, a)
  {
    match a
    case MainDoes(Report) => s.main.exit
    case OutDoes(ReadLine) =>
      var reason := s.pipes.outLines[0].reason;
      if reason == Some(Done) then None else reason
    case WatchDoes(Raise(reason)) => Some(reason)
    case ColDoes(_, Write(fails)) => if fails then Some(Bad) else None
    case MainDoes(ReportDone) => Some(Done)
    case OutDoes(OutReport) => Some(Done)
    case ErrDoes(ErrReport) => Some(Done)
    case ColDoes(_, ColReport) => Some(Done)
    case WatchDoes(WatchReport) => Some(Done)
    case _ => None
  }

  ghost predicate Calls(s: Sys, t: Sys, call: Option<Reason>) {
    t.reasons.calls == s.reasons.calls + if call.Some? then [call.value] else []
  }

  lemma MainCalls(s: Sys, a: MainAction)
    requires MainMay(s, a)
    ensures Calls(s, MainNext(s, a), CallIn(s, MainDoes(a)))
  {
  }

  lemma OutCalls(s: Sys, a: OutAction)
    requires OutMay(s, a)
    ensures Calls(s, OutNext(s, a), CallIn(s, OutDoes(a)))
  {
  }

  lemma ErrCalls(s: Sys, a: ErrAction)
    requires ErrMay(s, a)
    ensures Calls(s, ErrNext(s, a), CallIn(s, ErrDoes(a)))
  {
  }

  lemma ColCalls(s: Sys, second: bool, a: ColAction)
    requires ColMay(s, second, a)
    ensures Calls(s, ColNext(s, second, a), CallIn(s, ColDoes(second, a)))
  {
  }

  lemma WatchCalls(s: Sys, a: WatchAction)
    requires WatchMay(s, a)
    ensures Calls(s, WatchNext(s, a), CallIn(s, WatchDoes(a)))
  {
  }

  /** Every goroutine reports what it is to report: a line's reason, a file not written, a raised verdict, the exit, and Done. */
  lemma StepCalls(s: Sys, a: Action)
    requires May(s, a)
    ensures Calls(s, Next(s, a), CallIn(s, a))
  {
    match a
    case MainDoes(x) => MainCalls(s, x);
    case OutDoes(x) => OutCalls(s, x);
    case ErrDoes(x) => ErrCalls(s, x);
    case ColDoes(second, x) => ColCalls(s, second, x);
    case WatchDoes(x) => WatchCalls(s, x);
    case _ =>
  }

  /** The goroutines whose deferred Done has been called; without a log directory collectors have none, nor has an idle watcher. */
  function DonesOf(s: Sys, watched: bool): nat {
    One(s.main.ClosingOut? || s.main.ClosingErr? || s.main.Joining? || s.main.Returned?)
    + One(s.out.OutLeaving? || s.out.OutGone?) + One(s.err.ErrLeaving? || s.err.ErrGone?)
    + One(s.logs && (s.col0.at.ColLeaving? || s.col0.at.ColGone?))
    + One(s.logs && (s.col1.at.ColLeaving? || s.col1.at.ColGone?))
    + One(watched && (s.watch.WatchLeaving? || s.watch.WatchGone?))
  }

  /** What started late to be counted has nothing to report. */
  predicate DonesFit(s: Sys, watched: bool) {
    && (!watched ==> s.watch.WatchLeaving? || s.watch.WatchGone?)
    && (s.main.Reporting? ==> s.main.exit != Some(Done))
    && (!s.logs ==> (s.col0.at.ColLeaving? || s.col0.at.ColGone?) && (s.col1.at.ColLeaving? || s.col1.at.ColGone?))
  }

  ghost predicate DonesCounted(s: Sys, watched: bool) {
    multiset(s.reasons.calls)[Done] == DonesOf(s, watched)
  }

  lemma CountedWith(calls: seq<Reason>, call: Option<Reason>)
    ensures multiset(calls + if call.Some? then [call.value] else [])[Done]
            == multiset(calls)[Done] + One(call == Some(Done))
  {
  }

  /** A step moves the count of those who are done exactly if it calls Done. */
  predicate Moves(s: Sys, a: Action, t: Sys, watched: bool)
    requires May(s, a)
  {
    DonesFit(t, watched) && DonesOf(t, watched) == DonesOf(s, watched) + One(CallIn(s, a) == Some(Done))
  }

  lemma MainMoves(s: Sys, a: MainAction, watched: bool)
    requires DonesFit(s, watched) && MainMay(s, a)
    ensures Moves(s, MainDoes(a), MainNext(s, a), watched)
  {
  }

  lemma OutMoves(s: Sys, a: OutAction, watched: bool)
    requires DonesFit(s, watched) && OutMay(s, a)
    ensures Moves(s, OutDoes(a), OutNext(s, a), watched)
  {
  }

  lemma ErrMoves(s: Sys, a: ErrAction, watched: bool)
    requires DonesFit(s, watched) && ErrMay(s, a)
    ensures Moves(s, ErrDoes(a), ErrNext(s, a), watched)
  {
  }

  lemma ColMoves(s: Sys, second: bool, a: ColAction, watched: bool)
    requires DonesFit(s, watched) && ColMay(s, second, a)
    ensures Moves(s, ColDoes(second, a), ColNext(s, second, a), watched)
  {
  }

  lemma WatchMoves(s: Sys, a: WatchAction, watched: bool)
    requires DonesFit(s, watched) && WatchMay(s, a)
    ensures Moves(s, WatchDoes(a), WatchNext(s, a), watched)
  {
  }

  lemma StepMoves(s: Sys, a: Action, watched: bool)
    requires DonesFit(s, watched) && May(s, a)
    ensures Moves(s, a, Next(s, a), watched)
  {
    match a
    case MainDoes(x) => MainMoves(s, x, watched);
    case OutDoes(x) => OutMoves(s, x, watched);
    case ErrDoes(x) => ErrMoves(s, x, watched);
    case ColDoes(second, x) => ColMoves(s, second, x, watched);
    case WatchDoes(x) => WatchMoves(s, x, watched);
    case _ =>
  }

  lemma StepDones(s: Sys, a: Action, t: Sys, watched: bool)
    requires DonesCounted(s, watched) && May(s, a)
    requires Calls(s, t, CallIn(s, a)) && Moves(s, a, t, watched)
    ensures DonesCounted(t, watched)
  {
    CountedWith(s.reasons.calls, CallIn(s, a));
  }

  lemma {:induction false} RunDones(states: nat -> Sys, acts: nat -> Action, logs: bool, watched: bool, i: nat)
    requires IsRun(states, acts) && states(0) == Init(logs, watched)
    ensures DonesCounted(states(i), watched) && DonesFit(states(i), watched)
    decreases i
  {
    if i == 0 {
    } else {
      var s, a := states(i - 1), acts(i - 1);
      RunDones(states, acts, logs, watched, i - 1);
      assert StepAt(states, acts, i - 1);
      StepCalls(s, a);
      StepMoves(s, a, watched);
      StepDones(s, a, states(i), watched);
    }
  }

  lemma StepLogs(s: Sys, a: Action)
    requires May(s, a)
    ensures Next(s, a).logs == s.logs
  {
  }

  lemma {:induction false} RunLogs(states: nat -> Sys, acts: nat -> Action, i: nat)
    requires IsRun(states, acts)
    ensures states(i).logs == states(0).logs
  {
    if i == 0 {
    } else {
      RunLogs(states, acts, i - 1);
      assert StepAt(states, acts, i - 1);
      StepLogs(states(i - 1), acts(i - 1));
    }
  }

  /** At the return everybody has reported Done once: the caller, two scanners, the collectors and the watcher. */
  lemma EverybodyReportsDone(states: nat -> Sys, acts: nat -> Action, logs: bool, watched: bool, n: nat)
    requires IsRun(states, acts) && states(0) == Init(logs, watched) && states(n).main.Returned?
    ensures multiset(states(n).reasons.calls)[Done] == 3 + (if logs then 2 else 0) + (if watched then 1 else 0)
  {
    RunDones(states, acts, logs, watched, n);
    RunLogs(states, acts, n);
    RunInv(states, acts, logs, watched, n);
    DoneAtReturn(states(n));
  }

  // ----------------------------------------------------------------------- read ends

  /** A scanner holds its pipe's read end until it has closed it. */
  predicate ReadEnds(s: Sys) {
    && (s.pipes.outRead <==> s.out.Scanning? || s.out.ClosingPipe?)
    && (s.pipes.errRead <==> s.err.ScanningErr? || s.err.ClosingErrPipe?)
  }

  lemma OutReadEnds(s: Sys, a: OutAction)
    requires OutMay(s, a) && ReadEnds(s)
    ensures ReadEnds(OutNext(s, a))
  {
  }

  lemma ErrReadEnds(s: Sys, a: ErrAction)
    requires ErrMay(s, a) && ReadEnds(s)
    ensures ReadEnds(ErrNext(s, a))
  {
  }

  lemma MainReadEnds(s: Sys, a: MainAction)
    requires MainMay(s, a) && ReadEnds(s)
    ensures ReadEnds(MainNext(s, a))
  {
  }

  lemma ColReadEnds(s: Sys, second: bool, a: ColAction)
    requires ColMay(s, second, a) && ReadEnds(s)
    ensures ReadEnds(ColNext(s, second, a))
  {
  }

  lemma StepReadEnds(s: Sys, a: Action)
    requires May(s, a) && ReadEnds(s)
    ensures ReadEnds(Next(s, a))
  {
    match a
    case OutDoes(x) => OutReadEnds(s, x);
    case ErrDoes(x) => ErrReadEnds(s, x);
    case MainDoes(x) => MainReadEnds(s, x);
    case ColDoes(second, x) => ColReadEnds(s, second, x);
    case _ =>
  }

  lemma {:induction false} RunReadEnds(states: nat -> Sys, acts: nat -> Action, logs: bool, watched: bool, i: nat)
    requires IsRun(states, acts) && states(0) == Init(logs, watched)
    ensures ReadEnds(states(i))
  {
    if i == 0 {
    } else {
      RunReadEnds(states, acts, logs, watched, i - 1);
      assert StepAt(states, acts, i - 1);
      StepReadEnds(states(i - 1), acts(i - 1));
    }
  }

  /** At the return all four ends of the two pipes are closed. */
  lemma PipesAreClosed(states: nat -> Sys, acts: nat -> Action, logs: bool, watched: bool, n: nat)
    requires IsRun(states, acts) && states(0) == Init(logs, watched) && states(n).main.Returned?
    ensures var p := states(n).pipes; !p.outOpen && !p.errOpen && !p.outRead && !p.errRead && !p.alive
  {
    RunReadEnds(states, acts, logs, watched, n);
    RunInv(states, acts, logs, watched, n);
    DoneAtReturn(states(n));
  }

  // ------------------------------------------------------------------------ giving up

  predicate GivesUp(a: Action) {
    a == OutDoes(GiveUp) || a == ErrDoes(GiveUpErr)
  }

  lemma OutGivesUp(s: Sys, a: OutAction)
    requires OutMay(s, a)
    ensures OutNext(s, a).pipes.gaveUp <==> s.pipes.gaveUp || a == GiveUp
  {
  }

  lemma ErrGivesUp(s: Sys, a: ErrAction)
    requires ErrMay(s, a)
    ensures ErrNext(s, a).pipes.gaveUp <==> s.pipes.gaveUp || a == GiveUpErr
  {
  }

  lemma MainGivesNothingUp(s: Sys, a: MainAction)
    requires MainMay(s, a)
    ensures MainNext(s, a).pipes.gaveUp == s.pipes.gaveUp
  {
  }

  lemma ColGivesNothingUp(s: Sys, second: bool, a: ColAction)
    requires ColMay(s, second, a)
    ensures ColNext(s, second, a).pipes.gaveUp == s.pipes.gaveUp
  {
  }

  lemma StepGivesUp(s: Sys, a: Action)
    requires May(s, a)
    ensures Next(s, a).pipes.gaveUp <==> s.pipes.gaveUp || GivesUp(a)
  {
    match a
    case OutDoes(x) => OutGivesUp(s, x);
    case ErrDoes(x) => ErrGivesUp(s, x);
    case MainDoes(x) => MainGivesNothingUp(s, x);
    case ColDoes(second, x) => ColGivesNothingUp(s, second, x);
    case _ =>
  }

  /** A scanner counts as having given up exactly if one did. */
  lemma {:induction false} GaveUpIff(states: nat -> Sys, acts: nat -> Action, logs: bool, watched: bool, i: nat)
    requires IsRun(states, acts) && states(0) == Init(logs, watched)
    ensures states(i).pipes.gaveUp <==> exists k: nat :: k < i && GivesUp(acts(k))
  {
    if i == 0 {
    } else {
      GaveUpIff(states, acts, logs, watched, i - 1);
      assert StepAt(states, acts, i - 1);
      StepGivesUp(states(i - 1), acts(i - 1));
      if GivesUp(acts(i - 1)) { assert i - 1 < i; }
    }
  }

  /** A scanner goes on after a line, and stops at the end of its pipe or by giving up. */
  lemma ScanningGoesOn(s: Sys, a: Action)
    requires May(s, a)
    ensures s.out.Scanning? ==> (Next(s, a).out.Scanning? <==> a != OutDoes(GiveUp) && a != OutDoes(SeeEof))
    ensures s.err.ScanningErr? ==> (Next(s, a).err.ScanningErr? <==> a != ErrDoes(GiveUpErr) && a != ErrDoes(SeeErrEof))
  {
  }

  // ------------------------------------------------------------------- the environment

  /** Nothing that the environment can do is forbidden: what is printed, when a line is too long, which error the exit has. */
  lemma EnvironmentIsFree(s: Sys, effect: Effect, why: Reason, exit: Option<Reason>, second: bool, fails: bool)
    requires why != Done && exit != Some(Done)
    ensures s.pipes.alive ==> May(s, ChildDoes(Print(effect))) && May(s, ChildDoes(PrintErr)) && May(s, ChildDoes(ChildAction.Exit))
    ensures s.out.Scanning? && s.pipes.outLines != [] ==> May(s, OutDoes(ReadLine)) && May(s, OutDoes(GiveUp))
    ensures s.err.ScanningErr? && s.pipes.errLines > 0 ==> May(s, ErrDoes(ReadErr)) && May(s, ErrDoes(GiveUpErr))
    ensures s.main.Launching? ==> May(s, MainDoes(Launch)) && May(s, MainDoes(LaunchFails(why)))
    ensures s.main.Waiting? && !s.pipes.alive ==> May(s, MainDoes(Reap(exit)))
    ensures s.watch.Watching? ==> May(s, WatchDoes(WatchAction.Raise(why)))
    ensures Col(s, second).at.Writing? ==> May(s, ColDoes(second, Write(fails)))
  {
  }
}
