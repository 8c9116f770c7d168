/** What every interleaving of a lobby's goroutines keeps, and that all of them end. */
module ShutdownProofs {
  import opened Cancel
  import opened Scan
  import opened Shutdown
  import opened Wrappers

  // ------------------------------------------------------------------ invariants

  function One(b: bool): nat {
    if b then 1 else 0
  }

  /** The goroutines that have not called wg.Done. */
  function Live(s: Sys): nat {
    One(!s.out.OutGone?) + One(!s.err.ErrGone?) + One(!s.col0.at.ColGone?) + One(!s.col1.at.ColGone?)
    + One(!s.watch.WatchGone?)
  }

  predicate Counted(s: Sys) {
    s.wg == Live(s) && (s.main.Returned? ==> s.wg == 0)
  }

  /** Received matches are the sent ones, in order, up to the at most ten that wait. */
  predicate InOrder(logs: bool, c: Channel) {
    && |c.queue| <= QUEUE_CAP
    && c.sent == c.taken + c.queue
    && multiset(c.offered) == multiset(c.sent) + multiset(c.dropped)
    && (!logs ==> c.offered == [] && c.sent == [])
  }

  /** What a collector has had: the matches it finished and the one it is writing. */
  function Share(c: Collector): multiset<Match> {
    multiset(c.finished) + if c.at.Writing? then multiset{c.at.m} else multiset{}
  }

  /** Every received match is, or was, with exactly one collector. */
  predicate Conserved(taken: seq<Match>, c0: Collector, c1: Collector) {
    multiset(taken) == Share(c0) + Share(c1)
  }

  predicate ColFits(logs: bool, c: Channel, p: CollectorPoint) {
    && (p.ColReporting? ==> c.closed && c.queue == [])
    && (logs && (p.ColLeaving? || p.ColGone?) ==> c.closed && c.queue == [])
    && (!logs ==> p.ColLeaving? || p.ColGone?)
  }

  /** The channel is closed by the first scanner alone, after its last send. */
  predicate ClosedLast(s: Sys) {
    && (s.ch.closed <==> s.out.OutReporting? || s.out.OutLeaving? || s.out.OutGone?)
    && ColFits(s.logs, s.ch, s.col0.at) && ColFits(s.logs, s.ch, s.col1.at)
  }

  predicate MainFits(main: MainPoint, watch: WatchPoint, cancel: State, p: Pipes) {
    && cancel.done != Absent && (cancel.done == Closed <==> cancel.reason.Some?)
    && (p.outOpen <==> !(main.ClosingErr? || main.Joining? || main.Returned?))
    && (p.errOpen <==> !(main.Joining? || main.Returned?))
    && (main.ClosingOut? || !p.outOpen ==> cancel.done == Closed)
    && (p.alive ==> main.Waiting?)
    && (watch.WatchReporting? ==> cancel.reason.Some?)
  }

  predicate Early(main: MainPoint) {
    main.Launching? || main.Waiting? || main.Reporting?
  }

  /** Before the exit is reported only a scanner that gave up can have reported Done. */
  predicate DoneIsLate(s: Sys) {
    && (s.main.Reporting? ==> s.main.exit != Some(Done))
    && (Early(s.main) && !s.pipes.gaveUp ==>
          s.reasons.cancel.reason != Some(Done) && s.out.Scanning? && s.err.ScanningErr?)
    && (s.told == Some(Done) ==> s.pipes.gaveUp)
  }

  /** The stored reason is the first cause among all calls. */
  predicate CauseKept(r: Reasons) {
    r.cancel.reason == (if FirstCause(r.calls).Some? then FirstCause(r.calls)
                        else if r.calls == [] then None else Some(Done))
  }

  predicate Inv(s: Sys) {
    && Counted(s) && InOrder(s.logs, s.ch) && Conserved(s.ch.taken, s.col0, s.col1) && ClosedLast(s)
    && MainFits(s.main, s.watch, s.reasons.cancel, s.pipes) && DoneIsLate(s) && CauseKept(s.reasons)
  }

  lemma InitInv(logs: bool, watched: bool)
    ensures Inv(Init(logs, watched))
  {
  }

  lemma OfferKeeps(logs: bool, c: Channel, m: Option<Match>)
    requires InOrder(logs, c)
    ensures InOrder(logs, Offer(logs, c, m))
    ensures Offer(logs, c, m).taken == c.taken && Offer(logs, c, m).closed == c.closed
  {
    if m.Some? && logs {
      assert c.taken + (c.queue + [m.value]) == (c.taken + c.queue) + [m.value];
    }
  }

  lemma CalledKeeps(r: Reasons, reason: Reason)
    requires CauseKept(r)
    ensures CauseKept(Called(r, reason))
  {
    FirstCauseIsCause(r.calls);
    FirstCauseLast(r.calls, reason);
  }

  lemma ChildInv(s: Sys, a: ChildAction)
    requires Inv(s) && ChildMay(s, a)
    ensures Inv(ChildNext(s, a))
  {
  }

  lemma MainEnds(s: Sys, a: MainAction)
    requires ClosedLast(s) && Counted(s) && MainMay(s, a)
    requires MainFits(s.main, s.watch, s.reasons.cancel, s.pipes) && DoneIsLate(s) && CauseKept(s.reasons)
    ensures var t := MainNext(s, a);
            MainFits(t.main, t.watch, t.reasons.cancel, t.pipes) && DoneIsLate(t) && CauseKept(t.reasons)
  {
    match a
    case Report => if s.main.exit.Some? { CalledKeeps(s.reasons, s.main.exit.value); }
    case ReportDone => CalledKeeps(s.reasons, Done);
    case _ =>
  }

  /** The caller's steps leave the channel and the goroutines alone. */
  lemma MainElsewhere(s: Sys, a: MainAction)
    requires MainMay(s, a)
    ensures var t := MainNext(s, a); t.logs == s.logs && t.ch == s.ch
    ensures var t := MainNext(s, a); t.out == s.out && t.err == s.err && t.watch == s.watch
    ensures var t := MainNext(s, a); t.col0 == s.col0 && t.col1 == s.col1
    ensures var t := MainNext(s, a); t.wg == s.wg && (t.main.Returned? ==> t.wg == 0)
  {
  }

  lemma MainInv(s: Sys, a: MainAction)
    requires Inv(s) && MainMay(s, a)
    ensures Inv(MainNext(s, a))
  {
    MainEnds(s, a);
    MainElsewhere(s, a);
  }

  lemma OutInv(s: Sys, a: OutAction)
    requires Inv(s) && OutMay(s, a)
    ensures Inv(OutNext(s, a))
  {
    match a
    case ReadLine =>
      var e := s.pipes.outLines[0];
      OfferKeeps(s.logs, s.ch, e.offer);
      if e.reason.Some? { CalledKeeps(s.reasons, e.reason.value); }
    case CollectLast(m) => OfferKeeps(s.logs, s.ch, m);
    case OutReport => CalledKeeps(s.reasons, Done);
    case _ =>
  }

  lemma ErrInv(s: Sys, a: ErrAction)
    requires Inv(s) && ErrMay(s, a)
    ensures Inv(ErrNext(s, a))
  {
    CalledKeeps(s.reasons, Done);
  }

  lemma TakenMoves(logs: bool, c: Channel)
    requires InOrder(logs, c) && c.queue != []
    ensures InOrder(logs, c.(queue := c.queue[1..], taken := c.taken + [c.queue[0]]))
  {
    assert c.taken + c.queue == (c.taken + [c.queue[0]]) + c.queue[1..];
  }

  lemma ReceiveShares(c: Collector, m: Match)
    requires c.at.Receiving?
    ensures Share(c.(at := Writing(m))) == Share(c) + multiset{m}
  {
  }

  lemma WriteShares(c: Collector)
    requires c.at.Writing?
    ensures Share(Collector(Receiving, c.finished + [c.at.m])) == Share(c)
  {
  }

  /** What a collector's step does to the conservation of matches, whichever collector it is. */
  lemma ColConserves(s: Sys, second: bool, a: ColAction)
    requires Conserved(s.ch.taken, s.col0, s.col1) && ColMay(s, second, a)
    ensures var t := ColNext(s, second, a); Conserved(t.ch.taken, t.col0, t.col1)
  {
    var c := Col(s, second);
    match a
    case Receive =>
      ReceiveShares(c, s.ch.queue[0]);
      assert multiset(s.ch.taken + [s.ch.queue[0]]) == multiset(s.ch.taken) + multiset{s.ch.queue[0]};
    case Write(_) => WriteShares(c);
    case _ =>
  }

  lemma ColCounts(s: Sys, second: bool, a: ColAction)
    requires Counted(s) && ColMay(s, second, a)
    ensures Counted(ColNext(s, second, a))
  {
  }

  lemma ColCloses(s: Sys, second: bool, a: ColAction)
    requires ClosedLast(s) && ColMay(s, second, a)
    ensures ClosedLast(ColNext(s, second, a))
  {
  }

  lemma ColEnds(s: Sys, second: bool, a: ColAction)
    requires ClosedLast(s) && ColMay(s, second, a)
    requires MainFits(s.main, s.watch, s.reasons.cancel, s.pipes) && DoneIsLate(s) && CauseKept(s.reasons)
    ensures var t := ColNext(s, second, a);
            MainFits(t.main, t.watch, t.reasons.cancel, t.pipes) && DoneIsLate(t) && CauseKept(t.reasons)
  {
    CalledKeeps(s.reasons, Bad);
    CalledKeeps(s.reasons, Done);
  }

  lemma ColOrders(s: Sys, second: bool, a: ColAction)
    requires InOrder(s.logs, s.ch) && ColMay(s, second, a)
    ensures var t := ColNext(s, second, a); InOrder(t.logs, t.ch)
  {
    if a.Receive? { TakenMoves(s.logs, s.ch); }
  }

  lemma ColInv(s: Sys, second: bool, a: ColAction)
    requires Inv(s) && ColMay(s, second, a)
    ensures Inv(ColNext(s, second, a))
  {
    ColConserves(s, second, a);
    ColCounts(s, second, a);
    ColCloses(s, second, a);
    ColOrders(s, second, a);
    ColEnds(s, second, a);
  }

  lemma WatchInv(s: Sys, a: WatchAction)
    requires Inv(s) && WatchMay(s, a)
    ensures Inv(WatchNext(s, a))
  {
    CalledKeeps(s.reasons, Done);
    if a.Raise? { CalledKeeps(s.reasons, a.reason); }
  }

  /** Every step of every goroutine keeps all of it. */
  lemma StepInv(s: Sys, a: Action)
    requires Inv(s) && May(s, a)
    ensures Inv(Next(s, a))
  {
    match a
    case Stutter =>
    case ChildDoes(x) => ChildInv(s, x);
    case MainDoes(x) => MainInv(s, x);
    case OutDoes(x) => OutInv(s, x);
    case ErrDoes(x) => ErrInv(s, x);
    case ColDoes(second, x) => ColInv(s, second, x);
    case WatchDoes(x) => WatchInv(s, x);
  }

  /** No step sends on the closed channel or closes it twice, and none closes `done` twice. */
  lemma NoSendAfterClose(s: Sys, a: OutAction)
    requires Inv(s) && OutMay(s, a)
    ensures a.ReadLine? || a.CollectLast? || a.CloseMatches? ==> !s.ch.closed
  {
  }

  // ------------------------------------------------------------------- the way out

  /** The child has exited, or was not started; nothing more will be written. */
  predicate Ended(s: Sys) {
    !s.pipes.alive && !s.main.Launching?
  }

  function MainRank(p: MainPoint): nat {
    match p
    case Launching => 7
    case Waiting => 6
    case Reporting(_) => 5
    case ReportingDone => 4
    case ClosingOut => 3
    case ClosingErr => 2
    case Joining => 1
    case Returned => 0
  }

  function OutRank(p: OutPoint): nat {
    match p
    case Scanning => 8
    case ClosingPipe => 7
    case CollectingLast => 6
    case ClosingMatches => 3
    case OutReporting => 2
    case OutLeaving => 1
    case OutGone => 0
  }

  function ErrRank(p: ErrPoint): nat {
    match p
    case ScanningErr => 4
    case ClosingErrPipe => 3
    case ErrReporting => 2
    case ErrLeaving => 1
    case ErrGone => 0
  }

  function ColRank(p: CollectorPoint): nat {
    match p
    case Writing(_) => 4
    case Receiving => 3
    case ColReporting => 2
    case ColLeaving => 1
    case ColGone => 0
  }

  function WatchRank(p: WatchPoint): nat {
    match p
    case Watching => 3
    case WatchReporting => 2
    case WatchLeaving => 1
    case WatchGone => 0
  }

  /** Lines left, matches waiting, and what each goroutine still has to do. */
  function Measure(s: Sys): nat {
    3 * |s.pipes.outLines| + s.pipes.errLines + 2 * |s.ch.queue|
    + MainRank(s.main) + OutRank(s.out) + ErrRank(s.err)
    + ColRank(s.col0.at) + ColRank(s.col1.at) + WatchRank(s.watch)
  }

  lemma OfferCosts(logs: bool, c: Channel, m: Option<Match>)
    ensures |Offer(logs, c, m).queue| <= |c.queue| + 1
  {
  }

  /** The child stays gone, and the end came nearer. */
  predicate Nearer(s: Sys, t: Sys) {
    Ended(t) && Measure(t) < Measure(s)
  }

  lemma OutNearer(s: Sys, a: OutAction)
    requires Ended(s) && OutMay(s, a)
    ensures Nearer(s, OutNext(s, a))
  {
    match a
    case ReadLine => OfferCosts(s.logs, s.ch, s.pipes.outLines[0].offer);
    case CollectLast(m) => OfferCosts(s.logs, s.ch, m);
    case _ =>
  }

  lemma ColNearer(s: Sys, second: bool, a: ColAction)
    requires Ended(s) && ColMay(s, second, a)
    ensures Nearer(s, ColNext(s, second, a))
  {
  }

  lemma MainNearer(s: Sys, a: MainAction)
    requires Ended(s) && MainMay(s, a)
    ensures Nearer(s, MainNext(s, a))
  {
  }

  lemma ErrNearer(s: Sys, a: ErrAction)
    requires Ended(s) && ErrMay(s, a)
    ensures Nearer(s, ErrNext(s, a))
  {
  }

  lemma WatchNearer(s: Sys, a: WatchAction)
    requires Ended(s) && WatchMay(s, a)
    ensures Nearer(s, WatchNext(s, a))
  {
  }

  /** Once the child is gone, every step that is taken brings the end nearer. */
  lemma StepsDecrease(s: Sys, a: Action)
    requires Ended(s) && May(s, a) && a != Stutter
    ensures Nearer(s, Next(s, a))
  {
    match a
    case ChildDoes(_) =>
    case MainDoes(x) => MainNearer(s, x);
    case OutDoes(x) => OutNearer(s, x);
    case ErrDoes(x) => ErrNearer(s, x);
    case ColDoes(second, x) => ColNearer(s, second, x);
    case WatchDoes(x) => WatchNearer(s, x);
  }

  datatype Actor = Main | Out | Err | ColActor(second: bool) | Watch

  /** The goroutine can take a step that no other has to make possible first. */
  predicate Due(s: Sys, x: Actor) {
    match x
    case Main => !s.main.Returned? && (s.main.Waiting? ==> !s.pipes.alive) && (s.main.Joining? ==> s.wg == 0)
    case Out => !s.out.OutGone? && (s.out.Scanning? ==> s.pipes.outLines != [] || OutEof(s.pipes))
    case Err => !s.err.ErrGone? && (s.err.ScanningErr? ==> s.pipes.errLines > 0 || ErrEof(s.pipes))
    case ColActor(second) =>
      var p := Col(s, second).at;
      !p.ColGone? && (p.Receiving? ==> s.ch.queue != [] || s.ch.closed)
    case Watch => !s.watch.WatchGone? && (s.watch.Watching? ==> s.reasons.cancel.done == Closed)
  }

  predicate Takes(a: Action, x: Actor) {
    match x
    case Main => a.MainDoes?
    case Out => a.OutDoes?
    case Err => a.ErrDoes?
    case ColActor(second) => a.ColDoes? && a.second == second
    case Watch => a.WatchDoes?
  }

  /** Whoever is due has a step. */
  lemma DueMay(s: Sys, x: Actor) returns (a: Action)
    requires Due(s, x)
    ensures Takes(a, x) && May(s, a)
  {
    match x
    case Main =>
      a := MainDoes(match s.main
                    case Launching => Launch
                    case Waiting => Reap(None)
                    case Reporting(_) => Report
                    case ReportingDone => ReportDone
                    case ClosingOut => CloseOut
                    case ClosingErr => CloseErr
                    case _ => Join);
    case Out =>
      a := OutDoes(match s.out
                   case Scanning => if s.pipes.outLines != [] then ReadLine else SeeEof
                   case ClosingPipe => ClosePipe
                   case CollectingLast => CollectLast(None)
                   case ClosingMatches => CloseMatches
                   case OutReporting => OutReport
                   case _ => OutLeave);
    case Err =>
      a := ErrDoes(match s.err
                   case ScanningErr => if s.pipes.errLines > 0 then ReadErr else SeeErrEof
                   case ClosingErrPipe => CloseErrPipe
                   case ErrReporting => ErrReport
                   case _ => ErrLeave);
    case ColActor(second) =>
      a := ColDoes(second, match Col(s, second).at
                           case Receiving => if s.ch.queue != [] then Receive else SeeClosed
                           case Writing(_) => Write(false)
                           case ColReporting => ColReport
                           case _ => ColLeave);
    case Watch =>
      a := WatchDoes(match s.watch
                     case Watching => SeeDone
                     case WatchReporting => WatchReport
                     case _ => WatchLeave);
  }

  /** Nobody waits for somebody who waits: until `runc` returns, someone is due. */
  function DueActor(s: Sys): (x: Actor)
    requires Inv(s) && Ended(s) && !s.main.Returned?
    ensures Due(s, x)
  {
    if Due(s, Main) then Main
    else if !s.out.OutGone? then Out
    else if !s.err.ErrGone? then Err
    else if !s.col0.at.ColGone? then ColActor(false)
    else if !s.col1.at.ColGone? then ColActor(true)
    else Watch
  }

  // -------------------------------------------------------------------- fair runs

  ghost predicate StepAt(states: nat -> Sys, acts: nat -> Action, i: nat) {
    May(states(i), acts(i)) && states(i + 1) == Next(states(i), acts(i))
  }

  ghost predicate IsRun(states: nat -> Sys, acts: nat -> Action) {
    forall i: nat :: StepAt(states, acts, i)
  }

  ghost predicate Served(states: nat -> Sys, acts: nat -> Action, x: Actor, j: nat) {
    Due(states(j), x) ==> Takes(acts(j), x)
  }

  ghost predicate ServedFrom(states: nat -> Sys, acts: nat -> Action, x: Actor, i: nat) {
    exists j: nat :: i <= j && Served(states, acts, x, j)
  }

  /** Nobody stays due for ever without taking a step. */
  ghost predicate Fair(states: nat -> Sys, acts: nat -> Action) {
    forall x: Actor, i: nat :: ServedFrom(states, acts, x, i)
  }

  lemma {:induction false} RunInv(states: nat -> Sys, acts: nat -> Action, logs: bool, watched: bool, i: nat)
    requires IsRun(states, acts) && states(0) == Init(logs, watched)
    ensures Inv(states(i))
  {
    if i == 0 {
      InitInv(logs, watched);
    } else {
      RunInv(states, acts, logs, watched, i - 1);
      assert StepAt(states, acts, i - 1);
      StepInv(states(i - 1), acts(i - 1));
    }
  }

  /** From `i` on, somebody moves at last; up to there nothing has changed. */
  lemma {:induction false} FirstMove(states: nat -> Sys, acts: nat -> Action, i: nat, j: nat, x: Actor) returns (k: nat)
    requires IsRun(states, acts) && i <= j && Due(states(i), x) && Served(states, acts, x, j)
    ensures i <= k && states(k) == states(i) && acts(k) != Stutter
    decreases j - i
  {
    if acts(i) != Stutter {
      k := i;
    } else {
      assert StepAt(states, acts, i);
      assert i != j;
      k := FirstMove(states, acts, i + 1, j, x);
    }
  }

  lemma {:induction false} RunReturns(states: nat -> Sys, acts: nat -> Action, i: nat) returns (n: nat)
    requires IsRun(states, acts) && Fair(states, acts)
    requires Inv(states(i)) && Ended(states(i))
    ensures i <= n && states(n).main.Returned? && Inv(states(n))
    decreases Measure(states(i))
  {
    if states(i).main.Returned? {
      n := i;
    } else {
      var x := DueActor(states(i));
      assert ServedFrom(states, acts, x, i);
      var j: nat :| i <= j && Served(states, acts, x, j);
      var k := FirstMove(states, acts, i, j, x);
      assert StepAt(states, acts, k);
      StepInv(states(k), acts(k));
      StepsDecrease(states(k), acts(k));
      n := RunReturns(states, acts, k + 1);
    }
  }

  /**
   Nobody is left and nothing is lost: every match that was handed over was finished by
   exactly one collector, and what was offered was handed over or dropped.
   */
  ghost predicate AllDone(s: Sys) {
    && s.main.Returned? && s.wg == 0
    && s.out.OutGone? && s.err.ErrGone? && s.col0.at.ColGone? && s.col1.at.ColGone? && s.watch.WatchGone?
    && s.ch.closed && s.ch.queue == [] && s.reasons.cancel.done == Closed
    && multiset(s.ch.sent) == multiset(s.col0.finished) + multiset(s.col1.finished)
    && multiset(s.ch.offered) == multiset(s.ch.sent) + multiset(s.ch.dropped)
    && CauseKept(s.reasons)
    // A clean exit is told as Done only if a scanner had given up on its pipe.
    && (s.told == Some(Done) ==> s.pipes.gaveUp)
  }

  lemma DoneAtReturn(s: Sys)
    requires Inv(s) && s.main.Returned?
    ensures AllDone(s)
  {
    assert s.ch.queue == [] && s.ch.sent == s.ch.taken by {
      assert !s.logs ==> |s.ch.sent| == |s.ch.taken| + |s.ch.queue|;
    }
  }

  // --------------------------------------------------------------------- the answer

  /** What `runc` is to return for an exit that is reported after these calls: the first cause, be it the exit's. */
  function Answer(calls: seq<Reason>, exit: Option<Reason>): Option<Reason> {
    if FirstCause(calls).Some? then FirstCause(calls)
    else if exit.Some? then exit
    else if calls == [] then None
    else Some(Done)
  }

  /** The report answers for the calls up to it, whatever the exit. */
  lemma ReportAnswers(s: Sys)
    requires s.main.Reporting? && CauseKept(s.reasons) && s.main.exit != Some(Done)
    ensures MainNext(s, Report).told == Answer(s.reasons.calls, s.main.exit)
  {
    FirstCauseIsCause(s.reasons.calls);
  }

  predicate Answered(main: MainPoint) {
    !(main.Launching? || main.Waiting? || main.Reporting?)
  }

  /** Once it is given, no step changes the answer. */
  lemma AnswerStays(s: Sys, a: Action)
    requires May(s, a) && Answered(s.main)
    ensures Next(s, a).told == s.told && Answered(Next(s, a).main)
  {
  }

  lemma ReportGives(s: Sys, a: Action)
    requires May(s, a) && a == MainDoes(Report)
    ensures s.main.Reporting? && Answered(Next(s, a).main) && Next(s, a) == MainNext(s, Report)
  {
  }

  /** Over every interleaving: from the report on, the answer is the one for the calls and the exit at the report. */
  lemma {:induction false} RunAnswers(states: nat -> Sys, acts: nat -> Action, logs: bool, watched: bool, k: nat, i: nat)
    requires IsRun(states, acts) && states(0) == Init(logs, watched)
    requires acts(k) == MainDoes(Report) && k < i
    ensures states(k).main.Reporting? && Answered(states(i).main)
    ensures states(i).told == Answer(states(k).reasons.calls, states(k).main.exit)
    decreases i
  {
    assert StepAt(states, acts, i - 1);
    if i == k + 1 {
      RunInv(states, acts, logs, watched, k);
      ReportGives(states(k), acts(k));
      ReportAnswers(states(k));
    } else {
      RunAnswers(states, acts, logs, watched, k, i - 1);
      AnswerStays(states(i - 1), acts(i - 1));
    }
  }

  /** The child's end, or the failure to start it, that makes for this exit. */
  predicate EndsWith(a: Action, exit: Option<Reason>) {
    a == MainDoes(Reap(exit)) || (a.MainDoes? && a.main.LaunchFails? && exit == Some(a.main.why))
  }

  lemma ExitIs(s: Sys, a: Action)
    requires May(s, a) && Next(s, a).main.Reporting?
    ensures s.main == Next(s, a).main || EndsWith(a, Next(s, a).main.exit)
  {
  }

  lemma {:induction false} ExitCame(states: nat -> Sys, acts: nat -> Action, i: nat) returns (r: nat)
    requires IsRun(states, acts) && states(0).main.Launching? && states(i).main.Reporting?
    ensures r < i && EndsWith(acts(r), states(i).main.exit)
  {
    assert StepAt(states, acts, i - 1);
    ExitIs(states(i - 1), acts(i - 1));
    if states(i - 1).main == states(i).main {
      r := ExitCame(states, acts, i - 1);
    } else {
      r := i - 1;
    }
  }

  lemma ReportIs(s: Sys, a: Action)
    requires May(s, a) && Answered(Next(s, a).main)
    ensures Answered(s.main) || a == MainDoes(Report)
  {
  }

  lemma {:induction false} ReportCame(states: nat -> Sys, acts: nat -> Action, i: nat) returns (k: nat)
    requires IsRun(states, acts) && states(0).main.Launching? && Answered(states(i).main)
    ensures k < i && acts(k) == MainDoes(Report)
  {
    assert StepAt(states, acts, i - 1);
    ReportIs(states(i - 1), acts(i - 1));
    if acts(i - 1) == MainDoes(Report) {
      k := i - 1;
    } else {
      k := ReportCame(states, acts, i - 1);
    }
  }

  /** With the exit of step `r`, reported in step `k`, the answer at `n` is the one for the calls made before the report. */
  ghost predicate Tells(states: nat -> Sys, acts: nat -> Action, r: nat, k: nat, n: nat, exit: Option<Reason>) {
    && r < k < n && EndsWith(acts(r), exit) && acts(k) == MainDoes(Report)
    && states(n).told == Answer(states(k).reasons.calls, exit)
  }

  ghost predicate AnswersAt(states: nat -> Sys, acts: nat -> Action, n: nat) {
    exists r: nat, k: nat, exit: Option<Reason> :: Tells(states, acts, r, k, n, exit)
  }

  /** At the return all is done, and what is returned is the first cause of all that were called before the report. */
  lemma ReturnedIsDone(states: nat -> Sys, acts: nat -> Action, logs: bool, watched: bool, n: nat)
    requires IsRun(states, acts) && states(0) == Init(logs, watched) && states(n).main.Returned?
    ensures AllDone(states(n)) && AnswersAt(states, acts, n)
  {
    RunInv(states, acts, logs, watched, n);
    DoneAtReturn(states(n));
    var k := ReportCame(states, acts, n);
    RunAnswers(states, acts, logs, watched, k, n);
    var r := ExitCame(states, acts, k);
    assert Tells(states, acts, r, k, n, states(k).main.exit);
  }

  /** Every fair interleaving in which the child ends comes to a return with nothing left undone and the right answer. */
  lemma EveryFairRunEnds(states: nat -> Sys, acts: nat -> Action, logs: bool, watched: bool, k: nat)
    requires IsRun(states, acts) && Fair(states, acts) && states(0) == Init(logs, watched)
    requires Ended(states(k))
    ensures exists n: nat :: k <= n && AllDone(states(n)) && AnswersAt(states, acts, n)
  {
    RunInv(states, acts, logs, watched, k);
    var n := RunReturns(states, acts, k);
    ReturnedIsDone(states, acts, logs, watched, n);
  }
}
