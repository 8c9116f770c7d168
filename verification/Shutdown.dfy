/**
 The life of one lobby process as its goroutines see it: `runc`, two scanners, two
 collectors and the watcher of internal/lobby, interleaved in any order.
 */
module Shutdown {
  import opened Cancel
  import opened Scan
  import opened Wrappers

  // -------------------------------------------------------------- program points

  // Each point names what the goroutine does next; deferred calls are points of their own.

  datatype MainPoint =
    | Launching | Waiting | Reporting(exit: Option<Reason>) | ReportingDone
    | ClosingOut | ClosingErr | Joining | Returned

  datatype OutPoint = Scanning | ClosingPipe | CollectingLast | ClosingMatches | OutReporting | OutLeaving | OutGone

  datatype ErrPoint = ScanningErr | ClosingErrPipe | ErrReporting | ErrLeaving | ErrGone

  datatype CollectorPoint = Receiving | Writing(m: Match) | ColReporting | ColLeaving | ColGone

  datatype WatchPoint = Watching | WatchReporting | WatchLeaving | WatchGone

  /** What one line of output makes the scanner do: offer a match, report a reason. */
  datatype Effect = Effect(offer: Option<Match>, reason: Option<Reason>)

  /** A collector and the ledger of what it finished. */
  datatype Collector = Collector(at: CollectorPoint, finished: seq<Match>)

  /** The match channel; `offered`, `sent`, `dropped` and `taken` are ledgers. */
  datatype Channel = Channel(queue: seq<Match>, closed: bool,
                             offered: seq<Match>, sent: seq<Match>, dropped: seq<Match>, taken: seq<Match>)

  /** The two pipes: who holds write ends, what was written and not read, whether a reader gave up, and the read ends. */
  datatype Pipes = Pipes(alive: bool, outOpen: bool, errOpen: bool, outLines: seq<Effect>, errLines: nat, gaveUp: bool,
                         outRead: bool, errRead: bool)

  /** What Cancel guards, and the ledger of its calls. */
  datatype Reasons = Reasons(cancel: State, calls: seq<Reason>)

  /** `wg` is the wait group's counter and `told` what `runc` returns. */
  datatype Sys = Sys(logs: bool, main: MainPoint, out: OutPoint, err: ErrPoint, col0: Collector, col1: Collector,
                     watch: WatchPoint, wg: int, reasons: Reasons, pipes: Pipes, ch: Channel, told: Option<Reason>)

  /** `runc` has started the goroutines; without a log directory the collectors leave at once. */
  function Init(logs: bool, watched: bool): Sys {
    var col := Collector(if logs then Receiving else ColLeaving, []);
    Sys(logs, Launching, Scanning, ScanningErr, col, col, if watched then Watching else WatchLeaving, 5,
        Reasons(FRESH, []), Pipes(false, true, true, [], 0, false, true, true), Channel([], false, [], [], [], []), None)
  }

  // --------------------------------------------------------------------- actions

  datatype ChildAction = Print(effect: Effect) | PrintErr | Exit

  datatype MainAction = Launch | LaunchFails(why: Reason) | Reap(exit: Option<Reason>) | Report | ReportDone
    | CloseOut | CloseErr | Join

  datatype OutAction = ReadLine | GiveUp | SeeEof | ClosePipe | CollectLast(m: Option<Match>) | CloseMatches
    | OutReport | OutLeave

  datatype ErrAction = ReadErr | GiveUpErr | SeeErrEof | CloseErrPipe | ErrReport | ErrLeave

  datatype ColAction = Receive | Write(fails: bool) | SeeClosed | ColReport | ColLeave

  datatype WatchAction = Raise(reason: Reason) | SeeDone | WatchReport | WatchLeave

  /** A watcher's tick without a verdict changes nothing and is a `Stutter`. */
  datatype Action =
    | Stutter
    | ChildDoes(child: ChildAction)
    | MainDoes(main: MainAction)
    | OutDoes(out: OutAction)
    | ErrDoes(err: ErrAction)
    | ColDoes(second: bool, col: ColAction)
    | WatchDoes(watch: WatchAction)

  function Called(r: Reasons, reason: Reason): Reasons {
    Reasons(CancelSpec(r.cancel, reason), r.calls + [reason])
  }

  /** The non-blocking send; without a log directory no match is ever followed. */
  function Offer(logs: bool, c: Channel, m: Option<Match>): Channel {
    if m.None? || !logs then c
    else if |c.queue| < QUEUE_CAP then
      c.(offered := c.offered + [m.value], queue := c.queue + [m.value], sent := c.sent + [m.value])
    else c.(offered := c.offered + [m.value], dropped := c.dropped + [m.value])
  }

  // ----------------------------------------------------------- one actor at a time

  predicate ChildMay(s: Sys, a: ChildAction) {
    s.pipes.alive
  }

  function ChildNext(s: Sys, a: ChildAction): Sys
    requires ChildMay(s, a)
  {
    match a
    case Print(effect) => s.(pipes := s.pipes.(outLines := s.pipes.outLines + [effect]))
    case PrintErr => s.(pipes := s.pipes.(errLines := s.pipes.errLines + 1))
    case Exit => s.(pipes := s.pipes.(alive := false))
  }

  predicate MainMay(s: Sys, a: MainAction) {
    match a
    case Launch => s.main.Launching?
    case LaunchFails(why) => s.main.Launching? && why != Done
    case Reap(exit) => s.main.Waiting? && !s.pipes.alive && exit != Some(Done)
    case Report => s.main.Reporting?
    case ReportDone => s.main.ReportingDone?
    case CloseOut => s.main.ClosingOut?
    case CloseErr => s.main.ClosingErr?
    case Join => s.main.Joining? && s.wg == 0
  }

  function MainNext(s: Sys, a: MainAction): Sys
    requires MainMay(s, a)
  {
    match a
    case Launch =>
      s.(main := Waiting, pipes := s.pipes.(alive := true),
         reasons := s.reasons.(cancel := s.reasons.cancel.(child := Running)))
    case LaunchFails(why) => s.(main := Reporting(Some(why)))
    case Reap(exit) =>
      s.(main := Reporting(exit), reasons := s.reasons.(cancel := s.reasons.cancel.(child := Reaped)))
    case Report =>
      if s.main.exit.None? then s.(main := ReportingDone, told := s.reasons.cancel.reason)
      else
        var r := Called(s.reasons, s.main.exit.value);
        s.(main := ReportingDone, reasons := r, told := Told(r.cancel.reason))
    case ReportDone => s.(main := ClosingOut, reasons := Called(s.reasons, Done))
    case CloseOut => s.(main := ClosingErr, pipes := s.pipes.(outOpen := false))
    case CloseErr => s.(main := Joining, pipes := s.pipes.(errOpen := false))
    case Join => s.(main := Returned)
  }

  /** All write ends are closed and everything written was read. */
  predicate OutEof(p: Pipes) {
    p.outLines == [] && !p.alive && !p.outOpen
  }

  predicate ErrEof(p: Pipes) {
    p.errLines == 0 && !p.alive && !p.errOpen
  }

  predicate OutMay(s: Sys, a: OutAction) {
    match a
    case ReadLine => s.out.Scanning? && s.pipes.outLines != []
    case GiveUp => s.out.Scanning? && s.pipes.outLines != []
    case SeeEof => s.out.Scanning? && OutEof(s.pipes)
    case ClosePipe => s.out.ClosingPipe?
    case CollectLast(_) => s.out.CollectingLast?
    case CloseMatches => s.out.ClosingMatches?
    case OutReport => s.out.OutReporting?
    case OutLeave => s.out.OutLeaving?
  }

  /** A line never reports Done. */
  function OutNext(s: Sys, a: OutAction): Sys
    requires OutMay(s, a)
  {
    match a
    case ReadLine =>
      var e := s.pipes.outLines[0];
      s.(pipes := s.pipes.(outLines := s.pipes.outLines[1..]),
         ch := Offer(s.logs, s.ch, e.offer),
         reasons := if e.reason.Some? && e.reason != Some(Done) then Called(s.reasons, e.reason.value) else s.reasons)
    case GiveUp => s.(out := ClosingPipe, pipes := s.pipes.(gaveUp := true))
    case SeeEof => s.(out := ClosingPipe)
    case ClosePipe => s.(out := CollectingLast, pipes := s.pipes.(outRead := false))
    case CollectLast(m) => s.(out := ClosingMatches, ch := Offer(s.logs, s.ch, m))
    case CloseMatches => s.(out := OutReporting, ch := s.ch.(closed := true))
    case OutReport => s.(out := OutLeaving, reasons := Called(s.reasons, Done))
    case OutLeave => s.(out := OutGone, wg := s.wg - 1)
  }

  predicate ErrMay(s: Sys, a: ErrAction) {
    match a
    case ReadErr => s.err.ScanningErr? && s.pipes.errLines > 0
    case GiveUpErr => s.err.ScanningErr? && s.pipes.errLines > 0
    case SeeErrEof => s.err.ScanningErr? && ErrEof(s.pipes)
    case CloseErrPipe => s.err.ClosingErrPipe?
    case ErrReport => s.err.ErrReporting?
    case ErrLeave => s.err.ErrLeaving?
  }

  function ErrNext(s: Sys, a: ErrAction): Sys
    requires ErrMay(s, a)
  {
    match a
    case ReadErr => s.(pipes := s.pipes.(errLines := s.pipes.errLines - 1))
    case GiveUpErr => s.(err := ClosingErrPipe, pipes := s.pipes.(gaveUp := true))
    case SeeErrEof => s.(err := ClosingErrPipe)
    case CloseErrPipe => s.(err := ErrReporting, pipes := s.pipes.(errRead := false))
    case ErrReport => s.(err := ErrLeaving, reasons := Called(s.reasons, Done))
    case ErrLeave => s.(err := ErrGone, wg := s.wg - 1)
  }

  function Col(s: Sys, second: bool): Collector {
    if second then s.col1 else s.col0
  }

  function SetCol(s: Sys, second: bool, c: Collector): Sys {
    if second then s.(col1 := c) else s.(col0 := c)
  }

  predicate ColMay(s: Sys, second: bool, a: ColAction) {
    var at := Col(s, second).at;
    match a
    case Receive => at.Receiving? && s.ch.queue != []
    case Write(_) => at.Writing?
    case SeeClosed => at.Receiving? && s.ch.queue == [] && s.ch.closed
    case ColReport => at.ColReporting?
    case ColLeave => at.ColLeaving?
  }

  /** Either file of a match may fail to be written, which is reported and does not end the loop. */
  function ColNext(s: Sys, second: bool, a: ColAction): Sys
    requires ColMay(s, second, a)
  {
    var c := Col(s, second);
    match a
    case Receive =>
      var m := s.ch.queue[0];
      SetCol(s.(ch := s.ch.(queue := s.ch.queue[1..], taken := s.ch.taken + [m])), second, c.(at := Writing(m)))
    case Write(fails) =>
      SetCol(s.(reasons := if fails then Called(s.reasons, Bad) else s.reasons), second,
             Collector(Receiving, c.finished + [c.at.m]))
    case SeeClosed => SetCol(s, second, c.(at := ColReporting))
    case ColReport => SetCol(s.(reasons := Called(s.reasons, Done)), second, c.(at := ColLeaving))
    case ColLeave => SetCol(s.(wg := s.wg - 1), second, c.(at := ColGone))
  }

  predicate WatchMay(s: Sys, a: WatchAction) {
    match a
    case Raise(reason) => s.watch.Watching? && reason != Done
    case SeeDone => s.watch.Watching? && s.reasons.cancel.done == Closed
    case WatchReport => s.watch.WatchReporting?
    case WatchLeave => s.watch.WatchLeaving?
  }

  function WatchNext(s: Sys, a: WatchAction): Sys
    requires WatchMay(s, a)
  {
    match a
    case Raise(reason) => s.(watch := WatchReporting, reasons := Called(s.reasons, reason))
    case SeeDone => s.(watch := WatchReporting)
    case WatchReport => s.(watch := WatchLeaving, reasons := Called(s.reasons, Done))
    case WatchLeave => s.(watch := WatchGone, wg := s.wg - 1)
  }

  predicate May(s: Sys, a: Action) {
    match a
    case Stutter => true
    case ChildDoes(x) => ChildMay(s, x)
    case MainDoes(x) => MainMay(s, x)
    case OutDoes(x) => OutMay(s, x)
    case ErrDoes(x) => ErrMay(s, x)
    case ColDoes(second, x) => ColMay(s, second, x)
    case WatchDoes(x) => WatchMay(s, x)
  }

  function Next(s: Sys, a: Action): Sys
    requires May(s, a)
  {
    match a
    case Stutter => s
    case ChildDoes(x) => ChildNext(s, x)
    case MainDoes(x) => MainNext(s, x)
    case OutDoes(x) => OutNext(s, x)
    case ErrDoes(x) => ErrNext(s, x)
    case ColDoes(second, x) => ColNext(s, second, x)
    case WatchDoes(x) => WatchNext(s, x)
  }
}
