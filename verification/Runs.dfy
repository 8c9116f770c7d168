/**
 Whole runs of a lobby: any interleaving of output lines, collectors taking matches,
 the watcher's ticks and its end, and what the other goroutines report. A line and a
 tick are each one step.
 */
module Runs {
  import opened Cancel
  import opened GoTime
  import opened Players
  import opened Scan
  import opened Spec
  import opened Stat
  import opened Watcher

  datatype Move =
    | Read(line: Line, env: Env)
    | EndOfOutput(now: Time)
    | TakeOne
    | Look(now: Time, clock: Time, spec: Spec)   // a watcher's tick
    | FindDone                                   // the watcher's select comes back with the closed `done`
    | Report(reason: Reason)                     // another goroutine's call of Cancel

  datatype System = System(lobby: LobbyState, lastup: Time, watching: bool)

  /** What the other goroutines report: that they are done, a file not written, the child's exit. */
  predicate Reportable(reason: Reason) {
    reason.Done? || reason.Bad? || reason.Exit?
  }

  function SeenBy(s: System, move: Move): Seen
    requires move.Look?
  {
    var m := s.lobby.book.m;
    Seen(move.now, move.clock, m.stamp, m.id, |s.lobby.players.humans|, move.spec)
  }

  function Ticked(cfg: Config, o: Limits, s: System, x: Seen): System {
    var v := Raises(o, cfg.start, s.lastup, x);
    var c := s.lobby.cancel;
    System(s.lobby.(cancel := if v.reason.Some? then CancelSpec(CancelSpec(c, v.reason.value), Done) else c),
           LastUp(s.lastup, x), v.reason.None?)
  }

  ghost function Next(cfg: Config, o: Limits, s: System, move: Move): System {
    match move
    case Read(line, env) => s.(lobby := Step(cfg, s.lobby, line, env))
    case EndOfOutput(now) => s.(lobby := Finished(cfg, s.lobby, now))
    case TakeOne => s.(lobby := Taken(s.lobby))
    case Look(_, _, _) => if s.watching then Ticked(cfg, o, s, SeenBy(s, move)) else s
    case FindDone =>
      if s.watching && s.lobby.cancel.done == Closed then
        System(s.lobby.(cancel := CancelSpec(s.lobby.cancel, Done)), s.lastup, false)
      else s
    case Report(reason) =>
      if Reportable(reason) then s.(lobby := s.lobby.(cancel := CancelSpec(s.lobby.cancel, reason))) else s
  }

  /** The watcher's first reading is the start, which is what the lobby holds before any line. */
  ghost function Run(cfg: Config, o: Limits, files: Dir, moves: seq<Move>): System {
    if moves == [] then
      System(Start(cfg, if cfg.stats then Cleared(files) else files), cfg.start, !Idle(o))
    else
      Next(cfg, o, Run(cfg, o, files, moves[..|moves| - 1]), moves[|moves| - 1])
  }

  // ------------------------------------------------------------- registry, queue

  /** The registry after a move depends on the register and unregister lines alone. */
  ghost function Admitted(r: Registry, move: Move): Registry {
    match move
    case Read(Register(sid), _) => if sid == "" then r else SetSpec(r, sid, "", "").0
    case Read(Unregister(sid), _) => if sid == "" then r else RemoveSpec(r, sid).0
    case _ => r
  }

  ghost function RegistryAfter(moves: seq<Move>): Registry {
    if moves == [] then EMPTY else Admitted(RegistryAfter(moves[..|moves| - 1]), moves[|moves| - 1])
  }

  /** What holds between any two steps. */
  ghost predicate Sound(s: LobbyState) {
    && s.players.Consistent()
    && Queued(s.book)
    && s.cancel.Coherent() && s.cancel.done != Absent
  }

  lemma StepPlayers(cfg: Config, s: LobbyState, line: Line, env: Env)
    requires s.players.Consistent()
    ensures var t := Step(cfg, s, line, env);
            t.players == Admitted(s.players, Read(line, env)) && t.players.Consistent()
  {
    match line
    case Register(sid) => AppliedConsistent(s.players, Update(sid, "", ""));
    case Unregister(sid) => AppliedConsistent(s.players, Remove(sid));
    case _ =>
  }

  lemma StepCancel(cfg: Config, s: LobbyState, line: Line, env: Env)
    requires s.cancel.Coherent() && s.cancel.done != Absent
    ensures var t := Step(cfg, s, line, env); t.cancel.Coherent() && t.cancel.done != Absent
  {
  }

  lemma NextSound(cfg: Config, o: Limits, s: System, move: Move)
    requires Sound(s.lobby)
    ensures Sound(Next(cfg, o, s, move).lobby)
    ensures Next(cfg, o, s, move).lobby.players == Admitted(s.lobby.players, move)
  {
    match move
    case Read(line, env) =>
      StepPlayers(cfg, s.lobby, line, env);
      StepQueued(cfg, s.lobby, line, env);
      StepCancel(cfg, s.lobby, line, env);
    case EndOfOutput(now) => CollectedQueued(s.lobby.book, now);
    case TakeOne =>
    case Look(_, _, _) =>
    case FindDone =>
    case Report(_) =>
  }

  /** Every run keeps the registry consistent, the queue in order and within ten, and `done` in step with the reason. */
  lemma {:induction false} RunSound(cfg: Config, o: Limits, files: Dir, moves: seq<Move>)
    ensures Sound(Run(cfg, o, files, moves).lobby)
    ensures Run(cfg, o, files, moves).lobby.players == RegistryAfter(moves)
  {
    if moves == [] {
    } else {
      var init := moves[..|moves| - 1];
      RunSound(cfg, o, files, init);
      NextSound(cfg, o, Run(cfg, o, files, init), moves[|moves| - 1]);
    }
  }
}
