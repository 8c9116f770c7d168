/** Which calls of Cancel a run makes, and that the lobby's reason is always the first cause among them. */
module Calls {
  import opened Cancel
  import opened Causes
  import opened Decimal
  import opened Effects
  import opened Players
  import opened Runs
  import opened Scan
  import opened Stat
  import opened Watcher
  import opened Wrappers

  /** The calls that a move makes, in their order: the reason that matters of a line, a tick's and the watcher's Done, a report. */
  ghost function CallsAt(cfg: Config, o: Limits, s: System, move: Move): seq<Reason> {
    match move
    case Read(line, env) =>
      var reason := EffectOf(cfg, s.lobby, line, env).reason;
      if reason.Some? then [reason.value] else []
    case EndOfOutput(_) => [Done]
    case TakeOne => []
    case Look(_, _, _) =>
      var v := Raises(o, cfg.start, s.lastup, SeenBy(s, move));
      if s.watching && v.reason.Some? then [v.reason.value, Done] else []
    case FindDone => if s.watching && s.lobby.cancel.reason.Some? then [Done] else []
    case Report(reason) => if reason in {Done, Bad} || reason.Exit? then [reason] else []
  }

  ghost function AllCalls(cfg: Config, o: Limits, files: Dir, moves: seq<Move>): seq<Reason> {
    if moves == [] then []
    else
      var init := moves[..|moves| - 1];
      AllCalls(cfg, o, files, init) + CallsAt(cfg, o, Run(cfg, o, files, init), moves[|moves| - 1])
  }

  lemma AfterMore(s: State, calls: seq<Reason>, a: Reason, b: Reason)
    ensures After(s, calls + [a]) == CancelSpec(After(s, calls), a)
    ensures After(s, calls + [a, b]) == CancelSpec(CancelSpec(After(s, calls), a), b)
    ensures After(s, calls + []) == After(s, calls)
  {
    assert (calls + [a])[..|calls|] == calls;
    assert (calls + [a, b])[..|calls| + 1] == calls + [a];
    assert calls + [] == calls;
  }

  ghost predicate Made(c: State, d: State, calls: seq<Reason>) {
    d == match |calls|
         case 0 => c
         case 1 => CancelSpec(c, calls[0])
         case _ => CancelSpec(CancelSpec(c, calls[0]), calls[1])
  }

  /** A move does to the reason what its calls do, and leaves its lobby without a followed match if nothing is logged. */
  lemma MoveCalls(cfg: Config, o: Limits, s: System, move: Move)
    requires Unfollowed(cfg, s.lobby.book) && s.lobby.cancel.Coherent() && s.lobby.cancel.done != Absent
    ensures Made(s.lobby.cancel, Next(cfg, o, s, move).lobby.cancel, CallsAt(cfg, o, s, move))
    ensures Unfollowed(cfg, Next(cfg, o, s, move).lobby.book)
  {
    match move
    case Read(line, env) => LineIsEffect(cfg, s.lobby, line, env);
    case EndOfOutput(now) => FinishIsEffect(cfg, s.lobby, now);
    case _ =>
  }

  /** The lobby's reason and all that goes with it is what the run's calls make of them. */
  lemma {:induction false} RunCalls(cfg: Config, o: Limits, files: Dir, moves: seq<Move>)
    ensures Run(cfg, o, files, moves).lobby.cancel == After(FRESH, AllCalls(cfg, o, files, moves))
    ensures Unfollowed(cfg, Run(cfg, o, files, moves).lobby.book)
  {
    if moves == [] {
    } else {
      var init, last := moves[..|moves| - 1], moves[|moves| - 1];
      var s, before := Run(cfg, o, files, init), AllCalls(cfg, o, files, init);
      RunCalls(cfg, o, files, init);
      RunSound(cfg, o, files, init);
      MoveCalls(cfg, o, s, last);
      CallsMade(before, CallsAt(cfg, o, s, last), s.lobby.cancel, Next(cfg, o, s, last).lobby.cancel);
    }
  }

  lemma CallsMade(before: seq<Reason>, calls: seq<Reason>, c: State, d: State)
    requires c == After(FRESH, before) && Made(c, d, calls) && |calls| <= 2
    ensures d == After(FRESH, before + calls)
  {
    if |calls| == 0 {
      AfterMore(FRESH, before, Done, Done);
      assert calls == [];
    } else if |calls| == 1 {
      AfterMore(FRESH, before, calls[0], Done);
      assert calls == [calls[0]];
    } else {
      AfterMore(FRESH, before, calls[0], calls[1]);
      assert calls == [calls[0], calls[1]];
    }
  }

  /** So it is the first cause that was called, Done if all calls were Done, and none if there were none. */
  lemma RunKeepsFirstCause(cfg: Config, o: Limits, files: Dir, moves: seq<Move>)
    ensures var reason, calls := Run(cfg, o, files, moves).lobby.cancel.reason, AllCalls(cfg, o, files, moves);
            reason == if FirstCause(calls).Some? then FirstCause(calls) else if calls == [] then None else Some(Done)
  {
    RunCalls(cfg, o, files, moves);
    CallsKeepFirstCause(AllCalls(cfg, o, files, moves));
  }

  /** The watcher stays until a tick of its own raises something or it finds `done` closed, and there is none if both timeouts are off. */
  lemma WatchingIff(cfg: Config, o: Limits, files: Dir, s: System, move: Move)
    requires s.lobby.cancel.Coherent() && s.lobby.cancel.done != Absent
    ensures Run(cfg, o, files, []).watching <==> o.timeout > 0 || o.adminTimeout > 0
    ensures Next(cfg, o, s, move).watching
            <==> s.watching && !(move.FindDone? && s.lobby.cancel.reason.Some?)
                 && !(move.Look? && Raises(o, cfg.start, s.lastup, SeenBy(s, move)).reason.Some?)
  {
  }

  /** What each line calls: a lost session, an id that nobody can have, or a lobby that is left and must not go on. */
  lemma LinesCall(cfg: Config, s: LobbyState, line: Line, env: Env)
    requires s.players.Consistent()
    ensures var reason := EffectOf(cfg, s, line, env).reason;
            match line
            case Disconnect => reason == Some(Disconnected)
            case Register(sid) => reason == if sid != "" && ParseInt(sid) < 1 then Some(Bug) else None
            case Unregister(sid) =>
              var id := ParseInt(sid);
              var bot, human := id in s.players.bots, id in s.players.humans;
              reason == (if sid == "" then None
                         else if |s.players.humans| == (if human then 1 else 0)
                           then LeavingReason(cfg, s.changed, bot, bot || human, env.spec)
                         else if bot || human then None
                         else Some(Bug))
            case _ => reason == None
  {
    match line
    case Register(sid) => SetAnswers(s.players, sid, "", "");
    case Unregister(sid) =>
      RemoveAnswers(s.players, sid);
      HumansMoveByOne(s.players, sid, "", "");
    case _ =>
  }
}
