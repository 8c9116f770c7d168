/**
 Why and when a lobby ends, over every interleaving of output lines and watcher
 ticks, and what the time in the lobby's match is at every moment.
 */
module Causes {
  import opened Cancel
  import opened Decimal
  import opened GoTime
  import opened Players
  import opened Runs
  import opened Scan
  import opened Spec
  import opened Stat
  import opened Watcher
  import opened Wrappers

  // -------------------------------------------------------------- the match's time

  /** Whether a step calls `collect`. */
  ghost predicate Collects(cfg: Config, s: LobbyState, move: Move) {
    match move
    case Read(MatchUpdate(m), _) => cfg.logs && m.id != s.book.m.id
    case Read(UploadComplete, _) => true
    case Read(Register(sid), _) => sid != "" && |SetSpec(s.players, sid, "", "").0.humans| == 1
    case Read(Unregister(sid), _) =>
      var left := RemoveSpec(s.players, sid);
      sid != "" && (|left.0.humans| == 0 || (left.1.admin && s.book.m.id == ""))
    case EndOfOutput(_) => true
    case _ => false
  }

  function ClockOf(move: Move): Option<Time> {
    match move
    case Read(_, env) => Some(env.now)
    case EndOfOutput(now) => Some(now)
    case _ => None
  }

  /** The clock at the latest call of `collect`, or the start. */
  ghost function LastFlush(cfg: Config, o: Limits, files: Dir, moves: seq<Move>): Time {
    if moves == [] then cfg.start
    else
      var init, last := moves[..|moves| - 1], moves[|moves| - 1];
      if Collects(cfg, Run(cfg, o, files, init).lobby, last) then ClockOf(last).value
      else LastFlush(cfg, o, files, init)
  }

  /** The time that the match carries, given the latest flush. */
  ghost predicate Dated(cfg: Config, m: Match, flush: Time) {
    m.stamp == match StampOf(cfg, m.id) case Some(t) => t case None => flush
  }

  lemma NamelessIsDatedByFlush(cfg: Config, m: Match, flush: Time)
    requires Dated(cfg, m, flush) && m.id == ""
    ensures m.stamp == flush
  {
    assert StampOf(cfg, "").None?;
  }

  lemma CollectedDated(cfg: Config, b: Book, now: Time)
    ensures Dated(cfg, Collected(b, now).m, now)
    ensures Collected(b, now).m.id == ""
  {
    assert StampOf(cfg, "").None?;
  }

  lemma UpdatedDated(cfg: Config, b: Book, m: Match, now: Time, flush: Time)
    requires Dated(cfg, b.m, flush)
    ensures Dated(cfg, UpdatedBook(cfg, b, m, now).m, if m.id != b.m.id then now else flush)
  {
  }

  lemma UnregisteredDated(cfg: Config, b: Book, led: bool, n: nat, now: Time, flush: Time)
    requires Dated(cfg, b.m, flush)
    ensures Dated(cfg, UnregisteredBook(b, led, n, now).m,
                  if n == 0 || (led && b.m.id == "") then now else flush)
  {
    CollectedDated(cfg, b, now);
    CollectedDated(cfg, Collected(b, now), now);
  }

  lemma ReadDated(cfg: Config, s: LobbyState, line: Line, env: Env, flush: Time)
    requires Dated(cfg, s.book.m, flush)
    ensures Dated(cfg, Step(cfg, s, line, env).book.m,
                  if Collects(cfg, s, Read(line, env)) then env.now else flush)
  {
    match line
    case MatchUpdate(m) => UpdatedDated(cfg, s.book, m, env.now, flush);
    case UploadComplete => CollectedDated(cfg, s.book, env.now);
    case Register(sid) => CollectedDated(cfg, s.book, env.now);
    case Unregister(sid) =>
      var left := RemoveSpec(s.players, sid);
      UnregisteredDated(cfg, s.book, left.1.admin, |left.0.humans|, env.now, flush);
    case _ =>
  }

  lemma NextDated(cfg: Config, o: Limits, s: System, move: Move, flush: Time)
    requires Dated(cfg, s.lobby.book.m, flush)
    ensures Dated(cfg, Next(cfg, o, s, move).lobby.book.m,
                  if Collects(cfg, s.lobby, move) then ClockOf(move).value else flush)
  {
    match move
    case Read(line, env) => ReadDated(cfg, s.lobby, line, env, flush);
    case EndOfOutput(now) => CollectedDated(cfg, s.lobby.book, now);
    case _ =>
  }

  /**
   At every moment of a run: with an id whose end can be read as a time the match
   carries that time, whenever it arrived; otherwise, and without an id, it carries
   the clock of the latest flush.
   */
  lemma {:induction false} RunDated(cfg: Config, o: Limits, files: Dir, moves: seq<Move>)
    ensures Dated(cfg, Run(cfg, o, files, moves).lobby.book.m, LastFlush(cfg, o, files, moves))
  {
    if moves == [] {
      assert StampOf(cfg, "").None?;
    } else {
      var init := moves[..|moves| - 1];
      RunDated(cfg, o, files, init);
      NextDated(cfg, o, Run(cfg, o, files, init), moves[|moves| - 1], LastFlush(cfg, o, files, init));
    }
  }

  /** The clock never goes back, from the start on. */
  ghost predicate Forward(start: Time, moves: seq<Move>) {
    forall j :: 0 <= j < |moves| && ClockOf(moves[j]).Some? ==>
                  && start <= ClockOf(moves[j]).value
                  && forall i :: 0 <= i < j && ClockOf(moves[i]).Some? ==>
                                   ClockOf(moves[i]).value <= ClockOf(moves[j]).value
  }

  lemma {:induction false} FlushIsPast(cfg: Config, o: Limits, files: Dir, moves: seq<Move>, now: Time)
    requires cfg.start <= now
    requires forall i :: 0 <= i < |moves| && ClockOf(moves[i]).Some? ==> ClockOf(moves[i]).value <= now
    ensures LastFlush(cfg, o, files, moves) <= now
  {
    if moves == [] {
    } else {
      FlushIsPast(cfg, o, files, moves[..|moves| - 1], now);
    }
  }

  /** The time that an idle lobby shows never goes back. */
  lemma {:induction false} FlushForward(cfg: Config, o: Limits, files: Dir, moves: seq<Move>, k: nat)
    requires Forward(cfg.start, moves) && k <= |moves|
    ensures LastFlush(cfg, o, files, moves[..k]) <= LastFlush(cfg, o, files, moves)
    decreases |moves|
  {
    if k == |moves| {
      assert moves[..k] == moves;
    } else {
      var init, last := moves[..|moves| - 1], moves[|moves| - 1];
      FlushForward(cfg, o, files, init, k);
      assert init[..k] == moves[..k];
      if ClockOf(last).Some? { FlushIsPast(cfg, o, files, moves[..k], ClockOf(last).value); }
    }
  }

  // ------------------------------------------------------------------- verdicts

  /** The reasons for which a lobby is ended on purpose. */
  predicate Deliberate(r: Reason) {
    r in {Downed, Stopped, Restarted, IdleTimeout, Timeout, AdminTimeout}
  }

  /** What a step decides about the lobby's end, if anything. */
  ghost function VerdictAt(cfg: Config, o: Limits, s: System, move: Move): Verdict {
    match move
    case Look(_, _, _) =>
      if s.watching then Raises(o, cfg.start, s.lastup, SeenBy(s, move)) else Verdict(false, None)
    case Read(Unregister(sid), env) =>
      var left := RemoveSpec(s.lobby.players, sid);
      if sid != "" && |left.0.humans| == 0 && !Stays(cfg, s.lobby.changed || IsBot(left.1.id))
      then LastLeft(cfg, env.spec) else Verdict(false, None)
    case _ => Verdict(false, None)
  }

  lemma VerdictAllowed(cfg: Config, o: Limits, s: System, move: Move)
    ensures var t := Next(cfg, o, s, move).lobby;
            Allowed(VerdictAt(cfg, o, s, move), |t.players.humans|, t.book.m.id)
  {
    match move
    case Look(_, _, _) =>
      RaisesOnlyWhenAllowed(o, cfg.start, s.lastup, SeenBy(s, move));
    case Read(Unregister(sid), env) =>
      var left := RemoveSpec(s.lobby.players, sid);
      CollectedDated(cfg, s.lobby.book, env.now);
      CollectedDated(cfg, Collected(s.lobby.book, env.now), env.now);
    case _ =>
  }

  /** A call stores its own reason or none. */
  lemma StoredIsCalled(c: State, reason: Reason)
    ensures CancelSpec(c, reason).reason in {c.reason, Some(reason)}
  {
  }

  lemma UnregisterVerdict(cfg: Config, o: Limits, s: System, sid: string, env: Env, r: Reason)
    requires Deliberate(r) && sid != ""
    requires s.lobby.cancel.reason != Some(r) && Unregistered(cfg, s.lobby, sid, env).cancel.reason == Some(r)
    ensures VerdictAt(cfg, o, s, Read(Unregister(sid), env)).reason == Some(r)
  {
    var left := RemoveSpec(s.lobby.players, sid);
    var n := |left.0.humans|;
    var stays := Stays(cfg, s.lobby.changed || IsBot(left.1.id));
    var c := DepartedCancel(cfg, s.lobby.cancel, n, stays, env.spec);
    StoredIsCalled(c, Bug);
    StoredIsCalled(s.lobby.cancel, LastLeft(cfg, env.spec).reason.value);
  }

  /** A deliberate reason only ever comes from a verdict. */
  lemma NewReasonIsVerdict(cfg: Config, o: Limits, s: System, move: Move, r: Reason)
    requires Deliberate(r)
    requires s.lobby.cancel.reason != Some(r) && Next(cfg, o, s, move).lobby.cancel.reason == Some(r)
    ensures VerdictAt(cfg, o, s, move).reason == Some(r)
  {
    var c := s.lobby.cancel;
    StoredIsCalled(c, Bug);
    StoredIsCalled(c, Disconnected);
    StoredIsCalled(c, Done);
    match move
    case Read(Unregister(sid), env) => if sid != "" { UnregisterVerdict(cfg, o, s, sid, env, r); }
    case Look(_, _, _) =>
      var v := Raises(o, cfg.start, s.lastup, SeenBy(s, move));
      if v.reason.Some? {
        StoredIsCalled(c, v.reason.value);
        StoredIsCalled(CancelSpec(c, v.reason.value), Done);
      }
    case _ =>
  }

  /** In step `k` the reason was raised, and nobody was there who must not be sent away by it. */
  ghost predicate RaisedAt(cfg: Config, o: Limits, files: Dir, moves: seq<Move>, k: nat, r: Reason)
    requires k < |moves|
  {
    var s := Run(cfg, o, files, moves[..k]);
    var v := VerdictAt(cfg, o, s, moves[k]);
    var t := Next(cfg, o, s, moves[k]).lobby;
    v.reason == Some(r) && Allowed(v, |t.players.humans|, t.book.m.id)
  }

  /**
   Whenever a run ends for a deliberate reason, some step raised it in a state in
   which it was allowed: unforced ends and timeouts only with no human joined and no
   match in progress, forced ones also with humans, a forced down also in a match.
   */
  lemma {:induction false} EveryEndWasAllowed(cfg: Config, o: Limits, files: Dir, moves: seq<Move>, r: Reason)
    requires Deliberate(r) && Run(cfg, o, files, moves).lobby.cancel.reason == Some(r)
    ensures exists k: nat :: k < |moves| && RaisedAt(cfg, o, files, moves, k, r)
  {
    var n := |moves| - 1;
    var init, last := moves[..n], moves[n];
    var s := Run(cfg, o, files, init);
    if s.lobby.cancel.reason == Some(r) {
      EveryEndWasAllowed(cfg, o, files, init, r);
      var k: nat :| k < |init| && RaisedAt(cfg, o, files, init, k, r);
      assert init[..k] == moves[..k];
      assert RaisedAt(cfg, o, files, moves, k, r);
    } else {
      NewReasonIsVerdict(cfg, o, s, last, r);
      VerdictAllowed(cfg, o, s, last);
      assert RaisedAt(cfg, o, files, moves, n, r);
    }
  }

  /** The reason that an unregister line stores which leaves no human, be it of a human, a bot or nobody. */
  function LeavingReason(cfg: Config, changed: bool, bot: bool, known: bool, spec: Spec): Option<Reason> {
    if (changed || bot) && cfg.maxFails != 0 then LastLeft(cfg, spec).reason
    else if !known then Some(Bug)
    else None
  }

  /**
   An unregister line after which nobody is left. The lobby then ends exactly if
   something was changed in it, a bot's leaving included, and restarts are on, for the
   reason the desired status gives or else as idle; if it goes on, it says that it is
   idle, and an unknown id ends it all the same.
   */
  lemma NobodyLeft(cfg: Config, s: LobbyState, sid: string, env: Env)
    requires s.players.Consistent() && sid != "" && |RemoveSpec(s.players, sid).0.humans| == 0
    requires s.cancel.reason.None?
    ensures var t, id := Unregistered(cfg, s, sid, env), ParseInt(sid);
            var bot, human := id in s.players.bots, id in s.players.humans;
            && t.book.m.id == ""
            && t.cancel.reason == LeavingReason(cfg, s.changed, bot, bot || human, env.spec)
            && (cfg.stats && (!(s.changed || bot) || cfg.maxFails == 0) ==> Content(t.files, "idle") == Some(At(env.now)))
  {
    var left := RemoveSpec(s.players, sid);
    AnswerTells(s.players, sid);
    EmptyStops(cfg, s.cancel, left.1.id, s.changed, env.spec);
    CollectedDated(cfg, s.book, env.now);
    if cfg.stats { EmptySaysIdle(cfg, s.files, s.book, left.1.id, env.now); }
  }

  /** Whose line it was can be told from the answer. */
  lemma AnswerTells(r: Registry, sid: string)
    requires r.Consistent()
    ensures var a := RemoveSpec(r, sid).1;
            && (IsBot(a.id) <==> ParseInt(sid) in r.bots)
            && (a.id != -1 <==> ParseInt(sid) in r.bots || ParseInt(sid) in r.humans)
  {
  }

  lemma EmptyStops(cfg: Config, c: State, id: int, changed: bool, spec: Spec)
    requires c.reason.None?
    ensures var stays := Stays(cfg, changed || IsBot(id));
            RejectedCancel(DepartedCancel(cfg, c, 0, stays, spec), id).reason
            == LeavingReason(cfg, changed, IsBot(id), id != -1, spec)
  {
    assert LastLeft(cfg, spec).reason != Some(Done);
  }

  lemma EmptySaysIdle(cfg: Config, d: Dir, b: Book, id: int, now: Time)
    requires cfg.stats
    ensures Content(DepartedFiles(cfg, CountFiles(cfg, d, id, 0), b, 0, true, now), "idle") == Some(At(now))
  {
    LobbyNames();
    PlainNames(CollectedFiles(cfg, Del(cfg, CountFiles(cfg, d, id, 0), "players"), b), "idle", At(now), "idle");
  }

  /** The last human leaves: the case of it that the lobby is made for. */
  lemma LastHumanLeaves(cfg: Config, s: LobbyState, sid: string, env: Env)
    requires s.players.Consistent() && sid != ""
    requires |s.players.humans| == 1 && ParseInt(sid) in s.players.humans
    requires s.cancel.reason.None?
    ensures var t := Unregistered(cfg, s, sid, env);
            && |t.players.humans| == 0 && t.book.m.id == ""
            && (t.cancel.reason.Some? <==> s.changed && cfg.maxFails != 0)
            && (t.cancel.reason.Some? ==> t.cancel.reason == LastLeft(cfg, env.spec).reason)
            && (t.cancel.reason.None? && cfg.stats ==> Content(t.files, "idle") == Some(At(env.now)))
  {
    HumansMoveByOne(s.players, sid, "", "");
    NobodyLeft(cfg, s, sid, env);
  }

  // --------------------------------------------------------------------- timing

  predicate WantedUp(move: Move) {
    move.Look? && (move.spec.up != ZERO_TIME || move.spec.peerFull != ZERO_TIME)
  }

  /** The last tick that saw the lobby wanted up or its peer full, or the start. */
  function LastWanted(start: Time, moves: seq<Move>): Time {
    if moves == [] then start
    else if WantedUp(moves[|moves| - 1]) then moves[|moves| - 1].now
    else LastWanted(start, moves[..|moves| - 1])
  }

  lemma {:induction false} LastUpIsLastWanted(cfg: Config, o: Limits, files: Dir, moves: seq<Move>)
    requires Run(cfg, o, files, moves).watching
    ensures Run(cfg, o, files, moves).lastup == LastWanted(cfg.start, moves)
  {
    if moves == [] {
    } else {
      LastUpIsLastWanted(cfg, o, files, moves[..|moves| - 1]);
    }
  }

  /** The time since the later of the last flush and the last tick that wanted the lobby up. */
  ghost predicate IdleFor(cfg: Config, o: Limits, files: Dir, moves: seq<Move>, look: Move, d: Duration)
    requires look.Look?
  {
    && look.clock - LastFlush(cfg, o, files, moves) > d
    && look.clock - LastWanted(cfg.start, moves + [look]) > d
  }

  lemma IdleForIsLastIdle(cfg: Config, o: Limits, files: Dir, moves: seq<Move>, look: Move, d: Duration)
    requires look.Look?
    requires var s := Run(cfg, o, files, moves); s.watching && s.lobby.book.m.id == ""
    ensures var s := Run(cfg, o, files, moves);
            IdleFor(cfg, o, files, moves, look, d) <==> look.clock - LastIdle(s.lastup, SeenBy(s, look)) > d
  {
    var s := Run(cfg, o, files, moves);
    RunDated(cfg, o, files, moves);
    NamelessIsDatedByFlush(cfg, s.lobby.book.m, LastFlush(cfg, o, files, moves));
    LastUpIsLastWanted(cfg, o, files, moves);
    assert (moves + [look])[..|moves|] == moves;
  }

  ghost predicate TimedOutAt(cfg: Config, o: Limits, files: Dir, moves: seq<Move>, k: nat)
    requires k < |moves|
  {
    moves[k].Look? && IdleFor(cfg, o, files, moves[..k], moves[k], o.timeout - GRAIN / 2)
  }

  /** A run that ends by timeout was idle for the timeout's length, less half a grain at most. */
  lemma TimeoutMeansIdle(cfg: Config, o: Limits, files: Dir, moves: seq<Move>)
    requires IsDuration(o.timeout)
    requires Run(cfg, o, files, moves).lobby.cancel.reason == Some(Timeout)
    ensures exists k: nat :: k < |moves| && TimedOutAt(cfg, o, files, moves, k)
  {
    EveryEndWasAllowed(cfg, o, files, moves, Timeout);
    var k: nat :| k < |moves| && RaisedAt(cfg, o, files, moves, k, Timeout);
    var s := Run(cfg, o, files, moves[..k]);
    LastLeftIsNoTimeout(cfg, o, s, moves[k]);
    TimeoutBounds(o, cfg.start, s.lastup, SeenBy(s, moves[k]));
    IdleForIsLastIdle(cfg, o, files, moves[..k], moves[k], o.timeout - GRAIN / 2);
    assert TimedOutAt(cfg, o, files, moves, k);
  }

  lemma LastLeftIsNoTimeout(cfg: Config, o: Limits, s: System, move: Move)
    requires VerdictAt(cfg, o, s, move).reason == Some(Timeout)
    ensures move.Look? && s.watching && s.lobby.book.m.id == ""
    ensures Raises(o, cfg.start, s.lastup, SeenBy(s, move)).reason == Some(Timeout)
  {
    if move.Look? { RaisesOnlyWhenAllowed(o, cfg.start, s.lastup, SeenBy(s, move)); }
  }

  /** An empty, quiet lobby without a match is ended by the first tick that finds it idle for half a grain more. */
  lemma IdleMeansTimeout(cfg: Config, o: Limits, files: Dir, moves: seq<Move>, look: Move)
    requires look.Look? && 0 < o.timeout <= MAX_INT64 - GRAIN
    requires var s := Run(cfg, o, files, moves);
             s.watching && s.lobby.book.m.id == "" && |s.lobby.players.humans| == 0
    requires Quiet(look.spec, cfg.start)
    requires IdleFor(cfg, o, files, moves, look, o.timeout + GRAIN / 2)
    ensures var t := Run(cfg, o, files, moves + [look]);
            && !t.watching
            && t.lobby.cancel.reason == (var r := Run(cfg, o, files, moves).lobby.cancel.reason;
                                         if Settled(r) then r else Some(Timeout))
  {
    var s := Run(cfg, o, files, moves);
    IdleForIsLastIdle(cfg, o, files, moves, look, o.timeout + GRAIN / 2);
    TimeoutBounds(o, cfg.start, s.lastup, SeenBy(s, look));
    assert (moves + [look])[..|moves|] == moves;
  }
}
