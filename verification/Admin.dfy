/** Whose time runs against the admin's timeout: whoever leads an idle lobby has led it since the latest flush. */
module Admin {
  import opened Cancel
  import opened Causes
  import opened Decimal
  import opened GoTime
  import opened Players
  import opened Runs
  import opened Scan
  import opened Stat
  import opened Watcher
  import opened Wrappers

  /** How many moves had been made when `collect` was last called. */
  ghost function FlushAt(cfg: Config, o: Limits, files: Dir, moves: seq<Move>): (n: nat)
    ensures n <= |moves|
  {
    if moves == [] then 0
    else
      var init, last := moves[..|moves| - 1], moves[|moves| - 1];
      if Collects(cfg, Run(cfg, o, files, init).lobby, last) then |moves| else FlushAt(cfg, o, files, init)
  }

  /** The latest flush's clock is the one that move read. */
  lemma {:induction false} FlushAtClock(cfg: Config, o: Limits, files: Dir, moves: seq<Move>)
    ensures var n := FlushAt(cfg, o, files, moves);
            if n == 0 then LastFlush(cfg, o, files, moves) == cfg.start
            else ClockOf(moves[n - 1]) == Some(LastFlush(cfg, o, files, moves))
  {
    if moves == [] {
    } else {
      FlushAtClock(cfg, o, files, moves[..|moves| - 1]);
    }
  }

  /** No match and the same admin, if any. */
  ghost predicate LedAlike(s: LobbyState, t: LobbyState) {
    s.book.m.id == "" && s.players.admin == t.players.admin
  }

  lemma RegisterLeads(cfg: Config, s: LobbyState, sid: string)
    requires s.players.Consistent()
    ensures var r := SetSpec(s.players, sid, "", "").0; r.admin != s.players.admin ==> |r.humans| == 1
  {
    HumansMoveByOne(s.players, sid, "", "");
  }

  /** Without a call of `collect` an idle lobby was idle before, under the same admin. */
  lemma StaysLed(cfg: Config, o: Limits, s: System, move: Move)
    requires s.lobby.players.Consistent() && !Collects(cfg, s.lobby, move)
    requires Next(cfg, o, s, move).lobby.book.m.id == ""
    ensures LedAlike(s.lobby, Next(cfg, o, s, move).lobby)
  {
    match move
    case Read(Register(sid), _) => RegisterLeads(cfg, s.lobby, sid);
    case _ =>
  }

  /** At every moment without a match: since the latest flush there was none, and the same admin led. */
  lemma {:induction false} LedSinceFlush(cfg: Config, o: Limits, files: Dir, moves: seq<Move>, j: nat)
    requires Run(cfg, o, files, moves).lobby.book.m.id == ""
    requires FlushAt(cfg, o, files, moves) <= j <= |moves|
    ensures LedAlike(Run(cfg, o, files, moves[..j]).lobby, Run(cfg, o, files, moves).lobby)
    decreases |moves|
  {
    if j == |moves| {
      assert moves[..j] == moves;
    } else {
      var init, last := moves[..|moves| - 1], moves[|moves| - 1];
      RunSound(cfg, o, files, init);
      StaysLed(cfg, o, Run(cfg, o, files, init), last);
      LedSinceFlush(cfg, o, files, init, j);
      assert init[..j] == moves[..j];
    }
  }

  /**
   The admin's timeout was raised by tick `k` against an admin who by then had led the
   lobby, without a match, for longer than the timeout, less half a grain at most.
   */
  ghost predicate AdminTimedOutAt(cfg: Config, o: Limits, files: Dir, moves: seq<Move>, k: nat)
    requires k < |moves|
  {
    var init := moves[..k];
    var s := Run(cfg, o, files, init).lobby;
    && moves[k].Look? && IdleFor(cfg, o, files, init, moves[k], o.adminTimeout - GRAIN / 2)
    && s.players.admin.Some?
    && forall j :: FlushAt(cfg, o, files, init) <= j <= k ==> LedAlike(Run(cfg, o, files, init[..j]).lobby, s)
  }

  lemma LastLeftIsNoAdminTimeout(cfg: Config, o: Limits, s: System, move: Move)
    requires VerdictAt(cfg, o, s, move).reason == Some(AdminTimeout)
    ensures move.Look? && s.watching
    ensures Raises(o, cfg.start, s.lastup, SeenBy(s, move)).reason == Some(AdminTimeout)
  {
  }

  lemma RaisedMeansLed(cfg: Config, o: Limits, files: Dir, moves: seq<Move>, k: nat)
    requires IsDuration(o.adminTimeout) && k < |moves|
    requires VerdictAt(cfg, o, Run(cfg, o, files, moves[..k]), moves[k]).reason == Some(AdminTimeout)
    ensures AdminTimedOutAt(cfg, o, files, moves, k)
  {
    var init := moves[..k];
    var s := Run(cfg, o, files, init);
    LastLeftIsNoAdminTimeout(cfg, o, s, moves[k]);
    AdminTimeoutBounds(o, cfg.start, s.lastup, SeenBy(s, moves[k]));
    IdleForIsLastIdle(cfg, o, files, init, moves[k], o.adminTimeout - GRAIN / 2);
    RunSound(cfg, o, files, init);
    forall j | FlushAt(cfg, o, files, init) <= j <= k ensures LedAlike(Run(cfg, o, files, init[..j]).lobby, s.lobby) {
      LedSinceFlush(cfg, o, files, init, j);
    }
  }

  lemma AdminTimeoutMeansLed(cfg: Config, o: Limits, files: Dir, moves: seq<Move>)
    requires IsDuration(o.adminTimeout)
    requires Run(cfg, o, files, moves).lobby.cancel.reason == Some(AdminTimeout)
    ensures exists k: nat :: k < |moves| && AdminTimedOutAt(cfg, o, files, moves, k)
  {
    EveryEndWasAllowed(cfg, o, files, moves, AdminTimeout);
    var k: nat :| k < |moves| && RaisedAt(cfg, o, files, moves, k, AdminTimeout);
    RaisedMeansLed(cfg, o, files, moves, k);
  }

  /** Humans in an idle lobby that nothing forces to end are sent away by the first tick that finds it idle for half a grain more. */
  lemma LedMeansAdminTimeout(cfg: Config, o: Limits, files: Dir, moves: seq<Move>, look: Move)
    requires look.Look? && 0 < o.adminTimeout <= MAX_INT64 - GRAIN
    requires var s := Run(cfg, o, files, moves);
             s.watching && s.lobby.book.m.id == "" && |s.lobby.players.humans| != 0
    requires Unforced(look.spec, cfg.start)
    requires IdleFor(cfg, o, files, moves, look, o.adminTimeout + GRAIN / 2)
    ensures var t := Run(cfg, o, files, moves + [look]);
            && !t.watching
            && t.lobby.cancel.reason == (var r := Run(cfg, o, files, moves).lobby.cancel.reason;
                                         if Settled(r) then r else Some(AdminTimeout))
  {
    var s := Run(cfg, o, files, moves);
    IdleForIsLastIdle(cfg, o, files, moves, look, o.adminTimeout + GRAIN / 2);
    AdminTimeoutBounds(o, cfg.start, s.lastup, SeenBy(s, look));
    assert (moves + [look])[..|moves|] == moves;
  }
}
