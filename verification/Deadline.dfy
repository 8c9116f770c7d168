/** How soon a lobby without a match is ended when nothing disturbs it and ticks come as often as the watcher asks for them. */
module Deadline {
  import A = Admin
  import opened Cancel
  import opened Causes
  import opened Decimal
  import opened GoTime
  import opened Players
  import opened Runs
  import opened Scan
  import opened Stat
  import opened Watcher

  /** The last activity: the latest flush, or a later tick that wanted the lobby up. */
  ghost function Activity(cfg: Config, o: Limits, files: Dir, moves: seq<Move>): Time {
    var flush, wanted := LastFlush(cfg, o, files, moves), LastWanted(cfg.start, moves);
    if flush < wanted then wanted else flush
  }

  /** No match, and humans or not. */
  ghost predicate IdleWith(s: LobbyState, humans: bool) {
    s.book.m.id == "" && (|s.players.humans| != 0 <==> humans)
  }

  /** From move `j` on nothing is flushed, and no tick finds the lobby wanted up. */
  ghost predicate Undisturbed(cfg: Config, o: Limits, files: Dir, moves: seq<Move>, j: nat) {
    forall i :: j <= i < |moves| ==>
                  !Collects(cfg, Run(cfg, o, files, moves[..i]).lobby, moves[i]) && !WantedUp(moves[i])
  }

  /** With humans a spec must force nothing, without them it must ask for nothing. */
  predicate Calm(start: Time, move: Move, humans: bool) {
    move.Look? ==> if humans then Unforced(move.spec, start) else Quiet(move.spec, start)
  }

  /** Humans wait for the admin's timeout, an empty lobby for its own. */
  function Limit(o: Limits, humans: bool): Duration {
    if humans then o.adminTimeout else o.timeout
  }

  /** Each tick from move `j` on comes at most a period after an earlier one, or after `from`. */
  ghost predicate Ticking(o: Limits, moves: seq<Move>, j: nat, from: Time) {
    forall i :: j <= i < |moves| && moves[i].Look? ==>
                  || moves[i].clock - from <= Period(o)
                  || exists p :: j <= p < i && moves[p].Look? && moves[i].clock - moves[p].clock <= Period(o)
  }

  lemma StepStaysIdle(cfg: Config, o: Limits, s: System, move: Move, humans: bool)
    requires s.lobby.players.Consistent() && IdleWith(s.lobby, humans) && !Collects(cfg, s.lobby, move)
    ensures IdleWith(Next(cfg, o, s, move).lobby, humans)
  {
    match move
    case Read(Register(sid), _) => HumansMoveByOne(s.lobby.players, sid, "", "");
    case Read(Unregister(sid), _) => HumansMoveByOne(s.lobby.players, sid, "", "");
    case _ =>
  }

  /** A move that neither flushes nor wants the lobby up leaves the last activity where it was. */
  lemma NoActivity(cfg: Config, o: Limits, files: Dir, moves: seq<Move>, i: nat)
    requires i < |moves| && !Collects(cfg, Run(cfg, o, files, moves[..i]).lobby, moves[i]) && !WantedUp(moves[i])
    ensures Run(cfg, o, files, moves[..i + 1]) == Next(cfg, o, Run(cfg, o, files, moves[..i]), moves[i])
    ensures Activity(cfg, o, files, moves[..i + 1]) == Activity(cfg, o, files, moves[..i])
  {
    assert moves[..i + 1][..i] == moves[..i];
  }

  lemma MoveStaysIdle(cfg: Config, o: Limits, files: Dir, moves: seq<Move>, i: nat, humans: bool)
    requires i < |moves| && !Collects(cfg, Run(cfg, o, files, moves[..i]).lobby, moves[i]) && !WantedUp(moves[i])
    requires IdleWith(Run(cfg, o, files, moves[..i]).lobby, humans)
    ensures IdleWith(Run(cfg, o, files, moves[..i + 1]).lobby, humans)
    ensures Activity(cfg, o, files, moves[..i + 1]) == Activity(cfg, o, files, moves[..i])
  {
    NoActivity(cfg, o, files, moves, i);
    RunSound(cfg, o, files, moves[..i]);
    StepStaysIdle(cfg, o, Run(cfg, o, files, moves[..i]), moves[i], humans);
  }

  /** So no match begins, the first human does not come and the last does not go, and the last activity stays. */
  lemma {:induction false} StaysIdle(cfg: Config, o: Limits, files: Dir, moves: seq<Move>, j: nat, i: nat, humans: bool)
    requires j <= i <= |moves| && Undisturbed(cfg, o, files, moves, j)
    requires IdleWith(Run(cfg, o, files, moves[..j]).lobby, humans)
    ensures IdleWith(Run(cfg, o, files, moves[..i]).lobby, humans)
    ensures Activity(cfg, o, files, moves[..i]) == Activity(cfg, o, files, moves[..j])
    decreases i
  {
    if i == j {
    } else {
      StaysIdle(cfg, o, files, moves, j, i - 1, humans);
      MoveStaysIdle(cfg, o, files, moves, i - 1, humans);
    }
  }

  /** The watcher leaves only with a reason stored, and some reason stays. */
  ghost predicate LeftWithReason(s: System) {
    s.watching || s.lobby.cancel.reason.Some?
  }

  lemma UnregisterKeepsCause(cfg: Config, s: LobbyState, sid: string, env: Env)
    requires Settled(s.cancel.reason)
    ensures Unregistered(cfg, s, sid, env).cancel == s.cancel
  {
    var left := RemoveSpec(s.players, sid);
    var stays := Stays(cfg, s.changed || IsBot(left.1.id));
    assert DepartedCancel(cfg, s.cancel, |left.0.humans|, stays, env.spec) == s.cancel;
  }

  lemma UnregisterKeepsReason(cfg: Config, s: LobbyState, sid: string, env: Env)
    requires s.cancel.reason.Some?
    ensures Unregistered(cfg, s, sid, env).cancel.reason.Some?
  {
    var left := RemoveSpec(s.players, sid);
    var stays := Stays(cfg, s.changed || IsBot(left.1.id));
    assert DepartedCancel(cfg, s.cancel, |left.0.humans|, stays, env.spec).reason.Some?;
  }

  /** A stored cause is not replaced by any step. */
  lemma CauseStays(cfg: Config, o: Limits, s: System, move: Move)
    requires Settled(s.lobby.cancel.reason)
    ensures Next(cfg, o, s, move).lobby.cancel == s.lobby.cancel
  {
    match move
    case Read(Unregister(sid), env) => UnregisterKeepsCause(cfg, s.lobby, sid, env);
    case _ =>
  }

  /** A stored reason is not taken back. */
  lemma ReasonStays(cfg: Config, o: Limits, s: System, move: Move)
    requires s.lobby.cancel.reason.Some?
    ensures Next(cfg, o, s, move).lobby.cancel.reason.Some?
  {
    match move
    case Read(Unregister(sid), env) => UnregisterKeepsReason(cfg, s.lobby, sid, env);
    case _ =>
  }

  lemma StepLeaves(cfg: Config, o: Limits, s: System, move: Move)
    requires LeftWithReason(s) && s.lobby.cancel.Coherent() && s.lobby.cancel.done != Absent
    ensures LeftWithReason(Next(cfg, o, s, move))
  {
    if s.lobby.cancel.reason.Some? {
      ReasonStays(cfg, o, s, move);
    } else if move.Look? {
      assert s.watching;
    } else {
      assert s.watching && s.lobby.cancel.done == Open;
    }
  }

  lemma {:induction false} RunLeaves(cfg: Config, o: Limits, files: Dir, moves: seq<Move>, j: nat, i: nat)
    requires j <= i <= |moves| && LeftWithReason(Run(cfg, o, files, moves[..j]))
    ensures LeftWithReason(Run(cfg, o, files, moves[..i]))
    decreases i
  {
    if i == j {
    } else {
      RunLeaves(cfg, o, files, moves, j, i - 1);
      assert moves[..i][..i - 1] == moves[..i - 1];
      RunSound(cfg, o, files, moves[..i - 1]);
      StepLeaves(cfg, o, Run(cfg, o, files, moves[..i - 1]), moves[i - 1]);
    }
  }

  /** The first tick behind `due`. */
  lemma {:induction false} FirstDue(moves: seq<Move>, j: nat, l: nat, due: Time) returns (i: nat)
    requires j <= l < |moves| && moves[l].Look? && moves[l].clock > due
    ensures j <= i <= l && moves[i].Look? && moves[i].clock > due
    ensures forall p :: j <= p < i && moves[p].Look? ==> moves[p].clock <= due
    decreases l - j
  {
    if moves[j].Look? && moves[j].clock > due {
      i := j;
    } else {
      i := FirstDue(moves, j + 1, l, due);
    }
  }

  /**
   By the time of tick `i`, which is before `end`, the lobby is cancelled and not watched
   any more. There is a cause, unless the watcher had left before that at a closed `done`.
   */
  ghost predicate CancelledBy(cfg: Config, o: Limits, files: Dir, moves: seq<Move>, i: nat, end: Time)
    requires i < |moves|
  {
    var t := Run(cfg, o, files, moves[..i + 1]);
    && moves[i].Look? && moves[i].clock <= end
    && !t.watching && t.lobby.cancel.reason.Some?
    && (Run(cfg, o, files, moves[..i]).watching ==> Settled(t.lobby.cancel.reason))
  }

  lemma DueWhileWatched(cfg: Config, o: Limits, files: Dir, moves: seq<Move>, look: Move, humans: bool)
    requires 0 < Limit(o, humans) <= MAX_INT64 - GRAIN && look.Look? && Calm(cfg.start, look, humans) && !WantedUp(look)
    requires Run(cfg, o, files, moves).watching && IdleWith(Run(cfg, o, files, moves).lobby, humans)
    requires look.clock > Activity(cfg, o, files, moves) + Limit(o, humans) + GRAIN / 2
    ensures !Run(cfg, o, files, moves + [look]).watching
    ensures Settled(Run(cfg, o, files, moves + [look]).lobby.cancel.reason)
  {
    assert (moves + [look])[..|moves|] == moves;
    assert IdleFor(cfg, o, files, moves, look, Limit(o, humans) + GRAIN / 2);
    if humans {
      A.LedMeansAdminTimeout(cfg, o, files, moves, look);
    } else {
      IdleMeansTimeout(cfg, o, files, moves, look);
    }
  }

  /** A tick that nobody waits for changes nothing. */
  lemma DueAfterwards(cfg: Config, o: Limits, files: Dir, moves: seq<Move>, look: Move)
    requires !Run(cfg, o, files, moves).watching && look.Look?
    ensures Run(cfg, o, files, moves + [look]) == Run(cfg, o, files, moves)
  {
    assert (moves + [look])[..|moves|] == moves;
  }

  lemma DueCancels(cfg: Config, o: Limits, files: Dir, moves: seq<Move>, j: nat, i: nat, humans: bool)
    requires j <= i < |moves| && 0 < Limit(o, humans) <= MAX_INT64 - GRAIN
    requires Run(cfg, o, files, moves[..j]).watching && IdleWith(Run(cfg, o, files, moves[..j]).lobby, humans)
    requires Undisturbed(cfg, o, files, moves, j)
    requires moves[i].Look? && Calm(cfg.start, moves[i], humans)
    requires moves[i].clock > Activity(cfg, o, files, moves[..j]) + Limit(o, humans) + GRAIN / 2
    ensures CancelledBy(cfg, o, files, moves, i, moves[i].clock)
  {
    var init := moves[..i];
    assert moves[..i + 1] == init + [moves[i]];
    StaysIdle(cfg, o, files, moves, j, i, humans);
    RunLeaves(cfg, o, files, moves, j, i);
    if Run(cfg, o, files, init).watching {
      DueWhileWatched(cfg, o, files, init, moves[i], humans);
    } else {
      DueAfterwards(cfg, o, files, init, moves[i]);
    }
  }

  lemma TickInTime(o: Limits, moves: seq<Move>, j: nat, i: nat, from: Time, due: Time)
    requires j <= i < |moves| && moves[i].Look? && Ticking(o, moves, j, from) && from <= due
    requires forall p :: j <= p < i && moves[p].Look? ==> moves[p].clock <= due
    ensures moves[i].clock <= due + Period(o)
  {
  }

  /**
   A watched lobby without a match that nothing disturbs is cancelled by a tick no later
   than its limit, half a grain and one period after its last activity, if it runs that
   long: the admin's timeout with humans, the timeout without.
   */
  lemma CancelledInTime(cfg: Config, o: Limits, files: Dir, moves: seq<Move>, j: nat, l: nat, from: Time, humans: bool)
    returns (i: nat)
    requires j <= l < |moves| && 0 < Limit(o, humans) <= MAX_INT64 - GRAIN
    requires Run(cfg, o, files, moves[..j]).watching && IdleWith(Run(cfg, o, files, moves[..j]).lobby, humans)
    requires Undisturbed(cfg, o, files, moves, j)
    requires forall n :: j <= n < |moves| ==> Calm(cfg.start, moves[n], humans)
    requires Ticking(o, moves, j, from) && from <= Activity(cfg, o, files, moves[..j])
    requires moves[l].Look? && moves[l].clock > Activity(cfg, o, files, moves[..j]) + Limit(o, humans) + GRAIN / 2
    ensures j <= i <= l
    ensures CancelledBy(cfg, o, files, moves, i,
                        Activity(cfg, o, files, moves[..j]) + Limit(o, humans) + GRAIN / 2 + Period(o))
  {
    var due := Activity(cfg, o, files, moves[..j]) + Limit(o, humans) + GRAIN / 2;
    i := FirstDue(moves, j, l, due);
    TickInTime(o, moves, j, i, from, due);
    DueCancels(cfg, o, files, moves, j, i, humans);
  }
}
