/** From the files that set the desired status to the end of the lobby: which file ends it, when, and for which reason. */
module Demands {
  import opened Cancel
  import opened Causes
  import opened Decimal
  import opened GoTime
  import opened Runs
  import opened Scan
  import S = Spec
  import opened SpecFiles
  import opened Stat
  import opened Watcher
  import opened Wrappers

  // ------------------------------------------------------------------------- files

  /** Which field each file sets. */
  lemma FilesThatKeepUp(s: S.Spec, t: Time)
    ensures FieldOf("up") == Some(Up) && SetTime(s, Up, t) == s.(up := t)
    ensures FieldOf("flag/up") == Some(FlagUp) && SetTime(s, FlagUp, t) == s.(flagUp := t)
    ensures FieldOf("peer/full") == Some(PeerFull) && SetTime(s, PeerFull, t) == s.(peerFull := t)
  {
  }

  lemma FilesThatAskDown(s: S.Spec, t: Time)
    ensures FieldOf("down") == Some(Down) && SetTime(s, Down, t) == s.(down := t)
    ensures FieldOf("flag/down") == Some(FlagDown) && SetTime(s, FlagDown, t) == s.(flagDown := t)
    ensures FieldOf("peer/idle") == Some(PeerIdle) && SetTime(s, PeerIdle, t) == s.(peerIdle := t)
    ensures FieldOf("forcedown") == Some(ForceDown) && SetTime(s, ForceDown, t) == s.(forceDown := t)
    ensures FieldOf("flag/forcedown") == Some(FlagForceDown) && SetTime(s, FlagForceDown, t) == s.(flagForceDown := t)
  {
  }

  lemma FilesThatAskRestart(s: S.Spec, t: Time)
    ensures FieldOf("restart") == Some(Restart) && SetTime(s, Restart, t) == s.(restart := t)
    ensures FieldOf("flag/restart") == Some(FlagRestart) && SetTime(s, FlagRestart, t) == s.(flagRestart := t)
    ensures FieldOf("forcerestart") == Some(ForceRestart) && SetTime(s, ForceRestart, t) == s.(forceRestart := t)
    ensures FieldOf("flag/forcerestart") == Some(FlagForceRestart) && SetTime(s, FlagForceRestart, t) == s.(flagForceRestart := t)
  {
  }

  lemma FilesThatAskStop(s: S.Spec, t: Time)
    ensures FieldOf("stop") == Some(Stop) && SetTime(s, Stop, t) == s.(stop := t)
    ensures FieldOf("peer/up") == Some(PeerUp) && SetTime(s, PeerUp, t) == s.(peerUp := t)
    ensures FieldOf("flag/stop") == Some(FlagStop) && SetTime(s, FlagStop, t) == s.(flagStop := t)
    ensures FieldOf("forcestop") == Some(ForceStop) && SetTime(s, ForceStop, t) == s.(forceStop := t)
    ensures FieldOf("flag/forcestop") == Some(FlagForceStop) && SetTime(s, FlagForceStop, t) == s.(flagForceStop := t)
  {
  }

  /** What the spec asks of an empty lobby that started at `t`; `rested` says that it was idle for the time of grace. */
  function Asked(s: S.Spec, t: Time, rested: bool): Option<S.Verdict> {
    if s.forceDown > t || s.flagForceDown > t then Some(S.Verdict(true, Some(Downed)))
    else if s.forceStop > t || s.flagForceStop > t then Some(S.Verdict(true, Some(Stopped)))
    else if s.forceRestart > t || s.flagForceRestart > t then Some(S.Verdict(true, Some(Restarted)))
    else if s.down > t || s.flagDown > t || s.peerIdle != ZERO_TIME then Some(S.Verdict(false, Some(Downed)))
    else if (s.stop > t || s.flagStop > t || s.peerUp != ZERO_TIME) && rested then Some(S.Verdict(false, Some(Stopped)))
    else if s.restart > t || s.flagRestart > t then Some(S.Verdict(false, Some(Restarted)))
    else None
  }

  lemma VerdictIsAsked(s: S.Spec, t: Time, idle: Duration, grace: Duration)
    ensures var v := s.ReasonAfter(t, idle, grace);
            Asked(s, t, idle >= grace) == if v.reason.Some? then Some(v) else None
    ensures s.ReasonAfter(t, idle, grace).reason.None? ==> !s.ReasonAfter(t, idle, grace).force
  {
  }

  /** The last to leave a lobby that does not go on leaves it to what the spec asks, of a lobby that has rested, or to the idle timeout. */
  lemma LastLeftIsAsked(cfg: Config, s: S.Spec)
    ensures LastLeft(cfg, s) == var v := Asked(s, cfg.start, true);
                                if v.Some? then v.value else S.Verdict(false, Some(IdleTimeout))
  {
    VerdictIsAsked(s, cfg.start, 0, 0);
  }

  /** What keeps a lobby up. */
  lemma WantedUpIff(look: Move)
    requires look.Look?
    ensures WantedUp(look) <==> look.spec.up != ZERO_TIME || look.spec.peerFull != ZERO_TIME
  {
  }

  // ------------------------------------------------------------------------- ticks

  /** Who may be there when it is asked: a forced down does not mind, any other force minds a match, the rest minds humans too. */
  predicate Heeded(v: S.Verdict, humans: nat, id: string) {
    v == S.Verdict(true, Some(Downed)) || (id == "" && (v.force || humans == 0))
  }

  /** How long it has been idle at a tick, to half a grain: `rested` for that time of grace, or not. */
  predicate Rested(o: Limits, idle: Duration, rested: bool) {
    if rested then idle >= o.minUptime + GRAIN / 2 else idle < o.minUptime - GRAIN / 2
  }

  /** A tick raises what the spec asks, if who is there does not mind. */
  lemma TickHeeds(o: Limits, start: Time, lastup: Time, x: Seen, rested: bool)
    requires -(MAX_INT64 - GRAIN) <= o.minUptime <= MAX_INT64 - GRAIN && Rested(o, x.clock - LastIdle(lastup, x), rested)
    ensures var v := Asked(x.spec, start, rested);
            v.Some? && Heeded(v.value, x.humans, x.id) ==> Raises(o, start, lastup, x) == v.value
  {
    var since := Since(lastup, x);
    RestedIsSince(o, lastup, x, rested);
    VerdictIsAsked(x.spec, start, since, o.minUptime);
  }

  lemma RestedIsSince(o: Limits, lastup: Time, x: Seen, rested: bool)
    requires -(MAX_INT64 - GRAIN) <= o.minUptime <= MAX_INT64 - GRAIN && Rested(o, x.clock - LastIdle(lastup, x), rested)
    ensures Since(lastup, x) >= o.minUptime <==> rested
  {
    RoundNearest(Sub(x.clock, LastIdle(lastup, x)), GRAIN);
  }

  /** A forced down does not ask how long the lobby was idle. */
  lemma TickHeedsForce(o: Limits, start: Time, lastup: Time, x: Seen)
    ensures var v := Asked(x.spec, start, false);
            v.Some? && v.value.force && Heeded(v.value, x.humans, x.id) ==> Raises(o, start, lastup, x) == v.value
  {
    VerdictIsAsked(x.spec, start, Since(lastup, x), o.minUptime);
  }

  // -------------------------------------------------------------------------- runs

  /** Ends the lobby for the verdict's reason, unless a cause is stored, and the watcher with it. */
  ghost predicate EndsFor(cfg: Config, o: Limits, files: Dir, moves: seq<Move>, look: Move, v: S.Verdict) {
    var t, r := Run(cfg, o, files, moves + [look]), Run(cfg, o, files, moves).lobby.cancel.reason;
    !t.watching && t.lobby.cancel.reason == if Settled(r) then r else v.reason
  }

  lemma RaisedEnds(cfg: Config, o: Limits, files: Dir, moves: seq<Move>, look: Move, v: S.Verdict)
    requires look.Look? && v.reason.Some? && v.reason != Some(Done)
    requires var s := Run(cfg, o, files, moves);
             s.watching && Raises(o, cfg.start, s.lastup, SeenBy(s, look)) == v
    ensures EndsFor(cfg, o, files, moves, look, v)
  {
    assert (moves + [look])[..|moves|] == moves;
  }

  /** A watched lobby is ended by the first tick that finds a forced one asked for, with whoever is there that force does not mind. */
  lemma ForceEnds(cfg: Config, o: Limits, files: Dir, moves: seq<Move>, look: Move)
    requires look.Look? && Run(cfg, o, files, moves).watching
    ensures var s, v := Run(cfg, o, files, moves).lobby, Asked(look.spec, cfg.start, false);
            v.Some? && v.value.force && Heeded(v.value, |s.players.humans|, s.book.m.id)
            ==> EndsFor(cfg, o, files, moves, look, v.value)
  {
    var s, v := Run(cfg, o, files, moves), Asked(look.spec, cfg.start, false);
    TickHeedsForce(o, cfg.start, s.lastup, SeenBy(s, look));
    if v.Some? && v.value.force && Heeded(v.value, |s.lobby.players.humans|, s.lobby.book.m.id) {
      RaisedEnds(cfg, o, files, moves, look, v.value);
    }
  }

  /** An empty watched lobby without a match is ended by the first tick that finds any end asked for. */
  lemma AskedEnds(cfg: Config, o: Limits, files: Dir, moves: seq<Move>, look: Move, rested: bool)
    requires look.Look? && Run(cfg, o, files, moves).watching
    requires -(MAX_INT64 - GRAIN) <= o.minUptime <= MAX_INT64 - GRAIN
    requires var s := Run(cfg, o, files, moves); Rested(o, look.clock - LastIdle(s.lastup, SeenBy(s, look)), rested)
    ensures var s, v := Run(cfg, o, files, moves).lobby, Asked(look.spec, cfg.start, rested);
            v.Some? && Heeded(v.value, |s.players.humans|, s.book.m.id)
            ==> EndsFor(cfg, o, files, moves, look, v.value)
  {
    var s, v := Run(cfg, o, files, moves), Asked(look.spec, cfg.start, rested);
    TickHeeds(o, cfg.start, s.lastup, SeenBy(s, look), rested);
    if v.Some? && Heeded(v.value, |s.lobby.players.humans|, s.lobby.book.m.id) {
      RaisedEnds(cfg, o, files, moves, look, v.value);
    }
  }
}
