/** The lobby object of internal/lobby: the same steps as in Scan, carried out in place. */
module Lobby {
  import opened Cancel
  import opened GoTime
  import opened Lines
  import opened Names
  import P = Players
  import R = Runs
  import opened Scan
  import opened Spec
  import opened Stat
  import W = Watcher
  import opened Wrappers

  class Lobby {
    const cfg: Config
    const players: P.Players
    const stats: StatDir
    const c: Canceller

    var m: Match
    var matches: seq<Match>
    var open: bool
    var changed: bool
    var arena: string
    ghost var sent: seq<Match>
    ghost var attempts: seq<Match>

    ghost predicate Valid()
      reads this, players, players.Repr, stats, c
    {
      && players.Valid()
      && this !in players.Repr && stats !in players.Repr && c !in players.Repr
      && stats.configured == cfg.stats
      && c.View().Coherent()
    }

    ghost function Notes(): Book
      reads `m, `matches, `sent, `attempts
    {
      Book(m, matches, sent, attempts)
    }

    ghost function View(): LobbyState
      reads this, players, stats, c
    {
      LobbyState(players.view, Notes(), changed, arena, stats.files, c.View())
    }

    /** The committed part of `alloc`, on the status directory as `remstats` leaves it. */
    constructor (cfg: Config, files: Dir)
      ensures Valid() && open && this.cfg == cfg
      ensures fresh(players) && fresh(players.Repr) && fresh(stats) && fresh(c)
      ensures View() == Start(cfg, if cfg.stats then Cleared(files) else files)
    {
      this.cfg := cfg;
      players := new P.Players();
      stats := new StatDir(cfg.stats, files);
      c := new Canceller();
      m := Blank(cfg.start);
      matches, sent, attempts, open := [], [], [], true;
      changed, arena := false, "";
      new;
      c.Alloc();
      stats.RemStats();
    }

    method Collect(now: Time)
      requires open && stats.configured == cfg.stats
      modifies `m, `matches, `sent, `attempts, stats
      ensures Notes() == Collected(old(Notes()), now)
      ensures stats.files == CollectedFiles(cfg, old(stats.files), old(Notes()))
    {
      if m.id == "" {
        m := m.(stamp := now);
        return;
      }
      if m.kills != [] {
        attempts := attempts + [m];
        if |matches| < QUEUE_CAP {
          matches, sent := matches + [m], sent + [m];
        }
      }
      m := Blank(now);
      stats.RemStat("match");
    }

    /** `filterjson` for a decoded update. */
    method FilterUpdate(next: Match, now: Time)
      requires open && stats.configured == cfg.stats
      modifies `m, `matches, `sent, `attempts, stats
      ensures Notes() == UpdatedBook(cfg, old(Notes()), next, now)
      ensures stats.files
              == var d := if next.id != old(m).id then CollectedFiles(cfg, old(stats.files), old(Notes())) else old(stats.files);
                 Put(cfg, d, "match", At(m.stamp))
    {
      if next.id != m.id { Collect(now); }
      m := next.(stamp := m.stamp);
      var t := StampOf(cfg, next.id);
      if t.Some? { m := m.(stamp := t.value); }
      stats.SetStat("match", Some(At(m.stamp)));
    }

    /** The `setstat` for an accepted human, or the mark that bots changed. */
    method NoteId(id: int, n: int)
      requires stats.configured == cfg.stats && n >= 0
      modifies `changed, stats
      ensures changed == (old(changed) || IsBot(id))
      ensures stats.files == CountFiles(cfg, old(stats.files), id, n)
    {
      if id != -1 {
        if id < P.FIRST_HUMAN {
          changed := true;
        } else if n != 0 {
          stats.SetStat("players", Some(Number(n)));
        }
      }
    }

    /** `filterbolt` for a registered player. */
    method FilterRegister(sid: string, env: Env)
      requires Valid() && open && sid != ""
      modifies `m, `matches, `sent, `attempts, `changed, players.Repr, stats, c
      ensures Valid() && fresh(players.Repr - old(players.Repr))
      ensures View() == Registered(cfg, old(View()), sid, env.now)
    {
      var a := players.Add(sid);
      var n, bots := players.Count();
      Arrive(a.id, n, env.now);
      assert players.Valid();
    }

    /** What follows the registry's answer to a registered player. */
    method Arrive(id: int, n: int, now: Time)
      requires open && stats.configured == cfg.stats && c.View().Coherent() && n >= 0
      modifies `m, `matches, `sent, `attempts, `changed, stats, c
      ensures c.View().Coherent()
      ensures Notes() == if n == 1 then Collected(old(Notes()), now) else old(Notes())
      ensures changed == (old(changed) || IsBot(id))
      ensures stats.files == RegisteredFiles(cfg, old(stats.files), old(Notes()), id, n, now)
      ensures c.View() == RejectedCancel(old(c.View()), id)
    {
      NoteId(id, n);
      if n == 1 {
        stats.RemStat("idle");
        Collect(now);
      } else if n == 10 {
        stats.SetStat("full", Some(At(now)));
      }
      Reject(id);
    }

    /** The deferred report of an id that was not accepted. */
    method Reject(id: int)
      requires c.View().Coherent()
      modifies c
      ensures c.View().Coherent()
      ensures c.View() == RejectedCancel(old(c.View()), id)
    {
      if id == -1 {
        var told := c.Cancel(Some(Bug));
      }
    }

    /** The `case 0` after an unregistered player. */
    method Empty(now: Time, spec: Spec)
      requires open && stats.configured == cfg.stats && c.View().Coherent()
      modifies `m, `matches, `sent, `attempts, stats, c
      ensures c.View().Coherent()
      ensures Notes() == Collected(old(Notes()), now)
      ensures stats.files
              == var d := CollectedFiles(cfg, Del(cfg, old(stats.files), "players"), old(Notes()));
                 if Stays(cfg, changed) then Put(cfg, d, "idle", At(now)) else d
      ensures c.View() == if Stays(cfg, changed) then old(c.View())
                          else CancelSpec(old(c.View()), LastLeft(cfg, spec).reason.value)
    {
      stats.RemStat("players");
      Collect(now);
      if !changed || cfg.maxFails == 0 {
        stats.SetStat("idle", Some(At(now)));
        return;
      }
      var verdict := spec.ReasonAfter(cfg.start, 0, 0);
      var told := c.Cancel(if verdict.reason.Some? then verdict.reason else Some(IdleTimeout));
    }

    /** `filterbolt` for an unregistered player. */
    method FilterUnregister(sid: string, env: Env)
      requires Valid() && open && sid != ""
      modifies `m, `matches, `sent, `attempts, `changed, players.Repr, stats, c
      ensures Valid() && fresh(players.Repr - old(players.Repr))
      ensures View() == Unregistered(cfg, old(View()), sid, env)
    {
      var a, n := Strike(sid);
      Depart(a.id, a.admin, n, env);
    }

    /** The registry's part of an unregister line. */
    method Strike(sid: string) returns (a: P.Answer, n: int)
      requires Valid()
      modifies players.Repr
      ensures Valid() && fresh(players.Repr - old(players.Repr))
      ensures View() == old(View()).(players := players.view)
      ensures (players.view, a) == P.RemoveSpec(old(players.view), sid)
      ensures n == |players.view.humans|
    {
      a := players.Remove(sid);
      var bots;
      n, bots := players.Count();
    }

    /** The admin's time starts again when the admin changes. */
    method Succeed(led: bool, now: Time)
      requires open && stats.configured == cfg.stats
      modifies `m, `matches, `sent, `attempts, stats
      ensures Notes() == if led && old(m).id == "" then Collected(old(Notes()), now) else old(Notes())
      ensures m.id == old(m).id
      ensures stats.files == old(stats.files)
    {
      if led && m.id == "" { Collect(now); }
    }

    /** What follows the registry's answer to an unregistered player. */
    method Depart(id: int, led: bool, n: int, env: Env)
      requires open && stats.configured == cfg.stats && c.View().Coherent() && n >= 0
      modifies `m, `matches, `sent, `attempts, `changed, stats, c
      ensures c.View().Coherent()
      ensures Notes() == UnregisteredBook(old(Notes()), led, n, env.now)
      ensures changed == (old(changed) || IsBot(id))
      ensures stats.files == DepartedFiles(cfg, CountFiles(cfg, old(stats.files), id, n), old(Notes()), n,
                                           Stays(cfg, changed), env.now)
      ensures c.View() == RejectedCancel(DepartedCancel(cfg, old(c.View()), n, Stays(cfg, changed), env.spec), id)
    {
      NoteId(id, n);
      Succeed(led, env.now);
      if n == 0 {
        Empty(env.now, env.spec);
      } else if n == 9 {
        stats.RemStat("full");
      }
      Reject(id);
    }

    /** `filterjson`. */
    method FilterJson(x: Reader, bs: string, env: Env) returns (kept: string)
      requires Valid() && open
      modifies `m, `matches, `sent, `attempts, stats
      ensures Valid() && View() == Step(cfg, old(View()), JsonLine(x, bs), env)
      ensures kept == Truncated(bs, TRUNC)
    {
      kept := Truncated(bs, TRUNC);
      StepOfJson(cfg, View(), JsonLine(x, bs), env);
      if !cfg.logs { return; }
      if |bs| < TRUNC { return; }
      if Index(bs[..TRUNC], SHOOTER) != -1 {
        var k := x.kill(bs);
        if k.None? { return; }
        NoteKill(k.value, env);
      } else if Index(bs[..TRUNC], MATCH_ID) != -1 {
        var next := x.mat(bs);
        if next.None? { return; }
        TakeUpdate(next.value, env);
      }
    }

    /** A single kill joins those of the match. */
    method NoteKill(k: Kill, ghost env: Env)
      requires Valid() && cfg.logs
      modifies `m
      ensures Valid() && View() == Step(cfg, old(View()), KillData(k), env)
    {
      m := m.(kills := m.kills + [k]);
    }

    method TakeUpdate(next: Match, env: Env)
      requires Valid() && open && cfg.logs
      modifies `m, `matches, `sent, `attempts, stats
      ensures Valid() && View() == Step(cfg, old(View()), MatchUpdate(next), env)
    {
      FilterUpdate(next, env.now);
      assert View() == Updated(cfg, old(View()), next, env.now);
    }

    /** `filterbolt`. */
    method FilterBolt(bs: string, env: Env)
      requires Valid() && open
      modifies `m, `matches, `sent, `attempts, `changed, `arena, players.Repr, stats, c
      ensures Valid() && fresh(players.Repr - old(players.Repr))
      ensures View() == Step(cfg, old(View()), BoltLine(bs), env)
    {
      ghost var was := View();
      if |bs| != |LOADING| && HasPrefix(bs, LOADING) {
        RenameArena(bs[|LOADING|..], env);
      } else if HasPrefix(bs, ASSIGNED) || HasPrefix(bs, REMOTE) {
        StopIdle(env);
      } else if |bs| != |REGISTERED| && HasPrefix(bs, REGISTERED) {
        StepOfHuman(cfg, was, bs[|REGISTERED|..], env);
        FilterRegister(bs[|REGISTERED|..], env);
      } else if |bs| != |UNREGISTERED| && HasPrefix(bs, UNREGISTERED) {
        StepOfHuman(cfg, was, bs[|UNREGISTERED|..], env);
        FilterUnregister(bs[|UNREGISTERED|..], env);
      } else if HasPrefix(bs, ARENA_CHANGED) {
        NoteChange(env);
      } else if HasPrefix(bs, BALLS_CHANGED) {
        NoteChange(env);
      } else {
        NoEffect(env);
      }
    }

    /** Somebody tries to register. */
    method StopIdle(ghost env: Env)
      requires Valid()
      modifies stats
      ensures Valid() && View() == Step(cfg, old(View()), Assigned, env)
    {
      stats.RemStat("idle");
    }

    /** A setting that changes while humans are there. */
    method NoteChange(ghost env: Env)
      requires Valid()
      modifies `changed
      ensures Valid() && View() == Step(cfg, old(View()), SettingChanged, env)
    {
      var n, bots := players.Count();
      if n != 0 { changed := true; }
    }

    method RenameArena(name: string, ghost env: Env)
      requires Valid() && name != ""
      modifies `arena, stats
      ensures Valid() && View() == Step(cfg, old(View()), ArenaNamed(name), env)
    {
      arena := name;
      stats.RemStat("arena");
      stats.SetStat("arena", Some(Text(arena)));
    }

    lemma NoEffect(env: Env)
      requires Valid()
      ensures View() == Step(cfg, View(), Other, env)
    {
    }

    /** The two loops over what is of no use, on a line without its surrounding space. */
    method Ignores(sample: string, prefixes: seq<string>, contains: seq<string>) returns (ignore: bool)
      requires prefixes != []
      ensures ignore <==> sample == "" || (exists p :: p in prefixes && HasPrefix(sample, p))
                          || (exists p :: p in contains && Contains(sample, p))
    {
      ignore := |sample| == 0;
      for i := 0 to |prefixes|
        invariant ignore <==> sample == ""
        invariant i > 0 ==> !ignore
        invariant forall k :: 0 <= k < i ==> !HasPrefix(sample, prefixes[k])
      {
        ignore := ignore || HasPrefix(sample, prefixes[i]);
        if ignore { return; }
      }
      for i := 0 to |contains|
        invariant !ignore
        invariant forall k :: 0 <= k < i ==> !Contains(sample, contains[k])
      {
        ignore := ignore || Contains(sample, contains[i]);
        if ignore { return; }
      }
    }

    /** `filter`: what a line does, and what is left of it for the log. */
    method Filter(x: Reader, fd: int, bs: string, env: Env) returns (logged: Option<string>)
      requires Valid() && (fd == 1 ==> open) && x.Valid()
      modifies `m, `matches, `sent, `attempts, `changed, `arena, players.Repr, stats, c
      ensures Valid() && fresh(players.Repr - old(players.Repr))
      ensures View() == Step(cfg, old(View()), LineOf(x, fd, bs), env)
      ensures logged == Logged(x, fd, bs)
    {
      NoEffect(env);
      if fd != 1 && fd != 2 { return Some(bs); }
      var sample := x.trim(bs);
      var ignore := Ignores(sample, if fd == 1 then STDOUT_PREFIXES else STDERR_PREFIXES,
                            if fd == 1 then [] else STDERR_CONTAINS);
      assert ignore <==> Dropped(x, fd, bs);
      if ignore { return None; }
      if fd != 1 { return Some(bs); }
      logged := FilterOut(x, bs, env);
    }

    /** The switch of `filter` on standard output. */
    method FilterOut(x: Reader, bs: string, env: Env) returns (logged: Option<string>)
      requires Valid() && open && bs != ""
      modifies `m, `matches, `sent, `attempts, `changed, `arena, players.Repr, stats, c
      ensures Valid() && fresh(players.Repr - old(players.Repr))
      ensures View() == Step(cfg, old(View()), OutLine(x, bs), env)
      ensures logged == Some(if IsJson(bs) then Truncated(bs, TRUNC) else bs)
    {
      logged := Some(bs);
      if bs[0] == '{' && bs[|bs| - 1] == '}' {
        var kept := FilterJson(x, bs, env);
        logged := Some(kept);
      } else if HasPrefix(bs, BOLT) {
        FilterBolt(bs, env);
      } else {
        FilterText(bs, env);
        assert OutLine(x, bs) == TextLine(bs);
      }
    }

    /** The rest of that switch: lines that are not the engine's. */
    method FilterText(bs: string, env: Env)
      requires Valid() && open
      modifies `m, `matches, `sent, `attempts, `arena, stats, c
      ensures Valid() && View() == Step(cfg, old(View()), TextLine(bs), env)
    {
      if HasPrefix(bs, UPLOAD) {
        Collect(env.now);
        assert View() == Flushed(cfg, old(View()), env.now);
      } else if HasPrefix(bs, POOL) {
        Populated(env);
      } else if |bs| != |ARENA| && HasPrefix(bs, ARENA) {
        RenameArena(bs[|ARENA|..], env);
      } else if HasPrefix(bs, NO_SESSION) || HasPrefix(bs, DISCONNECTED) {
        Disconnected(env);
      } else {
        NoEffect(env);
      }
    }

    method Populated(env: Env)
      requires Valid()
      modifies stats
      ensures Valid() && View() == Step(cfg, old(View()), PoolReady, env)
    {
      var n, bots := players.Count();
      if n == 0 { stats.SetStat("idle", Some(At(env.now))); }
    }

    method Disconnected(ghost env: Env)
      requires Valid()
      modifies c
      ensures Valid() && View() == Step(cfg, old(View()), Disconnect, env)
    {
      var told := c.Cancel(Some(Reason.Disconnected));
    }

    /** The deferred calls of `scanner(1)`: collect, close the channel, report Done. */
    method Finish(now: Time)
      requires Valid() && open
      modifies this, stats, c
      ensures Valid() && !open
      ensures View() == Finished(cfg, old(View()), now)
    {
      Collect(now);
      open := false;
      var told := c.Cancel(Some(Done));
    }

    /**
     `scanner` on what it reads until the pipe ends or it gives up: each line with its
     environment, then the deferred calls. `out` is what goes to the log.
     */
    method Scanner(x: Reader, fd: int, lines: seq<(string, Env)>, end: Time) returns (out: seq<string>)
      requires Valid() && (fd == 1 ==> open) && x.Valid()
      modifies this, players.Repr, stats, c
      ensures Valid()
      ensures fd == 1 ==> !open && View() == Finished(cfg, StepAll(cfg, old(View()), x, fd, lines), end)
      ensures fd != 1 ==> View() == old(View()).(cancel := CancelSpec(old(c.View()), Done))
      ensures out == if fd == 1 || fd == 2 then LoggedAll(x, fd, lines) else []
    {
      out := [];
      if fd == 1 || fd == 2 {
        out := ReadLines(x, fd, lines);
        if fd == 2 { OnlyOutputMatters(cfg, old(View()), x, fd, lines); }
      }
      if fd == 1 {
        Finish(end);
      } else {
        var told := c.Cancel(Some(Done));
      }
    }

    /** The loop of `scanner`. */
    method ReadLines(x: Reader, fd: int, lines: seq<(string, Env)>) returns (out: seq<string>)
      requires Valid() && (fd == 1 ==> open) && x.Valid()
      modifies `m, `matches, `sent, `attempts, `changed, `arena, players.Repr, stats, c
      ensures Valid() && fresh(players.Repr - old(players.Repr))
      ensures View() == StepAll(cfg, old(View()), x, fd, lines)
      ensures out == LoggedAll(x, fd, lines)
    {
      out := [];
      for i := 0 to |lines|
        invariant Valid() && fresh(players.Repr - old(players.Repr))
        invariant View() == StepAll(cfg, old(View()), x, fd, lines[..i])
        invariant out == LoggedAll(x, fd, lines[..i])
      {
        OneLineMore(cfg, old(View()), x, fd, lines, i);
        var kept := Filter(x, fd, lines[i].0, lines[i].1);
        if kept.Some? && |kept.value| != 0 { out := out + [kept.value]; }
      }
      assert lines[..|lines|] == lines;
    }

    /** A collector's receive from a channel that holds a match. */
    method Take() returns (taken: Match)
      requires Valid() && matches != []
      modifies `matches
      ensures Valid() && taken == old(matches)[0]
      ensures View() == Taken(old(View()))
    {
      taken := matches[0];
      matches := matches[1..];
    }
  }

  lemma StepOfHuman(cfg: Config, s: LobbyState, sid: string, env: Env)
    requires sid != ""
    ensures Step(cfg, s, Register(sid), env) == Registered(cfg, s, sid, env.now)
    ensures Step(cfg, s, Unregister(sid), env) == Unregistered(cfg, s, sid, env)
  {
  }

  /** Without a log directory JSON is of no effect. */
  lemma StepOfJson(cfg: Config, s: LobbyState, line: Line, env: Env)
    ensures line.Other? ==> Step(cfg, s, line, env) == s
    ensures !cfg.logs && (line.KillData? || line.MatchUpdate?) ==> Step(cfg, s, line, env) == s
  {
  }

  /** All lines, one after the other. */
  ghost function StepAll(cfg: Config, s: LobbyState, x: Reader, fd: int, lines: seq<(string, Env)>): LobbyState {
    if lines == [] then s
    else
      var last := lines[|lines| - 1];
      Step(cfg, StepAll(cfg, s, x, fd, lines[..|lines| - 1]), LineOf(x, fd, last.0), last.1)
  }

  function LoggedAll(x: Reader, fd: int, lines: seq<(string, Env)>): seq<string> {
    if lines == [] then []
    else
      var kept := Logged(x, fd, lines[|lines| - 1].0);
      LoggedAll(x, fd, lines[..|lines| - 1]) + if kept.Some? && kept.value != "" then [kept.value] else []
  }

  lemma OneLineMore(cfg: Config, s: LobbyState, x: Reader, fd: int, lines: seq<(string, Env)>, i: nat)
    requires i < |lines|
    ensures StepAll(cfg, s, x, fd, lines[..i + 1])
            == Step(cfg, StepAll(cfg, s, x, fd, lines[..i]), LineOf(x, fd, lines[i].0), lines[i].1)
    ensures var kept := Logged(x, fd, lines[i].0);
            LoggedAll(x, fd, lines[..i + 1])
            == LoggedAll(x, fd, lines[..i]) + if kept.Some? && kept.value != "" then [kept.value] else []
  {
    assert lines[..i + 1][..i] == lines[..i];
  }

  /** Standard error is only logged. */
  lemma {:induction false} OnlyOutputMatters(cfg: Config, s: LobbyState, x: Reader, fd: int, lines: seq<(string, Env)>)
    requires fd != 1
    ensures StepAll(cfg, s, x, fd, lines) == s
  {
    if lines == [] {
    } else {
      OnlyOutputMatters(cfg, s, x, fd, lines[..|lines| - 1]);
    }
  }

  /** The lines of standard output as moves of a run. */
  function MovesOf(x: Reader, lines: seq<(string, Env)>): (moves: seq<R.Move>)
    ensures |moves| == |lines|
  {
    seq(|lines|, k requires 0 <= k < |lines| => R.Read(LineOf(x, 1, lines[k].0), lines[k].1))
  }

  /** A whole life of the object is a run: what holds over runs holds of it. */
  lemma {:induction false} LinesAreRun(cfg: Config, o: W.Limits, files: Dir, x: Reader, lines: seq<(string, Env)>)
    ensures StepAll(cfg, Start(cfg, if cfg.stats then Cleared(files) else files), x, 1, lines)
            == R.Run(cfg, o, files, MovesOf(x, lines)).lobby
  {
    var moves := MovesOf(x, lines);
    if lines == [] {
      assert moves == [];
    } else {
      var init := lines[..|lines| - 1];
      LinesAreRun(cfg, o, files, x, init);
      assert moves[..|moves| - 1] == MovesOf(x, init);
    }
  }
}
