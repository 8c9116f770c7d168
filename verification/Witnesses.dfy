/** Inputs on which the code does what one might not expect: one for each condition that is proved elsewhere. */
module Witnesses {
  import C = Cancel
  import K = Causes
  import E = Dates
  import D = Decimal
  import L = Lines
  import opened Mirror
  import P = Players
  import F = Preload
  import W = Rewrite
  import opened Runs
  import opened Scan
  import S = Shutdown
  import Q = Spec
  import opened Stat
  import T = Watcher
  import opened Wrappers

  // --------------------------------------------------------------------- packets

  // 1.1.1.1:1 and 2.2.2.2:2.
  const ONE: seq<F.Byte> := [49, 46, 49, 46, 49, 46, 49, 58, 49]
  const TWO: seq<F.Byte> := [50, 46, 50, 46, 50, 46, 50, 58, 50]

  lemma OccursBehind(a: seq<F.Byte>, b: seq<F.Byte>)
    ensures W.OccursAt(a + b, b, |a|)
  {
  }

  /** A packet of 46 bytes whose last byte happens to begin a frame: the twenty bytes behind it are overwritten. */
  lemma CutFrameIsRewritten()
    ensures var f, g := F.LocalFrame(ONE, ONE), F.PublicFrame(19, TWO);
            var was := F.Repeat(0, 45) + f;
            W.Rewritten(was, f, g, 0, 46)[46..] != was[46..]
  {
    var f, g := F.LocalFrame(ONE, ONE), F.PublicFrame(19, TWO);
    var was := F.Repeat(0, 45) + f;
    F.FramesAreHeadOnly(ONE, ONE, TWO);
    W.BehindTheBuffer(was, f, g, 0, 46);
    OccursBehind(F.Repeat(0, 45), f);
    assert W.Straddles(was, f, 0, 46, 45);
    assert f[2] == 49 && g[2] == 48;
    assert f[1..][1] == f[2] && g[1..][1] == g[2];
  }

  /** Two addresses of nine bytes leave no room for a third of seventeen: the filler's `:` is the second frame's length. */
  method HeaderIsOverwritten(third: seq<F.Byte>) returns (hook: F.Hook)
    requires |third| == 17
    ensures hook.Ready() && hook.From() == F.LocalFrame(ONE, ONE)
    ensures hook.To()[0] != F.BELL || hook.To()[1] != hook.size2 - 2
  {
    hook := new F.Hook();
    var start := hook.Init(true, Some(ONE), Some(ONE), Some(third));
    assert start.Goes?;
  }

  // ------------------------------------------------------------------------- lines

  const BLOB: string := "{\"note\":\"" + seq(68, _ => 'x') + "\"}"

  /** A JSON line of 79 bytes is logged in 80. */
  lemma CutIsLonger(x: L.Reader)
    requires x.trim(BLOB) == BLOB
    ensures |BLOB| == 79 && L.Logged(x, 1, BLOB).Some? && |L.Logged(x, 1, BLOB).value| == 80
  {
    assert BLOB[0] == '{';
    assert forall p :: p in L.STDOUT_PREFIXES ==> p != "" && p[0] != '{';
    assert !L.Dropped(x, 1, BLOB);
    assert L.IsJson(BLOB);
    D.ItoaLength(13, 2);
  }

  const KILL_LINE: string := "{\"shooterId\":\"" + seq(60, _ => 'x') + "\"}"
  const MATCH_LINE: string := "{\"matchId\":\"" + seq(60, _ => 'x') + "\"}"

  /** A line that starts with a shooter is a kill. */
  lemma KillIsKnown(x: L.Reader, k: Kill)
    requires x.kill(KILL_LINE) == Some(k)
    ensures L.OutLine(x, KILL_LINE) == KillData(k)
  {
    assert KILL_LINE[0] == '{' && KILL_LINE[1..1 + |"\"shooterId\""|] == "\"shooterId\"";
    assert L.StandsAt(KILL_LINE, 1, "\"shooterId\"");
    L.KillIff(x, KILL_LINE, k);
  }

  /** A line that starts with a match is an update. */
  lemma UpdateIsKnown(x: L.Reader, m: Match)
    requires x.mat(MATCH_LINE) == Some(m)
    ensures L.OutLine(x, MATCH_LINE) == MatchUpdate(m)
  {
    var shooter := "\"shooterId\"";
    assert MATCH_LINE[0] == '{' && MATCH_LINE[1..1 + |"\"matchId\""|] == "\"matchId\"";
    assert L.StandsAt(MATCH_LINE, 1, "\"matchId\"");
    forall k: nat | k + |shooter| <= 66 ensures !L.StandsAt(MATCH_LINE, k, shooter) {
      if L.StandsAt(MATCH_LINE, k, shooter) {
        var s := MATCH_LINE[k..k + |shooter|];
        assert s[0] == '"' && s[1] == 's';
        assert MATCH_LINE[k] == '"' && MATCH_LINE[k + 1] == 's';
        NoShooter(k);
      }
    }
    L.UpdateIff(x, MATCH_LINE, m);
  }

  lemma NoShooter(k: nat)
    requires k < 60
    ensures MATCH_LINE[k + 1] != 's'
  {
  }

  // ----------------------------------------------------------------------- lobbies

  const QUIET: Q.Spec := Q.Spec(0, 0, 0, 0, 0, 0, 0, 0, 0, 0, 0, 0, 0, 0, 0, 0, 0)
  const CFG: Config := Config("lobby", true, true, 3, 1, _ => None)
  const LIMITS: T.Limits := T.Limits(0, 0, 0)
  const HUMAN: string := D.Itoa(1000)

  lemma RunOne(files: Dir, a: Move)
    ensures Run(CFG, LIMITS, files, [a]) == Next(CFG, LIMITS, Run(CFG, LIMITS, files, []), a)
  {
    assert [a][..0] == [];
  }

  lemma RunTwo(files: Dir, a: Move, b: Move)
    ensures Run(CFG, LIMITS, files, [a, b]) == Next(CFG, LIMITS, Next(CFG, LIMITS, Run(CFG, LIMITS, files, []), a), b)
  {
    RunOne(files, a);
    assert [a, b][..1] == [a];
  }

  /** One update without an id, and a match is published that is not there. */
  lemma NamelessIsPublished(files: Dir)
    ensures var moves := [Read(MatchUpdate(Blank(0)), Env(2, QUIET))];
            var t := Run(CFG, LIMITS, files, moves).lobby;
            BoardOf(t.files).mat.Some? && t.book.m.id == ""
  {
    var move := Read(MatchUpdate(Blank(0)), Env(2, QUIET));
    RunOne(files, move);
    RunFaithful(CFG, LIMITS, files, []);
    StepFaithful(CFG, LIMITS, Run(CFG, LIMITS, files, []), move);
  }

  lemma HumanComes(s: LobbyState, now: int)
    requires s.players == P.EMPTY && !s.changed
    ensures var t := Registered(CFG, s, HUMAN, now);
            && t.players.Consistent() && |t.players.humans| == 1 && 1000 in t.players.humans
            && !t.changed && t.cancel == s.cancel
  {
    D.ParseIntItoa(1000);
    var r := P.SetSpec(s.players, HUMAN, "", "").0;
    assert r.humans == map[1000 := P.Profile("", "")];
  }

  ghost predicate IdleAgain(t: LobbyState, now: int) {
    |t.players.humans| == 0 && t.cancel.reason.None? && Content(t.files, "idle") == Some(At(now))
  }

  lemma HumanGoes(s: LobbyState, sid: string, env: Env)
    requires s.players.Consistent() && |s.players.humans| == 1 && 1000 in s.players.humans
    requires !s.changed && s.cancel.reason.None? && sid == HUMAN
    ensures IdleAgain(Unregistered(CFG, s, sid, env), env.now)
  {
    D.ParseIntItoa(1000);
    K.LastHumanLeaves(CFG, s, sid, env);
  }

  lemma LinesOf(s: System, sid: string, env: Env)
    requires sid != ""
    ensures Next(CFG, LIMITS, s, Read(Register(sid), env)).lobby == Registered(CFG, s.lobby, sid, env.now)
    ensures Next(CFG, LIMITS, s, Read(Unregister(sid), env)).lobby == Unregistered(CFG, s.lobby, sid, env)
  {
  }

  /** One human comes and goes and nothing was changed: the lobby stays, idle. */
  lemma LastHumanLeavesIdle(files: Dir)
    ensures var moves := [Read(Register(HUMAN), Env(2, QUIET)), Read(Unregister(HUMAN), Env(3, QUIET))];
            IdleAgain(Run(CFG, LIMITS, files, moves).lobby, 3)
  {
    var come, go := Read(Register(HUMAN), Env(2, QUIET)), Read(Unregister(HUMAN), Env(3, QUIET));
    var s := Run(CFG, LIMITS, files, []);
    RunTwo(files, come, go);
    HumanComes(s.lobby, 2);
    var t := Next(CFG, LIMITS, s, come);
    LinesOf(s, HUMAN, Env(2, QUIET));
    HumanGoes(t.lobby, HUMAN, Env(3, QUIET));
    LinesOf(t, HUMAN, Env(3, QUIET));
  }

  const BOT: string := D.Itoa(1)

  lemma BotGoes(s: LobbyState, sid: string)
    requires s.players == P.EMPTY && s.cancel.reason.None? && sid == BOT
    ensures var t := Unregistered(CFG, Registered(CFG, s, sid, 2), sid, Env(3, QUIET));
            t.cancel.reason == Some(C.IdleTimeout)
  {
    D.ParseIntItoa(1);
    var come := Registered(CFG, s, sid, 2);
    assert come.players.bots == {1} && come.players.humans == map[];
    K.NobodyLeft(CFG, come, sid, Env(3, QUIET));
  }

  /** One bot comes and goes in a lobby that no human ever joined, and ends it. */
  lemma BotEndsLobby(files: Dir)
    ensures var moves := [Read(Register(BOT), Env(2, QUIET)), Read(Unregister(BOT), Env(3, QUIET))];
            Run(CFG, LIMITS, files, moves).lobby.cancel.reason == Some(C.IdleTimeout)
  {
    var come, go := Read(Register(BOT), Env(2, QUIET)), Read(Unregister(BOT), Env(3, QUIET));
    var s := Run(CFG, LIMITS, files, []);
    RunTwo(files, come, go);
    var t := Next(CFG, LIMITS, s, come);
    LinesOf(s, BOT, Env(2, QUIET));
    LinesOf(t, BOT, Env(3, QUIET));
    BotGoes(s.lobby, BOT);
  }

  const SEEN: Match := Match(0, "m", Info("", 0, 0), [Kill(1)])

  function Twice(m: Match): seq<Move> {
    [Read(MatchUpdate(m), Env(2, QUIET)), Read(UploadComplete, Env(3, QUIET)),
     Read(MatchUpdate(m), Env(4, QUIET)), EndOfOutput(5)]
  }

  function SeenAt(cfg: Config, m: Match, now: int): Match {
    m.(stamp := match StampOf(cfg, m.id) case Some(t) => t case None => now)
  }

  /** One match that is seen twice, each time with its own reading of the clock. */
  lemma SeenTwice(cfg: Config, files: Dir, m: Match)
    requires cfg.logs && m.id != "" && m.kills != []
    ensures Run(cfg, LIMITS, files, Twice(m)).lobby.book.attempts == [SeenAt(cfg, m, 2), SeenAt(cfg, m, 4)]
  {
    var a, b, c, d := Twice(m)[0], Twice(m)[1], Twice(m)[2], Twice(m)[3];
    var g, h := SeenAt(cfg, m, 2), SeenAt(cfg, m, 4);
    var s := Run(cfg, LIMITS, files, []);
    var first := Next(cfg, LIMITS, s, a);
    assert first.lobby.book == Book(g, [], [], []);
    var flushed := Next(cfg, LIMITS, first, b);
    assert flushed.lobby.book == Book(Blank(3), [g], [g], [g]);
    var again := Next(cfg, LIMITS, flushed, c);
    assert again.lobby.book == Book(h, [g], [g], [g]);
    RunFour(cfg, files, a, b, c, d);
    assert Twice(m) == [a, b, c, d];
  }

  lemma RunFour(cfg: Config, files: Dir, a: Move, b: Move, c: Move, d: Move)
    ensures var three := Next(cfg, LIMITS, Next(cfg, LIMITS, Next(cfg, LIMITS, Run(cfg, LIMITS, files, []), a), b), c);
            Run(cfg, LIMITS, files, [a, b, c, d]) == Next(cfg, LIMITS, three, d)
  {
    assert [a, b, c, d][..3] == [a, b, c];
    assert [a, b, c][..2] == [a, b];
    assert [a, b][..1] == [a];
    assert [a][..0] == [];
    assert Run(cfg, LIMITS, files, [a]) == Next(cfg, LIMITS, Run(cfg, LIMITS, files, []), a);
    assert Run(cfg, LIMITS, files, [a, b]) == Next(cfg, LIMITS, Run(cfg, LIMITS, files, [a]), b);
    assert Run(cfg, LIMITS, files, [a, b, c]) == Next(cfg, LIMITS, Run(cfg, LIMITS, files, [a, b]), c);
  }

  /** One match of which the id cannot be read, seen twice, is handed over with two dates. */
  lemma UnreadableIdHasTwoDates(files: Dir)
    ensures Run(CFG, LIMITS, files, Twice(SEEN)).lobby.book.attempts == [SEEN.(stamp := 2), SEEN.(stamp := 4)]
  {
    assert StampOf(CFG, "m").None?;
    SeenTwice(CFG, files, SEEN);
  }

  // A match id behind the session's name, and a library that reads just that time.
  const DATE: string := "1/2/2024 3:04:05 PM"
  const DATED: Config := Config("lobby", true, true, 3, 1, s => if s == DATE then Some(77) else None)
  const READ: Match := SEEN.(id := "x-" + "lobby" + DATE)

  lemma NotEarlier(id: string)
    requires id == "x-" + "lobby" + DATE
    ensures E.FirstPlace("lobby", id, "x-", DATE)
  {
    assert id[0] == 'x' && id[1] == '-' && "lobby"[0] == 'l';
    assert !("lobby" <= id[0..]) && !("lobby" <= id[1..]);
  }

  lemma ReadableId()
    ensures StampOf(DATED, READ.id) == Some(77)
  {
    NotEarlier(READ.id);
    E.StampIsParsed(DATED, READ.id, "x-", DATE);
  }

  /** A match whose id can be read, seen twice in the same way, is handed over with one date. */
  lemma ReadableIdHasOneDate(files: Dir)
    ensures Run(DATED, LIMITS, files, Twice(READ)).lobby.book.attempts == [READ.(stamp := 77), READ.(stamp := 77)]
  {
    ReadableId();
    SeenTwice(DATED, files, READ);
  }

  // -------------------------------------------------------------------- goroutines

  /** The state after the actions, if each of them may be taken. */
  function Through(s: S.Sys, acts: seq<S.Action>): Option<S.Sys>
    decreases |acts|
  {
    if acts == [] then Some(s)
    else if S.May(s, acts[0]) then Through(S.Next(s, acts[0]), acts[1..])
    else None
  }

  lemma ThroughOne(s: S.Sys, a: S.Action, rest: seq<S.Action>)
    requires S.May(s, a)
    ensures Through(s, [a] + rest) == Through(S.Next(s, a), rest)
  {
    assert ([a] + rest)[1..] == rest;
  }

  /** The child has started, and the scanner of standard error gives up on a line too long. */
  const MIDDLE: S.Sys := S.Init(true, true).(main := S.Waiting, err := S.ErrGone, wg := 4,
      pipes := S.Pipes(true, true, true, [], 1, true, true, false),
      reasons := S.Reasons(C.State(Some(C.Done), C.Closed, C.Running, 1), [C.Done]))

  const GIVE_UP: seq<S.Action> :=
    [S.MainDoes(S.Launch), S.ChildDoes(S.PrintErr), S.ErrDoes(S.GiveUpErr), S.ErrDoes(S.CloseErrPipe),
     S.ErrDoes(S.ErrReport), S.ErrDoes(S.ErrLeave)]

  const END_CLEANLY: seq<S.Action> := [S.ChildDoes(S.Exit), S.MainDoes(S.Reap(None)), S.MainDoes(S.Report)]

  lemma {:induction false} ThroughBoth(s: S.Sys, a: seq<S.Action>, b: seq<S.Action>)
    requires Through(s, a).Some?
    ensures Through(s, a + b) == Through(Through(s, a).value, b)
    decreases |a|
  {
    if a == [] {
      assert a + b == b;
    } else {
      ThroughBoth(S.Next(s, a[0]), a[1..], b);
      assert (a + b)[1..] == a[1..] + b;
    }
  }

  lemma ScannerGivesUp()
    ensures Through(S.Init(true, true), GIVE_UP) == Some(MIDDLE)
  {
    var s0 := S.Init(true, true);
    var s1 := S.Next(s0, GIVE_UP[0]);
    var s2 := S.Next(s1, GIVE_UP[1]);
    var s3 := S.Next(s2, GIVE_UP[2]);
    var s4 := S.Next(s3, GIVE_UP[3]);
    var s5 := S.Next(s4, GIVE_UP[4]);
    assert S.Next(s5, GIVE_UP[5]) == MIDDLE;
    assert Through(MIDDLE, []) == Some(MIDDLE);
    assert GIVE_UP[5..] == [GIVE_UP[5]] + [];
    ThroughOne(s5, GIVE_UP[5], []);
    ThroughOne(s4, GIVE_UP[4], GIVE_UP[5..]);
    ThroughOne(s3, GIVE_UP[3], GIVE_UP[4..]);
    ThroughOne(s2, GIVE_UP[2], GIVE_UP[3..]);
    ThroughOne(s1, GIVE_UP[1], GIVE_UP[2..]);
    ThroughOne(s0, GIVE_UP[0], GIVE_UP[1..]);
  }

  /** The same scanner's Done closes `done`: the watcher leaves, and the child lives on without it, untouched by any timeout. */
  lemma WatcherLeaves()
    ensures var t := Through(MIDDLE, [S.WatchDoes(S.SeeDone), S.WatchDoes(S.WatchReport), S.WatchDoes(S.WatchLeave)]);
            && t.Some? && t.value.pipes.alive && t.value.watch.WatchGone?
            && t.value.reasons.cancel.reason == Some(C.Done)
  {
    var a, b, c := S.WatchDoes(S.SeeDone), S.WatchDoes(S.WatchReport), S.WatchDoes(S.WatchLeave);
    var s1 := S.Next(MIDDLE, a);
    var s2 := S.Next(s1, b);
    var s3 := S.Next(s2, c);
    assert Through(s3, []) == Some(s3);
    assert [a, b, c] == [a] + ([b] + ([c] + []));
    ThroughOne(s2, c, []);
    ThroughOne(s1, b, [c] + []);
    ThroughOne(MIDDLE, a, [b] + ([c] + []));
  }

  /** From the start: after these steps the lobby has a living child, no watcher and no cause. */
  lemma UnwatchedChild()
    ensures var t := Through(S.Init(true, true), GIVE_UP + [S.WatchDoes(S.SeeDone), S.WatchDoes(S.WatchReport),
                                                            S.WatchDoes(S.WatchLeave)]);
            && t.Some? && t.value.pipes.alive && t.value.watch.WatchGone?
            && t.value.reasons.cancel.reason == Some(C.Done)
  {
    ScannerGivesUp();
    WatcherLeaves();
    ThroughBoth(S.Init(true, true), GIVE_UP, [S.WatchDoes(S.SeeDone), S.WatchDoes(S.WatchReport), S.WatchDoes(S.WatchLeave)]);
  }

  lemma ChildEndsCleanly()
    ensures var t := Through(MIDDLE, END_CLEANLY); t.Some? && t.value.told == Some(C.Done)
  {
    var s1 := S.Next(MIDDLE, END_CLEANLY[0]);
    var s2 := S.Next(s1, END_CLEANLY[1]);
    var s3 := S.Next(s2, END_CLEANLY[2]);
    assert Through(s3, []) == Some(s3);
    assert END_CLEANLY[2..] == [END_CLEANLY[2]] + [];
    ThroughOne(s2, END_CLEANLY[2], []);
    ThroughOne(s1, END_CLEANLY[1], END_CLEANLY[2..]);
    ThroughOne(MIDDLE, END_CLEANLY[0], END_CLEANLY[1..]);
  }

  /** Then the child ends without an error, and `runc` returns Done. */
  lemma DoneIsReturned()
    ensures var t := Through(S.Init(true, true), GIVE_UP + END_CLEANLY); t.Some? && t.value.told == Some(C.Done)
  {
    ScannerGivesUp();
    ChildEndsCleanly();
    ThroughBoth(S.Init(true, true), GIVE_UP, END_CLEANLY);
  }

  /** A desired status that forces the lobby down before its child is started leaves the child running, and untold. */
  lemma NeverTold()
    ensures var t := Through(S.Init(true, true), [S.WatchDoes(S.Raise(C.Downed)), S.MainDoes(S.Launch)]);
            && t.Some? && t.value.pipes.alive
            && t.value.reasons.cancel.reason == Some(C.Downed) && t.value.reasons.cancel.signals == 0
  {
    var s := S.Init(true, true);
    ThroughOne(s, S.WatchDoes(S.Raise(C.Downed)), [S.MainDoes(S.Launch)]);
    ThroughOne(S.Next(s, S.WatchDoes(S.Raise(C.Downed))), S.MainDoes(S.Launch), []);
  }
}
