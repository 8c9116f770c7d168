/** What a lobby has noted and published besides counts and matches, at every moment of every run: changes, the arena, idleness. */
module Notices {
  import opened Decimal
  import opened GoTime
  import opened Mirror
  import opened Names
  import opened Players
  import opened Runs
  import opened Scan
  import opened Stat
  import opened Watcher
  import opened Wrappers

  // ----------------------------------------------------------------------- changes

  /** A bot that comes or goes changes the lobby, and so does a setting that changes while humans are there. */
  ghost predicate Changes(r: Registry, move: Move) {
    match move
    case Read(Register(sid), _) => 1 <= ParseInt(sid) < 1000
    case Read(Unregister(sid), _) => ParseInt(sid) in r.bots
    case Read(SettingChanged, _) => |r.humans| != 0
    case _ => false
  }

  ghost predicate ChangedBy(moves: seq<Move>) {
    exists k :: 0 <= k < |moves| && Changes(RegistryAfter(moves[..k]), moves[k])
  }

  lemma ChangedLast(moves: seq<Move>, last: Move)
    ensures ChangedBy(moves + [last]) <==> ChangedBy(moves) || Changes(RegistryAfter(moves), last)
  {
    var all := moves + [last];
    assert forall k :: 0 <= k <= |moves| ==> all[..k] == moves[..k];
    assert moves[..|moves|] == moves;
    if ChangedBy(moves) {
      var k :| 0 <= k < |moves| && Changes(RegistryAfter(moves[..k]), moves[k]);
      assert Changes(RegistryAfter(all[..k]), all[k]);
    }
    if Changes(RegistryAfter(moves), last) {
      assert Changes(RegistryAfter(all[..|moves|]), all[|moves|]);
    }
  }

  lemma RegisterChanges(cfg: Config, s: LobbyState, sid: string, env: Env)
    requires s.players.Consistent()
    ensures Registered(cfg, s, sid, env.now).changed <==> s.changed || Changes(s.players, Read(Register(sid), env))
  {
    SetAnswers(s.players, sid, "", "");
  }

  lemma UnregisterChanges(cfg: Config, s: LobbyState, sid: string, env: Env)
    requires s.players.Consistent()
    ensures Unregistered(cfg, s, sid, env).changed <==> s.changed || Changes(s.players, Read(Unregister(sid), env))
  {
    RemoveAnswers(s.players, sid);
  }

  lemma StepChanges(cfg: Config, o: Limits, s: System, move: Move)
    requires s.lobby.players.Consistent()
    ensures Next(cfg, o, s, move).lobby.changed <==> s.lobby.changed || Changes(s.lobby.players, move)
  {
    match move
    case Read(Register(sid), env) => RegisterChanges(cfg, s.lobby, sid, env);
    case Read(Unregister(sid), env) => UnregisterChanges(cfg, s.lobby, sid, env);
    case _ =>
  }

  /** A lobby counts as changed exactly if something changed it. */
  lemma {:induction false} RunChanges(cfg: Config, o: Limits, files: Dir, moves: seq<Move>)
    ensures Run(cfg, o, files, moves).lobby.changed <==> ChangedBy(moves)
  {
    if moves == [] {
    } else {
      var init, last := moves[..|moves| - 1], moves[|moves| - 1];
      RunChanges(cfg, o, files, init);
      RunSound(cfg, o, files, init);
      StepChanges(cfg, o, Run(cfg, o, files, init), last);
      ChangedLast(init, last);
      assert init + [last] == moves;
    }
  }

  // -------------------------------------------------------------- idle and full lobbies

  /** What the files `idle` and `full` say after a move, from what they said before, the registry then, and whether the lobby was changed. */
  ghost function IdleAfter(cfg: Config, was: Option<Value>, r: Registry, changed: bool, move: Move): Option<Value> {
    match move
    case Read(PoolReady, env) => if |r.humans| == 0 then Some(At(env.now)) else was
    case Read(Assigned, _) => None
    case Read(Register(sid), _) => if sid != "" && |Admitted(r, move).humans| == 1 then None else was
    case Read(Unregister(sid), env) =>
      if sid != "" && |Admitted(r, move).humans| == 0 && (!(changed || Changes(r, move)) || cfg.maxFails == 0)
      then Some(At(env.now)) else was
    case _ => was
  }

  ghost function FullAfter(was: Option<Value>, r: Registry, move: Move): Option<Value> {
    match move
    case Read(Register(sid), env) => if sid != "" && |Admitted(r, move).humans| == 10 then Some(At(env.now)) else was
    case Read(Unregister(sid), _) => if sid != "" && |Admitted(r, move).humans| == 9 then None else was
    case _ => was
  }

  /** Both files as every history leaves them. */
  ghost function IdleOf(cfg: Config, moves: seq<Move>): Option<Value> {
    if moves == [] then None
    else
      var init := moves[..|moves| - 1];
      IdleAfter(cfg, IdleOf(cfg, init), RegistryAfter(init), ChangedBy(init), moves[|moves| - 1])
  }

  ghost function FullOf(moves: seq<Move>): Option<Value> {
    if moves == [] then None
    else
      var init := moves[..|moves| - 1];
      FullAfter(FullOf(init), RegistryAfter(init), moves[|moves| - 1])
  }

  ghost predicate BoardMoves(cfg: Config, s: LobbyState, t: LobbyState, move: Move) {
    && BoardOf(t.files).idle == IdleAfter(cfg, BoardOf(s.files).idle, s.players, s.changed, move)
    && BoardOf(t.files).full == FullAfter(BoardOf(s.files).full, s.players, move)
  }

  lemma RegisterMoves(cfg: Config, s: LobbyState, sid: string, env: Env)
    requires cfg.stats && s.players.Consistent() && sid != ""
    ensures BoardMoves(cfg, s, Registered(cfg, s, sid, env.now), Read(Register(sid), env))
  {
    var (r, a) := SetSpec(s.players, sid, "", "");
    CountBoard(cfg, s.files, a.id, |r.humans|);
    RegisteredBoard(cfg, s.files, s.book, a.id, |r.humans|, env.now);
  }

  lemma UnregisterMoves(cfg: Config, s: LobbyState, sid: string, env: Env)
    requires cfg.stats && s.players.Consistent() && sid != ""
    ensures BoardMoves(cfg, s, Unregistered(cfg, s, sid, env), Read(Unregister(sid), env))
  {
    var (r, a) := RemoveSpec(s.players, sid);
    UnregisterChanges(cfg, s, sid, env);
    var n := |r.humans|;
    CountBoard(cfg, s.files, a.id, n);
    DepartedBoard(cfg, CountFiles(cfg, s.files, a.id, n), s.book, n, Stays(cfg, s.changed || IsBot(a.id)), env.now);
  }

  lemma UpdateMoves(cfg: Config, s: LobbyState, m: Match, env: Env)
    requires cfg.stats
    ensures BoardMoves(cfg, s, Updated(cfg, s, m, env.now), Read(MatchUpdate(m), env))
  {
    var b := UpdatedBook(cfg, s.book, m, env.now);
    var d := if m.id != s.book.m.id then CollectedFiles(cfg, s.files, s.book) else s.files;
    RemovedBoard(s.files);
    WrittenBoard(d, At(b.m.stamp));
  }

  lemma ReadMoves(cfg: Config, s: LobbyState, line: Line, env: Env)
    requires cfg.stats && Faithful(s)
    ensures BoardMoves(cfg, s, Step(cfg, s, line, env), Read(line, env))
  {
    match line
    case MatchUpdate(m) => UpdateMoves(cfg, s, m, env);
    case UploadComplete => RemovedBoard(s.files);
    case Register(sid) => if sid != "" { RegisterMoves(cfg, s, sid, env); }
    case Unregister(sid) => if sid != "" { UnregisterMoves(cfg, s, sid, env); }
    case ArenaNamed(name) => ArenaFaithful(cfg, s, name, env);
    case PoolReady => WrittenBoard(s.files, At(env.now));
    case Assigned => RemovedBoard(s.files);
    case _ =>
  }

  lemma StepMoves(cfg: Config, o: Limits, s: System, move: Move)
    requires cfg.stats && Faithful(s.lobby)
    ensures BoardMoves(cfg, s.lobby, Next(cfg, o, s, move).lobby, move)
  {
    match move
    case Read(line, env) => ReadMoves(cfg, s.lobby, line, env);
    case EndOfOutput(now) => RemovedBoard(s.lobby.files);
    case _ =>
  }

  /** At every moment `idle` and `full` say exactly what the run's lines have made of them. */
  lemma {:induction false} RunShowsIdleAndFull(cfg: Config, o: Limits, files: Dir, moves: seq<Move>)
    requires cfg.stats
    ensures BoardOf(Run(cfg, o, files, moves).lobby.files).idle == IdleOf(cfg, moves)
    ensures BoardOf(Run(cfg, o, files, moves).lobby.files).full == FullOf(moves)
  {
    if moves == [] {
      ClearedKeepsContents(files);
      LobbyNames();
    } else {
      var init, last := moves[..|moves| - 1], moves[|moves| - 1];
      RunShowsIdleAndFull(cfg, o, files, init);
      RunFaithful(cfg, o, files, init);
      RunSound(cfg, o, files, init);
      RunChanges(cfg, o, files, init);
      StepMoves(cfg, o, Run(cfg, o, files, init), last);
    }
  }

  // -------------------------------------------------------------------------- arena

  /** The last arena that was named. */
  function ArenaOf(moves: seq<Move>): string {
    if moves == [] then ""
    else
      var last := moves[|moves| - 1];
      if last.Read? && last.line.ArenaNamed? && last.line.name != "" then last.line.name
      else ArenaOf(moves[..|moves| - 1])
  }

  function ArenaFile(name: string): Option<Value> {
    if name == "" then None else Some(Text(name))
  }

  /** Another file's writing or removing leaves the arena's alone. */
  lemma ArenaUntouched(cfg: Config, d: Dir, name: string, v: Value)
    requires name in {"players", "full", "idle", "match"}
    ensures Content(Put(cfg, d, name, v), "arena") == Content(d, "arena")
    ensures Content(Del(cfg, d, name), "arena") == Content(d, "arena")
  {
    LobbyNames();
    PlainNames(d, name, v, "arena");
  }

  lemma RegisterArena(cfg: Config, s: LobbyState, sid: string, now: Time)
    ensures Content(Registered(cfg, s, sid, now).files, "arena") == Content(s.files, "arena")
  {
    var (r, a) := SetSpec(s.players, sid, "", "");
    var n := |r.humans|;
    var e := CountFiles(cfg, s.files, a.id, n);
    ArenaUntouched(cfg, s.files, "players", Number(n));
    ArenaUntouched(cfg, e, "idle", At(now));
    ArenaUntouched(cfg, Del(cfg, e, "idle"), "match", At(now));
    ArenaUntouched(cfg, e, "full", At(now));
  }

  lemma UnregisterArena(cfg: Config, s: LobbyState, sid: string, env: Env)
    ensures Content(Unregistered(cfg, s, sid, env).files, "arena") == Content(s.files, "arena")
  {
    var (r, a) := RemoveSpec(s.players, sid);
    var n := |r.humans|;
    var d := CountFiles(cfg, s.files, a.id, n);
    var e := CollectedFiles(cfg, Del(cfg, d, "players"), s.book);
    ArenaUntouched(cfg, s.files, "players", Number(n));
    ArenaUntouched(cfg, d, "players", Number(n));
    ArenaUntouched(cfg, Del(cfg, d, "players"), "match", At(env.now));
    ArenaUntouched(cfg, e, "idle", At(env.now));
    ArenaUntouched(cfg, d, "full", At(env.now));
  }

  lemma UpdateArena(cfg: Config, s: LobbyState, m: Match, now: Time)
    ensures Content(Updated(cfg, s, m, now).files, "arena") == Content(s.files, "arena")
  {
    var b := UpdatedBook(cfg, s.book, m, now);
    var d := if m.id != s.book.m.id then CollectedFiles(cfg, s.files, s.book) else s.files;
    ArenaUntouched(cfg, s.files, "match", At(now));
    ArenaUntouched(cfg, d, "match", At(b.m.stamp));
  }

  lemma NamedArena(cfg: Config, s: LobbyState, name: string, env: Env)
    requires cfg.stats && name != ""
    ensures Content(Step(cfg, s, ArenaNamed(name), env).files, "arena") == Some(Text(name))
  {
    LobbyNames();
    PlainNames(Removed(s.files, "arena"), "arena", Text(name), "arena");
  }

  lemma ReadArena(cfg: Config, s: LobbyState, line: Line, env: Env)
    requires cfg.stats
    ensures var t := Step(cfg, s, line, env);
            if line.ArenaNamed? && line.name != "" then t.arena == line.name && Content(t.files, "arena") == Some(Text(line.name))
            else t.arena == s.arena && Content(t.files, "arena") == Content(s.files, "arena")
  {
    match line
    case MatchUpdate(m) => UpdateArena(cfg, s, m, env.now);
    case UploadComplete => ArenaUntouched(cfg, s.files, "match", At(env.now));
    case Register(sid) => if sid != "" { RegisterArena(cfg, s, sid, env.now); }
    case Unregister(sid) => if sid != "" { UnregisterArena(cfg, s, sid, env); }
    case ArenaNamed(name) => if name != "" { NamedArena(cfg, s, name, env); }
    case PoolReady => ArenaUntouched(cfg, s.files, "idle", At(env.now));
    case Assigned => ArenaUntouched(cfg, s.files, "idle", At(env.now));
    case _ =>
  }

  /** At every moment the lobby's arena and the published one are the last that was named. */
  lemma {:induction false} RunShowsArena(cfg: Config, o: Limits, files: Dir, moves: seq<Move>)
    requires cfg.stats
    ensures var s := Run(cfg, o, files, moves).lobby;
            s.arena == ArenaOf(moves) && Content(s.files, "arena") == ArenaFile(ArenaOf(moves))
  {
    if moves == [] {
      ClearedKeepsContents(files);
      LobbyNames();
    } else {
      var init, last := moves[..|moves| - 1], moves[|moves| - 1];
      var s := Run(cfg, o, files, init).lobby;
      RunShowsArena(cfg, o, files, init);
      match last {
        case Read(line, env) => ReadArena(cfg, s, line, env);
        case EndOfOutput(now) => ArenaUntouched(cfg, s.files, "match", At(now));
        case _ =>
      }
    }
  }

  // ---------------------------------------------------------------------- last match

  /** A new match keeps what was published of the one before it as `lastmatch`; news of the same match does not touch that. */
  lemma NewMatchKeepsLast(cfg: Config, s: LobbyState, m: Match, now: Time)
    requires cfg.stats
    ensures var d := Updated(cfg, s, m, now).files;
            Content(d, "lastmatch") == if m.id != s.book.m.id && s.book.m.id != "" && "match" in s.files
                                       then Content(s.files, "match") else Content(s.files, "lastmatch")
  {
    var b := UpdatedBook(cfg, s.book, m, now);
    var d := if m.id != s.book.m.id then CollectedFiles(cfg, s.files, s.book) else s.files;
    LastMatchName();
    assert Content(Put(cfg, d, "match", At(b.m.stamp)), "lastmatch") == Content(d, "lastmatch");
  }

  lemma LastMatchName()
    ensures !Ignored("match") && LastOf("match") == "lastmatch" && "lastmatch" != "match" && "lastmatch" != "match" + LOCK
  {
    LobbyNames();
    assert |"lastmatch"| == 9 && |"match"| == 5 && |"match" + LOCK| == 10;
  }
}
