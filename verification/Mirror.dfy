/** The status directory mirrors the lobby at every moment of every run. */
module Mirror {
  import opened GoTime
  import opened Players
  import opened Runs
  import opened Scan
  import opened Stat
  import opened Watcher
  import opened Wrappers

  /** The four files that say how the lobby stands. */
  datatype Board = Board(players: Option<Value>, full: Option<Value>, idle: Option<Value>, mat: Option<Value>)

  function BoardOf(d: Dir): Board {
    Board(Content(d, "players"), Content(d, "full"), Content(d, "idle"), Content(d, "match"))
  }

  /**
   `players` is there exactly while there are humans, and holds their number; `full`
   exactly while there are ten or more; `idle` only without humans; and a match in
   progress is advertised with its own time.
   */
  predicate Mirrors(b: Board, n: nat, m: Match) {
    && b.players == (if n > 0 then Some(Number(n)) else None)
    && (b.full.Some? <==> n >= 10)
    && (b.idle.Some? ==> n == 0)
    && (m.id != "" ==> b.mat == Some(At(m.stamp)))
  }

  /** The advertised match is one that is in progress. */
  predicate Honest(b: Board, m: Match) {
    b.mat.Some? ==> m.id != ""
  }

  // --------------------------------------------------------- files to the board

  lemma WrittenBoard(d: Dir, v: Value)
    ensures BoardOf(Written(d, "players", v)) == BoardOf(d).(players := Some(v))
    ensures BoardOf(Written(d, "full", v)) == BoardOf(d).(full := Some(v))
    ensures BoardOf(Written(d, "idle", v)) == BoardOf(d).(idle := Some(v))
    ensures BoardOf(Written(d, "match", v)) == BoardOf(d).(mat := Some(v))
    ensures BoardOf(Written(d, "arena", v)) == BoardOf(d)
  {
    LobbyNames();
    WrittenOne(d, "players", v);
    WrittenOne(d, "full", v);
    WrittenOne(d, "idle", v);
    WrittenOne(d, "match", v);
    WrittenOne(d, "arena", v);
  }

  lemma RemovedBoard(d: Dir)
    ensures BoardOf(Removed(d, "players")) == BoardOf(d).(players := None)
    ensures BoardOf(Removed(d, "full")) == BoardOf(d).(full := None)
    ensures BoardOf(Removed(d, "idle")) == BoardOf(d).(idle := None)
    ensures BoardOf(Removed(d, "match")) == BoardOf(d).(mat := None)
    ensures BoardOf(Removed(d, "arena")) == BoardOf(d)
  {
    LobbyNames();
    WrittenOne(d, "players", Number(0));
    WrittenOne(d, "full", Number(0));
    WrittenOne(d, "idle", Number(0));
    WrittenOne(d, "match", Number(0));
    WrittenOne(d, "arena", Number(0));
  }

  lemma WrittenOne(d: Dir, name: string, v: Value)
    requires Plain(name)
    ensures var b, r := BoardOf(Written(d, name, v)), BoardOf(Removed(d, name));
            && b.players == (if name == "players" then Some(v) else Content(d, "players"))
            && b.full == (if name == "full" then Some(v) else Content(d, "full"))
            && b.idle == (if name == "idle" then Some(v) else Content(d, "idle"))
            && b.mat == (if name == "match" then Some(v) else Content(d, "match"))
            && r.players == (if name == "players" then None else Content(d, "players"))
            && r.full == (if name == "full" then None else Content(d, "full"))
            && r.idle == (if name == "idle" then None else Content(d, "idle"))
            && r.mat == (if name == "match" then None else Content(d, "match"))
  {
    LobbyNames();
    PlainNames(d, name, v, "players");
    PlainNames(d, name, v, "full");
    PlainNames(d, name, v, "idle");
    PlainNames(d, name, v, "match");
  }

  // ------------------------------------------------------------------ one step

  ghost predicate Faithful(s: LobbyState) {
    && s.players.Consistent()
    && Mirrors(BoardOf(s.files), |s.players.humans|, s.book.m)
  }

  ghost predicate IsHonest(s: LobbyState) {
    Honest(BoardOf(s.files), s.book.m)
  }

  lemma CountBoard(cfg: Config, d: Dir, id: int, n: nat)
    requires cfg.stats
    ensures var x := BoardOf(d);
            BoardOf(CountFiles(cfg, d, id, n)) == if id >= FIRST_HUMAN && n != 0 then x.(players := Some(Number(n))) else x
  {
    WrittenBoard(d, Number(n));
  }

  lemma RegisteredBoard(cfg: Config, d: Dir, b: Book, id: int, n: nat, now: Time)
    requires cfg.stats
    ensures var x := BoardOf(CountFiles(cfg, d, id, n));
            BoardOf(RegisteredFiles(cfg, d, b, id, n, now))
            == if n == 1 then x.(idle := None, mat := if b.m.id == "" then x.mat else None)
               else if n == 10 then x.(full := Some(At(now)))
               else x
  {
    var e := CountFiles(cfg, d, id, n);
    WrittenBoard(e, At(now));
    RemovedBoard(e);
    RemovedBoard(Removed(e, "idle"));
  }

  lemma DepartedBoard(cfg: Config, d: Dir, b: Book, n: nat, stays: bool, now: Time)
    requires cfg.stats
    ensures var x := BoardOf(d);
            BoardOf(DepartedFiles(cfg, d, b, n, stays, now))
            == if n == 0 then Board(None, x.full, if stays then Some(At(now)) else x.idle,
                                    if b.m.id == "" then x.mat else None)
               else if n == 9 then x.(full := None)
               else x
  {
    RemovedBoard(d);
    RemovedBoard(Removed(d, "players"));
    WrittenBoard(CollectedFiles(cfg, Removed(d, "players"), b), At(now));
  }

  /** The count moves by at most one, which is why tests for exactly ten and exactly nine are enough. */
  lemma RegisterFaithful(cfg: Config, s: LobbyState, sid: string, now: Time)
    requires cfg.stats && Faithful(s)
    ensures Faithful(Registered(cfg, s, sid, now))
    ensures IsHonest(Registered(cfg, s, sid, now)) <==> IsHonest(s)
  {
    var (r, a) := SetSpec(s.players, sid, "", "");
    HumansMoveByOne(s.players, sid, "", "");
    AppliedConsistent(s.players, Update(sid, "", ""));
    CountBoard(cfg, s.files, a.id, |r.humans|);
    RegisteredBoard(cfg, s.files, s.book, a.id, |r.humans|, now);
  }

  lemma UnregisterFaithful(cfg: Config, s: LobbyState, sid: string, env: Env)
    requires cfg.stats && Faithful(s)
    ensures Faithful(Unregistered(cfg, s, sid, env))
    ensures IsHonest(Unregistered(cfg, s, sid, env)) <==> IsHonest(s)
  {
    var (r, a) := RemoveSpec(s.players, sid);
    HumansMoveByOne(s.players, sid, "", "");
    AppliedConsistent(s.players, Remove(sid));
    var n := |r.humans|;
    CountBoard(cfg, s.files, a.id, n);
    DepartedBoard(cfg, CountFiles(cfg, s.files, a.id, n), s.book, n, Stays(cfg, s.changed || IsBot(a.id)), env.now);
  }

  lemma FlushFaithful(cfg: Config, s: LobbyState, now: Time)
    requires cfg.stats && Faithful(s)
    ensures Faithful(Flushed(cfg, s, now))
    ensures IsHonest(Flushed(cfg, s, now)) <==> IsHonest(s)
  {
    RemovedBoard(s.files);
  }

  lemma UpdateFaithful(cfg: Config, s: LobbyState, m: Match, now: Time)
    requires cfg.stats && Faithful(s)
    ensures Faithful(Updated(cfg, s, m, now))
    ensures IsHonest(Updated(cfg, s, m, now)) <==> m.id != ""
  {
    var b := UpdatedBook(cfg, s.book, m, now);
    var d := if m.id != s.book.m.id then CollectedFiles(cfg, s.files, s.book) else s.files;
    RemovedBoard(s.files);
    WrittenBoard(d, At(b.m.stamp));
  }

  /** An update that is followed. */
  predicate IsUpdate(cfg: Config, move: Move) {
    cfg.logs && move.Read? && move.line.MatchUpdate?
  }

  lemma ArenaFaithful(cfg: Config, s: LobbyState, name: string, env: Env)
    requires cfg.stats && Faithful(s)
    ensures BoardOf(Step(cfg, s, ArenaNamed(name), env).files) == BoardOf(s.files)
  {
    RemovedBoard(s.files);
    WrittenBoard(Removed(s.files, "arena"), Text(name));
  }

  lemma ReadFaithful(cfg: Config, s: LobbyState, line: Line, env: Env)
    requires cfg.stats && Faithful(s)
    ensures var t := Step(cfg, s, line, env);
            && Faithful(t)
            && (IsHonest(t) <==> if IsUpdate(cfg, Read(line, env)) then line.m.id != "" else IsHonest(s))
  {
    match line
    case MatchUpdate(m) => UpdateFaithful(cfg, s, m, env.now);
    case UploadComplete => FlushFaithful(cfg, s, env.now);
    case Register(sid) => RegisterFaithful(cfg, s, sid, env.now);
    case Unregister(sid) => UnregisterFaithful(cfg, s, sid, env);
    case ArenaNamed(name) => ArenaFaithful(cfg, s, name, env);
    case PoolReady => WrittenBoard(s.files, At(env.now));
    case Assigned => RemovedBoard(s.files);
    case _ =>
  }

  /** Honesty is lost by an update without an id and mended by one with an id; nothing else touches it. */
  lemma StepFaithful(cfg: Config, o: Limits, s: System, move: Move)
    requires cfg.stats && Faithful(s.lobby)
    ensures Faithful(Next(cfg, o, s, move).lobby)
    ensures IsHonest(Next(cfg, o, s, move).lobby)
            <==> if IsUpdate(cfg, move) then move.line.m.id != "" else IsHonest(s.lobby)
  {
    match move
    case Read(line, env) => ReadFaithful(cfg, s.lobby, line, env);
    case EndOfOutput(now) => FlushFaithful(cfg, s.lobby, now);
    case _ =>
  }

  /** There was no update that was followed, or the last one had an id. */
  predicate LastUpdateNamed(cfg: Config, moves: seq<Move>) {
    if moves == [] then true
    else
      var last := moves[|moves| - 1];
      if IsUpdate(cfg, last) then last.line.m.id != "" else LastUpdateNamed(cfg, moves[..|moves| - 1])
  }

  /**
   The mirror over every run, from whatever an earlier lobby left in the directory; and
   exactly when the advertised match is one that is in progress.
   */
  lemma {:induction false} RunFaithful(cfg: Config, o: Limits, files: Dir, moves: seq<Move>)
    requires cfg.stats
    ensures Faithful(Run(cfg, o, files, moves).lobby)
    ensures IsHonest(Run(cfg, o, files, moves).lobby) <==> LastUpdateNamed(cfg, moves)
  {
    if moves == [] {
      ClearedKeepsContents(files);
      LobbyNames();
    } else {
      var init, last := moves[..|moves| - 1], moves[|moves| - 1];
      RunFaithful(cfg, o, files, init);
      StepFaithful(cfg, o, Run(cfg, o, files, init), last);
    }
  }
}
