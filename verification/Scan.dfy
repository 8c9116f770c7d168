/**
 What one line of the child's output does to the lobby: internal/lobby/scan.go
 with `collect` of internal/lobby/collect.go, as functions on the lobby's state.
 */
module Scan {
  import opened Cancel
  import opened GoTime
  import opened Players
  import opened Spec
  import opened Stat
  import opened Wrappers

  // The capacity of the channel to the collectors.
  const QUEUE_CAP: nat := 10

  // ----------------------------------------------------------------- entities

  datatype Kill = Kill(serial: int)

  /** What else an update carries; only passed on. */
  datatype Info = Info(arena: string, score0: int, score1: int)

  datatype Match = Match(stamp: Time, id: string, info: Info, kills: seq<Kill>)

  function Blank(now: Time): Match {
    Match(now, "", Info("", 0, 0), [])
  }

  /**
   One line of standard output after its prefix or its JSON was recognised. The
   stamp inside a decoded update is never used.
   */
  datatype Line =
    | MatchUpdate(m: Match)
    | KillData(k: Kill)
    | UploadComplete
    | PoolReady
    | ArenaNamed(name: string)
    | Disconnect
    | Assigned
    | Register(sid: string)
    | Unregister(sid: string)
    | SettingChanged
    | Other

  /** `parse` stands for time.Parse with the layout of match ids. */
  datatype Config = Config(session: string, logs: bool, stats: bool, maxFails: int, start: Time,
                           parse: string -> Option<Time>)

  /** What the line's handling reads from outside: the clock and the desired status. */
  datatype Env = Env(now: Time, spec: Spec)

  /** A cancellation as it is raised: by which verdict, with how many humans, in which match. */
  datatype Raise = Raise(reason: Reason, force: bool, humans: nat, id: string)

  /**
   The match being followed and what became of earlier ones. `sent` and `attempts`
   are ledgers: every match handed to the collectors' channel, and every match for
   which that was tried.
   */
  datatype Book = Book(m: Match, queue: seq<Match>, sent: seq<Match>, attempts: seq<Match>)

  datatype LobbyState = LobbyState(players: Registry, book: Book, changed: bool, arena: string, files: Dir, cancel: State)

  ghost function Start(cfg: Config, files: Dir): LobbyState {
    LobbyState(EMPTY, Book(Blank(cfg.start), [], [], []), false, "", files, FRESH)
  }

  // ------------------------------------------------------------------ collect

  /** The non-blocking send. */
  function Offered(b: Book): Book {
    var tried := b.attempts + [b.m];
    if |b.queue| < QUEUE_CAP then Book(b.m, b.queue + [b.m], b.sent + [b.m], tried)
    else Book(b.m, b.queue, b.sent, tried)
  }

  function Collected(b: Book, now: Time): Book {
    if b.m.id == "" then b.(m := b.m.(stamp := now))
    else if b.m.kills == [] then b.(m := Blank(now))
    else Offered(b).(m := Blank(now))
  }

  // -------------------------------------------------------------------- status

  function Put(cfg: Config, d: Dir, name: string, v: Value): Dir {
    if cfg.stats then Written(d, name, v) else d
  }

  function Del(cfg: Config, d: Dir, name: string): Dir {
    if cfg.stats then Removed(d, name) else d
  }

  /** `collect` withdraws the match status only if there was a match. */
  function CollectedFiles(cfg: Config, d: Dir, b: Book): Dir {
    if b.m.id == "" then d else Del(cfg, d, "match")
  }

  // ------------------------------------------------------------------- updates

  /** strings.Index: the first place where `sep` stands in `s`, or -1. */
  function Index(s: string, sep: string): (i: int)
    ensures -1 <= i <= |s| - |sep| || i == -1
    ensures i >= 0 ==> sep <= s[i..]
    ensures forall k :: 0 <= k <= |s| && (i == -1 || k < i) ==> !(sep <= s[k..])
    decreases |s|
  {
    if sep <= s then 0
    else if s == "" then -1
    else
      var i := Index(s[1..], sep);
      assert forall k :: 1 <= k <= |s| ==> s[k..] == s[1..][k - 1..];
      assert s[0..] == s;
      if i == -1 then -1 else i + 1
  }

  /** The time that a match id spells behind the session's name, if it does. */
  function StampOf(cfg: Config, id: string): Option<Time> {
    var i := Index(id, cfg.session);
    if i == -1 || i == |id| - |cfg.session| then None
    else cfg.parse(id[i + |cfg.session|..])
  }

  function UpdatedBook(cfg: Config, b: Book, m: Match, now: Time): Book {
    var c := if m.id != b.m.id then Collected(b, now) else b;
    c.(m := m.(stamp := match StampOf(cfg, m.id) case Some(at) => at case None => c.m.stamp))
  }

  ghost function Updated(cfg: Config, s: LobbyState, m: Match, now: Time): LobbyState {
    var b := UpdatedBook(cfg, s.book, m, now);
    var d := if m.id != s.book.m.id then CollectedFiles(cfg, s.files, s.book) else s.files;
    s.(book := b, files := Put(cfg, d, "match", At(b.m.stamp)))
  }

  // ------------------------------------------------------- register, unregister

  /** The human count is published when a human came or went and some are left. */
  function CountFiles(cfg: Config, d: Dir, id: int, n: nat): Dir {
    if id >= FIRST_HUMAN && n != 0 then Put(cfg, d, "players", Number(n)) else d
  }

  function RegisteredFiles(cfg: Config, d: Dir, b: Book, id: int, n: nat, now: Time): Dir {
    var e := CountFiles(cfg, d, id, n);
    if n == 1 then CollectedFiles(cfg, Del(cfg, e, "idle"), b)
    else if n == 10 then Put(cfg, e, "full", At(now))
    else e
  }

  predicate IsBot(id: int) {
    id != -1 && id < FIRST_HUMAN
  }

  function RejectedCancel(c: State, id: int): State {
    if id == -1 then CancelSpec(c, Bug) else c
  }

  ghost function Registered(cfg: Config, s: LobbyState, sid: string, now: Time): LobbyState {
    var (r, a) := SetSpec(s.players, sid, "", "");
    var n := |r.humans|;
    LobbyState(r,
          if n == 1 then Collected(s.book, now) else s.book,
          s.changed || IsBot(a.id),
          s.arena,
          RegisteredFiles(cfg, s.files, s.book, a.id, n, now),
          RejectedCancel(s.cancel, a.id))
  }

  /** The verdict when the last human has left a lobby that must not go on. */
  function LastLeft(cfg: Config, spec: Spec): Verdict {
    var v := spec.ReasonAfter(cfg.start, 0, 0);
    if v.reason.Some? then v else Verdict(false, Some(IdleTimeout))
  }

  function UnregisteredBook(b: Book, led: bool, n: nat, now: Time): Book {
    var c := if led && b.m.id == "" then Collected(b, now) else b;
    if n == 0 then Collected(c, now) else c
  }

  function DepartedFiles(cfg: Config, d: Dir, b: Book, n: nat, stays: bool, now: Time): Dir {
    if n == 0 then
      var e := CollectedFiles(cfg, Del(cfg, d, "players"), b);
      if stays then Put(cfg, e, "idle", At(now)) else e
    else if n == 9 then Del(cfg, d, "full")
    else d
  }

  function DepartedCancel(cfg: Config, c: State, n: nat, stays: bool, spec: Spec): State {
    if n == 0 && !stays then CancelSpec(c, LastLeft(cfg, spec).reason.value) else c
  }

  /** An emptied lobby goes on if nothing was changed in it or restarts are off. */
  predicate Stays(cfg: Config, changed: bool) {
    !changed || cfg.maxFails == 0
  }

  ghost function Unregistered(cfg: Config, s: LobbyState, sid: string, env: Env): LobbyState {
    var left := RemoveSpec(s.players, sid);
    Departed(cfg, s, left.0, left.1, env)
  }

  /** The lobby once the registry has become `r` with answer `a`. */
  function Departed(cfg: Config, s: LobbyState, r: Registry, a: Answer, env: Env): LobbyState {
    var n := |r.humans|;
    var changed := s.changed || IsBot(a.id);
    LobbyState(r,
          UnregisteredBook(s.book, a.admin, n, env.now),
          changed,
          s.arena,
          DepartedFiles(cfg, CountFiles(cfg, s.files, a.id, n), s.book, n, Stays(cfg, changed), env.now),
          RejectedCancel(DepartedCancel(cfg, s.cancel, n, Stays(cfg, changed), env.spec), a.id))
  }

  // --------------------------------------------------------------------- steps

  ghost function Flushed(cfg: Config, s: LobbyState, now: Time): LobbyState {
    s.(book := Collected(s.book, now), files := CollectedFiles(cfg, s.files, s.book))
  }

  ghost function Step(cfg: Config, s: LobbyState, line: Line, env: Env): LobbyState {
    match line
    case MatchUpdate(m) => if cfg.logs then Updated(cfg, s, m, env.now) else s
    case KillData(k) => if cfg.logs then s.(book := s.book.(m := s.book.m.(kills := s.book.m.kills + [k]))) else s
    case UploadComplete => Flushed(cfg, s, env.now)
    case PoolReady => if |s.players.humans| == 0 then s.(files := Put(cfg, s.files, "idle", At(env.now))) else s
    case ArenaNamed(name) =>
      if name == "" then s
      else s.(arena := name, files := Put(cfg, Del(cfg, s.files, "arena"), "arena", Text(name)))
    case Disconnect => s.(cancel := CancelSpec(s.cancel, Disconnected))
    case Assigned => s.(files := Del(cfg, s.files, "idle"))
    case Register(sid) => if sid == "" then s else Registered(cfg, s, sid, env.now)
    case Unregister(sid) => if sid == "" then s else Unregistered(cfg, s, sid, env)
    case SettingChanged => s.(changed := s.changed || |s.players.humans| != 0)
    case Other => s
  }

  /** The end of the output: the last match is collected before the channel closes. */
  ghost function Finished(cfg: Config, s: LobbyState, now: Time): LobbyState {
    var t := Flushed(cfg, s, now);
    t.(cancel := CancelSpec(t.cancel, Done))
  }

  /** A collector takes the oldest match. */
  ghost function Taken(s: LobbyState): LobbyState {
    if s.book.queue == [] then s else s.(book := s.book.(queue := s.book.queue[1..]))
  }

  // ----------------------------------------------------------------- the queue

  /** Matches wait in the order in which they were sent, and there are never more than ten. */
  ghost predicate Queued(b: Book) {
    && |b.queue| <= QUEUE_CAP && |b.queue| <= |b.sent| <= |b.attempts|
    && b.queue == b.sent[|b.sent| - |b.queue|..]
  }

  /** Between two books: still in order, and at most one match more was tried. */
  ghost predicate OneMore(b: Book, c: Book) {
    Queued(c) && |c.attempts| <= |b.attempts| + 1
  }

  lemma CollectedQueued(b: Book, now: Time)
    requires Queued(b)
    ensures OneMore(b, Collected(b, now))
    ensures b.m.id == "" ==> Collected(b, now).attempts == b.attempts
    ensures Collected(b, now).m.id == ""
  {
  }

  /** No line tries to hand over more than one match. */
  lemma StepQueued(cfg: Config, s: LobbyState, line: Line, env: Env)
    requires Queued(s.book)
    ensures OneMore(s.book, Step(cfg, s, line, env).book)
  {
    match line
    case MatchUpdate(m) => UpdatedQueued(cfg, s.book, m, env.now);
    case UploadComplete => CollectedQueued(s.book, env.now);
    case Register(sid) => CollectedQueued(s.book, env.now);
    case Unregister(sid) =>
      var left := RemoveSpec(s.players, sid);
      UnregisteredQueued(s.book, left.1.admin, |left.0.humans|, env.now);
    case _ =>
  }

  lemma UpdatedQueued(cfg: Config, b: Book, m: Match, now: Time)
    requires Queued(b)
    ensures OneMore(b, UpdatedBook(cfg, b, m, now))
  {
    CollectedQueued(b, now);
  }

  lemma UnregisteredQueued(b: Book, led: bool, n: nat, now: Time)
    requires Queued(b)
    ensures OneMore(b, UnregisteredBook(b, led, n, now))
  {
    CollectedQueued(b, now);
    CollectedQueued(Collected(b, now), now);
  }
}
