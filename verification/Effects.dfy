/** Each line that Scan handles is one atomic line of Shutdown: at most one offer and one reason that matters. */
module Effects {
  import opened Cancel
  import opened GoTime
  import opened Players
  import opened Scan
  import opened Shutdown
  import opened Wrappers

  function ChannelOf(b: Book): Channel {
    Channel(b.queue, false, b.attempts, b.sent, [], [])
  }

  /** The book's channel moved as by one offer. */
  ghost predicate Offers(logs: bool, b: Book, c: Book, m: Option<Match>) {
    var ch := Offer(logs, ChannelOf(b), m);
    c.queue == ch.queue && c.sent == ch.sent && c.attempts == ch.offered
  }

  /** Without a log directory no match is followed. */
  predicate Unfollowed(cfg: Config, b: Book) {
    !cfg.logs ==> b.m.id == ""
  }

  function Pending(b: Book): Option<Match> {
    if b.m.id != "" && b.m.kills != [] then Some(b.m) else None
  }

  lemma CollectOffers(cfg: Config, b: Book, now: Time)
    requires Unfollowed(cfg, b)
    ensures Offers(cfg.logs, b, Collected(b, now), Pending(b))
    ensures Offers(cfg.logs, b, b, None)
    ensures Collected(b, now).m.id == ""
  {
  }

  lemma UpdateOffers(cfg: Config, b: Book, m: Match, now: Time)
    requires Unfollowed(cfg, b)
    ensures Offers(cfg.logs, b, UpdatedBook(cfg, b, m, now), if m.id != b.m.id then Pending(b) else None)
  {
    CollectOffers(cfg, b, now);
  }

  lemma UnregisterOffers(cfg: Config, b: Book, led: bool, n: nat, now: Time)
    requires Unfollowed(cfg, b)
    ensures Offers(cfg.logs, b, UnregisteredBook(b, led, n, now), if n == 0 then Pending(b) else None)
    ensures Unfollowed(cfg, UnregisteredBook(b, led, n, now))
  {
    CollectOffers(cfg, b, now);
    CollectOffers(cfg, Collected(b, now), now);
  }

  /** The second of two reasons in a line is never kept. */
  lemma SecondReasonLost(c: State, first: Reason, second: Reason)
    requires first != Done
    ensures CancelSpec(CancelSpec(c, first), second) == CancelSpec(c, first)
  {
  }

  predicate Reports(c: State, d: State, reason: Option<Reason>) {
    reason != Some(Done) && d == if reason.None? then c else CancelSpec(c, reason.value)
  }

  function ReasonOf(cfg: Config, s: LobbyState, r: Registry, a: Answer, env: Env): Option<Reason> {
    if |r.humans| == 0 && !Stays(cfg, s.changed || IsBot(a.id)) then LastLeft(cfg, env.spec).reason
    else if a.id == -1 then Some(Bug)
    else None
  }

  lemma DepartReports(cfg: Config, s: LobbyState, r: Registry, a: Answer, env: Env)
    ensures Reports(s.cancel, Departed(cfg, s, r, a, env).cancel, ReasonOf(cfg, s, r, a, env))
  {
    var v := LastLeft(cfg, env.spec).reason.value;
    assert v != Done;
    SecondReasonLost(s.cancel, v, Bug);
  }

  /** The effect that stands for a line. */
  ghost function EffectOf(cfg: Config, s: LobbyState, line: Line, env: Env): Effect {
    match line
    case MatchUpdate(m) => Effect(if cfg.logs && m.id != s.book.m.id then Pending(s.book) else None, None)
    case UploadComplete => Effect(Pending(s.book), None)
    case Disconnect => Effect(None, Some(Disconnected))
    case Register(sid) =>
      if sid == "" then Effect(None, None)
      else
        var (r, a) := SetSpec(s.players, sid, "", "");
        Effect(if |r.humans| == 1 then Pending(s.book) else None, if a.id == -1 then Some(Bug) else None)
    case Unregister(sid) =>
      if sid == "" then Effect(None, None)
      else
        var left := RemoveSpec(s.players, sid);
        Effect(if |left.0.humans| == 0 then Pending(s.book) else None, ReasonOf(cfg, s, left.0, left.1, env))
    case _ => Effect(None, None)
  }

  /** What `ReadLine` does with that effect is what the line does to the lobby's channel and reason. */
  lemma LineIsEffect(cfg: Config, s: LobbyState, line: Line, env: Env)
    requires Unfollowed(cfg, s.book)
    ensures var t, e := Step(cfg, s, line, env), EffectOf(cfg, s, line, env);
            && Offers(cfg.logs, s.book, t.book, e.offer)
            && Reports(s.cancel, t.cancel, e.reason)
            && Unfollowed(cfg, t.book)
  {
    CollectOffers(cfg, s.book, env.now);
    match line
    case MatchUpdate(m) => UpdateOffers(cfg, s.book, m, env.now);
    case Unregister(sid) =>
      var left := RemoveSpec(s.players, sid);
      UnregisterOffers(cfg, s.book, left.1.admin, |left.0.humans|, env.now);
      DepartReports(cfg, s, left.0, left.1, env);
    case _ =>
  }

  /** The end of the output is the scanner's last offer and its Done. */
  lemma FinishIsEffect(cfg: Config, s: LobbyState, now: Time)
    requires Unfollowed(cfg, s.book)
    ensures var t := Finished(cfg, s, now);
            Offers(cfg.logs, s.book, t.book, Pending(s.book)) && t.cancel == CancelSpec(s.cancel, Done)
  {
    CollectOffers(cfg, s.book, now);
  }
}
