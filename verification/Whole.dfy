/**
 From the child's output to the written files: the goroutines of Shutdown, fed with the
 lines of a lobby, offer exactly the groups of those lines, and every one of them ends
 up with one collector or was dropped on a full queue.
 */
module Whole {
  import opened Effects
  import opened Grouping
  import R = Runs
  import opened Scan
  import S = Shutdown
  import P = ShutdownProofs
  import opened Stat
  import W = Watcher
  import opened Wrappers

  /** The lobby whose output is read, and that output. */
  datatype Source = Source(cfg: Config, o: W.Limits, files: Dir, lines: seq<R.Move>) {
    ghost predicate Valid() {
      forall k :: 0 <= k < |lines| ==> lines[k].Read?
    }

    /** The lobby after the first `k` lines. */
    ghost function LobbyAt(k: nat): LobbyState
      requires k <= |lines|
    {
      R.Run(cfg, o, files, lines[..k]).lobby
    }

    /** What line `k` does there. */
    ghost function EffectAt(k: nat): S.Effect
      requires Valid() && k < |lines|
    {
      EffectOf(cfg, LobbyAt(k), lines[k].line, lines[k].env)
    }

    /** The matches that the first `k` lines and the end of the output amount to. */
    ghost function GroupsOf(k: nat): seq<Match>
      requires k <= |lines|
    {
      Groups(cfg, Marks(cfg, lines[..k] + [R.EndOfOutput(cfg.start)]), 0)
    }
  }

  // ------------------------------------------------------------------ the lobby's side

  lemma {:induction false} LobbyUnfollowed(x: Source, k: nat)
    requires x.Valid() && k <= |x.lines|
    ensures Unfollowed(x.cfg, x.LobbyAt(k).book)
  {
    if k == 0 {
    } else {
      LobbyUnfollowed(x, k - 1);
      LobbyMoves(x, k - 1);
      LineIsEffect(x.cfg, x.LobbyAt(k - 1), x.lines[k - 1].line, x.lines[k - 1].env);
    }
  }

  lemma LobbyMoves(x: Source, k: nat)
    requires x.Valid() && k < |x.lines|
    ensures x.LobbyAt(k + 1) == Step(x.cfg, x.LobbyAt(k), x.lines[k].line, x.lines[k].env)
  {
    assert x.lines[..k + 1][..k] == x.lines[..k];
  }

  /** What is offered depends on the offers so far alone. */
  lemma OffersAlike(logs: bool, c: S.Channel, d: S.Channel, m: Option<Match>)
    requires c.offered == d.offered
    ensures S.Offer(logs, c, m).offered == S.Offer(logs, d, m).offered
  {
  }

  lemma LineOffers(x: Source, k: nat, c: S.Channel)
    requires x.Valid() && k < |x.lines| && c.offered == x.LobbyAt(k).book.attempts
    ensures S.Offer(x.cfg.logs, c, x.EffectAt(k).offer).offered == x.LobbyAt(k + 1).book.attempts
  {
    var s := x.LobbyAt(k);
    LobbyUnfollowed(x, k);
    LobbyMoves(x, k);
    LineIsEffect(x.cfg, s, x.lines[k].line, x.lines[k].env);
    OffersAlike(x.cfg.logs, c, ChannelOf(s.book), x.EffectAt(k).offer);
  }

  /** The last offer completes the groups. */
  lemma EndOffers(x: Source, k: nat, c: S.Channel)
    requires x.Valid() && k <= |x.lines| && c.offered == x.LobbyAt(k).book.attempts
    ensures S.Offer(x.cfg.logs, c, Pending(x.LobbyAt(k).book)).offered == x.GroupsOf(k)
  {
    var s, moves := x.LobbyAt(k), x.lines[..k] + [R.EndOfOutput(x.cfg.start)];
    LobbyUnfollowed(x, k);
    FinishIsEffect(x.cfg, s, x.cfg.start);
    OffersAlike(x.cfg.logs, c, ChannelOf(s.book), Pending(s.book));
    RunCollectsGroups(x.cfg, x.o, x.files, moves);
    assert moves[..|moves| - 1] == x.lines[..k];
  }

  // ------------------------------------------------------------- the goroutines' side

  predicate IsPrint(a: S.Action) {
    a.ChildDoes? && a.child.Print?
  }

  predicate IsRead(a: S.Action) {
    a.OutDoes? && a.out.ReadLine?
  }

  ghost function Prints(acts: nat -> S.Action, i: nat): nat {
    if i == 0 then 0 else if IsPrint(acts(i - 1)) then Prints(acts, i - 1) + 1 else Prints(acts, i - 1)
  }

  ghost function Reads(acts: nat -> S.Action, i: nat): nat {
    if i == 0 then 0 else if IsRead(acts(i - 1)) then Reads(acts, i - 1) + 1 else Reads(acts, i - 1)
  }

  /** The child prints the next line of the source, or the scanner offers the last match. */
  ghost predicate Uttered(x: Source, a: S.Action, printed: nat, read: nat)
    requires x.Valid()
  {
    match a
    case ChildDoes(Print(e)) => printed < |x.lines| && e == x.EffectAt(printed)
    case OutDoes(CollectLast(m)) => read <= |x.lines| && m == Pending(x.LobbyAt(read).book)
    case _ => true
  }

  ghost predicate UttersAt(x: Source, acts: nat -> S.Action, i: nat)
    requires x.Valid()
  {
    Uttered(x, acts(i), Prints(acts, i), Reads(acts, i))
  }

  ghost predicate Utters(x: Source, acts: nat -> S.Action) {
    x.Valid() && forall i: nat :: UttersAt(x, acts, i)
  }

  /** The pipe holds what was printed and not read. */
  ghost predicate Piped(x: Source, lines: seq<S.Effect>, printed: nat, read: nat)
    requires x.Valid()
  {
    && read <= printed <= |x.lines| && |lines| == printed - read
    && forall n :: 0 <= n < |lines| ==> lines[n] == x.EffectAt(read + n)
  }

  predicate Collecting(p: S.OutPoint) {
    p.Scanning? || p.ClosingPipe? || p.CollectingLast?
  }

  /** What was offered is what the lobby tried to hand over with the lines read. */
  ghost predicate Offering(x: Source, s: S.Sys, read: nat)
    requires x.Valid() && read <= |x.lines|
  {
    && s.logs == x.cfg.logs
    && s.ch.offered == if Collecting(s.out) then x.LobbyAt(read).book.attempts else x.GroupsOf(read)
  }

  ghost predicate Tracks(x: Source, s: S.Sys, printed: nat, read: nat)
    requires x.Valid()
  {
    Piped(x, s.pipes.outLines, printed, read) && Offering(x, s, read)
  }

  lemma ReadTracks(x: Source, lines: seq<S.Effect>, c: S.Channel, printed: nat, read: nat)
    requires x.Valid() && Piped(x, lines, printed, read) && lines != []
    requires c.offered == x.LobbyAt(read).book.attempts
    ensures read < printed && Piped(x, lines[1..], printed, read + 1)
    ensures S.Offer(x.cfg.logs, c, lines[0].offer).offered == x.LobbyAt(read + 1).book.attempts
  {
    assert lines[0] == x.EffectAt(read + 0);
    LineOffers(x, read, c);
    forall n | 0 <= n < |lines[1..]| ensures lines[1..][n] == x.EffectAt(read + 1 + n) {
      assert lines[n + 1] == x.EffectAt(read + (n + 1));
    }
  }

  lemma OutTracks(x: Source, s: S.Sys, a: S.OutAction, printed: nat, read: nat)
    requires x.Valid() && Tracks(x, s, printed, read) && S.OutMay(s, a)
    requires a.CollectLast? ==> a.m == Pending(x.LobbyAt(read).book)
    ensures Tracks(x, S.OutNext(s, a), printed, if a.ReadLine? then read + 1 else read)
  {
    match a
    case ReadLine => ReadTracks(x, s.pipes.outLines, s.ch, printed, read);
    case CollectLast(m) => EndOffers(x, read, s.ch);
    case _ =>
  }

  lemma ChildTracks(x: Source, s: S.Sys, a: S.ChildAction, printed: nat, read: nat)
    requires x.Valid() && Tracks(x, s, printed, read) && S.ChildMay(s, a)
    requires a.Print? ==> printed < |x.lines| && a.effect == x.EffectAt(printed)
    ensures Tracks(x, S.ChildNext(s, a), if a.Print? then printed + 1 else printed, read)
  {
  }

  predicate SameSide(s: S.Sys, t: S.Sys) {
    t.logs == s.logs && t.out == s.out && t.pipes.outLines == s.pipes.outLines && t.ch.offered == s.ch.offered
  }

  /** Nobody else touches the pipe's lines, the offers or the scanner. */
  lemma OthersElsewhere(s: S.Sys, a: S.Action)
    requires S.May(s, a) && !a.OutDoes? && !a.ChildDoes?
    ensures SameSide(s, S.Next(s, a))
  {
  }

  lemma OthersTrack(x: Source, s: S.Sys, t: S.Sys, printed: nat, read: nat)
    requires x.Valid() && Tracks(x, s, printed, read) && SameSide(s, t)
    ensures Tracks(x, t, printed, read)
  {
  }

  lemma InitTracks(x: Source, watched: bool)
    requires x.Valid()
    ensures Tracks(x, S.Init(x.cfg.logs, watched), 0, 0)
  {
  }

  lemma StepTracks(x: Source, s: S.Sys, a: S.Action, t: S.Sys, printed: nat, read: nat)
    requires x.Valid() && Tracks(x, s, printed, read) && Uttered(x, a, printed, read)
    requires S.May(s, a) && t == S.Next(s, a)
    ensures Tracks(x, t, if IsPrint(a) then printed + 1 else printed, if IsRead(a) then read + 1 else read)
  {
    match a
    case OutDoes(b) => OutTracks(x, s, b, printed, read);
    case ChildDoes(b) => ChildTracks(x, s, b, printed, read);
    case _ =>
      OthersElsewhere(s, a);
      OthersTrack(x, s, t, printed, read);
  }

  lemma MoveTracks(x: Source, states: nat -> S.Sys, acts: nat -> S.Action, i: nat)
    requires Utters(x, acts) && P.IsRun(states, acts)
    requires Tracks(x, states(i), Prints(acts, i), Reads(acts, i))
    ensures Tracks(x, states(i + 1), Prints(acts, i + 1), Reads(acts, i + 1))
  {
    var p, r := Prints(acts, i), Reads(acts, i);
    assert P.StepAt(states, acts, i) && UttersAt(x, acts, i);
    StepTracks(x, states(i), acts(i), states(i + 1), p, r);
    assert Prints(acts, i + 1) == if IsPrint(acts(i)) then p + 1 else p;
    assert Reads(acts, i + 1) == if IsRead(acts(i)) then r + 1 else r;
  }

  lemma {:induction false} RunTracks(x: Source, states: nat -> S.Sys, acts: nat -> S.Action, watched: bool, i: nat)
    requires Utters(x, acts) && P.IsRun(states, acts) && states(0) == S.Init(x.cfg.logs, watched)
    ensures Tracks(x, states(i), Prints(acts, i), Reads(acts, i))
  {
    if i == 0 {
      InitTracks(x, watched);
    } else {
      RunTracks(x, states, acts, watched, i - 1);
      MoveTracks(x, states, acts, i - 1);
    }
  }

  // --------------------------------------------------------------- all lines are read

  /** A scanner that did not give up leaves nothing behind. */
  predicate Drained(s: S.Sys) {
    s.pipes.gaveUp || s.out.Scanning? || S.OutEof(s.pipes)
  }

  lemma OutDrains(s: S.Sys, a: S.OutAction)
    requires S.OutMay(s, a) && Drained(s)
    ensures Drained(S.OutNext(s, a))
  {
  }

  /** The pipe's writing ends are opened and closed by the child and the caller alone. */
  lemma MainDrains(s: S.Sys, a: S.MainAction)
    requires P.MainFits(s.main, s.watch, s.reasons.cancel, s.pipes) && S.MainMay(s, a) && Drained(s)
    ensures Drained(S.MainNext(s, a))
  {
  }

  lemma ErrDrains(s: S.Sys, a: S.ErrAction)
    requires S.ErrMay(s, a) && Drained(s)
    ensures Drained(S.ErrNext(s, a))
  {
  }

  lemma ColDrains(s: S.Sys, second: bool, a: S.ColAction)
    requires S.ColMay(s, second, a)
    ensures var t := S.ColNext(s, second, a); t.pipes == s.pipes && t.out == s.out && t.ch.dropped == s.ch.dropped
  {
  }

  lemma WatchDrains(s: S.Sys, a: S.WatchAction)
    requires S.WatchMay(s, a)
    ensures var t := S.WatchNext(s, a); t.pipes == s.pipes && t.out == s.out && t.ch == s.ch
  {
  }

  lemma StepDrains(s: S.Sys, a: S.Action)
    requires P.MainFits(s.main, s.watch, s.reasons.cancel, s.pipes) && S.May(s, a) && Drained(s)
    ensures Drained(S.Next(s, a))
  {
    match a
    case OutDoes(b) => OutDrains(s, b);
    case MainDoes(b) => MainDrains(s, b);
    case ErrDoes(b) => ErrDrains(s, b);
    case ColDoes(second, b) => ColDrains(s, second, b);
    case WatchDoes(b) => WatchDrains(s, b);
    case _ =>
  }

  lemma {:induction false} RunDrains(states: nat -> S.Sys, acts: nat -> S.Action, logs: bool, watched: bool, i: nat)
    requires P.IsRun(states, acts) && states(0) == S.Init(logs, watched)
    ensures Drained(states(i))
  {
    if i == 0 {
    } else {
      RunDrains(states, acts, logs, watched, i - 1);
      P.RunInv(states, acts, logs, watched, i - 1);
      assert P.StepAt(states, acts, i - 1);
      StepDrains(states(i - 1), acts(i - 1));
    }
  }

  // ----------------------------------------------------------------------- the result

  lemma OutDrops(s: S.Sys, a: S.OutAction)
    requires P.InOrder(s.logs, s.ch) && S.OutMay(s, a) && S.OutNext(s, a).ch.dropped != s.ch.dropped
    ensures |s.ch.queue| == QUEUE_CAP
  {
  }

  /** A match is only dropped while ten others wait. */
  lemma DroppedOnFull(s: S.Sys, a: S.Action)
    requires P.InOrder(s.logs, s.ch) && S.May(s, a) && S.Next(s, a).ch.dropped != s.ch.dropped
    ensures |s.ch.queue| == QUEUE_CAP
  {
    match a
    case OutDoes(b) => OutDrops(s, b);
    case ColDoes(second, b) => ColDrains(s, second, b);
    case _ =>
  }

  /**
   All is done, and every group of the lines that were read was finished by exactly one
   collector or dropped; all lines were read unless a scanner gave up.
   */
  ghost predicate GroupsDone(x: Source, s: S.Sys, printed: nat, read: nat)
    requires x.Valid()
  {
    && P.AllDone(s) && read <= printed <= |x.lines|
    && multiset(x.GroupsOf(read)) == multiset(s.col0.finished) + multiset(s.col1.finished) + multiset(s.ch.dropped)
    && (!s.pipes.gaveUp ==> read == printed)
  }

  lemma DoneIsGroupsDone(x: Source, s: S.Sys, printed: nat, read: nat)
    requires x.Valid() && P.AllDone(s) && Tracks(x, s, printed, read) && Drained(s)
    ensures GroupsDone(x, s, printed, read)
  {
  }

  /** Every fair interleaving in which the child ends comes to that. */
  lemma EveryGroupIsWritten(x: Source, states: nat -> S.Sys, acts: nat -> S.Action, watched: bool, k: nat)
    requires Utters(x, acts) && P.IsRun(states, acts) && P.Fair(states, acts)
    requires states(0) == S.Init(x.cfg.logs, watched) && P.Ended(states(k))
    ensures exists n: nat :: k <= n && GroupsDone(x, states(n), Prints(acts, n), Reads(acts, n))
                             && P.AnswersAt(states, acts, n)
  {
    P.EveryFairRunEnds(states, acts, x.cfg.logs, watched, k);
    var n: nat :| k <= n && P.AllDone(states(n)) && P.AnswersAt(states, acts, n);
    RunTracks(x, states, acts, watched, n);
    RunDrains(states, acts, x.cfg.logs, watched, n);
    DoneIsGroupsDone(x, states(n), Prints(acts, n), Reads(acts, n));
  }
}
