/**
 Which matches a lobby hands over: the output is cut into runs of updates with one
 id, and each run gives at most one match.
 */
module Grouping {
  import opened GoTime
  import opened Players
  import opened Runs
  import opened Scan
  import opened Stat
  import opened Watcher
  import opened Wrappers

  // --------------------------------------------------------------------- marks

  /** What a step means for matches; `now` is the clock when the update was read. */
  datatype Mark = Upd(m: Match, now: Time) | Single(k: Kill) | Flush | Skip

  /** Flushes are: upload complete, the first human, the last human gone, the end of the output. */
  ghost function MarkOf(cfg: Config, r: Registry, move: Move): Mark {
    match move
    case Read(MatchUpdate(m), env) => if cfg.logs then Upd(m, env.now) else Skip
    case Read(KillData(k), _) => if cfg.logs then Single(k) else Skip
    case Read(UploadComplete, _) => Flush
    case Read(Register(sid), _) =>
      if sid != "" && |SetSpec(r, sid, "", "").0.humans| == 1 then Flush else Skip
    case Read(Unregister(sid), _) =>
      if sid != "" && |RemoveSpec(r, sid).0.humans| == 0 then Flush else Skip
    case EndOfOutput(_) => Flush
    case _ => Skip
  }

  ghost function Marks(cfg: Config, moves: seq<Move>): seq<Mark> {
    seq(|moves|, k requires 0 <= k < |moves| => MarkOf(cfg, RegistryAfter(moves[..k]), moves[k]))
  }

  // ---------------------------------------------------------------- the grouping

  predicate Ends(mark: Mark, id: string) {
    mark.Flush? || (mark.Upd? && mark.m.id != id)
  }

  /** The first mark from `k` on that ends a run of `id`, or the end of the marks. */
  function RunEnd(marks: seq<Mark>, k: nat, id: string): (j: nat)
    requires k <= |marks|
    ensures k <= j <= |marks|
    ensures forall n :: k <= n < j ==> !Ends(marks[n], id)
    ensures j < |marks| ==> Ends(marks[j], id)
    decreases |marks| - k
  {
    if k == |marks| || Ends(marks[k], id) then k else RunEnd(marks, k + 1, id)
  }

  function LastUpdate(marks: seq<Mark>, i: nat, j: nat): (l: nat)
    requires i < j <= |marks| && marks[i].Upd?
    ensures i <= l < j && marks[l].Upd?
    ensures forall n :: l < n < j ==> !marks[n].Upd?
  {
    if marks[j - 1].Upd? then j - 1 else LastUpdate(marks, i, j - 1)
  }

  function Singles(marks: seq<Mark>, a: nat, b: nat): seq<Kill>
    requires a <= b <= |marks|
  {
    if a == b then []
    else Singles(marks, a, b - 1) + if marks[b - 1].Single? then [marks[b - 1].k] else []
  }

  /**
   The match of the run `[i, j)`: its last update, with the single kills after that
   update, dated by its id if that can be read, and by the run's first line if not.
   */
  function GroupOf(cfg: Config, marks: seq<Mark>, i: nat, j: nat): Match
    requires i < j <= |marks| && marks[i].Upd?
  {
    var l := LastUpdate(marks, i, j);
    var m := marks[l].m;
    m.(kills := m.kills + Singles(marks, l + 1, j),
       stamp := match StampOf(cfg, m.id) case Some(t) => t case None => marks[i].now)
  }

  /** The matches of the runs from `i` on that come to an end, in order; one without kills is none. */
  function Groups(cfg: Config, marks: seq<Mark>, i: nat): (gs: seq<Match>)
    requires i <= |marks|
    decreases |marks| - i
  {
    if i == |marks| then []
    else if marks[i].Upd? && marks[i].m.id != "" then
      var j := RunEnd(marks, i + 1, marks[i].m.id);
      if j == |marks| then []
      else
        var g := GroupOf(cfg, marks, i, j);
        (if g.kills == [] then [] else [g]) + Groups(cfg, marks, j)
    else Groups(cfg, marks, i + 1)
  }

  // ------------------------------------------------------- the lobby's own way

  function Cur(m: Match): Option<Match> {
    if m.id == "" then None else Some(m)
  }

  function Emit(cur: Option<Match>): seq<Match> {
    if cur.Some? && cur.value.kills != [] then [cur.value] else []
  }

  function Emits(cur: Option<Match>, mark: Mark): seq<Match> {
    if cur.Some? && Ends(mark, cur.value.id) then Emit(cur) else []
  }

  function Advance(cfg: Config, cur: Option<Match>, mark: Mark): Option<Match> {
    match mark
    case Flush => None
    case Skip => cur
    case Single(k) => if cur.None? then None else Some(cur.value.(kills := cur.value.kills + [k]))
    case Upd(m, now) =>
      if m.id == "" then None
      else
        var carried := if cur.Some? && cur.value.id == m.id then cur.value.stamp else now;
        Some(m.(stamp := match StampOf(cfg, m.id) case Some(t) => t case None => carried))
  }

  /** The matches still to come from mark `k` on, when `cur` is being followed. */
  function Fold(cfg: Config, marks: seq<Mark>, k: nat, cur: Option<Match>): seq<Match>
    requires k <= |marks|
    decreases |marks| - k
  {
    if k == |marks| then []
    else Emits(cur, marks[k]) + Fold(cfg, marks, k + 1, Advance(cfg, cur, marks[k]))
  }

  lemma NamelessHasNoStamp(cfg: Config)
    ensures StampOf(cfg, "").None?
  {
  }

  /** The followed match and the ledger moved as the mark says. */
  ghost predicate Follows(cfg: Config, b: Book, t: Book, mark: Mark) {
    Cur(t.m) == Advance(cfg, Cur(b.m), mark) && t.attempts == b.attempts + Emits(Cur(b.m), mark)
  }

  lemma UpdateFollows(cfg: Config, b: Book, m: Match, now: Time)
    ensures Follows(cfg, b, UpdatedBook(cfg, b, m, now), Upd(m, now))
  {
    NamelessHasNoStamp(cfg);
  }

  lemma CollectFollows(cfg: Config, b: Book, now: Time)
    ensures Follows(cfg, b, Collected(b, now), Flush)
    ensures Follows(cfg, b, b, Skip)
  {
  }

  lemma UnregisterFollows(cfg: Config, b: Book, led: bool, n: nat, now: Time)
    ensures Follows(cfg, b, UnregisteredBook(b, led, n, now), if n == 0 then Flush else Skip)
  {
    var c := if led && b.m.id == "" then Collected(b, now) else b;
    CollectFollows(cfg, c, now);
  }

  lemma ReadFollows(cfg: Config, s: LobbyState, line: Line, env: Env)
    ensures Follows(cfg, s.book, Step(cfg, s, line, env).book, MarkOf(cfg, s.players, Read(line, env)))
  {
    CollectFollows(cfg, s.book, env.now);
    match line
    case MatchUpdate(m) => UpdateFollows(cfg, s.book, m, env.now);
    case KillData(k) =>
    case Unregister(sid) =>
      var left := RemoveSpec(s.players, sid);
      UnregisterFollows(cfg, s.book, left.1.admin, |left.0.humans|, env.now);
    case _ =>
  }

  lemma NextFollows(cfg: Config, o: Limits, s: System, move: Move)
    ensures Follows(cfg, s.lobby.book, Next(cfg, o, s, move).lobby.book, MarkOf(cfg, s.lobby.players, move))
  {
    match move
    case Read(line, env) => ReadFollows(cfg, s.lobby, line, env);
    case EndOfOutput(now) => CollectFollows(cfg, s.lobby.book, now);
    case _ =>
      CollectFollows(cfg, s.lobby.book, 0);
  }

  // ------------------------------------------------------------------- refinement

  lemma FoldStep(cfg: Config, marks: seq<Mark>, k: nat, done: seq<Match>, cur: Option<Match>)
    requires k < |marks|
    ensures (done + Emits(cur, marks[k])) + Fold(cfg, marks, k + 1, Advance(cfg, cur, marks[k]))
            == done + Fold(cfg, marks, k, cur)
  {
    var rest := Fold(cfg, marks, k + 1, Advance(cfg, cur, marks[k]));
    assert (done + Emits(cur, marks[k])) + rest == done + (Emits(cur, marks[k]) + rest);
  }

  lemma MarkAt(cfg: Config, o: Limits, files: Dir, moves: seq<Move>, k: nat)
    requires k < |moves|
    ensures Marks(cfg, moves)[k] == MarkOf(cfg, Run(cfg, o, files, moves[..k]).lobby.players, moves[k])
  {
    RunSound(cfg, o, files, moves[..k]);
  }

  lemma RunPrefix(cfg: Config, o: Limits, files: Dir, moves: seq<Move>, k: nat)
    requires k < |moves|
    ensures Run(cfg, o, files, moves[..k + 1]) == Next(cfg, o, Run(cfg, o, files, moves[..k]), moves[k])
  {
    assert moves[..k + 1][..k] == moves[..k];
  }

  /** At every moment of a run: what was handed over, and what the rest of the output will still yield. */
  lemma {:induction false} RunFolds(cfg: Config, o: Limits, files: Dir, moves: seq<Move>, k: nat)
    requires k <= |moves|
    ensures var b := Run(cfg, o, files, moves[..k]).lobby.book;
            b.attempts + Fold(cfg, Marks(cfg, moves), k, Cur(b.m)) == Fold(cfg, Marks(cfg, moves), 0, None)
  {
    if k == 0 {
    } else {
      var was := Run(cfg, o, files, moves[..k - 1]);
      RunFolds(cfg, o, files, moves, k - 1);
      RunPrefix(cfg, o, files, moves, k - 1);
      MarkAt(cfg, o, files, moves, k - 1);
      NextFollows(cfg, o, was, moves[k - 1]);
      FoldStep(cfg, Marks(cfg, moves), k - 1, was.lobby.book.attempts, Cur(was.lobby.book.m));
    }
  }

  /** A mark that is no update adds at most its kill. */
  lemma GroupContinues(cfg: Config, marks: seq<Mark>, i: nat, k: nat)
    requires i < k < |marks| && marks[i].Upd? && !marks[k].Upd?
    ensures GroupOf(cfg, marks, i, k + 1)
            == var g := GroupOf(cfg, marks, i, k);
               if marks[k].Single? then g.(kills := g.kills + [marks[k].k]) else g
  {
    var l := LastUpdate(marks, i, k);
    var kills, singles := marks[l].m.kills, Singles(marks, l + 1, k);
    var more := if marks[k].Single? then [marks[k].k] else [];
    assert kills + (singles + more) == (kills + singles) + more;
  }

  /** Inside a run the followed match is the group so far. */
  lemma GroupGrows(cfg: Config, marks: seq<Mark>, i: nat, k: nat)
    requires i < k < |marks| && marks[i].Upd? && marks[i].m.id != ""
    requires forall n :: i < n <= k ==> !Ends(marks[n], marks[i].m.id)
    ensures Advance(cfg, Some(GroupOf(cfg, marks, i, k)), marks[k]) == Some(GroupOf(cfg, marks, i, k + 1))
    ensures Emits(Some(GroupOf(cfg, marks, i, k)), marks[k]) == []
  {
    GroupId(cfg, marks, i, k);
    if marks[k].Upd? {
      assert Singles(marks, k + 1, k + 1) == [];
      assert marks[k].m.kills + [] == marks[k].m.kills;
    } else {
      GroupContinues(cfg, marks, i, k);
    }
  }

  lemma GroupStarts(cfg: Config, marks: seq<Mark>, i: nat, cur: Option<Match>)
    requires i < |marks| && marks[i].Upd? && marks[i].m.id != ""
    requires cur.Some? ==> cur.value.id != marks[i].m.id
    ensures Advance(cfg, cur, marks[i]) == Some(GroupOf(cfg, marks, i, i + 1))
  {
    assert Singles(marks, i + 1, i + 1) == [];
    assert marks[i].m.kills + [] == marks[i].m.kills;
  }

  /** At its end a run is emitted, and the next mark is read as from a fresh start. */
  lemma GroupEnds(cfg: Config, marks: seq<Mark>, j: nat, g: Match)
    requires j < |marks| && Ends(marks[j], g.id)
    ensures Fold(cfg, marks, j, Some(g)) == Emit(Some(g)) + Fold(cfg, marks, j, None)
  {
    assert Advance(cfg, Some(g), marks[j]) == Advance(cfg, None, marks[j]);
    var rest := Fold(cfg, marks, j + 1, Advance(cfg, None, marks[j]));
    assert Fold(cfg, marks, j, None) == [] + rest == rest;
  }

  lemma FoldSilent(cfg: Config, marks: seq<Mark>, k: nat, cur: Option<Match>)
    requires k < |marks| && Emits(cur, marks[k]) == []
    ensures Fold(cfg, marks, k, cur) == Fold(cfg, marks, k + 1, Advance(cfg, cur, marks[k]))
  {
    var rest := Fold(cfg, marks, k + 1, Advance(cfg, cur, marks[k]));
    assert [] + rest == rest;
  }

  lemma GroupId(cfg: Config, marks: seq<Mark>, i: nat, j: nat)
    requires i < j <= |marks| && marks[i].Upd?
    requires forall n :: i < n < j ==> !Ends(marks[n], marks[i].m.id)
    ensures GroupOf(cfg, marks, i, j).id == marks[i].m.id
  {
    var l := LastUpdate(marks, i, j);
    assert l > i ==> !Ends(marks[l], marks[i].m.id);
  }

  /** With the group of `[i, k)` in hand the fold yields `ms`. */
  ghost predicate ComesTo(cfg: Config, marks: seq<Mark>, i: nat, k: nat, ms: seq<Match>) {
    i < k <= |marks| && marks[i].Upd? && Fold(cfg, marks, k, Some(GroupOf(cfg, marks, i, k))) == ms
  }

  lemma ComesToInside(cfg: Config, marks: seq<Mark>, i: nat, k: nat, ms: seq<Match>)
    requires i < k < |marks| && marks[i].Upd? && marks[i].m.id != ""
    requires forall n :: i < n <= k ==> !Ends(marks[n], marks[i].m.id)
    requires ComesTo(cfg, marks, i, k + 1, ms)
    ensures ComesTo(cfg, marks, i, k, ms)
  {
    GroupGrows(cfg, marks, i, k);
    FoldSilent(cfg, marks, k, Some(GroupOf(cfg, marks, i, k)));
  }

  /** What the fold yields when the run that began at `i` has reached `j`. */
  function FromRun(cfg: Config, marks: seq<Mark>, i: nat, j: nat): seq<Match>
    requires i < j <= |marks| && marks[i].Upd?
  {
    if j == |marks| then [] else Emit(Some(GroupOf(cfg, marks, i, j))) + Fold(cfg, marks, j, None)
  }

  lemma FoldRunEnd(cfg: Config, marks: seq<Mark>, i: nat, j: nat)
    requires i < j <= |marks| && marks[i].Upd? && marks[i].m.id != ""
    requires j == RunEnd(marks, i + 1, marks[i].m.id)
    ensures ComesTo(cfg, marks, i, j, FromRun(cfg, marks, i, j))
  {
    if j < |marks| {
      GroupId(cfg, marks, i, j);
      GroupEnds(cfg, marks, j, GroupOf(cfg, marks, i, j));
    }
  }

  /** From inside the run `[i, j)` the fold yields that run's match and then what a fresh start at `j` yields. */
  lemma {:induction false} FoldRun(cfg: Config, marks: seq<Mark>, i: nat, k: nat, j: nat)
    requires i < k <= j <= |marks| && marks[i].Upd? && marks[i].m.id != ""
    requires j == RunEnd(marks, i + 1, marks[i].m.id)
    ensures ComesTo(cfg, marks, i, k, FromRun(cfg, marks, i, j))
    decreases j - k
  {
    if k == j {
      FoldRunEnd(cfg, marks, i, j);
    } else {
      FoldRun(cfg, marks, i, k + 1, j);
      ComesToInside(cfg, marks, i, k, FromRun(cfg, marks, i, j));
    }
  }

  lemma FoldStartsRun(cfg: Config, marks: seq<Mark>, i: nat)
    requires i < |marks| && marks[i].Upd? && marks[i].m.id != ""
    ensures Fold(cfg, marks, i, None) == FromRun(cfg, marks, i, RunEnd(marks, i + 1, marks[i].m.id))
  {
    GroupStarts(cfg, marks, i, None);
    FoldSilent(cfg, marks, i, None);
    FoldRun(cfg, marks, i, i + 1, RunEnd(marks, i + 1, marks[i].m.id));
  }

  lemma {:induction false} FoldIsGroups(cfg: Config, marks: seq<Mark>, i: nat)
    requires i <= |marks|
    ensures Fold(cfg, marks, i, None) == Groups(cfg, marks, i)
    decreases |marks| - i
  {
    if i == |marks| {
    } else if marks[i].Upd? && marks[i].m.id != "" {
      FoldStartsRun(cfg, marks, i);
      FoldIsGroups(cfg, marks, RunEnd(marks, i + 1, marks[i].m.id));
    } else {
      FoldSilent(cfg, marks, i, None);
      FoldIsGroups(cfg, marks, i + 1);
    }
  }

  /** The matches a lobby tries to hand over are the groups of its output, with kills and dates, in order. */
  lemma RunCollectsGroups(cfg: Config, o: Limits, files: Dir, moves: seq<Move>)
    ensures Run(cfg, o, files, moves).lobby.book.attempts == Groups(cfg, Marks(cfg, moves), 0)
  {
    RunFolds(cfg, o, files, moves, |moves|);
    assert moves[..|moves|] == moves;
    FoldIsGroups(cfg, Marks(cfg, moves), 0);
  }

  /** No group is empty or nameless, and groups of one readable id carry one date, whenever they were read. */
  lemma {:induction false} GroupsShape(cfg: Config, marks: seq<Mark>, i: nat)
    requires i <= |marks|
    ensures forall g :: g in Groups(cfg, marks, i) ==>
                          g.id != "" && g.kills != [] && (StampOf(cfg, g.id).Some? ==> g.stamp == StampOf(cfg, g.id).value)
    decreases |marks| - i
  {
    if i == |marks| {
    } else {
      if marks[i].Upd? && marks[i].m.id != "" {
        var j := RunEnd(marks, i + 1, marks[i].m.id);
        GroupId(cfg, marks, i, j);
        GroupsShape(cfg, marks, j);
      } else {
        GroupsShape(cfg, marks, i + 1);
      }
    }
  }
}
