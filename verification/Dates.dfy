/** What time a match id spells: the text behind the first place of the session's name, if it can be read as one. */
module Dates {
  import opened Causes
  import opened GoTime
  import opened Grouping
  import opened Runs
  import opened Scan
  import opened Stat
  import opened Watcher
  import opened Wrappers

  /** The session's name stands in `id` behind `a` and in front of `rest`, and begins nowhere earlier. */
  ghost predicate FirstPlace(session: string, id: string, a: string, rest: string) {
    && id == a + session + rest
    && forall k :: 0 <= k < |a| ==> !(session <= id[k..])
  }

  /** That is what is parsed; with nothing behind the name there is nothing to parse. */
  lemma StampIsParsed(cfg: Config, id: string, a: string, rest: string)
    requires FirstPlace(cfg.session, id, a, rest)
    ensures StampOf(cfg, id) == if rest == "" then None else cfg.parse(rest)
  {
    var i := Index(id, cfg.session);
    assert id[|a|..] == cfg.session + rest;
    assert cfg.session <= id[|a|..];
    assert i == |a|;
    assert id[i + |cfg.session|..] == rest;
  }

  /** A name that stands in the id has a first place. */
  lemma FirstPlaceOf(session: string, id: string) returns (a: string, rest: string)
    requires exists k :: 0 <= k <= |id| && session <= id[k..]
    ensures FirstPlace(session, id, a, rest)
  {
    var i := Index(id, session);
    assert i != -1;
    a, rest := id[..i], id[i + |session|..];
    Splits(id, i, session);
    forall k | 0 <= k < |a| ensures !(session <= id[k..]) { }
  }

  lemma Splits(id: string, i: nat, part: string)
    requires i <= |id| && part <= id[i..]
    ensures i + |part| <= |id| && id == id[..i] + part + id[i + |part|..]
  {
    assert id[i..i + |part|] == part;
  }

  /** An id has no time exactly if the name is not in it, or nothing stands behind its first place, or that cannot be read. */
  lemma NoStampIff(cfg: Config, id: string)
    ensures StampOf(cfg, id).None?
            <==> forall a, rest :: FirstPlace(cfg.session, id, a, rest) ==> rest == "" || cfg.parse(rest).None?
  {
    forall a, rest | FirstPlace(cfg.session, id, a, rest)
      ensures StampOf(cfg, id) == if rest == "" then None else cfg.parse(rest)
    {
      StampIsParsed(cfg, id, a, rest);
    }
    if exists k :: 0 <= k <= |id| && cfg.session <= id[k..] {
      var a, rest := FirstPlaceOf(cfg.session, id);
    }
  }

  /** `id` spells the time `at`. */
  ghost predicate Spells(cfg: Config, id: string, at: Time) {
    exists a, rest :: FirstPlace(cfg.session, id, a, rest) && rest != "" && cfg.parse(rest) == Some(at)
  }

  lemma SpellsIff(cfg: Config, id: string, at: Time)
    ensures Spells(cfg, id, at) <==> StampOf(cfg, id) == Some(at)
  {
    if Spells(cfg, id, at) {
      var a, rest :| FirstPlace(cfg.session, id, a, rest) && rest != "" && cfg.parse(rest) == Some(at);
      StampIsParsed(cfg, id, a, rest);
    }
    if StampOf(cfg, id) == Some(at) {
      NoStampIff(cfg, id);
      var a, rest :| FirstPlace(cfg.session, id, a, rest) && !(rest == "" || cfg.parse(rest).None?);
      StampIsParsed(cfg, id, a, rest);
    }
  }

  /** At every moment of a run the match with a readable id carries the time that it spells, and any other the latest flush's. */
  lemma MatchCarriesSpelled(cfg: Config, o: Limits, files: Dir, moves: seq<Move>, at: Time)
    ensures var m := Run(cfg, o, files, moves).lobby.book.m;
            && (Spells(cfg, m.id, at) ==> m.stamp == at)
            && ((forall t :: !Spells(cfg, m.id, t)) ==> m.stamp == LastFlush(cfg, o, files, moves))
  {
    var m := Run(cfg, o, files, moves).lobby.book.m;
    RunDated(cfg, o, files, moves);
    SpellsIff(cfg, m.id, at);
    if StampOf(cfg, m.id).Some? { SpellsIff(cfg, m.id, StampOf(cfg, m.id).value); }
  }

  /** Every match that is handed over with a readable id carries the time it spells, however often it is collected. */
  lemma CollectedCarrySpelled(cfg: Config, o: Limits, files: Dir, moves: seq<Move>, g: Match, at: Time)
    requires g in Run(cfg, o, files, moves).lobby.book.attempts && Spells(cfg, g.id, at)
    ensures g.stamp == at
  {
    RunCollectsGroups(cfg, o, files, moves);
    GroupsShape(cfg, Marks(cfg, moves), 0);
    SpellsIff(cfg, g.id, at);
  }
}
