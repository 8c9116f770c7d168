/** The published status directory of internal/lobby/stat.go, as a map from file name to content. */
module Stat {
  import opened Names
  import opened Wrappers

  /** What the program publishes: a time, a count, or a text. */
  datatype Value = At(time: int) | Number(n: int) | Text(s: string)

  type Dir = map<string, Value>

  // ------------------------------------------------------------ specification

  predicate Ignored(name: string) {
    name == "" || IsLast(name)
  }

  /** A removed file is kept under its `last` name; removing nothing keeps what was kept. */
  function Removed(d: Dir, name: string): Dir {
    if Ignored(name) || name !in d then d
    else (d - {name})[LastOf(name) := d[name]]
  }

  /** A file is written under its `.lock` name and renamed over the old one. */
  function Written(d: Dir, name: string, v: Value): Dir {
    if Ignored(name) then d else (d - {name + LOCK})[name := v]
  }

  /** The directory after the files of `done` were removed, each kept under its `last` name. */
  ghost function Moved(d: Dir, done: set<string>): Dir
    requires done <= d.Keys
  {
    map name | name in d.Keys + (set n | n in done :: LastOf(n)) && name !in done
      :: if IsLast(name) && name[4..] in done then d[name[4..]] else d[name]
  }

  lemma MovedOne(d: Dir, done: set<string>, name: string)
    requires done <= d.Keys && name in d && name !in done
    requires forall n :: n in done + {name} ==> !Ignored(n)
    ensures Removed(Moved(d, done), name) == Moved(d, done + {name})
  {
    assert LastOf(name)[4..] == name;
    forall n | n in done + {name} ensures LastOf(n)[4..] == n && LastOf(n) !in done + {name} { }
    var now, next := Removed(Moved(d, done), name), Moved(d, done + {name});
    forall n ensures n in now <==> n in next {
      if n in next && n !in d {
        var m :| m in done + {name} && n == LastOf(m);
      }
    }
    assert now.Keys == next.Keys;
    forall n | n in now ensures now[n] == next[n] {
      if n != LastOf(name) && IsLast(n) { assert n == LastOf(n[4..]); }
    }
  }

  /** Everything that can be removed, removed. */
  ghost function Cleared(d: Dir): Dir {
    Moved(d, set name | name in d && !Ignored(name))
  }

  /**
   Nothing is left but ignored names, and every file that was there is now the
   content of its own `last` file; a `last` file without a successor is kept.
   */
  lemma ClearedKeepsContents(d: Dir)
    ensures forall name :: name in Cleared(d) ==> Ignored(name)
    ensures forall name :: name in d && !Ignored(name) ==>
                             LastOf(name) in Cleared(d) && Cleared(d)[LastOf(name)] == d[name]
    ensures forall name :: name in d && IsLast(name) && (name[4..] !in d || Ignored(name[4..])) ==>
                             name in Cleared(d) && Cleared(d)[name] == d[name]
  {
    var done := set name | name in d && !Ignored(name);
    forall n | n in done ensures LastOf(n)[4..] == n { }
  }

  // ----------------------------------------------------- the names of a lobby

  /** Neither a `.lock` nor a `last` name of another such name. */
  predicate Plain(name: string) {
    4 <= |name| <= 7 && !IsLast(name)
  }

  lemma LobbyNames()
    ensures Plain("players") && Plain("full") && Plain("idle") && Plain("match") && Plain("arena")
  {
    assert "last"[0] == 'l';
    assert "players"[0] == 'p' && "full"[0] == 'f' && "idle"[0] == 'i' && "match"[0] == 'm' && "arena"[0] == 'a';
  }

  function Content(d: Dir, name: string): Option<Value> {
    if name in d then Some(d[name]) else None
  }

  /** Plain names do not disturb each other. */
  lemma PlainNames(d: Dir, name: string, v: Value, other: string)
    requires Plain(name) && Plain(other)
    ensures Content(Removed(d, name), other) == if other == name then None else Content(d, other)
    ensures Content(Written(d, name, v), other) == if other == name then Some(v) else Content(d, other)
  {
    assert |name + LOCK| > |other|;
    assert LastOf(name) != other;
  }

  // -------------------------------------------------------------------- class

  class StatDir {
    const configured: bool
    var files: Dir

    constructor (configured: bool, files: Dir)
      ensures this.configured == configured && this.files == files
    {
      this.configured, this.files := configured, files;
    }

    /** `data` is None for Go's nil, which removes. */
    method SetStat(name: string, data: Option<Value>)
      modifies this
      ensures files == if !configured then old(files)
                       else if data.None? then Removed(old(files), name)
                       else Written(old(files), name, data.value)
    {
      if name == "" || IsLast(name) { return; }
      if !configured { return; }
      if data.None? {
        Rename(name, LastOf(name));
        return;
      }
      var lock := name + LOCK;
      files := files[lock := data.value];
      Rename(lock, name);
    }

    /** os.Rename, which does nothing when there is no such file. */
    method Rename(from: string, to: string)
      requires from != to
      modifies this
      ensures files == if from in old(files) then (old(files) - {from})[to := old(files)[from]] else old(files)
    {
      if from in files {
        var content := files[from];
        files := files - {from};
        files := files[to := content];
      }
    }

    method RemStat(name: string)
      modifies this
      ensures files == if configured then Removed(old(files), name) else old(files)
    {
      SetStat(name, None);
    }

    /** remstats() with no names: the names are listed before the first is removed. */
    method RemStats()
      modifies this
      ensures files == if configured then Cleared(old(files)) else old(files)
    {
      if !configured { return; }
      ghost var was := files;
      // No directory entry has an empty name.
      var names := set name | name in files && !IsLast(name) && name != "";
      var rest := names;
      assert Moved(was, {}) == was;
      while |rest| != 0
        invariant rest <= names
        invariant files == Moved(was, names - rest)
        decreases rest
      {
        ghost var some := Pick(rest);
        var name :| name in rest;
        MovedOne(was, names - rest, name);
        RemStat(name);
        assert names - rest + {name} == names - (rest - {name});
        rest := rest - {name};
      }
      assert names - rest == names == set name | name in was && !Ignored(name);
    }
  }

  /** Writing leaves no lock behind, whatever was there; what cannot be removed changes nothing, its `last` file included. */
  lemma WritesAndRemovals(d: Dir, name: string, v: Value)
    ensures name != "" && !("last" <= name) ==> name + ".lock" !in Written(d, name, v) && Written(d, name, v)[name] == v
    ensures name == "" || "last" <= name ==> Written(d, name, v) == d && Removed(d, name) == d
    ensures name !in d ==> Removed(d, name) == d
    ensures name in d && name != "" && !("last" <= name) ==>
              name !in Removed(d, name) && "last" + name in Removed(d, name) && Removed(d, name)["last" + name] == d[name]
  {
    assert |name + LOCK| > |name|;
    assert |LastOf(name)| > |name|;
  }
}
