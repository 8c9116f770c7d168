/** The directory watcher of internal/watch/watch.go: its name filters, and the loop that makes batches. */
module Events {
  import opened Names
  import opened Wrappers

  /** The bits of an operation mask. */
  datatype Flag = Create | Write | Remove | Rename | Chmod

  type Op = set<Flag>

  const CREATE: Op := {Create}

  datatype Event = Event(name: string, op: Op)

  /** A Go slice: nil is not the empty slice. */
  datatype Slice = Nil | Items(es: seq<Event>)

  // ---------------------------------------------------------------- the filters

  function Unlocked(name: string): string {
    if HasSuffix(name, LOCK) then name[..|name| - |LOCK|] else name
  }

  /** A locked file is about to be renamed: its event stands for the creation of the real one. */
  function Unlock(e: Event): Event {
    if HasSuffix(e.name, LOCK) then Event(Unlocked(e.name), CREATE) else e
  }

  function Lifted(es: seq<Event>): (r: seq<Event>)
    ensures |r| == |es|
  {
    seq(|es|, i requires 0 <= i < |es| => Unlock(es[i]))
  }

  /** A removed file is kept under its `last` name, so that name is news of the file itself. */
  function Revived(es: seq<Event>): (r: seq<Event>)
    ensures forall e :: e in r <==> exists i :: 0 <= i < |es| && IsLast(es[i].name) && e == Event(es[i].name[|LAST|..], CREATE)
  {
    if es == [] then []
    else
      var last := es[|es| - 1];
      Revived(es[..|es| - 1]) + if IsLast(last.name) then [Event(last.name[|LAST|..], CREATE)] else []
  }

  /** All operations seen under one name. */
  function OpsOf(es: seq<Event>, name: string): Op {
    if es == [] then {}
    else
      var last := es[|es| - 1];
      if last.name == name then OpsOf(es[..|es| - 1], name) + last.op else OpsOf(es[..|es| - 1], name)
  }

  ghost predicate Named(es: seq<Event>, name: string) {
    exists i :: 0 <= i < |es| && es[i].name == name
  }

  /** One event for each name, with all that name's operations, in no particular order. */
  ghost predicate Merges(es: seq<Event>, r: seq<Event>) {
    && (forall i, j :: 0 <= i < j < |r| ==> r[i].name != r[j].name)
    && (forall name :: Named(r, name) <==> Named(es, name))
    && (forall e :: e in r ==> e.op == OpsOf(es, e.name))
  }

  method LockNames(events: Slice) returns (r: Slice)
    ensures events.Nil? ==> r.Nil?
    ensures events.Items? ==> r == Items(Lifted(events.es))
  {
    if events.Nil? { return Nil; }
    var es := events.es;
    for i := 0 to |es|
      invariant |es| == |events.es|
      invariant forall k :: 0 <= k < |es| ==> es[k] == if k < i then Unlock(events.es[k]) else events.es[k]
    {
      if HasSuffix(es[i].name, LOCK) {
        es := es[i := Event(es[i].name[..|es[i].name| - |LOCK|], CREATE)];
      }
    }
    assert es == Lifted(events.es);
    return Items(es);
  }

  method LastNames(events: Slice) returns (r: Slice)
    ensures events.Nil? ==> r.Nil?
    ensures events.Items? ==> r == Items(events.es + Revived(events.es))
  {
    if events.Nil? { return Nil; }
    var es := events.es;
    for i := 0 to |events.es|
      invariant es == events.es + Revived(events.es[..i])
    {
      assert events.es[..i + 1][..i] == events.es[..i];
      if IsLast(es[i].name) {
        es := es + [Event(es[i].name[|LAST|..], CREATE)];
      }
    }
    assert events.es[..|events.es|] == events.es;
    return Items(es);
  }

  method SameNames(events: Slice) returns (r: Slice)
    ensures events.Nil? ==> r.Nil?
    ensures events.Items? ==> r.Items? && Merges(events.es, r.es)
  {
    if events.Nil? { return Nil; }
    var names := CollectNames(events.es);
    var es: seq<Event> := [];
    var rest := names.Keys;
    // The map is walked in any order.
    while |rest| != 0
      invariant rest <= names.Keys
      invariant forall i, j :: 0 <= i < j < |es| ==> es[i].name != es[j].name
      invariant forall name :: Named(es, name) <==> name in names && name !in rest
      invariant forall e :: e in es ==> e.op == OpsOf(events.es, e.name)
      decreases rest
    {
      ghost var some := Pick(rest);
      var name :| name in rest;
      NamedLast(es, Event(name, names[name]));
      es := es + [Event(name, names[name])];
      rest := rest - {name};
    }
    return Items(es);
  }

  lemma NamedLast(es: seq<Event>, e: Event)
    ensures forall name :: Named(es + [e], name) <==> Named(es, name) || name == e.name
  {
    var r := es + [e];
    forall name ensures Named(r, name) <==> Named(es, name) || name == e.name {
      if Named(es, name) {
        var i :| 0 <= i < |es| && es[i].name == name;
        assert r[i].name == name;
      }
      assert r[|es|] == e;
    }
  }

  /** The map holds each name's operations. */
  ghost predicate Tally(names: map<string, Op>, es: seq<Event>) {
    && (forall name :: name in names <==> Named(es, name))
    && (forall name :: OpsOf(es, name) == if name in names then names[name] else {})
  }

  lemma OpsLast(es: seq<Event>, e: Event, name: string)
    ensures OpsOf(es + [e], name) == if e.name == name then OpsOf(es, name) + e.op else OpsOf(es, name)
  {
    assert (es + [e])[..|es|] == es;
  }

  lemma TallyLast(names: map<string, Op>, es: seq<Event>, e: Event)
    requires Tally(names, es)
    ensures Tally(names[e.name := (if e.name in names then names[e.name] else {}) + e.op], es + [e])
  {
    NamedLast(es, e);
    forall name { OpsLast(es, e, name); }
  }

  method CollectNames(es: seq<Event>) returns (names: map<string, Op>)
    ensures Tally(names, es)
  {
    names := map[];
    for i := 0 to |es|
      invariant Tally(names, es[..i])
    {
      var e := es[i];
      assert es[..i + 1] == es[..i] + [e];
      TallyLast(names, es[..i], e);
      names := names[e.name := (if e.name in names then names[e.name] else {}) + e.op];
    }
    assert es[..|es|] == es;
  }

  // -------------------------------------------------------------- the three together

  /** Some event of that name has the operation. */
  ghost predicate Reported(es: seq<Event>, name: string, m: Flag) {
    exists e :: e in es && e.name == name && m in e.op
  }

  lemma ReportedLast(es: seq<Event>, e: Event, name: string, m: Flag)
    ensures Reported(es + [e], name, m) <==> Reported(es, name, m) || (e.name == name && m in e.op)
  {
    assert forall x :: x in es + [e] <==> x in es || x == e;
  }

  lemma {:induction false} OpsReported(es: seq<Event>, name: string, m: Flag)
    ensures m in OpsOf(es, name) <==> Reported(es, name, m)
  {
    if es == [] {
    } else {
      var init, last := es[..|es| - 1], es[|es| - 1];
      assert es == init + [last];
      OpsReported(init, name, m);
      ReportedLast(init, last, name, m);
    }
  }

  /** `e` is news of `name`, under its own name or by the file that replaced it. */
  predicate Concerns(e: Event, name: string) {
    Unlocked(e.name) == name || (IsLast(e.name) && Unlocked(e.name[|LAST|..]) == name)
  }

  /** `e` brings the operation to the event for `name`. */
  predicate Brings(e: Event, name: string, m: Flag) {
    || (Unlocked(e.name) == name && m in Unlock(e).op)
    || (IsLast(e.name) && Unlocked(e.name[|LAST|..]) == name && m in CREATE)
  }

  /** A batch as the callback gets it: one event per name concerned, with exactly what was brought to it. */
  ghost predicate Digest(es: seq<Event>, r: seq<Event>) {
    && (forall i, j :: 0 <= i < j < |r| ==> r[i].name != r[j].name)
    && (forall name :: Named(r, name) <==> exists e :: e in es && Concerns(e, name))
    && (forall e, m :: e in r ==> (m in e.op <==> exists x :: x in es && Brings(x, e.name, m)))
  }

  /** The events after LastNames and LockNames. */
  function Spread(es: seq<Event>): seq<Event> {
    Lifted(es + Revived(es))
  }

  lemma SpreadElements(es: seq<Event>, x: Event)
    ensures x in Spread(es) <==>
            exists e :: e in es && (x == Unlock(e) || (IsLast(e.name) && x == Unlock(Event(e.name[|LAST|..], CREATE))))
  {
    var all := es + Revived(es);
    if x in Spread(es) {
      var i :| 0 <= i < |all| && Spread(es)[i] == x;
      if i >= |es| {
        var r := all[i];
        assert r in Revived(es);
        var k :| 0 <= k < |es| && IsLast(es[k].name) && r == Event(es[k].name[|LAST|..], CREATE);
        assert es[k] in es;
      } else {
        assert es[i] in es;
      }
    }
    if e :| e in es && (x == Unlock(e) || (IsLast(e.name) && x == Unlock(Event(e.name[|LAST|..], CREATE)))) {
      var k :| 0 <= k < |es| && es[k] == e;
      if x == Unlock(e) {
        assert all[k] == e && Spread(es)[k] == x;
      } else {
        var r := Event(es[k].name[|LAST|..], CREATE);
        assert r in Revived(es);
        assert r in all;
        var j :| 0 <= j < |all| && all[j] == r;
        assert Spread(es)[j] == x;
      }
    }
  }

  lemma SpreadDigest(es: seq<Event>, r: seq<Event>)
    requires Merges(Spread(es), r)
    ensures Digest(es, r)
  {
    forall name ensures Named(r, name) <==> exists e :: e in es && Concerns(e, name) {
      SpreadNames(es, name);
    }
    forall e, m | e in r ensures m in e.op <==> exists x :: x in es && Brings(x, e.name, m) {
      OpsReported(Spread(es), e.name, m);
      SpreadReports(es, e.name, m);
    }
  }

  lemma SpreadNames(es: seq<Event>, name: string)
    ensures Named(Spread(es), name) <==> exists e :: e in es && Concerns(e, name)
  {
    var s := Spread(es);
    if Named(s, name) {
      var i :| 0 <= i < |s| && s[i].name == name;
      SpreadElements(es, s[i]);
    }
    if e :| e in es && Concerns(e, name) {
      var x := if Unlocked(e.name) == name then Unlock(e) else Unlock(Event(e.name[|LAST|..], CREATE));
      SpreadElements(es, x);
      var i :| 0 <= i < |s| && s[i] == x;
    }
  }

  lemma SpreadReports(es: seq<Event>, name: string, m: Flag)
    ensures Reported(Spread(es), name, m) <==> exists e :: e in es && Brings(e, name, m)
  {
    if Reported(Spread(es), name, m) {
      var x :| x in Spread(es) && x.name == name && m in x.op;
      SpreadElements(es, x);
    }
    if e :| e in es && Brings(e, name, m) {
      var x := if Unlocked(e.name) == name && m in Unlock(e).op then Unlock(e)
               else Unlock(Event(e.name[|LAST|..], CREATE));
      SpreadElements(es, x);
    }
  }

  /** LastNames, LockNames and SameNames, in the order in which `Spec.Watch` passes them. */
  method Pipeline(events: Slice) returns (r: Slice)
    ensures events.Nil? ==> r.Nil?
    ensures events.Items? ==> r.Items? && Digest(events.es, r.es)
  {
    r := LastNames(events);
    r := LockNames(r);
    r := SameNames(r);
    if events.Items? { SpreadDigest(events.es, r.es); }
  }

  // ------------------------------------------------------------------------- news

  /** A name is unlocked by taking off `.lock`, and any other stays as it is. */
  lemma UnlockedIs(name: string)
    ensures Unlocked(name + ".lock") == name
    ensures (forall base :: name != base + ".lock") ==> Unlocked(name) == name
  {
    assert HasSuffix(name + ".lock", ".lock");
    if HasSuffix(name, ".lock") { assert name == name[..|name| - |".lock"|] + ".lock"; }
  }

  lemma OnlyOne(es: seq<Event>, e: Event)
    requires es != [] && forall x :: x in es ==> x == e
    requires forall i, j :: 0 <= i < j < |es| ==> es[i].name != es[j].name
    ensures es == [e]
  {
    if |es| > 1 { assert es[0] in es && es[1] in es; }
    assert es[0] in es;
  }

  /** A locked file that is news, in whatever way, is the creation of the real one. */
  lemma LockIsCreation(name: string, op: Op, r: seq<Event>)
    requires Digest([Event(name + ".lock", op)], r) && !("last" <= name + ".lock") && (forall b :: name != b + ".lock")
    ensures r == [Event(name, {Create})]
  {
    var e := Event(name + ".lock", op);
    UnlockedIs(name);
    assert e in [e];
    assert forall x, n :: x in [e] && Concerns(x, n) ==> n == name;
    assert Concerns(e, name);
    assert Named(r, name);
    forall x | x in r ensures x == Event(name, {Create}) {
      var i :| 0 <= i < |r| && r[i] == x;
      assert Named(r, x.name);
      assert x.name == name;
      forall m ensures m in x.op <==> m == Create { assert m in x.op <==> Brings(e, name, m); }
    }
    OnlyOne(r, Event(name, {Create}));
  }

  /** A removed file is news under its `last` name, and its own name is news of a creation. */
  lemma LastIsCreation(name: string, op: Op, r: seq<Event>)
    requires Digest([Event("last" + name, op)], r) && (forall b :: name != b + ".lock") && (forall b :: "last" + name != b + ".lock")
    ensures Named(r, name) && Named(r, "last" + name)
    ensures forall x :: x in r ==> x == Event(name, {Create}) || x == Event("last" + name, op)
  {
    var e := Event("last" + name, op);
    UnlockedIs(name);
    UnlockedIs("last" + name);
    assert e in [e];
    assert ("last" + name)[4..] == name;
    assert |"last" + name| != |name|;
    assert IsLast(e.name) && e.name[|LAST|..] == name;
    assert Concerns(e, name) && Concerns(e, "last" + name);
    forall x | x in r ensures x == Event(name, {Create}) || x == Event("last" + name, op) {
      var i :| 0 <= i < |r| && r[i] == x;
      assert Named(r, x.name);
      assert Concerns(e, x.name);
      forall m ensures m in x.op <==> if x.name == name then m == Create else m in op {
        assert m in x.op <==> Brings(e, x.name, m);
      }
    }
  }
}
