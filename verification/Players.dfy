/** The player registry of internal/lobby/players.go. */
module Players {
  import opened Decimal
  import opened Wrappers

  // Ids below this belong to bots.
  const FIRST_HUMAN: int := 1000

  datatype Profile = Profile(name: string, uuid: string)

  /** What every method of the registry returns. */
  datatype Answer = Answer(id: int, name: string, uuid: string, admin: bool)

  const REJECTED := Answer(-1, "", "", false)

  // ------------------------------------------------------------ specification

  datatype Registry = Registry(bots: set<int>, humans: map<int, Profile>, admin: Option<int>) {

    ghost predicate Consistent() {
      && (forall id :: id in bots ==> 1 <= id < FIRST_HUMAN)
      && (forall id :: id in humans ==> FIRST_HUMAN <= id <= MAX_INT64)
      && (admin.Some? <==> |humans| != 0)
      && (admin.Some? ==> admin.value in humans)
    }

    ghost predicate AdminIsLeast() {
      admin.Some? ==> forall id :: id in humans ==> admin.value <= id
    }

    ghost function Count(): (int, int) {
      (|humans|, |bots|)
    }
  }

  const EMPTY := Registry({}, map[], None)

  function Merge(p: Profile, name: string, uuid: string): Profile {
    Profile(if name != "" then name else p.name, if uuid != "" then uuid else p.uuid)
  }

  ghost function SetSpec(r: Registry, sid: string, name: string, uuid: string): (res: (Registry, Answer)) {
    var id := ParseInt(sid);
    if id < 1 then (r, REJECTED)
    else if id < FIRST_HUMAN then (r.(bots := r.bots + {id}), Answer(id, "", "", false))
    else JoinSpec(r, id, name, uuid)
  }

  ghost function JoinSpec(r: Registry, id: int, name: string, uuid: string): (Registry, Answer) {
    var p := Merge(if id in r.humans then r.humans[id] else Profile("", ""), name, uuid);
    var admin := if |r.humans| == 0 then Some(id) else r.admin;
    (Registry(r.bots, r.humans[id := p], admin), Answer(id, p.name, p.uuid, admin == Some(id)))
  }

  /** The one who takes over: the smallest id left. */
  ghost function Heir(humans: map<int, Profile>): (r: Option<int>)
    ensures |humans| == 0 ==> r.None?
    ensures |humans| != 0 ==> r.Some? && IsLeastKey(humans, r.value)
  {
    if |humans| == 0 then None
    else
      LeastKeyExists(humans);
      var id :| IsLeastKey(humans, id);
      Some(id)
  }

  ghost predicate IsLeastKey(humans: map<int, Profile>, id: int) {
    id in humans && forall other :: other in humans ==> id <= other
  }

  lemma {:induction false} LeastKeyExists(humans: map<int, Profile>)
    requires |humans| != 0
    ensures exists id :: IsLeastKey(humans, id)
    decreases |humans|
  {
    var id := Pick(humans.Keys);
    var rest := humans - {id};
    if |rest| == 0 {
      assert forall other :: other in humans ==> other == id || other in rest;
      assert IsLeastKey(humans, id);
    } else {
      assert |rest| < |humans| by { assert rest.Keys == humans.Keys - {id}; }
      LeastKeyExists(rest);
      var least :| IsLeastKey(rest, least);
      var it := if id < least then id else least;
      assert IsLeastKey(humans, it) by {
        assert forall other :: other in humans ==> other == id || other in rest;
      }
    }
  }

  lemma HeirIs(humans: map<int, Profile>, id: int)
    requires IsLeastKey(humans, id)
    ensures Heir(humans) == Some(id)
  {
    assert id in humans.Keys;
  }

  ghost function RemoveSpec(r: Registry, sid: string): (res: (Registry, Answer)) {
    var id := ParseInt(sid);
    if id in r.bots then (r.(bots := r.bots - {id}), Answer(id, "", "", false))
    else if id in r.humans then LeaveSpec(r, id)
    else (r, REJECTED)
  }

  ghost function LeaveSpec(r: Registry, id: int): (Registry, Answer)
    requires id in r.humans
  {
    var left := r.humans - {id};
    var led := r.admin == Some(id);
    (Registry(r.bots, left, if led then Heir(left) else r.admin),
     Answer(id, r.humans[id].name, r.humans[id].uuid, led))
  }

  lemma StoreConsistent(r: Registry, id: int, p: Profile)
    requires r.Consistent() && FIRST_HUMAN <= id <= MAX_INT64
    ensures Registry(r.bots, r.humans[id := p], if |r.humans| == 0 then Some(id) else r.admin).Consistent()
    ensures |r.humans| == 0 ==> r.humans == map[]
  {
  }

  lemma SameSize<V, W>(m: map<int, V>, n: map<int, W>)
    requires m.Keys == n.Keys
    ensures |m| == |n|
  {
    assert |m| == |m.Keys| && |n| == |n.Keys|;
  }

  // -------------------------------------------------------------------- class

  class Player {
    const id: int
    var name: string
    var uuid: string

    constructor (id: int)
      ensures this.id == id && name == "" && uuid == ""
    {
      this.id, name, uuid := id, "", "";
    }

    ghost function About(): Profile
      reads this
    {
      Profile(name, uuid)
    }

    method Rename(name: string, uuid: string)
      modifies this
      ensures About() == Merge(old(About()), name, uuid)
    {
      if name != "" { this.name := name; }
      if uuid != "" { this.uuid := uuid; }
    }
  }

  /** Every method holds the registry's lock from its first line to its last. */
  class Players {
    var bots: set<int>
    var joins: map<int, Player>
    var admin: Player?
    ghost var view: Registry
    ghost var Repr: set<object>

    ghost predicate Valid()
      reads this, Repr
      ensures Valid() ==> this in Repr
    {
      && this in Repr
      && (forall id :: id in joins ==> joins[id] in Repr)
      && view.Consistent()
      && (forall id :: id in joins ==> joins[id].id == id)
      // The admin is the very object stored under its id.
      && (admin != null ==> admin.id in joins && joins[admin.id] == admin)
      && view.bots == bots
      && view.admin == (if admin == null then None else Some(admin.id))
      && view.humans.Keys == joins.Keys && |view.humans| == |joins|
      && (forall id :: id in joins ==> view.humans[id] == joins[id].About())
    }

    constructor ()
      ensures Valid() && fresh(Repr)
      ensures view == EMPTY
    {
      bots, joins, admin := {}, map[], null;
      view, Repr := EMPTY, {this};
    }

    /** The scan of `migrate`, in whatever order the map is walked. */
    method Migrate(id: int) returns (led: bool)
      requires admin == null || admin.id == id || admin.id in joins
      requires forall k :: k in joins ==> joins[k].id == k
      modifies this`admin
      ensures led <==> old(admin) != null && old(admin).id == id
      ensures !led ==> admin == old(admin)
      ensures led && |joins| == 0 ==> admin == null
      ensures led && |joins| != 0 ==>
                && admin != null && admin.id in joins && joins[admin.id] == admin
                && forall k :: k in joins ==> admin.id <= k
    {
      if admin == null || id != admin.id { return false; }
      admin := null;
      var rest := joins.Keys;
      while |rest| != 0
        invariant rest <= joins.Keys
        invariant admin == null ==> rest == joins.Keys
        invariant admin != null ==> admin.id in joins && joins[admin.id] == admin
        invariant admin != null ==> forall k :: k in joins && k !in rest ==> admin.id <= k
        decreases rest
      {
        ghost var some := Pick(rest);
        var k :| k in rest;
        var player := joins[k];
        if admin == null || player.id < admin.id { admin := player; }
        rest := rest - {k};
      }
      return true;
    }

    method Set(sid: string, name: string, uuid: string) returns (a: Answer)
      requires Valid()
      modifies Repr
      ensures Valid() && fresh(Repr - old(Repr))
      ensures (view, a) == SetSpec(old(view), sid, name, uuid)
    {
      var id := ParseInt(sid);
      if id < 1 { return REJECTED; }
      if id < FIRST_HUMAN {
        bots := bots + {id};
        view := view.(bots := bots);
        return Answer(id, "", "", false);
      }
      a := Join(id, name, uuid);
    }

    /** The part of `set` for a human id. */
    method Join(id: int, name: string, uuid: string) returns (a: Answer)
      requires Valid() && FIRST_HUMAN <= id <= MAX_INT64
      modifies Repr
      ensures Valid() && fresh(Repr - old(Repr))
      ensures (view, a) == JoinSpec(old(view), id, name, uuid)
    {
      var player := Enter(id, name, uuid);
      assert |view.humans| == |old(view).humans|;
      Store(player);
      assert view.humans == JoinSpec(old(view), id, name, uuid).0.humans;
      return Answer(player.id, player.name, player.uuid, player.id == admin.id);
    }

    /** The object of `id`, old or new, with the names that were given. */
    method Enter(id: int, name: string, uuid: string) returns (player: Player)
      requires Valid()
      modifies Repr
      ensures Valid() && Repr == old(Repr) && joins == old(joins)
      ensures player.id == id
      ensures if id in joins then player == joins[id] else fresh(player)
      ensures var was := old(view).humans;
              var p := Merge(if id in was then was[id] else Profile("", ""), name, uuid);
              && player.About() == p
              && view == old(view).(humans := if id in was then was[id := p] else was)
    {
      if id in joins {
        player := joins[id];
        player.Rename(name, uuid);
        view := view.(humans := view.humans[id := player.About()]);
        SameSize(joins, view.humans);
      } else {
        player := new Player(id);
        player.Rename(name, uuid);
      }
    }

    method Store(player: Player)
      requires Valid() && FIRST_HUMAN <= player.id <= MAX_INT64
      requires player.id in joins ==> joins[player.id] == player
      modifies this
      ensures Valid() && Repr == old(Repr) + {player}
      ensures var was := old(view);
              view == Registry(was.bots, was.humans[player.id := player.About()],
                               if |was.humans| == 0 then Some(player.id) else was.admin)
      ensures admin != null
    {
      ghost var was := view;
      if |joins| == 0 { admin := player; }
      joins, Repr := joins[player.id := player], Repr + {player};
      Note(was, player);
    }

    /** The view follows a human who was put in. */
    ghost method Note(was: Registry, player: Player)
      requires this in Repr && (forall id :: id in joins ==> joins[id] in Repr)
      requires was == view && was.Consistent() && was.bots == bots
      requires FIRST_HUMAN <= player.id <= MAX_INT64
      requires player.id in joins && joins[player.id] == player
      requires joins.Keys == was.humans.Keys + {player.id}
      requires forall id :: id in joins ==> joins[id].id == id
      requires forall id :: id in was.humans && id != player.id ==> was.humans[id] == joins[id].About()
      requires admin != null && admin.id in joins && joins[admin.id] == admin
      requires if |was.humans| == 0 then admin == player else was.admin == Some(admin.id)
      modifies `view
      ensures Valid()
      ensures view == Registry(was.bots, was.humans[player.id := player.About()],
                               if |was.humans| == 0 then Some(player.id) else was.admin)
    {
      view := Registry(was.bots, was.humans[player.id := player.About()], Some(admin.id));
      StoreConsistent(was, player.id, player.About());
      SameSize(joins, view.humans);
    }

    method Add(sid: string) returns (a: Answer)
      requires Valid()
      modifies Repr
      ensures Valid() && fresh(Repr - old(Repr))
      ensures (view, a) == SetSpec(old(view), sid, "", "")
    {
      a := Set(sid, "", "");
    }

    method Update(sid: string, name: string, uuid: string) returns (a: Answer)
      requires Valid()
      modifies Repr
      ensures Valid() && fresh(Repr - old(Repr))
      ensures (view, a) == SetSpec(old(view), sid, name, uuid)
    {
      a := Set(sid, name, uuid);
    }

    method Remove(sid: string) returns (a: Answer)
      requires Valid()
      modifies Repr
      ensures Valid() && fresh(Repr - old(Repr))
      ensures (view, a) == RemoveSpec(old(view), sid)
    {
      var id := ParseInt(sid);
      if id in bots {
        DropBot(id);
        return Answer(id, "", "", false);
      }
      if id in joins {
        a := Leave(id);
        return;
      }
      return REJECTED;
    }

    method DropBot(id: int)
      requires Valid()
      modifies this
      ensures Valid() && Repr == old(Repr)
      ensures view == old(view).(bots := old(view).bots - {id})
    {
      bots := bots - {id};
      view := view.(bots := bots);
    }

    /** The part of `Remove` for a human who is there. */
    method Leave(id: int) returns (a: Answer)
      requires Valid() && id in joins
      modifies this
      ensures Valid() && Repr == old(Repr)
      ensures (view, a) == LeaveSpec(old(view), id)
    {
      var player := joins[id];
      joins := joins - {id};
      var led := Migrate(id);
      view := LeaveSpec(view, id).0;
      SameSize(joins, view.humans);
      if led && admin != null { HeirIs(view.humans, admin.id); }
      return Answer(id, player.name, player.uuid, led);
    }

    /** The answer is what an `Add` of the same, present id would give. */
    method Lookup(sid: string) returns (a: Answer)
      requires Valid()
      ensures a == if ParseInt(sid) in view.humans then SetSpec(view, sid, "", "").1 else REJECTED
    {
      var id := ParseInt(sid);
      if id in joins {
        return Answer(joins[id].id, joins[id].name, joins[id].uuid, joins[id].id == admin.id);
      }
      return REJECTED;
    }

    method Count() returns (humans: int, bots: int)
      requires Valid()
      ensures (humans, bots) == view.Count()
    {
      humans, bots := |joins|, |this.bots|;
    }
  }

  // --------------------------------------------------------------- properties

  datatype Op = Update(sid: string, name: string, uuid: string) | Remove(sid: string)

  ghost function Applied(r: Registry, op: Op): Registry {
    match op
    case Update(sid, name, uuid) => SetSpec(r, sid, name, uuid).0
    case Remove(sid) => RemoveSpec(r, sid).0
  }

  ghost function AppliedAll(ops: seq<Op>): Registry {
    if ops == [] then EMPTY else Applied(AppliedAll(ops[..|ops| - 1]), ops[|ops| - 1])
  }

  /** Bots and humans keep their id ranges and there is an admin exactly while there is a human. */
  lemma {:induction false} AppliedAllConsistent(ops: seq<Op>)
    ensures AppliedAll(ops).Consistent()
  {
    if ops == [] {
    } else {
      AppliedAllConsistent(ops[..|ops| - 1]);
      AppliedConsistent(AppliedAll(ops[..|ops| - 1]), ops[|ops| - 1]);
    }
  }

  lemma AppliedConsistent(r: Registry, op: Op)
    requires r.Consistent()
    ensures Applied(r, op).Consistent()
  {
  }

  /** No line changes the number of humans by more than one, and a rejected one changes nothing. */
  lemma HumansMoveByOne(r: Registry, sid: string, name: string, uuid: string)
    requires r.Consistent()
    ensures var (s, a) := SetSpec(r, sid, name, uuid);
            && |r.humans| <= |s.humans| <= |r.humans| + 1
            && (a.id < FIRST_HUMAN ==> s.humans == r.humans)
            && (a.id >= FIRST_HUMAN ==> |s.humans| > 0)
            && (a.id == -1 ==> s == r)
    ensures var (s, a) := RemoveSpec(r, sid);
            && |r.humans| == |s.humans| + (if a.id >= FIRST_HUMAN then 1 else 0)
            && (a.id < FIRST_HUMAN ==> s.humans == r.humans)
            && (a.admin ==> a.id >= FIRST_HUMAN)
            && (a.id == -1 ==> s == r)
  {
    var id := ParseInt(sid);
    if id in r.humans {
      assert (r.humans - {id}).Keys == r.humans.Keys - {id};
      assert SetSpec(r, sid, name, uuid).0.humans.Keys == r.humans.Keys;
    } else if id >= FIRST_HUMAN {
      assert SetSpec(r, sid, name, uuid).0.humans.Keys == r.humans.Keys + {id};
    }
    assert |r.humans| == |r.humans.Keys|;
  }

  /**
   The admin stays the smallest id except across one event: a new human whose id
   is below the admin's. `AppliedAll(["2000", "1000"])` is such a registry.
   */
  lemma AdminLeastIff(r: Registry, op: Op)
    requires r.Consistent() && r.AdminIsLeast()
    ensures Applied(r, op).AdminIsLeast()
            <==> !(op.Update? && r.admin.Some? && FIRST_HUMAN <= ParseInt(op.sid) < r.admin.value)
  {
    if op.Update? {
      var id := ParseInt(op.sid);
      if r.admin.Some? && FIRST_HUMAN <= id { assert id in Applied(r, op).humans; }
    }
  }

  /** Each human of the run is new with an id above those present, or was there before. */
  ghost predicate Ascending(ops: seq<Op>) {
    forall i :: 0 <= i < |ops| && ops[i].Update? ==>
                  var id := ParseInt(ops[i].sid);
                  var r := AppliedAll(ops[..i]);
                  id in r.humans || forall other :: other in r.humans ==> other < id || id < FIRST_HUMAN
  }

  lemma {:induction false} AscendingAdmin(ops: seq<Op>)
    requires Ascending(ops)
    ensures AppliedAll(ops).AdminIsLeast()
  {
    if ops == [] {
    } else {
      var init := ops[..|ops| - 1];
      forall i | 0 <= i < |init| ensures init[..i] == ops[..i] { }
      assert Ascending(init);
      AscendingAdmin(init);
      AppliedAllConsistent(init);
      AdminLeastIff(AppliedAll(init), ops[|ops| - 1]);
    }
  }

  /** A later, smaller id does not take over. */
  lemma SmallerIdDoesNotLead()
    ensures var r := AppliedAll([Update(Itoa(2000), "", ""), Update(Itoa(1000), "", "")]);
            r.admin == Some(2000) && 1000 in r.humans && !r.AdminIsLeast()
  {
    var first, second := Update(Itoa(2000), "", ""), Update(Itoa(1000), "", "");
    ParseIntItoa(2000);
    ParseIntItoa(1000);
    assert [first, second][..1] == [first];
    assert [first][..0] == [];
    assert AppliedAll([]) == EMPTY;
    assert 2000 in AppliedAll([first]).humans;
    assert 1000 in AppliedAll([first, second]).humans;
  }

  // ------------------------------------------------------- the registry of a history

  /** The last operation on an id, if there was one. */
  function LastOn(ops: seq<Op>, id: int): Option<Op> {
    if ops == [] then None
    else if ParseInt(ops[|ops| - 1].sid) == id then Some(ops[|ops| - 1])
    else LastOn(ops[..|ops| - 1], id)
  }

  /** Somebody is there exactly if the last operation on the id was no removal: below 1000 as a bot, from there on as a human. */
  lemma {:induction false} ThereUnlessRemoved(ops: seq<Op>, id: int)
    ensures var r, last := AppliedAll(ops), LastOn(ops, id);
            && (id in r.bots <==> 1 <= id < 1000 && last.Some? && last.value.Update?)
            && (id in r.humans <==> id >= 1000 && last.Some? && last.value.Update?)
  {
    if ops == [] {
    } else {
      var init, last := ops[..|ops| - 1], ops[|ops| - 1];
      ThereUnlessRemoved(init, id);
      ThereUnlessRemoved(init, ParseInt(last.sid));
    }
  }

  /** The last name that was given since the id was last removed, or else none. */
  function LastName(ops: seq<Op>, id: int): string {
    if ops == [] then ""
    else
      var last := ops[|ops| - 1];
      if ParseInt(last.sid) != id || (last.Update? && last.name == "") then LastName(ops[..|ops| - 1], id)
      else if last.Remove? then ""
      else last.name
  }

  function LastUuid(ops: seq<Op>, id: int): string {
    if ops == [] then ""
    else
      var last := ops[|ops| - 1];
      if ParseInt(last.sid) != id || (last.Update? && last.uuid == "") then LastUuid(ops[..|ops| - 1], id)
      else if last.Remove? then ""
      else last.uuid
  }

  /** Who is not there has left no name behind. */
  lemma {:induction false} GoneIsNameless(ops: seq<Op>, id: int)
    requires id >= 1000 && id !in AppliedAll(ops).humans
    ensures LastName(ops, id) == "" && LastUuid(ops, id) == ""
  {
    ThereUnlessRemoved(ops, id);
    if ops == [] {
    } else if ParseInt(ops[|ops| - 1].sid) != id {
      ThereUnlessRemoved(ops[..|ops| - 1], id);
      GoneIsNameless(ops[..|ops| - 1], id);
    }
  }

  /** A human's names are the last ones given. */
  lemma {:induction false} NamesAreLastGiven(ops: seq<Op>, id: int)
    requires id in AppliedAll(ops).humans
    ensures AppliedAll(ops).humans[id] == Profile(LastName(ops, id), LastUuid(ops, id))
  {
    if ops == [] {
    } else {
      var init, last := ops[..|ops| - 1], ops[|ops| - 1];
      ThereUnlessRemoved(ops, id);
      if id in AppliedAll(init).humans {
        NamesAreLastGiven(init, id);
      } else {
        GoneIsNameless(init, id);
      }
    }
  }

  /** The first human leads, stays the admin until leaving, and leaves the place to the least id. */
  lemma AdminPassesOn(r: Registry, op: Op)
    requires r.Consistent()
    ensures var t, id := Applied(r, op), ParseInt(op.sid);
            if op.Update? then t.admin == if |r.humans| == 0 && id >= 1000 then Some(id) else r.admin
            else if r.admin != Some(id) then t.admin == r.admin
            else t.admin.None? || (t.admin.value in t.humans && forall other :: other in t.humans ==> t.admin.value <= other)
  {
  }

  /** What an update answers: a rejection, a bot, or a human as the registry then has it. */
  lemma SetAnswers(r: Registry, sid: string, name: string, uuid: string)
    ensures var (t, a) := SetSpec(r, sid, name, uuid);
            var id := ParseInt(sid);
            && (id < 1 ==> a == Answer(-1, "", "", false) && t == r)
            && (1 <= id < 1000 ==> a == Answer(id, "", "", false))
            && (id >= 1000 ==> id in t.humans && a == Answer(id, t.humans[id].name, t.humans[id].uuid, t.admin == Some(id)))
  {
  }

  /** What a removal answers: a rejection, a bot, or a human as the registry had it. */
  lemma RemoveAnswers(r: Registry, sid: string)
    requires r.Consistent()
    ensures var (t, a) := RemoveSpec(r, sid);
            var id := ParseInt(sid);
            && (id !in r.bots && id !in r.humans ==> a == Answer(-1, "", "", false) && t == r)
            && (id in r.bots ==> a == Answer(id, "", "", false))
            && (id in r.humans ==> a == Answer(id, r.humans[id].name, r.humans[id].uuid, r.admin == Some(id)))
  {
  }
}
