/** How files set the desired status: `Spec.Watch` of internal/lobby/spec.go. */
module SpecFiles {
  import opened Batches
  import opened Events
  import opened GoTime
  import S = Spec
  import opened Wrappers

  type Spec = S.Spec

  datatype Field =
    | Up | FlagUp | PeerFull
    | Down | FlagDown | PeerIdle | ForceDown | FlagForceDown
    | Restart | FlagRestart | ForceRestart | FlagForceRestart
    | Stop | PeerUp | FlagStop | ForceStop | FlagForceStop

  function FieldOf(name: string): Option<Field> {
    match name
    case "up" => Some(Up)
    case "flag/up" => Some(FlagUp)
    case "peer/full" => Some(PeerFull)
    case "down" => Some(Down)
    case "flag/down" => Some(FlagDown)
    case "peer/idle" => Some(PeerIdle)
    case "forcedown" => Some(ForceDown)
    case "flag/forcedown" => Some(FlagForceDown)
    case "restart" => Some(Restart)
    case "flag/restart" => Some(FlagRestart)
    case "forcerestart" => Some(ForceRestart)
    case "flag/forcerestart" => Some(FlagForceRestart)
    case "stop" => Some(Stop)
    case "peer/up" => Some(PeerUp)
    case "flag/stop" => Some(FlagStop)
    case "forcestop" => Some(ForceStop)
    case "flag/forcestop" => Some(FlagForceStop)
    case _ => None
  }

  function TimeIn(s: Spec, f: Field): Time {
    match f
    case Up => s.up
    case FlagUp => s.flagUp
    case PeerFull => s.peerFull
    case Down => s.down
    case FlagDown => s.flagDown
    case PeerIdle => s.peerIdle
    case ForceDown => s.forceDown
    case FlagForceDown => s.flagForceDown
    case Restart => s.restart
    case FlagRestart => s.flagRestart
    case ForceRestart => s.forceRestart
    case FlagForceRestart => s.flagForceRestart
    case Stop => s.stop
    case PeerUp => s.peerUp
    case FlagStop => s.flagStop
    case ForceStop => s.forceStop
    case FlagForceStop => s.flagForceStop
  }

  function SetTime(s: Spec, f: Field, t: Time): Spec {
    match f
    case Up => s.(up := t)
    case FlagUp => s.(flagUp := t)
    case PeerFull => s.(peerFull := t)
    case Down => s.(down := t)
    case FlagDown => s.(flagDown := t)
    case PeerIdle => s.(peerIdle := t)
    case ForceDown => s.(forceDown := t)
    case FlagForceDown => s.(flagForceDown := t)
    case Restart => s.(restart := t)
    case FlagRestart => s.(flagRestart := t)
    case ForceRestart => s.(forceRestart := t)
    case FlagForceRestart => s.(flagForceRestart := t)
    case Stop => s.(stop := t)
    case PeerUp => s.(peerUp := t)
    case FlagStop => s.(flagStop := t)
    case ForceStop => s.(forceStop := t)
    case FlagForceStop => s.(flagForceStop := t)
  }

  lemma TimeInSetTime(s: Spec, f: Field, t: Time, g: Field)
    ensures TimeIn(SetTime(s, f, t), g) == if g == f then t else TimeIn(s, g)
  {
  }

  lemma SameFields(a: Spec, b: Spec)
    requires forall f :: TimeIn(a, f) == TimeIn(b, f)
    ensures a == b
  {
    assert TimeIn(a, Up) == TimeIn(b, Up) && TimeIn(a, FlagUp) == TimeIn(b, FlagUp) && TimeIn(a, PeerFull) == TimeIn(b, PeerFull);
    assert TimeIn(a, Down) == TimeIn(b, Down) && TimeIn(a, FlagDown) == TimeIn(b, FlagDown) && TimeIn(a, PeerIdle) == TimeIn(b, PeerIdle);
    assert TimeIn(a, ForceDown) == TimeIn(b, ForceDown) && TimeIn(a, FlagForceDown) == TimeIn(b, FlagForceDown);
    assert TimeIn(a, Restart) == TimeIn(b, Restart) && TimeIn(a, FlagRestart) == TimeIn(b, FlagRestart);
    assert TimeIn(a, ForceRestart) == TimeIn(b, ForceRestart) && TimeIn(a, FlagForceRestart) == TimeIn(b, FlagForceRestart);
    assert TimeIn(a, Stop) == TimeIn(b, Stop) && TimeIn(a, PeerUp) == TimeIn(b, PeerUp) && TimeIn(a, FlagStop) == TimeIn(b, FlagStop);
    assert TimeIn(a, ForceStop) == TimeIn(b, ForceStop) && TimeIn(a, FlagForceStop) == TimeIn(b, FlagForceStop);
  }

  /** Different files set different fields. */
  lemma FieldsDiffer(a: string, b: string)
    requires FieldOf(a).Some? && FieldOf(a) == FieldOf(b)
    ensures a == b
  {
  }

  // -------------------------------------------------------------------- reading

  /** json.Unmarshal into a time either sets it or leaves it alone. */
  datatype Decoded = Set(t: Time) | Keep

  /** What a file's content makes of a field: empty restores it, a lone newline means now, anything else is decoded. */
  function NewValue(bs: string, captured: Time, old': Time, now: Time, decode: string -> Decoded): Time {
    var nl := bs != "" && bs[|bs| - 1] == '\n';
    var body := if nl then bs[..|bs| - 1] else bs;
    if body == "" then (if nl then now else captured)
    else match decode(body) case Set(t) => t case Keep => old'
  }

  /** What a batch is read against: the files as they are then, and the clock. */
  datatype Sight = Sight(files: map<string, string>, now: Time)

  function ContentOf(x: Sight, name: string): string {
    if name in x.files then x.files[name] else ""
  }

  function UpdatedBy(s: Spec, captured: Spec, x: Sight, name: string, decode: string -> Decoded): Spec {
    match FieldOf(name)
    case None => s
    case Some(f) => SetTime(s, f, NewValue(ContentOf(x, name), TimeIn(captured, f), TimeIn(s, f), x.now, decode))
  }

  /** A batch read from its first event to its last. */
  function Applied(s: Spec, captured: Spec, x: Sight, es: seq<Event>, decode: string -> Decoded): Spec {
    if es == [] then s
    else UpdatedBy(Applied(s, captured, x, es[..|es| - 1], decode), captured, x, es[|es| - 1].name, decode)
  }

  ghost predicate Distinct(es: seq<Event>) {
    forall i, j :: 0 <= i < j < |es| ==> es[i].name != es[j].name
  }

  function NameOf(f: Field): (name: string)
    ensures FieldOf(name) == Some(f)
  {
    match f
    case Up => "up"
    case FlagUp => "flag/up"
    case PeerFull => "peer/full"
    case Down => "down"
    case FlagDown => "flag/down"
    case PeerIdle => "peer/idle"
    case ForceDown => "forcedown"
    case FlagForceDown => "flag/forcedown"
    case Restart => "restart"
    case FlagRestart => "flag/restart"
    case ForceRestart => "forcerestart"
    case FlagForceRestart => "flag/forcerestart"
    case Stop => "stop"
    case PeerUp => "peer/up"
    case FlagStop => "flag/stop"
    case ForceStop => "forcestop"
    case FlagForceStop => "flag/forcestop"
  }

  /** After a batch of different names each field named in it reflects its file, and no other has changed. */
  ghost predicate Reflects(s: Spec, t: Spec, captured: Spec, x: Sight, es: seq<Event>, decode: string -> Decoded) {
    forall f :: TimeIn(t, f) == if Named(es, NameOf(f))
                             then NewValue(ContentOf(x, NameOf(f)), TimeIn(captured, f), TimeIn(s, f), x.now, decode)
                             else TimeIn(s, f)
  }

  lemma {:induction false} AppliedReflects(s: Spec, captured: Spec, x: Sight, es: seq<Event>, decode: string -> Decoded)
    requires Distinct(es)
    ensures Reflects(s, Applied(s, captured, x, es, decode), captured, x, es, decode)
  {
    if es == [] {
    } else {
      var init, last := es[..|es| - 1], es[|es| - 1];
      AppliedReflects(s, captured, x, init, decode);
      assert es == init + [last];
      NamedLast(init, last);
      var mid, t := Applied(s, captured, x, init, decode), Applied(s, captured, x, es, decode);
      forall f ensures TimeIn(t, f) == if Named(es, NameOf(f))
                                    then NewValue(ContentOf(x, NameOf(f)), TimeIn(captured, f), TimeIn(s, f), x.now, decode)
                                    else TimeIn(s, f)
      {
        UpdatedField(mid, captured, x, last.name, decode, f);
        assert last.name == NameOf(f) ==> !Named(init, NameOf(f));
      }
    }
  }

  lemma UpdatedField(s: Spec, captured: Spec, x: Sight, name: string, decode: string -> Decoded, f: Field)
    ensures TimeIn(UpdatedBy(s, captured, x, name, decode), f)
            == if name == NameOf(f) then NewValue(ContentOf(x, name), TimeIn(captured, f), TimeIn(s, f), x.now, decode)
               else TimeIn(s, f)
  {
    if FieldOf(name).Some? {
      var g := FieldOf(name).value;
      TimeInSetTime(s, g, NewValue(ContentOf(x, name), TimeIn(captured, g), TimeIn(s, g), x.now, decode), f);
      FieldsDiffer(name, NameOf(g));
    }
  }

  /** In whatever order a batch's names come, and whatever its operations, the status is the same. */
  lemma Confluent(s: Spec, captured: Spec, x: Sight, a: seq<Event>, b: seq<Event>, decode: string -> Decoded)
    requires Distinct(a) && Distinct(b) && forall name :: Named(a, name) <==> Named(b, name)
    ensures Applied(s, captured, x, a, decode) == Applied(s, captured, x, b, decode)
  {
    AppliedReflects(s, captured, x, a, decode);
    AppliedReflects(s, captured, x, b, decode);
    SameFields(Applied(s, captured, x, a, decode), Applied(s, captured, x, b, decode));
  }

  /**
   What a field is to be for its file: the captured time if there is no file or nothing
   in it, the clock for a lone newline, and for a body, with or without a newline behind
   it, what that decodes to, or what it was if that sets nothing.
   */
  ghost predicate Means(t: Time, x: Sight, name: string, captured: Time, was: Time, decode: string -> Decoded) {
    && (name !in x.files || x.files[name] == "" ==> t == captured)
    && (name in x.files && x.files[name] == "\n" ==> t == x.now)
    && forall body :: name in x.files && HoldsBody(x.files[name], body) ==>
                        (decode(body).Set? ==> t == decode(body).t) && (decode(body).Keep? ==> t == was)
  }

  predicate HoldsBody(content: string, body: string) {
    body != "" && (content == body + "\n" || (content == body && body[|body| - 1] != '\n'))
  }

  lemma NewValueMeans(x: Sight, name: string, captured: Time, was: Time, decode: string -> Decoded)
    ensures Means(NewValue(ContentOf(x, name), captured, was, x.now, decode), x, name, captured, was, decode)
  {
    var bs := ContentOf(x, name);
    forall body | name in x.files && HoldsBody(x.files[name], body)
      ensures NewValue(bs, captured, was, x.now, decode) == match decode(body) case Set(t) => t case Keep => was
    {
      if bs == body + "\n" { assert bs[..|bs| - 1] == body; }
    }
  }

  /** After an application every concerned field is what its file means, and no other has changed. */
  ghost predicate Shows(s: Spec, t: Spec, captured: Spec, es: seq<Event>, x: Sight, decode: string -> Decoded) {
    forall f :: if exists e :: e in es && Concerns(e, NameOf(f))
                then Means(TimeIn(t, f), x, NameOf(f), TimeIn(captured, f), TimeIn(s, f), decode)
                else TimeIn(t, f) == TimeIn(s, f)
  }

  lemma ObeyingShows(s: Spec, t: Spec, captured: Spec, call: Call, x: Sight, decode: string -> Decoded)
    requires Obeys(s, t, captured, call, x, decode) && call.events.Items?
    ensures Shows(s, t, captured, call.events.es, x, decode)
  {
    forall f ensures if exists e :: e in call.events.es && Concerns(e, NameOf(f))
                     then Means(TimeIn(t, f), x, NameOf(f), TimeIn(captured, f), TimeIn(s, f), decode)
                     else TimeIn(t, f) == TimeIn(s, f)
    {
      NewValueMeans(x, NameOf(f), TimeIn(captured, f), TimeIn(s, f), decode);
    }
  }

  // --------------------------------------------------------------------- class

  /** What one application of the filters does to the status. */
  ghost predicate Obeys(s: Spec, t: Spec, captured: Spec, call: Call, x: Sight, decode: string -> Decoded) {
    match call.events
    case Items(es) =>
      forall f :: TimeIn(t, f) == if exists e :: e in es && Concerns(e, NameOf(f))
                               then NewValue(ContentOf(x, NameOf(f)), TimeIn(captured, f), TimeIn(s, f), x.now, decode)
                               else TimeIn(s, f)
    case Nil => t == if call.err.None? then captured else s
  }

  class SpecWatch {
    const captured: Spec
    const decode: string -> Decoded
    var spec: Spec

    constructor (spec: Spec, decode: string -> Decoded)
      ensures this.spec == spec && captured == spec && this.decode == decode
    {
      this.spec, captured, this.decode := spec, spec, decode;
    }

    /** The closure `update`. */
    method Update(name: string, content: string, now: Time)
      modifies this
      ensures spec == UpdatedBy(old(spec), captured, Sight(map[name := content], now), name, decode)
    {
      var f := FieldOf(name);
      if f.None? { return; }
      var bs := content;
      var nl := |bs| != 0 && bs[|bs| - 1] == '\n';
      if nl { bs := bs[..|bs| - 1]; }
      if !nl && |bs| == 0 {
        spec := SetTime(spec, f.value, TimeIn(captured, f.value));
      } else if nl && |bs| == 0 {
        spec := SetTime(spec, f.value, now);
      } else {
        var d := decode(bs);
        if d.Set? { spec := SetTime(spec, f.value, d.t); }
        SetTimeIn(old(spec), f.value);
      }
    }

    /** The filter that is last in line. */
    method Callback(events: Slice, err: Option<string>, x: Sight)
      modifies this
      ensures spec == if events.Items? then Applied(old(spec), captured, x, events.es, decode)
                      else if err.None? then captured else old(spec)
    {
      if events.Items? {
        for i := 0 to |events.es|
          invariant spec == Applied(old(spec), captured, x, events.es[..i], decode)
        {
          assert events.es[..i + 1][..i] == events.es[..i];
          Update(events.es[i].name, ContentOf(x, events.es[i].name), x.now);
        }
        assert events.es[..|events.es|] == events.es;
      }
      if events.Nil? && err.None? { spec := captured; }
    }

    /** `apply`: the filters one after the other, unless one has nothing left to say. */
    method Apply(call: Call, x: Sight)
      requires Proper(call)
      modifies this
      ensures Obeys(old(spec), spec, captured, call, x, decode)
      ensures call.events.Items? ==> Shows(old(spec), spec, captured, call.events.es, x, decode)
      ensures call.events.Nil? ==> spec == if call.err.None? then captured else old(spec)
    {
      var events := LastNames(call.events);
      if call.ok && events.Nil? && call.err.None? { return; }
      events := LockNames(events);
      if call.ok && events.Nil? && call.err.None? { return; }
      events := SameNames(events);
      if call.ok && events.Nil? && call.err.None? { return; }
      if call.events.Items? {
        SpreadDigest(call.events.es, events.es);
        DigestReflects(spec, captured, x, call.events.es, events.es, decode);
      }
      Callback(events, call.err, x);
      if call.events.Items? { ObeyingShows(old(spec), spec, captured, call, x, decode); }
    }
  }

  lemma SetTimeIn(s: Spec, f: Field)
    ensures SetTime(s, f, TimeIn(s, f)) == s
  {
  }

  lemma DigestReflects(s: Spec, captured: Spec, x: Sight, es: seq<Event>, r: seq<Event>, decode: string -> Decoded)
    requires Digest(es, r)
    ensures forall f :: TimeIn(Applied(s, captured, x, r, decode), f)
                        == if exists e :: e in es && Concerns(e, NameOf(f))
                           then NewValue(ContentOf(x, NameOf(f)), TimeIn(captured, f), TimeIn(s, f), x.now, decode)
                           else TimeIn(s, f)
  {
    AppliedReflects(s, captured, x, r, decode);
  }

  // ---------------------------------------------------------------------- runs

  /** The status before and after each application. */
  ghost predicate IsHistory(specs: seq<Spec>, calls: seq<Call>, sights: seq<Sight>, decode: string -> Decoded) {
    && |specs| == |calls| + 1 && |sights| == |calls|
    && forall k :: 0 <= k < |calls| ==>
                     Proper(calls[k]) && Obeys(specs[k], specs[k + 1], specs[0], calls[k], sights[k], decode)
  }

  ghost predicate ConcernsField(call: Call, f: Field) {
    call.events.Items? && exists e :: e in call.events.es && Concerns(e, NameOf(f))
  }

  /** Between two applications that concern it, or from the last one on, a field does not change. */
  lemma {:induction false} Unconcerned(specs: seq<Spec>, calls: seq<Call>, sights: seq<Sight>, decode: string -> Decoded,
                                       f: Field, i: nat, j: nat)
    requires IsHistory(specs, calls, sights, decode) && i <= j <= |calls|
    requires forall k :: i <= k < j ==> calls[k].ok && !ConcernsField(calls[k], f)
    ensures TimeIn(specs[j], f) == TimeIn(specs[i], f)
    decreases j - i
  {
    if i == j {
    } else {
      assert Obeys(specs[j - 1], specs[j], specs[0], calls[j - 1], sights[j - 1], decode);
      assert !ConcernsField(calls[j - 1], f);
      Unconcerned(specs, calls, sights, decode, f, i, j - 1);
    }
  }

  /** While the watch lasts, a field shows what its file meant when it was last news. */
  lemma FieldShowsLastRead(specs: seq<Spec>, calls: seq<Call>, sights: seq<Sight>, decode: string -> Decoded,
                           f: Field, k: nat, j: nat)
    requires IsHistory(specs, calls, sights, decode) && k < j <= |calls|
    requires ConcernsField(calls[k], f)
    requires forall n :: k < n < j ==> calls[n].ok && !ConcernsField(calls[n], f)
    ensures Means(TimeIn(specs[j], f), sights[k], NameOf(f), TimeIn(specs[0], f), TimeIn(specs[k], f), decode)
  {
    Unconcerned(specs, calls, sights, decode, f, k + 1, j);
    assert Obeys(specs[k], specs[k + 1], specs[0], calls[k], sights[k], decode);
    NewValueMeans(sights[k], NameOf(f), TimeIn(specs[0], f), TimeIn(specs[k], f), decode);
  }

  /** When the watch has ended the status is what it was before. */
  lemma EndRestores(specs: seq<Spec>, calls: seq<Call>, sights: seq<Sight>, decode: string -> Decoded)
    requires IsHistory(specs, calls, sights, decode) && LastIsLast(calls, true)
    ensures specs[|calls|] == specs[0]
  {
    var k := |calls| - 1;
    assert Obeys(specs[k], specs[k + 1], specs[0], calls[k], sights[k], decode);
  }
}
