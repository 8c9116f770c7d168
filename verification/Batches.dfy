/** The loop of `Watch` in internal/watch/watch.go: file events become batches for the filters. */
module Batches {
  import opened Events
  import opened Names
  import opened Wrappers

  /** One thing the loop's select can come back with; a notification's path is already split. */
  datatype Input =
    | Notice(head: string, tail: string, op: Op)
    | Trouble(err: string)
    | Tick
    | Closed                  // a channel of the notifier was closed
    | Cancelled(err: string)  // the context is done

  /** One application of the filters; `ok` is false for the last one. */
  datatype Call = Call(events: Slice, err: Option<string>, ok: bool)

  // ------------------------------------------------------------- specification

  /** The event of a notification below the root, by the watched directory it came from. */
  function Arrival(watches: map<string, string>, root: string, x: Input): Option<Event> {
    if !x.Notice? || x.head == "" || x.tail == "" || x.head !in watches then None
    else
      var alias := watches[x.head];
      if HasPrefix(alias, root) then Some(Event((alias + x.tail)[|root|..], x.op)) else None
  }

  function Arrivals(watches: map<string, string>, root: string, inputs: seq<Input>): seq<Event> {
    if inputs == [] then []
    else
      var a := Arrival(watches, root, inputs[|inputs| - 1]);
      Arrivals(watches, root, inputs[..|inputs| - 1]) + if a.Some? then [a.value] else []
  }

  /** Everything that was handed to the filters, in the order in which it was. */
  function Delivered(calls: seq<Call>): seq<Event> {
    if calls == [] then []
    else
      var last := calls[|calls| - 1].events;
      Delivered(calls[..|calls| - 1]) + if last.Items? then last.es else []
  }

  /** The errors that were handed to the filters, in order. */
  function Errors(calls: seq<Call>): seq<string> {
    if calls == [] then []
    else
      var last := calls[|calls| - 1].err;
      Errors(calls[..|calls| - 1]) + if last.Some? then [last.value] else []
  }

  function Troubles(inputs: seq<Input>): seq<string> {
    if inputs == [] then []
    else
      var x := inputs[|inputs| - 1];
      Troubles(inputs[..|inputs| - 1]) + if x.Trouble? || x.Cancelled? then [x.err] else []
  }

  function Why(x: Input): Option<string> {
    if x.Trouble? || x.Cancelled? then Some(x.err) else None
  }

  predicate Ends(x: Input) {
    x.Closed? || x.Cancelled?
  }

  /** A call hands over a batch that is not empty, or an error, or says that this was the last. */
  predicate Proper(c: Call) {
    || (c.events.Items? && c.events.es != [] && c.err.None? && c.ok)
    || (c.events.Nil? && c.err.Some? && c.ok)
    || c == Call(Nil, None, false)
  }

  predicate AllProper(calls: seq<Call>) {
    forall k :: 0 <= k < |calls| ==> Proper(calls[k])
  }

  lemma Associate<T>(a: seq<T>, b: seq<T>, c: seq<T>)
    ensures (a + b) + c == a + (b + c)
    ensures a + [] == a
  {
  }

  /** A call with `ok` false is the last one, and is there once the loop has ended. */
  predicate LastIsLast(calls: seq<Call>, ended: bool) {
    && (forall k :: 0 <= k < |calls| && !calls[k].ok ==> k == |calls| - 1)
    && (ended <==> calls != [] && !calls[|calls| - 1].ok)
  }

  /** The applications of one `wrap`, in their order. */
  function Wrapped(waiting: seq<Event>, err: Option<string>, ok: bool): seq<Call> {
    (if waiting == [] then [] else [Call(Items(waiting), None, true)])
    + (if err.Some? then [Call(Nil, err, true)] else [])
    + (if ok then [] else [Call(Nil, None, false)])
  }

  lemma DeliveredLast(calls: seq<Call>, c: Call)
    ensures Delivered(calls + [c]) == Delivered(calls) + if c.events.Items? then c.events.es else []
    ensures Errors(calls + [c]) == Errors(calls) + if c.err.Some? then [c.err.value] else []
  {
    assert (calls + [c])[..|calls|] == calls;
  }

  lemma ArrivalsLast(watches: map<string, string>, root: string, inputs: seq<Input>, x: Input)
    ensures var a := Arrival(watches, root, x);
            Arrivals(watches, root, inputs + [x]) == Arrivals(watches, root, inputs) + if a.Some? then [a.value] else []
    ensures Troubles(inputs + [x]) == Troubles(inputs) + if x.Trouble? || x.Cancelled? then [x.err] else []
  {
    assert (inputs + [x])[..|inputs|] == inputs;
  }

  // --------------------------------------------------------------------- class

  class DirWatch {
    const root: string
    const watches: map<string, string>
    var events: seq<Event>
    var armed: bool
    // The applications so far, and what was read so far.
    ghost var calls: seq<Call>
    ghost var inputs: seq<Input>
    ghost const found: seq<Event>

    /** Nothing is lost, twice delivered or out of order; and what waits will be delivered by a tick. */
    ghost predicate Valid()
      reads this
    {
      && Delivered(calls) + events == found + Arrivals(watches, root, inputs)
      && Errors(calls) == Troubles(inputs)
      && AllProper(calls)
      && (forall k :: 0 <= k < |inputs| && Ends(inputs[k]) ==> k == |inputs| - 1)
      && LastIsLast(calls, Ended())
      && (events != [] ==> armed && !Ended())
    }

    ghost predicate Ended()
      reads this
    {
      inputs != [] && Ends(inputs[|inputs| - 1])
    }

    /** The files found by the first walk make the first batch. */
    constructor (root: string, watches: map<string, string>, found: seq<Event>)
      ensures Valid() && events == [] && inputs == []
      ensures calls == if found == [] then [] else [Call(Items(found), None, true)]
    {
      this.root, this.watches, this.found := root, watches, found;
      events, armed := found, true;
      calls, inputs := [], [];
      new;
      Flush();
      assert Arrivals(watches, root, []) == [];
      assert found + [] == found && [] + found == found;
    }

    /** Where the filters are applied. */
    method Apply(batch: Slice, err: Option<string>, ok: bool)
      modifies `calls
      ensures calls == old(calls) + [Call(batch, err, ok)]
      ensures Delivered(calls) == old(Delivered(calls)) + if batch.Items? then batch.es else []
      ensures Errors(calls) == old(Errors(calls)) + if err.Some? then [err.value] else []
    {
      DeliveredLast(calls, Call(batch, err, ok));
      calls := calls + [Call(batch, err, ok)];
    }

    /** The first part of `wrap`. */
    method Flush()
      modifies `events, `armed, `calls
      ensures events == []
      ensures calls == old(calls) + if old(events) == [] then [] else [Call(Items(old(events)), None, true)]
      ensures old(AllProper(calls) && LastIsLast(calls, false)) ==> AllProper(calls) && LastIsLast(calls, false)
      ensures Delivered(calls) == old(Delivered(calls) + events)
      ensures Errors(calls) == old(Errors(calls))
    {
      if |events| != 0 {
        armed := false;
        Apply(Items(events), None, true);
        events := [];
      }
    }

    /** `wrap`: what waits, then the error, then the end, each in an application of its own. */
    method Wrap(err: Option<string>, ok: bool)
      requires AllProper(calls) && LastIsLast(calls, false)
      modifies `events, `armed, `calls
      ensures events == []
      ensures calls == old(calls) + Wrapped(old(events), err, ok)
      ensures Delivered(calls) == old(Delivered(calls) + events)
      ensures Errors(calls) == old(Errors(calls)) + if err.Some? then [err.value] else []
      ensures AllProper(calls) && LastIsLast(calls, !ok)
    {
      ghost var was, waiting := calls, events;
      ghost var batch := if waiting == [] then [] else [Call(Items(waiting), None, true)];
      ghost var trouble := if err.Some? then [Call(Nil, err, true)] else [];
      Flush();
      Associate(was, batch, trouble);
      if err.Some? { Hand(err, true); }
      assert calls == was + (batch + trouble);
      Associate(was, batch + trouble, if ok then [] else [Call(Nil, None, false)]);
      if !ok { Hand(None, false); }
    }

    /** An application without a batch. */
    method Hand(err: Option<string>, ok: bool)
      requires AllProper(calls) && LastIsLast(calls, false) && (ok <==> err.Some?)
      modifies `calls
      ensures calls == old(calls) + [Call(Nil, err, ok)]
      ensures Delivered(calls) == old(Delivered(calls))
      ensures Errors(calls) == old(Errors(calls)) + if err.Some? then [err.value] else []
      ensures AllProper(calls) && LastIsLast(calls, !ok)
    {
      Apply(Nil, err, ok);
    }

    /** The end of the loop's body: a notification below the root joins those that wait. */
    method Note(x: Input)
      requires x.Notice?
      modifies `events, `armed
      ensures events == old(events) + (var a := Arrival(watches, root, x); if a.Some? then [a.value] else [])
      ensures (old(events) != [] ==> old(armed)) ==> (events != [] ==> armed)
    {
      if x.head == "" || x.tail == "" || x.head !in watches { return; }
      var alias := watches[x.head];
      if !HasPrefix(alias, root) { return; }
      if |events| == 0 { armed := true; }
      events := events + [Event((alias + x.tail)[|root|..], x.op)];
    }

    /** One turn of the loop; it is the last turn if `stop`. */
    method Turn(x: Input) returns (stop: bool)
      requires Valid() && !Ended()
      modifies this
      ensures Valid() && inputs == old(inputs) + [x]
      ensures stop <==> Ended()
      ensures calls == old(calls) + if x.Notice? then [] else Wrapped(old(events), Why(x), !Ends(x))
      ensures x.Tick? || x.Trouble? || stop ==> events == []
    {
      ArrivalsLast(watches, root, inputs, x);
      ghost var a := Arrival(watches, root, x);
      ghost var more := if a.Some? then [a.value] else [];
      Associate(Delivered(calls), events, more);
      Associate(found, Arrivals(watches, root, inputs), more);
      stop := x.Closed? || x.Cancelled?;
      if x.Notice? {
        Note(x);
      } else {
        Wrap(if x.Trouble? || x.Cancelled? then Some(x.err) else None, !stop);
      }
      inputs := inputs + [x];
    }

    /** The loop, on whatever it is woken by until it ends. */
    method Run(wakes: seq<Input>) returns (n: nat)
      requires Valid() && inputs == []
      modifies this
      ensures Valid() && n <= |wakes| && inputs == wakes[..n]
      ensures n < |wakes| ==> Ended()
      ensures Ended() ==> Delivered(calls) == found + Arrivals(watches, root, wakes[..n])
    {
      n := 0;
      while n < |wakes|
        invariant 0 <= n <= |wakes| && inputs == wakes[..n]
        invariant Valid() && !Ended()
      {
        var stop := Turn(wakes[n]);
        n := n + 1;
        if stop {
          assert Delivered(calls) + [] == Delivered(calls);
          return;
        }
      }
    }
  }

  // ---------------------------------------------------------------------- arrivals

  /** A notification from a directory below the root is news of the name below the root, and from any other it is none. */
  lemma ArrivalIs(watches: map<string, string>, root: string, head: string, tail: string, op: Op, below: string)
    requires head != "" && tail != "" && head in watches
    ensures watches[head] == root + below
            ==> Arrival(watches, root, Notice(head, tail, op)) == Some(Event(below + tail, op))
    ensures !(root <= watches[head]) ==> Arrival(watches, root, Notice(head, tail, op)) == None
  {
    assert ((root + below) + tail)[|root|..] == below + tail;
  }

  /** What is no notification, or lacks a part of its path, or comes from nowhere known, is no news. */
  lemma NoArrival(watches: map<string, string>, root: string, x: Input)
    requires x.Notice? ==> x.head == "" || x.tail == "" || x.head !in watches
    ensures Arrival(watches, root, x) == None
  {
  }

  /** What waits is handed over first, then the error, and the end comes last. */
  lemma WrappedOrder(waiting: seq<Event>, err: string)
    requires waiting != []
    ensures Wrapped(waiting, Some(err), false)
            == [Call(Items(waiting), None, true), Call(Nil, Some(err), true), Call(Nil, None, false)]
    ensures Wrapped([], None, true) == [] && Wrapped([], None, false) == [Call(Nil, None, false)]
    ensures Wrapped(waiting, None, true) == [Call(Items(waiting), None, true)]
    ensures Wrapped([], Some(err), true) == [Call(Nil, Some(err), true)]
  {
  }

  /** The watch ends when the notifier's channel closes or the context is done, of which alone the error is handed over. */
  lemma WhatEnds(x: Input, err: string)
    ensures Ends(Closed) && Ends(Cancelled(err)) && (x.Notice? || x.Trouble? || x.Tick? ==> !Ends(x))
    ensures Why(Closed) == None && Why(Cancelled(err)) == Some(err) && Why(Trouble(err)) == Some(err) && Why(Tick) == None
  {
  }
}
