/** `Lobby.Cancel` of internal/lobby/lobby.go: one stored reason, one closing of `done`. */
module Cancel {
  import opened Wrappers

  datatype Reason =
    | Bad | Bug | Done | IdleTimeout | Disconnected | MaxFails
    | Timeout | AdminTimeout | Downed | Stopped | Restarted
    | Exit(code: int)   // an error of the child's start or exit, or of the set-up before it

  // `Absent` is the nil channel before `alloc`.
  datatype DoneChannel = Absent | Open | Closed

  datatype Child = NotStarted | Running | Reaped

  // ------------------------------------------------------------ specification

  datatype State = State(reason: Option<Reason>, done: DoneChannel, child: Child, signals: nat) {
    /** `done` is closed once there is a reason, and not before. */
    ghost predicate Coherent() {
      done != Absent ==> (done == Closed <==> reason.Some?)
    }
  }

  /** The committed state of `alloc`. */
  const FRESH := State(None, Open, NotStarted, 0)

  predicate Settled(stored: Option<Reason>) {
    stored.Some? && stored != Some(Done)
  }

  /** Done counts as no error. */
  function Told(stored: Option<Reason>): Option<Reason> {
    if stored == Some(Done) then None else stored
  }

  /** The state after a call with a reason: a stored cause swallows it. */
  function CancelSpec(s: State, reason: Reason): State {
    if Settled(s.reason) then s
    else State(Some(reason),
               if s.done == Absent then Absent else Closed,
               s.child,
               s.signals + if s.child == Running then 1 else 0)
  }

  // -------------------------------------------------------------------- class

  /** The part of `Lobby` that `errx` guards; every call holds that lock throughout. */
  class Canceller {
    var reason: Option<Reason>
    var done: DoneChannel
    var child: Child
    var signals: nat

    ghost function View(): State
      reads this
    {
      State(reason, done, child, signals)
    }

    constructor ()
      ensures View() == State(None, Absent, NotStarted, 0)
    {
      reason, done, child, signals := None, Absent, NotStarted, 0;
    }

    /** The assignments of `alloc` once it is committed to run. */
    method Alloc()
      modifies this
      ensures View() == FRESH
    {
      reason, done, child, signals := None, Open, NotStarted, 0;
    }

    /** A closed channel must not be closed again. */
    method CloseDone()
      requires done == Open
      modifies this`done
      ensures done == Closed
    {
      done := Closed;
    }

    /** `why` is None for Go's nil, which only asks; the stored reason is then returned as it is. */
    method Cancel(why: Option<Reason>) returns (told: Option<Reason>)
      requires View().Coherent()
      modifies this
      ensures View().Coherent()
      ensures why.None? ==> View() == old(View()) && told == reason
      ensures why.Some? ==> View() == CancelSpec(old(View()), why.value) && told == Told(reason)
    {
      if why.None? { return reason; }
      var close := false;
      if reason.None? {
        close := done != Absent;
      } else if reason != Some(Done) {
        return reason;
      }
      reason := why;
      told := if why == Some(Done) then None else why;
      if child == Running { signals := signals + 1; }
      if close { CloseDone(); }
    }
  }

  // ------------------------------------------------------------- runs of calls

  ghost function After(s: State, calls: seq<Reason>): State {
    if calls == [] then s else CancelSpec(After(s, calls[..|calls| - 1]), calls[|calls| - 1])
  }

  /** The first reason in `calls` that is not Done. */
  function FirstCause(calls: seq<Reason>): Option<Reason> {
    if calls == [] then None
    else if calls[0] != Done then Some(calls[0])
    else FirstCause(calls[1..])
  }

  lemma {:induction false} FirstCauseLast(calls: seq<Reason>, last: Reason)
    ensures FirstCause(calls + [last])
            == if FirstCause(calls).Some? then FirstCause(calls) else if last == Done then None else Some(last)
  {
    if calls == [] {
    } else if calls[0] == Done {
      assert (calls + [last])[1..] == calls[1..] + [last];
      FirstCauseLast(calls[1..], last);
    }
  }

  /**
   After any calls in any order the stored reason is the first cause, Done if there
   were only Done calls, and nothing if there were none. `done` was closed if there was
   a call. Each call is told the reason that stands after it, whatever it brought.
   */
  lemma {:induction false} CallsKeepFirstCause(calls: seq<Reason>)
    ensures var s := After(FRESH, calls);
            && s.Coherent()
            && s.reason == (if FirstCause(calls).Some? then FirstCause(calls)
                            else if calls == [] then None else Some(Done))
            && (s.done == Closed <==> calls != [])
  {
    if calls == [] {
    } else {
      var init := calls[..|calls| - 1];
      CallsKeepFirstCause(init);
      FirstCauseIsCause(init);
      FirstCauseLast(init, calls[|calls| - 1]);
      assert init + [calls[|calls| - 1]] == calls;
    }
  }

  /**
   A running child is signalled once by every call up to the first cause and by none
   after it; one that does not run, or whose lobby has a cause already, never is.
   */
  lemma {:induction false} SignalsUpToFirstCause(s: State, calls: seq<Reason>, n: nat)
    requires n <= |calls|
    requires forall i :: 0 <= i < n ==> calls[i] == Done
    requires n < |calls| ==> calls[n] != Done
    ensures var heard := s.child == Running && !Settled(s.reason);
            After(s, calls).signals == s.signals + if !heard then 0 else if n < |calls| then n + 1 else n
    ensures After(s, calls).child == s.child
    ensures Settled(After(s, calls).reason) <==> Settled(s.reason) || n < |calls|
  {
    if calls == [] {
    } else {
      var init := calls[..|calls| - 1];
      SignalsUpToFirstCause(s, init, if n < |calls| then n else n - 1);
    }
  }

  /** What `runc` returns for the child's exit error, given the calls made before it. */
  ghost function RuncTold(calls: seq<Reason>, exit: Option<Reason>): Option<Reason> {
    if exit.None? then After(FRESH, calls).reason
    else Told(CancelSpec(After(FRESH, calls), exit.value).reason)
  }

  /**
   A process exit error never masks an earlier cause. Without a cause the exit error is
   returned; and Done, which is no error anywhere else, comes out of a clean exit
   exactly when somebody had already reported Done and nobody a cause.
   */
  lemma RuncReturnsTheCause(calls: seq<Reason>, exit: Option<Reason>)
    requires exit != Some(Done)
    ensures FirstCause(calls).Some? ==> RuncTold(calls, exit) == FirstCause(calls)
    ensures FirstCause(calls).None? && exit.Some? ==> RuncTold(calls, exit) == exit
    ensures RuncTold(calls, exit) == Some(Done) <==> exit.None? && FirstCause(calls).None? && calls != []
  {
    CallsKeepFirstCause(calls);
    FirstCauseIsCause(calls);
  }

  lemma {:induction false} FirstCauseIsCause(calls: seq<Reason>)
    ensures FirstCause(calls) != Some(Done)
  {
    if calls == [] {
    } else if calls[0] == Done {
      FirstCauseIsCause(calls[1..]);
    }
  }

  /** Each call is told the first cause of all calls up to itself; without one it is told of no error. */
  lemma CallsAreTold(calls: seq<Reason>, last: Reason)
    ensures Told(CancelSpec(After(FRESH, calls), last).reason) == FirstCause(calls + [last])
  {
    CallsKeepFirstCause(calls);
    FirstCauseIsCause(calls);
    FirstCauseLast(calls, last);
  }
}
