/**
 The preload library of hack/preload.c: two equal-length, length-prefixed
 address frames built once by `_init`, and a `send` hook that overwrites every
 occurrence of the first frame by the second in the caller's own buffer.
 */
module Preload {
  import opened Rewrite
  import opened Wrappers

  type Byte = b: int | 0 <= b < 256

  const BELL: Byte := 7
  const ZERO: Byte := 48
  const COLON: Byte := 58
  const PIPE: Byte := 124

  // sizeof(send_buf1): no buffer shorter than this is searched.
  const FRAME_CAP: nat := 46
  const MIN_ADDR: nat := 9
  const MAX_ADDR: nat := 21

  // ---------------------------------------------------------------- frames

  function Repeat(b: Byte, n: nat): (s: seq<Byte>)
    ensures |s| == n
    ensures forall i :: 0 <= i < n ==> s[i] == b
  {
    if n == 0 then [] else [b] + Repeat(b, n - 1)
  }

  /** Tag byte, payload length, payload. */
  function Framed(payload: seq<Byte>): seq<Byte>
    requires |payload| < 256
  {
    [BELL, |payload|] + payload
  }

  function LocalFrame(listen: seq<Byte>, listen1: seq<Byte>): seq<Byte>
    requires |listen| <= MAX_ADDR && |listen1| <= MAX_ADDR
  {
    Framed(listen + [PIPE] + listen1)
  }

  /** A filler address `0..0:0`, as long as the payload needs, in front of `listen2`. */
  function PublicFrame(size: nat, listen2: seq<Byte>): seq<Byte>
    requires |listen2| + 3 <= size < 256
  {
    Framed(Repeat(ZERO, size - |listen2| - 3) + [COLON, ZERO] + [PIPE] + listen2)
  }

  function IndexOf(s: seq<Byte>, b: Byte): (i: nat)
    ensures i <= |s|
    ensures forall k :: 0 <= k < i ==> s[k] != b
    ensures i < |s| ==> s[i] == b
  {
    if s == [] || s[0] == b then 0 else 1 + IndexOf(s[1..], b)
  }

  /** How a receiver reads a frame: tag, length, then two addresses split at the first `|`. */
  function Unframe(s: seq<Byte>): Option<(seq<Byte>, seq<Byte>)> {
    if |s| < 2 || s[0] != BELL || s[1] != |s| - 2 then None
    else
      var at := IndexOf(s[2..], PIPE);
      if at == |s| - 2 then None else Some((s[2..2 + at], s[3 + at..]))
  }

  lemma UnframeFramed(head: seq<Byte>, tail: seq<Byte>)
    requires |head| + 1 + |tail| < 256
    requires PIPE !in head
    ensures Unframe(Framed(head + [PIPE] + tail)) == Some((head, tail))
  {
    var payload := head + [PIPE] + tail;
    var s := Framed(payload);
    assert s[2..] == payload;
    var at := IndexOf(payload, PIPE);
    assert payload[|head|] == PIPE;
    assert at == |head| by {
      assert forall k :: 0 <= k < |head| ==> payload[k] == head[k];
    }
    assert s[2..2 + at] == head;
    assert s[3 + at..] == tail;
  }

  /**
   Both frames have the same length and both decode: the first to the configured
   local pair, the second to a filler address and the accelerated address.
   */
  lemma FramesDecode(listen: seq<Byte>, listen1: seq<Byte>, listen2: seq<Byte>)
    requires |listen| <= MAX_ADDR && |listen1| <= MAX_ADDR
    requires |listen2| + 2 <= |listen| + |listen1|
    requires PIPE !in listen
    ensures var size := |listen| + 1 + |listen1|;
            && |LocalFrame(listen, listen1)| == |PublicFrame(size, listen2)| == size + 2
            && Unframe(LocalFrame(listen, listen1)) == Some((listen, listen1))
            && Unframe(PublicFrame(size, listen2))
               == Some((Repeat(ZERO, size - |listen2| - 3) + [COLON, ZERO], listen2))
  {
    var size := |listen| + 1 + |listen1|;
    UnframeFramed(listen, listen1);
    UnframeFramed(Repeat(ZERO, size - |listen2| - 3) + [COLON, ZERO], listen2);
  }

  /** The tag byte stands only in front of a frame exactly when no address holds it. */
  lemma FramesAreHeadOnly(listen: seq<Byte>, listen1: seq<Byte>, listen2: seq<Byte>)
    requires MIN_ADDR <= |listen| <= MAX_ADDR && MIN_ADDR <= |listen1| <= MAX_ADDR
    requires |listen2| + 2 <= |listen| + |listen1|
    ensures HeadOnly(LocalFrame(listen, listen1)) <==> BELL !in listen + listen1
    ensures HeadOnly(PublicFrame(|listen| + 1 + |listen1|, listen2)) <==> BELL !in listen2
  {
    var size := |listen| + 1 + |listen1|;
    var f, g := LocalFrame(listen, listen1), PublicFrame(size, listen2);
    assert forall k :: 0 <= k < |listen| ==> f[k + 2] == listen[k] == (listen + listen1)[k];
    assert forall k :: 0 <= k < |listen1| ==> f[k + 3 + |listen|] == listen1[k] == (listen + listen1)[k + |listen|];
    assert forall k :: 0 <= k < |listen2| ==> g[k + 2 + size - |listen2|] == listen2[k];
  }

  /**
   What one packet looks like after `send` on a configured host: every local frame
   in it reads as the public one of the same length, no local frame is left, every
   other byte is as the game wrote it, and sending the packet again changes nothing.
   */
  lemma PacketRewritten(was: seq<Byte>, base: nat, last: nat,
                        listen: seq<Byte>, listen1: seq<Byte>, listen2: seq<Byte>)
    requires MIN_ADDR <= |listen| <= MAX_ADDR && MIN_ADDR <= |listen1| <= MAX_ADDR
    requires |listen2| + 2 <= |listen| + |listen1|
    requires BELL !in listen + listen1 && BELL !in listen2
    requires base <= last && last + |listen| + |listen1| + 3 <= |was| + 1
    ensures var f, g := LocalFrame(listen, listen1), PublicFrame(|listen| + 1 + |listen1|, listen2);
            var now := Rewritten(was, f, g, base, last);
            && (forall p: nat :: base <= p < last && OccursAt(was, f, p) ==> OccursAt(now, g, p))
            && (forall j: nat :: j < |was| && !Covered(was, f, base, last, j) ==> now[j] == was[j])
            && (f != g ==> forall p: nat :: base <= p < last ==> !OccursAt(now, f, p))
            && Rewritten(now, f, g, base, last) == now
  {
    var f, g := LocalFrame(listen, listen1), PublicFrame(|listen| + 1 + |listen1|, listen2);
    FramesAreHeadOnly(listen, listen1, listen2);
    Simultaneous(was, f, g, base, last);
    Idempotent(was, f, g, base, last);
    if f != g { LeavesNone(was, f, g, base, last); }
  }

  // ------------------------------------------------------------- the library

  /** memchr: the first position of `b` in `[from, to)`, or -1. */
  method MemChr(mem: array<Byte>, from: nat, to: nat, b: Byte) returns (at: int)
    requires from <= to <= mem.Length
    ensures at == -1 ==> b !in mem[from..to]
    ensures at != -1 ==> from <= at < to && mem[at] == b && b !in mem[from..at]
  {
    at := from;
    while at < to
      invariant from <= at <= to
      invariant b !in mem[from..at]
    {
      if mem[at] == b { return; }
      at := at + 1;
    }
    at := -1;
  }

  /** memcmp(..) == 0 over the first `n` bytes. */
  method MemSame(mem: array<Byte>, at: nat, other: array<Byte>, n: nat) returns (same: bool)
    requires at + n <= mem.Length && n <= other.Length
    ensures same <==> mem[at..at + n] == other[..n]
  {
    var k := 0;
    while k < n
      invariant 0 <= k <= n
      invariant mem[at..at + k] == other[..k]
    {
      if mem[at + k] != other[k] {
        assert mem[at..at + n][k] != other[..n][k];
        return false;
      }
      k := k + 1;
    }
    return true;
  }

  method MemSet(mem: array<Byte>, at: nat, b: Byte, n: nat)
    requires at + n <= mem.Length
    modifies mem
    ensures forall j :: at <= j < at + n ==> mem[j] == b
    ensures forall j :: 0 <= j < mem.Length && !(at <= j < at + n) ==> mem[j] == old(mem[j])
  {
    for k := 0 to n
      invariant forall j :: at <= j < at + k ==> mem[j] == b
      invariant forall j :: 0 <= j < mem.Length && !(at <= j < at + k) ==> mem[j] == old(mem[j])
    {
      mem[at + k] := b;
    }
  }

  method MemCpy(mem: array<Byte>, at: nat, from: seq<Byte>)
    requires at + |from| <= mem.Length
    modifies mem
    ensures mem[..] == old(mem[..at]) + from + old(mem[at + |from|..])
  {
    for k := 0 to |from|
      invariant forall j :: 0 <= j < k ==> mem[at + j] == from[j]
      invariant forall j :: 0 <= j < mem.Length && !(at <= j < at + k) ==> mem[j] == old(mem[j])
    {
      mem[at + k] := from[k];
    }
    ghost var want := old(mem[..at]) + from + old(mem[at + |from|..]);
    forall j | 0 <= j < mem.Length ensures mem[j] == want[j] {
      if at <= j < at + |from| { assert mem[at + (j - at)] == from[j - at]; }
    }
  }

  /** The part of `_init` that fills the first frame. */
  method FillLocal(buf: array<Byte>, listen: seq<Byte>, listen1: seq<Byte>)
    requires buf.Length == FRAME_CAP
    requires |listen| <= MAX_ADDR && |listen1| <= MAX_ADDR
    modifies buf
    ensures buf[..2 + |listen| + 1 + |listen1|] == LocalFrame(listen, listen1)
  {
    var len, len1 := |listen|, |listen1|;
    MemSet(buf, 0, 0, FRAME_CAP);
    MemCpy(buf, 2, listen);
    MemCpy(buf, 2 + len + 1, listen1);
    buf[0], buf[1], buf[2 + len] := BELL, len + 1 + len1, PIPE;
  }

  /**
   The part of `_init` that fills the second frame. Its `:` lands two places before
   the last `|`, which is inside the header when the third address is too long, and
   in front of the array when it is longer still: C leaves that store undefined.
   */
  method FillPublic(buf: array<Byte>, len: nat, len1: nat, listen2: seq<Byte>) returns (defined: bool)
    requires buf.Length == FRAME_CAP
    requires MIN_ADDR <= len <= MAX_ADDR && MIN_ADDR <= len1 <= MAX_ADDR && |listen2| <= MAX_ADDR
    modifies buf
    ensures defined <==> |listen2| <= len + len1
    ensures |listen2| + 2 <= len + len1 ==> buf[..2 + len + 1 + len1] == PublicFrame(len + 1 + len1, listen2)
    ensures defined ==> (buf[0] == BELL && buf[1] == len + 1 + len1 <==> |listen2| + 2 <= len + len1)
  {
    var len2 := |listen2|;
    FillZeros(buf, len, len1, listen2);
    buf[0], buf[1] := BELL, len + 1 + len1;
    var pipe := 2 + len + len1 - len2;
    if pipe < 2 { return false; }
    buf[pipe] := PIPE;
    buf[pipe - 2] := COLON;
    return true;
  }

  /** The filler's zeros, and the third address behind them. */
  method FillZeros(buf: array<Byte>, len: nat, len1: nat, listen2: seq<Byte>)
    requires buf.Length == FRAME_CAP
    requires MIN_ADDR <= len <= MAX_ADDR && MIN_ADDR <= len1 <= MAX_ADDR && |listen2| <= MAX_ADDR
    modifies buf
    ensures var end := 2 + len + 1 + len1;
            && (forall j :: 2 <= j < end - |listen2| ==> buf[j] == ZERO)
            && buf[end - |listen2|..end] == listen2
  {
    MemSet(buf, 0, 0, FRAME_CAP);
    MemSet(buf, 2, ZERO, len + 1 + len1);
    MemCpy(buf, 2 + len + 1 + len1 - |listen2|, listen2);
  }

  /** The comparison and, if the first frame is there, the overwriting at one place. */
  method ReplaceAt(mem: array<Byte>, at: nat, buf1: array<Byte>, buf2: array<Byte>, n: nat) returns (same: bool)
    requires mem != buf1 && mem != buf2
    requires n <= buf1.Length && n <= buf2.Length && at + n <= mem.Length
    modifies mem
    ensures same <==> old(mem[at..at + n]) == buf1[..n]
    ensures mem[..] == if same then old(mem[..at]) + buf2[..n] + old(mem[at + n..]) else old(mem[..])
  {
    same := MemSame(mem, at, buf1, n);
    if same { MemCpy(mem, at, buf2[..n]); }
  }

  /** The search loop of `send` over `[base, last)` of the memory around the buffer. */
  method ReplaceInPlace(mem: array<Byte>, base: nat, last: nat, buf1: array<Byte>, buf2: array<Byte>, n: nat)
    requires mem != buf1 && mem != buf2
    requires 0 < n <= buf1.Length && n <= buf2.Length
    requires base < last && last + n <= mem.Length + 1
    modifies mem
    ensures mem[..] == Rewritten(old(mem[..]), buf1[..n], buf2[..n], base, last)
  {
    ghost var was := mem[..];
    ghost var f, g := buf1[..n], buf2[..n];
    ghost var want := Rewritten(was, f, g, base, last);
    var data := base;
    ProgressStart(was, f, g, base, last);
    ghost var now := was;
    while data < last
      invariant base <= data && mem[..] == now
      invariant Progress(now, was, want, f, g, data, last)
      decreases last - data
    {
      var at := MemChr(mem, data, last, buf1[0]);
      if at == -1 {
        ProgressNoHead(now, was, want, f, g, data, last);
        return;
      }
      var same := ReplaceAt(mem, at, buf1, buf2, n);
      ghost var next := mem[..];
      ProgressStep(now, next, was, want, f, g, data, at, same, last);
      now := next;
      data := if same then at + n else at + 1;
    }
    ProgressEnd(now, was, want, f, g, data, last);
  }

  predicate BadLength(addr: seq<Byte>) {
    |addr| < MIN_ADDR || |addr| > MAX_ADDR
  }

  /** The exit status of `_init` for an environment, if it does not let the program go on. */
  function ExitCode(found: bool, listen: Option<seq<Byte>>, listen1: Option<seq<Byte>>,
                    listen2: Option<seq<Byte>>): Option<nat>
  {
    if !found then Some(90)
    else if listen.None? then Some(100)
    else if BadLength(listen.value) then Some(101)
    else if listen1.None? then Some(110)
    else if BadLength(listen1.value) then Some(111)
    else if listen2.None? then Some(120)
    else if BadLength(listen2.value) then Some(121)
    else None
  }

  /** How `_init` ends: with an exit, with the hook in place, or with a store that C does not define. */
  datatype Start = Exits(code: nat) | Goes | Undefined

  class Hook {
    var size1: nat
    var size2: nat
    const buf1: array<Byte>
    const buf2: array<Byte>

    constructor ()
      ensures fresh(buf1) && fresh(buf2) && buf1 != buf2
      ensures buf1.Length == buf2.Length == FRAME_CAP
    {
      size1, size2 := 0, 0;
      buf1 := new Byte[FRAME_CAP](_ => 0);
      buf2 := new Byte[FRAME_CAP](_ => 0);
    }

    ghost predicate Shaped() {
      buf1 != buf2 && buf1.Length == buf2.Length == FRAME_CAP
    }

    ghost predicate Ready()
      reads this, buf1, buf2
    {
      Shaped() && 3 <= size1 == size2 <= FRAME_CAP && buf1[0] == BELL
    }

    ghost function From(): seq<Byte>
      requires Ready()
      reads this, buf1, buf2
    {
      buf1[..size1]
    }

    ghost function To(): seq<Byte>
      requires Ready()
      reads this, buf1, buf2
    {
      buf2[..size2]
    }

    /**
     The offsets into the second frame are only inside it when the third address
     is no longer than the first two together. Two bytes more are needed for the
     header of the second frame to survive the filler's `:`.
     */
    method Init(found: bool, listen: Option<seq<Byte>>, listen1: Option<seq<Byte>>, listen2: Option<seq<Byte>>)
      returns (start: Start)
      requires Shaped()
      modifies this, buf1, buf2
      ensures var exit := ExitCode(found, listen, listen1, listen2);
              start == if exit.Some? then Exits(exit.value)
                       else if |listen2.value| > |listen.value| + |listen1.value| then Undefined
                       else Goes
      ensures start.Goes? ==> Ready() && From() == LocalFrame(listen.value, listen1.value)
      ensures start.Goes? && |listen2.value| + 2 <= |listen.value| + |listen1.value|
              ==> To() == PublicFrame(|listen.value| + 1 + |listen1.value|, listen2.value)
      ensures start.Goes? ==>
                (To()[0] == BELL && To()[1] == size2 - 2
                 <==> |listen2.value| + 2 <= |listen.value| + |listen1.value|)
    {
      if !found { return Exits(90); }
      if listen.None? { return Exits(100); }
      if |listen.value| < MIN_ADDR || |listen.value| > MAX_ADDR { return Exits(101); }
      if listen1.None? { return Exits(110); }
      if |listen1.value| < MIN_ADDR || |listen1.value| > MAX_ADDR { return Exits(111); }
      if listen2.None? { return Exits(120); }
      if |listen2.value| < MIN_ADDR || |listen2.value| > MAX_ADDR { return Exits(121); }

      var len, len1 := |listen.value|, |listen1.value|;
      size1, size2 := 2 + len + 1 + len1, 2 + len + 1 + len1;
      FillLocal(buf1, listen.value, listen1.value);
      var defined := FillPublic(buf2, len, len1, listen2.value);
      start := if defined then Goes else Undefined;
    }

    /**
     `mem` is the memory around the caller's buffer `[base, base + size)`. The
     comparison reads a whole frame from any start below the buffer's end, so that
     much memory must be there.
     */
    method Send(mem: array<Byte>, base: nat, size: nat)
      requires Ready() && mem != buf1 && mem != buf2
      requires base + size + size1 <= mem.Length + 1
      modifies mem
      ensures size < FRAME_CAP ==> mem[..] == old(mem[..])
      ensures size >= FRAME_CAP ==> mem[..] == Rewritten(old(mem[..]), From(), To(), base, base + size)
    {
      if size < FRAME_CAP { return; }
      ghost var from, to := From(), To();
      ReplaceInPlace(mem, base, base + size, buf1, buf2, size1);
      assert From() == from && To() == to;
    }
  }

  // ----------------------------------------------------------------------- figures

  /** The lengths are those of the shortest and the longest address, and the buffer is the longest frame and a zero. */
  lemma LengthsAreThoseOfAddresses(a: seq<Byte>, b: seq<Byte>)
    ensures MIN_ADDR == |"0.0.0.0:0"| && MAX_ADDR == |"000.000.000.000:00000"|
    ensures |a| == |b| == MAX_ADDR ==> |LocalFrame(a, b)| + 1 == FRAME_CAP == 46
  {
  }

  lemma BytesAreThoseOfText()
    ensures BELL == 7 && PIPE == '|' as int && COLON == ':' as int && ZERO == '0' as int
  {
  }

  predicate IsAddress(addr: Option<seq<Byte>>) {
    addr.Some? && 9 <= |addr.value| <= 21
  }

  /** The exit status names the first address that is missing, or that is of no address's length. */
  lemma ExitCodeIs(found: bool, a: Option<seq<Byte>>, b: Option<seq<Byte>>, c: Option<seq<Byte>>)
    ensures !found ==> ExitCode(found, a, b, c) == Some(90)
    ensures found && !IsAddress(a) ==> ExitCode(found, a, b, c) == Some(if a.None? then 100 else 101)
    ensures found && IsAddress(a) && !IsAddress(b) ==> ExitCode(found, a, b, c) == Some(if b.None? then 110 else 111)
    ensures found && IsAddress(a) && IsAddress(b) && !IsAddress(c)
            ==> ExitCode(found, a, b, c) == Some(if c.None? then 120 else 121)
    ensures found && IsAddress(a) && IsAddress(b) && IsAddress(c) ==> ExitCode(found, a, b, c).None?
  {
  }
}
