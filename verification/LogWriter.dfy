/** Logv of internal/log/log.go: one line in one write where it fits, in several where it does not. */
module LogWriter {
  import opened Decimal
  import opened Wrappers
  import opened Log

  const SIZE: nat := 1024
  const HEAD: nat := 19
  const BLANK: string := "0.000000000000s"
  const LINE: (char, char) := ('\0', '\0')

  /** A slice of bytes to write; None is the nil slice, which leaves the line open. */
  type Slice = Option<string>

  /** Where the lines go: what every call of Write was given. */
  class Writer {
    var writes: seq<string>

    constructor ()
      ensures writes == []
    {
      writes := [];
    }

    method Write(bs: string)
      modifies this
      ensures writes == old(writes) + [bs]
    {
      writes := writes + [bs];
    }
  }

  function Joined(ws: seq<string>): string {
    if ws == [] then "" else Joined(ws[..|ws| - 1]) + ws[|ws| - 1]
  }

  lemma JoinedMore(ws: seq<string>, w: string)
    ensures Joined(ws + [w]) == Joined(ws) + w
  {
    assert (ws + [w])[..|ws|] == ws;
  }

  /** The bytes of the slices, nil ones having none. */
  function Bytes(iov: seq<Slice>): string {
    if iov == [] then ""
    else
      var last := iov[|iov| - 1];
      Bytes(iov[..|iov| - 1]) + if last.Some? then last.value else ""
  }

  lemma {:induction false} BytesBoth(a: seq<Slice>, b: seq<Slice>)
    ensures Bytes(a + b) == Bytes(a) + Bytes(b)
  {
    if b == [] {
      assert a + b == a;
    } else {
      BytesBoth(a, b[..|b| - 1]);
      assert (a + b)[..|a + b| - 1] == a + b[..|b| - 1];
    }
  }

  /** The fifteen bytes kept for the time: a longer text is cut, a shorter one leaves the blank's end. */
  function Stamp(text: string): (s: string)
    ensures |s| == WIDTH
  {
    if |text| >= WIDTH then text[..WIDTH] else text + BLANK[|text|..]
  }

  function Header(p: (char, char), text: string): string {
    [p.0, p.1, ' '] + Stamp(text) + " "
  }

  function Lead(p: (char, char), text: string): string {
    if p == LINE then "" else Header(p, text)
  }

  /** Nil at the end leaves the line open. */
  function End(iov: seq<Slice>): string {
    if iov == [] || iov[|iov| - 1].Some? then "\n" else ""
  }

  /** What one call writes in all. */
  function Output(p: (char, char), text: string, iov: seq<Slice>): string {
    Lead(p, text) + Bytes(iov) + End(iov)
  }

  /** Whether the call needs just one write. */
  predicate Fits(iov: seq<Slice>) {
    iov == [] || (|iov| == 1 && iov[0].Some? && iov[0].value != "" && HEAD + |iov[0].value| < SIZE)
  }

  /** The slices that have something to write. */
  function Pieces(iov: seq<Slice>): seq<string> {
    if iov == [] then []
    else
      var last := iov[|iov| - 1];
      Pieces(iov[..|iov| - 1]) + if last.Some? && last.value != "" then [last.value] else []
  }

  /** Copies into the buffer, which keeps everything else. */
  method Copy(buf: array<char>, at: nat, bs: string)
    requires at + |bs| <= buf.Length
    modifies buf
    ensures buf[..] == old(buf[..at]) + bs + old(buf[at + |bs|..])
  {
    forall j | 0 <= j < |bs| { buf[at + j] := bs[j]; }
  }

  /** The buffer as it starts: a header without its time, a line end, and zeros. */
  method Template(p: (char, char)) returns (buf: array<char>)
    ensures fresh(buf) && buf.Length == SIZE
    ensures buf[..HEAD + 1] == [p.0, p.1, ' '] + BLANK + " \n"
  {
    var start := [p.0, p.1, ' '] + BLANK + " \n";
    buf := new char[SIZE](_ => '\0');
    Copy(buf, 0, start);
  }

  /** The time takes its place, and no more. */
  method PutTime(buf: array<char>, p: (char, char), text: string)
    requires buf.Length == SIZE && buf[..HEAD + 1] == [p.0, p.1, ' '] + BLANK + " \n"
    modifies buf
    ensures buf[..HEAD] == Header(p, text) && buf[HEAD] == '\n'
  {
    var s := if |text| > WIDTH then text[..WIDTH] else text;
    assert buf[HEAD] == buf[..HEAD + 1][HEAD];
    ghost var was := buf[..HEAD];
    assert was == old(buf[..HEAD + 1])[..HEAD] == [p.0, p.1, ' '] + BLANK + " ";
    Copy(buf, 3, s);
    assert buf[HEAD] == old(buf[3 + |s|..])[HEAD - 3 - |s|];
    assert buf[..HEAD] == buf[..][..HEAD] == was[..3] + s + was[3 + |s|..];
    assert was[3 + |s|..] == BLANK[|s|..] + " ";
    assert s + BLANK[|s|..] == Stamp(text);
  }

  /** The whole line in the buffer. */
  method Fill(buf: array<char>, i: nat, bs: string)
    requires i <= HEAD && HEAD + |bs| < buf.Length
    modifies buf
    ensures buf[i..HEAD + |bs| + 1] == old(buf[i..HEAD]) + bs + "\n"
  {
    Copy(buf, HEAD, bs);
    assert buf[i..HEAD + |bs|] == old(buf[i..HEAD]) + bs;
    buf[HEAD + |bs|] := '\n';
    assert buf[i..HEAD + |bs|] == old(buf[i..HEAD]) + bs;
  }

  /** The slices one by one, empty ones left out. */
  method WriteSlices(w: Writer, iov: seq<Slice>)
    modifies w
    ensures w.writes == old(w.writes) + Pieces(iov)
    ensures Joined(w.writes) == Joined(old(w.writes)) + Bytes(iov)
  {
    for k := 0 to |iov|
      invariant w.writes == old(w.writes) + Pieces(iov[..k])
      invariant Joined(w.writes) == Joined(old(w.writes)) + Bytes(iov[..k])
    {
      assert iov[..k + 1][..k] == iov[..k];
      if iov[k].Some? && |iov[k].value| != 0 {
        JoinedMore(w.writes, iov[k].value);
        w.Write(iov[k].value);
      }
    }
    assert iov[..|iov|] == iov;
  }

  /** Three parts written one by one add up to the whole. */
  lemma InParts(before: string, start: string, bytes: string, end: string)
    ensures before + start + bytes + end == before + (start + bytes + end)
  {
    assert before + start + bytes == before + (start + bytes);
  }

  /** The fast way out: one write of the whole line. */
  method SendWhole(w: Writer, buf: array<char>, i: nat, bs: string)
    requires buf.Length == SIZE && i <= HEAD && HEAD + |bs| < SIZE
    modifies w, buf
    ensures w.writes == old(w.writes) + [old(buf[i..HEAD]) + bs + "\n"]
  {
    Fill(buf, i, bs);
    w.Write(buf[i..HEAD + |bs| + 1]);
  }

  /** The slow way out: the header, the slices, and the line end, unless the last slice is nil. */
  method SendParts(w: Writer, buf: array<char>, i: nat, iov: seq<Slice>)
    requires buf.Length == SIZE && (i == 0 || i == HEAD) && buf[HEAD] == '\n' && iov != []
    modifies w
    ensures w.writes == old(w.writes) + (if i == 0 then [buf[..HEAD]] else []) + Pieces(iov)
                        + (if End(iov) == "" then [] else ["\n"])
    ensures Joined(w.writes) == Joined(old(w.writes)) + (buf[i..HEAD] + Bytes(iov) + End(iov))
  {
    InParts(Joined(w.writes), buf[i..HEAD], Bytes(iov), End(iov));
    ghost var before := Joined(w.writes);
    if i != HEAD {
      JoinedMore(w.writes, buf[i..HEAD]);
      w.Write(buf[i..HEAD]);
    }
    assert Joined(w.writes) == before + buf[i..HEAD];
    WriteSlices(w, iov);
    if iov[|iov| - 1].Some? {
      JoinedMore(w.writes, buf[HEAD..HEAD + 1]);
      w.Write(buf[HEAD..HEAD + 1]);
    }
  }

  /** What follows the header in the buffer, or the slices in several writes. */
  method Send(w: Writer, buf: array<char>, i: nat, iov: seq<Slice>)
    requires buf.Length == SIZE && (i == 0 || i == HEAD) && buf[HEAD] == '\n'
    modifies w, buf
    ensures old(w.writes) <= w.writes
    ensures Joined(w.writes) == Joined(old(w.writes)) + (old(buf[i..HEAD]) + Bytes(iov) + End(iov))
    ensures Fits(iov) ==> |w.writes| == |old(w.writes)| + 1
    ensures !Fits(iov) ==> w.writes == old(w.writes) + (if i == 0 then [old(buf[..HEAD])] else []) + Pieces(iov)
                                       + (if End(iov) == "" then [] else ["\n"])
  {
    ghost var start := buf[i..HEAD];
    if |iov| == 0 {
      JoinedMore(w.writes, buf[i..HEAD + 1]);
      assert buf[i..HEAD + 1] == start + "" + "\n";
      w.Write(buf[i..HEAD + 1]);
      return;
    }
    if |iov| == 1 && iov[0].Some? && |iov[0].value| != 0 && HEAD + |iov[0].value| < buf.Length {
      BytesOne(iov[0].value);
      assert iov == [Some(iov[0].value)];
      JoinedMore(w.writes, start + iov[0].value + "\n");
      SendWhole(w, buf, i, iov[0].value);
      return;
    }
    SendParts(w, buf, i, iov);
  }

  method Logv(w: Writer, p: (char, char), iov: seq<Slice>, since: nat, up: bool)
    requires since <= MAX_INT64
    modifies w
    ensures old(w.writes) <= w.writes
    ensures Joined(w.writes) == Joined(old(w.writes)) + Output(p, Text(since, up), iov)
    ensures Fits(iov) ==> |w.writes| == |old(w.writes)| + 1
    ensures !Fits(iov) ==>
              w.writes == old(w.writes) + (if p == LINE then [] else [Header(p, Text(since, up))]) + Pieces(iov)
                          + (if End(iov) == "" then [] else ["\n"])
  {
    var buf := Template(p);
    var i := HEAD;
    if p != LINE {
      var text := Uptime(since, up);
      PutTime(buf, p, text);
      i := 0;
    }
    assert buf[i..HEAD] == Lead(p, Text(since, up));
    Send(w, buf, i, iov);
  }

  // ------------------------------------------------------------------- what follows

  lemma Splice(start: string, a: string, b: string, end: string)
    ensures (start + a + "") + ("" + b + end) == start + (a + b) + end
  {
    assert start + (a + b) == start + a + b;
  }

  lemma LeftOpen(a: seq<Slice>)
    ensures Bytes(a + [None]) == Bytes(a) && End(a + [None]) == ""
  {
    assert (a + [None])[..|a|] == a;
  }

  lemma TakenUp(a: seq<Slice>, b: seq<Slice>)
    requires b != []
    ensures Bytes(a + b) == Bytes(a) + Bytes(b) && End(a + b) == End(b)
  {
    BytesBoth(a, b);
  }

  /** A line may be left open and taken up again: the two calls write what one would. */
  lemma Continued(p: (char, char), text: string, later: string, a: seq<Slice>, b: seq<Slice>)
    requires b != []
    ensures Output(p, text, a + [None]) + Output(LINE, later, b) == Output(p, text, a + b)
  {
    LeftOpen(a);
    TakenUp(a, b);
    Splice(Lead(p, text), Bytes(a), Bytes(b), End(b));
  }

  /** The message starts behind nineteen bytes whatever the clock says. */
  lemma Aligned(p: (char, char), text: string, bs: string)
    requires p != LINE
    ensures |Header(p, text)| == HEAD && Output(p, text, [Some(bs)]) == Header(p, text) + bs + "\n"
  {
    BytesOne(bs);
  }

  /** The time in front of it is whole, or has lost its unit to the one overflow. */
  lemma StampIsText(since: nat, up: bool)
    requires since < 2 * WRAP && since <= MAX_INT64
    ensures Text(since, up) == Stamp(Text(since, up)) + if Overflows(since, up) then "s" else ""
  {
    var text := Text(since, up);
    TextLength(since, up);
    assert text[|text| - 1] == 's';
  }

  lemma BytesOne(bs: string)
    ensures Bytes([Some(bs)]) == bs
  {
    assert [Some(bs)][..0] == [];
  }

  /** Two letters, a space, the time and a space. */
  lemma HeaderIs(p: (char, char), text: string)
    requires |text| == 15
    ensures Header(p, text) == [p.0, p.1, ' '] + text + " "
    ensures Lead(('\0', '\0'), text) == "" && (p != ('\0', '\0') ==> Lead(p, text) == Header(p, text))
  {
  }

  /** A line is ended unless a nil slice comes last; a call without slices only ends it. */
  lemma EndIs(iov: seq<Slice>, bs: string)
    ensures End([]) == "\n" && End(iov + [Some(bs)]) == "\n" && End(iov + [None]) == ""
    ensures Bytes(iov + [Some(bs)]) == Bytes(iov) + bs && Bytes(iov + [None]) == Bytes(iov) && Bytes([]) == ""
  {
    assert (iov + [Some(bs)])[..|iov|] == iov;
    assert (iov + [None])[..|iov|] == iov;
  }

  /** One write is enough for no slice, or for one that is not empty and has at most 1004 bytes. */
  lemma FitsIs(iov: seq<Slice>)
    ensures Fits(iov) <==> iov == [] || (iov == [iov[0]] && iov[0].Some? && 0 < |iov[0].value| <= 1004)
  {
  }

  /** Nothing empty is written, and what is written are the bytes. */
  lemma {:induction false} PiecesAreBytes(iov: seq<Slice>)
    ensures Joined(Pieces(iov)) == Bytes(iov) && "" !in Pieces(iov)
  {
    if iov == [] {
    } else {
      var init, last := iov[..|iov| - 1], iov[|iov| - 1];
      PiecesAreBytes(init);
      assert Pieces(init) + [] == Pieces(init);
      if last.Some? { JoinedMore(Pieces(init), last.value); }
    }
  }
}
