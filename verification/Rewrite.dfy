/**
 Left-to-right replacement of one frame by another of the same length, as the
 loop of `send` in hack/preload.c does it, and what that loop amounts to.
 */
module Rewrite {

  predicate OccursAt<T(==)>(s: seq<T>, f: seq<T>, p: nat) {
    p + |f| <= |s| && s[p..p + |f|] == f
  }

  /** The element that opens the frame appears nowhere else in it. */
  predicate HeadOnly<T(==)>(f: seq<T>) {
    |f| > 0 && forall k :: 0 < k < |f| ==> f[k] != f[0]
  }

  /** `s` is readable for one whole frame from every start below `last`. */
  predicate Readable<T(==)>(s: seq<T>, f: seq<T>, g: seq<T>, last: nat) {
    0 < |f| == |g| && last + |f| <= |s| + 1
  }

  /**
   What a left-to-right scan makes of `s[i..]`: at a start of `f` below `last` it
   emits `g` and skips the whole frame, elsewhere it copies one element.
   */
  function Sweep<T(==)>(s: seq<T>, f: seq<T>, g: seq<T>, i: nat, last: nat): (r: seq<T>)
    requires Readable(s, f, g, last) && i <= |s|
    ensures |r| == |s| - i
    decreases |s| - i
  {
    if i >= last then s[i..]
    else if OccursAt(s, f, i) then g + Sweep(s, f, g, i + |f|, last)
    else [s[i]] + Sweep(s, f, g, i + 1, last)
  }

  /** The memory after the scan of `[base, last)`. */
  function Rewritten<T(==)>(s: seq<T>, f: seq<T>, g: seq<T>, base: nat, last: nat): (r: seq<T>)
    requires Readable(s, f, g, last) && base <= last
    ensures |r| == |s|
  {
    s[..base] + Sweep(s, f, g, base, last)
  }

  /** Position `j` lies inside an occurrence of `f` that starts in `[base, last)`. */
  ghost predicate Covered<T>(s: seq<T>, f: seq<T>, base: nat, last: nat, j: nat) {
    exists p: nat :: base <= p < last && p <= j < p + |f| && OccursAt(s, f, p)
  }

  lemma OccursPointwise<T>(s: seq<T>, f: seq<T>, p: nat)
    requires p + |f| <= |s|
    ensures OccursAt(s, f, p) <==> forall k :: 0 <= k < |f| ==> s[p + k] == f[k]
  {
    var w := s[p..p + |f|];
    if forall k :: 0 <= k < |f| ==> s[p + k] == f[k] {
      assert forall k :: 0 <= k < |f| ==> w[k] == f[k];
    }
    if OccursAt(s, f, p) {
      forall k | 0 <= k < |f| ensures s[p + k] == f[k] { assert w[k] == f[k]; }
    }
  }

  lemma NoHeadNoOccurrence<T>(s: seq<T>, f: seq<T>, p: nat)
    requires |f| > 0 && p + |f| <= |s| && s[p] != f[0]
    ensures !OccursAt(s, f, p)
  {
    OccursPointwise(s, f, p);
    assert s[p + 0] != f[0];
  }

  /**
   Two frames with the same head, which is nowhere else in the first, cannot begin
   in one text less than a frame apart.
   */
  lemma OccurrencesApart<T>(s: seq<T>, f: seq<T>, g: seq<T>, p: nat, q: nat)
    requires HeadOnly(f) && |f| == |g| && f[0] == g[0]
    requires OccursAt(s, f, p) && OccursAt(s, g, q) && p < q
    ensures p + |f| <= q
  {
    var k := q - p;
    var inside := if k < |f| then f[k] else f[0];
    OccursPointwise(s, f, p);
    OccursPointwise(s, g, q);
    assert s[q + 0] == g[0];
  }

  lemma {:induction false} SweepSkips<T>(s: seq<T>, f: seq<T>, g: seq<T>, i: nat, k: nat, last: nat)
    requires Readable(s, f, g, last) && i <= k <= last
    requires forall p: nat :: i <= p < k ==> !OccursAt(s, f, p)
    ensures Sweep(s, f, g, i, last) == s[i..k] + Sweep(s, f, g, k, last)
    decreases k - i
  {
    if i == k {
      assert s[i..k] == [];
    } else {
      assert !OccursAt(s, f, i);
      calc {
        Sweep(s, f, g, i, last);
        [s[i]] + Sweep(s, f, g, i + 1, last);
        { SweepSkips(s, f, g, i + 1, k, last); }
        [s[i]] + (s[i + 1..k] + Sweep(s, f, g, k, last));
        ([s[i]] + s[i + 1..k]) + Sweep(s, f, g, k, last);
        { assert s[i..k] == [s[i]] + s[i + 1..k]; }
        s[i..k] + Sweep(s, f, g, k, last);
      }
    }
  }

  /** A frame at `i` is replaced, and the sweep goes on behind it. */
  lemma SweepFrame<T>(s: seq<T>, f: seq<T>, g: seq<T>, i: nat, last: nat, n: nat)
    requires Readable(s, f, g, last) && i < last && OccursAt(s, f, i) && i + n < |s|
    ensures Sweep(s, f, g, i, last)[n] == if n < |f| then g[n] else Sweep(s, f, g, i + |f|, last)[n - |f|]
  {
    Element(g, Sweep(s, f, g, i + |f|, last), n);
  }

  /** Any other element is copied, and the sweep goes on with the next. */
  lemma SweepElement<T>(s: seq<T>, f: seq<T>, g: seq<T>, i: nat, last: nat, n: nat)
    requires Readable(s, f, g, last) && i < last && !OccursAt(s, f, i) && i + n < |s|
    ensures Sweep(s, f, g, i, last)[n] == if n == 0 then s[i] else Sweep(s, f, g, i + 1, last)[n - 1]
  {
    Element([s[i]], Sweep(s, f, g, i + 1, last), n);
  }

  lemma Element<T>(a: seq<T>, b: seq<T>, n: nat)
    requires n < |a| + |b|
    ensures (a + b)[n] == if n < |a| then a[n] else b[n - |a|]
  {
  }

  lemma CoveredFrom<T>(s: seq<T>, f: seq<T>, i: nat, k: nat, last: nat, j: nat)
    requires i <= k && !Covered(s, f, i, last, j)
    ensures !Covered(s, f, k, last, j)
    ensures i < last && i <= j && OccursAt(s, f, i) ==> i + |f| <= j
  {
  }

  /** Element `j` is what the sweep from `i` makes of it. */
  ghost predicate Yields<T>(s: seq<T>, f: seq<T>, g: seq<T>, i: nat, last: nat, j: nat, x: T)
    requires Readable(s, f, g, last)
  {
    i <= j < |s| && Sweep(s, f, g, i, last)[j - i] == x
  }

  lemma YieldsAtEnd<T>(s: seq<T>, f: seq<T>, g: seq<T>, i: nat, last: nat, j: nat)
    requires Readable(s, f, g, last) && last <= i <= j < |s|
    ensures Yields(s, f, g, i, last, j, s[j])
  {
  }

  lemma YieldsFrame<T>(s: seq<T>, f: seq<T>, g: seq<T>, i: nat, last: nat, k: nat)
    requires Readable(s, f, g, last) && i < last && OccursAt(s, f, i) && k < |f|
    ensures Yields(s, f, g, i, last, i + k, g[k])
  {
    SweepFrame(s, f, g, i, last, k);
  }

  lemma YieldsElement<T>(s: seq<T>, f: seq<T>, g: seq<T>, i: nat, last: nat)
    requires Readable(s, f, g, last) && i < last && !OccursAt(s, f, i)
    ensures Yields(s, f, g, i, last, i, s[i])
  {
    SweepElement(s, f, g, i, last, 0);
  }

  lemma YieldsLater<T>(s: seq<T>, f: seq<T>, g: seq<T>, i: nat, last: nat, j: nat, x: T)
    requires Readable(s, f, g, last) && i < last
    requires Yields(s, f, g, if OccursAt(s, f, i) then i + |f| else i + 1, last, j, x)
    ensures Yields(s, f, g, i, last, j, x)
  {
    if OccursAt(s, f, i) {
      SweepFrame(s, f, g, i, last, j - i);
    } else {
      SweepElement(s, f, g, i, last, j - i);
    }
  }

  /** An element that no occurrence covers is copied. */
  lemma {:induction false} SweepCopies<T>(s: seq<T>, f: seq<T>, g: seq<T>, i: nat, last: nat, j: nat)
    requires Readable(s, f, g, last) && i <= j < |s|
    requires !Covered(s, f, i, last, j)
    ensures Yields(s, f, g, i, last, j, s[j])
    decreases |s| - i
  {
    if i >= last {
      YieldsAtEnd(s, f, g, i, last, j);
    } else if OccursAt(s, f, i) {
      CoveredFrom(s, f, i, i + |f|, last, j);
      SweepCopies(s, f, g, i + |f|, last, j);
      YieldsLater(s, f, g, i, last, j, s[j]);
    } else if i == j {
      YieldsElement(s, f, g, i, last);
    } else {
      CoveredFrom(s, f, i, i + 1, last, j);
      SweepCopies(s, f, g, i + 1, last, j);
      YieldsLater(s, f, g, i, last, j, s[j]);
    }
  }

  /** Every occurrence is replaced, not only those a greedy scan happens to meet. */
  lemma {:induction false} SweepReplaces<T>(s: seq<T>, f: seq<T>, g: seq<T>, i: nat, last: nat, p: nat, k: nat)
    requires Readable(s, f, g, last) && HeadOnly(f)
    requires i <= p < last && OccursAt(s, f, p) && k < |f|
    ensures Yields(s, f, g, i, last, p + k, g[k])
    decreases |s| - i
  {
    if i == p {
      YieldsFrame(s, f, g, i, last, k);
    } else if OccursAt(s, f, i) {
      OccurrencesApart(s, f, f, i, p);
      SweepReplaces(s, f, g, i + |f|, last, p, k);
      YieldsLater(s, f, g, i, last, p + k, g[k]);
    } else {
      SweepReplaces(s, f, g, i + 1, last, p, k);
      YieldsLater(s, f, g, i, last, p + k, g[k]);
    }
  }

  /**
   The result is the original with all occurrences of `f` that start in the buffer
   replaced at once: each of them holds `g`, every other element is as before.
   */
  lemma Simultaneous<T>(s: seq<T>, f: seq<T>, g: seq<T>, base: nat, last: nat)
    requires Readable(s, f, g, last) && HeadOnly(f) && base <= last
    ensures forall p: nat :: base <= p < last && OccursAt(s, f, p) ==> OccursAt(Rewritten(s, f, g, base, last), g, p)
    ensures forall j: nat :: j < |s| && !Covered(s, f, base, last, j) ==> Rewritten(s, f, g, base, last)[j] == s[j]
  {
    var r := Rewritten(s, f, g, base, last);
    forall p: nat | base <= p < last && OccursAt(s, f, p)
      ensures OccursAt(r, g, p)
    {
      forall k | 0 <= k < |g| ensures r[p + k] == g[k] {
        SweepReplaces(s, f, g, base, last, p, k);
      }
      OccursPointwise(r, g, p);
    }
    forall j: nat | j < |s| && !Covered(s, f, base, last, j)
      ensures r[j] == s[j]
    {
      if base <= j { SweepCopies(s, f, g, base, last, j); }
    }
  }

  /** No occurrence is left, and none arises across the edge of a replaced region. */
  lemma LeavesNone<T>(s: seq<T>, f: seq<T>, g: seq<T>, base: nat, last: nat)
    requires Readable(s, f, g, last) && base <= last
    requires HeadOnly(f) && HeadOnly(g) && f[0] == g[0] && f != g
    ensures forall p: nat :: base <= p < last ==> !OccursAt(Rewritten(s, f, g, base, last), f, p)
  {
    var r := Rewritten(s, f, g, base, last);
    Simultaneous(s, f, g, base, last);
    forall p: nat | base <= p < last
      ensures !OccursAt(r, f, p)
    {
      if q: nat :| base <= q < last && q < p + |f| && p < q + |f| && OccursAt(s, f, q) {
        NotBoth(r, f, g, p, q);
      } else {
        UntouchedWindow(s, r, f, base, last, p);
      }
    }
  }

  lemma NotBoth<T>(r: seq<T>, f: seq<T>, g: seq<T>, p: nat, q: nat)
    requires HeadOnly(f) && HeadOnly(g) && |f| == |g| && f[0] == g[0] && f != g
    requires OccursAt(r, g, q) && q < p + |f| && p < q + |f|
    ensures !OccursAt(r, f, p)
  {
    if OccursAt(r, f, p) {
      if p < q {
        OccurrencesApart(r, f, g, p, q);
      } else if q < p {
        OccurrencesApart(r, g, f, q, p);
      }
    }
  }

  /** A window that meets no occurrence reads the same before and after. */
  lemma UntouchedWindow<T>(s: seq<T>, r: seq<T>, f: seq<T>, base: nat, last: nat, p: nat)
    requires |f| > 0 && |r| == |s| && base <= p < last && last + |f| <= |s| + 1
    requires forall q: nat :: base <= q < last && q < p + |f| && p < q + |f| ==> !OccursAt(s, f, q)
    requires forall j: nat :: j < |s| && !Covered(s, f, base, last, j) ==> r[j] == s[j]
    ensures !OccursAt(r, f, p)
  {
    forall j | p <= j < p + |f| ensures r[j] == s[j] {
      assert !Covered(s, f, base, last, j);
    }
    assert !OccursAt(s, f, p);
    assert r[p..p + |f|] == s[p..p + |f|];
  }

  lemma {:induction false} SweepKeeps<T>(s: seq<T>, f: seq<T>, i: nat, last: nat, j: nat)
    requires Readable(s, f, f, last) && i <= j < |s|
    ensures Yields(s, f, f, i, last, j, s[j])
    decreases |s| - i
  {
    if i >= last {
      YieldsAtEnd(s, f, f, i, last, j);
    } else if OccursAt(s, f, i) && j < i + |f| {
      OccursPointwise(s, f, i);
      YieldsFrame(s, f, f, i, last, j - i);
    } else if !OccursAt(s, f, i) && i == j {
      YieldsElement(s, f, f, i, last);
    } else {
      SweepKeeps(s, f, if OccursAt(s, f, i) then i + |f| else i + 1, last, j);
      YieldsLater(s, f, f, i, last, j, s[j]);
    }
  }

  /** Replacing a frame by itself changes nothing. */
  lemma SweepSame<T>(s: seq<T>, f: seq<T>, i: nat, last: nat)
    requires Readable(s, f, f, last) && i <= |s|
    ensures Sweep(s, f, f, i, last) == s[i..]
  {
    forall n | 0 <= n < |s| - i ensures Sweep(s, f, f, i, last)[n] == s[i..][n] {
      SweepKeeps(s, f, i, last, i + n);
    }
  }

  /** Rewriting twice is rewriting once. */
  lemma Idempotent<T>(s: seq<T>, f: seq<T>, g: seq<T>, base: nat, last: nat)
    requires Readable(s, f, g, last) && base <= last
    requires HeadOnly(f) && HeadOnly(g) && f[0] == g[0]
    ensures var r := Rewritten(s, f, g, base, last); Rewritten(r, f, g, base, last) == r
  {
    var r := Rewritten(s, f, g, base, last);
    if f == g {
      SweepSame(r, f, base, last);
    } else {
      LeavesNone(s, f, g, base, last);
      SweepSkips(r, f, g, base, last, last);
    }
    assert r == r[..base] + r[base..];
    assert r[base..] == r[base..last] + r[last..];
  }

  /** An occurrence that starts in the buffer and ends behind it. */
  predicate Straddles<T(==)>(s: seq<T>, f: seq<T>, base: nat, last: nat, p: nat) {
    base <= p < last < p + |f| && OccursAt(s, f, p)
  }

  /**
   The end of a frame is not compared with the end of the buffer, so a frame cut by
   it is still overwritten in full. The elements behind the buffer are untouched
   exactly when every such frame agrees with its replacement there.
   */
  lemma BehindTheBuffer<T>(s: seq<T>, f: seq<T>, g: seq<T>, base: nat, last: nat)
    requires Readable(s, f, g, last) && HeadOnly(f) && base <= last
    ensures Rewritten(s, f, g, base, last)[last..] == s[last..]
            <==> forall p: nat :: Straddles(s, f, base, last, p) ==> f[last - p..] == g[last - p..]
  {
    var r := Rewritten(s, f, g, base, last);
    Simultaneous(s, f, g, base, last);
    if r[last..] == s[last..] {
      forall p: nat | Straddles(s, f, base, last, p)
        ensures f[last - p..] == g[last - p..]
      {
        forall k | last - p <= k < |f| ensures f[k] == g[k] {
          OccursPointwise(r, g, p);
          OccursPointwise(s, f, p);
          assert r[last..][p + k - last] == s[last..][p + k - last];
        }
      }
    }
    if forall p: nat :: Straddles(s, f, base, last, p) ==> f[last - p..] == g[last - p..] {
      forall j: nat | last <= j < |s| ensures r[j] == s[j] {
        if Covered(s, f, base, last, j) {
          var p: nat :| base <= p < last && p <= j < p + |f| && OccursAt(s, f, p);
          assert Straddles(s, f, base, last, p);
          OccursPointwise(r, g, p);
          OccursPointwise(s, f, p);
          assert f[last - p..][j - last] == g[last - p..][j - last];
          var k := j - p;
          assert r[p + k] == g[k] && s[p + k] == f[k];
        }
      }
    }
  }

  // ------------------------------------------ the loop of `send`, step by step

  /** `now` has reached `want` below `data` and is untouched from there on. */
  ghost predicate Progress<T>(now: seq<T>, was: seq<T>, want: seq<T>, f: seq<T>, g: seq<T>, data: nat, last: nat) {
    && Readable(was, f, g, last)
    && |now| == |was| == |want| && data <= |was|
    && (forall j :: 0 <= j < data ==> now[j] == want[j])
    && (forall j :: data <= j < |was| ==> now[j] == was[j])
    && want[data..] == Sweep(was, f, g, data, last)
  }

  lemma ProgressStart<T>(was: seq<T>, f: seq<T>, g: seq<T>, base: nat, last: nat)
    requires Readable(was, f, g, last) && base <= last
    ensures Progress(was, was, Rewritten(was, f, g, base, last), f, g, base, last)
  {
  }

  lemma ProgressEnd<T>(now: seq<T>, was: seq<T>, want: seq<T>, f: seq<T>, g: seq<T>, data: nat, last: nat)
    requires Progress(now, was, want, f, g, data, last) && last <= data
    ensures now == want
  {
    forall j | data <= j < |was| ensures now[j] == want[j] {
      assert want[data..][j - data] == was[data..][j - data];
    }
  }

  /** No start of the frame lies where its head was not found. */
  lemma ProgressSkip<T>(now: seq<T>, was: seq<T>, want: seq<T>, f: seq<T>, g: seq<T>, data: nat, to: nat, last: nat)
    requires Progress(now, was, want, f, g, data, last) && data <= to <= last
    requires f[0] !in now[data..to]
    ensures Progress(now, was, want, f, g, to, last)
  {
    forall p: nat | data <= p < to ensures !OccursAt(was, f, p) {
      assert was[p] == now[data..to][p - data];
      NoHeadNoOccurrence(was, f, p);
    }
    SweepSkips(was, f, g, data, to, last);
    forall j | data <= j < to ensures want[j] == was[j] {
      assert want[data..][j - data] == was[data..to][j - data];
    }
    assert want[to..] == want[data..][to - data..];
  }

  /** A head without the rest of the frame is passed over. */
  lemma ProgressCopy<T>(now: seq<T>, was: seq<T>, want: seq<T>, f: seq<T>, g: seq<T>, data: nat, last: nat)
    requires Progress(now, was, want, f, g, data, last) && data < last
    requires now[data..data + |f|] != f
    ensures Progress(now, was, want, f, g, data + 1, last)
  {
    assert now[data..data + |f|] == was[data..data + |f|];
    assert want[data..][0] == was[data];
    assert want[data + 1..] == want[data..][1..];
  }

  /** A whole frame is overwritten. */
  lemma ProgressReplace<T>(now: seq<T>, next: seq<T>, was: seq<T>, want: seq<T>, f: seq<T>, g: seq<T>, data: nat, last: nat)
    requires Progress(now, was, want, f, g, data, last) && data < last
    requires now[data..data + |f|] == f
    requires next == now[..data] + g + now[data + |f|..]
    ensures Progress(next, was, want, f, g, data + |f|, last)
  {
    assert now[data..data + |f|] == was[data..data + |f|];
    forall j | data <= j < data + |f| ensures want[j] == g[j - data] {
      assert want[data..][j - data] == g[j - data];
    }
    assert want[data + |f|..] == want[data..][|f|..];
  }

  /** One turn of the loop: skip to the next head, then replace or pass over what stands there. */
  lemma ProgressStep<T>(now: seq<T>, next: seq<T>, was: seq<T>, want: seq<T>, f: seq<T>, g: seq<T>,
                        data: nat, at: nat, same: bool, last: nat)
    requires Progress(now, was, want, f, g, data, last) && data <= at < last
    requires f[0] !in now[data..at]
    requires same <==> now[at..at + |f|] == f
    requires next == if same then now[..at] + g + now[at + |f|..] else now
    ensures Progress(next, was, want, f, g, if same then at + |f| else at + 1, last)
  {
    ProgressSkip(now, was, want, f, g, data, at, last);
    if same {
      ProgressReplace(now, next, was, want, f, g, at, last);
    } else {
      ProgressCopy(now, was, want, f, g, at, last);
    }
  }

  lemma ProgressNoHead<T>(now: seq<T>, was: seq<T>, want: seq<T>, f: seq<T>, g: seq<T>, data: nat, last: nat)
    requires Progress(now, was, want, f, g, data, last) && data <= last
    requires f[0] !in now[data..last]
    ensures now == want
  {
    ProgressSkip(now, was, want, f, g, data, last, last);
    ProgressEnd(now, was, want, f, g, last, last);
  }
}
