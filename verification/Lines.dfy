/** How `filter` of internal/lobby/scan.go knows a line, and what it leaves of it for the log. */
module Lines {
  import opened Decimal
  import opened Names
  import opened Scan
  import opened Wrappers

  /** The libraries that read a line: bytes.TrimSpace, and the JSON decoding of a kill and of a match. */
  datatype Reader = Reader(trim: string -> string, kill: string -> Option<Kill>, mat: string -> Option<Match>) {
    ghost predicate Valid() {
      forall s :: |trim(s)| <= |s|
    }
  }

  // --------------------------------------------------------------------- constants

  const STDOUT_PREFIXES: seq<string> :=
    ["(Filename:", "-- BOLT -- ArenaSidesSwapped Changed", "-- BOLT -- CountdownStartTime Changed"]
  const STDERR_PREFIXES: seq<string> :=
    ["ALSA lib conf.c:", "ALSA lib confmisc.c:", "ALSA lib pcm.c:", "Unable to connect to 127.", "[S_API",
     "dlopen failed trying to load:", "with error:"]
  const STDERR_CONTAINS: seq<string> := [".steam/sdk64/steamclient.so"]

  const BOLT: string := "-- BOLT -- "
  const UPLOAD: string := "Upload complete"
  const POOL: string := "Finished populating pool"
  const ARENA: string := "Received request for ArenaSpecName "
  const NO_SESSION: string := "Failed to create session"
  const DISCONNECTED: string := "Disconnected"

  const REGISTERED: string := "-- BOLT -- Registered player: "
  const UNREGISTERED: string := "-- BOLT -- Unregistered player: "
  const LOADING: string := "-- BOLT -- Loading arena name: "
  const ARENA_CHANGED: string := "-- BOLT -- ArenaSpecName Changed"
  const BALLS_CHANGED: string := "-- BOLT -- BallsPerSecond Changed"
  const ASSIGNED: string := "-- BOLT -- Player assigned "
  const REMOTE: string := "-- BOLT -- REMOTE CALLBACKS "

  const SHOOTER: string := "\"shooterId\""
  const MATCH_ID: string := "\"matchId\""

  // The JSON that is kept in the log, and the first bytes in which a line's kind is looked for.
  const TRUNC: nat := 66

  // -------------------------------------------------------------------- recognition

  /** `bs` is longer than the prefix it starts with; what follows it is then the argument. */
  predicate Carries(bs: string, prefix: string) {
    HasPrefix(bs, prefix) && |bs| != |prefix|
  }

  /** `filterbolt`'s switch. */
  function BoltLine(bs: string): Line {
    if Carries(bs, LOADING) then ArenaNamed(bs[|LOADING|..])
    else if HasPrefix(bs, ASSIGNED) || HasPrefix(bs, REMOTE) then Assigned
    else if Carries(bs, REGISTERED) then Register(bs[|REGISTERED|..])
    else if Carries(bs, UNREGISTERED) then Unregister(bs[|UNREGISTERED|..])
    else if HasPrefix(bs, ARENA_CHANGED) then SettingChanged
    else if HasPrefix(bs, BALLS_CHANGED) then SettingChanged
    else Other
  }

  predicate IsJson(bs: string) {
    bs != "" && bs[0] == '{' && bs[|bs| - 1] == '}'
  }

  /** `filterjson`'s switch: a kill is looked for first, and only near the line's start. */
  function JsonLine(x: Reader, bs: string): Line {
    if |bs| < TRUNC then Other
    else if Index(bs[..TRUNC], SHOOTER) != -1 then
      match x.kill(bs) case Some(k) => KillData(k) case None => Other
    else if Index(bs[..TRUNC], MATCH_ID) != -1 then
      match x.mat(bs) case Some(m) => MatchUpdate(m) case None => Other
    else Other
  }

  /** `filter`'s switch, on what is neither JSON nor the engine's. */
  function TextLine(bs: string): Line {
    if HasPrefix(bs, UPLOAD) then UploadComplete
    else if HasPrefix(bs, POOL) then PoolReady
    else if Carries(bs, ARENA) then ArenaNamed(bs[|ARENA|..])
    else if HasPrefix(bs, NO_SESSION) || HasPrefix(bs, DISCONNECTED) then Disconnect
    else Other
  }

  /** The whole switch. */
  function OutLine(x: Reader, bs: string): Line {
    if IsJson(bs) then JsonLine(x, bs)
    else if HasPrefix(bs, BOLT) then BoltLine(bs)
    else TextLine(bs)
  }

  predicate Contains(s: string, part: string) {
    Index(s, part) != -1
  }

  /** Blank lines, and lines whose text starts with or contains what is of no use. */
  predicate Dropped(x: Reader, fd: int, bs: string) {
    var sample := x.trim(bs);
    match fd
    case 1 => sample == "" || exists p :: p in STDOUT_PREFIXES && HasPrefix(sample, p)
    case 2 => sample == "" || (exists p :: p in STDERR_PREFIXES && HasPrefix(sample, p))
              || (exists p :: p in STDERR_CONTAINS && Contains(sample, p))
    case _ => false
  }

  /** What a line of this descriptor is to the lobby. */
  function LineOf(x: Reader, fd: int, bs: string): Line {
    if fd == 1 && !Dropped(x, fd, bs) then OutLine(x, bs) else Other
  }

  /** A long line is cut; one of exactly `n` bytes counts as long. */
  function Truncated(s: string, n: nat): string {
    if |s| < n then s else s[..n] + "... (" + Itoa(|s| - n) + " bytes)"
  }

  /** What is left for the log. */
  function Logged(x: Reader, fd: int, bs: string): Option<string> {
    if Dropped(x, fd, bs) then None
    else Some(if fd == 1 && IsJson(bs) then Truncated(bs, TRUNC) else bs)
  }

  // --------------------------------------------------------------------- properties

  /** `b` can not start a text that starts with `a`. */
  predicate Apart(a: string, b: string) {
    exists i :: 0 <= i < |a| && i < |b| && a[i] != b[i]
  }

  lemma ApartPrefixes(s: string, a: string, b: string)
    requires Apart(a, b) && HasPrefix(s, a)
    ensures !HasPrefix(s, b)
  {
    var i :| 0 <= i < |a| && i < |b| && a[i] != b[i];
    assert s[i] == a[i];
  }

  const BOLT_PREFIXES: seq<string> :=
    [LOADING, ASSIGNED, REMOTE, REGISTERED, UNREGISTERED, ARENA_CHANGED, BALLS_CHANGED]
  const OUT_PREFIXES: seq<string> := [BOLT, UPLOAD, POOL, ARENA, NO_SESSION, DISCONNECTED]

  /** Where the engine's prefixes first differ. */
  lemma BoltLetters()
    ensures LOADING[11] == 'L' && ASSIGNED[11] == 'P' && REMOTE[11] == 'R' && REGISTERED[11] == 'R'
    ensures REMOTE[12] == 'E' && REGISTERED[12] == 'e'
    ensures UNREGISTERED[11] == 'U' && ARENA_CHANGED[11] == 'A' && BALLS_CHANGED[11] == 'B'
    ensures forall k :: 0 <= k < |BOLT_PREFIXES| ==> |BOLT_PREFIXES[k]| > 12
  {
  }

  /** No line has two of the prefixes of one switch, so the order of its cases does not matter. */
  lemma BoltPrefixesApart(i: nat, j: nat)
    requires i < j < |BOLT_PREFIXES|
    ensures Apart(BOLT_PREFIXES[i], BOLT_PREFIXES[j])
  {
    BoltLetters();
    var a, b := BOLT_PREFIXES[i], BOLT_PREFIXES[j];
    assert a[11] != b[11] || a[12] != b[12];
  }

  lemma OutLetters()
    ensures BOLT[0] == '-' && UPLOAD[0] == 'U' && POOL[0] == 'F' && ARENA[0] == 'R' && NO_SESSION[0] == 'F'
    ensures DISCONNECTED[0] == 'D' && POOL[1] == 'i' && NO_SESSION[1] == 'a'
    ensures forall k :: 0 <= k < |OUT_PREFIXES| ==> |OUT_PREFIXES[k]| > 1
  {
  }

  lemma OutNames()
    ensures OUT_PREFIXES[0] == BOLT && OUT_PREFIXES[1] == UPLOAD && OUT_PREFIXES[2] == POOL
    ensures OUT_PREFIXES[3] == ARENA && OUT_PREFIXES[4] == NO_SESSION && OUT_PREFIXES[5] == DISCONNECTED
  {
  }

  lemma OutPrefixesApart(i: nat, j: nat)
    requires i < j < |OUT_PREFIXES|
    ensures Apart(OUT_PREFIXES[i], OUT_PREFIXES[j])
    ensures OUT_PREFIXES[i][0] != '{' && OUT_PREFIXES[j][0] != '{'
  {
    OutLetters();
    var a, b := OUT_PREFIXES[i], OUT_PREFIXES[j];
    assert a[0] != b[0] || a[1] != b[1];
  }

  /** The line that the engine writes for an event; updates and kills have no such form. */
  function Wording(line: Line): Option<string> {
    match line
    case UploadComplete => Some(UPLOAD)
    case PoolReady => Some(POOL)
    case ArenaNamed(name) => if name == "" then None else Some(LOADING + name)
    case Disconnect => Some(DISCONNECTED)
    case Assigned => Some(ASSIGNED)
    case Register(sid) => if sid == "" then None else Some(REGISTERED + sid)
    case Unregister(sid) => if sid == "" then None else Some(UNREGISTERED + sid)
    case SettingChanged => Some(ARENA_CHANGED)
    case _ => None
  }

  lemma BoltNames()
    ensures BOLT_PREFIXES[0] == LOADING && BOLT_PREFIXES[1] == ASSIGNED && BOLT_PREFIXES[2] == REMOTE
    ensures BOLT_PREFIXES[3] == REGISTERED && BOLT_PREFIXES[4] == UNREGISTERED
    ensures BOLT_PREFIXES[5] == ARENA_CHANGED && BOLT_PREFIXES[6] == BALLS_CHANGED
  {
  }

  lemma BoltPrefixesBegin()
    ensures forall k :: 0 <= k < |BOLT_PREFIXES| ==> HasPrefix(BOLT_PREFIXES[k], BOLT)
  {
  }

  lemma PrefixOfBoth(s: string, a: string, b: string)
    requires HasPrefix(a, b) && HasPrefix(s, a)
    ensures HasPrefix(s, b)
  {
    assert s[..|a|] == a;
    assert s[..|b|] == a[..|b|];
  }

  /** A line with one of the engine's prefixes has no other, and reaches `filterbolt`. */
  lemma BoltAlone(bs: string, k: nat)
    requires k < |BOLT_PREFIXES| && HasPrefix(bs, BOLT_PREFIXES[k])
    ensures !IsJson(bs) && HasPrefix(bs, BOLT)
    ensures forall j :: 0 <= j < |BOLT_PREFIXES| && j != k ==> !HasPrefix(bs, BOLT_PREFIXES[j])
  {
    BoltPrefixesBegin();
    PrefixOfBoth(bs, BOLT_PREFIXES[k], BOLT);
    OutLetters();
    assert bs[0] == BOLT[0];
    forall j | 0 <= j < |BOLT_PREFIXES| && j != k ensures !HasPrefix(bs, BOLT_PREFIXES[j]) {
      if j < k { BoltPrefixesApart(j, k); } else { BoltPrefixesApart(k, j); }
      ApartPrefixes(bs, BOLT_PREFIXES[k], BOLT_PREFIXES[j]);
    }
  }

  lemma Argument(bs: string, prefix: string, arg: string)
    ensures (prefix + arg)[|prefix|..] == arg
    ensures HasPrefix(bs, prefix) ==> bs == prefix + bs[|prefix|..]
    ensures bs == prefix + arg && arg != "" <==> Carries(bs, prefix) && bs[|prefix|..] == arg
  {
  }

  lemma JsonIsNoEvent(x: Reader, bs: string, line: Line)
    requires IsJson(bs) && OutLine(x, bs) == line
    ensures line.KillData? || line.MatchUpdate? || line.Other?
  {
  }

  /** A line registers `sid` if and only if it is spelled so. */
  lemma RegisterIff(x: Reader, bs: string, sid: string)
    ensures OutLine(x, bs) == Register(sid) <==> Some(bs) == Wording(Register(sid))
  {
    Argument(bs, REGISTERED, sid);
    if IsJson(bs) { JsonIsNoEvent(x, bs, OutLine(x, bs)); }
    if HasPrefix(bs, REGISTERED) {
      BoltNames();
      BoltAlone(bs, 3);
      assert !HasPrefix(bs, BOLT_PREFIXES[0]) && !HasPrefix(bs, BOLT_PREFIXES[1]) && !HasPrefix(bs, BOLT_PREFIXES[2]);
    }
  }

  /** A line unregisters `sid` if and only if it is spelled so. */
  lemma UnregisterIff(x: Reader, bs: string, sid: string)
    ensures OutLine(x, bs) == Unregister(sid) <==> Some(bs) == Wording(Unregister(sid))
  {
    Argument(bs, UNREGISTERED, sid);
    if IsJson(bs) { JsonIsNoEvent(x, bs, OutLine(x, bs)); }
    if HasPrefix(bs, UNREGISTERED) {
      BoltNames();
      BoltAlone(bs, 4);
      assert !HasPrefix(bs, BOLT_PREFIXES[0]) && !HasPrefix(bs, BOLT_PREFIXES[1]) && !HasPrefix(bs, BOLT_PREFIXES[2]);
      assert !HasPrefix(bs, BOLT_PREFIXES[3]);
    }
  }

  /** A line is a player's assignment if and only if it starts with one of its two texts. */
  lemma AssignedIff(x: Reader, bs: string)
    ensures OutLine(x, bs) == Assigned <==> HasPrefix(bs, ASSIGNED) || HasPrefix(bs, REMOTE)
  {
    BoltNames();
    if IsJson(bs) { JsonIsNoEvent(x, bs, OutLine(x, bs)); }
    if HasPrefix(bs, ASSIGNED) {
      BoltAlone(bs, 1);
      assert !HasPrefix(bs, BOLT_PREFIXES[0]);
    }
    if HasPrefix(bs, REMOTE) {
      BoltAlone(bs, 2);
      assert !HasPrefix(bs, BOLT_PREFIXES[0]);
    }
  }

  lemma SettingIff(x: Reader, bs: string)
    ensures OutLine(x, bs) == SettingChanged <==> HasPrefix(bs, ARENA_CHANGED) || HasPrefix(bs, BALLS_CHANGED)
  {
    BoltNames();
    if IsJson(bs) { JsonIsNoEvent(x, bs, OutLine(x, bs)); }
    if HasPrefix(bs, ARENA_CHANGED) || HasPrefix(bs, BALLS_CHANGED) {
      BoltAlone(bs, if HasPrefix(bs, ARENA_CHANGED) then 5 else 6);
      assert !HasPrefix(bs, BOLT_PREFIXES[0]) && !HasPrefix(bs, BOLT_PREFIXES[1]) && !HasPrefix(bs, BOLT_PREFIXES[2]);
      assert !HasPrefix(bs, BOLT_PREFIXES[3]) && !HasPrefix(bs, BOLT_PREFIXES[4]);
    }
  }

  /** A line with one of the other prefixes has no other, and is no JSON. */
  lemma TextAlone(bs: string, k: nat)
    requires k < |OUT_PREFIXES| && HasPrefix(bs, OUT_PREFIXES[k])
    ensures !IsJson(bs)
    ensures forall j :: 0 <= j < |OUT_PREFIXES| && j != k ==> !HasPrefix(bs, OUT_PREFIXES[j])
  {
    OutLetters();
    if k < 5 { OutPrefixesApart(k, 5); } else { OutPrefixesApart(0, 5); }
    assert bs[0] == OUT_PREFIXES[k][0];
    forall j | 0 <= j < |OUT_PREFIXES| && j != k ensures !HasPrefix(bs, OUT_PREFIXES[j]) {
      if j < k { OutPrefixesApart(j, k); } else { OutPrefixesApart(k, j); }
      ApartPrefixes(bs, OUT_PREFIXES[k], OUT_PREFIXES[j]);
    }
  }

  lemma UploadIff(x: Reader, bs: string)
    ensures OutLine(x, bs) == UploadComplete <==> HasPrefix(bs, UPLOAD)
  {
    OutNames();
    if IsJson(bs) { JsonIsNoEvent(x, bs, OutLine(x, bs)); }
    if HasPrefix(bs, UPLOAD) {
      TextAlone(bs, 1);
      assert !HasPrefix(bs, OUT_PREFIXES[0]);
    }
  }

  lemma PoolIff(x: Reader, bs: string)
    ensures OutLine(x, bs) == PoolReady <==> HasPrefix(bs, POOL)
  {
    OutNames();
    if IsJson(bs) { JsonIsNoEvent(x, bs, OutLine(x, bs)); }
    if HasPrefix(bs, POOL) {
      TextAlone(bs, 2);
      assert !HasPrefix(bs, OUT_PREFIXES[0]) && !HasPrefix(bs, OUT_PREFIXES[1]);
    }
  }

  lemma DisconnectIff(x: Reader, bs: string)
    ensures OutLine(x, bs) == Disconnect <==> HasPrefix(bs, NO_SESSION) || HasPrefix(bs, DISCONNECTED)
  {
    OutNames();
    if IsJson(bs) { JsonIsNoEvent(x, bs, OutLine(x, bs)); }
    if HasPrefix(bs, NO_SESSION) || HasPrefix(bs, DISCONNECTED) {
      TextAlone(bs, if HasPrefix(bs, NO_SESSION) then 4 else 5);
      assert !HasPrefix(bs, OUT_PREFIXES[0]) && !HasPrefix(bs, OUT_PREFIXES[1]) && !HasPrefix(bs, OUT_PREFIXES[2]);
      assert !HasPrefix(bs, OUT_PREFIXES[3]);
    }
  }

  /** An arena is named by the engine or by a request, and nothing else. */
  lemma ArenaIff(x: Reader, bs: string, name: string)
    ensures OutLine(x, bs) == ArenaNamed(name) <==> name != "" && (bs == LOADING + name || bs == ARENA + name)
  {
    OutNames();
    BoltNames();
    Argument(bs, LOADING, name);
    Argument(bs, ARENA, name);
    if IsJson(bs) { JsonIsNoEvent(x, bs, OutLine(x, bs)); }
    if HasPrefix(bs, LOADING) { BoltAlone(bs, 0); }
    if HasPrefix(bs, ARENA) {
      TextAlone(bs, 3);
      assert !HasPrefix(bs, OUT_PREFIXES[0]) && !HasPrefix(bs, OUT_PREFIXES[1]) && !HasPrefix(bs, OUT_PREFIXES[2]);
    }
  }

  // ---------------------------------------------------------------------------- JSON

  predicate StandsAt(bs: string, k: nat, mark: string) {
    k + |mark| <= |bs| && bs[k..k + |mark|] == mark
  }

  /** The mark stands within the first `n` bytes. */
  ghost predicate StandsWithin(bs: string, n: nat, mark: string) {
    exists k: nat :: StandsAt(bs, k, mark) && k + |mark| <= n
  }

  lemma StandsIsPrefix(bs: string, n: nat, mark: string, k: nat)
    requires n <= |bs| && k <= n
    ensures mark <= bs[..n][k..] <==> StandsAt(bs, k, mark) && k + |mark| <= n
  {
    if k + |mark| <= n { assert bs[..n][k..][..|mark|] == bs[k..k + |mark|]; }
  }

  lemma IndexFinds(bs: string, n: nat, mark: string)
    requires n <= |bs|
    ensures Index(bs[..n], mark) != -1 <==> StandsWithin(bs, n, mark)
  {
    var i := Index(bs[..n], mark);
    if i != -1 {
      StandsIsPrefix(bs, n, mark, i);
    }
    if StandsWithin(bs, n, mark) {
      var k: nat :| StandsAt(bs, k, mark) && k + |mark| <= n;
      StandsIsPrefix(bs, n, mark, k);
    }
  }

  /** A JSON line is a kill if and only if it is long enough, is marked as one near its start, and decodes as one. */
  lemma KillIff(x: Reader, bs: string, k: Kill)
    requires IsJson(bs)
    ensures OutLine(x, bs) == KillData(k)
            <==> |bs| >= 66 && StandsWithin(bs, 66, "\"shooterId\"") && x.kill(bs) == Some(k)
  {
    if |bs| >= 66 { IndexFinds(bs, 66, "\"shooterId\""); }
  }

  /** It is an update if and only if it is long enough, is marked as one and not as a kill, and decodes as one. */
  lemma UpdateIff(x: Reader, bs: string, m: Match)
    requires IsJson(bs)
    ensures OutLine(x, bs) == MatchUpdate(m)
            <==> |bs| >= 66 && !StandsWithin(bs, 66, "\"shooterId\"") && StandsWithin(bs, 66, "\"matchId\"")
                 && x.mat(bs) == Some(m)
  {
    if |bs| >= 66 {
      IndexFinds(bs, 66, "\"shooterId\"");
      IndexFinds(bs, 66, "\"matchId\"");
    }
  }

  /** What the engine writes for an event is read as that event, if it is not dropped. */
  lemma SpelledIsKnown(x: Reader, line: Line)
    requires Wording(line).Some? && !Dropped(x, 1, Wording(line).value)
    ensures LineOf(x, 1, Wording(line).value) == line
  {
    var bs := Wording(line).value;
    BoltNames();
    match line
    case ArenaNamed(name) =>
      BoltAlone(bs, 0);
      Argument(bs, LOADING, name);
    case Assigned =>
      BoltAlone(bs, 1);
      assert !HasPrefix(bs, BOLT_PREFIXES[0]);
    case Register(sid) => RegisterIff(x, bs, sid);
    case Unregister(sid) => UnregisterIff(x, bs, sid);
    case SettingChanged =>
      BoltAlone(bs, 5);
      assert !HasPrefix(bs, BOLT_PREFIXES[0]) && !HasPrefix(bs, BOLT_PREFIXES[1]) && !HasPrefix(bs, BOLT_PREFIXES[2]);
      assert !HasPrefix(bs, BOLT_PREFIXES[3]) && !HasPrefix(bs, BOLT_PREFIXES[4]);
    case _ => OutAlone(bs);
  }

  /** Nothing but its own prefix fits a line without arguments. */
  lemma OutAlone(bs: string)
    requires bs in {UPLOAD, POOL, DISCONNECTED}
    ensures !IsJson(bs) && !HasPrefix(bs, BOLT)
    ensures bs != UPLOAD ==> !HasPrefix(bs, UPLOAD)
    ensures bs != POOL ==> !HasPrefix(bs, POOL)
    ensures bs == DISCONNECTED ==> !HasPrefix(bs, ARENA)
  {
    OutLetters();
    OutNames();
    var k := if bs == UPLOAD then 1 else if bs == POOL then 2 else 5;
    forall j | 0 <= j < |OUT_PREFIXES| && j != k ensures !HasPrefix(bs, OUT_PREFIXES[j]) {
      if j < k { OutPrefixesApart(j, k); } else { OutPrefixesApart(k, j); }
      ApartPrefixes(bs, OUT_PREFIXES[k], OUT_PREFIXES[j]);
    }
    assert !HasPrefix(bs, OUT_PREFIXES[0]);
    assert bs != UPLOAD ==> !HasPrefix(bs, OUT_PREFIXES[1]);
    assert bs != POOL ==> !HasPrefix(bs, OUT_PREFIXES[2]);
    assert bs == DISCONNECTED ==> !HasPrefix(bs, OUT_PREFIXES[3]);
  }

  /** The length that a cut text had can be read from what is left of it. */
  lemma TruncatedTells(s: string, n: nat)
    requires n <= |s| <= MAX_INT64
    ensures var t := Truncated(s, n);
            && n + 5 <= |t| - 7 && t[..n] == s[..n]
            && n + ParseInt(t[n + 5..|t| - 7]) == |s|
            && t[n..n + 5] == "... (" && t[|t| - 7..] == " bytes)" && t[|t| - 1] == ')'
  {
    var digits, t := Itoa(|s| - n), Truncated(s, n);
    ParseIntItoa(|s| - n);
    assert t == s[..n] + ("... (" + digits + " bytes)");
    assert t[..n] == s[..n];
    assert t[n + 5..|t| - 7] == digits;
    assert t[n..n + 5] == "... (" && t[|t| - 7..] == " bytes)";
  }

  /** A number has far fewer digits than its value, from two or three of them on. */
  lemma {:induction false} DigitsAreFew(n: nat)
    ensures |Itoa(n)| <= 1 + n / 10
  {
    if n < 10 {
    } else {
      DigitsAreFew(n / 10);
    }
  }

  /** What the cut says of `n` bytes that are gone takes more than those bytes exactly if they are fewer than fourteen. */
  lemma CutCosts(n: nat)
    ensures |Itoa(n)| + 12 > n <==> n < 14
  {
    if n < 10 {
      ItoaLength(n, 1);
    } else if n < 100 {
      assert Pow10(2) == 10 * Pow10(1);
      ItoaLength(n, 2);
    } else {
      DigitsAreFew(n);
    }
  }

  /**
   A JSON line is logged as it is if and only if it is shorter than the limit. Cutting
   is to make it shorter: it makes it longer if and only if fewer than fourteen bytes go.
   */
  lemma JsonIsCut(x: Reader, bs: string)
    requires IsJson(bs) && !Dropped(x, 1, bs) && |bs| <= MAX_INT64
    ensures Logged(x, 1, bs).Some?
    ensures Logged(x, 1, bs) == Some(bs) <==> |bs| < TRUNC
    ensures |Logged(x, 1, bs).value| > |bs| <==> TRUNC <= |bs| < TRUNC + 14
  {
    if |bs| >= TRUNC {
      TruncatedTells(bs, TRUNC);
      CutCosts(|bs| - TRUNC);
    }
  }
}
