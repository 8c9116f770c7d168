/** The numbers and texts that the program's behaviour hangs on, entered a second time from what they are for. */
module Figures {
  import G = GoTime
  import L = Lines
  import LW = LogWriter
  import Log
  import P = Players
  import Scan
  import Supervisor
  import W = Watcher
  import opened Names
  import opened Wrappers

  /** A tick every 200 ms to a second, a grain of 100 µs, fifteen seconds between restarts. */
  lemma Times()
    ensures G.ZERO_TIME == 0 && G.MICROSECOND == 1_000 && G.MILLISECOND == 1_000 * G.MICROSECOND
    ensures G.SECOND == 1_000 * G.MILLISECOND && G.MINUTE == 60 * G.SECOND && G.HOUR == 60 * G.MINUTE
    ensures W.FLOOR == 200 * G.MILLISECOND && W.GRAIN == 100 * G.MICROSECOND && Supervisor.FLOOR == 15 * G.SECOND
  {
  }

  /** Ten matches wait, ids from 1000 are humans, 66 bytes of JSON are kept, a log line's buffer holds 1024 and its head 19. */
  lemma Sizes()
    ensures Scan.QUEUE_CAP == 10 && P.FIRST_HUMAN == 1000
    ensures L.TRUNC == 66
    ensures LW.SIZE == 20 + 1004 && LW.HEAD == |"II 0.000000000000s "| && Log.WIDTH == |"0.000000000000s"|
    ensures LW.BLANK == "0.000000000000s"
  {
  }

  /** A lobby starts, and goes on after a match, with nothing of a match but the time. */
  lemma Nothing(cfg: Scan.Config, now: G.Time)
    ensures Scan.Blank(now) == Scan.Match(now, "", Scan.Info("", 0, 0), [])
    ensures var s := Scan.Start(cfg, map[]);
            && s.players.humans == map[] && s.players.bots == {} && s.players.admin == None
            && s.book.m == Scan.Blank(cfg.start) && s.book.queue == s.book.sent == s.book.attempts == []
            && !s.changed && s.arena == "" && s.files == map[]
            && s.cancel.reason == None && s.cancel.done.Open? && s.cancel.child.NotStarted? && s.cancel.signals == 0
  {
  }

  /** The engine's lines. */
  lemma EngineTexts()
    ensures L.BOLT == "-- BOLT -- "
    ensures L.LOADING == "-- BOLT -- Loading arena name: "
    ensures L.REGISTERED == "-- BOLT -- Registered player: " && L.UNREGISTERED == "-- BOLT -- Unregistered player: "
    ensures L.ARENA_CHANGED == "-- BOLT -- ArenaSpecName Changed" && L.BALLS_CHANGED == "-- BOLT -- BallsPerSecond Changed"
    ensures L.ASSIGNED == "-- BOLT -- Player assigned " && L.REMOTE == "-- BOLT -- REMOTE CALLBACKS "
  {
  }

  lemma OtherTexts()
    ensures L.UPLOAD == "Upload complete" && L.POOL == "Finished populating pool"
    ensures L.ARENA == "Received request for ArenaSpecName "
    ensures L.NO_SESSION == "Failed to create session" && L.DISCONNECTED == "Disconnected"
    ensures LOCK == ".lock" && LAST == "last"
  {
  }

  /** What is of no use on standard output, on a line without its surrounding space. */
  lemma DroppedOutput(x: L.Reader, bs: string)
    ensures L.Dropped(x, 1, bs) <==>
              var s := x.trim(bs);
              s == "" || HasPrefix(s, "(Filename:") || HasPrefix(s, "-- BOLT -- ArenaSidesSwapped Changed")
              || HasPrefix(s, "-- BOLT -- CountdownStartTime Changed")
  {
    assert L.STDOUT_PREFIXES[0] == "(Filename:";
    assert L.STDOUT_PREFIXES[1] == "-- BOLT -- ArenaSidesSwapped Changed";
    assert L.STDOUT_PREFIXES[2] == "-- BOLT -- CountdownStartTime Changed";
  }

  ghost predicate StartsUseless(s: string) {
    || HasPrefix(s, "ALSA lib conf.c:") || HasPrefix(s, "ALSA lib confmisc.c:") || HasPrefix(s, "ALSA lib pcm.c:")
    || HasPrefix(s, "Unable to connect to 127.") || HasPrefix(s, "[S_API")
    || HasPrefix(s, "dlopen failed trying to load:") || HasPrefix(s, "with error:")
  }

  lemma UselessStarts(s: string)
    ensures (exists p :: p in L.STDERR_PREFIXES && HasPrefix(s, p)) <==> StartsUseless(s)
  {
    var ps := L.STDERR_PREFIXES;
    assert ps[0] == "ALSA lib conf.c:" && ps[1] == "ALSA lib confmisc.c:" && ps[2] == "ALSA lib pcm.c:";
    assert ps[3] == "Unable to connect to 127." && ps[4] == "[S_API" && ps[5] == "dlopen failed trying to load:";
    assert ps[6] == "with error:";
  }

  lemma UselessPart(s: string)
    ensures (exists p :: p in L.STDERR_CONTAINS && L.Contains(s, p)) <==> L.StandsWithin(s, |s|, ".steam/sdk64/steamclient.so")
  {
    var part := ".steam/sdk64/steamclient.so";
    assert L.STDERR_CONTAINS == [part];
    assert s[..|s|] == s;
    L.IndexFinds(s, |s|, part);
    assert L.Contains(s, part) <==> L.StandsWithin(s, |s|, part);
    assert part in L.STDERR_CONTAINS;
  }

  /** And on standard error. */
  lemma DroppedError(x: L.Reader, bs: string)
    ensures L.Dropped(x, 2, bs) <==>
              var s := x.trim(bs);
              s == "" || StartsUseless(s) || L.StandsWithin(s, |s|, ".steam/sdk64/steamclient.so")
  {
    UselessStarts(x.trim(bs));
    UselessPart(x.trim(bs));
  }

  /** What is dropped is no event and is not logged; other descriptors are logged as they are. */
  lemma DroppedIsSilent(x: L.Reader, fd: int, bs: string)
    ensures L.Dropped(x, fd, bs) ==> L.LineOf(x, fd, bs) == Scan.Other && L.Logged(x, fd, bs) == None
    ensures fd != 1 ==> L.LineOf(x, fd, bs) == Scan.Other
    ensures fd != 1 && !L.Dropped(x, fd, bs) ==> L.Logged(x, fd, bs) == Some(bs)
    ensures fd != 1 && fd != 2 ==> !L.Dropped(x, fd, bs)
    ensures fd == 1 && !L.Dropped(x, 1, bs) ==> L.LineOf(x, 1, bs) == L.OutLine(x, bs)
    ensures fd == 1 && !L.Dropped(x, 1, bs) && (bs == "" || bs[0] != '{' || bs[|bs| - 1] != '}') ==> L.Logged(x, 1, bs) == Some(bs)
  {
  }
}
