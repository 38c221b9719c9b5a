/** The live-reload endpoint (handle_live_reload.go): a server-sent-events stream that
    tells the browser to reload whenever a new build has been published.

    The handler loops over a `select` of five channels. Which channel fires next is not
    decided by the handler, so the model takes the outcomes as a sequence of events, in
    the order they happen; a compare tick carries the build handle `m.esbuild` held when
    it was read, and again when it is re-read after the message is written (another
    build may land in between). The timing of the two timers is modelled separately, at
    the end of this module. */
module LiveReload {
  import opened Plugin

  /** One outcome of the `select`. */
  datatype Event =
    | ContextDone                                             // the client went away
    | GlobalQuit                                              // the plugin is shutting down
    | Signal                                                  // SIGINT or SIGTERM
    | CompareTick(current: BuildHandle?, reread: BuildHandle?)  // the 20 ms timer
    | PingTick                                                // the 10 s timer

  const ReloadMessage := "data: reload\n\n"
  const PingMessage := "data: p\n\n"

  /** The headers set before anything else, whether or not the stream can be flushed. */
  const SseHeaders: map<string, string> :=
    map["Content-Type" := "text/event-stream", "Cache-Control" := "no-cache", "Connection" := "keep-alive"]

  predicate Ends(e: Event) {
    e.ContextDone? || e.GlobalQuit? || e.Signal?
  }

  /** The session between events: the last build handle announced, whether the loop is
      still running, and what has been written to the stream. */
  datatype SessionState = SessionState(last: BuildHandle?, open: bool, written: seq<string>)

  /** One iteration of the loop. */
  function Next(s: SessionState, e: Event): (t: SessionState)
    ensures !s.open ==> t == s
    ensures s.open ==> (t.open <==> !Ends(e))
    ensures s.open && e.PingTick? ==> t.last == s.last && t.written == s.written + [PingMessage]
    ensures s.open && e.CompareTick? ==>
              (if s.last != e.current then t.written == s.written + [ReloadMessage] && t.last == e.reread
               else t == s)
    ensures s.open && Ends(e) ==> t.written == s.written && t.last == s.last
  {
    if !s.open then s
    else
      match e
      case ContextDone => s.(open := false)
      case GlobalQuit => s.(open := false)
      case Signal => s.(open := false)
      case CompareTick(current, reread) =>
        if s.last != current then SessionState(reread, true, s.written + [ReloadMessage]) else s
      case PingTick => s.(written := s.written + [PingMessage])
  }

  /** The session after a sequence of events. */
  function Run(s: SessionState, events: seq<Event>): SessionState
    decreases |events|
  {
    if events == [] then s else Run(Next(s, events[0]), events[1..])
  }

  /** The loop's own variables, updated one event at a time. */
  class Session {
    var lastPointer: BuildHandle?
    var open: bool
    var written: seq<string>

    constructor (initial: BuildHandle?)
      ensures lastPointer == initial && open && written == []
    {
      lastPointer := initial;
      open := true;
      written := [];
    }

    /** One pass of the `select`. */
    method Step(e: Event)
      requires open
      modifies this
      ensures SessionState(lastPointer, open, written) == Next(old(SessionState(lastPointer, open, written)), e)
    {
      match e
      case ContextDone =>
        open := false;
      case GlobalQuit =>
        open := false;
      case Signal =>
        open := false;
      case CompareTick(currentPointer, reread) =>
        if lastPointer != currentPointer {
          written := written + [ReloadMessage];
          lastPointer := reread;
        }
      case PingTick =>
        written := written + [PingMessage];
    }
  }

  /** handleLiveReload: the stream's headers and everything written to it. Without a
      flusher nothing is written; otherwise the last-seen build starts as the one
      published when the client connected. */
  method HandleLiveReload(m: Esbuild, hasFlusher: bool, events: seq<Event>)
    returns (headers: map<string, string>, written: seq<string>)
    ensures headers == SseHeaders
    ensures !hasFlusher ==> written == []
    ensures hasFlusher ==> written == Run(SessionState(m.esbuild, true, []), events).written
  {
    headers := SseHeaders;
    if !hasFlusher {
      return headers, [];
    }
    var session := new Session(m.esbuild);
    var i := 0;
    while i < |events| && session.open
      invariant 0 <= i <= |events|
      invariant Run(SessionState(session.lastPointer, session.open, session.written), events[i..])
                == Run(SessionState(m.esbuild, true, []), events)
      decreases |events| - i
    {
      assert events[i..][1..] == events[i + 1..];
      session.Step(events[i]);
      i := i + 1;
    }
    ClosedSessionIgnoresEvents(SessionState(session.lastPointer, session.open, session.written), events[i..]);
    written := session.written;
  }

  /** Once the loop has ended, no event changes anything. */
  lemma {:induction false} ClosedSessionIgnoresEvents(s: SessionState, events: seq<Event>)
    requires !s.open || events == []
    ensures Run(s, events) == s
    decreases |events|
  {
    if events != [] {
      ClosedSessionIgnoresEvents(s, events[1..]);
    }
  }

  /** Stream contents only grow: what was written stays in front. */
  lemma {:induction false} WrittenOnlyGrows(s: SessionState, events: seq<Event>)
    ensures s.written <= Run(s, events).written
    decreases |events|
  {
    if events != [] {
      WrittenOnlyGrows(Next(s, events[0]), events[1..]);
    }
  }

  /** `n` compare ticks that all see the same build handle. */
  function Ticks(h: BuildHandle?, n: nat): (ticks: seq<Event>)
    ensures |ticks| == n && forall e :: e in ticks ==> e == CompareTick(h, h)
  {
    if n == 0 then [] else [CompareTick(h, h)] + Ticks(h, n - 1)
  }

  /** One reload per change: however many compare ticks see the same new build, the
      browser is told to reload once, and not at all when the build is the one it has. */
  lemma {:induction false} OneReloadPerChange(s: SessionState, h: BuildHandle?, n: nat)
    requires s.open && n >= 1
    ensures Run(s, Ticks(h, n)).written == s.written + (if s.last != h then [ReloadMessage] else [])
    ensures Run(s, Ticks(h, n)).last == h && Run(s, Ticks(h, n)).open
    decreases n
  {
    var t := Next(s, CompareTick(h, h));
    assert Ticks(h, n)[1..] == Ticks(h, n - 1);
    if n > 1 {
      OneReloadPerChange(t, h, n - 1);
    }
  }

  /** A ping is written only when the ping timer wins the `select`. */
  lemma {:induction false} PingOnlyFromPingTick(s: SessionState, events: seq<Event>)
    requires PingMessage !in s.written
    requires forall e :: e in events ==> !e.PingTick?
    ensures PingMessage !in Run(s, events).written
    decreases |events|
  {
    if events != [] {
      assert ReloadMessage != PingMessage;
      PingOnlyFromPingTick(Next(s, events[0]), events[1..]);
    }
  }

  /** While the loop runs, a ping tick always writes a ping. */
  lemma {:induction false} PingTickWritesPing(s: SessionState, events: seq<Event>)
    requires s.open
    requires forall e :: e in events ==> !Ends(e)
    requires PingTick in events
    ensures PingMessage in Run(s, events).written
    decreases |events|
  {
    var t := Next(s, events[0]);
    if events[0] == PingTick {
      assert PingMessage in t.written;
      WrittenOnlyGrows(t, events[1..]);
    } else {
      assert events[1..] != [] && PingTick in events[1..];
      PingTickWritesPing(t, events[1..]);
    }
  }

  // ---------------------------------------------------------------------------------
  // Timing of the two timers on an idle connection (no build, no cancellation).
  // Times are milliseconds.

  const CompareAfter: nat := 20
  const PingAfter: nat := 10000

  datatype Timer = Compare | Ping

  /** The idle stream as written, for timers of the given durations: both are created
      afresh at the top of every iteration, so each iteration waits for whichever of
      now+compareAfter and now+pingAfter is earlier. */
  function IdleTimersAsWritten(compareAfter: nat, pingAfter: nat, now: nat, n: nat): (fired: seq<Timer>)
    ensures |fired| == n
    decreases n
  {
    if n == 0 then []
    else
      var compareAt := now + compareAfter;
      var pingAt := now + pingAfter;
      if pingAt < compareAt then [Ping] + IdleTimersAsWritten(compareAfter, pingAfter, pingAt, n - 1)
      else [Compare] + IdleTimersAsWritten(compareAfter, pingAfter, compareAt, n - 1)
  }

  /** As written, a ping timer no shorter than the compare timer never fires: it is
      recreated before it can expire. */
  lemma {:induction false} PingNeverFiresAsWritten(compareAfter: nat, pingAfter: nat, now: nat, n: nat)
    requires compareAfter <= pingAfter
    ensures Ping !in IdleTimersAsWritten(compareAfter, pingAfter, now, n)
    decreases n
  {
    if n > 0 {
      PingNeverFiresAsWritten(compareAfter, pingAfter, now + compareAfter, n - 1);
    }
  }

  /** The idle stream with the ping deadline kept across iterations (created once and
      renewed only when it fires), as a keep-alive ping needs. */
  function IdleTimers(compareAfter: nat, pingAfter: nat, now: nat, pingAt: nat, n: nat): (fired: seq<Timer>)
    ensures |fired| == n
    decreases n
  {
    if n == 0 then []
    else
      var compareAt := now + compareAfter;
      if pingAt <= compareAt then [Ping] + IdleTimers(compareAfter, pingAfter, pingAt, pingAt + pingAfter, n - 1)
      else [Compare] + IdleTimers(compareAfter, pingAfter, compareAt, pingAt, n - 1)
  }

  /** With a kept deadline, a ping fires once enough compare ticks have passed to reach
      it. */
  lemma {:induction false} PingFiresByDeadline(compareAfter: nat, pingAfter: nat, now: nat, pingAt: nat, n: nat)
    requires n >= 1 && pingAt <= now + compareAfter * n
    ensures Ping in IdleTimers(compareAfter, pingAfter, now, pingAt, n)
    decreases n
  {
    if pingAt > now + compareAfter {
      PingFiresByDeadline(compareAfter, pingAfter, now + compareAfter, pingAt, n - 1);
    }
  }

  /** With the handler's durations, a fresh 10 s deadline is reached within 500
      iterations. */
  lemma PingFiresWithin500(now: nat)
    ensures Ping in IdleTimers(CompareAfter, PingAfter, now, now + PingAfter, 500)
  {
    PingFiresByDeadline(CompareAfter, PingAfter, now, now + PingAfter, 500);
  }

  /** The events an idle connection sees, with the build handle staying `h`. */
  function IdleEvents(timers: seq<Timer>, h: BuildHandle?): (events: seq<Event>)
    ensures |events| == |timers|
    ensures forall i :: 0 <= i < |timers| ==> events[i] == (if timers[i] == Ping then PingTick else CompareTick(h, h))
  {
    if timers == [] then [] else [if timers[0] == Ping then PingTick else CompareTick(h, h)] + IdleEvents(timers[1..], h)
  }

  /** As written, an idle stream never carries a ping, however long it stays open. */
  lemma IdleStreamNeverPingsAsWritten(m: Esbuild, now: nat, n: nat)
    ensures PingMessage !in Run(SessionState(m.esbuild, true, []), IdleEvents(IdleTimersAsWritten(CompareAfter, PingAfter, now, n), m.esbuild)).written
  {
    var timers := IdleTimersAsWritten(CompareAfter, PingAfter, now, n);
    var events := IdleEvents(timers, m.esbuild);
    PingNeverFiresAsWritten(CompareAfter, PingAfter, now, n);
    forall e | e in events ensures !e.PingTick? {
      var i :| 0 <= i < |events| && events[i] == e;
      assert timers[i] in timers;
    }
    PingOnlyFromPingTick(SessionState(m.esbuild, true, []), events);
  }

  /** With the deadline kept, an idle stream open for 500 iterations carries a ping. */
  lemma IdleStreamPings(m: Esbuild, now: nat)
    ensures PingMessage in Run(SessionState(m.esbuild, true, []), IdleEvents(IdleTimers(CompareAfter, PingAfter, now, now + PingAfter, 500), m.esbuild)).written
  {
    var timers := IdleTimers(CompareAfter, PingAfter, now, now + PingAfter, 500);
    var events := IdleEvents(timers, m.esbuild);
    PingFiresWithin500(now);
    var i :| 0 <= i < |timers| && timers[i] == Ping;
    assert events[i] == PingTick;
    PingTickWritesPing(SessionState(m.esbuild, true, []), events);
  }
}
