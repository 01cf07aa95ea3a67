/**
 * The watch loop (monitor_new_windows in src/x11.rs): subscribe to property
 * and structure changes on the root window, intern the marker atom, then
 * repeatedly drain the event queue through the dispatcher and sleep, until
 * the shutdown flag reads false at the top of a cycle.
 *
 * `Setup`, `Drain` and `Loop` specify the loop on values; the classes
 * `RunFlag` and `Connection` carry it out step by step and are proved
 * against them. The lemmas state what the loop promises.
 */
module Watch {
  import opened Wrappers
  import opened Errors
  import opened Protocol
  import opened Dispatch

  /** The request interning the marker property's name. */
  const MARKER_REQUEST: InternAtomRequest := InternAtomRequest(false, "STEAM_GAME")

  /**
   * The setup stages in order: select the watch mask on the chosen screen's
   * root window and check it, flush, intern the marker. The first stage that
   * fails decides the error; on success the marker atom is the result.
   */
  function Setup(server: Server, screenNum: nat): (r: Result<Atom, BoxedError>)
    requires screenNum < |server.roots|
    ensures var subscribe := server.changeWindowAttributes(server.roots[screenNum], WATCH_MASK);
      var marker := server.internAtom(MARKER_REQUEST);
      && (r.Ok? <==> subscribe.Replied? && server.flush.None? && marker.Replied?)
      && (r.Ok? ==> r.value == marker.value)
      && (!subscribe.Replied? ==> r.Err? && r.error == Boxed(subscribe).error)
      && (subscribe.Replied? && server.flush.Some? ==> r == Err(BoxedConnectionError(server.flush.value)))
      && (subscribe.Replied? && server.flush.None? && !marker.Replied? ==> r.Err? && r.error == Boxed(marker).error)
  {
    match Boxed(server.changeWindowAttributes(server.roots[screenNum], WATCH_MASK))
    case Err(e) => Err(e)
    case Ok(_) =>
      match server.flush
      case Some(c) => Err(BoxedConnectionError(c))
      case None => Boxed(server.internAtom(MARKER_REQUEST))
  }

  /** `rest` is what remains of `q` once some prefix has been read. */
  predicate IsSuffix(rest: seq<PollResult>, q: seq<PollResult>) {
    rest == q || (q != [] && IsSuffix(rest, q[1..]))
  }

  lemma {:induction false} SuffixTransitive(a: seq<PollResult>, b: seq<PollResult>, c: seq<PollResult>)
    requires IsSuffix(a, b) && IsSuffix(b, c)
    ensures IsSuffix(a, c)
  {
    if b != c {
      SuffixTransitive(a, b, c[1..]);
    }
  }

  /** What one drain did, and the poll results it left unread. */
  datatype Drained = Drained(actions: seq<Action>, rest: seq<PollResult>)

  /**
   * One drain: dispatch polled events in queue order until a poll finds
   * nothing queued or fails; that poll is consumed too. An exhausted queue
   * polls as "nothing queued".
   */
  function Drain(server: Server, wanted: Atom, callback: Callback, q: seq<PollResult>): (d: Drained)
    ensures IsSuffix(d.rest, q)
    ensures q != [] ==> |d.rest| < |q|
    decreases |q|
  {
    if q == [] then Drained([], [])
    else match q[0]
      case Polled(e) =>
        var d := Drain(server, wanted, callback, q[1..]);
        Drained(EventActions(server, wanted, callback, e) + d.actions, d.rest)
      case _ => Drained([], q[1..])
  }

  /** Drain, one poll at a time. */
  lemma DrainStep(server: Server, wanted: Atom, callback: Callback, q: seq<PollResult>)
    ensures q == [] ==> Drain(server, wanted, callback, q) == Drained([], [])
    ensures q != [] && q[0].Polled? ==>
      var d := Drain(server, wanted, callback, q[1..]);
      Drain(server, wanted, callback, q) == Drained(EventActions(server, wanted, callback, q[0].event) + d.actions, d.rest)
    ensures q != [] && !q[0].Polled? ==> Drain(server, wanted, callback, q) == Drained([], q[1..])
  {
  }

  /** After dispatching the head of the queue, the drain of the tail finishes the drain of the whole. */
  lemma DrainAfterEvent(server: Server, wanted: Atom, callback: Callback, q: seq<PollResult>,
                        before: seq<Action>, after: seq<Action>)
    requires q != [] && q[0].Polled?
    requires after == before + EventActions(server, wanted, callback, q[0].event)
    ensures after + Drain(server, wanted, callback, q[1..]).actions == before + Drain(server, wanted, callback, q).actions
    ensures Drain(server, wanted, callback, q[1..]).rest == Drain(server, wanted, callback, q).rest
  {
    var d := Drain(server, wanted, callback, q[1..]);
    var a := EventActions(server, wanted, callback, q[0].event);
    assert Drain(server, wanted, callback, q) == Drained(a + d.actions, d.rest);
    assert after + d.actions == before + (a + d.actions);
  }

  /** What the loop did, the poll results it left unread and the flag values it left unread. */
  datatype Watched = Watched(actions: seq<Action>, events: seq<PollResult>, flags: seq<bool>)

  /**
   * The loop after setup: read the flag; while it reads true, drain, sleep
   * once, and read it again. `flags` are the values successive reads see;
   * an exhausted script reads false.
   */
  function Loop(server: Server, wanted: Atom, callback: Callback, q: seq<PollResult>, flags: seq<bool>): (w: Watched)
    ensures IsSuffix(w.events, q)
    decreases |flags|
  {
    if flags == [] then Watched([], q, [])
    else if !flags[0] then Watched([], q, flags[1..])
    else
      var d := Drain(server, wanted, callback, q);
      var w := Loop(server, wanted, callback, d.rest, flags[1..]);
      SuffixTransitive(w.events, d.rest, q);
      Watched(d.actions + [Slept] + w.actions, w.events, w.flags)
  }

  /** The number of reads that see true before the first that does not. */
  function LeadingTrue(flags: seq<bool>): (n: nat)
    ensures n <= |flags|
    ensures forall i :: 0 <= i < n ==> flags[i]
    ensures n < |flags| ==> !flags[n]
  {
    if flags == [] || !flags[0] then 0 else 1 + LeadingTrue(flags[1..])
  }

  /** The flag values left unread once a read has seen false (none if no read does). */
  function AfterFirstFalse(flags: seq<bool>): seq<bool> {
    if LeadingTrue(flags) < |flags| then flags[LeadingTrue(flags) + 1..] else []
  }

  /** A queue holding the given events, in order. */
  function AsPolled(evs: seq<Event>): (q: seq<PollResult>)
    ensures |q| == |evs|
    ensures forall i :: 0 <= i < |evs| ==> q[i] == Polled(evs[i])
  {
    if evs == [] then [] else [Polled(evs[0])] + AsPolled(evs[1..])
  }

  /** The log of dispatching the given events, in order. */
  function EventsActions(server: Server, wanted: Atom, callback: Callback, evs: seq<Event>): seq<Action> {
    if evs == [] then []
    else EventActions(server, wanted, callback, evs[0]) + EventsActions(server, wanted, callback, evs[1..])
  }

  /** The windows dispatching the polled events among `q` hands to the callback, in order. */
  function Dispatched(server: Server, wanted: Atom, q: seq<PollResult>): seq<Window> {
    if q == [] then []
    else (if q[0].Polled? then EventCalls(server, wanted, q[0].event) else []) + Dispatched(server, wanted, q[1..])
  }

  // ---------------------------------------------------------------------------
  // What the loop promises

  /**
   * Draining is exhaustive and in order: events queued ahead of the first
   * empty or failed poll are all dispatched, and nothing after it is read.
   */
  lemma {:induction false} DrainIsExhaustive(server: Server, wanted: Atom, callback: Callback,
                                             evs: seq<Event>, rest: seq<PollResult>)
    requires rest == [] || !rest[0].Polled?
    ensures Drain(server, wanted, callback, AsPolled(evs) + rest)
         == Drained(EventsActions(server, wanted, callback, evs), if rest == [] then [] else rest[1..])
  {
    var q := AsPolled(evs) + rest;
    if evs == [] {
      assert q == rest;
    } else {
      assert q[0] == Polled(evs[0]);
      assert q[1..] == AsPolled(evs[1..]) + rest;
      DrainIsExhaustive(server, wanted, callback, evs[1..], rest);
    }
  }

  /** A failed poll ends a drain exactly as an empty one does. */
  lemma PollErrorEndsDrainLikeNoEvent(server: Server, wanted: Atom, callback: Callback,
                                      evs: seq<Event>, c: Errors.ConnectionError, rest: seq<PollResult>)
    ensures Drain(server, wanted, callback, AsPolled(evs) + [PollFailed(c)] + rest)
         == Drain(server, wanted, callback, AsPolled(evs) + [NoEvent] + rest)
  {
    assert AsPolled(evs) + [PollFailed(c)] + rest == AsPolled(evs) + ([PollFailed(c)] + rest);
    assert AsPolled(evs) + [NoEvent] + rest == AsPolled(evs) + ([NoEvent] + rest);
    DrainIsExhaustive(server, wanted, callback, evs, [PollFailed(c)] + rest);
    DrainIsExhaustive(server, wanted, callback, evs, [NoEvent] + rest);
  }

  lemma {:induction false} DrainNeverSleeps(server: Server, wanted: Atom, callback: Callback, q: seq<PollResult>)
    ensures Sleeps(Drain(server, wanted, callback, q).actions) == 0
  {
    if q != [] && q[0].Polled? {
      var e := q[0].event;
      DrainNeverSleeps(server, wanted, callback, q[1..]);
      SleepsAppend(EventActions(server, wanted, callback, e), Drain(server, wanted, callback, q[1..]).actions);
      InvocationsContents(EventCalls(server, wanted, e), callback);
    }
  }

  /**
   * The flag is read once at the start and once after every sleep, and
   * nowhere else: the loop sleeps once for every read that saw true, and
   * stops reading at the first read that does not.
   */
  lemma {:induction false} OneSleepPerCycle(server: Server, wanted: Atom, callback: Callback,
                                            q: seq<PollResult>, flags: seq<bool>)
    ensures Sleeps(Loop(server, wanted, callback, q, flags).actions) == LeadingTrue(flags)
    ensures Loop(server, wanted, callback, q, flags).flags == AfterFirstFalse(flags)
    decreases |flags|
  {
    if flags != [] && flags[0] {
      var d := Drain(server, wanted, callback, q);
      var w := Loop(server, wanted, callback, d.rest, flags[1..]);
      OneSleepPerCycle(server, wanted, callback, d.rest, flags[1..]);
      DrainNeverSleeps(server, wanted, callback, q);
      SleepsAppend(d.actions + [Slept], w.actions);
      SleepsAppend(d.actions, [Slept]);
      if LeadingTrue(flags) < |flags| {
        assert flags[1..][LeadingTrue(flags[1..]) + 1..] == flags[LeadingTrue(flags) + 1..];
      }
    }
  }

  /**
   * Shutdown is honoured within one cycle: if the k-th read of the flag sees
   * false, the loop has slept at most k times, however many events are queued.
   */
  lemma ShutdownWithinOneCycle(server: Server, wanted: Atom, callback: Callback,
                               q: seq<PollResult>, flags: seq<bool>, k: nat)
    requires k < |flags| && !flags[k]
    ensures Sleeps(Loop(server, wanted, callback, q, flags).actions) <= k
  {
    OneSleepPerCycle(server, wanted, callback, q, flags);
  }

  /** A flag that reads false at the first check stops the loop before any poll. */
  lemma StopBeforeFirstPoll(server: Server, wanted: Atom, callback: Callback, q: seq<PollResult>, flags: seq<bool>)
    requires flags == [] || !flags[0]
    ensures Loop(server, wanted, callback, q, flags).actions == []
    ensures Loop(server, wanted, callback, q, flags).events == q
  {
  }

  lemma {:induction false} DispatchedAppend(server: Server, wanted: Atom, p1: seq<PollResult>, p2: seq<PollResult>)
    ensures Dispatched(server, wanted, p1 + p2) == Dispatched(server, wanted, p1) + Dispatched(server, wanted, p2)
  {
    if p1 == [] {
      assert p1 + p2 == p2;
    } else {
      assert (p1 + p2)[1..] == p1[1..] + p2;
      DispatchedAppend(server, wanted, p1[1..], p2);
    }
  }

  /** A drain reads a prefix of the queue and invokes the callback exactly for the events in it. */
  lemma {:induction false} DrainFollowsQueue(server: Server, wanted: Atom, callback: Callback, q: seq<PollResult>)
    ensures var d := Drain(server, wanted, callback, q);
      exists consumed :: q == consumed + d.rest && InvokedWindows(d.actions) == Dispatched(server, wanted, consumed)
    decreases |q|
  {
    var d := Drain(server, wanted, callback, q);
    if q == [] {
      assert q == [] + d.rest && InvokedWindows(d.actions) == Dispatched(server, wanted, []);
    } else if q[0].Polled? {
      var e := q[0].event;
      var d' := Drain(server, wanted, callback, q[1..]);
      DrainFollowsQueue(server, wanted, callback, q[1..]);
      var c' :| q[1..] == c' + d'.rest && InvokedWindows(d'.actions) == Dispatched(server, wanted, c');
      assert d == Drained(EventActions(server, wanted, callback, e) + d'.actions, d'.rest);
      EventFollowsQueue(server, wanted, callback, q, c', d'.rest, d'.actions);
    } else {
      var c := [q[0]];
      assert q == c + d.rest;
      assert c[1..] == [];
      assert InvokedWindows(d.actions) == Dispatched(server, wanted, c);
    }
  }

  /** One event's share of DrainFollowsQueue: the head event's invocations, then the tail's. */
  lemma EventFollowsQueue(server: Server, wanted: Atom, callback: Callback, q: seq<PollResult>,
                          c: seq<PollResult>, rest: seq<PollResult>, a: seq<Action>)
    requires q != [] && q[0].Polled?
    requires q[1..] == c + rest && InvokedWindows(a) == Dispatched(server, wanted, c)
    ensures q == ([q[0]] + c) + rest
    ensures InvokedWindows(EventActions(server, wanted, callback, q[0].event) + a) == Dispatched(server, wanted, [q[0]] + c)
  {
    var e := q[0].event;
    InvokedWindowsAppend(EventActions(server, wanted, callback, e), a);
    InvocationsContents(EventCalls(server, wanted, e), callback);
    assert ([q[0]] + c)[1..] == c;
  }

  /**
   * The loop reads a prefix of the queue and invokes the callback exactly
   * once for every event in it that qualifies, in queue order, and never
   * otherwise.
   */
  lemma {:induction false} LoopFollowsQueue(server: Server, wanted: Atom, callback: Callback,
                                            q: seq<PollResult>, flags: seq<bool>)
    ensures var w := Loop(server, wanted, callback, q, flags);
      exists consumed :: q == consumed + w.events && InvokedWindows(w.actions) == Dispatched(server, wanted, consumed)
    decreases |flags|
  {
    var w := Loop(server, wanted, callback, q, flags);
    if flags == [] || !flags[0] {
      assert q == [] + w.events && InvokedWindows(w.actions) == Dispatched(server, wanted, []);
    } else {
      var d := Drain(server, wanted, callback, q);
      var w' := Loop(server, wanted, callback, d.rest, flags[1..]);
      assert w == Watched(d.actions + [Slept] + w'.actions, w'.events, w'.flags);
      DrainFollowsQueue(server, wanted, callback, q);
      var c1 :| q == c1 + d.rest && InvokedWindows(d.actions) == Dispatched(server, wanted, c1);
      LoopFollowsQueue(server, wanted, callback, d.rest, flags[1..]);
      var c2 :| d.rest == c2 + w'.events && InvokedWindows(w'.actions) == Dispatched(server, wanted, c2);
      CycleFollowsQueue(server, wanted, q, c1, c2, d.rest, w'.events, d.actions, w'.actions);
    }
  }

  /** One cycle's share of LoopFollowsQueue: a drain's prefix followed by the rest of the loop's. */
  lemma CycleFollowsQueue(server: Server, wanted: Atom, q: seq<PollResult>, c1: seq<PollResult>, c2: seq<PollResult>,
                          mid: seq<PollResult>, rest: seq<PollResult>, a1: seq<Action>, a2: seq<Action>)
    requires q == c1 + mid && mid == c2 + rest
    requires InvokedWindows(a1) == Dispatched(server, wanted, c1)
    requires InvokedWindows(a2) == Dispatched(server, wanted, c2)
    ensures q == (c1 + c2) + rest
    ensures InvokedWindows(a1 + [Slept] + a2) == Dispatched(server, wanted, c1 + c2)
  {
    InvokedWindowsAppend(a1 + [Slept], a2);
    InvokedWindowsAppend(a1, [Slept]);
    assert InvokedWindows([Slept]) == [];
    DispatchedAppend(server, wanted, c1, c2);
  }

  lemma {:induction false} DispatchedQualifies(server: Server, wanted: Atom, p: seq<PollResult>, w: Window)
    requires w in Dispatched(server, wanted, p)
    ensures exists j :: 0 <= j < |p| && p[j].Polled? && Qualifies(server, wanted, p[j].event, w)
  {
    if p[0].Polled? && w in EventCalls(server, wanted, p[0].event) {
      assert Qualifies(server, wanted, p[0].event, w);
    } else {
      DispatchedQualifies(server, wanted, p[1..], w);
      var j :| 0 <= j < |p[1..]| && p[1..][j].Polled? && Qualifies(server, wanted, p[1..][j].event, w);
      assert p[j + 1] == p[1..][j];
    }
  }

  /**
   * Every window the loop hands to the callback was, when its event was
   * read, either newly created and listing the marker, or named by a change
   * of the marker property.
   */
  lemma EveryInvocationQualifies(server: Server, wanted: Atom, callback: Callback,
                                 q: seq<PollResult>, flags: seq<bool>, w: Window)
    requires w in InvokedWindows(Loop(server, wanted, callback, q, flags).actions)
    ensures var n := |q| - |Loop(server, wanted, callback, q, flags).events|;
      exists j :: 0 <= j < n && q[j].Polled? && Qualifies(server, wanted, q[j].event, w)
  {
    var l := Loop(server, wanted, callback, q, flags);
    LoopFollowsQueue(server, wanted, callback, q, flags);
    var consumed :| q == consumed + l.events && InvokedWindows(l.actions) == Dispatched(server, wanted, consumed);
    DispatchedQualifies(server, wanted, consumed, w);
    var j :| 0 <= j < |consumed| && consumed[j].Polled? && Qualifies(server, wanted, consumed[j].event, w);
    assert q[j] == consumed[j];
  }

  lemma {:induction false} DrainIgnoresOutcome(server: Server, wanted: Atom, cb1: Callback, cb2: Callback,
                                               q: seq<PollResult>)
    ensures Drain(server, wanted, cb1, q).rest == Drain(server, wanted, cb2, q).rest
    ensures Erased(Drain(server, wanted, cb1, q).actions) == Erased(Drain(server, wanted, cb2, q).actions)
    decreases |q|
  {
    if q != [] && q[0].Polled? {
      var e := q[0].event;
      DrainIgnoresOutcome(server, wanted, cb1, cb2, q[1..]);
      ErasedAppend(EventActions(server, wanted, cb1, e), Drain(server, wanted, cb1, q[1..]).actions);
      ErasedAppend(EventActions(server, wanted, cb2, e), Drain(server, wanted, cb2, q[1..]).actions);
      InvocationsIgnoreOutcome(EventCalls(server, wanted, e), cb1, cb2);
    }
  }

  /**
   * Callback failures are only logged: what the loop reads, which windows
   * it invokes and when it sleeps do not depend on whether the callback
   * fails.
   */
  lemma {:induction false} CallbackFailuresOnlyLogged(server: Server, wanted: Atom, cb1: Callback, cb2: Callback,
                                                      q: seq<PollResult>, flags: seq<bool>)
    ensures Loop(server, wanted, cb1, q, flags).events == Loop(server, wanted, cb2, q, flags).events
    ensures Loop(server, wanted, cb1, q, flags).flags == Loop(server, wanted, cb2, q, flags).flags
    ensures Erased(Loop(server, wanted, cb1, q, flags).actions) == Erased(Loop(server, wanted, cb2, q, flags).actions)
    decreases |flags|
  {
    if flags != [] && flags[0] {
      var d1, d2 := Drain(server, wanted, cb1, q), Drain(server, wanted, cb2, q);
      DrainIgnoresOutcome(server, wanted, cb1, cb2, q);
      CallbackFailuresOnlyLogged(server, wanted, cb1, cb2, d1.rest, flags[1..]);
      var w1, w2 := Loop(server, wanted, cb1, d1.rest, flags[1..]), Loop(server, wanted, cb2, d2.rest, flags[1..]);
      ErasedAppend(d1.actions + [Slept], w1.actions);
      ErasedAppend(d2.actions + [Slept], w2.actions);
      ErasedAppend(d1.actions, [Slept]);
      ErasedAppend(d2.actions, [Slept]);
    }
  }

  /** Reading the flag once and pushing the value back changes nothing the loop does. */
  lemma LoadedFlag(server: Server, wanted: Atom, callback: Callback, q: seq<PollResult>,
                   flags: seq<bool>, running: bool, after: seq<bool>)
    requires running == (flags != [] && flags[0])
    requires after == if flags == [] then [] else flags[1..]
    ensures Loop(server, wanted, callback, q, flags) == Loop(server, wanted, callback, q, [running] + after)
  {
  }

  /** A read that sees true: one drain and one sleep, then the rest of the loop. */
  lemma LoopCycle(server: Server, wanted: Atom, callback: Callback, q: seq<PollResult>, flags: seq<bool>)
    ensures var d := Drain(server, wanted, callback, q);
      var w := Loop(server, wanted, callback, d.rest, flags);
      Loop(server, wanted, callback, q, [true] + flags) == Watched(d.actions + [Slept] + w.actions, w.events, w.flags)
  {
    assert ([true] + flags)[1..] == flags;
  }

  /**
   * One cycle of the loop, as the connection runs it: a drain and a sleep,
   * then a read of the flag, leave the rest of the loop to do what remained.
   */
  lemma LoopAfterCycle(server: Server, wanted: Atom, callback: Callback, q: seq<PollResult>,
                       flags: seq<bool>, running: bool, after: seq<bool>, logBefore: seq<Action>, logAfter: seq<Action>)
    requires logAfter == logBefore + Drain(server, wanted, callback, q).actions + [Slept]
    requires running == (flags != [] && flags[0])
    requires after == if flags == [] then [] else flags[1..]
    ensures var w0 := Loop(server, wanted, callback, q, [true] + flags);
      var w1 := Loop(server, wanted, callback, Drain(server, wanted, callback, q).rest, [running] + after);
      && logBefore + w0.actions == logAfter + w1.actions
      && w0.events == w1.events && w0.flags == w1.flags
  {
    var d := Drain(server, wanted, callback, q);
    var w := Loop(server, wanted, callback, d.rest, flags);
    LoopCycle(server, wanted, callback, q, flags);
    LoadedFlag(server, wanted, callback, d.rest, flags, running, after);
    assert logBefore + (d.actions + [Slept] + w.actions) == logAfter + w.actions;
  }

  // ---------------------------------------------------------------------------
  // The objects the loop runs on

  /** The shared shutdown flag, given as the values its successive loads read. */
  class RunFlag {
    var script: seq<bool>

    constructor (script: seq<bool>)
      ensures this.script == script
    {
      this.script := script;
    }

    /** keep_running.load(): the next scripted value; false once the script is exhausted. */
    method Load() returns (b: bool)
      modifies this
      ensures b == (old(script) != [] && old(script)[0])
      ensures script == if old(script) == [] then [] else old(script)[1..]
    {
      if script == [] {
        b := false;
      } else {
        b := script[0];
        script := script[1..];
      }
    }
  }

  /**
   * The connection: the server's fixed answers, the queue of poll results
   * still to come, and a log of what the watcher did with them.
   */
  class Connection {
    const server: Server
    var events: seq<PollResult>
    ghost var log: seq<Action>

    constructor (server: Server, events: seq<PollResult>)
      ensures this.server == server && this.events == events && log == []
    {
      this.server := server;
      this.events := events;
      log := [];
    }

    /** poll_for_event: the next queued result, or nothing once the queue is exhausted. */
    method PollForEvent() returns (p: PollResult)
      modifies this`events
      ensures p == if old(events) == [] then NoEvent else old(events)[0]
      ensures events == if old(events) == [] then [] else old(events)[1..]
    {
      if events == [] {
        p := NoEvent;
      } else {
        p := events[0];
        events := events[1..];
      }
    }

    /** thread::sleep(SLEEP_TIME), recorded as a step. */
    method Sleep()
      modifies this`log
      ensures log == old(log) + [Slept]
    {
      log := log + [Slept];
    }

    /** Invoke the callback on a window; a failure is logged and goes no further. */
    method Invoke(window: Window, callback: Callback)
      modifies this`log
      ensures log == old(log) + [Invoked(window, callback(window).Err?)]
    {
      var result := callback(window);
      log := log + [Invoked(window, result.Err?)];
    }

    /** process_create_event: scan the new window's properties and stop at the first marker. */
    method ProcessCreateEvent(wanted: Atom, e: CreateNotifyEvent, callback: Callback)
      modifies this`log
      ensures log == old(log) + Invocations(CreateCalls(server, wanted, e), callback)
    {
      var props := server.listProperties(e.window);
      if props.Replied? {
        var atoms := props.value;
        for i := 0 to |atoms|
          invariant wanted !in atoms[..i]
          invariant log == old(log)
        {
          if atoms[i] == wanted {
            Invoke(e.window, callback);
            break;
          }
        }
      }
    }

    /** process_property_event: invoke the callback when the changed property is the marker. */
    method ProcessPropertyEvent(wanted: Atom, e: PropertyNotifyEvent, callback: Callback)
      modifies this`log
      ensures log == old(log) + Invocations(PropertyCalls(wanted, e), callback)
    {
      if e.atom == wanted {
        Invoke(e.window, callback);
      }
    }

    /** process_event: route creations and property changes; ignore every other event. */
    method ProcessEvent(wanted: Atom, e: Event, callback: Callback)
      modifies this`log
      ensures log == old(log) + EventActions(server, wanted, callback, e)
    {
      match e
      case CreateNotify(c) => ProcessCreateEvent(wanted, c, callback);
      case PropertyNotify(p) => ProcessPropertyEvent(wanted, p, callback);
      case OtherEvent(_) =>
    }

    /**
     * The inner loop of monitor_new_windows: poll and dispatch until a poll
     * finds nothing queued or fails, then sleep once.
     */
    method DrainThenSleep(wanted: Atom, callback: Callback)
      modifies this`events, this`log
      ensures var d := Drain(server, wanted, callback, old(events));
        log == old(log) + d.actions + [Slept] && events == d.rest
    {
      ghost var total := Drain(server, wanted, callback, events);
      while true
        invariant log + Drain(server, wanted, callback, events).actions == old(log) + total.actions
        invariant Drain(server, wanted, callback, events).rest == total.rest
        decreases |events|
      {
        ghost var log0, events0 := log, events;
        var pollResult := PollForEvent();
        var noMoreEvents := !pollResult.Polled?;
        if pollResult.Polled? {
          ProcessEvent(wanted, pollResult.event, callback);
          DrainAfterEvent(server, wanted, callback, events0, log0, log);
        } else {
          DrainStep(server, wanted, callback, events0);
        }
        if noMoreEvents {
          Sleep();
          break;
        }
      }
    }

    /**
     * monitor_new_windows. A failing setup stage returns its error before
     * the flag is read or the queue polled; otherwise the loop runs as
     * `Loop` says and the result is Ok.
     */
    method MonitorNewWindows(screenNum: nat, keepRunning: RunFlag, callback: Callback) returns (r: Result<(), BoxedError>)
      requires screenNum < |server.roots|
      modifies this`events, this`log, keepRunning
      ensures Setup(server, screenNum).Err? ==>
        && r == Err(Setup(server, screenNum).error)
        && events == old(events) && log == old(log) && keepRunning.script == old(keepRunning.script)
      ensures Setup(server, screenNum).Ok? ==>
        var w := Loop(server, Setup(server, screenNum).value, callback, old(events), old(keepRunning.script));
        && r == Ok(())
        && log == old(log) + w.actions && events == w.events && keepRunning.script == w.flags
    {
      var root := server.roots[screenNum];
      var subscribed := Boxed(server.changeWindowAttributes(root, WATCH_MASK));
      if subscribed.Err? {
        return Err(subscribed.error);
      }
      if server.flush.Some? {
        return Err(BoxedConnectionError(server.flush.value));
      }
      var marker := Boxed(server.internAtom(MARKER_REQUEST));
      if marker.Err? {
        return Err(marker.error);
      }
      var wanted := marker.value;

      ghost var total := Loop(server, wanted, callback, events, keepRunning.script);
      ghost var script0 := keepRunning.script;
      var running := keepRunning.Load();
      LoadedFlag(server, wanted, callback, events, script0, running, keepRunning.script);

      while running
        invariant var w := Loop(server, wanted, callback, events, [running] + keepRunning.script);
          && old(log) + total.actions == log + w.actions
          && w.events == total.events && w.flags == total.flags
        decreases |keepRunning.script| + (if running then 1 else 0)
      {
        ghost var log0, events0, script0 := log, events, keepRunning.script;
        DrainThenSleep(wanted, callback);
        running := keepRunning.Load();
        LoopAfterCycle(server, wanted, callback, events0, script0, running, keepRunning.script, log0, log);
      }
      r := Ok(());
    }
  }
}
