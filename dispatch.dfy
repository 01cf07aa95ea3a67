/**
 * Event classification (process_event, process_create_event and
 * process_property_event in src/x11.rs): which events invoke the callback,
 * for which window and how many times. The decision is a pure function of
 * the event, the marker atom and the server's replies; the invocations
 * themselves are recorded as `Action`s in the connection's log (module Watch).
 */
module Dispatch {
  import opened Wrappers
  import opened Errors
  import opened Protocol

  /** The caller's action: given a window, it succeeds or fails. */
  type Callback = Window -> Result<(), Error>

  /** What the watch loop observably does: invoke the callback (noting whether it failed), or sleep. */
  datatype Action = Invoked(window: Window, failed: bool) | Slept

  /**
   * The marker condition of a dispatched window: newly created and listing
   * the marker among its properties, or named by a change of the marker itself.
   */
  ghost predicate Qualifies(server: Server, wanted: Atom, e: Event, w: Window) {
    match e
    case CreateNotify(c) =>
      c.window == w && server.listProperties(w).Replied? && wanted in server.listProperties(w).value
    case PropertyNotify(p) => p.window == w && p.atom == wanted
    case OtherEvent(_) => false
  }

  /** The windows process_create_event hands to the callback. */
  function CreateCalls(server: Server, wanted: Atom, e: CreateNotifyEvent): (calls: seq<Window>)
    ensures |calls| <= 1
    ensures calls != [] <==> server.listProperties(e.window).Replied? && wanted in server.listProperties(e.window).value
    ensures forall w :: w in calls ==> w == e.window
  {
    match server.listProperties(e.window)
    case Replied(atoms) => if wanted in atoms then [e.window] else []
    case _ => []
  }

  /** The windows process_property_event hands to the callback. */
  function PropertyCalls(wanted: Atom, e: PropertyNotifyEvent): (calls: seq<Window>)
    ensures |calls| <= 1
    ensures calls != [] <==> e.atom == wanted
    ensures forall w :: w in calls ==> w == e.window
  {
    if e.atom == wanted then [e.window] else []
  }

  /** The windows process_event hands to the callback: at most one, and exactly the qualifying one. */
  function EventCalls(server: Server, wanted: Atom, e: Event): (calls: seq<Window>)
    ensures |calls| <= 1
    ensures forall w :: w in calls <==> Qualifies(server, wanted, e, w)
  {
    match e
    case CreateNotify(c) => CreateCalls(server, wanted, c)
    case PropertyNotify(p) => PropertyCalls(wanted, p)
    case OtherEvent(_) => []
  }

  /** The log entries of invoking the callback on each window in turn. */
  function Invocations(ws: seq<Window>, callback: Callback): (acts: seq<Action>)
    ensures |acts| == |ws|
    ensures forall i :: 0 <= i < |ws| ==> acts[i] == Invoked(ws[i], callback(ws[i]).Err?)
  {
    if ws == [] then [] else [Invoked(ws[0], callback(ws[0]).Err?)] + Invocations(ws[1..], callback)
  }

  /** The log entries of dispatching one event. */
  function EventActions(server: Server, wanted: Atom, callback: Callback, e: Event): seq<Action> {
    Invocations(EventCalls(server, wanted, e), callback)
  }

  /** The windows a log invoked the callback on, in order. */
  function InvokedWindows(acts: seq<Action>): seq<Window> {
    if acts == [] then []
    else (if acts[0].Invoked? then [acts[0].window] else []) + InvokedWindows(acts[1..])
  }

  /** The number of sleeps in a log. */
  function Sleeps(acts: seq<Action>): nat {
    if acts == [] then 0 else (if acts[0].Slept? then 1 else 0) + Sleeps(acts[1..])
  }

  /** A log with every callback outcome forgotten. */
  function Erased(acts: seq<Action>): (r: seq<Action>)
    ensures |r| == |acts|
    ensures forall i :: 0 <= i < |acts| ==> r[i] == (if acts[i].Invoked? then Invoked(acts[i].window, false) else Slept)
  {
    if acts == [] then [] else [if acts[0].Invoked? then Invoked(acts[0].window, false) else Slept] + Erased(acts[1..])
  }

  lemma {:induction false} InvokedWindowsAppend(a: seq<Action>, b: seq<Action>)
    ensures InvokedWindows(a + b) == InvokedWindows(a) + InvokedWindows(b)
  {
    if a != [] {
      assert (a + b)[1..] == a[1..] + b;
      InvokedWindowsAppend(a[1..], b);
    } else {
      assert a + b == b;
    }
  }

  lemma {:induction false} SleepsAppend(a: seq<Action>, b: seq<Action>)
    ensures Sleeps(a + b) == Sleeps(a) + Sleeps(b)
  {
    if a != [] {
      assert (a + b)[1..] == a[1..] + b;
      SleepsAppend(a[1..], b);
    } else {
      assert a + b == b;
    }
  }

  lemma ErasedAppend(a: seq<Action>, b: seq<Action>)
    ensures Erased(a + b) == Erased(a) + Erased(b)
  {
  }

  /** Invoking the callback logs the windows themselves and never a sleep. */
  lemma {:induction false} InvocationsContents(ws: seq<Window>, callback: Callback)
    ensures InvokedWindows(Invocations(ws, callback)) == ws
    ensures Sleeps(Invocations(ws, callback)) == 0
  {
    if ws != [] {
      var acts := Invocations(ws, callback);
      assert acts[1..] == Invocations(ws[1..], callback);
      InvocationsContents(ws[1..], callback);
    }
  }

  /** Which windows get invoked does not depend on whether the callback fails. */
  lemma InvocationsIgnoreOutcome(ws: seq<Window>, cb1: Callback, cb2: Callback)
    ensures Erased(Invocations(ws, cb1)) == Erased(Invocations(ws, cb2))
  {
  }

  /**
   * A created window listing the marker is dispatched exactly once, however
   * many times the marker occurs in the list.
   */
  lemma CreateDispatchedOnce(server: Server, wanted: Atom, e: CreateNotifyEvent)
    requires server.listProperties(e.window).Replied?
    requires multiset(server.listProperties(e.window).value)[wanted] > 0
    ensures EventCalls(server, wanted, CreateNotify(e)) == [e.window]
  {
  }

  /** A created window whose property list cannot be read is dropped without a trace. */
  lemma CreateListFailureDropped(server: Server, wanted: Atom, e: CreateNotifyEvent)
    requires !server.listProperties(e.window).Replied?
    ensures EventCalls(server, wanted, CreateNotify(e)) == []
  {
  }
}
