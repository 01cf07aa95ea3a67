# auto_gamemode window watcher: a Dafny model

auto_gamemode watches an X11 server for windows that carry the `STEAM_GAME`
marker property. For each such window it resolves the owning process id and
asks gamemode to enable itself for that process. This project models the
window-watch engine of `src/x11.rs` and the error type of `src/errors.rs`, and
proves properties of the model. The engine has four parts:

- **Watch loop** (`monitor_new_windows`). Setup selects PropertyChange and
  SubstructureNotify on the root window, checks the request, flushes, and
  interns the marker atom. Then, while the shutdown flag reads true, the loop
  drains the event queue without blocking and sleeps once.
- **Dispatcher** (`process_event` and its two helpers). A CreateNotify
  invokes the callback when the new window lists the marker. A
  PropertyNotify invokes it when the changed property is the marker. Every
  other event is ignored.
- **Pid resolution** (`get_cardinal`, `get_window_pid`). It tries
  `_NET_WM_PID` first. If that fails, it tries the X-Resource client-id query.
- **Errors** (`errors.rs`). A three-variant error, its conversions from
  library errors, and `Display`.

The X11 connection is an oracle, `Protocol.Server`. It is a record of total
functions from each request to its reply. Any reply may fail when the
request is sent or when the reply is awaited (`Reply<T>`). The event queue is
a sequence of poll results, consumed by `Connection.PollForEvent`. An
exhausted queue polls as "no event".

The shutdown flag is a `RunFlag` whose loads read a finite script of values.
An exhausted script reads false, so the loop always terminates.

The callback is a total function from a window to success or failure. Each
invocation appends `Invoked(window, failed)` to a ghost log on the
connection. Each sleep appends `Slept`.

The loop is specified on values by `Watch.Setup`, `Watch.Drain` and
`Watch.Loop`. `Connection.MonitorNewWindows` and
`Connection.DrainThenSleep` run it step by step and are proved against that
specification. The lemmas in module Watch state what the loop promises.

Files:

- `wrappers.dfy`: Option and Result.
- `errors.dfy`: the Errors module (`src/errors.rs`).
- `protocol.dfy`: the oracle's data types and the `?` conversions.
- `dispatch.dfy`: the dispatcher's decisions and the log of actions.
- `pid.dfy`: pid resolution.
- `watch.dfy`: the loop's specification, its lemmas and the classes.

Constants come from the code and the X11 protocol:

- the event mask is PropertyChange (bit 22) plus SubstructureNotify (bit 19);
- `CARDINAL` is atom 6;
- the GetProperty window is offset 0, length 1024;
- `LocalClientPID` is mask bit 1 (value 2) of the X-Resource extension;
- the client-id query is `{client: window, mask: 0}`;
- the error messages are `"Invalid property format"`,
  `"Cannot iterate u32 values"` and `"Empty response"`.

## Model

| member | source | states |
|---|---|---|
| `Errors.FromReplyError` | src/errors.rs:12-19 | A reply error keeps its variant (protocol error or connection error) in both directions, and keeps the wrapped value. |
| `Errors.FromConnectionError` | src/errors.rs:21-25 | A transport failure becomes the ConnectionError variant, with its value unchanged. |
| `Errors.FromProtocolError` | src/errors.rs:27-31 | A server error becomes the X11Error variant, with its value unchanged. |
| `Errors.Display` | src/errors.rs:33-41 | A message error shows as the message in parentheses, exactly. The other two variants show as the library formatters show their payload. |
| `Errors.ConversionsNeverOther` | src/errors.rs:12-31 | No conversion produces `Other`. |
| `Errors.ConversionsInjective` | src/errors.rs:12-19 | Distinct reply errors convert to distinct errors. |
| `Errors.ReplyConversionFactors` | src/errors.rs:12-31 | Converting a reply error gives the same result as converting the error it wraps. |
| `Errors.DisplayOtherInjective` | src/errors.rs:38 | Two message errors display alike only when their messages are equal. |
| `Protocol.Lift` | src/x11.rs:168-170 | `request?.reply()?` into the watcher's error: an answer passes through. A send failure converts as a connection error, a reply failure converts as a reply error, and neither becomes `Other`. |
| `Protocol.Boxed` | src/x11.rs:37-44 | The same two stages into a boxed error keep the library's error as it is. |
| `Dispatch.CreateCalls` | src/x11.rs:122-146 | A creation invokes at most once, for the created window. It invokes exactly when the property list was read and contains the marker. |
| `Dispatch.PropertyCalls` | src/x11.rs:148-161 | A property change invokes at most once, for its window, exactly when the changed atom is the marker. |
| `Dispatch.EventCalls` | src/x11.rs:105-120 | An event invokes at most once. Window w is invoked exactly when the event qualifies for w: w was created and lists the marker, or w's marker property changed. Other kinds never qualify. |
| `Dispatch.Invocations` | src/x11.rs:139-140 | Each window is invoked once, in order, and whether the callback failed is recorded. |
| `Dispatch.InvocationsIgnoreOutcome` | src/x11.rs:139-141 | Which windows are invoked does not depend on the callback's results. |
| `Dispatch.CreateDispatchedOnce` | src/x11.rs:133-142 | A created window that lists the marker one or more times is invoked exactly once. |
| `Dispatch.CreateListFailureDropped` | src/x11.rs:133-136 | If the property-list request or its reply fails, nothing is invoked and no error surfaces. |
| `Pid.GetCardinal` | src/x11.rs:163-184 | It returns the first 32-bit value exactly when the reply has format 32 and at least one value. Otherwise it returns the first failing check's own message, or the request's or reply's failure converted. |
| `Pid.CardinalErrorsDistinguishCause` | src/x11.rs:172-183 | Each message names one cause, in both directions. A non-`Other` error means exactly that the request or reply failed. |
| `Pid.FirstLocalPid` | src/x11.rs:84-92 | It returns the first value of the first record whose mask is exactly LocalClientPID and whose value is non-empty. It returns nothing exactly when no record qualifies. |
| `Pid.GetWindowPid` | src/x11.rs:71-102 | Interning errors propagate. A primary pid is returned as is. If the primary lookup fails, a failed query propagates its own error, a qualifying record's pid is returned, and otherwise the primary error is returned. |
| `Pid.PrimaryShortCircuits` | src/x11.rs:75-77 | When the primary lookup succeeds, the answer to the client-id query cannot affect the result: it is never consulted. |
| `Pid.FallbackAsksOnlyForWindow` | src/x11.rs:78-83 | The client-id query's answer matters only through the one query `{client: window, mask: 0}`. |
| `Pid.ResolvedPidHasSource` | src/x11.rs:73-101 | Every resolved pid is the first value of a well-formed `_NET_WM_PID`, or, when that lookup failed, the first value of the first qualifying fallback record. |
| `Pid.BothFailKeepsPrimaryError` | src/x11.rs:94-99 | When there is no primary pid and no qualifying record, the result is the primary lookup's own error. |
| `Pid.WrongFormatFallsBack` | src/x11.rs:172-174 | A `_NET_WM_PID` reply in format 8 makes the resolver fall back and return the LocalClientPID record's value. |
| `Watch.Setup` | src/x11.rs:33-44 | Setup succeeds exactly when subscribe-and-check, flush and interning all succeed, and it yields the marker atom. Otherwise the first failing stage's error is returned, boxed unchanged. |
| `Watch.Drain` | src/x11.rs:47-65 | What a drain leaves unread is a suffix of the queue. The drain consumes results only from the front, and at least one from a non-empty queue. |
| `Watch.Loop` | src/x11.rs:46-66 | The outer loop reads the queue only from the front: what it leaves unread is a suffix of the queue. How many cycles it runs and which flag values it consumes are given by `OneSleepPerCycle`. |
| `Watch.LeadingTrue` | src/x11.rs:46 | The loop passes exactly the reads before the first false one. All of them are true, and the next read, if there is one, is false. |
| `Watch.DrainIsExhaustive` | src/x11.rs:47-65 | All events queued before the first empty or failed poll are dispatched, in queue order. That poll is consumed, and nothing after it is read. |
| `Watch.PollErrorEndsDrainLikeNoEvent` | src/x11.rs:49-59 | A failed poll ends a drain exactly as an empty poll does. |
| `Watch.OneSleepPerCycle` | src/x11.rs:46-66 | The loop sleeps once for each flag read that saw true, and its reads stop at the first false read: what is left unread is exactly the values after it. So the flag is read only at the start and after each sleep. |
| `Watch.ShutdownWithinOneCycle` | src/x11.rs:46-66 | If the k-th flag read sees false, the loop has slept at most k times, whatever is queued. |
| `Watch.StopBeforeFirstPoll` | src/x11.rs:46-68 | When the first flag read sees false, nothing is polled or invoked. |
| `Watch.DrainFollowsQueue` | src/x11.rs:47-65 | A drain reads a prefix of the queue. It invokes exactly the windows that the events in that prefix qualify for, in order. |
| `Watch.LoopFollowsQueue` | src/x11.rs:46-66 | Over all cycles, the loop reads a prefix of the queue. Each qualifying event in it invokes the callback exactly once, in queue order, and nothing else invokes it. |
| `Watch.EveryInvocationQualifies` | src/x11.rs:46-66 | Every invoked window comes from a read event: a creation of a window that lists the marker, or a change of the marker itself. |
| `Watch.CallbackFailuresOnlyLogged` | src/x11.rs:51-52 | What the loop reads, which flags it consumes, which windows it invokes and when it sleeps do not depend on callback failures. |
| `Watch.RunFlag.Load` | src/x11.rs:46 | A load returns the next scripted value and consumes it. An exhausted script reads false. |
| `Watch.Connection.PollForEvent` | src/x11.rs:48 | A poll returns the head of the queue and removes it. An exhausted queue gives no event. |
| `Watch.Connection.Sleep` | src/x11.rs:62 | A sleep appends one sleep step to the log. |
| `Watch.Connection.Invoke` | src/x11.rs:139-140 | An invocation logs the window and whether the callback failed, and nothing else. |
| `Watch.Connection.ProcessCreateEvent` | src/x11.rs:122-146 | The property scan with early break logs the invocations `CreateCalls` prescribes: one for a listed marker, however often it occurs. |
| `Watch.Connection.ProcessPropertyEvent` | src/x11.rs:148-161 | It logs the invocations `PropertyCalls` prescribes. |
| `Watch.Connection.ProcessEvent` | src/x11.rs:105-120 | It logs the invocations `EventCalls` prescribes, and leaves the queue untouched. |
| `Watch.Connection.DrainThenSleep` | src/x11.rs:47-65 | The inner loop logs `Drain`'s actions and then one sleep, and leaves `Drain`'s unread suffix as the queue. |
| `Watch.Connection.MonitorNewWindows` | src/x11.rs:27-69 | If a setup stage fails, its error is returned before the flag is read or the queue polled, and nothing changes. Otherwise the result is Ok, and the log, the queue and the flag script end as `Loop` specifies. |

## Notes on the code

- `get_window_pid` returns the primary lookup's error itself, not a new
  error wrapping it (src/x11.rs:98). The model does the same.
- A failing client-id query, as a request or as a reply, returns the
  query's own error. The primary error is then dropped (src/x11.rs:83).
- Every failure of `get_cardinal` triggers the fallback: a missing property, a
  format other than 32, no 32-bit values, an empty value, or a failed request
  (src/x11.rs:76-78). `GetWindowPid` states this.
- Setup runs in a fixed order (src/x11.rs:37-44). It subscribes on the root
  window and checks the request, then flushes, and only then interns the
  marker atom. The first failure ends `monitor_new_windows` with that
  error. `Watch.Setup` states this.
- A failed poll is swallowed (src/x11.rs:55-58). It ends the drain like an
  empty poll, and the loop goes on to sleep and read the flag again. Only
  setup can make `monitor_new_windows` return an error.
- Only the root window selects PropertyChange (src/x11.rs:35-38), so every
  PropertyNotify the server delivers names the root window. When the marker
  property changes on the root window, `process_property_event` hands the
  root window to the callback (src/x11.rs:157-158). No client window is
  ever dispatched that way.

## Left out

- Process wiring in `src/main.rs` is not part of this model: the Ctrl-C handler, the connection call and the callback closure.
- The D-Bus call in `src/gamemode.rs` is a foreign call and is not part of this model.
- X11 wire encoding and decoding are oracle inputs, and so are x11rb internals: `value32`, `check()`, `reply()` and `setup().roots`.
- The oracle is fixed for one run. A reply is a function of its request, so a window's property list cannot change between two queries in one run. Only the event queue changes over time.
- `Watch.Connection.MonitorNewWindows` requires `screenNum < |server.roots|`. The source indexes `setup().roots` directly and panics when the index is out of range.
- `thread::sleep`'s 50 ms duration is a `Slept` step, because timing is not modelled.
- The atomic memory ordering of the flag is a scripted sequence of reads, because concurrency is not modelled.
- `eprintln!` diagnostics and `log_if_failed` are not modelled; the only trace is the `failed` flag of `Invoked`. This covers "Failed to wait for event", the dumps of the property and client-id replies, and callback errors.
- `Errors.Display` delegates the `ConnectionError` and `X11Error` variants to formatter parameters, because their formatters are foreign.
- The library's `ConnectionError` and protocol `Error` values are opaque codes here, because their structure belongs to x11rb.
- The callback's own effects are not modelled, because the callback lies outside the core. In the source it receives the connection and may issue its own requests.
- The callback is a fixed function of the window, because the callback lies outside the core. So the model cannot express a callback that fails on one call and succeeds on the next for the same window. The real callback, a Rust `Fn`, can do that. A failure is only logged and dispatch goes on (`CallbackFailuresOnlyLogged`, `DrainIgnoresOutcome`), so the stated properties do not depend on the outcomes.
- The event queue is not tied to the subscription. It may hold a PropertyNotify for any window, although in the source only the root window's changes are delivered. Every property is proved for all queues, so it also holds for the queues the server actually delivers.
