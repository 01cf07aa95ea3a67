/**
 * The window server as the watcher sees it. The connection is replaced by an
 * oracle: every request the watcher issues is answered by a total function of
 * the request, and every answer may fail when the request is sent or when its
 * reply is awaited. Only the event queue changes over time; it lives in the
 * connection object of module Watch.
 */
module Protocol {
  import opened Wrappers
  import opened Errors

  newtype u8 = x: int | 0 <= x < 0x100
  newtype u32 = x: int | 0 <= x < 0x1_0000_0000

  /** Server-assigned window and atom identifiers. */
  type Window = u32
  type Atom = u32

  /** The predefined atom naming the CARDINAL property type. */
  const CARDINAL: Atom := 6

  /** Event-mask bits PropertyChange (bit 22) and SubstructureNotify (bit 19). */
  const PROPERTY_CHANGE: u32 := 0x40_0000
  const SUBSTRUCTURE_NOTIFY: u32 := 0x8_0000

  /** The mask the watcher selects on the root window: both bits above (disjoint, so their sum is their union). */
  const WATCH_MASK: u32 := PROPERTY_CHANGE + SUBSTRUCTURE_NOTIFY

  /** The client-id kind "local client process id" of the resource extension (bit 1). */
  const LOCAL_CLIENT_PID: u32 := 2

  datatype CreateNotifyEvent = CreateNotifyEvent(parent: Window, window: Window)

  datatype PropertyNotifyEvent = PropertyNotifyEvent(window: Window, atom: Atom)

  /** An incoming event; every kind the watcher does not handle is `OtherEvent`. */
  datatype Event =
    | CreateNotify(create: CreateNotifyEvent)
    | PropertyNotify(property: PropertyNotifyEvent)
    | OtherEvent(code: u8)

  /** One non-blocking poll: an event, nothing queued, or a read error. */
  datatype PollResult =
    | Polled(event: Event)
    | NoEvent
    | PollFailed(error: Errors.ConnectionError)

  /** The fate of one request: answered, failed to send, or failed while awaiting its reply. */
  datatype Reply<+T> =
    | Replied(value: T)
    | RequestFailed(conn: Errors.ConnectionError)
    | ReplyFailed(err: ReplyError)

  datatype InternAtomRequest = InternAtomRequest(onlyIfExists: bool, name: string)

  datatype GetPropertyRequest = GetPropertyRequest(
    delete: bool, window: Window, property: Atom, propertyType: Atom,
    longOffset: u32, longLength: u32)

  /** A GetProperty reply: its format and, when the library can read them so, its 32-bit values. */
  datatype PropertyReply = PropertyReply(format: u8, value32: Option<seq<u32>>)

  datatype ClientIdSpec = ClientIdSpec(client: u32, mask: u32)

  datatype ClientIdValue = ClientIdValue(spec: ClientIdSpec, value: seq<u32>)

  /** The server's answers to every request the watcher can issue. */
  datatype Server = Server(
    roots: seq<Window>,
    changeWindowAttributes: (Window, u32) -> Reply<()>,
    flush: Option<Errors.ConnectionError>,
    internAtom: InternAtomRequest -> Reply<Atom>,
    listProperties: Window -> Reply<seq<Atom>>,
    getProperty: GetPropertyRequest -> Reply<PropertyReply>,
    queryClientIds: seq<ClientIdSpec> -> Reply<seq<ClientIdValue>>)

  /**
   * `request(..)?.reply()?` in a function returning the watcher's error: a
   * send failure and a reply failure both become an `Error` by the matching
   * conversion; an answer is passed through.
   */
  function Lift<T>(r: Reply<T>): (res: Result<T, Error>)
    ensures res.Ok? <==> r.Replied?
    ensures r.Replied? ==> res.value == r.value
    ensures r.RequestFailed? ==> res.error == FromConnectionError(r.conn)
    ensures r.ReplyFailed? ==> res.error == FromReplyError(r.err)
    ensures res.Err? ==> !res.error.Other?
  {
    match r
    case Replied(v) => Ok(v)
    case RequestFailed(c) => Err(FromConnectionError(c))
    case ReplyFailed(e) => Err(FromReplyError(e))
  }

  /** A library error boxed as it is, as `?` does in a function returning a boxed error. */
  datatype BoxedError =
    | BoxedConnectionError(conn: Errors.ConnectionError)
    | BoxedReplyError(err: ReplyError)

  /** `request(..)?.reply()?` (or `.check()?`) in a function returning a boxed error. */
  function Boxed<T>(r: Reply<T>): (res: Result<T, BoxedError>)
    ensures res.Ok? <==> r.Replied?
    ensures r.Replied? ==> res.value == r.value
    ensures r.RequestFailed? ==> res.error == BoxedConnectionError(r.conn)
    ensures r.ReplyFailed? ==> res.error == BoxedReplyError(r.err)
  {
    match r
    case Replied(v) => Ok(v)
    case RequestFailed(c) => Err(BoxedConnectionError(c))
    case ReplyFailed(e) => Err(BoxedReplyError(e))
  }
}
