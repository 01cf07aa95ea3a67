/**
 * The shared error type of the window watcher (src/errors.rs): a three-way
 * enum, the conversions the `?` operator applies to library errors, and the
 * text shown for a message-carrying error.
 *
 * The library's own error values are opaque here: a transport failure and a
 * protocol error each carry only an identifying code.
 */
module Errors {

  /** A transport-level failure of the connection to the server. */
  datatype ConnectionError = ConnectionError(code: nat)

  /** An error the server reported for one request. */
  datatype ProtocolError = ProtocolError(code: nat)

  /** What waiting for a reply can fail with. */
  datatype ReplyError =
    | X11Error(x11: ProtocolError)
    | ConnectionError(conn: ConnectionError)

  /** The watcher's error: a library failure, or a fixed message of its own. */
  datatype Error =
    | ConnectionError(conn: ConnectionError)
    | X11Error(x11: ProtocolError)
    | Other(msg: string)

  /** `From<ReplyError>`: keeps the variant and the wrapped value. */
  function FromReplyError(e: ReplyError): (r: Error)
    ensures r.X11Error? <==> e.X11Error?
    ensures r.ConnectionError? <==> e.ConnectionError?
    ensures e.X11Error? ==> r.x11 == e.x11
    ensures e.ConnectionError? ==> r.conn == e.conn
  {
    match e
    case X11Error(x) => Error.X11Error(x)
    case ConnectionError(c) => Error.ConnectionError(c)
  }

  /** `From<ConnectionError>`: a transport failure stays a transport failure. */
  function FromConnectionError(c: ConnectionError): (r: Error)
    ensures r.ConnectionError? && r.conn == c
  {
    Error.ConnectionError(c)
  }

  /** `From<protocol::Error>`: a server error stays a server error. */
  function FromProtocolError(x: ProtocolError): (r: Error)
    ensures r.X11Error? && r.x11 == x
  {
    Error.X11Error(x)
  }

  /**
   * `Display`. The first two variants delegate to the library's formatters,
   * which are parameters here; a message is shown in parentheses.
   */
  function Display(e: Error, showConnection: ConnectionError -> string,
                   debugProtocol: ProtocolError -> string): (s: string)
    ensures e.Other? ==> |s| == |e.msg| + 2 && s[0] == '(' && s[|s| - 1] == ')' && s[1..|s| - 1] == e.msg
    ensures e.ConnectionError? ==> s == showConnection(e.conn)
    ensures e.X11Error? ==> s == debugProtocol(e.x11)
  {
    match e
    case ConnectionError(c) => showConnection(c)
    case X11Error(x) => debugProtocol(x)
    case Other(msg) => "(" + msg + ")"
  }

  /** No conversion produces `Other`: that variant only comes from explicit construction. */
  lemma ConversionsNeverOther(e: ReplyError, c: ConnectionError, x: ProtocolError)
    ensures !FromReplyError(e).Other?
    ensures !FromConnectionError(c).Other?
    ensures !FromProtocolError(x).Other?
  {
  }

  /** The conversions lose nothing: distinct library errors stay distinct. */
  lemma ConversionsInjective(e1: ReplyError, e2: ReplyError)
    ensures FromReplyError(e1) == FromReplyError(e2) ==> e1 == e2
  {
  }

  /** Converting a reply error agrees with converting what it wraps. */
  lemma ReplyConversionFactors(e: ReplyError)
    ensures e.X11Error? ==> FromReplyError(e) == FromProtocolError(e.x11)
    ensures e.ConnectionError? ==> FromReplyError(e) == FromConnectionError(e.conn)
  {
  }

  /** Two messages display alike only if they are the same message. */
  lemma DisplayOtherInjective(m1: string, m2: string, f: ConnectionError -> string, g: ProtocolError -> string)
    ensures Display(Other(m1), f, g) == Display(Other(m2), f, g) ==> m1 == m2
  {
  }
}
