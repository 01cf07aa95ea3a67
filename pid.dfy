/**
 * Process-id resolution (get_cardinal and get_window_pid in src/x11.rs): the
 * window's _NET_WM_PID property first, then the resource extension's
 * client-id query as a fallback.
 */
module Pid {
  import opened Wrappers
  import opened Errors
  import opened Protocol

  const INVALID_FORMAT: string := "Invalid property format"
  const NOT_U32: string := "Cannot iterate u32 values"
  const EMPTY_RESPONSE: string := "Empty response"

  /** The GetProperty request get_cardinal sends: no delete, type CARDINAL, offset 0, at most 1024 words. */
  function CardinalRequest(prop: Atom, window: Window): GetPropertyRequest {
    GetPropertyRequest(false, window, prop, CARDINAL, 0, 1024)
  }

  /** A property reply that holds a cardinal: format 32 and at least one 32-bit value. */
  predicate HoldsCardinal(p: PropertyReply) {
    p.format == 32 && p.value32.Some? && |p.value32.value| > 0
  }

  /**
   * get_cardinal: the first 32-bit value of the property, when the reply has
   * format 32 and a value; otherwise an error naming the first check that
   * failed, or the request's own failure converted.
   */
  function GetCardinal(server: Server, prop: Atom, window: Window): (r: Result<u32, Error>)
    ensures var reply := server.getProperty(CardinalRequest(prop, window));
      && (r.Ok? <==> reply.Replied? && HoldsCardinal(reply.value))
      && (r.Ok? ==> r.value == reply.value.value32.value[0])
      && (reply.RequestFailed? ==> r == Err(FromConnectionError(reply.conn)))
      && (reply.ReplyFailed? ==> r == Err(FromReplyError(reply.err)))
      && (reply.Replied? && reply.value.format != 32 ==> r == Err(Other(INVALID_FORMAT)))
      && (reply.Replied? && reply.value.format == 32 && reply.value.value32.None? ==> r == Err(Other(NOT_U32)))
      && (reply.Replied? && reply.value.format == 32 && reply.value.value32 == Some([]) ==> r == Err(Other(EMPTY_RESPONSE)))
  {
    match Lift(server.getProperty(CardinalRequest(prop, window)))
    case Err(e) => Err(e)
    case Ok(p) =>
      if p.format != 32 then Err(Other(INVALID_FORMAT))
      else match p.value32
        case Some(values) => if values != [] then Ok(values[0]) else Err(Other(EMPTY_RESPONSE))
        case None => Err(Other(NOT_U32))
  }

  /** Each of get_cardinal's own errors names exactly one cause. */
  lemma CardinalErrorsDistinguishCause(server: Server, prop: Atom, window: Window)
    ensures var reply := server.getProperty(CardinalRequest(prop, window));
      var r := GetCardinal(server, prop, window);
      && (r == Err(Other(INVALID_FORMAT)) <==> reply.Replied? && reply.value.format != 32)
      && (r == Err(Other(NOT_U32)) <==> reply.Replied? && reply.value.format == 32 && reply.value.value32.None?)
      && (r == Err(Other(EMPTY_RESPONSE)) <==> reply.Replied? && reply.value.format == 32 && reply.value.value32 == Some([]))
      && (r.Err? && !r.error.Other? <==> !reply.Replied?)
  {
  }

  /** A client-id record giving the local process id: the LocalClientPID kind exactly, and a value. */
  predicate IsLocalPid(v: ClientIdValue) {
    v.spec.mask == LOCAL_CLIENT_PID && v.value != []
  }

  /** The first value of the first record giving the local process id, if any (the filter/map/next chain). */
  function FirstLocalPid(ids: seq<ClientIdValue>): (r: Option<u32>)
    ensures r.None? <==> forall i :: 0 <= i < |ids| ==> !IsLocalPid(ids[i])
    ensures r.Some? ==> exists i :: 0 <= i < |ids| && IsLocalPid(ids[i]) && ids[i].value[0] == r.value &&
                                   forall j :: 0 <= j < i ==> !IsLocalPid(ids[j])
  {
    if ids == [] then None
    else if IsLocalPid(ids[0]) then Some(ids[0].value[0])
    else
      var r := FirstLocalPid(ids[1..]);
      assert forall i :: 1 <= i < |ids| ==> ids[i] == ids[1..][i - 1];
      r
  }

  /** The request interning the pid property's name. */
  const PID_ATOM_REQUEST: InternAtomRequest := InternAtomRequest(false, "_NET_WM_PID")

  /** The fallback query: the window as client, no mask restriction. */
  function ClientIdQuery(window: Window): seq<ClientIdSpec> {
    [ClientIdSpec(window, 0)]
  }

  /**
   * get_window_pid. Interning the pid property's name must succeed; then the
   * primary lookup's pid wins, and only when it fails is the client-id query
   * issued; when that reply holds no local-pid record, the primary error is
   * returned.
   */
  function GetWindowPid(server: Server, window: Window): (r: Result<u32, Error>)
    ensures var atom := Lift(server.internAtom(PID_ATOM_REQUEST));
      atom.Err? ==> r == Err(atom.error)
    ensures var atom := Lift(server.internAtom(PID_ATOM_REQUEST));
      atom.Ok? && GetCardinal(server, atom.value, window).Ok? ==> r == GetCardinal(server, atom.value, window)
    ensures var atom := Lift(server.internAtom(PID_ATOM_REQUEST));
      var query := Lift(server.queryClientIds(ClientIdQuery(window)));
      atom.Ok? && GetCardinal(server, atom.value, window).Err? ==>
        && (query.Err? ==> r == Err(query.error))
        && (query.Ok? && FirstLocalPid(query.value).Some? ==> r == Ok(FirstLocalPid(query.value).value))
        && (query.Ok? && FirstLocalPid(query.value).None? ==> r == GetCardinal(server, atom.value, window))
  {
    match Lift(server.internAtom(PID_ATOM_REQUEST))
    case Err(e) => Err(e)
    case Ok(pidAtom) =>
      match GetCardinal(server, pidAtom, window)
      case Ok(pid) => Ok(pid)
      case Err(e) =>
        match Lift(server.queryClientIds(ClientIdQuery(window)))
        case Err(qe) => Err(qe)
        case Ok(ids) =>
          match FirstLocalPid(ids)
          case Some(pid) => Ok(pid)
          case None => Err(e)
  }

  /** Servers that agree on everything except their answers to client-id queries. */
  ghost predicate SameButClientIds(s1: Server, s2: Server) {
    s1.(queryClientIds := s2.queryClientIds) == s2
  }

  /** When the primary lookup succeeds, the client-id query is never consulted. */
  lemma PrimaryShortCircuits(s1: Server, s2: Server, window: Window)
    requires SameButClientIds(s1, s2)
    requires var atom := Lift(s1.internAtom(PID_ATOM_REQUEST));
      atom.Ok? && GetCardinal(s1, atom.value, window).Ok?
    ensures GetWindowPid(s1, window) == GetWindowPid(s2, window)
  {
  }

  /**
   * When the primary lookup fails, the result is decided by the answer to
   * exactly one client-id query: the window as client, mask 0.
   */
  lemma FallbackAsksOnlyForWindow(s1: Server, s2: Server, window: Window)
    requires SameButClientIds(s1, s2)
    requires s1.queryClientIds(ClientIdQuery(window)) == s2.queryClientIds(ClientIdQuery(window))
    ensures GetWindowPid(s1, window) == GetWindowPid(s2, window)
  {
  }

  /**
   * Every pid returned names its source: the first value of a well-formed
   * _NET_WM_PID property, or the first value of a local-pid record in the
   * fallback reply preceded by no other such record.
   */
  lemma ResolvedPidHasSource(server: Server, window: Window)
    requires GetWindowPid(server, window).Ok?
    ensures var pid := GetWindowPid(server, window).value;
      var atom := server.internAtom(PID_ATOM_REQUEST);
      var query := server.queryClientIds(ClientIdQuery(window));
      && atom.Replied?
      && ((GetCardinal(server, atom.value, window).Ok? &&
           server.getProperty(CardinalRequest(atom.value, window)).value.value32.value[0] == pid)
          || (GetCardinal(server, atom.value, window).Err? && query.Replied? &&
              exists i :: 0 <= i < |query.value| && IsLocalPid(query.value[i]) && query.value[i].value[0] == pid &&
                          forall j :: 0 <= j < i ==> !IsLocalPid(query.value[j])))
  {
  }

  /**
   * When neither source yields a pid, the error returned is the primary
   * lookup's, not a new one.
   */
  lemma BothFailKeepsPrimaryError(server: Server, window: Window)
    requires var atom := server.internAtom(PID_ATOM_REQUEST);
      var query := server.queryClientIds(ClientIdQuery(window));
      && atom.Replied? && GetCardinal(server, atom.value, window).Err?
      && query.Replied? && forall i :: 0 <= i < |query.value| ==> !IsLocalPid(query.value[i])
    ensures GetWindowPid(server, window) == GetCardinal(server, server.internAtom(PID_ATOM_REQUEST).value, window)
  {
  }

  /**
   * A pid property in format 8 is not a failure of the resolver: it falls
   * back and returns the local-pid record's value.
   */
  lemma WrongFormatFallsBack(server: Server, window: Window, pid: u32)
    requires server.internAtom(PID_ATOM_REQUEST).Replied?
    requires var reply := server.getProperty(CardinalRequest(server.internAtom(PID_ATOM_REQUEST).value, window));
      reply.Replied? && reply.value.format == 8
    requires server.queryClientIds(ClientIdQuery(window)) == Replied([ClientIdValue(ClientIdSpec(window, LOCAL_CLIENT_PID), [pid])])
    ensures GetWindowPid(server, window) == Ok(pid)
  {
  }
}
