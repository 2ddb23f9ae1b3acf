/**
 * The chat component's synchronisation state: the room store, the message
 * store, the active room, the realtime token, the composer input and the two
 * websocket refs, together with a log of what the component asked of the
 * outside world (room-list fetches, history fetches, socket opens and closes,
 * transmitted frames). Each handler of the component is a method; the stores
 * change through the pure folds of ChannelEvents.
 *
 * Asynchronous fetches are split in two: the handler that starts a fetch
 * records the request, and a `Complete...` method applies the response (or
 * its failure) whenever it arrives.
 */
module Chat {
  import opened ChatTypes
  import opened JsText
  import opened RoomOrder
  import opened ChannelEvents

  /** What a socket is opened for: the identity-wide lobby, or one room. */
  datatype Scope = Lobby | RoomOf(roomId: string)

  /** A socket's scope and the token it was opened with; together they make its address. */
  datatype Endpoint = Endpoint(scope: Scope, token: string)

  function Url(e: Endpoint): string
  {
    match e.scope
    case Lobby => LobbyUrl(e.token)
    case RoomOf(id) => RoomUrl(id, e.token)
  }

  /** Distinct endpoints have distinct addresses, as long as room ids hold no `?`. */
  lemma UrlIdentifiesEndpoint(a: Endpoint, b: Endpoint)
    requires a.scope.RoomOf? ==> '?' !in a.scope.roomId
    requires b.scope.RoomOf? ==> '?' !in b.scope.roomId
    requires Url(a) == Url(b)
    ensures a == b
  {
    match (a.scope, b.scope)
    case (RoomOf(x), RoomOf(y)) =>
      RoomUrlIdentifiesRoom(x, a.token, y, b.token);
    case (RoomOf(x), Lobby) =>
      RoomAndLobbyUrlsDiffer(x, a.token, b.token);
      assert false;
    case (Lobby, RoomOf(y)) =>
      RoomAndLobbyUrlsDiffer(y, b.token, a.token);
      assert false;
    case (Lobby, Lobby) =>
      var n := |WS_BASE_URL + "/rooms?token="|;
      assert a.token == Url(a)[n..] == Url(b)[n..] == b.token;
  }

  /**
   * A websocket object as a ref holds it. `live` turns false once either side
   * closed it; the ref keeps pointing at it after that.
   */
  datatype Socket = Socket(endpoint: Endpoint, live: bool)

  /** Socket lifecycle as the browser sees it: `new WebSocket(url)`, `close()`, or a close by the peer. */
  datatype SocketEvent =
    | Opened(endpoint: Endpoint)
    | Closed(endpoint: Endpoint)
    | ClosedByPeer(endpoint: Endpoint, code: int)

  /** A frame transmitted on the socket opened at `endpoint`. */
  datatype Frame = Frame(endpoint: Endpoint, request: SendRequest)

  /** How many sockets at endpoint `e` the events of `log` leave open. */
  ghost function OpenCount(log: seq<SocketEvent>, e: Endpoint): int
  {
    if |log| == 0 then 0
    else
      var before := OpenCount(log[..|log| - 1], e);
      var last := log[|log| - 1];
      if last.endpoint != e then before
      else if last.Opened? then before + 1
      else if before > 0 then before - 1
      else 0
  }

  lemma OpenCountAppend(log: seq<SocketEvent>, ev: SocketEvent, e: Endpoint)
    ensures OpenCount(log + [ev], e) ==
      if ev.endpoint != e then OpenCount(log, e)
      else if ev.Opened? then OpenCount(log, e) + 1
      else if OpenCount(log, e) > 0 then OpenCount(log, e) - 1
      else 0
  {
    assert (log + [ev])[..|log|] == log;
  }

  /** 1 when the ref holds a socket at `e` that is still open, 0 otherwise. */
  ghost function Holds(h: Option<Socket>, e: Endpoint): int
  {
    if h.Some? && h.value.live && h.value.endpoint == e then 1 else 0
  }

  /** `ref.current?.close()`: a close call on whatever socket the ref holds. */
  function CloseCall(h: Option<Socket>): seq<SocketEvent>
  {
    if h.Some? then [Closed(h.value.endpoint)] else []
  }

  /**
   * The cleanup React runs when an effect re-runs: the `close()` call above if
   * the previous run got past its guard and so returned a cleanup, otherwise
   * nothing.
   */
  function Cleanup(registered: bool, h: Option<Socket>): seq<SocketEvent>
  {
    if registered then CloseCall(h) else []
  }

  function AfterClose(h: Option<Socket>): Option<Socket>
  {
    if h.Some? then Some(h.value.(live := false)) else None
  }

  /** `temp-${Date.now()}` */
  function OptimisticId(now: nat): string
  {
    "temp-" + DecimalString(now)
  }

  /** Two optimistic messages sent at different milliseconds get different ids. */
  lemma OptimisticIdsDistinct(a: nat, b: nat)
    requires OptimisticId(a) == OptimisticId(b)
    ensures a == b
  {
    assert OptimisticId(a)[5..] == DecimalString(a);
    assert OptimisticId(b)[5..] == DecimalString(b);
    DecimalStringInjective(a, b);
  }

  /** The locally built message a send appends before the server has seen it. */
  function OptimisticMessage(roomId: string, content: string, now: nat): Message
  {
    Message(OptimisticId(now), roomId, Me, content, now)
  }

  /** JavaScript truthiness of a `string | null` state value: set, and not the empty string. */
  predicate Truthy(v: Option<string>)
  {
    v.Some? && v.value != ""
  }

  /** The guard of `handleSendMessage`: non-blank input, a socket in the room ref, a truthy active room. */
  predicate SendAllowed(input: string, roomWs: Option<Socket>, activeRoomId: Option<string>)
  {
    Trim(input) != [] && roomWs.Some? && Truthy(activeRoomId)
  }

  /** Input made only of whitespace (or nothing) is never sent. */
  lemma BlankInputIsNotSent(input: string, roomWs: Option<Socket>, activeRoomId: Option<string>)
    requires AllWhitespace(input)
    ensures !SendAllowed(input, roomWs, activeRoomId)
  {
    TrimEmptyIffBlank(input);
  }

  /** With a socket and an active room, a send goes ahead exactly when the input has a non-blank character. */
  lemma SendAllowedIffNotBlank(input: string, roomWs: Option<Socket>, activeRoomId: Option<string>)
    requires roomWs.Some? && Truthy(activeRoomId)
    ensures SendAllowed(input, roomWs, activeRoomId) <==> exists i :: 0 <= i < |input| && !IsJsWhitespace(input[i])
  {
    TrimEmptyIffBlank(input);
  }

  /** The room effect's setup: a socket for the active room, only when token and room are both truthy. */
  function RoomSetup(activeRoomId: Option<string>, wsToken: Option<string>): seq<SocketEvent>
  {
    if Truthy(wsToken) && Truthy(activeRoomId) then [Opened(Endpoint(RoomOf(activeRoomId.value), wsToken.value))] else []
  }

  /** The lobby effect's setup: a lobby socket, only when the token is truthy. */
  function LobbySetup(wsToken: Option<string>): seq<SocketEvent>
  {
    if Truthy(wsToken) then [Opened(Endpoint(Lobby, wsToken.value))] else []
  }

  /** What a ref holds after a cleanup and then a setup that may or may not open a socket. */
  function AfterRerun(h: Option<Socket>, setup: seq<SocketEvent>): Option<Socket>
  {
    if |setup| == 1 then Some(Socket(setup[0].endpoint, true)) else AfterClose(h)
  }

  class ChatInterface {
    var rooms: seq<Room>
    var activeRoomId: Option<string>
    var messages: seq<Message>
    var wsToken: Option<string>
    var input: string
    var lobbyWs: Option<Socket>
    var roomWs: Option<Socket>

    // What the component has asked of the outside world, oldest first.
    var roomListRequests: nat
    var historyRequests: seq<string>
    var sent: seq<Frame>
    var socketLog: seq<SocketEvent>

    /**
     * The sockets the log leaves open are exactly the live ones the two refs
     * hold, and the room ref only ever holds room sockets, the lobby ref lobby
     * sockets.
     */
    ghost predicate SocketsTracked()
      reads this`socketLog, this`roomWs, this`lobbyWs
    {
      && (forall e :: OpenCount(socketLog, e) == Holds(roomWs, e) + Holds(lobbyWs, e))
      && (roomWs.Some? ==> roomWs.value.endpoint.scope.RoomOf?)
      && (lobbyWs.Some? ==> lobbyWs.value.endpoint.scope.Lobby?)
    }

    /**
     * With a truthy token and active room, the room ref holds the socket
     * opened for them (possibly closed since by the server); a live socket in
     * the room ref is always that one. Likewise the lobby ref and the token.
     * A ref is never reset to null, so after a switch to an empty token or
     * room id it keeps an old, closed socket.
     */
    ghost predicate Valid()
      reads this`socketLog, this`roomWs, this`lobbyWs, this`wsToken, this`activeRoomId
    {
      && SocketsTracked()
      && (Truthy(wsToken) && Truthy(activeRoomId) ==>
            roomWs.Some? && roomWs.value.endpoint == Endpoint(RoomOf(activeRoomId.value), wsToken.value))
      && (roomWs.Some? && roomWs.value.live ==>
            Truthy(wsToken) && Truthy(activeRoomId) &&
            roomWs.value.endpoint == Endpoint(RoomOf(activeRoomId.value), wsToken.value))
      && (Truthy(wsToken) ==> lobbyWs.Some? && lobbyWs.value.endpoint == Endpoint(Lobby, wsToken.value))
      && (lobbyWs.Some? && lobbyWs.value.live ==>
            Truthy(wsToken) && lobbyWs.value.endpoint == Endpoint(Lobby, wsToken.value))
    }

    /** Mounting: empty stores, no token, and the mount effect's one room-list fetch. */
    constructor ()
      ensures Valid()
      ensures rooms == [] && activeRoomId == None && messages == [] && wsToken == None && input == ""
      ensures roomWs == None && lobbyWs == None
      ensures roomListRequests == 1 && historyRequests == [] && sent == [] && socketLog == []
    {
      rooms, activeRoomId, messages, wsToken, input := [], None, [], None, "";
      roomWs, lobbyWs := None, None;
      roomListRequests, historyRequests, sent, socketLog := 1, [], [], [];
    }

    /**
     * At most two sockets are open, each once: the lobby's for the current
     * token and the active room's for the current token. In particular no two
     * room sockets are ever open together, and none is open for a room that
     * is no longer active or with a token that was replaced.
     */
    lemma LiveChannelsAreCurrent()
      requires Valid()
      ensures forall e :: OpenCount(socketLog, e) != 0 ==>
        Truthy(wsToken) &&
        (e == Endpoint(Lobby, wsToken.value) ||
         (Truthy(activeRoomId) && e == Endpoint(RoomOf(activeRoomId.value), wsToken.value)))
      ensures forall e :: 0 <= OpenCount(socketLog, e) <= 1
    {
    }

    /** The room effect's cleanup, `roomWs.current?.close()`. */
    method CloseRoomSocket()
      requires SocketsTracked()
      modifies this`roomWs, this`socketLog
      ensures SocketsTracked()
      ensures roomWs == AfterClose(old(roomWs))
      ensures socketLog == old(socketLog) + CloseCall(old(roomWs))
    {
      if roomWs.Some? {
        var e := roomWs.value.endpoint;
        forall x ensures OpenCount(socketLog + [Closed(e)], x) == OpenCount(socketLog, x) - (if x == e && OpenCount(socketLog, x) > 0 then 1 else 0) {
          OpenCountAppend(socketLog, Closed(e), x);
        }
        socketLog := socketLog + [Closed(e)];
        roomWs := Some(roomWs.value.(live := false));
      }
    }

    /** The lobby effect's cleanup, `lobbyWs.current?.close()`. */
    method CloseLobbySocket()
      requires SocketsTracked()
      modifies this`lobbyWs, this`socketLog
      ensures SocketsTracked()
      ensures lobbyWs == AfterClose(old(lobbyWs))
      ensures socketLog == old(socketLog) + CloseCall(old(lobbyWs))
    {
      if lobbyWs.Some? {
        var e := lobbyWs.value.endpoint;
        forall x ensures OpenCount(socketLog + [Closed(e)], x) == OpenCount(socketLog, x) - (if x == e && OpenCount(socketLog, x) > 0 then 1 else 0) {
          OpenCountAppend(socketLog, Closed(e), x);
        }
        socketLog := socketLog + [Closed(e)];
        lobbyWs := Some(lobbyWs.value.(live := false));
      }
    }

    /** The server closes the socket the room ref holds. */
    method DropRoomSocket(code: int)
      requires SocketsTracked() && roomWs.Some? && roomWs.value.live
      modifies this`roomWs, this`socketLog
      ensures SocketsTracked()
      ensures roomWs == AfterClose(old(roomWs))
      ensures socketLog == old(socketLog) + [ClosedByPeer(old(roomWs).value.endpoint, code)]
    {
      var e := roomWs.value.endpoint;
      forall x ensures OpenCount(socketLog + [ClosedByPeer(e, code)], x) == OpenCount(socketLog, x) - (if x == e && OpenCount(socketLog, x) > 0 then 1 else 0) {
        OpenCountAppend(socketLog, ClosedByPeer(e, code), x);
      }
      socketLog := socketLog + [ClosedByPeer(e, code)];
      roomWs := Some(roomWs.value.(live := false));
    }

    /** The server closes the socket the lobby ref holds. */
    method DropLobbySocket(code: int)
      requires SocketsTracked() && lobbyWs.Some? && lobbyWs.value.live
      modifies this`lobbyWs, this`socketLog
      ensures SocketsTracked()
      ensures lobbyWs == AfterClose(old(lobbyWs))
      ensures socketLog == old(socketLog) + [ClosedByPeer(old(lobbyWs).value.endpoint, code)]
    {
      var e := lobbyWs.value.endpoint;
      forall x ensures OpenCount(socketLog + [ClosedByPeer(e, code)], x) == OpenCount(socketLog, x) - (if x == e && OpenCount(socketLog, x) > 0 then 1 else 0) {
        OpenCountAppend(socketLog, ClosedByPeer(e, code), x);
      }
      socketLog := socketLog + [ClosedByPeer(e, code)];
      lobbyWs := Some(lobbyWs.value.(live := false));
    }

    /** `roomWs.current = new WebSocket(`${WS_BASE_URL}/room/${roomId}?token=${token}`)` */
    method OpenRoomSocket(roomId: string, token: string)
      requires SocketsTracked() && (roomWs.None? || !roomWs.value.live)
      modifies this`roomWs, this`socketLog
      ensures SocketsTracked()
      ensures roomWs == Some(Socket(Endpoint(RoomOf(roomId), token), true))
      ensures Url(roomWs.value.endpoint) == RoomUrl(roomId, token)
      ensures socketLog == old(socketLog) + [Opened(Endpoint(RoomOf(roomId), token))]
    {
      var e := Endpoint(RoomOf(roomId), token);
      forall x ensures OpenCount(socketLog + [Opened(e)], x) == OpenCount(socketLog, x) + (if x == e then 1 else 0) {
        OpenCountAppend(socketLog, Opened(e), x);
      }
      socketLog := socketLog + [Opened(e)];
      roomWs := Some(Socket(e, true));
    }

    /** `lobbyWs.current = new WebSocket(`${WS_BASE_URL}/rooms?token=${token}`)` */
    method OpenLobbySocket(token: string)
      requires SocketsTracked() && (lobbyWs.None? || !lobbyWs.value.live)
      modifies this`lobbyWs, this`socketLog
      ensures SocketsTracked()
      ensures lobbyWs == Some(Socket(Endpoint(Lobby, token), true))
      ensures Url(lobbyWs.value.endpoint) == LobbyUrl(token)
      ensures socketLog == old(socketLog) + [Opened(Endpoint(Lobby, token))]
    {
      var e := Endpoint(Lobby, token);
      forall x ensures OpenCount(socketLog + [Opened(e)], x) == OpenCount(socketLog, x) + (if x == e then 1 else 0) {
        OpenCountAppend(socketLog, Opened(e), x);
      }
      socketLog := socketLog + [Opened(e)];
      lobbyWs := Some(Socket(e, true));
    }

    /**
     * Both effects re-run after `wsToken` changed to `t`. Each cleanup that
     * the previous runs returned closes whatever its ref holds (a run that
     * stopped at its guard returned none); then the setups open a room socket
     * (with a truthy active room) and a lobby socket, both with `t`, unless
     * `t` is empty.
     */
    method ReplaceToken(t: string)
      requires Valid() && wsToken != Some(t)
      modifies this`wsToken, this`roomWs, this`lobbyWs, this`socketLog
      ensures Valid()
      ensures wsToken == Some(t)
      ensures socketLog == old(socketLog)
                           + Cleanup(Truthy(old(wsToken)) && Truthy(activeRoomId), old(roomWs))
                           + Cleanup(Truthy(old(wsToken)), old(lobbyWs))
                           + RoomSetup(activeRoomId, wsToken) + LobbySetup(wsToken)
      ensures roomWs == AfterRerun(old(roomWs), RoomSetup(activeRoomId, wsToken))
      ensures lobbyWs == AfterRerun(old(lobbyWs), LobbySetup(wsToken))
    {
      var had := Truthy(wsToken);
      wsToken := Some(t);
      if had && Truthy(activeRoomId) {
        CloseRoomSocket();
      } else {
        assert roomWs == AfterClose(old(roomWs));
      }
      ghost var afterRoomCleanup := socketLog;
      if had {
        CloseLobbySocket();
      } else {
        assert lobbyWs == AfterClose(old(lobbyWs));
      }
      ghost var afterCleanups := socketLog;
      assert afterCleanups == old(socketLog)
        + Cleanup(had && Truthy(activeRoomId), old(roomWs)) + Cleanup(had, old(lobbyWs));
      if t != "" && Truthy(activeRoomId) {
        OpenRoomSocket(activeRoomId.value, t);
      }
      ghost var afterRoomSetup := socketLog;
      assert afterRoomSetup == afterCleanups + RoomSetup(activeRoomId, wsToken);
      if t != "" {
        OpenLobbySocket(t);
      }
      assert socketLog == afterRoomSetup + LobbySetup(wsToken);
    }

    /**
     * The response to a room-list fetch. A failure changes nothing. A success
     * replaces the rooms and the token wholesale; if the token is a new value,
     * both effects re-run, so each old socket with a registered cleanup is
     * closed and fresh ones are opened with the new token. No room-list fetch
     * is started by this.
     */
    method CompleteLoadRooms(response: Option<RoomResponse>)
      requires Valid()
      modifies this`rooms, this`wsToken, this`roomWs, this`lobbyWs, this`socketLog
      ensures Valid()
      ensures response.None? ==>
        && rooms == old(rooms) && wsToken == old(wsToken)
        && roomWs == old(roomWs) && lobbyWs == old(lobbyWs) && socketLog == old(socketLog)
      ensures response.Some? ==> rooms == response.value.rooms && wsToken == Some(response.value.token)
      ensures response.Some? && old(wsToken) == Some(response.value.token) ==>
        roomWs == old(roomWs) && lobbyWs == old(lobbyWs) && socketLog == old(socketLog)
      ensures response.Some? && old(wsToken) != Some(response.value.token) ==>
        && socketLog == old(socketLog)
                        + Cleanup(Truthy(old(wsToken)) && Truthy(activeRoomId), old(roomWs))
                        + Cleanup(Truthy(old(wsToken)), old(lobbyWs))
                        + RoomSetup(activeRoomId, wsToken) + LobbySetup(wsToken)
        && roomWs == AfterRerun(old(roomWs), RoomSetup(activeRoomId, wsToken))
        && lobbyWs == AfterRerun(old(lobbyWs), LobbySetup(wsToken))
    {
      if response.Some? {
        rooms := response.value.rooms;
        if wsToken != Some(response.value.token) {
          ReplaceToken(response.value.token);
        }
      }
    }

    /**
     * `handleSelectRoom`: sets the active room and starts its history fetch.
     * When the active room actually changes, the room effect re-runs: the old
     * room socket is closed if the previous run registered a cleanup (token
     * and old id truthy) and, with a truthy token and id, one for the new
     * room opens. The message store is left as it is until the history
     * arrives.
     */
    method SelectRoom(roomId: string)
      requires Valid()
      modifies this`activeRoomId, this`historyRequests, this`roomWs, this`socketLog
      ensures Valid()
      ensures activeRoomId == Some(roomId)
      ensures historyRequests == old(historyRequests) + [roomId]
      ensures old(activeRoomId) == Some(roomId) ==> roomWs == old(roomWs) && socketLog == old(socketLog)
      ensures old(activeRoomId) != Some(roomId) ==>
        && socketLog == old(socketLog)
                        + Cleanup(Truthy(wsToken) && Truthy(old(activeRoomId)), old(roomWs))
                        + RoomSetup(activeRoomId, wsToken)
        && roomWs == AfterRerun(old(roomWs), RoomSetup(activeRoomId, wsToken))
    {
      historyRequests := historyRequests + [roomId];
      if activeRoomId != Some(roomId) {
        var registered := Truthy(wsToken) && Truthy(activeRoomId);
        activeRoomId := Some(roomId);
        if registered {
          CloseRoomSocket();
        } else {
          assert roomWs == AfterClose(old(roomWs));
        }
        if Truthy(wsToken) && roomId != "" {
          OpenRoomSocket(roomId, wsToken.value);
        }
      }
    }

    /**
     * The response to a history fetch: a success replaces the message store
     * wholesale, whichever room is active by then; a failure changes nothing.
     */
    method CompleteLoadMessages(history: Option<seq<Message>>)
      requires Valid()
      modifies this`messages
      ensures Valid()
      ensures messages == if history.Some? then history.value else old(messages)
    {
      if history.Some? {
        messages := history.value;
      }
    }

    /** The room socket's `onmessage`. */
    method OnRoomMessage(e: InboundEvent)
      requires Valid()
      modifies this`messages
      ensures Valid()
      ensures e.NewMessage? ==> messages == old(messages) + [e.message]
      ensures !e.NewMessage? ==> messages == old(messages)
    {
      messages := RoomChannelStep(messages, e);
    }

    /**
     * The lobby socket's `onmessage`. A `ROOM_UPDATE` for an unknown room
     * starts one room-list fetch and keeps the store; one for a known room
     * re-sorts the store with the message appended; every other event is
     * ignored.
     */
    method OnLobbyMessage(e: InboundEvent)
      requires Valid()
      modifies this`rooms, this`roomListRequests
      ensures Valid()
      ensures e.RoomUpdate? && !HasRoom(old(rooms), e.roomId) ==>
        rooms == old(rooms) && roomListRequests == old(roomListRequests) + 1
      ensures e.RoomUpdate? && HasRoom(old(rooms), e.roomId) ==>
        && rooms == SortByLatest(AppendToRoom(old(rooms), e.roomId, e.lastMessage))
        && roomListRequests == old(roomListRequests)
      ensures !e.RoomUpdate? ==> rooms == old(rooms) && roomListRequests == old(roomListRequests)
    {
      var out := LobbyChannelStep(rooms, e);
      rooms := out.rooms;
      if out.refetch {
        roomListRequests := roomListRequests + 1;
      }
    }

    /**
     * The room socket's `onclose` when the server closes it: the socket is
     * gone (the ref still holds it), and codes 4001 and 4002 start one
     * room-list fetch.
     */
    method OnRoomClose(code: int)
      requires Valid() && roomWs.Some? && roomWs.value.live
      modifies this`roomWs, this`socketLog, this`roomListRequests
      ensures Valid()
      ensures roomWs == Some(old(roomWs).value.(live := false))
      ensures socketLog == old(socketLog) + [ClosedByPeer(Endpoint(RoomOf(activeRoomId.value), wsToken.value), code)]
      ensures roomListRequests == old(roomListRequests) + (if IsReservedCloseCode(code) then 1 else 0)
    {
      DropRoomSocket(code);
      if IsReservedCloseCode(code) {
        roomListRequests := roomListRequests + 1;
      }
    }

    /** The lobby socket's `onclose` when the server closes it; same code rule as the room socket. */
    method OnLobbyClose(code: int)
      requires Valid() && lobbyWs.Some? && lobbyWs.value.live
      modifies this`lobbyWs, this`socketLog, this`roomListRequests
      ensures Valid()
      ensures lobbyWs == Some(old(lobbyWs).value.(live := false))
      ensures socketLog == old(socketLog) + [ClosedByPeer(Endpoint(Lobby, wsToken.value), code)]
      ensures roomListRequests == old(roomListRequests) + (if IsReservedCloseCode(code) then 1 else 0)
    {
      DropLobbySocket(code);
      if IsReservedCloseCode(code) {
        roomListRequests := roomListRequests + 1;
      }
    }

    /** The composer's `onChange`. */
    method SetInput(text: string)
      requires Valid()
      modifies this`input
      ensures Valid()
      ensures input == text
    {
      input := text;
    }

    /**
     * `handleSendMessage` at clock reading `now`. When the guard fails nothing
     * changes. Otherwise exactly one optimistic message is appended, exactly
     * one frame carrying the untrimmed input is transmitted on the socket the
     * room ref holds (open or not), and the input is cleared. With a truthy
     * token that socket is the one opened for the active room and token.
     */
    method SendMessage(now: nat)
      requires Valid()
      modifies this`messages, this`sent, this`input
      ensures Valid()
      ensures !SendAllowed(old(input), roomWs, activeRoomId) ==>
        messages == old(messages) && sent == old(sent) && input == old(input)
      ensures SendAllowed(old(input), roomWs, activeRoomId) ==>
        && messages == old(messages) + [OptimisticMessage(activeRoomId.value, old(input), now)]
        && sent == old(sent) + [Frame(roomWs.value.endpoint, SendRequest(old(input)))]
        && input == ""
      ensures SendAllowed(old(input), roomWs, activeRoomId) && Truthy(wsToken) ==>
        sent[|sent| - 1].endpoint == Endpoint(RoomOf(activeRoomId.value), wsToken.value)
    {
      if SendAllowed(input, roomWs, activeRoomId) {
        messages := messages + [OptimisticMessage(activeRoomId.value, input, now)];
        sent := sent + [Frame(roomWs.value.endpoint, SendRequest(input))];
        input := "";
      }
    }
  }

  /**
   * A history response is applied whatever room is active when it arrives:
   * after selecting `a` and then `b`, the late history of `a` becomes the
   * message store while `b` is the active room.
   */
  method StaleHistoryIsApplied(a: string, b: string, historyA: seq<Message>) returns (c: ChatInterface)
    requires a != b
    ensures c.activeRoomId == Some(b) && c.historyRequests == [a, b]
    ensures c.messages == historyA
  {
    c := new ChatInterface();
    c.SelectRoom(a);
    c.SelectRoom(b);
    c.CompleteLoadMessages(Some(historyA));
  }

  /**
   * Mounting, a room-list response carrying `token`, then selecting `roomId`:
   * both sockets are open with the token and nothing has been sent.
   */
  method JoinRoom(token: string, roomId: string) returns (c: ChatInterface)
    requires token != "" && roomId != ""
    ensures fresh(c) && c.Valid()
    ensures c.wsToken == Some(token) && c.activeRoomId == Some(roomId)
    ensures c.roomWs == Some(Socket(Endpoint(RoomOf(roomId), token), true))
    ensures c.lobbyWs == Some(Socket(Endpoint(Lobby, token), true))
    ensures c.messages == [] && c.sent == [] && c.input == "" && c.roomListRequests == 1
    ensures c.socketLog == [Opened(Endpoint(Lobby, token)), Opened(Endpoint(RoomOf(roomId), token))]
  {
    c := new ChatInterface();
    c.CompleteLoadRooms(Some(RoomResponse([], token)));
    assert c.socketLog == [Opened(Endpoint(Lobby, token))] && c.roomWs == None;
    c.SelectRoom(roomId);
  }

  /**
   * The optimistic entry and the server's echo of it are not merged: after a
   * send and the `NEW_MESSAGE` carrying the stored copy, the store holds both.
   */
  method EchoIsNotMerged(token: string, roomId: string, text: string, now: nat, echo: Message)
    returns (c: ChatInterface)
    requires token != "" && roomId != "" && Trim(text) != []
    ensures c.messages == [OptimisticMessage(roomId, text, now), echo]
    ensures c.sent == [Frame(Endpoint(RoomOf(roomId), token), SendRequest(text))]
    ensures c.input == ""
  {
    c := JoinRoom(token, roomId);
    c.SetInput(text);
    c.SendMessage(now);
    c.OnRoomMessage(NewMessage(echo));
  }

  /**
   * A switch to an empty token closes both sockets once; the effects' runs
   * under the empty token stop at their guards and return no cleanup, so the
   * switch to the next token closes nothing more before opening the new
   * sockets.
   */
  method EmptyTokenClosesOnce(t1: string, t2: string, roomId: string) returns (c: ChatInterface)
    requires t1 != "" && t2 != "" && roomId != ""
    ensures c.socketLog == [
      Opened(Endpoint(Lobby, t1)), Opened(Endpoint(RoomOf(roomId), t1)),
      Closed(Endpoint(RoomOf(roomId), t1)), Closed(Endpoint(Lobby, t1)),
      Opened(Endpoint(RoomOf(roomId), t2)), Opened(Endpoint(Lobby, t2))]
  {
    c := JoinRoom(t1, roomId);
    c.CompleteLoadRooms(Some(RoomResponse([], "")));
    assert c.socketLog == [
      Opened(Endpoint(Lobby, t1)), Opened(Endpoint(RoomOf(roomId), t1)),
      Closed(Endpoint(RoomOf(roomId), t1)), Closed(Endpoint(Lobby, t1))];
    c.CompleteLoadRooms(Some(RoomResponse([], t2)));
  }

  /**
   * Recovery from a refused token: the server closes the room socket with a
   * reserved code, which starts a second room-list fetch; its response
   * carries a new token, on which both sockets are opened again and are the
   * only open ones.
   */
  method TokenRefusalRecovery(t1: string, t2: string, roomId: string, code: int) returns (c: ChatInterface)
    requires t1 != "" && t2 != "" && t1 != t2 && roomId != "" && IsReservedCloseCode(code)
    ensures c.roomListRequests == 2
    ensures c.roomWs == Some(Socket(Endpoint(RoomOf(roomId), t2), true))
    ensures c.lobbyWs == Some(Socket(Endpoint(Lobby, t2), true))
    ensures forall e :: OpenCount(c.socketLog, e) != 0 ==>
      e == Endpoint(RoomOf(roomId), t2) || e == Endpoint(Lobby, t2)
  {
    c := JoinRoom(t1, roomId);
    c.OnRoomClose(code);
    c.CompleteLoadRooms(Some(RoomResponse([], t2)));
    c.LiveChannelsAreCurrent();
  }
}
