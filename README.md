# Chat synchronisation core, modelled in Dafny

This project models the realtime synchronisation core of a two-channel chat
client: the `ChatInterface` React component. The component holds six pieces of state:

- a room store;
- a message store for the open room;
- the active room id;
- a realtime token;
- the composer input;
- two websocket refs: one for the identity-wide lobby channel and one for the active room's channel.

Its handlers fold inbound events into these stores and open and close the sockets as the token and the active room change.

Modules, one per concern:

| file | module | what it holds |
|---|---|---|
| `chat_types.dfy` | `ChatTypes` | rooms, messages, the room-list response, the decoded realtime event, `WS_BASE_URL` |
| `js_text.dfy` | `JsText` | `String.prototype.trim` and the decimal rendering of `Date.now()`, as far as the send handler needs them |
| `room_order.dfy` | `RoomOrder` | the room store's order: latest message first, ties kept in prior order (a stable insertion sort, and a proof that every stable descending sort gives the same result) |
| `channel_events.dfy` | `ChannelEvents` | the pure folds: `ROOM_UPDATE` into the room store, `NEW_MESSAGE` into the message store, the reserved close codes, the channel addresses |
| `chat_interface.dfy` | `Chat` | the component as a class `ChatInterface`: its state fields, one method per handler or effect step, and a log of what it asked of the outside world |

How the component's behaviour is represented:

- **Outside requests are recorded, not performed.** The class keeps a log of what the component asked of the outside world. The log has four parts:
  - `roomListRequests` counts room-list fetches;
  - `historyRequests` lists history fetches by room id;
  - `sent` lists transmitted frames;
  - `socketLog` lists socket opens, client closes and server closes.
- **Each fetch is split in two.** The handler that starts it records the request. A later `Complete...` call applies the response, or `None` for a failed fetch.
- **Effect re-runs follow React's rules.**
  - An effect re-runs only when one of its dependencies changes value.
  - On a token change the room effect's cleanup runs first, then the lobby effect's cleanup, then the room setup, then the lobby setup.
  - A cleanup exists only if the previous run of its effect got past its guard. A run that returns early at its guard registers no cleanup, so the next re-run calls no `close()` for it.
  - The refs are never reset to null. After a close, a ref still holds the closed socket.
- **Guards use JavaScript truthiness**, as `!wsToken` and `!activeRoomId` do. An empty token or room id counts as absent.

Proved about the class:

- `Valid` is an invariant of every handler.
- `LiveChannelsAreCurrent` follows from it:
  - at most one lobby socket and one room socket are open, each at most once;
  - those are the sockets for the current token and the active room;
  - so no two room channels are ever open together.

## Model

| member | source | states |
|---|---|---|
| JsText.TrimStartIsLongestSuffix | components/ChatInterface.tsx:148 | the start-trimmed input is a suffix of it, everything dropped is whitespace, and it starts with a non-blank |
| JsText.TrimEndIsLongestPrefix | components/ChatInterface.tsx:148 | the end-trimmed string is a prefix of it, everything dropped is whitespace, and it ends with a non-blank |
| JsText.Trim | components/ChatInterface.tsx:148 | `input.trim()`. `TrimEmptyIffBlank` characterises its empty result |
| JsText.TrimEmptyIffBlank | components/ChatInterface.tsx:148 | `input.trim()` is empty exactly when every character of the input is JavaScript whitespace |
| JsText.DecimalString | components/ChatInterface.tsx:151 | the rendering of `Date.now()` is non-empty, all decimal digits, with no leading zero |
| JsText.DecimalRoundTrip | components/ChatInterface.tsx:151 | reading the rendered digits back gives the clock value |
| JsText.DecimalStringInjective | components/ChatInterface.tsx:151 | distinct clock values render differently |
| RoomOrder.LastTime | components/ChatInterface.tsx:115-120 | the sort key: `createdAt` of the last message, or 0 for a room with no messages. `SortByLatest` orders by it and `EmptyRoomAfterLaterRooms` uses the 0 case |
| RoomOrder.InsertByLatest | components/ChatInterface.tsx:114-122 | one insertion step of the sort keeps exactly the rooms it was given plus the inserted one |
| RoomOrder.InsertKeepsSorted | components/ChatInterface.tsx:114-122 | inserting into a store sorted latest-first keeps it sorted |
| RoomOrder.SortByLatest | components/ChatInterface.tsx:114-122 | the sorted store is a permutation of its input and is ordered by last-message time, descending (comparator `timeB - timeA`) |
| RoomOrder.InsertKeepsTies | components/ChatInterface.tsx:114-122 | an inserted room goes in front of the rooms it ties with and leaves their order alone |
| RoomOrder.SortIsStable | components/ChatInterface.tsx:114-122 | for every key, the rooms with that key keep their prior relative order (`Array.prototype.sort` is stable) |
| RoomOrder.SortedTiesDetermineOrder | components/ChatInterface.tsx:114-122 | any two arrangements that are both sorted and stable are equal, so the model's sort agrees with the engine's |
| RoomOrder.SortKeepsSortedStore | components/ChatInterface.tsx:114-122 | a store that is already in order is returned unchanged: no room moves on a tie |
| RoomOrder.SortIsIdempotent | components/ChatInterface.tsx:114-122 | sorting twice gives the same store as sorting once |
| RoomOrder.EmptyRoomAfterLaterRooms | components/ChatInterface.tsx:115-120 | a room with no messages has key 0, so it sorts after every room whose latest message is later than time zero |
| RoomOrder.InsertKeepsIds | components/ChatInterface.tsx:114-122 | an insertion step keeps the room ids plus the inserted room's id |
| RoomOrder.SortKeepsIds | components/ChatInterface.tsx:114-122 | sorting keeps the multiset of room ids |
| ChannelEvents.WithLastMessage | components/ChatInterface.tsx:107-108 | the targeted room keeps its id and users; its messages become the old list plus `lastMessage` (or `[lastMessage]` when it had none); its key becomes that message's time |
| ChannelEvents.HasRoom | components/ChatInterface.tsx:98 | `prevRooms.some(r => r.id === roomId)`. `RoomUpdateFold` and `LobbyChannelStep` make the refetch happen exactly when it is false |
| ChannelEvents.ApplyRoomUpdate | components/ChatInterface.tsx:97-123 | the `setRooms` updater. `RoomUpdateFold` states its outcome for known and unknown ids |
| ChannelEvents.AppendToRoom | components/ChatInterface.tsx:105-111 | the map keeps the store's length and changes exactly the rooms with the targeted id |
| ChannelEvents.AppendKeepsIds | components/ChatInterface.tsx:105-111 | the map keeps the sequence of room ids |
| ChannelEvents.AppendKeepsOtherRooms | components/ChatInterface.tsx:105-111 | every room with another id appears after the map exactly as often as before |
| ChannelEvents.AppendedRoomOrigin | components/ChatInterface.tsx:105-111 | every room after the map is an untouched other room or a targeted room with the message appended, and the converse |
| ChannelEvents.RoomUpdateFold | components/ChatInterface.tsx:97-123 | an unknown id means a refetch and the store is kept. A known id gives a store with the same length and ids, with every other room unchanged and equally often present, with the targeted room updated, sorted latest-first, and with ties in prior order |
| ChannelEvents.RepeatedUpdateAppendsTwice | components/ChatInterface.tsx:97-123 | the same `ROOM_UPDATE` applied twice appends its message twice: the fold is not idempotent |
| ChannelEvents.UpdatedRoomMovesAhead | components/ChatInterface.tsx:105-122 | with rooms `[r2, r1]`, an update of `r1` that is later than `r2`'s latest message yields `[r1 + message, r2]` |
| ChannelEvents.LobbyChannelStep | components/ChatInterface.tsx:92-128 | the lobby `onmessage` asks for a refetch exactly on a `ROOM_UPDATE` for an unknown room. Every other event, and a refetching update, leaves the store unchanged |
| ChannelEvents.RoomChannelStep | components/ChatInterface.tsx:61-72 | the room `onmessage` grows the message store by exactly the `NEW_MESSAGE` payload at the tail, without de-duplication. `ERROR`, `MESSAGE_SENT`, unknown types and unparsable payloads leave it unchanged |
| ChannelEvents.IsReservedCloseCode | components/ChatInterface.tsx:75 | codes 4001 and 4002, the only ones `OnRoomClose` and `OnLobbyClose` answer with a room-list fetch |
| ChannelEvents.RoomUrl | components/ChatInterface.tsx:58 | the room channel's address. `RoomUrlIdentifiesRoom` and `RoomAndLobbyUrlsDiffer` state what it determines |
| ChannelEvents.LobbyUrl | components/ChatInterface.tsx:89 | the lobby channel's address. `RoomAndLobbyUrlsDiffer` shows it never equals a room address |
| ChannelEvents.RoomAndLobbyUrlsDiffer | components/ChatInterface.tsx:89-90 | a room channel's address never equals a lobby channel's address |
| ChannelEvents.RoomUrlIdentifiesRoom | components/ChatInterface.tsx:58-59 | a room channel's address determines its room id and token, when the id holds no `?` |
| Chat.UrlIdentifiesEndpoint | components/ChatInterface.tsx:58-59 | distinct sockets (scope and token) have distinct addresses, provided no room id contains `?` |
| Chat.OptimisticMessage | components/ChatInterface.tsx:150-156 | the optimistic message: id `temp-<now>`, the active room, sender `'me'`, the untrimmed input, time `now`. `OptimisticIdsDistinct` and `SendMessage` state its use |
| Chat.OptimisticIdsDistinct | components/ChatInterface.tsx:151 | optimistic ids `temp-<now>` from different clock readings differ |
| Chat.SendAllowed | components/ChatInterface.tsx:148 | the send guard. `BlankInputIsNotSent` and `SendAllowedIffNotBlank` characterise it |
| Chat.RoomSetup | components/ChatInterface.tsx:56-59 | the room effect's setup opens a socket only when token and active room are both truthy. `ReplaceToken` and `SelectRoom` state its effect |
| Chat.LobbySetup | components/ChatInterface.tsx:87-90 | the lobby effect's setup opens a socket only when the token is truthy. `ReplaceToken` states its effect |
| Chat.Cleanup | components/ChatInterface.tsx:80-82 | an effect's cleanup runs on a re-run only if the previous run returned one. `ReplaceToken`, `SelectRoom` and `EmptyTokenClosesOnce` state its effect |
| Chat.BlankInputIsNotSent | components/ChatInterface.tsx:148 | input made only of whitespace never passes the send guard |
| Chat.SendAllowedIffNotBlank | components/ChatInterface.tsx:148 | with a room socket in the ref and a truthy active room, a send goes ahead exactly when the input has a non-whitespace character |
| Chat.ChatInterface.constructor | components/ChatInterface.tsx:13-43 | mounting starts with empty stores, no token, no sockets, and the mount effect's one room-list fetch |
| Chat.ChatInterface.LiveChannelsAreCurrent | components/ChatInterface.tsx:54-139 | under the invariant, the only open sockets are the lobby's and the active room's for the current token, each open at most once |
| Chat.ChatInterface.CloseRoomSocket | components/ChatInterface.tsx:80-82 | the room cleanup logs a close of whatever the ref holds, and the ref keeps the now-closed socket |
| Chat.ChatInterface.CloseLobbySocket | components/ChatInterface.tsx:136-138 | the lobby cleanup logs a close of whatever the ref holds, and the ref keeps the now-closed socket |
| Chat.ChatInterface.DropRoomSocket | components/ChatInterface.tsx:74 | a server close of the room socket is logged with its code, and the socket is no longer open |
| Chat.ChatInterface.DropLobbySocket | components/ChatInterface.tsx:130 | a server close of the lobby socket is logged with its code, and the socket is no longer open |
| Chat.ChatInterface.OpenRoomSocket | components/ChatInterface.tsx:58-59 | the room setup opens one socket at `ws://localhost:4000/room/<id>?token=<token>` and the ref holds it |
| Chat.ChatInterface.OpenLobbySocket | components/ChatInterface.tsx:89-90 | the lobby setup opens one socket at `ws://localhost:4000/rooms?token=<token>` and the ref holds it |
| Chat.ChatInterface.ReplaceToken | components/ChatInterface.tsx:54-139 | a new token re-runs both effects. Each ref's socket is closed only if the previous run registered a cleanup (old token truthy; for the room also the active id). Then a room socket (only with a truthy token and active room) and a lobby socket (only with a truthy token) are opened with the new token; the invariant is kept |
| Chat.ChatInterface.CompleteLoadRooms | components/ChatInterface.tsx:31-39 | a failed fetch changes nothing. A successful one replaces rooms and token wholesale, re-opens the sockets only when the token value changed (closing only sockets whose effect registered a cleanup), and starts no fetch |
| Chat.ChatInterface.SelectRoom | components/ChatInterface.tsx:141-144 | sets the active room and requests its history. A change of room closes the old room socket if the previous run registered a cleanup (token and old id truthy), and opens the new room's socket when the token and id are truthy. The message store is not touched |
| Chat.ChatInterface.CompleteLoadMessages | components/ChatInterface.tsx:45-52 | a history response replaces the message store wholesale; a failure leaves it |
| Chat.ChatInterface.OnRoomMessage | components/ChatInterface.tsx:61-72 | `NEW_MESSAGE` appends its payload; every other event leaves the message store |
| Chat.ChatInterface.OnLobbyMessage | components/ChatInterface.tsx:92-128 | a `ROOM_UPDATE` for an unknown room starts exactly one room-list fetch and keeps the store. One for a known room re-sorts the updated store. Other events change nothing |
| Chat.ChatInterface.OnRoomClose | components/ChatInterface.tsx:74-78 | a server close of the room socket starts one room-list fetch for codes 4001 and 4002 and none otherwise |
| Chat.ChatInterface.OnLobbyClose | components/ChatInterface.tsx:130-134 | a server close of the lobby socket starts one room-list fetch for codes 4001 and 4002 and none otherwise |
| Chat.ChatInterface.SetInput | components/ChatInterface.tsx:320 | the composer's `onChange` replaces the input |
| Chat.ChatInterface.SendMessage | components/ChatInterface.tsx:146-164 | when the guard fails nothing changes. Otherwise exactly one `temp-<now>` message from `'me'` with the untrimmed input is appended, exactly one `{content: input}` frame goes to the socket in the room ref, and the input is cleared. With a truthy token that socket belongs to the active room and token |
| Chat.StaleHistoryIsApplied | components/ChatInterface.tsx:141-144 | after selecting `a` then `b`, `a`'s late history becomes the message store while `b` is active |
| Chat.JoinRoom | components/ChatInterface.tsx:31-59 | mount, a room list with a token, and a room selection leave both sockets open for that token and that room; the socket log holds exactly the lobby open and then the room open |
| Chat.EchoIsNotMerged | components/ChatInterface.tsx:146-164 | a send followed by the server's `NEW_MESSAGE` echo leaves two entries, the optimistic one and the echo |
| Chat.EmptyTokenClosesOnce | components/ChatInterface.tsx:54-139 | after a switch to an empty token and then to a new one, each old socket is closed exactly once and both new sockets are opened |
| Chat.TokenRefusalRecovery | components/ChatInterface.tsx:74-90 | a room-socket close with 4001 or 4002 starts a second room-list fetch. Its new token re-opens both sockets with that token, and they are the only open sockets |

## Behaviour of the code as modelled

Points where the code's behaviour may be unexpected:

- **No stale-response guard.** A history response is applied whatever room is active when it arrives (`StaleHistoryIsApplied`). Nothing checks that the response belongs to the active room.
- **Send checks only that a socket is present.** The guard asks whether the room ref holds a socket, not whether it is OPEN. Because the ref is never cleared, a send can go to a socket that was already closed.
- **Empty token or room id.** After a change to an empty token or room id, no new socket opens, and the ref keeps the old, closed socket.
  - With an empty token and a non-empty active room, a send goes to that closed socket (`SendMessage`).
  - With an empty active room id, the guard blocks the send.
- **The local sender sentinel is `'me'`.**
- **The message store is not cleared on a room switch.** It keeps the previous room's messages until the new history arrives.
- **`ROOM_UPDATE` is not idempotent.** A repeated update appends its message again (`RepeatedUpdateAppendsTwice`).
- **A room with no messages has key 0.** It sorts after rooms whose latest message is later than the epoch. It can tie with rooms whose latest message is at or before the epoch.
- **The active room is never cleared.** The component has no handler that clears it, so the "no room open" transition does not exist.

## Left out

- Rendering, the sidebar previews and `scrollToBottom`: presentation only.
- `createNewRoom`: it goes through `prompt`, `parseInt`, `alert` and an HTTP call.
- Real sockets, HTTP and `JSON.parse`: events arrive already decoded as `InboundEvent`, with `Malformed` standing for a payload that fails to parse.
- The logging in the error branches: console output.
- Async interleaving: handlers run one at a time, in any order the caller chooses. A fetch's response is a separate `Complete...` call, so any interleaving can be expressed, but none is enumerated.
- React StrictMode's double invocation of effects and updaters: this includes the updater that calls `loadRooms` twice in development.
- `createdAt`: an ISO date string in the source, read with `new Date(...).getTime()`. Here it is an integer number of milliseconds. Invalid dates, which give `NaN` in the comparator, are not modelled.
- The socket's CONNECTING state: in that state `send` throws. The model has open and closed only.
- Client-side close events: after the client itself calls `close()`, the socket's `onclose` still fires, with a non-reserved code. That close starts no fetch, so the model does not represent the event.
- Server closes of sockets that no ref still holds: those sockets were already closed by the client in the model.
- Room ids in addresses are not URL-encoded. The model builds addresses by concatenation, as the code does.
- The session-level parts: logout, the HTTP interceptor and the `auth-failure` handling are not part of this model.
- DecimalString: models `Date.now()`'s decimal form for every natural number. JavaScript switches to exponent notation from 10^21 on, far beyond any clock value.
- SendMessage: takes one clock reading `now` for both the id and `createdAt`. The source reads the clock twice (`Date.now()` and `new Date()`), and the readings can differ by a millisecond.
- OnRoomClose: covers only a server close of the socket the room ref holds while it is open.
- OnLobbyClose: covers only a server close of the socket the lobby ref holds while it is open.
- RoomUrlIdentifiesRoom: holds only for room ids without `?`. An id containing `?` can make two room addresses collide.
- Chat.UrlIdentifiesEndpoint: holds only for room ids without `?`. For example, room `a?token=x` with token `y` and room `a` with token `x?token=y` both give `ws://localhost:4000/room/a?token=x?token=y`.
