# Antigravity chat, modelled in Dafny

This project models the core of the Antigravity chat application. The
application is a socket.io relay server with PIN-protected rooms, a SQLite
store module, and a React client that has a lock screen, a join/create form,
a message composer, a room screen with one-to-one WebRTC calls, and a call
clock. Each part becomes a Dafny module:

- `RoomServer` (`room_server.dfy`) is the in-memory relay of
  `chat-app/server/index.js`. Its class `Server` holds the `rooms` table and
  an `outbox`. The outbox is the ordered log of what was emitted and to whom:
  one socket, a whole room, or a room minus its sender. Each socket handler
  is a method. The class invariant is that no room in the table is empty.
- `ChatStore` (`chat_store.dfy`) holds the three tables of
  `chat-app/server/database.js`: a map of rooms and two sequences of rows in
  insertion order. The primary keys, foreign keys and the
  `UNIQUE(message_id, username)` constraint form the class invariant. Each
  statement is a method, and the deletes cascade.
- `ReactionCodec` (`reaction_codec.dfy`) covers how `getMessages` turns a
  message's reaction rows into `GROUP_CONCAT` text and parses that text back
  into a map.
- `ChatRoomClient` (`chat_room.dfy`) is the room screen of `ChatRoom.jsx`.
  It covers the message list, the presence list and the typing indicator
  kept from server events, the outgoing actions, and the call state. A peer
  connection is reduced to its remote description, whether it is closed,
  and the candidates it accepted.
- `AppSession` (`session.dfy`) is the top level of `App.jsx`: joining,
  locking, the once-only `room_joined`/`error` listeners, and the
  five-minute auto-lock.
- `LockScreenForm`, `AuthForm`, `MessageComposer` and `CallClock` are the
  lock overlay, the create/join form, the composer and the duration clock.
- `Strings`, `Protocol` and `Common` are shared helpers:
  - `Strings` has JavaScript's `split`/`join`, decimal rendering and
    `padStart`;
  - `Protocol` has the wire messages;
  - `Common` has `Option`.

Outside inputs are taken as parameters:

- the clock (`now`, `time`);
- generated ids;
- whether `getUserMedia` succeeded;
- the offers and answers a peer connection creates;
- the file a user picks.

Timers are methods that a test scenario calls: `Tick`, `AutoLockTick` and
`TypingTimerFires`.

A few behaviours of the source are stated as lemmas or scenario methods
rather than fixed:

- **The relay drops `isVideo`.** The server's `call_user` relay sends only
  `signal`, `from` and `name`, so the callee never sees whether video was
  asked for (`ChatRoomClient.ChatRoom.Deliver`).
- **The room's `end_call` listener never emits.** It was registered once, at
  mount, so it calls the `endCall` of the first render, whose user list is
  empty. It therefore sends no `end_call` back (`ChatRoomClient.ChatRoom.OnEndCall`).
- **Late `call_accepted` still connects.** A `call_accepted` that arrives
  after a local hang-up still sets the state to connected
  (`ChatRoomClient.ChatRoom.OnCallAccepted`).
- **Candidates leak between calls.** `endCall` neither drops the old
  connection nor clears the candidate queue:
  - an early candidate of a second call goes to the closed first connection
    and is lost (`ChatRoomClient.SecondCallLosesEarlyCandidate`);
  - a candidate queued during a call that never connected reaches the next
    call (`ChatRoomClient.StaleCandidateReachesNextCall`).
- **Notices during the permission prompt are not guarded against.**
  `answerCall` sets connected before it waits for `getUserMedia`, and
  nothing after the wait checks the call state again:
  - a hang-up during the wait leaves the callee idle with a live connection,
    and the caller still gets the answer
    (`ChatRoomClient.HangUpDuringAnswerPrompt`);
  - in `startCall`, a call that arrives during the wait is overwritten by
    calling (`ChatRoomClient.IncomingCallDuringStartPrompt`).
- **The reaction text encoding is lossy.** A username with `':'` or `','`
  in it comes back wrong (`ReactionCodec.ColonInUsernameIsMisread`,
  `ReactionCodec.CommaInUsernameIsMisread`). The round trip holds only for
  clean tokens (`ReactionCodec.RoundTrip`).
- **A rejoin leaves a stale presence entry.** `join_room` appends without
  removing duplicates, and `disconnect` removes one entry per room. A socket
  that joined a room twice is therefore still listed after it disconnects
  (`RoomServer.StaleEntrySurvivesDisconnect`).
- **Reactions update different messages on the two sides.** The server
  updates the first message with the id and the client updates every such
  message. The two agree while ids are distinct
  (`ChatRoomClient.ClientAgreesWithServer`).

## Model

| member | source | states |
|---|---|---|
| `Strings.Split` | chat-app/server/database.js:103-104 | `String.prototype.split` on one character: at least one piece, no piece holds the separator, and one piece more than the input has separators |
| `Strings.JoinSplit` | chat-app/server/database.js:103-104 | joining the pieces of a split with the separator restores the string |
| `Strings.SplitJoin` | chat-app/server/database.js:89 | splitting pieces free of the separator, once joined, gives the pieces back |
| `Strings.SplitNoSeparator` | chat-app/server/database.js:104 | a string without the separator splits into itself alone |
| `Strings.SplitAfterPiece` | chat-app/server/database.js:104 | a separator-free piece, the separator and a rest split into the piece followed by the rest's pieces |
| `Strings.CountAppend` | chat-app/server/database.js:104 | occurrences of a character in a concatenation add up |
| `Strings.Decimal` | chat-app/client/src/components/CallModal.jsx:46 | `toString()` of a natural number: decimal digits, a single one exactly below ten, and no leading zero from ten on |
| `Strings.DigitChar` | chat-app/client/src/components/CallModal.jsx:46 | a digit below ten renders as its character `'0'`..`'9'` |
| `Strings.DigitValue` | chat-app/client/src/components/CallModal.jsx:46 | a digit character reads back as its value below ten |
| `Strings.DecimalValue` | chat-app/client/src/components/CallModal.jsx:46 | the decimal rendering of `n` reads back as `n` |
| `Strings.LeadingZeroValue` | chat-app/client/src/components/CallModal.jsx:46 | a leading `'0'` does not change a digit string's value |
| `Strings.PadStart` | chat-app/client/src/components/CallModal.jsx:46 | `padStart(width, fill)`: the input preceded by fill characters up to the width, and never cut |
| `CallClock.PadZerosValue` | chat-app/client/src/components/CallModal.jsx:46 | zero padding keeps the digits and their value |
| `CallClock.DecimalBelowHundred` | chat-app/client/src/components/CallModal.jsx:44-46 | a number below 100 renders in at most two digits |
| `CallClock.ColonJoined` | chat-app/client/src/components/CallModal.jsx:46 | two digit fields around `':'` split back into the two and hold exactly one colon |
| `CallClock.FieldShape` | chat-app/client/src/components/CallModal.jsx:46 | a padded field holds only digits, at least two of them, exactly two below 100, and reads back as its number |
| `CallClock.FormatDurationFields` | chat-app/client/src/components/CallModal.jsx:43-47 | `formatDuration` is the minutes field, one colon and a two-digit seconds field below 60, and minutes·60 + seconds is the input |
| `CallClock.ParseFields` | chat-app/client/src/components/CallModal.jsx:46 | two digit fields around a colon parse as minutes·60 + seconds |
| `CallClock.ParseRender` | chat-app/client/src/components/CallModal.jsx:46 | two rendered fields around a colon read back as `m` minutes and `s` seconds |
| `CallClock.ParseFormatRoundTrip` | chat-app/client/src/components/CallModal.jsx:43-47 | reading back `formatDuration(s)` gives `s` for every `s` |
| `CallClock.FormatDurationLength` | chat-app/client/src/components/CallModal.jsx:43-47 | below 100 minutes the rendering is exactly five characters, `MM:SS` |
| `CallClock.HundredRendering` | chat-app/client/src/components/CallModal.jsx:46 | 100 renders as `"100"`: padding never truncates |
| `CallClock.ZeroRendering` | chat-app/client/src/components/CallModal.jsx:46 | 0 renders as `"00"` |
| `CallClock.HundredMinutes` | chat-app/client/src/components/CallModal.jsx:43-47 | 6000 seconds render as `"100:00"`: the minutes field grows past two digits |
| `CallClock.DurationClock.constructor` | chat-app/client/src/components/CallModal.jsx:17 | the counter starts at 0 with no interval |
| `CallClock.DurationClock.OnCallState` | chat-app/client/src/components/CallModal.jsx:30-40 | connected starts the interval and keeps the count; any other state stops it and resets the count to 0 |
| `CallClock.DurationClock.Tick` | chat-app/client/src/components/CallModal.jsx:33-35 | a tick adds one second while the interval runs and nothing otherwise |
| `CallClock.CountsConnectedSeconds` | chat-app/client/src/components/CallModal.jsx:30-40 | after `n` ticks of a connected call the counter shows `n`, and leaving the call shows 0 |
| `Protocol.WithReaction` | chat-app/server/index.js:80-81 | the message with `reactions[username] = reaction`, created empty when missing, all else unchanged |
| `RoomServer.FirstIndex` | chat-app/server/index.js:108 | `findIndex` (and `find`, line 78, as an index): the first index whose element matches, or -1 exactly when none does |
| `RoomServer.RemoveFirst` | chat-app/server/index.js:111 | `splice(index, 1)`: the list without the first entry with the id, unchanged when there is none |
| `RoomServer.RemoveFirstDropsOneEntry` | chat-app/server/index.js:111 | removing takes out exactly one occurrence of that entry, as a multiset |
| `RoomServer.ReactInHistory` | chat-app/server/index.js:77-83 | the stored history with the reaction set on the first message with the id only, the length and every other message kept |
| `RoomServer.Server.constructor` | chat-app/server/index.js:23 | the server starts with no rooms and nothing emitted |
| `RoomServer.Server.CreateRoom` | chat-app/server/index.js:28-39 | a taken id only emits `Room already exists` to the caller; otherwise the room holds the creator alone, with the pin and no history, and the caller gets `room_joined` and the room gets the user list |
| `RoomServer.Server.JoinRoom` | chat-app/server/index.js:41-57 | an unknown room or a wrong PIN only emits the matching error; otherwise the joiner is appended, gets `room_joined` and the room's stored history, and the room gets the new user list |
| `RoomServer.Server.SendMessage` | chat-app/server/index.js:59-66 | the message joins the room's history only if the room exists, and is relayed to the other sockets of the room in every case |
| `RoomServer.Server.Typing` | chat-app/server/index.js:68-70 | the typing flag is relayed to the rest of the room and the rooms are unchanged |
| `RoomServer.Server.AddReaction` | chat-app/server/index.js:72-84 | the reaction is broadcast to the whole room and stored on the first message with the id if the room exists |
| `RoomServer.Server.CallUser` | chat-app/server/index.js:87-89 | the offer is relayed to the callee with `from` and `name` only; `isVideo` is dropped |
| `RoomServer.Server.AnswerCall` | chat-app/server/index.js:91-93 | the answer is relayed to the caller as `call_accepted` |
| `RoomServer.Server.IceCandidate` | chat-app/server/index.js:95-97 | the candidate is relayed to its addressee |
| `RoomServer.Server.EndCall` | chat-app/server/index.js:99-101 | `end_call` is relayed to its addressee |
| `RoomServer.Server.LeaveOneRoom` | chat-app/server/index.js:107-117 | one room of the disconnect loop: the socket's first entry is removed, the room gets the new user list, and an emptied room is deleted |
| `RoomServer.Server.Disconnect` | chat-app/server/index.js:103-119 | the rooms become `AfterDisconnect` of the old ones (the socket's first entry gone from each room it is in, emptied rooms deleted), and the outbox gains one user-list notice per such room, in some enumeration order of the rooms |
| `RoomServer.Server.Handle` | chat-app/server/index.js:28-119 | each client event has its handler's full effect on the rooms and the emit log (create, join with its pin check, message, typing, reaction, the four call relays); `leave_room` and `get_users`, which have no handler, change nothing |
| `RoomServer.DisconnectKeepsOtherRooms` | chat-app/server/index.js:106-118 | a room without the socket comes through a disconnect unchanged |
| `RoomServer.DisconnectDeletesOnlyEmptiedRooms` | chat-app/server/index.js:114-116 | a room is gone after a disconnect exactly when the socket was its only user; otherwise it loses that one entry |
| `RoomServer.StaleEntrySurvivesDisconnect` | chat-app/server/index.js:52 | a socket listed twice in a room is still listed after it disconnects |
| `RoomServer.ReactTwiceLastWins` | chat-app/server/index.js:81 | reacting twice to the same message leaves only the second reaction |
| `RoomServer.JoinerLoadsHistory` | chat-app/server/index.js:54 | a message sent before a second user joins is in the history that user loads, right after its `room_joined` |
| `ReactionCodec.Items` | chat-app/server/database.js:89 | `username \|\| ':' \|\| reaction` of each row, in order |
| `ReactionCodec.GroupConcat` | chat-app/server/database.js:89 | SQL NULL exactly when there are no rows; otherwise the items joined with `','` |
| `ReactionCodec.ParseItem` | chat-app/server/database.js:104-107 | an entry is read only when its username and reaction are non-empty, colon-free, and are what the item starts with (`username:reaction`, then the end or another `':'`); any such pair is the entry read |
| `ReactionCodec.DecodeReactions` | chat-app/server/database.js:101-108 | the parsing loop builds the map that `Decode` specifies: a null or empty text gives no reactions, and later items win |
| `ReactionCodec.ParseCleanItem` | chat-app/server/database.js:104-107 | a clean `u:r` item parses back to its row |
| `ReactionCodec.DecodeCleanItems` | chat-app/server/database.js:103-108 | decoding the items of clean rows folds them into the map that `getReactions` would build |
| `ReactionCodec.RoundTrip` | chat-app/server/database.js:89-108 | decoding the `GROUP_CONCAT` text of clean rows gives the rows' map |
| `ReactionCodec.EntriesToMapOfDistinct` | chat-app/server/database.js:146-149 | with one row per username the map holds exactly the rows' pairs |
| `ReactionCodec.DecodeNothing` | chat-app/server/database.js:102 | NULL and the empty string decode to no reactions |
| `ReactionCodec.DecodeSingleRow` | chat-app/server/database.js:89-103 | one row's text is split on `','` and decoded item by item |
| `ReactionCodec.DecodeOneItem` | chat-app/server/database.js:103-107 | a single item gives its parsed pair, or nothing when it does not parse |
| `ReactionCodec.ParseBareItem` | chat-app/server/database.js:104-105 | an item with no colon is skipped |
| `ReactionCodec.ParseThreePieces` | chat-app/server/database.js:104 | an item with two colons keeps its first two pieces |
| `ReactionCodec.TwoItems` | chat-app/server/database.js:103-107 | two items decode left to right, the second overriding the first for the same username |
| `ReactionCodec.ColonInUsernameIsMisread` | chat-app/server/database.js:89-107 | username `a:b` with reaction `x` decodes as `{a: b}` |
| `ReactionCodec.CommaInUsernameIsMisread` | chat-app/server/database.js:89-107 | username `a,b` with reaction `x` decodes as `{b: x}` |
| `ChatStore.StoredKind` | chat-app/server/database.js:79 | `type \|\| 'text'`: missing or empty becomes `"text"`, anything else is kept |
| `ChatStore.ReactionIndex` | chat-app/server/database.js:42 | the position of the `(message, username)` row, or -1 exactly when there is none |
| `ChatStore.IndexAt` | chat-app/server/database.js:42 | the first row with the key is where the index points |
| `ChatStore.UpsertKeepsUnique` | chat-app/server/database.js:131-140 | the upsert keeps `UNIQUE(message_id, username)` |
| `ChatStore.UpsertLookup` | chat-app/server/database.js:131-140 | after the upsert the key holds the new reaction, every other key holds its old one, and a row was added exactly when the key was new |
| `ChatStore.SecondReactionOverwrites` | chat-app/server/database.js:135-136 | a second reaction by the same user to the same message equals inserting the second alone |
| `ChatStore.EntriesFor` | chat-app/server/database.js:143 | the `(username, reaction)` pairs selected are exactly the message's rows |
| `ChatStore.EntriesForDistinct` | chat-app/server/database.js:42 | under the uniqueness constraint a message's rows name each user once |
| `ChatStore.ReactionsForExact` | chat-app/server/database.js:142-152 | `getReactions` has a username as a key exactly when it has a row, and maps it to that row's reaction |
| `ChatStore.Keep` | chat-app/server/database.js:92 | a `WHERE` filter (the room's history, line 92; the message delete, line 126; a room's cascade, line 30) keeps exactly the rows that match, and their distinct ids |
| `ChatStore.InsertByCreation` | chat-app/server/database.js:94 | an insertion into a list sorted by creation time keeps it sorted and a permutation of the list plus the row |
| `ChatStore.SortByCreation` | chat-app/server/database.js:94 | `ORDER BY m.created_at ASC`: sorted, and a permutation of its input |
| `ChatStore.HistoryIsRoomInOrder` | chat-app/server/database.js:85-95 | the history query returns exactly the room's messages, each as often as stored, sorted by creation time |
| `ChatStore.ToMessage` | chat-app/server/database.js:111-121 | the record copies each column of its row, and its reactions are the decoded map |
| `ChatStore.Views` | chat-app/server/database.js:100-122 | the `map` over the rows yields one record per row, in order |
| `ChatStore.HistoryReactionsAgree` | chat-app/server/database.js:85-152 | with clean tokens, the reactions `getMessages` attaches to each message are what `getReactions` returns for it |
| `ChatStore.ReactionsOfLive` | chat-app/server/database.js:43 | a message's cascade keeps exactly the reactions whose message survives, and their uniqueness |
| `ChatStore.DeleteMessageCascades` | chat-app/server/database.js:43 | deleting a message leaves none of its reactions |
| `ChatStore.Store.constructor` | chat-app/server/database.js:8-48 | a fresh database has three empty tables and satisfies the schema's constraints |
| `ChatStore.Store.CreateRoom` | chat-app/server/database.js:51-54 | `INSERT OR IGNORE`: an existing room and its pin stay as they are; a new id gets a row |
| `ChatStore.Store.GetRoom` | chat-app/server/database.js:56-59 | the room's row exactly when the id is in the table |
| `ChatStore.Store.SaveMessage` | chat-app/server/database.js:67-83 | succeeds exactly when the room exists and the id is new, and then appends the row with its type defaulted; otherwise it changes nothing |
| `ChatStore.Store.SaveReaction` | chat-app/server/database.js:131-140 | succeeds exactly when the message exists, and then upserts the user's reaction |
| `ChatStore.Store.GetReactions` | chat-app/server/database.js:142-152 | the loop builds `ReactionsFor` of the table, a later row winning |
| `ChatStore.Store.GetMessages` | chat-app/server/database.js:85-123 | the loop builds the room's history: its rows by creation time, each with its decoded reactions |
| `ChatStore.Store.DeleteMessage` | chat-app/server/database.js:125-128 | the message row is gone, its reactions go with it, and the constraints still hold |
| `ChatStore.Store.DeleteRoom` | chat-app/server/database.js:61-64 | the room, its messages and their reactions are gone, and the constraints still hold |
| `ChatRoomClient.AddCandidate` | chat-app/client/src/components/ChatRoom.jsx:83 | `addIceCandidate`: a live connection appends the candidate and a closed one rejects it |
| `ChatRoomClient.FirstOther` | chat-app/client/src/components/ChatRoom.jsx:150 | `users.find(u => u.username !== username)`: nothing exactly when every entry has the own name, otherwise the first entry with another |
| `ChatRoomClient.ApplyReaction` | chat-app/client/src/components/ChatRoom.jsx:48-57 | every message with the id gets `reactions[username] = reaction`, and the others are kept, in order |
| `ChatRoomClient.ReactionTouchesOnlyThatUser` | chat-app/client/src/components/ChatRoom.jsx:48-57 | a reaction event changes only that user's reaction on the message: order, other fields and other users' keys stay |
| `ChatRoomClient.ClientAgreesWithServer` | chat-app/client/src/components/ChatRoom.jsx:46-58 | with distinct ids the client's list and the server's history agree after a reaction |
| `ChatRoomClient.ReplySnapshot` | chat-app/client/src/components/ChatRoom.jsx:126 | the reply holds the id, username and text of the message replied to |
| `ChatRoomClient.ChatRoom.constructor` | chat-app/client/src/components/ChatRoom.jsx:8-28 | mounting starts with empty lists, idle, no connection or queue, and emits `get_users` |
| `ChatRoomClient.ChatRoom.OnReceiveMessage` | chat-app/client/src/components/ChatRoom.jsx:30-32 | the message is appended with its reactions reset to empty |
| `ChatRoomClient.ChatRoom.OnLoadMessages` | chat-app/client/src/components/ChatRoom.jsx:34-36 | the history replaces the list |
| `ChatRoomClient.ChatRoom.OnUserList` | chat-app/client/src/components/ChatRoom.jsx:38-40 | the user list replaces the presence list |
| `ChatRoomClient.ChatRoom.OnUserTyping` | chat-app/client/src/components/ChatRoom.jsx:42-44 | the typing name while typing, `''` otherwise |
| `ChatRoomClient.ChatRoom.OnMessageReaction` | chat-app/client/src/components/ChatRoom.jsx:46-58 | the list becomes `ApplyReaction` of the old list |
| `ChatRoomClient.ChatRoom.OnCallUser` | chat-app/client/src/components/ChatRoom.jsx:61-65 | incoming, with the caller's name and `{from, signal, isVideo}` stored |
| `ChatRoomClient.ChatRoom.FlushQueue` | chat-app/client/src/components/ChatRoom.jsx:73-76 | every queued candidate, in order, is offered to the connection and the queue ends empty |
| `ChatRoomClient.ChatRoom.OnCallAccepted` | chat-app/client/src/components/ChatRoom.jsx:67-79 | connected; a live connection takes the answer and drains the queue into itself, and a closed one accepts nothing |
| `ChatRoomClient.ChatRoom.OnIceCandidate` | chat-app/client/src/components/ChatRoom.jsx:81-88 | offered at once when the connection has a remote description, queued otherwise |
| `ChatRoomClient.ChatRoom.OnLocalCandidate` | chat-app/client/src/components/ChatRoom.jsx:188-193 | a gathered candidate is sent to the connection's peer |
| `ChatRoomClient.ChatRoom.OnEndCall` | chat-app/client/src/components/ChatRoom.jsx:90-92 | idle and the connection closed, with nothing emitted |
| `ChatRoomClient.ChatRoom.EndCall` | chat-app/client/src/components/ChatRoom.jsx:300-319 | idle from any state, the connection closed and the queue kept, and `end_call` sent to the first user with another name if there is one |
| `ChatRoomClient.ChatRoom.BeginStartCall` | chat-app/client/src/components/ChatRoom.jsx:149-154 | up to the permission prompt: the target is the first user with another name; with none it alerts, and nothing else changes |
| `ChatRoomClient.ChatRoom.ResumeStartCall` | chat-app/client/src/components/ChatRoom.jsx:154-218 | after the prompt, whatever came meanwhile: refused media changes nothing; granted media sets calling, opens a connection to the target and sends the offer |
| `ChatRoomClient.ChatRoom.StartCall` | chat-app/client/src/components/ChatRoom.jsx:149-223 | with nothing arriving during the prompt: with no other user it alerts and changes nothing else; with media it goes to calling, opens a connection to the target and sends the offer; refused media changes nothing |
| `ChatRoomClient.ChatRoom.BeginAnswer` | chat-app/client/src/components/ChatRoom.jsx:225-229 | up to the permission prompt: connected at once, and the caller's signal of that render is the one the rest uses |
| `ChatRoomClient.ChatRoom.ResumeAnswer` | chat-app/client/src/components/ChatRoom.jsx:229-293 | after the prompt, whatever came meanwhile: with media, a new connection takes the offer and the queue as it is then, the queue empties and the answer goes to the caller; the call state is not touched again |
| `ChatRoomClient.ChatRoom.AnswerCall` | chat-app/client/src/components/ChatRoom.jsx:225-298 | with nothing arriving during the prompt: connected at once; with the caller's offer and media, a new connection takes the offer and the queued candidates, the queue empties and the answer goes to the caller |
| `ChatRoomClient.ChatRoom.SendMessage` | chat-app/client/src/components/ChatRoom.jsx:107-133 | the message is emitted and appended with empty reactions and the reply snapshot, and the reply is cleared |
| `ChatRoomClient.ChatRoom.HandleTyping` | chat-app/client/src/components/ChatRoom.jsx:135-137 | emits `typing` and changes nothing else |
| `ChatRoomClient.ChatRoom.HandleReaction` | chat-app/client/src/components/ChatRoom.jsx:139-142 | emits `add_reaction` only; the list waits for the echo |
| `ChatRoomClient.ChatRoom.HandleReply` | chat-app/client/src/components/ChatRoom.jsx:144-146 | the message becomes the one replied to |
| `ChatRoomClient.ChatRoom.CancelReply` | chat-app/client/src/components/ChatRoom.jsx:463 | the reply is cleared |
| `ChatRoomClient.ChatRoom.Deliver` | chat-app/client/src/components/ChatRoom.jsx:26-92 | each server notice has its listener's full effect on the client state: history and user list replaced, typing shown or cleared, reaction applied, message appended with empty reactions, an incoming call with its caller and signal, an answer applied live or after draining the queue, a candidate added or queued, a hang-up closing the call; errors and `room_joined` change nothing here; a relayed call arrives without `isVideo` |
| `ChatRoomClient.SecondCallLosesEarlyCandidate` | chat-app/client/src/components/ChatRoom.jsx:81-88 | after a first call ends, an early candidate of a second call goes to the closed connection and is lost |
| `ChatRoomClient.StaleCandidateReachesNextCall` | chat-app/client/src/components/ChatRoom.jsx:300-319 | a candidate queued during a call that never connected is applied by the next call's connection |
| `ChatRoomClient.HangUpDuringAnswerPrompt` | chat-app/client/src/components/ChatRoom.jsx:225-293 | a hang-up during the answerer's permission prompt leaves the callee idle with a live connection, and the caller still gets the answer |
| `ChatRoomClient.IncomingCallDuringStartPrompt` | chat-app/client/src/components/ChatRoom.jsx:149-158 | a call that arrives during the caller's own permission prompt is overwritten by calling, with its signal still stored |
| `AppSession.PinInput` | chat-app/client/src/components/LockScreen.jsx:31-33 | `maxLength={6}`: the entry cut to its first six characters, unchanged when it is no longer |
| `AppSession.Repeat` | chat-app/client/src/App.jsx:45 | one alert per pending `error` listener, each with the same text |
| `AppSession.App.constructor` | chat-app/client/src/App.jsx:10-12 | no room, unlocked, activity at the start time, nothing pending or emitted |
| `AppSession.App.HandleCreateRoom` | chat-app/client/src/App.jsx:38-46 | emits `create_room` and adds one `room_joined` and one `error` listener, changing nothing else |
| `AppSession.App.HandleJoinRoom` | chat-app/client/src/App.jsx:48-55 | emits `join_room` and adds one `room_joined` and one `error` listener |
| `AppSession.App.OnRoomJoined` | chat-app/client/src/App.jsx:41-44 | every pending listener runs, so the last request's data is kept and the activity clock restarts; with none pending nothing changes |
| `AppSession.App.OnError` | chat-app/client/src/App.jsx:45 | every pending `error` listener alerts the text once and is removed |
| `AppSession.App.HandleUnlock` | chat-app/client/src/App.jsx:57-64 | true exactly when the pin is the room's, which unlocks and restarts the clock; a wrong pin changes nothing |
| `AppSession.App.OnLock` | chat-app/client/src/App.jsx:86 | locks, changing nothing else |
| `AppSession.App.HandleExit` | chat-app/client/src/App.jsx:66-71 | emits `leave_room`, forgets the room and unlocks |
| `AppSession.App.Activity` | chat-app/client/src/App.jsx:24 | counted only while in an unlocked room |
| `AppSession.App.AutoLockTick` | chat-app/client/src/App.jsx:18-22 | locks exactly when in a room and strictly more than five minutes passed since the last activity; nothing else changes |
| `AppSession.App.View` | chat-app/client/src/App.jsx:73-87 | the auth screen exactly when there is no room, otherwise the chat with the lock overlay as `isLocked` says |
| `AppSession.AutoLockBoundary` | chat-app/client/src/App.jsx:19 | exactly five minutes idle does not lock, one millisecond more does, and unlocking restarts the count |
| `AppSession.LeftoverListenerIsHarmless` | chat-app/client/src/App.jsx:38-55 | a failed create's leftover `room_joined` listener runs on a later join, whose data is kept |
| `LockScreenForm.LockScreen.constructor` | chat-app/client/src/components/LockScreen.jsx:5-6 | an empty pin and no error |
| `LockScreenForm.LockScreen.SetPin` | chat-app/client/src/components/LockScreen.jsx:31-33 | the field holds the entry under `maxLength` and the error stays |
| `LockScreenForm.LockScreen.Submit` | chat-app/client/src/components/LockScreen.jsx:8-16 | lifted exactly when the pin is the room's; success clears the error, failure shows `Incorrect PIN` and clears the pin |
| `LockScreenForm.LockScreen.Exit` | chat-app/client/src/components/LockScreen.jsx:52 | runs `handleExit` |
| `LockScreenForm.WrongThenRightPin` | chat-app/client/src/components/LockScreen.jsx:8-16 | a wrong pin does not unlock and the right one then does, with the error cleared |
| `AuthForm.Dispatch` | chat-app/client/src/components/AuthScreen.jsx:10-19 | nothing exactly when a field is empty; otherwise join in joining mode and create otherwise, with the three fields |
| `AuthForm.BlankFieldsPass` | chat-app/client/src/components/AuthScreen.jsx:12 | whitespace-only fields are not refused |
| `AuthForm.RequestOf` | chat-app/client/src/components/AuthScreen.jsx:14-18 | a join choice emits `join_room` and a create choice `create_room`, with the choice's data |
| `AuthForm.AuthScreen.constructor` | chat-app/client/src/components/AuthScreen.jsx:5-8 | joining mode with empty fields |
| `AuthForm.AuthScreen.SetUsername` | chat-app/client/src/components/AuthScreen.jsx:52 | sets the username only |
| `AuthForm.AuthScreen.SetRoomId` | chat-app/client/src/components/AuthScreen.jsx:62 | sets the room id only |
| `AuthForm.AuthScreen.SetPin` | chat-app/client/src/components/AuthScreen.jsx:72-73 | sets the pin under `maxLength` only |
| `AuthForm.AuthScreen.Toggle` | chat-app/client/src/components/AuthScreen.jsx:89 | flips the mode only |
| `AuthForm.AuthScreen.Submit` | chat-app/client/src/components/AuthScreen.jsx:10-19 | at most one of the app's handlers runs, as `Dispatch` decides, with the form's fields |
| `MessageComposer.TrimStart` | chat-app/client/src/components/MessageInput.jsx:36 | a suffix of the draft, everything removed is whitespace, and it does not start with whitespace |
| `MessageComposer.TrimEnd` | chat-app/client/src/components/MessageInput.jsx:36 | a prefix of the draft, everything removed is whitespace, and it does not end with whitespace |
| `MessageComposer.TrimEmptyIff` | chat-app/client/src/components/MessageInput.jsx:36 | a draft trims to nothing exactly when all of it is whitespace |
| `MessageComposer.MediaKind` | chat-app/client/src/components/MessageInput.jsx:17 | `'video'` exactly for a `video/` MIME type and `'image'` for every other |
| `MessageComposer.MessageInput.constructor` | chat-app/client/src/components/MessageInput.jsx:6 | an empty draft and nothing sent |
| `MessageComposer.MessageInput.HandleSubmit` | chat-app/client/src/components/MessageInput.jsx:34-41 | a blank draft is neither sent nor cleared; any other is sent untrimmed as text, then cleared, and typing is reported over |
| `MessageComposer.MessageInput.HandleTyping` | chat-app/client/src/components/MessageInput.jsx:43-48 | stores the value and reports typing |
| `MessageComposer.MessageInput.TypingTimerFires` | chat-app/client/src/components/MessageInput.jsx:46 | reports typing over |
| `MessageComposer.MessageInput.OnEmojiClick` | chat-app/client/src/components/MessageInput.jsx:50-52 | the emoji goes at the end of the draft |
| `MessageComposer.MessageInput.HandleFileSelect` | chat-app/client/src/components/MessageInput.jsx:11-22 | no file sends nothing; a file sends its data URL with its media kind, and the draft stays |

## Left out

- Sockets, HTTP, the static file route and the `socket.join` memberships are left out. Emits are an ordered log with symbolic targets, and delivery to the room's sockets is not modelled.
- WebRTC media is left out: streams, tracks, `ontrack`, `toggleMute`, `toggleVideo` and `isMuted`. Also left out is `onnegotiationneeded`, with its repeated `call_user` emit. Whether `getUserMedia` succeeds is a parameter.
- The wait for `getUserMedia` (the permission prompt) is modelled: `startCall` and `answerCall` are each split at that `await` into a Begin and a Resume method, and any notice may be delivered between the two. The later awaits of `setRemoteDescription`, `createOffer` and `createAnswer` act at once inside Resume, so nothing is modelled as arriving between them. Their failure paths only log, and are left out.
- `isVideoEnabled` is modelled only as the flag the two call paths set. `StartCall` sets it from the requested kind. `AnswerCall` sets it from `callerSignal.isVideo`, which the relay never carries, so on the answering side it is always false. What the flag controls in the media (`toggleVideo`, the video track) is left out with the media.
- Ids come from `crypto.randomUUID` and times from `Date.now` or `toISOString`. They are parameters, and timestamps are integers.
- Timers (`setInterval`, `setTimeout`) are methods: the test scenarios call one tick at a time.
- `window.location.reload` in `handleExit` is left out: a reload is outside the model.
- The `console.log` calls are left out.
- `MessageList.jsx` is not part of this model: it only renders.
- JSX markup and styling are left out.
- The emoji picker's open state and its outside-click handler are left out.
- `FileReader` is left out: a picked file arrives as its MIME type and data URL.
- The JSON text of `reply_to` is left out: a reply is stored decoded. `JSON.stringify` followed by `JSON.parse` is taken to be the identity.
- `ChatStore.Store.SaveMessage`: the `SqliteError` that `better-sqlite3` throws on a foreign-key or primary-key violation is modelled as the result `ok == false` with no change to the tables; the exception itself and its message are not modelled.
- `ChatStore.Store.SaveReaction`: the `SqliteError` thrown when the message row is missing is modelled as `ok == false` with no change to the tables; the exception itself is not modelled.
- SQLite is assumed to enforce foreign keys. The `NOT NULL` columns are assumed always present. Only a missing or empty `type` is modelled.
- The order of rows with equal `created_at` is left unspecified. `CURRENT_TIMESTAMP` has one-second resolution, so ties are common, and SQLite returns them in no promised order. `SortByCreation` picks one order, and no contract depends on which.
- `GROUP_CONCAT` is assumed to concatenate in reaction rowid order.
- The order in which the disconnect loop visits `rooms` is left open: the contract holds for some enumeration of the keys.
- Object keys such as `__proto__` are left out: JavaScript objects are plain maps.
- `get_users` and `leave_room` have no server handler. `RoomServer.Server.Handle` leaves the state unchanged for them.
- The server in `index.js` does not call `database.js`. The store is modelled on its own, as the source has it.
