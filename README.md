# Mood-voting room server, modelled in Dafny

This project models the server side of a small "mood check" voting app. Participants join a room, each sends an emoji and a score, and an admin can close voting, reveal the votes or reset the round. The room state lives in one in-memory `rooms` Map, changed by socket.io event handlers. Two versions of that handler set are modelled:

- **server.js**, the live custom server. Each room holds:
  - `users`: a map from socket id to a user record `{id, name, isAdmin, hasVoted, vote?}`;
  - `votes`: a map from socket id to `{emoji, score}`;
  - a `closed` flag and an `isVotingOpen` flag.

  Nine handlers act on the Map: `room:create`, `room:join`, `vote`, `close`, `reveal`, `reset`, `start-voting`, `room:leave` and `disconnect`. All but `reveal` may change it; `reveal` only reads the room's votes. `generateRoomId` makes 8-character room ids.
- **pages/api/socket.ts**, an older version of the same protocol. `users` is a set of names, `votes` is keyed by name, and `reset` replaces the whole room.

## Files and modules

| file | module | contents |
|---|---|---|
| `common.dfy` | `Common` | the stored ballot, the outbound event log (`Emit(event, target)`, where the target is the caller or a room), and `ResultsOf`, the `reveal` listing both servers build the same way |
| `server_rooms.dfy` | `ServerRooms` | the server.js data model; the invariant `StoreOk`; one function `AfterX` per handler giving the registry after it ran; room-id generation; lemmas that relate handlers; a `Step`/`Run` model of any sequence of socket events |
| `server_handlers.dfy` | `ServerHandlers` | class `Store`, whose fields are `rooms`, `order` (the Map's insertion order) and `log`, with one method per handler; `GenerateRoomId` and `DisconnectPass`, the loops of the source |
| `legacy_rooms.dfy` | `LegacyRooms` | the same for pages/api/socket.ts, on values |
| `legacy_handlers.dfy` | `LegacyHandlers` | class `Store` for pages/api/socket.ts |

Each `Store` method changes the fields the handler changes, and nothing else. Its `ensures` gives the new `rooms` as the matching `AfterX` function of the old one, and gives the exact events appended to `log`, in the order the handler emits them. The properties of each handler are stated on its `AfterX` function and in the lemmas beside it.

The server.js `Store` also keeps the invariant `StoreOk`. For every user stored under key `k`:
- its `id` is `k`;
- `hasVoted` is true exactly when `vote` is defined;
- a defined `vote` equals `votes[k]`, with `scale` equal to `score`.

### Conventions

- Modelling choices:
  - An absent or falsy `roomId` is the empty string.
  - The `isVotingOpen` field that `room:create` never sets is `false`.
  - An undefined `vote` is `None`.
- Where the randomness goes:
  - `Math.random()` in `generateRoomId` becomes the eight indices it would pick (`picks`).
  - `crypto.randomUUID()` in the older server becomes a `uuid` argument.
- Event payloads:
  - A presence payload is the set of user records, or of names in the older server.
  - A `reveal` payload is a sequence of `{user, emoji, score}` entries.

### Behaviour of the code as written

The model gives each of the following its own lemma or contract:
- `room:join` or `room:create` by a socket that has already voted resets its `hasVoted` but keeps its ballot in `votes`, so a later `reveal` still shows that ballot.
- server.js stores a `vote` from a socket that is not a member of the room, and `reveal` lists it.
- `disconnect` removes the caller's ballot only from rooms whose `users` hold the caller.
- No handler ever deletes a room.
- In the older server, `reset` creates the room if it did not exist.

The clients emit seven event names that neither server listens for: app/page.tsx:60-96 emits `join-room`, `create-room`, `close-voting`, `reveal-results`, `reset-voting` and `submit-vote`, and app/[roomId]/page.tsx:139 emits `finish-session`. They have no effect on the room state. Of the events app/page.tsx emits, only `start-voting` (app/page.tsx:72) is handled, by server.js:144. Neither server checks who calls `close`, `reveal` or `reset`, validates a vote's emoji or score, or ever deletes a room; the model states exactly that behaviour.

## Model

| member | source | states |
|---|---|---|
| `Common.NameIdentifiesKind` | server.js:74-172 | two outbound events share a wire name (`presence`, `room:created`, `room:joined`, `error`, `vote:ack`, `closed`, `reveal`, `reset`, `voting-started`) exactly when they are of the same kind |
| `Common.ResultsOf` | server.js:123 | the `reveal` listing has exactly one entry per entry of `votes`: same length, the same keys, no key twice, and each entry carries that key's emoji and score |
| `ServerRooms.AfterCreate` | server.js:56-72 | the room exists afterwards. If it already existed, its other users, its votes and both flags are kept. A fresh room has no votes and both flags false. Either way the caller's entry is `{id: conn, name: admin, isAdmin: true, hasVoted: false}` with no vote. Other rooms are unchanged and the invariant is preserved |
| `ServerRooms.AfterJoin` | server.js:79-91 | an unknown room id changes nothing. Otherwise the caller's entry becomes a non-admin who has not voted; the other users, the votes, both flags and the other rooms are unchanged; the invariant is preserved |
| `ServerRooms.AfterVote` | server.js:98-107 | a missing or closed room is a no-op. Otherwise `votes[conn]` is the new ballot, member or not, and other ballots are kept. A member caller gets `hasVoted` true and `vote = {emoji, scale: score}`, keeping its id, name and admin flag. Other users, flags and rooms are unchanged; the invariant is preserved |
| `ServerRooms.AfterClose` | server.js:113-116 | only the room's `closed` flag changes, to true; an unknown room is a no-op |
| `ServerRooms.AfterStartVoting` | server.js:144-147 | only the room's `isVotingOpen` flag changes, to true; an unknown room is a no-op |
| `ServerRooms.AfterReset` | server.js:127-138 | `votes` is empty and both flags are false. The member key set and each member's id, name and admin flag are kept, and every member has `hasVoted` false with no vote. Other rooms are unchanged; the invariant is preserved |
| `ServerRooms.AfterLeave` | server.js:151-155 | the caller is removed from that room's `users` and `votes` and nothing else changes; an unknown room is a no-op |
| `ServerRooms.AfterDisconnect` | server.js:167-174 | no room is added or deleted. Every room whose `users` held the caller is changed exactly as by `room:leave`; every other room is unchanged. Afterwards no room holds the caller, and the invariant is preserved |
| `ServerRooms.DisconnectEmitsTargets` | server.js:168-173 | presence events go only to rooms that held the caller, and carry the users left there. Each such room gets one, and since rooms are visited once, no room gets two |
| `ServerRooms.AlphabetShape` | server.js:187 | the id alphabet is 36 distinct characters, each an upper-case letter or a digit |
| `ServerRooms.Spell` | server.js:189-191 | the spelled string has one character per pick, the alphabet character at that pick |
| `ServerRooms.GeneratedId` | server.js:186-193 | a generated id has exactly 8 characters, each in `A-Z0-9` |
| `ServerRooms.ChosenId` | server.js:57 | `room:create` uses the payload's non-empty `roomId` as given, and otherwise a generated id of 8 characters from `A-Z0-9`; the chosen id is never empty |
| `ServerRooms.VoteAfterCloseIsNoOp` | server.js:98-116 | after `close`, a `vote` on that room changes nothing |
| `ServerRooms.VoteAfterResetIsRecorded` | server.js:98-138 | after `reset`, a `vote` is recorded again and is the room's only ballot |
| `ServerRooms.ResetUndoesClose` | server.js:113-138 | `close` then `reset` leaves the registry as `reset` alone does |
| `ServerRooms.ResetUndoesStartVoting` | server.js:127-147 | `start-voting` then `reset` leaves the registry as `reset` alone does |
| `ServerRooms.ResetIsIdempotent` | server.js:127-138 | resetting twice is resetting once |
| `ServerRooms.LeaveUndoesJoin` | server.js:79-155 | `room:join` then `room:leave` by a socket with no entry and no ballot in the room restores the registry |
| `ServerRooms.RevealListsMemberVotes` | server.js:101-123 | under the invariant, every member that has voted appears in the `reveal` listing, with the ballot its record shows |
| `ServerRooms.Step` | server.js:55-174 | one handler never deletes a room and preserves the invariant |
| `ServerRooms.Run` | server.js:14-174 | any sequence of handlers never deletes a room and preserves the invariant |
| `ServerRooms.StepKeepsClosed` | server.js:98-155 | any handler other than a reset of that room keeps a closed room closed and adds no ballot to it |
| `ServerRooms.ClosedUntilReset` | server.js:98-174 | once closed, a room stays closed and its ballots only shrink over any sequence of events without a reset of that room, so every vote in between is a no-op |
| `ServerHandlers.GenerateRoomId` | server.js:186-193 | the loop builds exactly the id `GeneratedId` describes: 8 characters, character `i` being the alphabet character at pick `i` |
| `ServerHandlers.DisconnectPass` | server.js:168-174 | the loop over the rooms, in insertion order, yields `AfterDisconnect`'s registry and exactly the presence events `DisconnectEmits` lists |
| `ServerHandlers.Store.constructor` | server.js:14 | the registry starts empty with an empty log, and the invariant holds |
| `ServerHandlers.Store.Create` | server.js:56-76 | the new registry is `AfterCreate` of the old one, under `ChosenId`. A new id is appended to the insertion order. The log gains presence to the room, then `room:created` to the caller |
| `ServerHandlers.Store.Join` | server.js:79-95 | the new registry is `AfterJoin`'s. The log gains either `error` "Room not found" to the caller, or presence to the room then `room:joined` to the caller |
| `ServerHandlers.Store.Vote` | server.js:98-111 | the new registry is `AfterVote`'s. A missing or closed room logs nothing; otherwise the log gains `vote:ack` to the caller, then presence to the room |
| `ServerHandlers.Store.Close` | server.js:113-118 | the new registry is `AfterClose`'s; `closed` goes to the room if it exists |
| `ServerHandlers.Store.Reveal` | server.js:120-125 | no room changes; for an existing room the emitted results list every ballot exactly once |
| `ServerHandlers.Store.Reset` | server.js:127-141 | the loop over the users yields `AfterReset`'s registry; presence, then `reset`, go to the room if it exists |
| `ServerHandlers.Store.StartVoting` | server.js:144-149 | the new registry is `AfterStartVoting`'s; `voting-started` goes to the room if it exists |
| `ServerHandlers.Store.Leave` | server.js:151-158 | the new registry is `AfterLeave`'s; presence goes to the room if it exists |
| `ServerHandlers.Store.Disconnect` | server.js:160-175 | the new registry is `AfterDisconnect`'s, the insertion order is kept, and the log gains `DisconnectEmits` over the rooms in insertion order |
| `LegacyRooms.ChosenId` | pages/api/socket.ts:44 | `room:create` uses the payload's non-empty `roomId` as given, and otherwise the UUID, which has the 36-character 8-4-4-4-12 hexadecimal shape; the chosen id is never the empty key that stands for a missing `roomId` |
| `LegacyRooms.AfterCreate` | pages/api/socket.ts:43-49 | the room exists afterwards and its `users` set gains the admin name. An existing room keeps its votes and `closed`; a fresh one has none and is open. Other rooms are unchanged |
| `LegacyRooms.AfterJoin` | pages/api/socket.ts:56-62 | an unknown room changes nothing; otherwise only the name is added to `users` |
| `LegacyRooms.AfterVote` | pages/api/socket.ts:69-72 | a missing or closed room is a no-op. Otherwise `votes[user]` is the new ballot and the other ballots are kept. `users`, `closed` and other rooms are unchanged |
| `LegacyRooms.AfterClose` | pages/api/socket.ts:76-79 | only `closed` changes, to true; an unknown room is a no-op |
| `LegacyRooms.AfterReset` | pages/api/socket.ts:90-91 | the room at that id exists with no users, no votes and `closed` false, whether or not it existed; other rooms are unchanged |
| `LegacyRooms.AfterLeave` | pages/api/socket.ts:95-99 | the name is removed from that room's `users` and `votes`; other rooms are unchanged; an unknown room is a no-op |
| `LegacyRooms.CreateIsIdempotent` | pages/api/socket.ts:43-49 | creating twice with the same id and admin name is creating once, since duplicate names collapse |
| `LegacyRooms.JoinIsIdempotent` | pages/api/socket.ts:56-62 | joining twice with the same name is joining once |
| `LegacyRooms.LastVoteWins` | pages/api/socket.ts:69-72 | a second vote under the same name overwrites the first |
| `LegacyRooms.VoteAfterCloseIsNoOp` | pages/api/socket.ts:69-79 | after `close`, a `vote` on that room changes nothing |
| `LegacyRooms.ResetForgetsRoom` | pages/api/socket.ts:90-91 | the registry after `reset` does not depend on what the room held before |
| `LegacyRooms.LeaveUndoesJoin` | pages/api/socket.ts:56-99 | `room:join` then `room:leave` with a name that had no place and no ballot in the room restores the registry |
| `LegacyRooms.Step` | pages/api/socket.ts:43-106 | for an event whose UUID has the shape `crypto.randomUUID()` gives it, no handler deletes a room; `reveal` and `disconnect` change nothing |
| `LegacyRooms.Run` | pages/api/socket.ts:17-106 | no sequence of such events deletes a room |
| `LegacyRooms.ClosedUntilReset` | pages/api/socket.ts:69-101 | once closed, a room stays closed and its ballots only shrink until a reset of that room |
| `LegacyHandlers.Store.constructor` | pages/api/socket.ts:17-18 | the registry is the Map an earlier module load left in `global.moodRooms` when there is one, and otherwise empty; the log starts empty |
| `LegacyHandlers.Store.Create` | pages/api/socket.ts:43-53 | given a UUID of the shape `crypto.randomUUID()` returns, the new registry is `AfterCreate`'s under `ChosenId`; presence to the room, then `room:created` to the caller |
| `LegacyHandlers.Store.Join` | pages/api/socket.ts:56-66 | the new registry is `AfterJoin`'s; either `error` "Room not found" to the caller, or presence then `room:joined` |
| `LegacyHandlers.Store.Vote` | pages/api/socket.ts:69-74 | the new registry is `AfterVote`'s; `vote:ack` goes to the caller unless the room is missing or closed, and there is no presence event |
| `LegacyHandlers.Store.Close` | pages/api/socket.ts:76-81 | the new registry is `AfterClose`'s; `closed` goes to the room if it exists |
| `LegacyHandlers.Store.Reveal` | pages/api/socket.ts:83-88 | no room changes; for an existing room the emitted results list every ballot exactly once |
| `LegacyHandlers.Store.Reset` | pages/api/socket.ts:90-93 | the new registry is `AfterReset`'s; `reset` goes to the room unconditionally |
| `LegacyHandlers.Store.Leave` | pages/api/socket.ts:95-102 | the new registry is `AfterLeave`'s; presence goes to the room if it exists |
| `LegacyHandlers.Store.Disconnect` | pages/api/socket.ts:104-106 | nothing changes |

## Left out

- HTTP and socket.io setup are transport plumbing and not modelled: the Next.js server, CORS, the attach-once check and its 503 reply (server.js:1-53, 195-202; pages/api/socket.ts:20-39, 109-114).
- Console logging and the `error` socket handler only log (server.js:160-165, 177-183). They change no state.
- `socket.join` and `socket.leave` change transport membership. The log records which room a broadcast targets, not which sockets receive it.
- `Math.random()` and `crypto.randomUUID()` are supplied as arguments (`picks`, `uuid`).
- JavaScript payloads are untyped. The model takes `emoji` and names as strings and `score` as an integer; `undefined` or `null` room ids are the empty string.
- `roomState` (server.js:16-20) is never used.
- Handlers run one at a time on Node's event loop, so each method is atomic. Concurrency is not modelled.
- Event names that clients emit but no handler listens for (`join-room`, `create-room`, `close-voting`, `reveal-results`, `reset-voting`, `submit-vote`, `finish-session`) change nothing and have no member.
- `crypto.randomUUID()` is modelled only by the shape of its result, not by its randomness or uniqueness.
- ServerHandlers.Store.Reveal: does not state the order of the results, which in the source is the `votes` Map's insertion order. Only that the results list each ballot exactly once is stated.
- LegacyHandlers.Store.Reveal: does not state the order of the results either, for the same reason.
- Common.ResultsOf: picks the keys in an unspecified order rather than the Map's insertion order.
- Presence payloads are sets of user records, or of names. The order of `Array.from(room.users.values())` is not modelled.
- Room and user objects are values replaced in the `rooms` map, not objects updated in place. No reference to them leaves a handler, so no aliasing is lost.
- `lib/socket.ts`, `lib/slack.ts`, `lib/slack.js`, `pages/api/history.ts`, `pages/api/health.ts`, `pages/api/test-socket.ts`, the React pages and components, and `tailwind.config.js` are not part of this model. They are client, network, database, HTTP or rendering code.
