/** The room registry of the older socket server in pages/api/socket.ts, as
    values. Users are a set of names and votes are keyed by name; the socket
    id is never part of the state. */
module LegacyRooms {
  import opened Common

  /** A `RoomState` record. */
  datatype Room = Room(users: set<string>, votes: map<string, Ballot>, closed: bool)

  /** The `rooms` Map. */
  type Rooms = map<RoomId, Room>

  /** The record `room:create` and `reset` store. */
  const EmptyRoom := Room({}, map[], false)

  /** The dash positions of a version-4 UUID string such as
      `crypto.randomUUID()` returns: 8-4-4-4-12 hexadecimal digits. */
  predicate IsDashAt(i: int)
  {
    i == 8 || i == 13 || i == 18 || i == 23
  }

  predicate IsHexDigit(c: char)
  {
    ('0' <= c <= '9') || ('a' <= c <= 'f')
  }

  /** The shape of a string `crypto.randomUUID()` returns. */
  predicate IsUuid(s: string)
  {
    && |s| == 36
    && forall i :: 0 <= i < |s| ==> if IsDashAt(i) then s[i] == '-' else IsHexDigit(s[i])
  }

  /** The id `room:create` uses: the payload's `roomId` unless it is falsy,
      else the random UUID the runtime supplies. Either way it is not the
      key that stands for a missing `roomId`. */
  function ChosenId(roomId: RoomId, uuid: string): (id: RoomId)
    requires IsUuid(uuid)
    ensures id != ""
    ensures roomId != "" ==> id == roomId
    ensures roomId == "" ==> IsUuid(id)
  {
    if roomId != "" then roomId else uuid
  }

  // ---------------------------------------------------------------------
  // The handlers, as functions of the registry

  /** `room:create` with room id `id`: the room is made only if absent, then
      the admin's name is added to its `users` set. */
  function AfterCreate(rooms: Rooms, id: RoomId, admin: string): (r: Rooms)
    ensures r.Keys == rooms.Keys + {id}
    ensures KeptExcept(rooms, r, id)
    ensures r[id].users == (if id in rooms then rooms[id].users else {}) + {admin}
    ensures id in rooms ==> r[id].votes == rooms[id].votes && r[id].closed == rooms[id].closed
    ensures id !in rooms ==> r[id].votes == map[] && !r[id].closed
  {
    var room := if id in rooms then rooms[id] else EmptyRoom;
    rooms[id := room.(users := room.users + {admin})]
  }

  /** `room:join`: an unknown id changes nothing; otherwise the name is added
      to the room's `users` set. */
  function AfterJoin(rooms: Rooms, id: RoomId, name: string): (r: Rooms)
    ensures id !in rooms ==> r == rooms
    ensures id in rooms ==>
              && r.Keys == rooms.Keys
              && KeptExcept(rooms, r, id)
              && r[id].users == rooms[id].users + {name}
              && r[id].votes == rooms[id].votes
              && r[id].closed == rooms[id].closed
  {
    if id !in rooms then rooms else rooms[id := rooms[id].(users := rooms[id].users + {name})]
  }

  /** `vote`: nothing happens if the room is missing or closed; otherwise the
      ballot is stored under the payload's user name, replacing an earlier
      one, whether or not the name is in `users`. */
  function AfterVote(rooms: Rooms, id: RoomId, user: string, emoji: string, score: int): (r: Rooms)
    ensures id !in rooms || rooms[id].closed ==> r == rooms
    ensures id in rooms && !rooms[id].closed ==>
              && r.Keys == rooms.Keys
              && KeptExcept(rooms, r, id)
              && r[id].votes.Keys == rooms[id].votes.Keys + {user}
              && r[id].votes[user] == Ballot(emoji, score)
              && KeptExcept(rooms[id].votes, r[id].votes, user)
              && r[id].users == rooms[id].users
              && r[id].closed == rooms[id].closed
  {
    if id !in rooms || rooms[id].closed then rooms
    else rooms[id := rooms[id].(votes := rooms[id].votes[user := Ballot(emoji, score)])]
  }

  /** `close`: sets the room's `closed` flag and nothing else. */
  function AfterClose(rooms: Rooms, id: RoomId): (r: Rooms)
    ensures id !in rooms ==> r == rooms
    ensures id in rooms ==>
              && r.Keys == rooms.Keys
              && KeptExcept(rooms, r, id)
              && r[id].closed
              && r[id].users == rooms[id].users
              && r[id].votes == rooms[id].votes
  {
    if id !in rooms then rooms else rooms[id := rooms[id].(closed := true)]
  }

  /** `reset`: the room under `id` becomes an empty, open room, whether or not
      it existed before. */
  function AfterReset(rooms: Rooms, id: RoomId): (r: Rooms)
    ensures r.Keys == rooms.Keys + {id}
    ensures KeptExcept(rooms, r, id)
    ensures r[id].users == {} && r[id].votes == map[] && !r[id].closed
  {
    rooms[id := EmptyRoom]
  }

  /** `room:leave`: deletes the name from the room's `users` and `votes`. */
  function AfterLeave(rooms: Rooms, id: RoomId, name: string): (r: Rooms)
    ensures id !in rooms ==> r == rooms
    ensures id in rooms ==>
              && r.Keys == rooms.Keys
              && KeptExcept(rooms, r, id)
              && r[id].users == rooms[id].users - {name}
              && r[id].votes.Keys == rooms[id].votes.Keys - {name}
              && SubMap(r[id].votes, rooms[id].votes)
              && r[id].closed == rooms[id].closed
  {
    if id !in rooms then rooms
    else rooms[id := rooms[id].(users := rooms[id].users - {name}, votes := rooms[id].votes - {name})]
  }

  // ---------------------------------------------------------------------
  // Handlers in combination

  /** Creating twice with the same admin name is creating once: names form a set. */
  lemma CreateIsIdempotent(rooms: Rooms, id: RoomId, admin: string)
    ensures AfterCreate(AfterCreate(rooms, id, admin), id, admin) == AfterCreate(rooms, id, admin)
  {
    var once := AfterCreate(rooms, id, admin);
    assert AfterCreate(once, id, admin)[id] == once[id];
  }

  /** Joining twice with the same name is joining once. */
  lemma JoinIsIdempotent(rooms: Rooms, id: RoomId, name: string)
    ensures AfterJoin(AfterJoin(rooms, id, name), id, name) == AfterJoin(rooms, id, name)
  {
    if id in rooms {
      var once := AfterJoin(rooms, id, name);
      assert AfterJoin(once, id, name)[id] == once[id];
    }
  }

  /** A later vote under the same name replaces the earlier one. */
  lemma LastVoteWins(rooms: Rooms, id: RoomId, user: string, e1: string, s1: int, e2: string, s2: int)
    ensures AfterVote(AfterVote(rooms, id, user, e1, s1), id, user, e2, s2) == AfterVote(rooms, id, user, e2, s2)
  {
    if id in rooms && !rooms[id].closed {
      var twice := AfterVote(AfterVote(rooms, id, user, e1, s1), id, user, e2, s2);
      var once := AfterVote(rooms, id, user, e2, s2);
      assert twice[id].votes == once[id].votes;
      assert twice[id] == once[id];
    }
  }

  /** A vote on a closed room is a no-op. */
  lemma VoteAfterCloseIsNoOp(rooms: Rooms, id: RoomId, user: string, emoji: string, score: int)
    ensures AfterVote(AfterClose(rooms, id), id, user, emoji, score) == AfterClose(rooms, id)
  {
  }

  /** After a reset the room is the same whatever it held before. */
  lemma ResetForgetsRoom(before: Rooms, id: RoomId, room: Room)
    ensures AfterReset(before[id := room], id) == AfterReset(before, id)
  {
  }

  /** Leaving right after joining restores the registry, for a name that had
      neither a place in `users` nor a vote in that room. */
  lemma LeaveUndoesJoin(rooms: Rooms, id: RoomId, name: string)
    requires id in rooms ==> name !in rooms[id].users && name !in rooms[id].votes
    ensures AfterLeave(AfterJoin(rooms, id, name), id, name) == rooms
  {
    if id in rooms {
      var back := AfterLeave(AfterJoin(rooms, id, name), id, name);
      assert back[id].users == rooms[id].users;
      assert back[id].votes == rooms[id].votes;
      assert back[id] == rooms[id];
    }
  }

  // ---------------------------------------------------------------------
  // Sequences of inbound events

  /** A socket event this server handles, with the payload fields the
      handler reads. `uuid` stands for the value `crypto.randomUUID()` would
      return. */
  datatype Inbound =
    | CreateRoom(roomId: RoomId, admin: string, uuid: string)
    | JoinRoom(roomId: RoomId, name: string)
    | CastVote(roomId: RoomId, user: string, emoji: string, score: int)
    | CloseRoom(roomId: RoomId)
    | RevealVotes(roomId: RoomId)
    | ResetVotes(roomId: RoomId)
    | LeaveRoom(roomId: RoomId, name: string)
    | Hangup

  /** The runtime's UUID has the shape `crypto.randomUUID()` gives it. */
  predicate WellFormed(msg: Inbound)
  {
    msg.CreateRoom? ==> IsUuid(msg.uuid)
  }

  predicate AllWellFormed(msgs: seq<Inbound>)
  {
    forall i :: 0 <= i < |msgs| ==> WellFormed(msgs[i])
  }

  /** The registry after one handler ran; `disconnect` changes nothing. */
  function Step(rooms: Rooms, msg: Inbound): (r: Rooms)
    requires WellFormed(msg)
    ensures rooms.Keys <= r.Keys
    ensures msg.Hangup? || msg.RevealVotes? ==> r == rooms
  {
    match msg
    case CreateRoom(roomId, admin, uuid) => AfterCreate(rooms, ChosenId(roomId, uuid), admin)
    case JoinRoom(id, name) => AfterJoin(rooms, id, name)
    case CastVote(id, user, emoji, score) => AfterVote(rooms, id, user, emoji, score)
    case CloseRoom(id) => AfterClose(rooms, id)
    case RevealVotes(_) => rooms
    case ResetVotes(id) => AfterReset(rooms, id)
    case LeaveRoom(id, name) => AfterLeave(rooms, id, name)
    case Hangup => rooms
  }

  /** The registry after the handlers for `msgs` ran in order: no room is
      ever deleted. */
  function Run(rooms: Rooms, msgs: seq<Inbound>): (r: Rooms)
    requires AllWellFormed(msgs)
    ensures rooms.Keys <= r.Keys
    decreases |msgs|
  {
    if msgs == [] then rooms else Run(Step(rooms, msgs[0]), msgs[1..])
  }

  /** Once closed, a room stays closed and gains no vote until it is reset:
      every vote in between is a no-op. */
  lemma {:induction false} ClosedUntilReset(rooms: Rooms, msgs: seq<Inbound>, id: RoomId)
    requires AllWellFormed(msgs)
    requires id in rooms && rooms[id].closed
    requires forall i :: 0 <= i < |msgs| ==> msgs[i] != ResetVotes(id)
    ensures id in Run(rooms, msgs) && Run(rooms, msgs)[id].closed
    ensures SubMap(Run(rooms, msgs)[id].votes, rooms[id].votes)
    decreases |msgs|
  {
    if msgs != [] {
      var next := Step(rooms, msgs[0]);
      assert id in next && next[id].closed && SubMap(next[id].votes, rooms[id].votes);
      ClosedUntilReset(next, msgs[1..], id);
    }
  }
}
