/** The room registry of the socket server in server.js, as values: what a
    room holds, the invariant its handlers keep, one function per handler
    giving the registry after that handler ran, and the room-id generator. */
module ServerRooms {
  import opened Common

  /** A socket id. */
  type ConnId = string

  /** `user.vote`: `{ emoji, scale }`, where `scale` is the ballot's `score`. */
  datatype Vote = Vote(emoji: string, scale: int)

  /** An entry of `room.users`. `vote` is `None` while it is undefined. */
  datatype User = User(id: ConnId, name: string, isAdmin: bool, hasVoted: bool, vote: Option<Vote>)

  /** A room record. `isVotingOpen` is not set when a room is created; the
      undefined value it then has is modelled as `false`. */
  datatype Room = Room(users: map<ConnId, User>, votes: map<ConnId, Ballot>, closed: bool, isVotingOpen: bool)

  /** The `rooms` Map. */
  type Rooms = map<RoomId, Room>

  /** The record `room:create` stores when the id is not taken. */
  const EmptyRoom := Room(map[], map[], false, false)

  /** The record `room:create` stores for its caller. */
  function AdminUser(conn: ConnId, name: string): User
  {
    User(conn, name, true, false, None)
  }

  /** The record `room:join` stores for its caller. */
  function JoinedUser(conn: ConnId, name: string): User
  {
    User(conn, name, false, false, None)
  }

  /** A member's record once `vote` has run for it. */
  function RecordVote(u: User, b: Ballot): User
  {
    u.(hasVoted := true, vote := Some(Vote(b.emoji, b.score)))
  }

  /** A member's record once `reset` has run. */
  function ClearVote(u: User): User
  {
    u.(hasVoted := false, vote := None)
  }

  /** A room once `conn` has been deleted from `users` and from `votes`. */
  function WithoutConn(room: Room, conn: ConnId): Room
  {
    room.(users := room.users - {conn}, votes := room.votes - {conn})
  }

  // ---------------------------------------------------------------------
  // The invariant

  /** What holds of the user stored under key `k`: it carries `k` as its id,
      `hasVoted` is set exactly when `vote` is defined, and a defined `vote`
      is the ballot stored under `k`. */
  predicate UserOk(k: ConnId, u: User, votes: map<ConnId, Ballot>)
  {
    && u.id == k
    && (u.hasVoted <==> u.vote.Some?)
    && (u.vote.Some? ==> k in votes && u.vote.value == Vote(votes[k].emoji, votes[k].score))
  }

  predicate RoomOk(room: Room)
  {
    forall k :: k in room.users ==> UserOk(k, room.users[k], room.votes)
  }

  predicate StoreOk(rooms: Rooms)
  {
    forall id :: id in rooms ==> RoomOk(rooms[id])
  }

  // ---------------------------------------------------------------------
  // The handlers, as functions of the registry

  /** `room:create` with room id `id`: the room is made only if absent, and
      then only the caller's entry of its `users` is (re)written. */
  function AfterCreate(rooms: Rooms, id: RoomId, conn: ConnId, admin: string): (r: Rooms)
    ensures r.Keys == rooms.Keys + {id}
    ensures KeptExcept(rooms, r, id)
    ensures r[id].users.Keys == (if id in rooms then rooms[id].users.Keys else {}) + {conn}
    ensures r[id].users[conn] == AdminUser(conn, admin)
    ensures id in rooms ==>
              && KeptExcept(rooms[id].users, r[id].users, conn)
              && r[id].votes == rooms[id].votes
              && r[id].closed == rooms[id].closed
              && r[id].isVotingOpen == rooms[id].isVotingOpen
    ensures id !in rooms ==> r[id].votes == map[] && !r[id].closed && !r[id].isVotingOpen
    ensures StoreOk(rooms) ==> StoreOk(r)
  {
    var room := if id in rooms then rooms[id] else EmptyRoom;
    rooms[id := room.(users := room.users[conn := AdminUser(conn, admin)])]
  }

  /** `room:join`: an unknown id changes nothing; otherwise only the caller's
      entry of `users` is (re)written, as a non-admin who has not voted. */
  function AfterJoin(rooms: Rooms, id: RoomId, conn: ConnId, name: string): (r: Rooms)
    ensures id !in rooms ==> r == rooms
    ensures id in rooms ==>
              && r.Keys == rooms.Keys
              && KeptExcept(rooms, r, id)
              && r[id].users.Keys == rooms[id].users.Keys + {conn}
              && r[id].users[conn] == JoinedUser(conn, name)
              && KeptExcept(rooms[id].users, r[id].users, conn)
              && r[id].votes == rooms[id].votes
              && r[id].closed == rooms[id].closed
              && r[id].isVotingOpen == rooms[id].isVotingOpen
    ensures StoreOk(rooms) ==> StoreOk(r)
  {
    if id !in rooms then rooms
    else rooms[id := rooms[id].(users := rooms[id].users[conn := JoinedUser(conn, name)])]
  }

  /** `vote`: nothing happens if the room is missing or closed; otherwise the
      ballot is stored under the caller's socket id, member or not, and a
      member's record is marked as having voted with that ballot. */
  function AfterVote(rooms: Rooms, id: RoomId, conn: ConnId, emoji: string, score: int): (r: Rooms)
    ensures id !in rooms || rooms[id].closed ==> r == rooms
    ensures id in rooms && !rooms[id].closed ==>
              && r.Keys == rooms.Keys
              && KeptExcept(rooms, r, id)
              && r[id].votes.Keys == rooms[id].votes.Keys + {conn}
              && r[id].votes[conn] == Ballot(emoji, score)
              && SubMap(rooms[id].votes - {conn}, r[id].votes)
              && r[id].users.Keys == rooms[id].users.Keys
              && KeptExcept(rooms[id].users, r[id].users, conn)
              && (conn in r[id].users ==>
                    && r[id].users[conn].hasVoted
                    && r[id].users[conn].vote == Some(Vote(emoji, score))
                    && r[id].users[conn].id == rooms[id].users[conn].id
                    && r[id].users[conn].name == rooms[id].users[conn].name
                    && r[id].users[conn].isAdmin == rooms[id].users[conn].isAdmin)
              && r[id].closed == rooms[id].closed
              && r[id].isVotingOpen == rooms[id].isVotingOpen
    ensures StoreOk(rooms) ==> StoreOk(r)
  {
    if id !in rooms || rooms[id].closed then rooms
    else
      var room := rooms[id];
      var b := Ballot(emoji, score);
      var users := if conn in room.users then room.users[conn := RecordVote(room.users[conn], b)] else room.users;
      rooms[id := room.(votes := room.votes[conn := b], users := users)]
  }

  /** `close`: sets the room's `closed` flag and nothing else. */
  function AfterClose(rooms: Rooms, id: RoomId): (r: Rooms)
    ensures id !in rooms ==> r == rooms
    ensures id in rooms ==>
              && r.Keys == rooms.Keys
              && KeptExcept(rooms, r, id)
              && r[id].closed
              && r[id].users == rooms[id].users
              && r[id].votes == rooms[id].votes
              && r[id].isVotingOpen == rooms[id].isVotingOpen
    ensures StoreOk(rooms) ==> StoreOk(r)
  {
    if id !in rooms then rooms else rooms[id := rooms[id].(closed := true)]
  }

  /** `start-voting`: sets the room's `isVotingOpen` flag and nothing else. */
  function AfterStartVoting(rooms: Rooms, id: RoomId): (r: Rooms)
    ensures id !in rooms ==> r == rooms
    ensures id in rooms ==>
              && r.Keys == rooms.Keys
              && KeptExcept(rooms, r, id)
              && r[id].isVotingOpen
              && r[id].users == rooms[id].users
              && r[id].votes == rooms[id].votes
              && r[id].closed == rooms[id].closed
    ensures StoreOk(rooms) ==> StoreOk(r)
  {
    if id !in rooms then rooms else rooms[id := rooms[id].(isVotingOpen := true)]
  }

  /** `reset`: empties `votes`, clears both flags and every member's vote,
      and keeps the members themselves. */
  function AfterReset(rooms: Rooms, id: RoomId): (r: Rooms)
    ensures id !in rooms ==> r == rooms
    ensures id in rooms ==>
              && r.Keys == rooms.Keys
              && KeptExcept(rooms, r, id)
              && r[id].votes == map[]
              && !r[id].closed
              && !r[id].isVotingOpen
              && r[id].users.Keys == rooms[id].users.Keys
              && (forall k :: k in r[id].users ==>
                    && !r[id].users[k].hasVoted
                    && r[id].users[k].vote == None
                    && r[id].users[k].id == rooms[id].users[k].id
                    && r[id].users[k].name == rooms[id].users[k].name
                    && r[id].users[k].isAdmin == rooms[id].users[k].isAdmin)
    ensures StoreOk(rooms) ==> StoreOk(r)
  {
    if id !in rooms then rooms
    else
      var users := rooms[id].users;
      rooms[id := Room(map k | k in users :: ClearVote(users[k]), map[], false, false)]
  }

  /** `room:leave`: deletes the caller from the room's `users` and `votes`. */
  function AfterLeave(rooms: Rooms, id: RoomId, conn: ConnId): (r: Rooms)
    ensures id !in rooms ==> r == rooms
    ensures id in rooms ==>
              && r.Keys == rooms.Keys
              && KeptExcept(rooms, r, id)
              && r[id].users.Keys == rooms[id].users.Keys - {conn}
              && KeptExcept(rooms[id].users, r[id].users, conn)
              && r[id].votes.Keys == rooms[id].votes.Keys - {conn}
              && SubMap(r[id].votes, rooms[id].votes)
              && r[id].closed == rooms[id].closed
              && r[id].isVotingOpen == rooms[id].isVotingOpen
    ensures StoreOk(rooms) ==> StoreOk(r)
  {
    if id !in rooms then rooms else rooms[id := WithoutConn(rooms[id], conn)]
  }

  /** `disconnect`: every room whose `users` holds the caller is treated as
      by `room:leave`; the others, and the set of rooms, do not change. */
  function AfterDisconnect(rooms: Rooms, conn: ConnId): (r: Rooms)
    ensures r.Keys == rooms.Keys
    ensures forall id :: id in rooms && conn !in rooms[id].users ==> r[id] == rooms[id]
    ensures forall id :: id in rooms && conn in rooms[id].users ==> r[id] == AfterLeave(rooms, id, conn)[id]
    ensures forall id :: id in r ==> conn !in r[id].users
    ensures StoreOk(rooms) ==> StoreOk(r)
  {
    map id | id in rooms :: if conn in rooms[id].users then WithoutConn(rooms[id], conn) else rooms[id]
  }

  /** The registry once `disconnect` has visited the rooms `ids`. */
  function DisconnectedIn(rooms: Rooms, ids: seq<RoomId>, conn: ConnId): Rooms
  {
    map id | id in rooms :: if id in ids && conn in rooms[id].users then WithoutConn(rooms[id], conn) else rooms[id]
  }

  /** Visiting one more room updates only that room. */
  lemma DisconnectedInStep(rooms: Rooms, ids: seq<RoomId>, id: RoomId, conn: ConnId)
    requires id in rooms && id !in ids
    ensures DisconnectedIn(rooms, ids + [id], conn) ==
              DisconnectedIn(rooms, ids, conn)[id := if conn in rooms[id].users then WithoutConn(rooms[id], conn) else rooms[id]]
  {
  }

  /** Once every room has been visited, the registry is `AfterDisconnect`'s. */
  lemma DisconnectedInAll(rooms: Rooms, ids: seq<RoomId>, conn: ConnId)
    requires forall id :: id in rooms ==> id in ids
    ensures DisconnectedIn(rooms, ids, conn) == AfterDisconnect(rooms, conn)
  {
  }

  /** Visiting one more room adds at most that room's presence event. */
  lemma DisconnectEmitsStep(ids: seq<RoomId>, id: RoomId, rooms: Rooms, conn: ConnId)
    ensures DisconnectEmits(ids + [id], rooms, conn) ==
              DisconnectEmits(ids, rooms, conn) +
                if id in rooms && conn in rooms[id].users
                then [Emit(Presence(WithoutConn(rooms[id], conn).users.Values), ToRoom(id))]
                else []
  {
    assert (ids + [id])[..|ids|] == ids;
  }

  /** The presence events `disconnect` sends while it visits the rooms `ids`
      in order: one to each room whose `users` held the caller, carrying the
      users left there. */
  function DisconnectEmits(ids: seq<RoomId>, rooms: Rooms, conn: ConnId): seq<Emit<User>>
    decreases |ids|
  {
    if ids == [] then []
    else
      var last := ids[|ids| - 1];
      DisconnectEmits(ids[..|ids| - 1], rooms, conn) +
        if last in rooms && conn in rooms[last].users
        then [Emit(Presence(WithoutConn(rooms[last], conn).users.Values), ToRoom(last))]
        else []
  }

  /** A presence event goes only to rooms that held the caller, each such room
      visited gets one, and with no room visited twice no room gets two. */
  lemma {:induction false} DisconnectEmitsTargets(ids: seq<RoomId>, rooms: Rooms, conn: ConnId)
    ensures |DisconnectEmits(ids, rooms, conn)| <= |ids|
    ensures forall e :: e in DisconnectEmits(ids, rooms, conn) ==>
              && e.target.ToRoom?
              && e.target.roomId in ids
              && e.target.roomId in rooms
              && conn in rooms[e.target.roomId].users
              && e.event == Presence((rooms[e.target.roomId].users - {conn}).Values)
    ensures forall id :: id in ids && id in rooms && conn in rooms[id].users ==>
              Emit(Presence((rooms[id].users - {conn}).Values), ToRoom(id)) in DisconnectEmits(ids, rooms, conn)
    ensures Distinct(ids) ==>
              var es := DisconnectEmits(ids, rooms, conn);
              forall j, k :: 0 <= j < k < |es| ==> es[j].target != es[k].target
    decreases |ids|
  {
    if ids != [] {
      var init := ids[..|ids| - 1];
      DisconnectEmitsTargets(init, rooms, conn);
      assert forall id :: id in ids ==> id in init || id == ids[|ids| - 1];
      if Distinct(ids) {
        assert ids[|ids| - 1] !in init;
      }
    }
  }

  // ---------------------------------------------------------------------
  // Room ids

  /** The characters `generateRoomId` draws from. */
  const Alphabet := "ABCDEFGHIJKLMNOPQRSTUVWXYZ0123456789"

  /** The length of a generated room id. */
  const IdLength := 8

  predicate IsIdChar(c: char)
  {
    'A' <= c <= 'Z' || '0' <= c <= '9'
  }

  /** The alphabet is 36 distinct upper-case letters and digits. */
  lemma AlphabetShape()
    ensures |Alphabet| == 36
    ensures forall i :: 0 <= i < |Alphabet| ==> IsIdChar(Alphabet[i])
    ensures Distinct(Alphabet)
  {
    forall i | 0 <= i < |Alphabet|
      ensures Alphabet[i] as int == if i < 26 then 'A' as int + i else '0' as int + i - 26
    {
    }
  }

  /** The indices an id is spelled from, as `Math.floor(Math.random() * 36)`
      yields them: eight of them, each below the alphabet's size. */
  predicate ValidPicks(picks: seq<nat>)
  {
    |picks| == IdLength && forall i :: 0 <= i < |picks| ==> picks[i] < |Alphabet|
  }

  /** The characters of the alphabet at `picks`, in order. */
  function Spell(picks: seq<nat>): (s: string)
    requires forall i :: 0 <= i < |picks| ==> picks[i] < |Alphabet|
    ensures |s| == |picks|
    ensures forall i :: 0 <= i < |s| ==> s[i] == Alphabet[picks[i]]
    decreases |picks|
  {
    if picks == [] then ""
    else Spell(picks[..|picks| - 1]) + [Alphabet[picks[|picks| - 1]]]
  }

  /** The id `generateRoomId` builds from the given random picks. */
  function GeneratedId(picks: seq<nat>): (id: RoomId)
    requires ValidPicks(picks)
    ensures |id| == IdLength
    ensures forall i :: 0 <= i < |id| ==> IsIdChar(id[i])
  {
    AlphabetShape();
    Spell(picks)
  }

  /** The id `room:create` uses: the payload's `roomId` unless it is falsy. */
  function ChosenId(roomId: RoomId, picks: seq<nat>): (id: RoomId)
    requires ValidPicks(picks)
    ensures id != ""
    ensures roomId != "" ==> id == roomId
    ensures roomId == "" ==> |id| == IdLength && forall i :: 0 <= i < |id| ==> IsIdChar(id[i])
  {
    if roomId != "" then roomId else GeneratedId(picks)
  }

  // ---------------------------------------------------------------------
  // Handlers in combination

  /** A vote on a closed room is a no-op. */
  lemma VoteAfterCloseIsNoOp(rooms: Rooms, id: RoomId, conn: ConnId, emoji: string, score: int)
    ensures AfterVote(AfterClose(rooms, id), id, conn, emoji, score) == AfterClose(rooms, id)
  {
  }

  /** After a reset, a vote is recorded again, and it is the only one. */
  lemma VoteAfterResetIsRecorded(rooms: Rooms, id: RoomId, conn: ConnId, emoji: string, score: int)
    requires id in rooms
    ensures AfterVote(AfterReset(rooms, id), id, conn, emoji, score)[id].votes == map[conn := Ballot(emoji, score)]
  {
  }

  /** A reset undoes a close. */
  lemma ResetUndoesClose(rooms: Rooms, id: RoomId)
    ensures AfterReset(AfterClose(rooms, id), id) == AfterReset(rooms, id)
  {
  }

  /** A reset undoes `start-voting`. */
  lemma ResetUndoesStartVoting(rooms: Rooms, id: RoomId)
    ensures AfterReset(AfterStartVoting(rooms, id), id) == AfterReset(rooms, id)
  {
  }

  /** Resetting twice is resetting once. */
  lemma ResetIsIdempotent(rooms: Rooms, id: RoomId)
    ensures AfterReset(AfterReset(rooms, id), id) == AfterReset(rooms, id)
  {
    if id in rooms {
      var once := AfterReset(rooms, id);
      var twice := AfterReset(once, id);
      assert twice[id].users == once[id].users;
      assert twice[id] == once[id];
    }
  }

  /** Leaving right after joining restores the registry, for a socket that
      had neither a user entry nor a vote in that room. */
  lemma LeaveUndoesJoin(rooms: Rooms, id: RoomId, conn: ConnId, name: string)
    requires id in rooms ==> conn !in rooms[id].users && conn !in rooms[id].votes
    ensures AfterLeave(AfterJoin(rooms, id, conn, name), id, conn) == rooms
  {
    if id in rooms {
      var back := AfterLeave(AfterJoin(rooms, id, conn, name), id, conn);
      assert back[id].users == rooms[id].users;
      assert back[id].votes == rooms[id].votes;
      assert back[id] == rooms[id];
    }
  }

  /** Every member who has voted appears in a listing of the room's votes,
      with the ballot its record shows. */
  lemma RevealListsMemberVotes(room: Room, results: seq<RevealEntry>)
    requires RoomOk(room)
    requires ListsVotes(results, room.votes)
    ensures forall k :: k in room.users && room.users[k].hasVoted ==>
              k in Voters(results) && room.votes[k] == Ballot(room.users[k].vote.value.emoji, room.users[k].vote.value.scale)
  {
  }

  // ---------------------------------------------------------------------
  // Sequences of inbound events

  /** A socket event the server handles, with the payload fields the
      handler reads. */
  datatype Inbound =
    | CreateRoom(roomId: RoomId, admin: string, picks: seq<nat>)
    | JoinRoom(roomId: RoomId, name: string)
    | CastVote(roomId: RoomId, emoji: string, score: int)
    | CloseRoom(roomId: RoomId)
    | RevealVotes(roomId: RoomId)
    | ResetVotes(roomId: RoomId)
    | OpenVoting(roomId: RoomId)
    | LeaveRoom(roomId: RoomId)
    | Hangup

  /** An event together with the socket it arrived on. */
  datatype Call = Call(conn: ConnId, msg: Inbound)

  predicate WellFormed(msg: Inbound)
  {
    msg.CreateRoom? ==> ValidPicks(msg.picks)
  }

  predicate AllWellFormed(calls: seq<Call>)
  {
    forall i :: 0 <= i < |calls| ==> WellFormed(calls[i].msg)
  }

  /** The registry after one handler ran. */
  function Step(rooms: Rooms, call: Call): (r: Rooms)
    requires WellFormed(call.msg)
    ensures rooms.Keys <= r.Keys
    ensures StoreOk(rooms) ==> StoreOk(r)
  {
    var conn := call.conn;
    match call.msg
    case CreateRoom(roomId, admin, picks) => AfterCreate(rooms, ChosenId(roomId, picks), conn, admin)
    case JoinRoom(id, name) => AfterJoin(rooms, id, conn, name)
    case CastVote(id, emoji, score) => AfterVote(rooms, id, conn, emoji, score)
    case CloseRoom(id) => AfterClose(rooms, id)
    case RevealVotes(_) => rooms
    case ResetVotes(id) => AfterReset(rooms, id)
    case OpenVoting(id) => AfterStartVoting(rooms, id)
    case LeaveRoom(id) => AfterLeave(rooms, id, conn)
    case Hangup => AfterDisconnect(rooms, conn)
  }

  /** The registry after the handlers for `calls` ran in order: no room is
      ever deleted, and the invariant holds throughout. */
  function Run(rooms: Rooms, calls: seq<Call>): (r: Rooms)
    requires AllWellFormed(calls)
    ensures rooms.Keys <= r.Keys
    ensures StoreOk(rooms) ==> StoreOk(r)
    decreases |calls|
  {
    if calls == [] then rooms else Run(Step(rooms, calls[0]), calls[1..])
  }

  /** One handler, other than a reset of `id`, keeps room `id` closed and
      adds no vote to it. */
  lemma StepKeepsClosed(rooms: Rooms, call: Call, id: RoomId)
    requires WellFormed(call.msg)
    requires id in rooms && rooms[id].closed
    requires call.msg != ResetVotes(id)
    ensures id in Step(rooms, call) && Step(rooms, call)[id].closed
    ensures SubMap(Step(rooms, call)[id].votes, rooms[id].votes)
  {
    var conn := call.conn;
    match call.msg
    case CreateRoom(roomId, admin, picks) =>
    case JoinRoom(j, name) =>
    case CastVote(j, emoji, score) =>
    case CloseRoom(j) =>
    case RevealVotes(_) =>
    case ResetVotes(j) =>
    case OpenVoting(j) =>
    case LeaveRoom(j) =>
    case Hangup =>
      if conn in rooms[id].users {
        assert Step(rooms, call)[id] == AfterLeave(rooms, id, conn)[id];
      }
  }

  /** Once closed, a room stays closed and gains no vote until it is reset:
      every vote in between is a no-op. */
  lemma {:induction false} ClosedUntilReset(rooms: Rooms, calls: seq<Call>, id: RoomId)
    requires AllWellFormed(calls)
    requires id in rooms && rooms[id].closed
    requires forall i :: 0 <= i < |calls| ==> calls[i].msg != ResetVotes(id)
    ensures id in Run(rooms, calls) && Run(rooms, calls)[id].closed
    ensures SubMap(Run(rooms, calls)[id].votes, rooms[id].votes)
    decreases |calls|
  {
    if calls != [] {
      var next := Step(rooms, calls[0]);
      StepKeepsClosed(rooms, calls[0], id);
      ClosedUntilReset(next, calls[1..], id);
    }
  }
}
