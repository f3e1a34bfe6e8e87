/** The socket handlers of server.js as methods of a `Store` object that
    owns the process-wide `rooms` Map and the log of emitted events. Each
    handler takes the caller's socket id and the payload fields it reads. */
module ServerHandlers {
  import opened Common
  import opened ServerRooms

  /** `generateRoomId`: appends one alphabet character per random pick. */
  method GenerateRoomId(picks: seq<nat>) returns (id: RoomId)
    requires ValidPicks(picks)
    ensures id == GeneratedId(picks)
    ensures |id| == IdLength
    ensures forall i :: 0 <= i < |id| ==> IsIdChar(id[i])
  {
    id := "";
    for i := 0 to IdLength
      invariant |id| == i
      invariant forall j :: 0 <= j < i ==> id[j] == Alphabet[picks[j]]
    {
      id := id + [Alphabet[picks[i]]];
    }
  }

  /** One turn of the loop of `DisconnectPass` keeps its invariant. */
  lemma DisconnectPassStep(rooms: Rooms, ids: seq<RoomId>, i: nat, conn: ConnId, current: Rooms, emitted: seq<Emit<User>>)
    requires Distinct(ids) && i < |ids|
    requires forall j :: 0 <= j < |ids| ==> ids[j] in rooms
    requires current == DisconnectedIn(rooms, ids[..i], conn)
    requires emitted == DisconnectEmits(ids[..i], rooms, conn)
    ensures ids[i] in current && current[ids[i]] == rooms[ids[i]]
    ensures var room := WithoutConn(rooms[ids[i]], conn);
            var held := conn in rooms[ids[i]].users;
            && (if held then current[ids[i] := room] else current) == DisconnectedIn(rooms, ids[..i + 1], conn)
            && (if held then emitted + [Emit(Presence(room.users.Values), ToRoom(ids[i]))] else emitted)
                 == DisconnectEmits(ids[..i + 1], rooms, conn)
  {
    var id := ids[i];
    var seen := ids[..i];
    assert id !in seen by {
      forall j | 0 <= j < i ensures seen[j] != id {
        assert ids[j] != ids[i];
      }
    }
    assert ids[..i + 1] == seen + [id];
    DisconnectedInStep(rooms, seen, id, conn);
    DisconnectEmitsStep(seen, id, rooms, conn);
  }

  /** The loop of `disconnect`: visits the rooms `ids` in order and deletes
      the caller from `users` and `votes` of each room whose `users` holds
      it, collecting the presence event sent to that room. */
  method DisconnectPass(ids: seq<RoomId>, rooms: Rooms, conn: ConnId) returns (current: Rooms, emitted: seq<Emit<User>>)
    requires Distinct(ids)
    requires forall j :: 0 <= j < |ids| ==> ids[j] in rooms
    requires forall id :: id in rooms ==> id in ids
    ensures current == AfterDisconnect(rooms, conn)
    ensures emitted == DisconnectEmits(ids, rooms, conn)
  {
    current, emitted := rooms, [];
    var i := 0;
    while i < |ids|
      invariant 0 <= i <= |ids|
      invariant current == DisconnectedIn(rooms, ids[..i], conn)
      invariant emitted == DisconnectEmits(ids[..i], rooms, conn)
    {
      var id := ids[i];
      DisconnectPassStep(rooms, ids, i, conn, current, emitted);
      var room := current[id];
      if conn in room.users {
        room := room.(users := room.users - {conn});
        room := room.(votes := room.votes - {conn});
        current := current[id := room];
        emitted := emitted + [Emit(Presence(room.users.Values), ToRoom(id))];
      }
      i := i + 1;
    }
    assert ids[..i] == ids;
    DisconnectedInAll(rooms, ids, conn);
  }

  class Store {
    /** The `rooms` Map. */
    var rooms: Rooms
    /** The keys of `rooms` in insertion order, the order a JavaScript Map
        is iterated in. Rooms are never deleted, so it only grows. */
    var order: seq<RoomId>
    /** Every event emitted so far, oldest first. */
    var log: seq<Emit<User>>

    ghost predicate Valid()
      reads this
    {
      && StoreOk(rooms)
      && Distinct(order)
      && (forall id :: id in rooms <==> id in order)
    }

    constructor ()
      ensures Valid()
      ensures rooms == map[] && order == [] && log == []
    {
      rooms, order, log := map[], [], [];
    }

    /** `room:create`. Returns the room id used. */
    method Create(conn: ConnId, roomId: RoomId, admin: string, picks: seq<nat>) returns (id: RoomId)
      requires Valid()
      requires ValidPicks(picks)
      modifies this
      ensures Valid()
      ensures id == ChosenId(roomId, picks)
      ensures rooms == AfterCreate(old(rooms), id, conn, admin)
      ensures order == if id in old(rooms) then old(order) else old(order) + [id]
      ensures log == old(log) + [Emit(Presence(rooms[id].users.Values), ToRoom(id)), Emit(RoomCreated(id), ToCaller)]
    {
      id := roomId;
      if id == "" {
        id := GenerateRoomId(picks);
      }
      if id !in rooms {
        rooms := rooms[id := EmptyRoom];
        order := order + [id];
      }
      var room := rooms[id];
      rooms := rooms[id := room.(users := room.users[conn := AdminUser(conn, admin)])];
      log := log + [Emit(Presence(rooms[id].users.Values), ToRoom(id)), Emit(RoomCreated(id), ToCaller)];
    }

    /** `room:join`. */
    method Join(conn: ConnId, roomId: RoomId, name: string)
      requires Valid()
      modifies this
      ensures Valid()
      ensures rooms == AfterJoin(old(rooms), roomId, conn, name)
      ensures order == old(order)
      ensures roomId !in old(rooms) ==> log == old(log) + [Emit(Error(RoomNotFound), ToCaller)]
      ensures roomId in old(rooms) ==>
                log == old(log) + [Emit(Presence(rooms[roomId].users.Values), ToRoom(roomId)), Emit(RoomJoined(roomId), ToCaller)]
    {
      if roomId !in rooms {
        log := log + [Emit(Error(RoomNotFound), ToCaller)];
        return;
      }
      var room := rooms[roomId];
      rooms := rooms[roomId := room.(users := room.users[conn := JoinedUser(conn, name)])];
      log := log + [Emit(Presence(rooms[roomId].users.Values), ToRoom(roomId)), Emit(RoomJoined(roomId), ToCaller)];
    }

    /** `vote`. The payload's `user` field is not read by the handler. */
    method Vote(conn: ConnId, roomId: RoomId, emoji: string, score: int)
      requires Valid()
      modifies this
      ensures Valid()
      ensures rooms == AfterVote(old(rooms), roomId, conn, emoji, score)
      ensures order == old(order)
      ensures roomId !in old(rooms) || old(rooms)[roomId].closed ==> log == old(log)
      ensures roomId in old(rooms) && !old(rooms)[roomId].closed ==>
                log == old(log) + [Emit(VoteAck, ToCaller), Emit(Presence(rooms[roomId].users.Values), ToRoom(roomId))]
    {
      if roomId !in rooms || rooms[roomId].closed {
        return;
      }
      var room := rooms[roomId];
      var b := Ballot(emoji, score);
      room := room.(votes := room.votes[conn := b]);
      if conn in room.users {
        room := room.(users := room.users[conn := RecordVote(room.users[conn], b)]);
      }
      rooms := rooms[roomId := room];
      log := log + [Emit(VoteAck, ToCaller), Emit(Presence(rooms[roomId].users.Values), ToRoom(roomId))];
    }

    /** `close`. */
    method Close(roomId: RoomId)
      requires Valid()
      modifies this
      ensures Valid()
      ensures rooms == AfterClose(old(rooms), roomId)
      ensures order == old(order)
      ensures log == if roomId in old(rooms) then old(log) + [Emit(RoomClosed, ToRoom(roomId))] else old(log)
    {
      if roomId !in rooms {
        return;
      }
      rooms := rooms[roomId := rooms[roomId].(closed := true)];
      log := log + [Emit(RoomClosed, ToRoom(roomId))];
    }

    /** `reveal`. Returns the `results` payload it emits, or `[]` when the
        room is missing and nothing is emitted. */
    method Reveal(roomId: RoomId) returns (results: seq<RevealEntry>)
      requires Valid()
      modifies this`log
      ensures Valid()
      ensures rooms == old(rooms) && order == old(order)
      ensures roomId !in rooms ==> results == [] && log == old(log)
      ensures roomId in rooms ==>
                && ListsVotes(results, rooms[roomId].votes)
                && log == old(log) + [Emit(Revealed(results), ToRoom(roomId))]
    {
      results := [];
      if roomId !in rooms {
        return;
      }
      results := ResultsOf(rooms[roomId].votes);
      log := log + [Emit(Revealed(results), ToRoom(roomId))];
    }

    /** `reset`: empties the votes, clears both flags, then clears the vote
        of each member in turn. */
    method Reset(roomId: RoomId)
      requires Valid()
      modifies this
      ensures Valid()
      ensures rooms == AfterReset(old(rooms), roomId)
      ensures order == old(order)
      ensures roomId !in old(rooms) ==> log == old(log)
      ensures roomId in old(rooms) ==>
                log == old(log) + [Emit(Presence(rooms[roomId].users.Values), ToRoom(roomId)), Emit(RoundReset, ToRoom(roomId))]
    {
      if roomId !in rooms {
        return;
      }
      var room := rooms[roomId].(votes := map[], closed := false, isVotingOpen := false);
      var users := room.users;
      var pending := users.Keys;
      while pending != {}
        invariant pending <= room.users.Keys
        invariant users.Keys == room.users.Keys
        invariant forall k :: k in users ==> users[k] == if k in pending then room.users[k] else ClearVote(room.users[k])
        decreases |pending|
      {
        var k :| k in pending;
        users := users[k := ClearVote(users[k])];
        pending := pending - {k};
      }
      assert users == map k | k in room.users :: ClearVote(room.users[k]);
      rooms := rooms[roomId := room.(users := users)];
      log := log + [Emit(Presence(rooms[roomId].users.Values), ToRoom(roomId)), Emit(RoundReset, ToRoom(roomId))];
    }

    /** `start-voting`. */
    method StartVoting(roomId: RoomId)
      requires Valid()
      modifies this
      ensures Valid()
      ensures rooms == AfterStartVoting(old(rooms), roomId)
      ensures order == old(order)
      ensures log == if roomId in old(rooms) then old(log) + [Emit(VotingStarted, ToRoom(roomId))] else old(log)
    {
      if roomId !in rooms {
        return;
      }
      rooms := rooms[roomId := rooms[roomId].(isVotingOpen := true)];
      log := log + [Emit(VotingStarted, ToRoom(roomId))];
    }

    /** `room:leave`. The payload's `user` field is not read by the handler. */
    method Leave(conn: ConnId, roomId: RoomId)
      requires Valid()
      modifies this
      ensures Valid()
      ensures rooms == AfterLeave(old(rooms), roomId, conn)
      ensures order == old(order)
      ensures roomId !in old(rooms) ==> log == old(log)
      ensures roomId in old(rooms) ==> log == old(log) + [Emit(Presence(rooms[roomId].users.Values), ToRoom(roomId))]
    {
      if roomId !in rooms {
        return;
      }
      var room := rooms[roomId];
      room := room.(users := room.users - {conn});
      room := room.(votes := room.votes - {conn});
      rooms := rooms[roomId := room];
      log := log + [Emit(Presence(rooms[roomId].users.Values), ToRoom(roomId))];
    }

    /** `disconnect`: visits every room in insertion order and removes the
        caller from each one whose `users` holds it. */
    method Disconnect(conn: ConnId)
      requires Valid()
      modifies this
      ensures Valid()
      ensures rooms == AfterDisconnect(old(rooms), conn)
      ensures order == old(order)
      ensures log == old(log) + DisconnectEmits(order, old(rooms), conn)
    {
      var current, emitted := DisconnectPass(order, rooms, conn);
      rooms, log := current, log + emitted;
    }
  }
}
