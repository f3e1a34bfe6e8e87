/** The socket handlers of pages/api/socket.ts as methods of a `Store`
    object that owns the process-wide `rooms` Map and the log of emitted
    events. These handlers never read the caller's socket id, so the methods
    take only the payload fields. */
module LegacyHandlers {
  import opened Common
  import opened LegacyRooms

  class Store {
    /** The `rooms` Map. */
    var rooms: Rooms
    /** Every event emitted so far, oldest first. */
    var log: seq<Emit<string>>

    /** Module load: `previous` is the Map an earlier load left in
        `global.moodRooms`, if any, which is reused as it is. */
    constructor (previous: Option<Rooms>)
      ensures rooms == (if previous.Some? then previous.value else map[])
      ensures log == []
    {
      rooms := if previous.Some? then previous.value else map[];
      log := [];
    }

    /** `room:create`; `uuid` is the value `crypto.randomUUID()` returns.
        Returns the room id used. */
    method Create(roomId: RoomId, admin: string, uuid: string) returns (id: RoomId)
      requires IsUuid(uuid)
      modifies this
      ensures id == ChosenId(roomId, uuid)
      ensures rooms == AfterCreate(old(rooms), id, admin)
      ensures log == old(log) + [Emit(Presence(rooms[id].users), ToRoom(id)), Emit(RoomCreated(id), ToCaller)]
    {
      id := if roomId != "" then roomId else uuid;
      if id !in rooms {
        rooms := rooms[id := EmptyRoom];
      }
      var room := rooms[id];
      rooms := rooms[id := room.(users := room.users + {admin})];
      log := log + [Emit(Presence(rooms[id].users), ToRoom(id)), Emit(RoomCreated(id), ToCaller)];
    }

    /** `room:join`. */
    method Join(roomId: RoomId, name: string)
      modifies this
      ensures rooms == AfterJoin(old(rooms), roomId, name)
      ensures roomId !in old(rooms) ==> log == old(log) + [Emit(Error(RoomNotFound), ToCaller)]
      ensures roomId in old(rooms) ==>
                log == old(log) + [Emit(Presence(rooms[roomId].users), ToRoom(roomId)), Emit(RoomJoined(roomId), ToCaller)]
    {
      if roomId !in rooms {
        log := log + [Emit(Error(RoomNotFound), ToCaller)];
        return;
      }
      var room := rooms[roomId];
      rooms := rooms[roomId := room.(users := room.users + {name})];
      log := log + [Emit(Presence(rooms[roomId].users), ToRoom(roomId)), Emit(RoomJoined(roomId), ToCaller)];
    }

    /** `vote`: the ballot is keyed by the payload's `user` name. */
    method Vote(roomId: RoomId, user: string, emoji: string, score: int)
      modifies this
      ensures rooms == AfterVote(old(rooms), roomId, user, emoji, score)
      ensures log == if roomId !in old(rooms) || old(rooms)[roomId].closed then old(log)
                     else old(log) + [Emit(VoteAck, ToCaller)]
    {
      if roomId !in rooms || rooms[roomId].closed {
        return;
      }
      var room := rooms[roomId];
      rooms := rooms[roomId := room.(votes := room.votes[user := Ballot(emoji, score)])];
      log := log + [Emit(VoteAck, ToCaller)];
    }

    /** `close`. */
    method Close(roomId: RoomId)
      modifies this
      ensures rooms == AfterClose(old(rooms), roomId)
      ensures log == if roomId in old(rooms) then old(log) + [Emit(RoomClosed, ToRoom(roomId))] else old(log)
    {
      if roomId !in rooms {
        return;
      }
      rooms := rooms[roomId := rooms[roomId].(closed := true)];
      log := log + [Emit(RoomClosed, ToRoom(roomId))];
    }

    /** `reveal`. Returns the `results` payload it emits, or `[]` when the
        room is missing and nothing is emitted. */
    method Reveal(roomId: RoomId) returns (results: seq<RevealEntry>)
      modifies this`log
      ensures rooms == old(rooms)
      ensures roomId !in rooms ==> results == [] && log == old(log)
      ensures roomId in rooms ==>
                && ListsVotes(results, rooms[roomId].votes)
                && log == old(log) + [Emit(Revealed(results), ToRoom(roomId))]
    {
      results := [];
      if roomId !in rooms {
        return;
      }
      results := ResultsOf(rooms[roomId].votes);
      log := log + [Emit(Revealed(results), ToRoom(roomId))];
    }

    /** `reset`: overwrites the entry under `roomId` with an empty room. */
    method Reset(roomId: RoomId)
      modifies this
      ensures rooms == AfterReset(old(rooms), roomId)
      ensures log == old(log) + [Emit(RoundReset, ToRoom(roomId))]
    {
      rooms := rooms[roomId := EmptyRoom];
      log := log + [Emit(RoundReset, ToRoom(roomId))];
    }

    /** `room:leave`. */
    method Leave(roomId: RoomId, name: string)
      modifies this
      ensures rooms == AfterLeave(old(rooms), roomId, name)
      ensures roomId !in old(rooms) ==> log == old(log)
      ensures roomId in old(rooms) ==> log == old(log) + [Emit(Presence(rooms[roomId].users), ToRoom(roomId))]
    {
      if roomId !in rooms {
        return;
      }
      var room := rooms[roomId];
      room := room.(users := room.users - {name});
      room := room.(votes := room.votes - {name});
      rooms := rooms[roomId := room];
      log := log + [Emit(Presence(rooms[roomId].users), ToRoom(roomId))];
    }

    /** `disconnect`: only logs to the console, which is not modelled. */
    method Disconnect()
      ensures rooms == old(rooms) && log == old(log)
    {
    }
  }
}
