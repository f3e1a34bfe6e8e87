/** Values shared by both socket servers of the mood-voting app: the stored
    vote record, the outbound event log and the `reveal` listing. */
module Common {

  datatype Option<+T> = None | Some(value: T)

  /** Room keys. The empty string stands for a missing or falsy `roomId`
      payload field. */
  type RoomId = string

  /** A stored vote, as both servers keep it in a room's `votes` map:
      `{ emoji, score }`. */
  datatype Ballot = Ballot(emoji: string, score: int)

  /** One element of the `reveal` payload: the key the vote is stored under,
      followed by the fields of its ballot (`{ user, ...v }`). */
  datatype RevealEntry = RevealEntry(user: string, emoji: string, score: int)

  /** Who receives an emit: the calling socket only (`socket.emit`) or every
      socket joined to a room (`io.to(roomId).emit`). */
  datatype Target = ToCaller | ToRoom(roomId: RoomId)

  /** Outbound events. `U` is the type of one entry of a presence list. */
  datatype Event<U> =
    | Presence(users: set<U>)
    | RoomCreated(roomId: RoomId)
    | RoomJoined(roomId: RoomId)
    | Error(message: string)
    | VoteAck
    | RoomClosed
    | Revealed(results: seq<RevealEntry>)
    | RoundReset
    | VotingStarted
  {
    /** The event name on the wire. */
    function Name(): string
    {
      match this
      case Presence(_) => "presence"
      case RoomCreated(_) => "room:created"
      case RoomJoined(_) => "room:joined"
      case Error(_) => "error"
      case VoteAck => "vote:ack"
      case RoomClosed => "closed"
      case Revealed(_) => "reveal"
      case RoundReset => "reset"
      case VotingStarted => "voting-started"
    }

    /** The position of the constructor in the declaration above. */
    function Kind(): nat
    {
      match this
      case Presence(_) => 0
      case RoomCreated(_) => 1
      case RoomJoined(_) => 2
      case Error(_) => 3
      case VoteAck => 4
      case RoomClosed => 5
      case Revealed(_) => 6
      case RoundReset => 7
      case VotingStarted => 8
    }
  }

  /** Two events go out under the same wire name exactly when they are of the
      same kind, so a client can tell every event apart by its name. */
  lemma NameIdentifiesKind<U>(a: Event<U>, b: Event<U>)
    ensures a.Name() == b.Name() <==> a.Kind() == b.Kind()
  {
  }

  datatype Emit<U> = Emit(event: Event<U>, target: Target)

  /** The message of the `error` event a join to an unknown room gets. */
  const RoomNotFound := "Room not found"

  /** No element occurs twice. */
  predicate Distinct<T(==)>(s: seq<T>)
  {
    forall j, k :: 0 <= j < k < |s| ==> s[j] != s[k]
  }

  /** Every entry of `small` is an entry of `big`. */
  predicate SubMap<K, V(==)>(small: map<K, V>, big: map<K, V>)
  {
    forall k :: k in small ==> k in big && small[k] == big[k]
  }

  /** Every entry of `before` other than the one under `key` is still in
      `after`, unchanged. */
  predicate KeptExcept<K, V(==)>(before: map<K, V>, after: map<K, V>, key: K)
  {
    forall k :: k in before && k != key ==> k in after && after[k] == before[k]
  }

  /** The keys a reveal listing names. */
  function Voters(results: seq<RevealEntry>): set<string>
  {
    set j | 0 <= j < |results| :: results[j].user
  }

  /** `results` lists every entry of `votes` exactly once. */
  predicate ListsVotes(results: seq<RevealEntry>, votes: map<string, Ballot>)
  {
    && |results| == |votes|
    && Voters(results) == votes.Keys
    && (forall j :: 0 <= j < |results| ==>
          results[j].user in votes && votes[results[j].user] == Ballot(results[j].emoji, results[j].score))
    && (forall j, k :: 0 <= j < k < |results| ==> results[j].user != results[k].user)
  }

  /** Appending an entry adds its key to the keys a listing names. */
  lemma VotersAppend(results: seq<RevealEntry>, entry: RevealEntry)
    ensures Voters(results + [entry]) == Voters(results) + {entry.user}
    ensures forall j :: 0 <= j < |results| ==> results[j].user in Voters(results)
  {
    var ext := results + [entry];
    assert forall j :: 0 <= j < |results| ==> ext[j] == results[j];
    assert ext[|results|] == entry;
  }

  /** The `reveal` payload: the entries of a room's `votes` map, each one
      flattened into `{ user, emoji, score }`. */
  method ResultsOf(votes: map<string, Ballot>) returns (results: seq<RevealEntry>)
    ensures ListsVotes(results, votes)
  {
    results := [];
    var pending := votes.Keys;
    while pending != {}
      invariant pending <= votes.Keys
      invariant Voters(results) == votes.Keys - pending
      invariant |results| + |pending| == |votes|
      invariant forall j :: 0 <= j < |results| ==>
                  results[j].user in votes && votes[results[j].user] == Ballot(results[j].emoji, results[j].score)
      invariant forall j, k :: 0 <= j < k < |results| ==> results[j].user != results[k].user
      decreases |pending|
    {
      var u :| u in pending;
      var entry := RevealEntry(u, votes[u].emoji, votes[u].score);
      VotersAppend(results, entry);
      results := results + [entry];
      pending := pending - {u};
    }
  }
}
