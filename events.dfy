/**
 * `RoomService`: the in-memory registry of live rooms (`roomList`) and of
 * their blind timers (`timer`), and the commands that update them. A
 * connected socket's session data is the `Client` object.
 */
module Events {
  import opened Wrappers
  import opened Rooms
  import opened Timers
  import opened Finish

  /** Every room id is `room:` followed by a fresh uuid. */
  const RoomPrefix: string := "room:"

  function RoomKey(uuid: string): (id: string)
    ensures IsRoomKey(id)
  {
    RoomPrefix + uuid
  }

  predicate IsRoomKey(id: string) {
    |RoomPrefix| <= |id| && id[..|RoomPrefix|] == RoomPrefix
  }

  /** The property name a possibly `undefined` game id selects. */
  function PropertyKey(gameId: Option<string>): string {
    match gameId
    case Some(id) => id
    case None => "undefined"
  }

  /** The key of an `undefined` game id can never name a room. */
  lemma UndefinedIsNoRoomKey()
    ensures !IsRoomKey(PropertyKey(None))
  {
    assert PropertyKey(None)[..|RoomPrefix|] == "undef";
  }

  /** No two live rooms share a table number. */
  predicate TablesDistinct(rooms: map<string, Room>) {
    forall a, b :: a in rooms && b in rooms && a != b ==> rooms[a].tableNo != rooms[b].tableNo
  }

  predicate TableTaken(rooms: map<string, Room>, tableNo: int) {
    exists id :: id in rooms && rooms[id].tableNo == tableNo
  }

  /**
   * Registering a room under a new id whose table number no live room uses
   * keeps the table numbers pairwise distinct; the other rooms are kept.
   */
  lemma RegisterKeepsTablesDistinct(rooms: map<string, Room>, id: string, r: Room)
    requires TablesDistinct(rooms) && id !in rooms && !TableTaken(rooms, r.tableNo)
    ensures TablesDistinct(rooms[id := r])
    ensures forall other :: other in rooms ==> other in rooms[id := r] && rooms[id := r][other] == rooms[other]
  {
    var rooms' := rooms[id := r];
    forall a, b | a in rooms' && b in rooms' && a != b
      ensures rooms'[a].tableNo != rooms'[b].tableNo
    {
      if a == id {
        assert rooms'[b] == rooms[b];
      } else if b == id {
        assert rooms'[a] == rooms[a];
      }
    }
  }

  /** What `createGameRoom` replies. */
  datatype CreateReply = TableInUse | Created(gameId: string)

  /** What `sitoutGame` replies. */
  datatype SitoutReply = NotPlaying | SatOut

  /** What the timer commands reply; `DealerOnly` is the "dealer only" error. */
  datatype TimerReply = Done | DealerOnly | AlreadyRunning

  /** What `finishGame` replies, with the records it hands to persistence. */
  datatype FinishReply =
    | NotDealer
    | Recorded(game: GameItem, winners: seq<UserGame>, others: map<string, UserGame>)

  /** The session data of one socket: decoded claims and the current room. */
  class Client {
    const nickname: string
    const uuid: string
    var gameId: Option<string>

    constructor (nickname: string, uuid: string)
      ensures this.nickname == nickname && this.uuid == uuid && gameId == None
    {
      this.nickname := nickname;
      this.uuid := uuid;
      gameId := None;
    }
  }

  class RoomService {
    /** The blind ladder `blindStructure`. */
    const ladder: seq<string>
    var roomList: map<string, Room>
    var timer: map<string, Timer>

    ghost predicate Valid()
      reads this
    {
      && TablesDistinct(roomList)
      && (forall id :: id in roomList ==> IsRoomKey(id) && roomList[id].gameId == id && RoomInv(roomList[id]))
      && (forall id :: id in timer ==> TimerInv(timer[id]))
    }

    constructor (ladder: seq<string>)
      ensures Valid()
      ensures this.ladder == ladder && roomList == map[] && timer == map[]
    {
      this.ladder := ladder;
      roomList := map[];
      timer := map[];
    }

    /** `getGameRoom`: the room under `gameId`, `None` (`undefined`) when there is none. */
    function GetGameRoom(gameId: string): (r: Option<Room>)
      reads this
      ensures r.Some? <==> gameId in roomList
      ensures r.Some? ==> r.value == roomList[gameId]
    {
      if gameId in roomList then Some(roomList[gameId]) else None
    }

    /** The `for...in` of `createGameRoom`: is `tableNo` used by a live room? */
    method FindTable(tableNo: int) returns (taken: bool)
      ensures taken <==> TableTaken(roomList, tableNo)
    {
      var todo := roomList.Keys;
      while todo != {}
        invariant todo <= roomList.Keys
        invariant forall id :: id in roomList.Keys - todo ==> roomList[id].tableNo != tableNo
        decreases |todo|
      {
        var id :| id in todo;
        if roomList[id].tableNo == tableNo {
          return true;
        }
        todo := todo - {id};
      }
      return false;
    }

    /**
     * `createGameRoom`: refused when the table number is in use; otherwise
     * one room is registered under `room:<uuid>` with the caller as dealer,
     * no entries, no members and eleven empty chairs, and the caller's
     * session moves to it. No other room changes.
     */
    method CreateGameRoom(client: Client, request: CreateRoomRequest, uuid: string) returns (reply: CreateReply)
      requires Valid()
      requires GetGameRoom(RoomKey(uuid)).None?
      modifies this`roomList, client
      ensures Valid() && timer == old(timer)
      ensures TableTaken(old(roomList), request.tableNo) ==>
        reply == TableInUse && roomList == old(roomList) && client.gameId == old(client.gameId)
      ensures !TableTaken(old(roomList), request.tableNo) ==>
        && reply == Created(RoomKey(uuid))
        && roomList == old(roomList)[RoomKey(uuid) := NewRoom(RoomKey(uuid), client.nickname, request)]
        && client.gameId == Some(RoomKey(uuid))
      ensures reply.Created? ==>
        var r := roomList[reply.gameId];
        && r.entry == 0 && r.playingUsers == map[] && r.sitoutUsers == map[]
        && |r.seat| == SeatCount && (forall i :: 0 <= i < |r.seat| ==> r.seat[i] == Empty)
        && r.dealerId == client.nickname && r.tableNo == request.tableNo
      ensures reply.Created? ==>
        GetGameRoom(RoomKey(uuid)) == Some(NewRoom(RoomKey(uuid), client.nickname, request))
      ensures reply == TableInUse ==> GetGameRoom(RoomKey(uuid)).None?
    {
      var gameId := RoomKey(uuid);
      var taken := FindTable(request.tableNo);
      if taken {
        return TableInUse;
      }
      RegisterKeepsTablesDistinct(roomList, gameId, NewRoom(gameId, client.nickname, request));
      roomList := roomList[gameId := NewRoom(gameId, client.nickname, request)];
      client.gameId := Some(gameId);
      reply := Created(gameId);
    }

    /** `enterGameRoom`: only the caller's session moves to the room. */
    method EnterGameRoom(client: Client, gameId: string)
      modifies client
      ensures client.gameId == Some(gameId)
    {
      client.gameId := Some(gameId);
    }

    /**
     * `seat`: refused when the entry is full for a non-dealer or the chair
     * holds someone else; otherwise the session moves to the room, and a
     * non-dealer who is not yet playing is counted, seated and recorded as
     * playing. Only this room changes.
     */
    method Seat(client: Client, gameId: string, chair: nat) returns (outcome: SeatOutcome)
      requires Valid()
      requires GetGameRoom(gameId).Some? && chair < SeatCount
      modifies this`roomList, client
      ensures Valid() && timer == old(timer)
      ensures outcome == SeatDecision(old(roomList[gameId]), chair, client.nickname)
      ensures roomList == old(roomList)[gameId := SeatRoom(old(roomList[gameId]), chair, client.nickname, client.uuid)]
      ensures client.gameId == if outcome in {EntryFull, ChairTaken} then old(client.gameId) else Some(gameId)
    {
      var room := roomList[gameId];
      if room.entryLimit <= room.entry && room.dealerId != client.nickname {
        return EntryFull;
      }
      if room.seat[chair].Occupied? && room.seat[chair].nickname != client.nickname {
        return ChairTaken;
      }
      client.gameId := Some(gameId);
      if !IsPlaying(room.playingUsers, client.nickname) && room.dealerId != client.nickname {
        var playing := room.playingUsers[client.nickname := client.uuid];
        var seats := room.seat[chair := Occupied(client.nickname, client.uuid)];
        roomList := roomList[gameId := room.(playingUsers := playing, entry := room.entry + 1, seat := seats)];
        outcome := Seated;
      } else {
        outcome := Unchanged;
      }
      SeatAccounting(room, chair, client.nickname, client.uuid);
    }

    /**
     * `sitoutGame`: refused when `nickname` is not playing; otherwise its
     * uuid moves to the sit-out members and every chair it holds is emptied.
     * `client` is the caller's socket, used in the source only for replies.
     */
    method SitoutGame(client: Client, gameId: string, nickname: string) returns (reply: SitoutReply)
      requires Valid() && GetGameRoom(gameId).Some?
      modifies this`roomList
      ensures Valid() && timer == old(timer)
      ensures reply == NotPlaying <==> !IsPlaying(old(roomList[gameId]).playingUsers, nickname)
      ensures roomList == old(roomList)[gameId := SitoutRoom(old(roomList[gameId]), nickname)]
    {
      var room := roomList[gameId];
      if !IsPlaying(room.playingUsers, nickname) {
        return NotPlaying;
      }
      var sitout := room.sitoutUsers[nickname := room.playingUsers[nickname]];
      var playing := room.playingUsers - {nickname};
      var seats := ClearChairs(room.seat, nickname);
      roomList := roomList[gameId := room.(sitoutUsers := sitout, playingUsers := playing, seat := seats)];
      SitoutEffect(room, nickname);
      reply := SatOut;
    }

    /**
     * `deleteGameRoom`: removes the session's room; a session without a
     * room deletes the key "undefined", which no room has.
     */
    method DeleteGameRoom(client: Client)
      requires Valid()
      modifies this`roomList
      ensures Valid() && timer == old(timer)
      ensures roomList == old(roomList) - {PropertyKey(client.gameId)}
      ensures client.gameId.None? ==> roomList == old(roomList)
      ensures GetGameRoom(PropertyKey(client.gameId)).None?
    {
      var key := PropertyKey(client.gameId);
      if client.gameId.None? {
        UndefinedIsNoRoomKey();
      }
      roomList := roomList - {key};
    }

    /**
     * `finishGame`: a caller who is not the dealer changes nothing;
     * the dealer gets the game item, the three winner rows and one zero row
     * per other participant, and the room is removed while its timer entry
     * stays.
     */
    method FinishGame(client: Client, req: FinishRequest, date: string) returns (reply: FinishReply)
      requires Valid()
      requires client.gameId.Some? && GetGameRoom(client.gameId.value).Some?
      modifies this`roomList
      ensures Valid() && timer == old(timer)
      ensures var gameId := client.gameId.value;
        var room := old(roomList[gameId]);
        if room.dealerId != client.nickname then
          reply == NotDealer && roomList == old(roomList)
        else
          && roomList == old(roomList) - {gameId}
          && reply == Recorded(
               GameRecord(gameId, date, req, room.playingUsers, room.sitoutUsers),
               WinnerRecords(gameId, date, req),
               ParticipationRecords(MergeParticipants(room.playingUsers, room.sitoutUsers), gameId, date, req))
    {
      var gameId := client.gameId.value;
      var room := roomList[gameId];
      if room.dealerId != client.nickname {
        return NotDealer;
      }
      var game := GameRecord(gameId, date, req, room.playingUsers, room.sitoutUsers);
      var winners := WinnerRecords(gameId, date, req);
      DeleteGameRoom(client);
      var all := MergeParticipants(room.playingUsers, room.sitoutUsers);
      var others := NonWinnerRecords(all, gameId, date, req);
      reply := Recorded(game, winners, others);
    }

    /**
     * `startTimer`: refused for a non-dealer, and while an interval is
     * scheduled; otherwise the room's blind becomes the ladder's entry at the
     * timer's level and the clock is scheduled from the stored second, or
     * from `duration * 60 - 1` when none is stored.
     */
    method StartTimer(client: Client) returns (reply: TimerReply)
      requires Valid()
      requires client.gameId.Some? && GetGameRoom(client.gameId.value).Some?
      modifies this`roomList, this`timer
      ensures Valid()
      ensures var gameId := client.gameId.value;
        var room := old(roomList[gameId]);
        var before := if gameId in old(timer) then old(timer[gameId]) else Fresh;
        if room.dealerId != client.nickname then
          reply == DealerOnly && roomList == old(roomList) && timer == old(timer)
        else if before.running then
          reply == AlreadyRunning && roomList == old(roomList) && timer == old(timer)
        else
          && reply == Done
          && roomList == old(roomList)[gameId := room.(blind := BlindAt(ladder, before.level))]
          && timer == old(timer)[gameId := Start(before, room.duration)]
    {
      var gameId := client.gameId.value;
      var room := roomList[gameId];
      if room.dealerId != client.nickname {
        return DealerOnly;
      }
      if gameId !in timer {
        timer := timer[gameId := Fresh];
      }
      var t := timer[gameId];
      if t.running {
        return AlreadyRunning;
      }
      var time := InitialCount(t, room.duration);
      roomList := roomList[gameId := room.(blind := BlindAt(ladder, t.level))];
      timer := timer[gameId := t.(running := true, counter := time)];
      StartEffect(t, room.duration);
      reply := Done;
    }

    /**
     * One run of a room's interval callback: emits the counter as minutes
     * and seconds and advances the timer by one second, stopping it and
     * raising the level when the count is used up. No room changes.
     */
    method Tick(gameId: string) returns (clock: Clock)
      requires Valid()
      requires gameId in timer && timer[gameId].running
      modifies this`timer
      ensures Valid() && roomList == old(roomList)
      ensures clock == Display(old(timer[gameId]).counter)
      ensures timer == old(timer)[gameId := TickStep(old(timer[gameId]))]
      ensures timer[gameId].level >= old(timer[gameId]).level
    {
      var t := timer[gameId];
      var time := t.counter;
      clock := Clock(time / 60, JsRemainder60(time));
      var stored := Some(time);
      time := time - 1;
      if time <= 0 {
        timer := timer[gameId := Timer(false, None, time, t.level + 1)];
      } else {
        timer := timer[gameId := Timer(t.running, stored, time, t.level)];
      }
      TickEffect(t);
    }

    /** `resetTimer`: the dealer deletes the room's whole timer record. */
    method ResetTimer(client: Client) returns (reply: TimerReply)
      requires Valid()
      requires client.gameId.Some? && GetGameRoom(client.gameId.value).Some?
      requires roomList[client.gameId.value].dealerId == client.nickname ==> client.gameId.value in timer
      modifies this`timer
      ensures Valid() && roomList == old(roomList)
      ensures var gameId := client.gameId.value;
        if roomList[gameId].dealerId != client.nickname then
          reply == DealerOnly && timer == old(timer)
        else
          reply == Done && timer == old(timer) - {gameId}
    {
      var gameId := client.gameId.value;
      if roomList[gameId].dealerId == client.nickname {
        timer := timer - {gameId};
        reply := Done;
      } else {
        reply := DealerOnly;
      }
    }

    /** `pauseTimer`: the dealer stops the interval, keeping the stored second and the level. */
    method PauseTimer(client: Client) returns (reply: TimerReply)
      requires Valid()
      requires client.gameId.Some? && GetGameRoom(client.gameId.value).Some?
      requires roomList[client.gameId.value].dealerId == client.nickname ==> client.gameId.value in timer
      modifies this`timer
      ensures Valid() && roomList == old(roomList)
      ensures var gameId := client.gameId.value;
        if roomList[gameId].dealerId != client.nickname then
          reply == DealerOnly && timer == old(timer)
        else
          && reply == Done
          && timer == old(timer)[gameId := Pause(old(timer[gameId]))]
          && !timer[gameId].running
          && timer[gameId].time == old(timer[gameId]).time
          && timer[gameId].level == old(timer[gameId]).level
    {
      var gameId := client.gameId.value;
      if roomList[gameId].dealerId == client.nickname {
        var t := timer[gameId];
        timer := timer[gameId := t.(running := false)];
        reply := Done;
      } else {
        reply := DealerOnly;
      }
    }
  }
}
