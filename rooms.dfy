/**
 * One tournament room as `RoomService` keeps it (the object literal built by
 * `createGameRoom`), and the pure effect of the two commands that change a
 * single room's seating: `seat` and `sitoutGame`.
 */
module Rooms {
  import opened Wrappers

  /** Number of chairs in a room's seat table (`new Array(11)`). */
  const SeatCount: nat := 11

  /** A chair is empty (`undefined` or `null`) or holds a player. */
  datatype Chair = Empty | Occupied(nickname: string, uuid: string)

  /** The fields of the create-room request that the service reads. */
  datatype CreateRoomRequest = CreateRoomRequest(
    tableNo: int,
    gameName: string,
    entryLimit: int,
    ticketAmount: int,
    ticketType: string,
    duration: int,
    blind: string,
    ante: int,
    status: string)

  /**
   * A live room. `playingUsers` and `sitoutUsers` map a nickname to a uuid.
   * `blind` is `None` when it was set from outside the blind ladder (`undefined`).
   */
  datatype Room = Room(
    tableNo: int,
    gameId: string,
    dealerId: string,
    gameName: string,
    entryLimit: int,
    entry: int,
    ticketAmount: int,
    ticketType: string,
    duration: int,
    blind: Option<string>,
    ante: int,
    playingUsers: map<string, string>,
    sitoutUsers: map<string, string>,
    status: string,
    seat: seq<Chair>)

  /**
   * JavaScript truthiness of `users[nickname]`: the key is present and its
   * uuid is not the empty string.
   */
  predicate IsPlaying(users: map<string, string>, nickname: string) {
    nickname in users && users[nickname] != ""
  }

  /**
   * What every room keeps between commands: eleven chairs; the entry count is
   * zero or within the entry limit; no more playing members than entries; the
   * dealer is never a playing member; every occupied chair belongs to a
   * playing member.
   */
  predicate RoomInv(r: Room) {
    && |r.seat| == SeatCount
    && 0 <= r.entry
    && (r.entry == 0 || r.entry <= r.entryLimit)
    && |r.playingUsers| <= r.entry
    && r.dealerId !in r.playingUsers
    && (forall i :: 0 <= i < |r.seat| && r.seat[i].Occupied? ==> r.seat[i].nickname in r.playingUsers)
  }

  /** The room registered by `createGameRoom` for a dealer and a request. */
  function NewRoom(gameId: string, dealer: string, req: CreateRoomRequest): (r: Room)
    ensures RoomInv(r)
  {
    Room(req.tableNo, gameId, dealer, req.gameName, req.entryLimit, 0,
         req.ticketAmount, req.ticketType, req.duration, Some(req.blind), req.ante,
         map[], map[], req.status, seq(SeatCount, _ => Empty))
  }

  /** The branch `seat` takes. */
  datatype SeatOutcome = EntryFull | ChairTaken | Seated | Unchanged

  /** Which branch of `seat` a caller with this nickname reaches for this chair. */
  function SeatDecision(r: Room, chair: nat, nickname: string): SeatOutcome
    requires chair < |r.seat|
  {
    if r.entryLimit <= r.entry && r.dealerId != nickname then EntryFull
    else if r.seat[chair].Occupied? && r.seat[chair].nickname != nickname then ChairTaken
    else if !IsPlaying(r.playingUsers, nickname) && r.dealerId != nickname then Seated
    else Unchanged
  }

  /** The room after `seat`: only the `Seated` branch changes it. */
  function SeatRoom(r: Room, chair: nat, nickname: string, uuid: string): Room
    requires chair < |r.seat|
  {
    if SeatDecision(r, chair, nickname) == Seated then
      r.(playingUsers := r.playingUsers[nickname := uuid],
         entry := r.entry + 1,
         seat := r.seat[chair := Occupied(nickname, uuid)])
    else r
  }

  /** The seat table with every chair of `nickname` emptied. */
  function ClearedChairs(seat: seq<Chair>, nickname: string): seq<Chair> {
    seq(|seat|, i requires 0 <= i < |seat| =>
      if seat[i].Occupied? && seat[i].nickname == nickname then Empty else seat[i])
  }

  /** The room after `sitoutGame` for `nickname`. */
  function SitoutRoom(r: Room, nickname: string): Room {
    if !IsPlaying(r.playingUsers, nickname) then r
    else r.(sitoutUsers := r.sitoutUsers[nickname := r.playingUsers[nickname]],
            playingUsers := r.playingUsers - {nickname},
            seat := ClearedChairs(r.seat, nickname))
  }

  /** The `forEach` of `sitoutGame` that nulls every chair whose occupant is `nickname`. */
  method ClearChairs(seat: seq<Chair>, nickname: string) returns (cleared: seq<Chair>)
    ensures cleared == ClearedChairs(seat, nickname)
  {
    cleared := seat;
    var i := 0;
    while i < |seat|
      invariant 0 <= i <= |seat|
      invariant |cleared| == |seat|
      invariant forall k :: 0 <= k < i ==> cleared[k] == ClearedChairs(seat, nickname)[k]
      invariant forall k :: i <= k < |seat| ==> cleared[k] == seat[k]
    {
      if cleared[i].Occupied? && cleared[i].nickname == nickname {
        cleared := cleared[i := Empty];
      }
      i := i + 1;
    }
  }

  lemma AddKeyCardinality(m: map<string, string>, k: string, v: string)
    ensures |m[k := v]| <= |m| + 1
  {
    assert m[k := v].Keys == m.Keys + {k};
  }

  lemma RemoveKeyCardinality(m: map<string, string>, k: string)
    ensures |m - {k}| <= |m|
  {
    assert (m - {k}).Keys == m.Keys - {k};
    assert m.Keys - {k} <= m.Keys;
  }

  /**
   * Accounting of `seat`: the entry count rises by one exactly on the
   * `Seated` branch, which also writes the chair and the playing member;
   * every other branch, and every call by the dealer, leaves the room as it
   * was; the room invariant, and with it `entry <= entryLimit`, is kept.
   */
  lemma SeatAccounting(r: Room, chair: nat, nickname: string, uuid: string)
    requires RoomInv(r) && chair < |r.seat|
    ensures var r' := SeatRoom(r, chair, nickname, uuid);
      && (r'.entry == r.entry + 1 <==>
            !IsPlaying(r.playingUsers, nickname) && r.dealerId != nickname
            && r.entry < r.entryLimit
            && (r.seat[chair].Empty? || r.seat[chair].nickname == nickname))
      && (r'.entry == r.entry + 1 ==>
            r'.seat == r.seat[chair := Occupied(nickname, uuid)]
            && r'.playingUsers == r.playingUsers[nickname := uuid])
      && (r'.entry != r.entry + 1 ==> r' == r)
      && (nickname == r.dealerId ==> r' == r)
      && RoomInv(r')
      && (r'.entry == 0 || r'.entry <= r'.entryLimit)
  {
    if SeatDecision(r, chair, nickname) == Seated {
      var r' := SeatRoom(r, chair, nickname, uuid);
      AddKeyCardinality(r.playingUsers, nickname, uuid);
      forall i | 0 <= i < |r'.seat| && r'.seat[i].Occupied?
        ensures r'.seat[i].nickname in r'.playingUsers
      {
        if i != chair {
          assert r'.seat[i] == r.seat[i];
        }
      }
    }
  }

  /** Both rejections of `seat` (entry full, chair taken) leave the room unchanged. */
  lemma SeatRejections(r: Room, chair: nat, nickname: string, uuid: string)
    requires chair < |r.seat|
    ensures r.entryLimit <= r.entry && r.dealerId != nickname ==>
      SeatDecision(r, chair, nickname) == EntryFull && SeatRoom(r, chair, nickname, uuid) == r
    ensures r.seat[chair].Occupied? && r.seat[chair].nickname != nickname ==>
      SeatDecision(r, chair, nickname) in {EntryFull, ChairTaken} && SeatRoom(r, chair, nickname, uuid) == r
  {
  }

  /**
   * `sitoutGame`: a nickname that is not playing changes nothing; otherwise
   * its uuid moves from the playing to the sit-out members, each of its
   * chairs is emptied, every other chair and the entry count stay, and the
   * room invariant is kept.
   */
  lemma SitoutEffect(r: Room, nickname: string)
    requires RoomInv(r)
    ensures var r' := SitoutRoom(r, nickname);
      && (!IsPlaying(r.playingUsers, nickname) ==> r' == r)
      && (IsPlaying(r.playingUsers, nickname) ==>
            && r'.sitoutUsers == r.sitoutUsers[nickname := r.playingUsers[nickname]]
            && r'.playingUsers == r.playingUsers - {nickname}
            && r'.entry == r.entry
            && |r'.seat| == |r.seat|
            && (forall i :: 0 <= i < |r.seat| ==>
                  if r.seat[i].Occupied? && r.seat[i].nickname == nickname
                  then r'.seat[i] == Empty else r'.seat[i] == r.seat[i]))
      && RoomInv(r')
  {
    if IsPlaying(r.playingUsers, nickname) {
      RemoveKeyCardinality(r.playingUsers, nickname);
    }
  }

  /**
   * Playing and sit-out membership are not kept disjoint: a player who sat
   * out and takes a free chair again is in both maps.
   */
  lemma ReseatAfterSitout(r: Room, nickname: string, uuid: string, chair: nat)
    requires RoomInv(r) && IsPlaying(r.playingUsers, nickname)
    requires chair < |r.seat| && r.entry < r.entryLimit
    requires r.seat[chair].Empty? || r.seat[chair].nickname == nickname
    ensures var r2 := SeatRoom(SitoutRoom(r, nickname), chair, nickname, uuid);
      nickname in r2.playingUsers && nickname in r2.sitoutUsers
  {
    var r1 := SitoutRoom(r, nickname);
    assert r1.seat[chair] == Empty;
    assert SeatDecision(r1, chair, nickname) == Seated;
  }

  /**
   * A room with entry limit 2: "A" takes chair 0; "B" is refused chair 0
   * and takes chair 1; "C" is refused because the entry is full.
   */
  lemma SeatScenario(req: CreateRoomRequest)
    requires req.entryLimit == 2
    ensures var r0 := NewRoom("room:x", "D", req);
      var r1 := SeatRoom(r0, 0, "A", "a");
      var r2 := SeatRoom(r1, 0, "B", "b");
      var r3 := SeatRoom(r2, 1, "B", "b");
      && SeatDecision(r0, 0, "A") == Seated && r1.entry == 1
      && SeatDecision(r1, 0, "B") == ChairTaken && r2 == r1
      && SeatDecision(r2, 1, "B") == Seated && r3.entry == 2
      && SeatDecision(r3, 2, "C") == EntryFull
  {
    var r0 := NewRoom("room:x", "D", req);
    assert r0.seat[0] == Empty && r0.seat[1] == Empty;
  }
}
