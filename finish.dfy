/**
 * The records `finishGame` hands to persistence: one aggregate game item and
 * one `user_game_history` row per winner and per other participant.
 */
module Finish {
  /** The dealer's finish request: the three winners' uuids and the prize type. */
  datatype FinishRequest = FinishRequest(
    user1st: string,
    user2nd: string,
    user3rd: string,
    prizeType: string,
    prizeAmount: int)  // carried but never read: no record uses it

  /** A `user_game_history` row. */
  datatype UserGame = UserGame(
    userUuid: string,
    gameId: string,
    gameDate: string,
    place: int,
    point: int,
    prizeType: string,
    prizeAmount: int)

  /** The aggregate game item; `userList` maps nickname to uuid. */
  datatype GameItem = GameItem(
    gameId: string,
    gameDate: string,
    user1st: string,
    user2nd: string,
    user3rd: string,
    prizeType: string,
    userList: map<string, string>)

  /**
   * `{ ...playing_users, ...sitout_users }`: every key of either map, a
   * sit-out entry overriding a playing entry with the same nickname.
   */
  function MergeParticipants(playing: map<string, string>, sitout: map<string, string>): (all: map<string, string>)
    ensures all.Keys == playing.Keys + sitout.Keys
    ensures forall k :: k in all ==> all[k] == if k in sitout then sitout[k] else playing[k]
  {
    playing + sitout
  }

  predicate IsWinner(uuid: string, req: FinishRequest) {
    uuid == req.user1st || uuid == req.user2nd || uuid == req.user3rd
  }

  /** The aggregate game item written to the document store. */
  function GameRecord(gameId: string, date: string, req: FinishRequest,
                      playing: map<string, string>, sitout: map<string, string>): (g: GameItem)
    ensures g.gameId == gameId && g.gameDate == date
    ensures g.user1st == req.user1st && g.user2nd == req.user2nd && g.user3rd == req.user3rd
    ensures g.prizeType == req.prizeType
    ensures g.userList == MergeParticipants(playing, sitout)
    ensures g.userList.Keys == playing.Keys + sitout.Keys
  {
    GameItem(gameId, date, req.user1st, req.user2nd, req.user3rd, req.prizeType,
             MergeParticipants(playing, sitout))
  }

  /** Points by place (1st, 2nd, 3rd); everyone else gets 0. */
  function PlacePoints(place: int): int {
    if place == 1 then 3 else 0
  }

  /** Prize amount by place (1st, 2nd, 3rd); everyone else gets 0. */
  function PlacePrize(place: int): int {
    if place == 1 then 4 else if place == 2 then 2 else if place == 3 then 1 else 0
  }

  function PlaceRecord(uuid: string, gameId: string, date: string, req: FinishRequest, place: int): UserGame {
    UserGame(uuid, gameId, date, place, PlacePoints(place), req.prizeType, PlacePrize(place))
  }

  /**
   * The three winner rows, in the order they are inserted: 1st, 2nd, 3rd,
   * with (place, point, prize amount) = (1, 3, 4), (2, 0, 2) and (3, 0, 1).
   */
  function WinnerRecords(gameId: string, date: string, req: FinishRequest): (rows: seq<UserGame>)
    ensures |rows| == 3
    ensures rows[0].userUuid == req.user1st && rows[1].userUuid == req.user2nd && rows[2].userUuid == req.user3rd
    ensures forall i :: 0 <= i < 3 ==>
      rows[i].place == i + 1 && rows[i].gameId == gameId && rows[i].gameDate == date
      && rows[i].prizeType == req.prizeType
    ensures rows[0].point == 3 && rows[0].prizeAmount == 4
    ensures rows[1].point == 0 && rows[1].prizeAmount == 2
    ensures rows[2].point == 0 && rows[2].prizeAmount == 1
  {
    [PlaceRecord(req.user1st, gameId, date, req, 1),
     PlaceRecord(req.user2nd, gameId, date, req, 2),
     PlaceRecord(req.user3rd, gameId, date, req, 3)]
  }

  /** The participation rows, keyed by the participant's nickname. */
  function ParticipationRecords(all: map<string, string>, gameId: string, date: string, req: FinishRequest): map<string, UserGame> {
    map v | v in all && !IsWinner(all[v], req) :: PlaceRecord(all[v], gameId, date, req, 0)
  }

  /**
   * The `for...in` over the merged participants: a zero row for each
   * participant whose uuid is none of the three winners.
   */
  method NonWinnerRecords(all: map<string, string>, gameId: string, date: string, req: FinishRequest)
    returns (others: map<string, UserGame>)
    ensures others == ParticipationRecords(all, gameId, date, req)
  {
    others := map[];
    var todo := all.Keys;
    while todo != {}
      invariant todo <= all.Keys
      invariant others.Keys == set v | v in all.Keys - todo && !IsWinner(all[v], req)
      invariant forall v :: v in others ==> others[v] == PlaceRecord(all[v], gameId, date, req, 0)
      decreases |todo|
    {
      var v :| v in todo;
      if !IsWinner(all[v], req) {
        others := others[v := PlaceRecord(all[v], gameId, date, req, 0)];
      }
      todo := todo - {v};
    }
  }

  /**
   * Every participant is covered: a uuid that is one of the winners has its
   * winner row, every other one its own (0, 0, 0) row; no participation row
   * carries a winner uuid, and each belongs to a participant.
   */
  lemma FinishRecordsCover(all: map<string, string>, gameId: string, date: string, req: FinishRequest)
    ensures var winners := WinnerRecords(gameId, date, req);
      var others := ParticipationRecords(all, gameId, date, req);
      && (forall v :: v in all && IsWinner(all[v], req) ==>
            exists i :: 0 <= i < 3 && winners[i].userUuid == all[v])
      && (forall v :: v in all && !IsWinner(all[v], req) ==>
            v in others && others[v].userUuid == all[v])
      && (forall v :: v in others ==>
            v in all && !IsWinner(others[v].userUuid, req)
            && others[v].place == 0 && others[v].point == 0 && others[v].prizeAmount == 0
            && others[v].gameId == gameId && others[v].gameDate == date && others[v].prizeType == req.prizeType)
  {
    var winners := WinnerRecords(gameId, date, req);
    forall v | v in all && IsWinner(all[v], req)
      ensures exists i :: 0 <= i < 3 && winners[i].userUuid == all[v]
    {
      if all[v] == req.user1st { assert winners[0].userUuid == all[v]; }
      else if all[v] == req.user2nd { assert winners[1].userUuid == all[v]; }
      else { assert winners[2].userUuid == all[v]; }
    }
  }
}
