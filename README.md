# Tournament room service — Dafny model

This project models `RoomService` from `src/events/events.service.ts`. It is the
in-memory manager of a card-game tournament's live rooms. It holds two maps:
`roomList` (room id to room) and `timer` (room id to blind-timer record). Each
command is one sequential update of these maps, guarded by checks.

- **Registry.** `createGameRoom` refuses a table number that a live room already
  uses, and otherwise registers a new room under `room:<uuid>`. `getGameRoom`
  looks a room up. `deleteGameRoom` removes the caller's room.
- **Seats and entries.** `seat` refuses a full entry (the dealer is exempt) and a
  chair held by someone else. It counts a non-dealer who is not playing at the
  time of the call, once per such call. `sitoutGame` moves a player to the
  sit-out members and empties that player's chairs.
- **Finishing.** `finishGame` lets only the dealer finish. It builds the game
  item, three winner rows and a zero row for every other participant, then
  removes the room.
- **Blind timer.** `startTimer`, `pauseTimer` and `resetTimer`. The
  one-second interval callback is the explicit method `Tick`.

Files and modules:

- `wrappers.dfy` (`Wrappers`): `Option`, for JavaScript's `undefined`/`null`.
- `rooms.dfy` (`Rooms`): the room record, its invariant, and the effect of
  `seat` and `sitoutGame` on one room as functions, with lemmas.
- `timers.dfy` (`Timers`): the timer record, the tick/start/pause steps, the
  `min:sec` display, and countdown lemmas.
- `finish.dfy` (`Finish`): the records `finishGame` produces, with lemmas.
- `events.dfy` (`Events`): the classes `Client` (a socket's session data:
  nickname, uuid, current game id) and `RoomService` (fields `roomList` and
  `timer`, and one method per command). Each method states its new state with
  the functions above and keeps the object invariant `Valid()`.

`Valid()` requires the following:

- table numbers are pairwise distinct;
- every room id starts with `room:`, and is the room's own `gameId`;
- every room satisfies `RoomInv`. It has 11 chairs. Its entry count is 0 or
  at most the entry limit. It has no more playing members than entries. The
  dealer is not a playing member. Every occupied chair belongs to a playing
  member;
- every timer satisfies `TimerInv`. A stored second is at least 2, and a
  running counter is at most one second behind that stored second.

Modelling choices:

- Inputs that are not deterministic are parameters: the uuid for a new room id,
  which must not already be in use, and the finish timestamp.
- The blind ladder `blindStructure` comes from a file that is not part of this
  model. It is the constant `RoomService.ladder`. Reading past its end gives
  `undefined`, modelled as `None`.
- JavaScript numbers are modelled as unbounded integers. `t % 60` uses
  JavaScript's truncating remainder (`JsRemainder60`), and `Math.floor(t / 60)`
  uses Dafny's `/`, which equals floor division for a positive divisor.
- `!playing_users[nickname]` is JavaScript truthiness. It is modelled by
  `IsPlaying`: the key is present and its uuid is not the empty string.

Behaviour of the source that a reader might not expect, modelled as the source
has it:

- When a round's count runs out, the timer stops, clears its stored second and
  raises the level. It does not restart at the next level, and timer commands
  change no room status.
- The last second shown is `0:1`, never `0:0` (`FreshRound`).
- There is no charge call and no guest seats. `seat` writes the chair only
  when it also counts the entry. A player who is already playing is not moved
  to another chair.
- Playing and sit-out membership are not kept disjoint. A player who sat out
  and takes a chair again is in both maps (`ReseatAfterSitout`).
- `sitoutGame` does not check the caller's role.
- A player who sits again after sitting out uses a second entry, because sitting out never lowers the entry count.
- A player whose uuid is the empty string is never truthy in `playing_users`. Every `seat` call counts and seats them again, and `sitoutGame` refuses them.
- `finishGame` does not cancel the room's timer, and its timer entry stays.

## Model

| member | source | states |
|---|---|---|
| `Events.RoomService.constructor` | src/events/events.service.ts:23-29 | The service starts with no rooms and no timers, and satisfies its invariant. |
| `Events.RoomService.GetGameRoom` | src/events/events.service.ts:362-364 | A room is returned exactly when one is registered under the id, and it is that room. Otherwise the result is `undefined` (`None`). Every per-room command requires this lookup to succeed. After `CreateGameRoom` it returns the new room, and after `DeleteGameRoom` it returns `None` for the deleted id. |
| `Events.RoomService.FindTable` | src/events/events.service.ts:34-43 | The loop over live rooms answers true exactly when some live room has the requested table number. |
| `Events.RoomKey` | src/events/events.service.ts:32 | A generated game id always has the `room:` prefix. |
| `Events.RegisterKeepsTablesDistinct` | src/events/events.service.ts:34-45 | Adding a room under a new id, with a table number no live room uses, keeps table numbers pairwise distinct and leaves every other room as it was. |
| `Events.RoomService.CreateGameRoom` | src/events/events.service.ts:31-70 | If the table number is in use, the reply is an error and nothing changes. Otherwise exactly one room is added under `room:<uuid>`: entry 0, no playing or sit-out members, 11 empty chairs, the caller as dealer. The caller's session moves to it, no other room changes, and the invariant (distinct table numbers) is kept. |
| `Rooms.NewRoom` | src/events/events.service.ts:45-61 | A newly created room satisfies the room invariant. |
| `Events.RoomService.EnterGameRoom` | src/events/events.service.ts:72-79 | Only the caller's current game id changes. No room is touched. |
| `Events.RoomService.Seat` | src/events/events.service.ts:81-119 | The reply is the branch `SeatDecision` picks, and the room becomes `SeatRoom` of the old room. The session moves to the room exactly when neither rejection fires. Timers and other rooms are unchanged, and the invariant is kept. |
| `Rooms.SeatRejections` | src/events/events.service.ts:88-104 | If the entry is full and the caller is not the dealer, or the chair holds another nickname, the caller is rejected and the room is unchanged. |
| `Rooms.SeatAccounting` | src/events/events.service.ts:88-118 | Entry rises by exactly one exactly when the caller is not playing, is not the dealer, the entry is not full, and the chair is free or the caller's own. In that case the chair gets `{nickname, uuid}` and the nickname joins the playing members. Otherwise the room is unchanged, and a dealer never changes it. The room invariant is kept, so the entry count stays 0 or at most `entry_limit`. |
| `Rooms.SeatScenario` | src/events/events.service.ts:81-119 | In a room with entry limit 2: A takes chair 0 (entry 1). B is refused chair 0 and takes chair 1 (entry 2). C is refused because the entry is full. |
| `Rooms.ClearChairs` | src/events/events.service.ts:135-140 | The `forEach` empties every chair whose occupant has the nickname and leaves every other chair as it was. |
| `Events.RoomService.SitoutGame` | src/events/events.service.ts:121-145 | The reply is an error exactly when the nickname is not playing. The room becomes `SitoutRoom` of the old room. Timers and other rooms are unchanged, and the invariant is kept. |
| `Rooms.SitoutEffect` | src/events/events.service.ts:121-145 | A nickname that is not playing changes nothing. Otherwise its uuid moves from the playing to the sit-out members, and each of its chairs is emptied. Entry and all other chairs are unchanged, and the room invariant is kept. |
| `Rooms.ReseatAfterSitout` | src/events/events.service.ts:112-133 | A player who sat out and takes a free chair again within the limit is in both the playing and the sit-out maps. Disjointness is not maintained. |
| `Events.UndefinedIsNoRoomKey` | src/events/events.service.ts:370-371 | The key that an unset game id selects can never be a room id. |
| `Events.RoomService.DeleteGameRoom` | src/events/events.service.ts:370-373 | The session's room is removed, and nothing else changes. A session without a game id changes nothing. |
| `Events.RoomService.FinishGame` | src/events/events.service.ts:147-273 | A non-dealer gets an error, and `roomList` and `timer` are unchanged. For the dealer, the room is removed, its timer entry is left untouched, and the reply carries the game item, the winner rows and the participation rows. |
| `Finish.MergeParticipants` | src/events/events.service.ts:176-179 | The merged roster has every nickname of either map. A sit-out entry overrides a playing entry with the same nickname. |
| `Finish.GameRecord` | src/events/events.service.ts:166-181 | The game item carries the game id, the date, the three winners and the prize type from the request. Its `user_list` is exactly the merged roster of playing and sit-out members. |
| `Finish.WinnerRecords` | src/events/events.service.ts:184-210 | There are three rows for the 1st, 2nd and 3rd uuids, with (place, point, prize amount) = (1,3,4), (2,0,2) and (3,0,1). All carry the game id, the date and the prize type. |
| `Finish.NonWinnerRecords` | src/events/events.service.ts:238-268 | The participant loop produces exactly one zero row for each participant whose uuid is none of the three winners. |
| `Finish.FinishRecordsCover` | src/events/events.service.ts:184-255 | A participant whose uuid is a winner's has that winner's row. Every other participant has its own (0,0,0) row. No participation row carries a winner uuid, and each belongs to a participant. |
| `Events.RoomService.StartTimer` | src/events/events.service.ts:275-316 | A non-dealer, or a start while the interval is scheduled, is refused with no state change. Otherwise the blind becomes the ladder entry at the timer's level, and the clock is scheduled from the stored second, or from `duration*60-1` if none is stored. |
| `Timers.StartEffect` | src/events/events.service.ts:294-310 | Starting keeps the level and the timer invariant. A room with no timer record starts at level 0 with `duration*60-1` seconds. |
| `Events.RoomService.Tick` | src/events/events.service.ts:317-331 | A tick emits the counter as `floor(t/60)` and `t%60`, and the timer becomes `TickStep` of the old one. The level never decreases, no room changes, and the invariant is kept. |
| `Timers.JsRemainder60` | src/events/events.service.ts:319 | JavaScript's `%` by 60: the result lies in 0..59 for a non-negative count and in -59..0 for a negative one, and differs from the count by a multiple of 60. |
| `Timers.Display` | src/events/events.service.ts:318-321 | For a non-negative count, the emitted pair is whole minutes and seconds in 0..59 that add back to the count. |
| `Timers.TickEffect` | src/events/events.service.ts:317-331 | A tick stops the clock exactly when the counter was 1 or less. It then clears the stored second and raises the level by exactly 1. Otherwise it stores the counter, decrements it and keeps the level. The timer invariant is kept. |
| `Timers.TicksLevelMonotone` | src/events/events.service.ts:317-331 | However many ticks run, the level never decreases. |
| `Timers.CountDown` | src/events/events.service.ts:317-331 | The first `k` ticks of a running clock with counter `c > k` count down one second each, at the same level. |
| `Timers.CountDownEnds` | src/events/events.service.ts:322-330 | A running clock with counter `c >= 1` stops after exactly `c` ticks, one level higher, with no stored second, and does not restart by itself. |
| `Timers.FreshRound` | src/events/events.service.ts:310-331 | A fresh start with a duration of `d >= 1` minutes runs `d*60-1` ticks and then stops at level 1. |
| `Timers.PauseResume` | src/events/events.service.ts:310-353 | Pausing after a tick that did not stop the clock, then starting again, resumes from the last second emitted, at the same level, whatever the duration. |
| `Events.RoomService.PauseTimer` | src/events/events.service.ts:348-360 | A non-dealer changes nothing. For the dealer the interval stops, and the stored second and the level are kept. |
| `Events.RoomService.ResetTimer` | src/events/events.service.ts:334-346 | A non-dealer changes nothing. For the dealer the room's whole timer record is deleted, so the next start is at level 0 with the full duration. |

## Left out

- Socket I/O is not modelled: `client.emit`, `to(...).emit`, `join` and `rooms.clear()`. Replies are modelled as the returned outcome values. `Tick` returns the `min:sec` pair as numbers, without formatting it as a string.
- `src/events/events.gateway.ts` is not modelled. It only logs and broadcasts.
- `setInterval`/`clearInterval` are not modelled as scheduling. A `running` flag stands for the handle, and `Tick` is one run of the callback. The closure's local counter is the timer field `counter`.
- Persistence is not modelled: the TypeORM inserts and the DynamoDB `PutCommand`. They are fire-and-forget promises that the surrounding `try/catch` cannot see fail. Only the records they would write are modelled, so the error replies at lines 228-235 and 260-266 have no model.
- The order of the `for...in` loops is not modelled. Participation rows are a map keyed by nickname, not a sequence in insertion order.
- `uuidv4` and `new Date().toISOString()` are not modelled. They are parameters: a uuid whose room id is not in use, and an opaque date string.
- The DTO file `src/events/dto/events.dto.ts` is not used for the room fields. They come from the object literal in `createGameRoom`. `Timer`, `enterGameDto` and `createRoomRequestDto` are not part of this model.
- Crashes are preconditions, not behaviour:
  - commands on a room that does not exist (destructuring `undefined`);
  - `startTimer` without a game id, which emits an error and then crashes;
  - pause or reset by the dealer when the room has no timer record.
- `Events.RoomService.Seat` requires `chair < SeatCount`, but the source does not check the index and does not crash on one out of range. At index 11 or more the chair reads as empty, and the write makes the seat array longer. A negative index becomes a plain property that the `forEach` of `sitoutGame` never visits, so it is never cleared. The model does not capture writes outside the 11 chairs.
- `getGameRoom` returns the live room object, and `seat` mutates the room through that reference (lines 114-115). The model stores rooms as values in `roomList` and writes an updated copy back, so it does not capture aliasing of room objects.
- JavaScript truthiness of prototype properties is not modelled. For example, `playing_users["constructor"]` is truthy on a plain object.
- Numbers are integers only: no fractional durations or limits, and no floating-point rounding.
- Configuration and wiring are not modelled (`ormconfig`, the NestJS modules, the DynamoDB client). `src/entity/UserGame.ts` is used only as the shape of a row.
- `FinishRequest.prizeAmount` is carried but never read. Its only use in the source is commented out.
- `getGameRoomList` is not modelled. It returns the `roomList` field unchanged, so it has no contract.
