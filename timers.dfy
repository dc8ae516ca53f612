/**
 * The per-room blind timer of `RoomService`: the record `{timer, time, level}`
 * with the interval handle replaced by a `running` flag and the counter that
 * the interval callback closes over kept as the field `counter`.
 */
module Timers {
  import opened Wrappers

  /**
   * `running`: an interval is scheduled; `time`: the last second the
   * callback stored (`None` when unset or deleted); `counter`: the
   * callback's local countdown; `level`: index into the blind ladder.
   */
  datatype Timer = Timer(running: bool, time: Option<int>, counter: int, level: nat)

  /** The record `startTimer` creates when a room has none. */
  const Fresh: Timer := Timer(false, None, 0, 0)

  /** The `min:sec` pair a tick emits. */
  datatype Clock = Clock(minutes: int, seconds: int)

  /** JavaScript's `t % 60`: the remainder takes the sign of the dividend. */
  function JsRemainder60(t: int): (r: int)
    ensures t >= 0 ==> 0 <= r < 60
    ensures t < 0 ==> -60 < r <= 0
    ensures (t - r) % 60 == 0
  {
    if t >= 0 then t % 60 else -((-t) % 60)
  }

  /**
   * `Math.floor(t / 60)` and `t % 60`. For a non-negative count the pair is
   * whole minutes and the remaining seconds of `t`.
   */
  function Display(t: int): (c: Clock)
    ensures t >= 0 ==> 0 <= c.seconds < 60 && c.minutes * 60 + c.seconds == t
    ensures t < 0 ==> -60 < c.seconds <= 0 && c.minutes < 0
  {
    Clock(t / 60, JsRemainder60(t))
  }

  /** `this.timer[gameId].time ?? duration * 60 - 1`. */
  function InitialCount(t: Timer, duration: int): int {
    match t.time
    case Some(s) => s
    case None => duration * 60 - 1
  }

  /** A start that got past both guards: the interval is scheduled. */
  function Start(t: Timer, duration: int): Timer {
    t.(running := true, counter := InitialCount(t, duration))
  }

  /** `pauseTimer`: the interval is cleared, `time` and `level` are kept. */
  function Pause(t: Timer): Timer {
    t.(running := false)
  }

  /**
   * One run of the interval callback: store the counter, decrement it, and
   * when it has reached zero or below stop the interval, delete `time` and
   * move to the next level.
   */
  function TickStep(t: Timer): Timer
    requires t.running
  {
    var next := t.counter - 1;
    if next <= 0 then Timer(false, None, next, t.level + 1)
    else t.(time := Some(t.counter), counter := next)
  }

  /** The blind descriptor at `level`, `None` past the end of the ladder. */
  function BlindAt(ladder: seq<string>, level: nat): Option<string> {
    if level < |ladder| then Some(ladder[level]) else None
  }

  /**
   * A stored second is at least 2 (it survived a decrement that did not
   * stop the clock), and a running clock is at most one tick behind it.
   */
  predicate TimerInv(t: Timer) {
    && (t.time.Some? ==> t.time.value >= 2)
    && (t.running && t.time.Some? ==> t.time.value - 1 <= t.counter <= t.time.value)
  }

  /** The callback fires only while scheduled; `n` callbacks in a row. */
  function Ticks(t: Timer, n: nat): Timer {
    if n == 0 then t
    else
      var p := Ticks(t, n - 1);
      if p.running then TickStep(p) else p
  }

  /**
   * A tick keeps the invariant, never lowers the level, moves exactly one
   * level up precisely when it stops the clock, and that happens precisely
   * when the counter was 1 or less.
   */
  lemma TickEffect(t: Timer)
    requires t.running && TimerInv(t)
    ensures var t' := TickStep(t);
      && TimerInv(t')
      && (!t'.running <==> t.counter <= 1)
      && (!t'.running ==> t'.level == t.level + 1 && t'.time == None)
      && (t'.running ==> t'.level == t.level && t'.time == Some(t.counter) && t'.counter == t.counter - 1)
  {
  }

  /** Starting keeps the invariant and the level; a fresh record starts at level 0 with the full duration. */
  lemma StartEffect(t: Timer, duration: int)
    requires TimerInv(t)
    ensures TimerInv(Start(t, duration)) && Start(t, duration).level == t.level
    ensures Start(Fresh, duration).level == 0 && Start(Fresh, duration).counter == duration * 60 - 1
  {
  }

  /**
   * Pausing after a tick and starting again: the clock resumes from the
   * second the last tick emitted, whatever the duration, at the same level.
   */
  lemma PauseResume(t: Timer, duration: int)
    requires t.running && TimerInv(t) && t.counter > 1
    ensures var resumed := Start(Pause(TickStep(t)), duration);
      resumed.counter == t.counter && resumed.level == t.level && resumed.running
  {
  }

  /** The level never decreases however many times the callback runs. */
  lemma {:induction false} TicksLevelMonotone(t: Timer, n: nat)
    ensures Ticks(t, n).level >= t.level
  {
    if n > 0 {
      TicksLevelMonotone(t, n - 1);
    }
  }

  /** The first `k` ticks of a running clock count down one second each. */
  lemma {:induction false} CountDown(t: Timer, k: nat)
    requires t.running && k < t.counter
    ensures Ticks(t, k) == if k == 0 then t
                           else Timer(true, Some(t.counter - k + 1), t.counter - k, t.level)
  {
    if k > 0 {
      CountDown(t, k - 1);
    }
  }

  /**
   * A running clock whose counter is `c >= 1` stops after exactly `c` ticks,
   * with `time` cleared, one level higher, and does not restart by itself.
   */
  lemma CountDownEnds(t: Timer, extra: nat)
    requires t.running && t.counter >= 1
    ensures Ticks(t, t.counter) == Timer(false, None, 0, t.level + 1)
    ensures Ticks(t, t.counter + extra) == Ticks(t, t.counter)
  {
    CountDown(t, t.counter - 1);
    StoppedStays(t, t.counter, extra);
  }

  lemma {:induction false} StoppedStays(t: Timer, n: nat, extra: nat)
    requires !Ticks(t, n).running
    ensures Ticks(t, n + extra) == Ticks(t, n)
  {
    if extra > 0 {
      StoppedStays(t, n, extra - 1);
    }
  }

  /**
   * A fresh start with a duration of `d >= 1` minutes emits
   * `d * 60 - 1, ..., 1` (never 0), then stops at level 1.
   */
  lemma FreshRound(d: int, k: nat)
    requires d >= 1 && k < d * 60 - 1
    ensures var t := Start(Fresh, d);
      Ticks(t, k).running && Ticks(t, k).counter == d * 60 - 1 - k
      && Ticks(t, d * 60 - 1) == Timer(false, None, 0, 1)
  {
    var t := Start(Fresh, d);
    CountDown(t, k);
    CountDownEnds(t, 0);
  }
}
