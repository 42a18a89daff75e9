/**
 * The giveaway countdown: the time left until the end, in milliseconds,
 * split into days, hours, minutes and seconds, refreshed by a one-second
 * timer.
 */
module Countdown {
  import opened Wrappers

  const MsPerSecond: nat := 1000
  const SecondsPerMinute: nat := 60
  const SecondsPerHour: nat := 3600
  const SecondsPerDay: nat := 86400

  datatype Parts = Parts(days: nat, hours: nat, minutes: nat, seconds: nat)

  /** `Math.max(0, target - now)`. */
  function Remaining(target: int, now: int): (diff: nat)
    ensures now >= target ==> diff == 0
    ensures now < target ==> diff == target - now
  {
    if target - now > 0 then target - now else 0
  }

  /** The four `Math.floor(diff / …) % …` expressions. */
  function Decompose(diff: nat): (p: Parts)
    ensures p.seconds < 60 && p.minutes < 60 && p.hours < 24
    ensures p.days * SecondsPerDay + p.hours * SecondsPerHour + p.minutes * SecondsPerMinute + p.seconds
            == diff / MsPerSecond
  {
    var p := Parts(diff / 86400000, (diff / 3600000) % 24, (diff / 60000) % 60, (diff / 1000) % 60);
    DecomposeExact(diff);
    p
  }

  lemma DecomposeExact(diff: nat)
    ensures (diff / 86400000) * 86400 + ((diff / 3600000) % 24) * 3600 + ((diff / 60000) % 60) * 60 + (diff / 1000) % 60
            == diff / 1000
  {
    var t := diff / 1000;
    assert diff / 60000 == t / 60;
    assert diff / 3600000 == t / 3600;
    assert diff / 86400000 == t / 86400;
    var mins := t / 60;
    var hrs := mins / 60;
    assert t == 60 * mins + t % 60;
    assert mins == 60 * hrs + mins % 60;
    assert hrs == 24 * (t / 86400) + hrs % 24;
  }

  /** What is rendered: `NaN` everywhere when the end date does not parse. */
  function Display(target: Option<int>, now: int): (shown: Option<Parts>)
    ensures shown.None? <==> target.None?
    ensures shown.Some? ==>
              shown.value.days * SecondsPerDay + shown.value.hours * SecondsPerHour
              + shown.value.minutes * SecondsPerMinute + shown.value.seconds
              == Remaining(target.value, now) / MsPerSecond
  {
    if target.None? then None else Some(Decompose(Remaining(target.value, now)))
  }

  function TotalSeconds(p: Parts): nat {
    p.days * SecondsPerDay + p.hours * SecondsPerHour + p.minutes * SecondsPerMinute + p.seconds
  }

  /** Once the end has passed, the display reads 0d 0h 0m 0s. */
  lemma ZeroAfterTarget(target: int, now: int)
    requires now >= target
    ensures Display(Some(target), now) == Some(Parts(0, 0, 0, 0))
  {
    var p := Decompose(Remaining(target, now));
    assert TotalSeconds(p) == 0;
  }

  /** The displayed time never grows as the clock advances. */
  lemma DisplayNonIncreasing(target: int, now: int, later: int)
    requires now <= later
    ensures TotalSeconds(Display(Some(target), later).value) <= TotalSeconds(Display(Some(target), now).value)
  {
    var a := Remaining(target, now);
    var b := Remaining(target, later);
    assert b <= a;
  }

  /** The component's clock: `now` is replaced by the current time on every tick. */
  class Ticker {
    const target: Option<int>
    var now: int

    constructor(target: Option<int>, start: int)
      ensures this.target == target && now == start
    {
      this.target := target;
      now := start;
    }

    /** The interval callback; when the clock has moved forward, the display has not grown. */
    method Tick(clock: int)
      modifies this
      ensures now == clock
      ensures target.Some? && old(now) <= clock ==>
                TotalSeconds(Display(target, now).value) <= TotalSeconds(Display(target, old(now)).value)
    {
      if target.Some? && now <= clock {
        DisplayNonIncreasing(target.value, now, clock);
      }
      now := clock;
    }
  }
}
