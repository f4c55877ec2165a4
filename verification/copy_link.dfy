/** The throttle in front of the "copy link" button.

    Two counters live for the whole page: `copyClickCount` and
    `copyCooldownEndTime` (a millisecond timestamp, 0 when there is no
    cooldown). The first two clicks copy the URL; the third starts a
    ten-second cooldown instead; clicks during the cooldown only report how
    long is left; the first click after the cooldown has passed starts over.
    The clock (`Date.now()`) is a parameter. The clipboard write and the
    toasts are not modelled; each click returns the event it produces. */
module CopyLink {
  import opened Numbers

  /** `copyCooldownDuration`, in milliseconds. */
  const CooldownMs := 10000
  /** The wait the third click reports; the script writes it as a literal. */
  const CooldownSeconds := 10

  /** What one click does: write the URL to the clipboard, or show the toast
      "`seconds`s后再试" (try again in `seconds` s) without copying. */
  datatype Outcome = Copied | RetryLater(seconds: int)

  datatype Counters = Counters(clickCount: int, cooldownEnd: int)

  const Initial := Counters(0, 0)

  /** The counters as every click leaves them: at most three clicks
      counted, and a cooldown pending exactly when three have been. */
  predicate Inv(c: Counters) {
    && 0 <= c.clickCount <= 3
    && 0 <= c.cooldownEnd
    && (c.cooldownEnd != 0 <==> c.clickCount == 3)
  }

  /** `Math.ceil(remainingMs / 1000)` for a positive number of milliseconds. */
  function CeilSeconds(remainingMs: int): (s: int)
    requires remainingMs > 0
    ensures 1000 * (s - 1) < remainingMs <= 1000 * s
  {
    (remainingMs + 999) / 1000
  }

  /** One call of `copyLink` at time `now`: the new counters and the event. */
  function Step(c: Counters, now: nat): (r: (Counters, Outcome))
    ensures Inv(c) ==> Inv(r.0)
  {
    if c.cooldownEnd > now then
      (c, RetryLater(CeilSeconds(c.cooldownEnd - now)))
    else
      var reset := if c.cooldownEnd > 0 && c.cooldownEnd <= now then Initial else c;
      var count := reset.clickCount + 1;
      if count <= 2 then (Counters(count, reset.cooldownEnd), Copied)
      else (Counters(count, now + CooldownMs), RetryLater(CooldownSeconds))
  }

  /** The closure state of `initShareButtons` and its `copyLink` handler. */
  class CopyThrottle {
    var clickCount: int
    var cooldownEnd: int

    function State(): Counters
      reads this
    {
      Counters(clickCount, cooldownEnd)
    }

    constructor ()
      ensures State() == Initial && Inv(State())
    {
      clickCount := 0;
      cooldownEnd := 0;
    }

    /** `window.copyLink`, with the clock reading `now` as its input. */
    method Click(now: nat) returns (outcome: Outcome)
      requires Inv(State())
      modifies this
      ensures Inv(State())
      ensures (State(), outcome) == Step(old(State()), now)
    {
      if cooldownEnd > now {
        return RetryLater(CeilSeconds(cooldownEnd - now));
      } else if cooldownEnd > 0 && cooldownEnd <= now {
        clickCount := 0;
        cooldownEnd := 0;
      }
      clickCount := clickCount + 1;
      if clickCount <= 2 {
        outcome := Copied;
      } else {
        cooldownEnd := now + CooldownMs;
        outcome := RetryLater(CooldownSeconds);
      }
    }
  }

  /** While a cooldown is pending, a click copies nothing and leaves both
      counters as they were. */
  lemma CooldownBlocks(c: Counters, now: nat)
    requires c.cooldownEnd > now
    ensures Step(c, now).0 == c && Step(c, now).1.RetryLater?
  {
  }

  /** The reported wait lies in 1..10 s provided the clock has not gone back
      since the click that started the cooldown (at time `started`). */
  lemma WaitIsAtMostTen(c: Counters, started: nat, now: nat)
    requires Inv(c) && c.cooldownEnd == started + CooldownMs && started <= now
    ensures Step(c, now).1.RetryLater? ==> 1 <= Step(c, now).1.seconds <= CooldownSeconds
  {
  }

  /** The click that completes three starts a cooldown of ten seconds from
      now and does not copy. */
  lemma ThirdClickStartsCooldown(c: Counters, now: nat)
    requires Inv(c) && c.clickCount == 2
    ensures Step(c, now) == (Counters(3, now + CooldownMs), RetryLater(CooldownSeconds))
  {
  }

  /** The first click once the cooldown has expired resets both counters,
      then counts itself and copies. */
  lemma ClickAfterExpiry(c: Counters, now: nat)
    requires Inv(c) && 0 < c.cooldownEnd <= now
    ensures Step(c, now) == (Counters(1, 0), Copied)
  {
  }

  /** Whether a click at `now` finds an expired cooldown (and resets). */
  predicate Expires(c: Counters, now: nat) {
    0 < c.cooldownEnd <= now
  }

  /** The counters after a series of clicks at the given times. */
  function Final(c: Counters, times: seq<nat>): Counters
    decreases |times|
  {
    if times == [] then c else Final(Step(c, times[0]).0, times[1..])
  }

  /** The events of a series of clicks at the given times. */
  function Outcomes(c: Counters, times: seq<nat>): seq<Outcome>
    decreases |times|
  {
    if times == [] then [] else [Step(c, times[0]).1] + Outcomes(Step(c, times[0]).0, times[1..])
  }

  /** No click of the series finds an expired cooldown. */
  predicate NoReset(c: Counters, times: seq<nat>)
    decreases |times|
  {
    times == [] || (!Expires(c, times[0]) && NoReset(Step(c, times[0]).0, times[1..]))
  }

  function Copies(outcomes: seq<Outcome>): nat {
    if outcomes == [] then 0 else (if outcomes[0].Copied? then 1 else 0) + Copies(outcomes[1..])
  }

  /** Between two resets, the copies performed are exactly the clicks
      counted below three: a series of clicks with no reset adds
      `min(count, 2)` copies. From the initial counters this allows two
      copies at most until a cooldown has passed. */
  lemma {:induction false} CopiesBetweenResets(c: Counters, times: seq<nat>)
    requires Inv(c) && NoReset(c, times)
    ensures Copies(Outcomes(c, times)) + Min(c.clickCount, 2) == Min(Final(c, times).clickCount, 2)
    ensures Copies(Outcomes(c, times)) <= 2
    decreases |times|
  {
    if times != [] {
      var next := Step(c, times[0]).0;
      CopiesBetweenResets(next, times[1..]);
      var outs := Outcomes(c, times);
      assert outs[1..] == Outcomes(next, times[1..]);
    }
  }

  /** Three clicks in a row (their spacing does not matter, since no
      cooldown is pending before the third) copy, copy, and start the
      cooldown; a click ten seconds or more after the third copies again
      with the count reset. */
  lemma ThreeClicksThenWait(t0: nat, t1: nat, t2: nat, t3: nat)
    requires t0 <= t1 <= t2 && t2 + CooldownMs <= t3
    ensures Outcomes(Initial, [t0, t1, t2, t3]) == [Copied, Copied, RetryLater(CooldownSeconds), Copied]
    ensures Final(Initial, [t0, t1, t2, t3]) == Counters(1, 0)
  {
    var c1, c2, c3 := Counters(1, 0), Counters(2, 0), Counters(3, t2 + CooldownMs);
    assert Step(Initial, t0) == (c1, Copied);
    assert Step(c1, t1) == (c2, Copied);
    assert Step(c2, t2) == (c3, RetryLater(CooldownSeconds));
    assert Step(c3, t3) == (Counters(1, 0), Copied);
    assert [t0, t1, t2, t3][1..] == [t1, t2, t3];
    assert [t1, t2, t3][1..] == [t2, t3];
    assert [t2, t3][1..] == [t3];
    assert Outcomes(c3, [t3]) == [Copied];
    assert Outcomes(c2, [t2, t3]) == [RetryLater(CooldownSeconds), Copied];
    assert Outcomes(c1, [t1, t2, t3]) == [Copied, RetryLater(CooldownSeconds), Copied];
    assert Final(c3, [t3]) == Counters(1, 0);
    assert Final(c2, [t2, t3]) == Counters(1, 0);
    assert Final(c1, [t1, t2, t3]) == Counters(1, 0);
  }
}
