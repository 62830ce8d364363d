/** When to wake up after a usage limit. Instants and durations are microseconds of the local clock. */
module WakeTime {
  import opened Outcomes

  type Instant = int

  const Minute := 60_000_000
  const Hour := 60 * Minute
  const Buffer := 2 * Minute

  /** Two minutes past a whole hour. */
  predicate IsSlot(w: Instant)
  {
    (w - Buffer) % Hour == 0
  }

  function NextHour(now: Instant): Instant
  {
    now - now % Hour + Hour
  }

  /** The first slot at or after an instant. */
  function SlotFrom(t: Instant): (w: Instant)
    ensures IsSlot(w) && t <= w < t + Hour
  {
    t + (Buffer - t) % Hour
  }

  lemma SlotFromIsLeast(t: Instant, w: Instant)
    requires IsSlot(w) && t <= w
    ensures SlotFrom(t) <= w
  {
    var k := (w - Buffer) / Hour;
    var s := SlotFrom(t);
    var j := (s - Buffer) / Hour;
    assert w == Buffer + Hour * k && s == Buffer + Hour * j;
  }

  /** The earliest moment that is allowed when no reset time is known. */
  function Floor(now: Instant, minimum: int): Instant
  {
    if minimum > 0 && now + minimum > NextHour(now) + Buffer then now + minimum else NextHour(now) + Buffer
  }

  /** The wake time: two minutes after a known reset, else the first slot that is late enough. */
  function Wake(reset: Option<Instant>, now: Instant, minimum: int): Instant
  {
    if reset.Some? then reset.value + Buffer else SlotFrom(Floor(now, minimum))
  }

  lemma NextHourIsSlot(now: Instant)
    ensures IsSlot(NextHour(now) + Buffer) && now < NextHour(now) <= now + Hour
  {
    assert NextHour(now) == Hour * (now / Hour + 1);
  }

  /** pycastle's `compute_wake_time`; the flag says that the time is a guess. */
  method ComputeWakeTime(reset: Option<Instant>, now: Instant, minimum: int) returns (wake: Instant, guessed: bool)
    ensures wake == Wake(reset, now, minimum) && guessed == reset.None?
  {
    if reset.Some? {
      return reset.value + Buffer, false;
    }
    NextHourIsSlot(now);
    var nextHour := NextHour(now);
    wake := nextHour + Buffer;
    if minimum <= 0 {
      SlotFromIsLeast(wake, wake);
      return wake, true;
    }
    while wake < now + minimum
      invariant IsSlot(wake) && nextHour + Buffer <= wake
      invariant wake > nextHour + Buffer ==> wake - Hour < now + minimum
      decreases now + minimum - wake
    {
      wake := wake + Hour;
    }
    FirstSlotReached(wake, Floor(now, minimum));
    return wake, true;
  }

  lemma FirstSlotReached(wake: Instant, t: Instant)
    requires IsSlot(wake) && t <= wake < t + Hour
    ensures SlotFrom(t) == wake
  {
    var s := SlotFrom(t);
    SlotFromIsLeast(t, wake);
    var k, j := (wake - Buffer) / Hour, (s - Buffer) / Hour;
    assert wake == Buffer + Hour * k && s == Buffer + Hour * j;
  }

  /** Without a known reset, the wake time is the least slot that is neither before the next hour's slot nor before
      the configured minimum has passed. */
  lemma WakeIsLeast(now: Instant, minimum: int)
    ensures
      var w := Wake(None, now, minimum);
      && IsSlot(w) && w >= NextHour(now) + Buffer && (minimum > 0 ==> w >= now + minimum)
      && forall v :: IsSlot(v) && v >= NextHour(now) + Buffer && (minimum > 0 ==> v >= now + minimum) ==> w <= v
  {
    forall v | IsSlot(v) && v >= Floor(now, minimum)
      ensures Wake(None, now, minimum) <= v
    {
      SlotFromIsLeast(Floor(now, minimum), v);
    }
  }

  /** The wake time is in the future unless a known reset lies more than two minutes back. */
  lemma WakeIsLater(reset: Option<Instant>, now: Instant, minimum: int)
    ensures Wake(reset, now, minimum) > now <==> (reset.Some? ==> reset.value > now - Buffer)
  {
    NextHourIsSlot(now);
  }

  /** What the runner hands to the service: a guessed time is taken back by the two minutes that the service adds. */
  function ResetToMark(reset: Option<Instant>, now: Instant, minimum: int): Option<Instant>
  {
    if reset.Some? || minimum <= 0 then reset else Some(Wake(reset, now, minimum) - Buffer)
  }

  /** What the service stores at the same moment is what the runner computed. */
  lemma MarkedWakeIsTheRunners(reset: Option<Instant>, now: Instant, minimum: int)
    ensures Wake(ResetToMark(reset, now, minimum), now, 0) == Wake(reset, now, minimum)
  {
    assert minimum <= 0 ==> Floor(now, minimum) == Floor(now, 0);
  }
}
