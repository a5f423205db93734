/** The time arithmetic of a branch's expiry.  Instants and durations are integer
    nanoseconds; Go's time.Duration is a signed 64-bit number of them. */
module Ttl {
  const SECOND := 1_000_000_000
  const HOUR := 3_600_000_000_000
  const TWO63 := 0x8000_0000_0000_0000
  const TWO64 := 0x1_0000_0000_0000_0000
  const MAX_HOURS := 2_562_047
  const REQUEUE_INTERVAL := 600_000_000_000   // ten minutes

  /** Two's complement wrap-around of a 64-bit signed result. */
  function Wrap64(x: int): int {
    (x + TWO63) % TWO64 - TWO63
  }

  /** time.Duration(hours) * time.Hour. */
  function Lifetime(hours: int): int {
    Wrap64(hours * HOUR)
  }

  /** An instant as stored: metav1.Time is written with whole seconds. */
  function Stored(t: int): int {
    t - t % SECOND
  }

  /** The expiry recorded by a branch that becomes Ready at `now`. */
  function ExpiresAt(now: int, hours: int): int {
    Stored(now + Lifetime(hours))
  }

  /** The product is exact for every positive TTL up to MAX_HOURS and for no larger
      one that an int can hold. */
  lemma LifetimeExact(hours: int)
    requires 0 < hours < TWO63
    ensures Lifetime(hours) == hours * 3_600_000_000_000 <==> hours <= 2_562_047
  {
    if hours <= MAX_HOURS {
      assert 0 < hours * HOUR < TWO63;
    } else {
      assert hours * HOUR >= TWO63;
      assert Wrap64(hours * HOUR) < TWO63;
    }
  }

  /** Past the range, at least one whole turn is lost. */
  lemma WrapLoses(x: int)
    requires x >= TWO63
    ensures Wrap64(x) <= x - TWO64
  {
    var turns := (x + TWO63) / TWO64;
    assert turns >= 1;
  }

  /** The branch lives its TTL, less the second lost to rounding and no longer, for
      exactly the TTLs up to MAX_HOURS. */
  lemma ExpiryInTime(now: int, hours: int)
    requires 0 < hours < TWO63
    ensures hours <= 2_562_047 <==>
              var due := now + hours * 3_600_000_000_000; due - 1_000_000_000 < ExpiresAt(now, hours) <= due
    ensures hours <= 2_562_047 ==> now < ExpiresAt(now, hours)
  {
    LifetimeExact(hours);
    var wanted := hours * HOUR;
    if hours > MAX_HOURS {
      assert wanted >= TWO63;
      WrapLoses(wanted);
    } else {
      assert wanted >= HOUR;
    }
  }

  /** One hour more and the branch is born expired. */
  lemma OverflowExpiresAtOnce(now: int)
    ensures ExpiresAt(now, 2_562_048) < now
  {
    assert Lifetime(MAX_HOURS + 1) < 0;
  }
}
