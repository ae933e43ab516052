/** When an identity certificate expires, in nanoseconds of 64 bits: the guard that
    keeps `now + delta` from overflowing. */
module Expiry {
  import opened Octets

  newtype int32 = x: int | -0x8000_0000 <= x < 0x8000_0000
  newtype int64 = x: int | -0x8000_0000_0000_0000 <= x < 0x8000_0000_0000_0000

  const INT64_MAX: int64 := 0x7fff_ffff_ffff_ffff
  const DDS_NEVER: int64 := INT64_MAX
  const DDS_TIME_INVALID: int64 := -0x8000_0000_0000_0000
  const NSECS_IN_SEC: int64 := 1_000_000_000
  const SECS_IN_DAY: int64 := 86400
  const NSECS_IN_DAY := 86400 * 1_000_000_000

  /** What `ASN1_TIME_diff` reports from now to the end of validity. */
  datatype Difference = Difference(days: int32, seconds: int32)

  /** Days and seconds have the same sign, and the seconds make up less than a day. */
  predicate Normal(d: Difference) {
    if d.days > 0 then 0 <= d.seconds < 86400
    else if d.days < 0 then -86400 < d.seconds <= 0
    else -86400 < d.seconds < 86400
  }

  predicate Unexpired(d: Difference) {
    d.days >= 0 && 0 <= d.seconds < 86400
  }

  /** The end of validity on the time line without bounds. */
  function ExactExpiry(now: int64, d: Difference): int {
    now as int + (d.seconds as int + d.days as int * 86400) * 1_000_000_000
  }

  /** Whole days from now to the end of the 64-bit time line, rounded down twice. */
  function DaysLeft(now: int64): int
    requires now >= 0
  {
    (INT64_MAX as int - now as int) / 1_000_000_000 / 86400
  }

  predicate Fits(x: int) {
    -0x8000_0000_0000_0000 <= x < 0x8000_0000_0000_0000
  }

  /** No intermediate value of the computation leaves 64 bits. */
  predicate NoOverflow(now: int64, d: Difference)
    requires now >= 0
  {
    d.days as int < DaysLeft(now) ==>
      && Fits(d.seconds as int + d.days as int * 86400)
      && Fits((d.seconds as int + d.days as int * 86400) * 1_000_000_000)
      && Fits(ExactExpiry(now, d))
  }

  /** The two nested divisions round down to the same day as one division would. */
  lemma DaysLeftIsExact(now: int64)
    requires now >= 0
    ensures DaysLeft(now) * NSECS_IN_DAY <= INT64_MAX as int - now as int < (DaysLeft(now) + 1) * NSECS_IN_DAY
  {
    var left := INT64_MAX as int - now as int;
    var seconds := left / 1_000_000_000;
    assert seconds * 1_000_000_000 <= left < (seconds + 1) * 1_000_000_000;
    assert DaysLeft(now) * 86400 <= seconds < (DaysLeft(now) + 1) * 86400;
  }

  /** The computation overflows exactly for certificates that expired more than
      2^63 nanoseconds ago; the guard rules out every other overflow. */
  lemma NoOverflowExactly(now: int64, d: Difference)
    requires now >= 0 && Normal(d)
    ensures NoOverflow(now, d) <==> d.seconds as int + d.days as int * 86400 >= -9_223_372_036
  {
    DaysLeftIsExact(now);
    var seconds := d.seconds as int + d.days as int * 86400;
    if d.days as int < DaysLeft(now) {
      assert d.days as int + 1 <= DaysLeft(now);
      assert seconds < (d.days as int + 1) * 86400 <= DaysLeft(now) * 86400;
      assert now as int + seconds * 1_000_000_000 < INT64_MAX as int;
    } else {
      assert d.days >= 0;
    }
  }

  /** `get_certificate_expiry`. The difference is absent if the certificate has no
      end of validity or it cannot be compared with the current time.

      The answer is exact, or DDS_NEVER. For an unexpired certificate it is never
      before `now`; DDS_NEVER is answered only to certificates that outlive all but
      the last day of the time line, and to all that outlive the time line. */
  method GetCertificateExpiry(difference: Option<Difference>, now: int64) returns (expiry: int64)
    requires now >= 0
    requires difference.Some? ==> Normal(difference.value) && NoOverflow(now, difference.value)
    ensures difference.None? ==> expiry == DDS_TIME_INVALID
    ensures difference.Some? && expiry != DDS_NEVER ==> expiry as int == ExactExpiry(now, difference.value)
    ensures difference.Some? && Unexpired(difference.value) && expiry == DDS_NEVER ==>
              ExactExpiry(now, difference.value) > INT64_MAX as int - NSECS_IN_DAY
    ensures difference.Some? && ExactExpiry(now, difference.value) >= DDS_NEVER as int ==> expiry == DDS_NEVER
    ensures difference.Some? && Unexpired(difference.value) ==> now <= expiry
  {
    if difference.None? {
      return DDS_TIME_INVALID;
    }
    var Difference(days, seconds) := difference.value;
    DaysLeftIsExact(now);
    var maxValidDaysToWait := (INT64_MAX - now) / NSECS_IN_SEC / SECS_IN_DAY;
    assert maxValidDaysToWait as int == DaysLeft(now);
    if days as int64 < maxValidDaysToWait {
      assert (days as int + 1) * 86400 <= DaysLeft(now) * 86400;
      var delta := (seconds as int64 + days as int64 * SECS_IN_DAY) * NSECS_IN_SEC;
      return now + delta;
    }
    assert days as int * NSECS_IN_DAY >= DaysLeft(now) * NSECS_IN_DAY;
    return DDS_NEVER;
  }

  /** Every unexpired certificate is within the bound. */
  lemma UnexpiredNeverOverflows(now: int64, d: Difference)
    requires now >= 0 && Unexpired(d)
    ensures Normal(d) && NoOverflow(now, d)
  {
    NoOverflowExactly(now, d);
  }

  /** One that expired three hundred years ago is not. */
  lemma LongExpiredOverflows()
    ensures var d := Difference(-109_575, 0); Normal(d) && !NoOverflow(0, d)
  {
    NoOverflowExactly(0, Difference(-109_575, 0));
  }
}
