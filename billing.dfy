/** Hourly billing shared by both backends: a stay bills
    `Math.ceil(hours parked) * fee`, where hours parked is the difference of
    two millisecond timestamps divided by 1000 * 60 * 60. There is no minimum
    of one hour and no check that the exit follows the entry. */
module Billing {
  import opened Common

  const MsPerHour: int := 1000 * 60 * 60

  /** Hours parked as the exact quotient (`durationHours` in the handlers). */
  function DurationHours(durationMs: int): (hours: real)
    ensures hours * MsPerHour as real == durationMs as real
    ensures hours >= 0.0 <==> durationMs >= 0
  {
    durationMs as real / MsPerHour as real
  }

  /** `Math.ceil(durationMs / 3600000)`: the least whole number of hours
      covering the stay. */
  function BillableHours(durationMs: int): (h: int)
    ensures (h - 1) * MsPerHour < durationMs <= h * MsPerHour
  {
    CeilDiv(durationMs, MsPerHour)
  }

  /** `Math.ceil(durationHours) * fee`. */
  function Charge(entryMs: int, exitMs: int, feePerHour: real): real {
    BillableHours(exitMs - entryMs) as real * feePerHour
  }

  /** With a positive fee, the charge covers the exact time parked and
      overshoots it by less than one hour's fee. */
  lemma ChargeBounds(entryMs: int, exitMs: int, feePerHour: real)
    requires feePerHour > 0.0
    ensures DurationHours(exitMs - entryMs) * feePerHour <= Charge(entryMs, exitMs, feePerHour)
    ensures Charge(entryMs, exitMs, feePerHour) < DurationHours(exitMs - entryMs) * feePerHour + feePerHour
  {
    var d, h := DurationHours(exitMs - entryMs), BillableHours(exitMs - entryMs) as real;
    BillableHoursIsCeilingOfHours(exitMs - entryMs);
    assert h - 1.0 < d <= h;
    CeilingScaled(d, h, feePerHour);
    var c := Charge(entryMs, exitMs, feePerHour);
    assert c == h * feePerHour;
    assert c < d * feePerHour + feePerHour;
  }

  /** Scaling `h - 1 < d <= h` by a positive factor. */
  lemma CeilingScaled(d: real, h: real, f: real)
    requires h - 1.0 < d <= h && f > 0.0
    ensures d * f <= h * f < d * f + f
  {
    assert h * f - d * f == (h - d) * f;
    assert d * f + f - h * f == (d - (h - 1.0)) * f;
    PositiveProduct(h - d, f);
    PositiveProduct(d - (h - 1.0), f);
  }

  lemma PositiveProduct(x: real, y: real)
    requires x >= 0.0 && y > 0.0
    ensures x * y >= 0.0 && (x > 0.0 ==> x * y > 0.0)
  {
  }

  /** The integer ceiling is the ceiling of the real-valued hours that the
      handlers compute: one hour less would not cover the stay. */
  lemma BillableHoursIsCeilingOfHours(durationMs: int)
    ensures (BillableHours(durationMs) - 1) as real < DurationHours(durationMs)
    ensures DurationHours(durationMs) <= BillableHours(durationMs) as real
  {
    var h := BillableHours(durationMs);
    var H := MsPerHour as real;
    assert ((h - 1) * MsPerHour) as real < durationMs as real;
    assert durationMs as real <= (h * MsPerHour) as real;
    assert (h - 1) as real * H < durationMs as real;
    assert durationMs as real <= h as real * H;
    BelowQuotient((h - 1) as real, durationMs as real, H);
    QuotientAtMost(durationMs as real, h as real, H);
  }

  lemma BelowQuotient(a: real, b: real, c: real)
    requires c > 0.0 && a * c < b
    ensures a < b / c
  {
    var q := b / c;
    assert q * c == b;
    assert (q - a) * c == q * c - a * c;
  }

  lemma QuotientAtMost(b: real, h: real, c: real)
    requires c > 0.0 && b <= h * c
    ensures b / c <= h
  {
    var q := b / c;
    assert q * c == b;
    assert (h - q) * c == h * c - q * c;
  }

  /** Worked examples: 30 minutes bills one hour, 61 minutes two, a 0 ms stay
      nothing, and 90 minutes at 5 per hour costs 10. */
  lemma ChargeExamples(t: int)
    ensures Charge(t, t + 30 * 60 * 1000, 10.0) == 10.0
    ensures Charge(t, t + 61 * 60 * 1000, 10.0) == 20.0
    ensures Charge(t, t, 10.0) == 0.0
    ensures Charge(t, t + 90 * 60 * 1000, 5.0) == 10.0
  {
    HoursOfSpan(30 * 60 * 1000, 1);
    HoursOfSpan(61 * 60 * 1000, 2);
    HoursOfSpan(0, 0);
    HoursOfSpan(90 * 60 * 1000, 2);
    assert t + 30 * 60 * 1000 - t == 30 * 60 * 1000;
    assert t + 61 * 60 * 1000 - t == 61 * 60 * 1000;
    assert t + 90 * 60 * 1000 - t == 90 * 60 * 1000;
  }

  lemma HoursOfSpan(durationMs: int, h: int)
    requires (h - 1) * MsPerHour < durationMs <= h * MsPerHour
    ensures BillableHours(durationMs) == h
  {
    CeilDivUnique(durationMs, MsPerHour, h);
  }

  /** Whole hours bill exactly, and one millisecond more starts a new hour. */
  lemma WholeHours(k: int)
    ensures BillableHours(k * MsPerHour) == k
    ensures BillableHours(k * MsPerHour + 1) == k + 1
  {
    HoursOfSpan(k * MsPerHour, k);
    HoursOfSpan(k * MsPerHour + 1, k + 1);
  }

  /** A stay that ends no later than it starts bills no positive amount
      (the handlers do not reject it). */
  lemma NonPositiveStay(entryMs: int, exitMs: int, feePerHour: real)
    requires exitMs <= entryMs && feePerHour >= 0.0
    ensures BillableHours(exitMs - entryMs) <= 0
    ensures Charge(entryMs, exitMs, feePerHour) <= 0.0
  {
    var h := BillableHours(exitMs - entryMs);
    if h > 0 {
      assert (h - 1) * MsPerHour >= 0 by { MulMonotone(0, h - 1, MsPerHour); }
    }
  }

  /** A longer stay never bills less. */
  lemma ChargeMonotone(entryMs: int, exit1: int, exit2: int, feePerHour: real)
    requires exit1 <= exit2 && feePerHour >= 0.0
    ensures Charge(entryMs, exit1, feePerHour) <= Charge(entryMs, exit2, feePerHour)
  {
    CeilDivMonotone(exit1 - entryMs, exit2 - entryMs, MsPerHour);
    var h1, h2 := BillableHours(exit1 - entryMs) as real, BillableHours(exit2 - entryMs) as real;
    assert h2 * feePerHour - h1 * feePerHour == (h2 - h1) * feePerHour;
  }
}
