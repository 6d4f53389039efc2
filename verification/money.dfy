/** Pricing, commission, GST and TDS in integer paise. Percentages are exact hundredths of a percent. */
module Money {
  import opened Common

  datatype BookingType = Hourly | FullDay

  const GST_PERCENT: int := 18
  const WHOLE: int := 10_000 // 100 %, in hundredths of a percent
  const FULLDAY_HOURS: int := 24

  ghost predicate IsPct(pct: int) { 0 <= pct <= WHOLE }

  // Math.round(n / d): the integer nearest to n / d, halves going up.
  function Round(n: int, d: int): (r: int)
    requires d > 0
    ensures 2 * n - d < 2 * (d * r) <= 2 * n + d
  {
    var r := (2 * n + d) / (2 * d);
    assert 2 * n + d == (2 * d) * r + (2 * n + d) % (2 * d);
    assert (2 * d) * r == 2 * (d * r);
    r
  }

  function CommissionPaise(base: int, pct: int): int { Round(base * pct, WHOLE) }

  function GstPaise(base: int): int { Round(base * GST_PERCENT, 100) }

  function TdsPaise(gross: int, pct: int): int { Round(gross * pct, WHOLE) }

  // Part of a non-negative amount: never negative, never more than the amount.
  lemma PartBounds(amount: int, pct: int)
    requires amount >= 0 && IsPct(pct)
    ensures 0 <= Round(amount * pct, WHOLE) <= amount
  {
    assert 0 <= amount * pct <= amount * WHOLE by {
      assert amount * (WHOLE - pct) >= 0;
      assert amount * WHOLE == amount * pct + amount * (WHOLE - pct);
    }
  }

  datatype Price = Price(base: int, gst: int, fee: int, total: int)

  function PriceOf(kind: BookingType, rate: int, hours: int, commissionPct: int): Price {
    var base := if kind == Hourly then rate * hours else rate;
    var gst := GstPaise(base);
    Price(base, gst, CommissionPaise(base, commissionPct), base + gst)
  }

  lemma TariffPositive(rate: int, hours: int)
    requires rate > 0 && hours >= 1
    ensures rate * hours > 0
  {
  }

  // The guest pays the tariff and 18 % of it; the commission is the platform's part of the
  // tariff; both are right to half a paisa.
  lemma PriceShape(kind: BookingType, rate: int, hours: int, pct: int)
    requires rate > 0 && hours >= 1 && IsPct(pct)
    ensures var p := PriceOf(kind, rate, hours, pct);
            && p.base == rate * (if kind == Hourly then hours else 1)
            && 0 < p.base && 0 <= p.gst && 0 <= p.fee <= p.base && p.total == p.base + p.gst
            && -50 <= 100 * p.gst - 18 * p.base <= 50
            && -5_000 <= 10_000 * p.fee - pct * p.base <= 5_000
  {
    TariffPositive(rate, hours);
    PartBounds(PriceOf(kind, rate, hours, pct).base, pct);
  }

  // What a completed booking leaves its owner, before withholding.
  function OwnerGross(base: int, fee: int, refund: int): int { Max(0, base - fee - refund) }

  // Every paisa of the base tariff is accounted for once.
  lemma SplitExact(base: int, fee: int, refund: int, tdsPct: int)
    requires 0 <= fee <= base && refund >= 0 && IsPct(tdsPct)
    ensures var gross := OwnerGross(base, fee, refund);
            var tds := TdsPaise(gross, tdsPct);
            var net := gross - tds;
            && base == fee + Min(refund, base - fee) + tds + net
            && -5_000 <= 10_000 * tds - tdsPct * gross <= 5_000
            && 0 <= tds <= gross && 0 <= net
  {
    PartBounds(OwnerGross(base, fee, refund), tdsPct);
  }

  function RoundedParts(amounts: seq<int>, pct: int): seq<int> {
    seq(|amounts|, i requires 0 <= i < |amounts| => Round(amounts[i] * pct, WHOLE))
  }

  function Identity(x: int): int { x }

  lemma DriftStep(parts: int, before: int, a: int, pct: int, n: nat)
    requires -(WHOLE / 2) * n <= WHOLE * parts - pct * before <= (WHOLE / 2) * n
    ensures var drift := WHOLE * (parts + Round(a * pct, WHOLE)) - pct * (before + a);
            -(WHOLE / 2) * (n + 1) <= drift <= (WHOLE / 2) * (n + 1)
  {
    assert pct * (before + a) == pct * before + a * pct;
  }

  // Rounding booking by booking drifts from the exact percentage of the sum by
  // at most half a paisa per booking (both sides scaled by WHOLE). Covers TDS
  // and commission, which round the same way.
  lemma {:induction false} RoundingDrift(amounts: seq<int>, pct: int)
    ensures var parts := RoundedParts(amounts, pct);
            var exact := pct * SumOf(amounts, Identity);
            -(WHOLE / 2) * |amounts| <= WHOLE * SumOf(parts, Identity) - exact <= (WHOLE / 2) * |amounts|
  {
    if amounts != [] {
      var n := |amounts| - 1;
      RoundingDrift(amounts[..n], pct);
      var parts := RoundedParts(amounts, pct);
      assert parts[..n] == RoundedParts(amounts[..n], pct);
      DriftStep(SumOf(parts[..n], Identity), SumOf(amounts[..n], Identity), amounts[n], pct, n);
    }
  }

  // The half-paisa bound is reached: no smaller drift bound holds.
  lemma DriftIsTight()
    ensures var parts := RoundedParts([50, 50], 100);
            WHOLE * SumOf(parts, Identity) - 100 * SumOf([50, 50], Identity) == (WHOLE / 2) * 2
  {
    var parts := RoundedParts([50, 50], 100);
    assert parts == [1, 1];
    SumSnoc([1], 1, Identity);
    SumSnoc([50], 50, Identity);
    SumSnoc([], 1, Identity);
    SumSnoc([], 50, Identity);
    assert [] + [1] == [1] && [1] + [1] == [1, 1];
    assert [] + [50] == [50] && [50] + [50] == [50, 50];
  }
}
