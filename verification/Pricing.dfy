// Job prices and worker payouts, over exact rationals.
module Pricing {
  import opened Types

  const BASE_RATE_PER_HOUR := 10

  /** Percentage of the charge paid to the worker; the rest is the platform fee. */
  const WORKER_PAYOUT_PERCENT := 85

  function PriceMultiplier(backend: GpuBackend): int {
    match backend
    case CpuOnly => 1
    case Cuda => 5
    case Metal => 3
    case Rocm => 4
  }

  /** The least integer that is not below `x`. */
  function Ceil(x: real): (c: int)
    ensures x <= c as real < x + 1.0
  {
    -(-x).Floor
  }

  function CalculatePrice(backend: GpuBackend, hours: real): int {
    Ceil(BASE_RATE_PER_HOUR as real * hours * PriceMultiplier(backend) as real)
  }

  /** The price of the time a job really ran. */
  function PriceOfSeconds(backend: GpuBackend, secs: nat): int {
    CalculatePrice(backend, secs as real / 3600.0)
  }

  /** The final charge never exceeds what was reserved. */
  function Charge(backend: GpuBackend, secs: nat, reserved: int): int {
    var price := PriceOfSeconds(backend, secs);
    if price < reserved then price else reserved
  }

  /** A Rust float-to-integer cast drops the fraction, toward zero. */
  function Payout(charge: int): int {
    if charge >= 0 then charge * WORKER_PAYOUT_PERCENT / 100
    else -(-charge * WORKER_PAYOUT_PERCENT / 100)
  }

  /** The price is the exact rational `secs * multiplier / 360`, rounded up. */
  lemma PriceRoundsUp(backend: GpuBackend, secs: nat)
    ensures var p := PriceOfSeconds(backend, secs);
            360 * (p - 1) < secs * PriceMultiplier(backend) <= 360 * p
  {
    var p := PriceOfSeconds(backend, secs);
    var m := PriceMultiplier(backend);
    var x := BASE_RATE_PER_HOUR as real * (secs as real / 3600.0) * m as real;
    assert x * 360.0 == secs as real * m as real == (secs * m) as real;
    assert p as real * 360.0 >= x * 360.0 > (p as real - 1.0) * 360.0;
    assert (360 * p) as real == p as real * 360.0;
  }

  /** Payout and fee share a charge without loss: the worker gets at most 85%, short by less than one unit. */
  lemma PayoutRoundsDown(charge: nat)
    ensures 0 <= Payout(charge) <= charge
    ensures 100 * Payout(charge) <= 85 * charge < 100 * Payout(charge) + 100
  {
  }

  /** A price in hours is 10 units an hour, times 1, 5, 3 or 4, rounded up. */
  lemma PriceByBackend(backend: GpuBackend, hours: real)
    ensures var m := match backend case CpuOnly => 1.0 case Cuda => 5.0 case Metal => 3.0 case Rocm => 4.0;
            var p := CalculatePrice(backend, hours);
            10.0 * hours * m <= p as real < 10.0 * hours * m + 1.0
  {
  }

  /** The charge is the price of the time the job ran, or the reservation if that is less. */
  lemma ChargeIsPriceWithinReservation(backend: GpuBackend, secs: nat, reserved: int)
    ensures IsCharge(Charge(backend, secs, reserved), backend, secs, reserved)
  {
    PriceRoundsUp(backend, secs);
  }

  predicate IsCharge(c: int, backend: GpuBackend, secs: nat, reserved: int) {
    var m := match backend case CpuOnly => 1 case Cuda => 5 case Metal => 3 case Rocm => 4;
    c <= reserved && 360 * (c - 1) < secs * m && (c == reserved || secs * m <= 360 * c)
  }

  /** No two amounts are the charge of one settlement. */
  lemma ChargeIsUnique(c: int, d: int, backend: GpuBackend, secs: nat, reserved: int)
    requires IsCharge(c, backend, secs, reserved) && IsCharge(d, backend, secs, reserved)
    ensures c == d
  {
  }

  /** 85 hundredths of the charge, the fraction dropped toward zero. */
  predicate IsPayout(p: int, charge: int) {
    if charge >= 0 then 100 * p <= 85 * charge < 100 * p + 100 else 100 * p - 100 < 85 * charge <= 100 * p
  }

  lemma PayoutTruncates(charge: int)
    ensures IsPayout(Payout(charge), charge)
  {
  }

  /** A settled charge is non-negative and within the reservation, so the refund is too. */
  lemma ChargeWithinReservation(backend: GpuBackend, secs: nat, reserved: nat)
    ensures 0 <= Charge(backend, secs, reserved) <= reserved
  {
    PriceRoundsUp(backend, secs);
  }
}
