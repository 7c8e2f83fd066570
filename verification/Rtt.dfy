/**
  The round-trip estimator (section 2 of RFC 6298, in integer milliseconds) and the
  timeouts derived from it.
 */
module Rtt {

  const LIMIT32: nat := 0x1_0000_0000

  datatype Timing = Timing(srtt: nat, rttvar: nat, samples: nat, inRetransmit: bool) {
    predicate Valid() {
      srtt < LIMIT32 && rttvar < LIMIT32 && samples <= 255
    }
  }

  function Distance(a: nat, b: nat): nat { if a > b then a - b else b - a }

  function Max(a: nat, b: nat): nat { if a > b then a else b }

  /** One measurement; ignored while a retransmission makes it ambiguous. */
  function Sample(t: Timing, measured: nat): Timing {
    if t.inRetransmit then t
    else
      var rtt := if measured == 0 then 1 else measured;
      if t.samples == 0 then t.(srtt := rtt, rttvar := rtt / 2, samples := 1)
      else
        t.(rttvar := (3 * t.rttvar + Distance(t.srtt, rtt)) / 4,
           srtt := (7 * t.srtt + rtt) / 8,
           samples := if t.samples < 255 then t.samples + 1 else 255)
  }

  /**
    The recurrences of section 2 of RFC 6298 with alpha = 1/8 and beta = 1/4, rounded
    down, as bounds on the old values; a measurement of zero counts as one.
   */
  lemma SampleRecurrence(t: Timing, measured: nat)
    requires !t.inRetransmit
    ensures var u, r := Sample(t, measured), if measured == 0 then 1 else measured;
            if t.samples == 0 then u.srtt == r && 2 * u.rttvar <= r <= 2 * u.rttvar + 1 && u.samples == 1
            else
              && 8 * u.srtt <= 7 * t.srtt + r <= 8 * u.srtt + 7
              && 4 * u.rttvar <= 3 * t.rttvar + (if t.srtt > r then t.srtt - r else r - t.srtt) <= 4 * u.rttvar + 3
    ensures Sample(t.(inRetransmit := true), measured) == t.(inRetransmit := true)
  {
    var r := if measured == 0 then 1 else measured;
    var x, y := 7 * t.srtt + r, 3 * t.rttvar + Distance(t.srtt, r);
    assert x == 8 * (x / 8) + x % 8 && y == 4 * (y / 4) + y % 4;
  }

  class Estimator {
    var srtt: nat
    var rttvar: nat
    var samples: nat
    var inRetransmit: bool

    ghost function State(): Timing
      reads this
    {
      Timing(srtt, rttvar, samples, inRetransmit)
    }

    constructor (maxTimeout: nat)
      requires maxTimeout < LIMIT32
      ensures State() == Timing(maxTimeout / 2, maxTimeout / 4, 0, false)
    {
      srtt, rttvar, samples, inRetransmit := maxTimeout / 2, maxTimeout / 4, 0, false;
    }

    method Record(measured: nat)
      requires State().Valid() && measured < LIMIT32
      modifies this
      ensures State() == Sample(old(State()), measured) && State().Valid()
    {
      if inRetransmit { return; }
      var rtt := measured;
      if rtt == 0 { rtt := 1; }
      if samples == 0 {
        srtt, rttvar, samples := rtt, rtt / 2, 1;
        return;
      }
      var diff := if srtt > rtt then srtt - rtt else rtt - srtt;
      rttvar := (3 * rttvar + diff) / 4;
      srtt := (7 * srtt + rtt) / 8;
      if samples < 255 { samples := samples + 1; }
    }
  }

  function Samples(t: Timing, ms: seq<nat>): Timing
    decreases |ms|
  {
    if ms == [] then t else Sample(Samples(t, ms[..|ms| - 1]), ms[|ms| - 1])
  }

  /** However long the run, the estimate stays inside the range of what was measured. */
  lemma {:induction false} EstimateStaysInRange(t: Timing, ms: seq<nat>, lo: nat, hi: nat)
    requires t.samples == 0 && !t.inRetransmit && 1 <= lo <= hi
    requires forall k :: 0 <= k < |ms| ==> lo <= ms[k] <= hi
    ensures ms != [] ==>
              var u := Samples(t, ms);
              lo <= u.srtt <= hi && u.rttvar <= Max(hi / 2, hi - lo) && u.samples > 0 && !u.inRetransmit
    decreases |ms|
  {
    if |ms| > 1 {
      EstimateStaysInRange(t, ms[..|ms| - 1], lo, hi);
    } else if |ms| == 1 {
      assert ms[..0] == [];
    }
  }

  function Repeat(t: Timing, x: nat, n: nat): Timing {
    if n == 0 then t else Sample(Repeat(t, x, n - 1), x)
  }

  /** Inside the resting band [x-7, x]. */
  predicate Settled(srtt: nat, x: nat) {
    srtt <= x <= srtt + 7
  }

  lemma OneSampleMovesCloser(t: Timing, x: nat)
    requires t.samples > 0 && !t.inRetransmit && x >= 1
    ensures var u := Sample(t, x);
            && (t.srtt <= x ==> t.srtt <= u.srtt <= x)
            && (t.srtt > x ==> x <= u.srtt < t.srtt)
            && (!Settled(t.srtt, x) ==> Distance(u.srtt, x) < Distance(t.srtt, x))
            && u.samples > 0 && !u.inRetransmit
  {}

  /** A constant round trip pulls the estimate, step by step, into [x-7, x] for good. */
  lemma {:induction false} ConstantSamplesSettle(t: Timing, x: nat, n: nat)
    requires t.samples > 0 && !t.inRetransmit && x >= 1
    ensures var u := Repeat(t, x, n);
            && u.samples > 0 && !u.inRetransmit
            && (n >= Distance(t.srtt, x) ==> Settled(u.srtt, x))
            && (Settled(u.srtt, x) || Distance(u.srtt, x) + n <= Distance(t.srtt, x))
            && (t.srtt <= x ==> t.srtt <= u.srtt <= x)
            && (t.srtt > x ==> x - 7 <= u.srtt <= t.srtt)
  {
    if n > 0 {
      ConstantSamplesSettle(t, x, n - 1);
      OneSampleMovesCloser(Repeat(t, x, n - 1), x);
    }
  }

  // ---------- Timeouts ----------

  datatype Operation = Handshake | Metadata | DataAck | VerifyOp | DoneAck | EotAck | DataRecv

  function Multiplier(op: Operation): nat {
    match op
    case Handshake => 5
    case Metadata => 4
    case DataAck => 3
    case VerifyOp => 3
    case DoneAck => 4
    case EotAck => 4
    case DataRecv => 6
  }

  function Clamp(v: nat, lo: nat, hi: nat): nat {
    if v < lo then lo else if v > hi then hi else v
  }

  /** Zero bounds take defaults; crossed bounds are swapped. */
  function Bounds(min: nat, max: nat): (b: (nat, nat))
    ensures b.0 <= b.1
  {
    var lo := if min != 0 then min else 200;
    var hi := if max != 0 then max else 8000;
    if lo > hi then (hi, lo) else (lo, hi)
  }

  const LIMIT64: nat := 0x1_0000_0000_0000_0000

  function Mod64(n: nat): nat { n % LIMIT64 }

  /** The computation as coded: 64-bit sum and product, saturated to 32 bits, then clamped. */
  function Timeout(t: Timing, op: Operation, min: nat, max: nat): nat {
    var base := Mod64(t.srtt + 4 * t.rttvar);
    var rto := Mod64(base * Multiplier(op));
    var rto32 := if rto > 0xFFFF_FFFF then 0xFFFF_FFFF else rto;
    Clamp(rto32, Bounds(min, max).0, Bounds(min, max).1)
  }

  lemma SmallMod(n: nat)
    requires n < LIMIT64
    ensures Mod64(n) == n
  {}

  /** No overflow, no effect of the saturation: the exact product, clamped. */
  lemma TimeoutIsExact(t: Timing, op: Operation, min: nat, max: nat)
    requires t.Valid() && min < LIMIT32 && max < LIMIT32
    ensures Timeout(t, op, min, max)
            == Clamp(Multiplier(op) * (t.srtt + 4 * t.rttvar), Bounds(min, max).0, Bounds(min, max).1)
  {
    var base, mul := t.srtt + 4 * t.rttvar, Multiplier(op);
    assert 3 <= mul <= 6;
    SmallMod(base);
    assert base * mul <= base * 6;
    SmallMod(base * mul);
    hide Mod64, Multiplier;
  }

  /** The factor for each wait, in numbers. */
  predicate FactorIs(op: Operation, n: nat) {
    match op
    case Handshake => n == 5
    case Metadata => n == 4
    case DataAck => n == 3
    case VerifyOp => n == 3
    case DoneAck => n == 4
    case EotAck => n == 4
    case DataRecv => n == 6
  }

  /** `lo` and `hi` are the configured bounds in order, 200 and 8000 ms where none is set. */
  predicate InForce(min: nat, max: nat, lo: nat, hi: nat) {
    && lo <= hi
    && var a, b := if min == 0 then 200 else min, if max == 0 then 8000 else max;
       (lo == a && hi == b) || (lo == b && hi == a)
  }

  /** The timeout by cases: the multiple of SRTT + 4 RTTVAR where it lies within the bounds, else the nearer bound. */
  lemma TimeoutByCases(t: Timing, op: Operation, min: nat, max: nat, n: nat, lo: nat, hi: nat)
    requires t.Valid() && min < LIMIT32 && max < LIMIT32 && FactorIs(op, n) && InForce(min, max, lo, hi)
    ensures var ideal := n * (t.srtt + 4 * t.rttvar);
            && (ideal <= lo ==> Timeout(t, op, min, max) == lo)
            && (lo <= ideal <= hi ==> Timeout(t, op, min, max) == ideal)
            && (ideal >= hi ==> Timeout(t, op, min, max) == hi)
  {
    TimeoutIsExact(t, op, min, max);
    assert Bounds(min, max) == (lo, hi);
    assert Multiplier(op) == n;
    hide Timeout, Bounds, Multiplier;
  }
}
