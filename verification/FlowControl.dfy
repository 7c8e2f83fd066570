/**
  The AIMD window: halved after a run of transmission errors, widened by one after
  a run of successes, always between one packet and the negotiated limit.
 */
module FlowControl {

  const COUNTER_LIMIT: nat := 0x1_0000_0000

  /** The session's window state; thresholds are the effective ones, defaults applied. */
  datatype Flow = Flow(cwnd: nat, negotiated: nat, errors: nat, successes: nat, degrade: nat, recover: nat) {
    predicate Valid() {
      && 1 <= cwnd <= negotiated < 0x1_0000
      && errors < COUNTER_LIMIT && successes < COUNTER_LIMIT
      && 1 <= degrade < 0x1_0000 && 1 <= recover < 0x1_0000
      && (cwnd > 1 ==> errors < degrade) && (cwnd < negotiated ==> successes <= recover)
    }
  }

  function Threshold(configured: nat, default: nat): nat {
    if configured != 0 then configured else default
  }

  function OnError(f: Flow): Flow {
    var e := (f.errors + 1) % COUNTER_LIMIT;
    var halved := if f.cwnd / 2 < 1 then 1 else f.cwnd / 2;
    if e >= f.degrade && halved != f.cwnd then f.(cwnd := halved, errors := 0, successes := 0)
    else f.(errors := e, successes := 0)
  }

  function OnSuccess(f: Flow): Flow {
    var n := (f.successes + 1) % COUNTER_LIMIT;
    if n >= f.recover && f.cwnd < f.negotiated then f.(cwnd := f.cwnd + 1, successes := 1, errors := 0)
    else f.(successes := n, errors := 0)
  }

  /** One error: either the window shrinks, paid for by a full run of errors, or it is kept. */
  lemma ErrorStep(f: Flow)
    requires f.Valid()
    ensures var g := OnError(f);
            && g.Valid() && g.negotiated == f.negotiated && g.degrade == f.degrade && g.recover == f.recover
            && g.successes == 0
            && if f.errors + 1 >= f.degrade && f.cwnd > 1 then g.cwnd == f.cwnd / 2 && g.errors == 0
               else g.cwnd == f.cwnd && g.errors <= f.errors + 1 && (f.cwnd > 1 ==> g.errors == f.errors + 1)
  {
    var e := (f.errors + 1) % COUNTER_LIMIT;
    assert f.errors + 1 < COUNTER_LIMIT ==> e == f.errors + 1;
    assert f.errors + 1 == COUNTER_LIMIT ==> e == 0;
  }

  /** One success: either the window grows by one, paid for by a full run, or it is kept. */
  lemma SuccessStep(f: Flow)
    requires f.Valid()
    ensures var g := OnSuccess(f);
            && g.Valid() && g.negotiated == f.negotiated && g.degrade == f.degrade && g.recover == f.recover
            && g.errors == 0
            && if f.successes + 1 >= f.recover && f.cwnd < f.negotiated then g.cwnd == f.cwnd + 1 && g.successes == 1
               else && g.cwnd == f.cwnd && g.successes <= f.successes + 1
                    && (f.cwnd < f.negotiated ==> g.successes == f.successes + 1)
  {
    var n := (f.successes + 1) % COUNTER_LIMIT;
    assert f.successes + 1 < COUNTER_LIMIT ==> n == f.successes + 1;
    assert f.successes + 1 == COUNTER_LIMIT ==> n == 0;
  }

  class Session {
    var cwnd: nat
    const negotiated: nat
    var errors: nat
    var successes: nat
    const degrade: nat
    const recover: nat

    ghost function State(): Flow
      reads this
    {
      Flow(cwnd, negotiated, errors, successes, degrade, recover)
    }

    /** After the handshake; a configured threshold of zero means the default. */
    constructor (negotiated: nat, initial: nat, degradeCfg: nat, recoverCfg: nat)
      requires 1 <= initial <= negotiated < 0x1_0000 && degradeCfg < 0x1_0000 && recoverCfg < 0x1_0000
      ensures State() == Flow(initial, negotiated, 0, 0, degrade, recover)
      ensures degradeCfg > 0 ==> degrade == degradeCfg
      ensures degradeCfg == 0 ==> degrade == 3
      ensures recoverCfg > 0 ==> recover == recoverCfg
      ensures recoverCfg == 0 ==> recover == 10
      ensures State().Valid()
    {
      this.cwnd, this.negotiated, errors, successes := initial, negotiated, 0, 0;
      degrade, recover := Threshold(degradeCfg, 3), Threshold(recoverCfg, 10);
    }

    method RecordError()
      requires State().Valid()
      modifies this
      ensures State() == OnError(old(State())) && State().Valid()
    {
      errors := (errors + 1) % COUNTER_LIMIT;
      successes := 0;
      if errors >= degrade {
        var halved := cwnd / 2;
        if halved < 1 { halved := 1; }
        if halved != cwnd {
          cwnd := halved;
          errors := 0;
        }
      }
    }

    method RecordSuccess()
      requires State().Valid()
      modifies this
      ensures State() == OnSuccess(old(State())) && State().Valid()
    {
      successes := (successes + 1) % COUNTER_LIMIT;
      errors := 0;
      if successes >= recover && cwnd < negotiated {
        cwnd := cwnd + 1;
        successes := 1;
      }
    }
  }

  // ---------- Whole runs ----------

  /** State after a run of outcomes, with how often the window grew and shrank. */
  datatype Tally = Tally(flow: Flow, ups: nat, downs: nat, oks: nat, errs: nat)

  function Account(t: Tally, ok: bool): Tally {
    var g := if ok then OnSuccess(t.flow) else OnError(t.flow);
    Tally(g,
          if g.cwnd > t.flow.cwnd then t.ups + 1 else t.ups,
          if g.cwnd < t.flow.cwnd then t.downs + 1 else t.downs,
          if ok then t.oks + 1 else t.oks,
          if ok then t.errs else t.errs + 1)
  }

  function Play(f: Flow, events: seq<bool>): Tally
    decreases |events|
  {
    if events == [] then Tally(f, 0, 0, 0, 0)
    else Account(Play(f, events[..|events| - 1]), events[|events| - 1])
  }

  /** What a run has earned covers what it has spent. */
  predicate PaidFor(f: Flow, t: Tally) {
    && t.flow.Valid() && t.flow.negotiated == f.negotiated
    && t.flow.degrade == f.degrade && t.flow.recover == f.recover
    && t.ups * (f.recover - 1) + t.flow.successes <= t.oks
    && t.downs * f.degrade + t.flow.errors <= t.errs
  }

  lemma ErrorKeepsPaid(f: Flow, t: Tally)
    requires f.Valid() && PaidFor(f, t)
    ensures PaidFor(f, Account(t, false))
  {
    ErrorStep(t.flow);
    hide OnError, OnSuccess;
    assert (t.downs + 1) * f.degrade == t.downs * f.degrade + f.degrade;
  }

  lemma SuccessKeepsPaid(f: Flow, t: Tally)
    requires f.Valid() && PaidFor(f, t)
    ensures PaidFor(f, Account(t, true))
  {
    SuccessStep(t.flow);
    hide OnError, OnSuccess;
    assert (t.ups + 1) * (f.recover - 1) == t.ups * (f.recover - 1) + (f.recover - 1);
  }

  /** Over every run: the window stays in range, and every change is paid for. */
  lemma {:induction false} WindowIsPaidFor(f: Flow, events: seq<bool>)
    requires f.Valid() && f.errors == 0 && f.successes == 0
    ensures var t := Play(f, events);
            && 1 <= t.flow.cwnd <= f.negotiated == t.flow.negotiated
            && t.ups * (f.recover - 1) <= t.oks
            && t.downs * f.degrade <= t.errs
            && t.oks + t.errs == |events|
            && t.flow.cwnd <= f.cwnd + t.ups
    ensures PaidFor(f, Play(f, events))
    decreases |events|
  {
    hide OnError, OnSuccess;
    if events != [] {
      var t := Play(f, events[..|events| - 1]);
      WindowIsPaidFor(f, events[..|events| - 1]);
      ErrorStep(t.flow);
      SuccessStep(t.flow);
      ErrorKeepsPaid(f, t);
      SuccessKeepsPaid(f, t);
    }
  }

  function Errors(f: Flow, n: nat): Flow {
    if n == 0 then f else OnError(Errors(f, n - 1))
  }

  lemma {:induction false} ErrorsAdd(f: Flow, m: nat, n: nat)
    ensures Errors(f, m + n) == Errors(Errors(f, m), n)
    decreases n
  {
    hide OnError;
    if n > 0 {
      ErrorsAdd(f, m, n - 1);
    }
  }

  lemma {:induction false} ErrorsShrink(f: Flow, n: nat)
    requires f.Valid()
    ensures Errors(f, n).Valid() && Errors(f, n).cwnd <= f.cwnd
    ensures Errors(f, n).degrade == f.degrade
  {
    hide OnError;
    if n > 0 {
      ErrorsShrink(f, n - 1);
      ErrorStep(Errors(f, n - 1));
    }
  }

  /** Errors below the threshold only count. */
  lemma {:induction false} ErrorsCount(f: Flow, n: nat)
    requires f.Valid() && f.cwnd > 1 && f.errors + n < f.degrade
    ensures var g := Errors(f, n); g.Valid() && g.cwnd == f.cwnd && g.errors == f.errors + n && g.degrade == f.degrade
  {
    hide OnError;
    if n > 0 {
      ErrorsCount(f, n - 1);
      ErrorStep(Errors(f, n - 1));
    }
  }

  function Max1(n: nat): nat { if n < 1 then 1 else n }

  /** One threshold's worth of consecutive errors halves the window at least once. */
  lemma ThresholdHalves(f: Flow)
    requires f.Valid()
    ensures Errors(f, f.degrade).cwnd <= Max1(f.cwnd / 2)
  {
    hide OnError;
    if f.cwnd > 1 {
      var n := f.degrade - f.errors - 1;
      ErrorsCount(f, n);
      ErrorStep(Errors(f, n));
      ErrorsShrink(f, n + 1);
      ErrorsShrink(Errors(f, n + 1), f.errors);
      ErrorsAdd(f, n + 1, f.errors);
    } else {
      ErrorsShrink(f, f.degrade);
    }
  }

  function Pow2(k: nat): (p: nat)
    ensures p >= 1
  {
    if k == 0 then 1 else 2 * Pow2(k - 1)
  }

  lemma DivTwice(c: nat, p: nat)
    requires p >= 1
    ensures (c / 2) / p == c / (2 * p)
  {
    var q := c / (2 * p);
    var r := c % (2 * p);
    assert c == 2 * p * q + r;
    var h := c / 2;
    assert p * q <= h < p * q + p;
    var d := h / p;
    assert h == p * d + h % p;
    assert d < q ==> p * (d + 1) <= p * q;
    assert d > q ==> p * (q + 1) <= p * d;
  }

  /** k thresholds' worth of consecutive errors cut the window to max(1, cwnd / 2^k). */
  lemma {:induction false} ErrorsHalveRepeatedly(f: Flow, k: nat)
    requires f.Valid()
    ensures Errors(f, k * f.degrade).cwnd <= Max1(f.cwnd / Pow2(k))
    decreases k
  {
    if k > 0 {
      var d := f.degrade;
      var g := Errors(f, d);
      ThresholdHalves(f);
      ErrorsShrink(f, d);
      ErrorsHalveRepeatedly(g, k - 1);
      assert k * d == d + (k - 1) * d;
      ErrorsAdd(f, d, (k - 1) * d);
      DivMonotone(g.cwnd, Max1(f.cwnd / 2), Pow2(k - 1));
      DivTwice(f.cwnd, Pow2(k - 1));
      SmallDiv(Pow2(k - 1));
    } else {
      assert f.cwnd / 1 == f.cwnd;
    }
  }

  lemma DivMonotone(a: nat, b: nat, p: nat)
    requires a <= b && p >= 1
    ensures a / p <= b / p
  {
    var x, y := a / p, b / p;
    assert a == p * x + a % p && b == p * y + b % p;
    assert x > y ==> p * x >= p * (y + 1);
  }

  lemma SmallDiv(p: nat)
    requires p >= 1
    ensures 1 / p <= 1
  {}

  // ---------- Recovery ----------

  function Successes(f: Flow, n: nat): Flow {
    if n == 0 then f else OnSuccess(Successes(f, n - 1))
  }

  lemma {:induction false} SuccessesAdd(f: Flow, m: nat, n: nat)
    ensures Successes(f, m + n) == Successes(Successes(f, m), n)
    decreases n
  {
    hide OnSuccess;
    if n > 0 {
      SuccessesAdd(f, m, n - 1);
    }
  }

  lemma {:induction false} SuccessesWiden(f: Flow, n: nat)
    requires f.Valid()
    ensures var g := Successes(f, n);
            g.Valid() && g.cwnd >= f.cwnd && g.recover == f.recover && g.negotiated == f.negotiated
  {
    hide OnSuccess;
    if n > 0 {
      SuccessesWiden(f, n - 1);
      SuccessStep(Successes(f, n - 1));
    }
  }

  /** Successes below the threshold only count. */
  lemma {:induction false} SuccessesCount(f: Flow, n: nat)
    requires f.Valid() && f.cwnd < f.negotiated && f.successes + n < f.recover
    ensures var g := Successes(f, n);
            && g.Valid() && g.cwnd == f.cwnd && g.successes == f.successes + n
            && g.recover == f.recover && g.negotiated == f.negotiated
  {
    hide OnSuccess;
    if n > 0 {
      SuccessesCount(f, n - 1);
      SuccessStep(Successes(f, n - 1));
    }
  }

  function Upto(n: nat, cap: nat): nat { if n < cap then n else cap }

  /** One threshold's worth of consecutive successes widens the window, unless it is full. */
  lemma ThresholdWidens(f: Flow)
    requires f.Valid()
    ensures Successes(f, f.recover).cwnd >= Upto(f.cwnd + 1, f.negotiated)
  {
    hide OnSuccess;
    var n := if f.successes + 1 < f.recover then f.recover - f.successes - 1 else 0;
    if f.cwnd < f.negotiated {
      if n > 0 { SuccessesCount(f, n); }
      SuccessStep(Successes(f, n));
    }
    SuccessesWiden(f, n + 1);
    SuccessesWiden(Successes(f, n + 1), f.recover - n - 1);
    SuccessesAdd(f, n + 1, f.recover - n - 1);
  }

  /** k thresholds' worth of consecutive successes win back k packets, up to the negotiated limit. */
  lemma {:induction false} SuccessesRecover(f: Flow, k: nat)
    requires f.Valid()
    ensures Successes(f, k * f.recover).cwnd >= Upto(f.cwnd + k, f.negotiated)
    decreases k
  {
    hide OnSuccess;
    if k > 0 {
      var d := f.recover;
      ThresholdWidens(f);
      SuccessesWiden(f, d);
      SuccessesRecover(Successes(f, d), k - 1);
      assert k * d == d + (k - 1) * d;
      SuccessesAdd(f, d, (k - 1) * d);
    }
  }
}
