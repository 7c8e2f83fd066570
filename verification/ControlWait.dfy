/**
  Waiting for a control answer: resend on silence, sleep with doubling backoff, give up
  after a bounded number of tries, and take a round-trip sample only from a wait that
  never resent (section 3 of RFC 6298).
 */
module ControlWait {
  import opened DataPhase
  import Rtt

  const SLEEP_CAP: nat := 4000

  /** What one receive attempt can bring, after the accept callback has judged it. */
  datatype Event = Wanted | Refused | Ignored | CancelPacket | ErrorPacket | Damaged | Silence | Broken

  predicate IsSilent(e: Event) { e.Damaged? || e.Silence? }

  predicate Decides(e: Event) { !IsSilent(e) && !e.Ignored? }

  function Silences(es: seq<Event>): nat {
    if es == [] then 0 else Silences(es[..|es| - 1]) + (if IsSilent(es[|es| - 1]) then 1 else 0)
  }

  /** Nothing in `es` ends the wait: no deciding packet, no more silence than tries. */
  ghost predicate Undecided(es: seq<Event>, tries: nat) {
    Silences(es) <= tries && forall i :: 0 <= i < |es| ==> !Decides(es[i])
  }

  /** How a wait that consumed exactly `es` ends, if nothing local interferes. */
  ghost predicate Ends(es: seq<Event>, tries: nat, st: Status) {
    && es != [] && Undecided(es[..|es| - 1], tries)
    && var e := es[|es| - 1];
       match st
       case Ok => e.Wanted?
       case Protocol => e.Refused? || e.ErrorPacket?
       case Aborted => e.CancelPacket?
       case LinkDown => e.Broken?
       case TimedOut => e.Silence? && Silences(es) == tries + 1
       case BadCrc => e.Damaged? && Silences(es) == tries + 1
       case Io => false
  }

  lemma WaitStep(es: seq<Event>, e: Event, tries: nat)
    requires Undecided(es, tries)
    ensures Silences(es + [e]) == Silences(es) + (if IsSilent(e) then 1 else 0)
    ensures e.Ignored? || (IsSilent(e) && Silences(es) < tries) ==> Undecided(es + [e], tries)
    ensures e.Wanted? ==> Ends(es + [e], tries, Ok)
    ensures e.Refused? || e.ErrorPacket? ==> Ends(es + [e], tries, Protocol)
    ensures e.CancelPacket? ==> Ends(es + [e], tries, Aborted)
    ensures e.Broken? ==> Ends(es + [e], tries, LinkDown)
    ensures IsSilent(e) && Silences(es) == tries ==> Ends(es + [e], tries, if e.Damaged? then BadCrc else TimedOut)
    ensures forall st :: IsSilent(e) && Silences(es) < tries ==> !Ends(es + [e], tries, st)
  {
    assert (es + [e])[..|es|] == es;
    hide Silences;
  }

  /** The next backoff: a 32-bit shift, then the cap. */
  function Doubled(backoff: nat): nat {
    var next := (2 * backoff) % 0x1_0000_0000;
    if next > SLEEP_CAP then SLEEP_CAP else next
  }

  /** The backoff after `k` steps, and the time slept in them. */
  function BackoffAfter(base: nat, k: nat): nat {
    if k == 0 then base else Doubled(BackoffAfter(base, k - 1))
  }

  function Slept(base: nat, k: nat): nat {
    if k == 0 then 0 else Slept(base, k - 1) + BackoffAfter(base, k - 1)
  }

  /** However large the configured base: at most it once, then four seconds a step. */
  lemma {:induction false} SleepIsBounded(base: nat, k: nat)
    ensures k >= 1 ==> BackoffAfter(base, k) <= SLEEP_CAP && Slept(base, k) <= base + SLEEP_CAP * (k - 1)
    ensures Slept(base, 0) == 0
  {
    if k > 0 {
      SleepIsBounded(base, k - 1);
    }
  }

  lemma SleepStep(base: nat, k: nat)
    ensures Slept(base, k + 1) == Slept(base, k) + BackoffAfter(base, k)
    ensures BackoffAfter(base, k + 1) == Doubled(BackoffAfter(base, k))
  {}

  lemma {:induction false} SleepGrows(base: nat, j: nat, k: nat)
    requires j <= k
    ensures Slept(base, j) <= Slept(base, k)
    decreases k - j
  {
    if j < k {
      SleepGrows(base, j, k - 1);
    }
  }

  /** base times 2^k. */
  function Twofold(base: nat, k: nat): nat {
    if k == 0 then base else 2 * Twofold(base, k - 1)
  }

  /** Below the cap the backoff doubles each time, and once past it stays at four seconds. */
  lemma {:induction false} BackoffDoubles(base: nat, k: nat)
    requires 1 <= base <= 4000
    ensures BackoffAfter(base, k) == if Twofold(base, k) <= 4000 then Twofold(base, k) else 4000
    decreases k
  {
    if k > 0 {
      BackoffDoubles(base, k - 1);
    }
  }

  /** Until the cap is reached the sleeps add up to base (2^k - 1). */
  lemma {:induction false} SleepDoubles(base: nat, k: nat)
    requires 1 <= base <= 4000 && (k >= 1 ==> Twofold(base, k - 1) <= 4000)
    ensures Slept(base, k) == Twofold(base, k) - base
    decreases k
  {
    if k > 0 {
      BackoffDoubles(base, k - 1);
      SleepDoubles(base, k - 1);
    }
  }

  class Waiter {
    const timing: Rtt.Estimator
    const calm: bool
    var script: seq<Event>
    var backoff: nat
    var retries: nat
    var slept: nat
    var resends: nat

    /** In a calm session nobody cancels locally and sends do not fail. */
    constructor (timing: Rtt.Estimator, script: seq<Event>, calm: bool)
      ensures this.timing == timing && this.script == script && this.calm == calm && slept == 0 && resends == 0
    {
      this.timing, this.script, this.calm := timing, script, calm;
      backoff, retries, slept, resends := 0, 0, 0, 0;
    }

    /** Sleep, double up to the cap, use up one retry. */
    method BackoffStep()
      requires backoff < 0x1_0000_0000
      modifies this`backoff, this`retries, this`slept
      ensures retries == (if old(retries) == 0 then 0 else old(retries) - 1)
      ensures old(retries) > 0 ==> slept == old(slept) + old(backoff) && backoff == Doubled(old(backoff))
      ensures old(retries) == 0 ==> slept == old(slept) && backoff == old(backoff)
    {
      if retries == 0 { return; }
      if backoff != 0 { slept := slept + backoff; }
      var next := if backoff == 0 then 0 else (2 * backoff) % 0x1_0000_0000;
      if next > SLEEP_CAP { next := SLEEP_CAP; }
      backoff := next;
      retries := retries - 1;
    }

    method Receive() returns (e: Event)
      modifies this`script
      ensures old(script) == [] ==> e == Silence && script == []
      ensures old(script) != [] ==> e == old(script)[0] && script == old(script)[1..]
    {
      if script == [] {
        e := Silence;
      } else {
        e, script := script[0], script[1..];
      }
    }

    /** Mark the retransmission, send again, and back off if that worked. */
    method Resend() returns (linkDown: bool)
      requires backoff < 0x1_0000_0000 && retries > 0
      modifies this`backoff, this`retries, this`slept, this`resends, timing`inRetransmit
      ensures timing.inRetransmit && resends == old(resends) + 1 && (calm ==> !linkDown)
      ensures linkDown ==> retries == old(retries) && slept == old(slept)
      ensures !linkDown ==>
                retries == old(retries) - 1 && slept == old(slept) + old(backoff) && backoff == Doubled(old(backoff))
    {
      timing.inRetransmit := true;
      resends := resends + 1;
      linkDown := Interfered();
      if !linkDown { BackoffStep(); }
    }

    method Interfered() returns (yes: bool)
      ensures calm ==> !yes
    {
      yes := *;
      yes := yes && !calm;
    }

    /**
      The wait ends on every script, at the first event that decides: success exactly
      on the wanted packet, giving up exactly on one silence more than there are tries.
      `used` lists the events consumed and `k` counts the completed retries: one resend
      and one sleep for every silence that did not end the wait, and the retransmit
      flag is up exactly when something was resent.
     */
    method Wait(tries: nat, base: nat) returns (st: Status, ghost k: nat, ghost used: seq<Event>)
      requires tries <= 255 && base < 0x1_0000_0000
      modifies this, timing`inRetransmit
      ensures HeardOf(old(script), script, used, Silence)
      ensures Ends(used, tries, st) || (Local(st) && !calm)
      ensures k <= tries && slept == old(slept) + Slept(base, k)
      ensures Ends(used, tries, st) ==>
                resends == old(resends) + k && Silences(used) == k + (if st.TimedOut? || st.BadCrc? then 1 else 0)
      ensures k <= resends - old(resends) <= tries
      ensures timing.inRetransmit <==> resends > old(resends)
    {
      timing.inRetransmit := false;
      backoff, retries, k, used := base, tries, 0, [];
      assert Undecided([], tries) && HeardOf(script, script, [], Silence);
      hide HeardOf, Undecided, Silences, Ends, BackoffAfter, Slept, Doubled;
      while true
        invariant k + retries == tries && resends == old(resends) + k
        invariant backoff == BackoffAfter(base, k) && slept == old(slept) + Slept(base, k)
        invariant timing.inRetransmit <==> k > 0
        invariant HeardOf(old(script), script, used, Silence) && Undecided(used, tries) && Silences(used) == k
        invariant backoff < 0x1_0000_0000
        decreases |script|, retries
      {
        var cancelled := Interfered();
        if cancelled { st := Aborted; break; }
        ghost var before := used;
        HeardMore(old(script), script, used, Silence);
        var e := Receive();
        used := used + [e];
        WaitStep(before, e, tries);
        if e.Ignored? { continue; }
        if Decides(e) || retries == 0 {
          st := match e
                case CancelPacket => Aborted
                case Wanted => Ok
                case Broken => LinkDown
                case Damaged => BadCrc
                case Silence => TimedOut
                case _ => Protocol;
          break;
        }
        SleepIsBounded(base, k + 1);
        SleepStep(base, k);
        var linkDown := Resend();
        if linkDown { st := LinkDown; break; }
        k := k + 1;
      }
    }

    /**
      Waiting for DONE_ACK or EOT_ACK. At most `tries` resends and `base + 4000(tries - 1)`
      milliseconds asleep; the estimate moves only on success, only if nothing was
      resent, and then by this round trip.
     */
    method WaitForAck(tries: nat, base: nat, sentAt: nat, now: nat) returns (st: Status)
      requires tries <= 255 && base < 0x1_0000_0000 && sentAt < 0x1_0000_0000 && now < 0x1_0000_0000
      requires timing.State().Valid()
      modifies this, timing
      ensures st.Ok? ==> Wanted in old(script)
      ensures resends <= old(resends) + tries
      ensures tries >= 1 ==> slept <= old(slept) + base + SLEEP_CAP * (tries - 1)
      ensures tries == 0 ==> slept == old(slept)
      ensures timing.inRetransmit <==> resends > old(resends)
      ensures !st.Ok? || resends > old(resends) ==> timing.State() == old(timing.State()).(inRetransmit := timing.inRetransmit)
      ensures st.Ok? && resends == old(resends) && sentAt != 0 && now != 0 ==>
                timing.State() == Rtt.Sample(old(timing.State()).(inRetransmit := false), (now - sentAt) % 0x1_0000_0000)
    {
      ghost var k: nat, used: seq<Event>;
      st, k, used := Wait(tries, base);
      if st.Ok? {
        assert used[|used| - 1] == Wanted && |used| - 1 < |old(script)|;
      }
      SleepGrows(base, k, tries);
      SleepIsBounded(base, tries);
      if st.Ok? && sentAt != 0 && !timing.inRetransmit && now != 0 {
        timing.Record((now - sentAt) % 0x1_0000_0000);
      }
    }
  }
}
