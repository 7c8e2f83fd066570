/**
  Resume negotiation: what the receiver offers (RESUME_RESP), what the sender makes
  of it, the optional VERIFY exchange over a tail window, and the one plan that both
  sides end up following.
 */
module Resume {
  import opened Crc32

  datatype Mode = Never | SkipExisting | Tail

  datatype Config = Config(mode: Mode, tailCap: nat, minVerify: nat, mismatchSkip: bool) {
    predicate Valid() {
      tailCap < 0x1_0000_0000 && minVerify < 0x1_0000_0000
    }
  }

  const DEFAULT_CAP: nat := 8 * 1024 * 1024
  const ABSOLUTE_CAP: nat := 256 * 1024 * 1024

  datatype Action = StartZero | StartOffset | VerifyFirst | SkipFile | AbortFile

  datatype Resp = Resp(action: Action, offset: nat, crc: bv32, length: nat)

  // ---------- Receiver: the offer ----------

  function Clamp(v: nat, lo: nat, hi: nat): nat {
    if v < lo then lo else if v > hi then hi else v
  }

  /** How many trailing bytes of a local file of this size are to be compared. */
  function VerifyWindow(cfg: Config, existing: nat): nat {
    var cap := Clamp(if cfg.tailCap != 0 then cfg.tailCap else DEFAULT_CAP, 1, ABSOLUTE_CAP);
    var len := if existing < cap then existing else cap;
    if cfg.minVerify > 0 && len < cfg.minVerify then
      if existing < cfg.minVerify then existing else cfg.minVerify
    else len
  }

  /** At least one byte, no more than the file, and never too long for 32 bits. */
  lemma VerifyWindowBounds(cfg: Config, existing: nat)
    requires cfg.Valid() && existing > 0
    ensures 1 <= VerifyWindow(cfg, existing) <= existing
    ensures VerifyWindow(cfg, existing) < 0x1_0000_0000
  {}

  /** The cap in force: the configured one within 1 byte and 256 MiB, or 8 MiB. */
  predicate CapIs(cfg: Config, cap: nat) {
    if cfg.tailCap == 0 then cap == 8388608
    else if cfg.tailCap <= 268435456 then cap == cfg.tailCap
    else cap == 268435456
  }

  /**
    The window in numbers: the whole file if it is within the cap or the minimum,
    otherwise the larger of the two.
   */
  lemma VerifyWindowExact(cfg: Config, existing: nat, cap: nat)
    requires cfg.Valid() && existing > 0 && CapIs(cfg, cap)
    ensures existing <= cap || existing <= cfg.minVerify ==> VerifyWindow(cfg, existing) == existing
    ensures existing > cap && existing > cfg.minVerify ==>
              VerifyWindow(cfg, existing) == if cap > cfg.minVerify then cap else cfg.minVerify
  {}

  /** A larger cap or minimum never compares less. */
  lemma VerifyWindowGrows(cfg: Config, wider: Config, existing: nat, cap: nat, cap': nat)
    requires cfg.Valid() && wider.Valid() && existing > 0 && CapIs(cfg, cap) && CapIs(wider, cap')
    requires cap <= cap' && cfg.minVerify <= wider.minVerify
    ensures VerifyWindow(cfg, existing) <= VerifyWindow(wider, existing)
  {
    VerifyWindowExact(cfg, existing, cap);
    VerifyWindowExact(wider, existing, cap');
  }

  function Decide(cfg: Config, local: Option<seq<Byte>>, incoming: nat): Resp
    requires cfg.Valid()
  {
    if local.None? || cfg.mode == Never then Resp(StartZero, 0, 0, 0)
    else
      var size := |local.value|;
      if cfg.mode == SkipExisting then
        Resp(if size > 0 then SkipFile else StartZero, 0, 0, 0)
      else if size == 0 then Resp(StartZero, 0, 0, 0)
      else if size > incoming then
        Resp(if cfg.mismatchSkip then SkipFile else StartZero, 0, 0, 0)
      else
        var v := VerifyWindow(cfg, size);
        VerifyWindowBounds(cfg, size);
        Resp(VerifyFirst, size, Crc(local.value[size - v..]), v)
  }

  // ---------- Sender: what to do with the offer ----------

  datatype Choice =
    | Begin(offset: nat)
    | SkipIt
    | Abort
    | AskVerify(start: nat, crc: bv32, length: nat, end: nat)
    | BadOffer

  function OnResp(resp: Resp, src: seq<Byte>): Choice {
    var off := if resp.offset > |src| then 0 else resp.offset;
    match resp.action
    case StartZero => Begin(0)
    case StartOffset => Begin(off)
    case SkipFile => SkipIt
    case AbortFile => Abort
    case VerifyFirst =>
      // the window length is squeezed through a 32-bit cast
      var len := (if resp.length > off then off else resp.length) % 0x1_0000_0000;
      if len == 0 then Begin(off)
      else AskVerify(off - len, Crc(src[off - len..off]), len, off)
  }

  // ---------- VERIFY ----------

  datatype Verdict = Match | Mismatch | Skipped

  /** The receiver's comparison; a window it cannot read counts as a mismatch. */
  function OnVerify(cfg: Config, local: seq<Byte>, start: nat, crc: bv32, length: nat): Verdict {
    if start + length <= |local| && Crc(local[start..start + length]) == crc then Match
    else if cfg.mismatchSkip then Skipped else Mismatch
  }

  function OnVerdict(v: Verdict, end: nat): Choice {
    match v
    case Match => Begin(end)
    case Skipped => SkipIt
    case Mismatch => Begin(0)
  }

  // ---------- The plan ----------

  /** What happens to the target: written from an offset on, or left alone. */
  datatype Plan = Write(from: nat) | Leave

  /** Outside NEVER mode a start at or past the end means there is nothing to do. */
  function StartAt(cfg: Config, offset: nat, size: nat): Plan {
    if cfg.mode != Never && offset >= size then Leave else Write(offset)
  }

  /** The tail windows of the two files have equal checksums. */
  predicate TailsAgree(cfg: Config, prior: seq<Byte>, src: seq<Byte>)
    requires cfg.Valid() && 0 < |prior| <= |src|
  {
    var v := VerifyWindow(cfg, |prior|);
    VerifyWindowBounds(cfg, |prior|);
    Crc(prior[|prior| - v..]) == Crc(src[|prior| - v..|prior|])
  }

  function Fresh(src: seq<Byte>): Plan {
    if src == [] then Leave else Write(0)
  }

  /** The reference: which plan a mode, a policy, an old target and a source call for. */
  function Outcome(cfg: Config, prior: Option<seq<Byte>>, src: seq<Byte>): Plan
    requires cfg.Valid()
  {
    match cfg.mode
    case Never => Write(0)
    case SkipExisting => if prior.Some? && prior.value != [] then Leave else Fresh(src)
    case Tail =>
      if prior.None? || prior.value == [] then Fresh(src)
      else if |prior.value| > |src| then (if cfg.mismatchSkip then Leave else Fresh(src))
      else if TailsAgree(cfg, prior.value, src) then (if |prior.value| == |src| then Leave else Write(|prior.value|))
      else if cfg.mismatchSkip then Leave
      else Write(0)
  }

  // ---------- Agreement ----------

  /** The receiver's plan after an offer that needs no VERIFY. */
  function PlanOf(cfg: Config, resp: Resp, size: nat): Plan {
    match resp.action
    case SkipFile => Leave
    case StartOffset => StartAt(cfg, resp.offset, size)
    case _ => StartAt(cfg, 0, size)
  }

  /** The receiver's plan after its own verdict. */
  function PlanAfter(cfg: Config, resp: Resp, v: Verdict, size: nat): Plan {
    match v
    case Match => StartAt(cfg, resp.offset, size)
    case Skipped => Leave
    case Mismatch => StartAt(cfg, 0, size)
  }

  /** A sender choice that fits a plan: same offset, or no data on either side. */
  predicate Fits(choice: Choice, plan: Plan, size: nat) {
    match choice
    case Begin(o) => if o < size then plan == Write(o) else o == size && (plan == Leave || (size == 0 && plan == Write(0)))
    case SkipIt => plan == Leave
    case _ => false
  }

  /** An offer without VERIFY: both sides land on the reference plan. */
  lemma DirectOfferAgrees(cfg: Config, prior: Option<seq<Byte>>, src: seq<Byte>)
    requires cfg.Valid()
    requires Decide(cfg, prior, |src|).action != VerifyFirst
    ensures var resp := Decide(cfg, prior, |src|);
            && PlanOf(cfg, resp, |src|) == Outcome(cfg, prior, src)
            && Fits(OnResp(resp, src), Outcome(cfg, prior, src), |src|)
            && (resp.action == StartZero || resp.action == SkipFile)
            && (cfg.mode == Never ==> resp.action == StartZero)
  {
    hide Crc, VerifyWindow;
  }

  /** An offer with VERIFY: the sender asks for exactly the tail window, uncut. */
  lemma VerifyOffer(cfg: Config, prior: Option<seq<Byte>>, src: seq<Byte>)
    requires cfg.Valid()
    requires Decide(cfg, prior, |src|).action == VerifyFirst
    ensures cfg.mode == Tail && prior.Some? && 0 < |prior.value| <= |src|
    ensures var resp := Decide(cfg, prior, |src|);
            var n, v := |prior.value|, VerifyWindow(cfg, |prior.value|);
            && 1 <= v <= n
            && resp == Resp(VerifyFirst, n, Crc(prior.value[n - v..]), v)
            && OnResp(resp, src) == AskVerify(n - v, Crc(src[n - v..n]), v, n)
  {
    hide Crc, VerifyWindow;
    VerifyWindowBounds(cfg, |prior.value|);
  }

  /** After the verdict both sides land on the reference plan. */
  lemma VerifiedOfferAgrees(cfg: Config, prior: Option<seq<Byte>>, src: seq<Byte>)
    requires cfg.Valid()
    requires Decide(cfg, prior, |src|).action == VerifyFirst
    ensures var resp := Decide(cfg, prior, |src|);
            && OnResp(resp, src).AskVerify? && prior.Some?
            && var ask := OnResp(resp, src);
            && var v := OnVerify(cfg, prior.value, ask.start, ask.crc, ask.length);
            && PlanAfter(cfg, resp, v, |src|) == Outcome(cfg, prior, src)
            && Fits(OnVerdict(v, ask.end), Outcome(cfg, prior, src), |src|)
  {
    VerifyOffer(cfg, prior, src);
    hide Crc, VerifyWindow, Decide, OnResp;
    var n, w := |prior.value|, VerifyWindow(cfg, |prior.value|);
    assert prior.value[n - w..n] == prior.value[n - w..];
  }

  // ---------- What the target holds afterwards ----------

  /** The target's content once a plan has been carried out in full. */
  function Carried(prior: Option<seq<Byte>>, src: seq<Byte>, plan: Plan): Option<seq<Byte>>
    requires plan.Write? ==> plan.from <= |src|
  {
    match plan
    case Leave => prior
    case Write(r) => Some(Base(prior, r) + src[r..])
  }

  /** Opening at zero truncates; opening further on appends. */
  function Base(prior: Option<seq<Byte>>, from: nat): seq<Byte> {
    if from == 0 || prior.None? then [] else prior.value
  }

  lemma OutcomeFits(cfg: Config, prior: Option<seq<Byte>>, src: seq<Byte>)
    requires cfg.Valid()
    ensures var p := Outcome(cfg, prior, src);
            p.Write? ==> p.from <= |src| && |Base(prior, p.from)| == p.from && (p.from > 0 ==> prior.Some?)
    ensures var p := Outcome(cfg, prior, src);
            p.Write? && cfg.mode != Never ==> p.from < |src|
    ensures var p := Outcome(cfg, prior, src);
            cfg.mode == Never ==> p == Write(0)
  {
    hide TailsAgree;
  }

  function Deliver(cfg: Config, prior: Option<seq<Byte>>, src: seq<Byte>): Option<seq<Byte>>
    requires cfg.Valid()
  {
    OutcomeFits(cfg, prior, src);
    Carried(prior, src, Outcome(cfg, prior, src))
  }

  /**
    What a caller can check beforehand: the target is the source already, or will be
    written from zero, or is a proper prefix that passes the tail check.
   */
  predicate CopyExpected(cfg: Config, prior: Option<seq<Byte>>, src: seq<Byte>)
    requires cfg.Valid()
  {
    || prior == Some(src)
    || cfg.mode == Never
    || (src != [] && (
          || prior.None? || prior.value == []
          || (cfg.mode == Tail &&
              if |prior.value| > |src| || !TailsAgree(cfg, prior.value, src) then !cfg.mismatchSkip
              else prior.value <= src && |prior.value| < |src|)))
  }

  /** The target ends up an exact copy of the source just when that could be expected. */
  lemma ExactCopyIff(cfg: Config, prior: Option<seq<Byte>>, src: seq<Byte>)
    requires cfg.Valid()
    ensures Deliver(cfg, prior, src) == Some(src) <==> CopyExpected(cfg, prior, src)
  {
    hide TailsAgree;
    OutcomeFits(cfg, prior, src);
    var plan := Outcome(cfg, prior, src);
    if plan.Write? {
      var base := Base(prior, plan.from);
      assert src == src[..plan.from] + src[plan.from..];
      if base + src[plan.from..] == src {
        assert base == (base + src[plan.from..])[..plan.from] == src[..plan.from];
      }
    }
  }

  /** A matching last byte lets a target with a different first byte be continued. */
  lemma WrongPrefixIsContinued()
    ensures var cfg := Config(Tail, 1, 0, false);
            && Deliver(cfg, Some([1, 2]), [0, 2, 3]) == Some([1, 2, 3])
            && !CopyExpected(cfg, Some([1, 2]), [0, 2, 3])
  {
    var cfg := Config(Tail, 1, 0, false);
    var prior: seq<Byte>, src: seq<Byte> := [1, 2], [0, 2, 3];
    assert VerifyWindow(cfg, 2) == 1;
    assert prior[1..] == [2] && src[1..2] == [2];
    assert TailsAgree(cfg, prior, src);
    hide TailsAgree;
    assert Outcome(cfg, Some(prior), src) == Write(2);
    assert prior + src[2..] == [1, 2, 3];
    assert prior[0] != src[0];
  }

  // ---------- What continuing a target rests on ----------

  /** A target is continued only where it ends, and only if its last bytes check out. */
  lemma ContinuedTailMatches(cfg: Config, prior: Option<seq<Byte>>, src: seq<Byte>, cap: nat)
    requires cfg.Valid() && CapIs(cfg, cap) && Outcome(cfg, prior, src).Write? && Outcome(cfg, prior, src).from > 0
    ensures prior.Some? && cfg.mode == Tail && Outcome(cfg, prior, src).from == |prior.value| < |src|
    ensures var n := |prior.value|;
            var v := if n <= cap || n <= cfg.minVerify then n else if cap > cfg.minVerify then cap else cfg.minVerify;
            1 <= v <= n && Crc(prior.value[n - v..]) == Crc(src[n - v..n])
  {
    hide Crc, VerifyWindow;
    VerifyWindowExact(cfg, |prior.value|, cap);
    VerifyWindowBounds(cfg, |prior.value|);
  }

  /** A target within the cap is continued only if all of it has the checksum of the source's beginning. */
  lemma ContinuedWholeMatches(cfg: Config, prior: Option<seq<Byte>>, src: seq<Byte>, cap: nat)
    requires cfg.Valid() && CapIs(cfg, cap) && Outcome(cfg, prior, src).Write? && Outcome(cfg, prior, src).from > 0
    requires prior.Some? && |prior.value| <= cap
    ensures |prior.value| < |src| && Crc(prior.value) == Crc(src[..|prior.value|])
  {
    hide Crc, Outcome;
    ContinuedTailMatches(cfg, prior, src, cap);
    assert prior.value[0..] == prior.value;
  }

  /**
    A target within the cap that differs from the source's beginning, but only inside
    four consecutive bytes, is never continued and never left for complete.
   */
  lemma SmallDamageIsNoticed(cfg: Config, prior: seq<Byte>, src: seq<Byte>, cap: nat, at: nat)
    requires cfg.Valid() && CapIs(cfg, cap) && cfg.mode == Tail && |prior| <= cap
    requires at + 4 <= |prior| <= |src| && prior != src[..|prior|]
    requires prior[..at] == src[..at] && prior[at + 4..] == src[at + 4..|prior|]
    ensures Outcome(cfg, Some(prior), src) == if cfg.mismatchSkip then Leave else Write(0)
  {
    var n := |prior|;
    var f, x, y := src[..n], prior[at..at + 4], src[at..at + 4];
    assert prior == prior[..at] + x + prior[at + 4..];
    assert f == prior[..at] + y + prior[at + 4..];
    BurstChangesCrc(prior[..at], x, y, prior[at + 4..]);
    VerifyWindowExact(cfg, n, cap);
    assert prior[0..] == prior && src[0..n] == f;
    hide Crc, VerifyWindow;
  }

  lemma BurstChangesCrc(pre: seq<Byte>, x: seq<Byte>, y: seq<Byte>, post: seq<Byte>)
    requires |x| == |y| == 4 && x != y
    ensures Crc(pre + x + post) != Crc(pre + y + post)
  {
    hide Run, Xor;
    BurstChangesRegister(ONES, pre, x, y, post);
    XorCancels(Run(ONES, pre + x + post), Run(ONES, pre + y + post), ONES);
  }

  /** An empty source outside NEVER mode never changes the target, whatever it holds. */
  lemma EmptySourceLeavesTarget(cfg: Config, prior: Option<seq<Byte>>)
    requires cfg.Valid()
    ensures Deliver(cfg, prior, []) == prior <==> cfg.mode != Never || prior == Some([])
  {
    var none: seq<Byte> := [];
    assert none + none[0..] == none;
  }
}
