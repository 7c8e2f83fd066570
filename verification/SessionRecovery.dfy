/**
  Which states of a batch can still end in success, after any losses and timeouts: with
  a window of one packet, exactly those in which the party that waits is answered by
  something the other will resend, or the one frame nobody resends is still under way.
 */
module SessionRecovery {
  import opened Crc32
  import opened DataPhase
  import opened Resume
  import opened Session
  import opened SessionProof
  import opened SessionProgress
  import L = LosslessTransfer

  // ---------- Success within reach ----------

  ghost predicate IsPath(b: Batch, path: seq<State>, steps: seq<Step>) {
    && b.Valid() && |path| == |steps| + 1
    && forall k :: 0 <= k < |steps| ==> Enabled(b, path[k], steps[k]) && path[k + 1] == Apply(b, path[k], steps[k])
  }

  /** Some continuation of `s`, with whatever deliveries, losses and timeouts, succeeds. */
  ghost predicate CanSucceed(b: Batch, s: State) {
    exists path: seq<State>, steps: seq<Step> ::
      IsPath(b, path, steps) && path[0] == s && path[|path| - 1].snd.Succeeded?
  }

  lemma Arrived(b: Batch, s: State)
    requires b.Valid() && s.snd.Succeeded?
    ensures CanSucceed(b, s)
  {
    assert IsPath(b, [s], []);
  }

  lemma Before(b: Batch, s: State, step: Step)
    requires b.Valid() && Enabled(b, s, step) && CanSucceed(b, Apply(b, s, step))
    ensures CanSucceed(b, s)
  {
    hide Enabled, Apply;
    var s' := Apply(b, s, step);
    var path: seq<State>, steps: seq<Step> :|
      IsPath(b, path, steps) && path[0] == s' && path[|path| - 1].snd.Succeeded?;
    var longer, more := [s] + path, [step] + steps;
    forall k | 0 <= k < |more| ensures Enabled(b, longer[k], more[k]) && longer[k + 1] == Apply(b, longer[k], more[k]) {
      if k > 0 {
        assert Enabled(b, path[k - 1], steps[k - 1]);
        assert longer[k] == path[k - 1] && longer[k + 1] == path[k] && more[k] == steps[k - 1];
      }
    }
    assert IsPath(b, longer, more);
  }

  lemma {:induction false} InStepSucceeds(b: Batch, s: State)
    requires InStep(b, s)
    ensures CanSucceed(b, s)
    decreases Work(b, s)
  {
    hide CanSucceed, Enabled, Apply, Work, Due, RcvInv, DirInv;
    if s.snd.Succeeded? {
      Arrived(b, s);
    } else {
      SomeoneIsDue(b, s);
      var step := if Enabled(b, s, SndFrame) then SndFrame else RcvFrame;
      if Enabled(b, s, SndFrame) { SenderAdvances(b, s); } else { ReceiverAdvances(b, s); }
      InStepSucceeds(b, Apply(b, s, step));
      Before(b, s, step);
    }
  }

  // ---------- What else every run keeps ----------

  /** A receiver that has ended is well, and nobody is past an unverified offer too early. */
  ghost predicate Aware(b: Batch, s: State)
    requires b.Valid()
  {
    && (s.rcv.Ended? ==> s.rcvAlive)
    && (s.snd.AwaitResp? && (s.rcv.Receiving? || s.rcv.Skipping?) && s.current < |b.files| ==>
          RespAt(b, s.current).action != VerifyFirst)
  }

  lemma SenderStaysAware(b: Batch, s: State, step: Step)
    requires Inv(b, s) && Aware(b, s) && Enabled(b, s, step) && (step.SndFrame? || step.SndTimeout? || step.SndGivesUp?)
    ensures Aware(b, Apply(b, s, step))
  {
    hide PlanAt, RespAt, AskAt, VerdictAt, BaseAt, DirAfter, FwdInv, DirInv, OnResp, OnVerdict, Fill;
    if step.SndFrame? && s.snd.AwaitDone? && s.rev[0] == DoneAck {
      assert RevOk(b, s, s.rev[0]);
    }
  }

  lemma ReceiverStaysAware(b: Batch, s: State)
    requires Inv(b, s) && Aware(b, s) && Enabled(b, s, RcvFrame)
    ensures Aware(b, Apply(b, s, RcvFrame))
  {
    HeadFacts(b, s);
    if s.snd.AwaitResp? && s.rcv.AwaitReq? {
      OfferIsDirect(b, s);
    }
    hide PlanAt, RespAt, AskAt, VerdictAt, BaseAt, DirAfter, RevInv, DirInv, Decide, PlanOf, PlanAfter, OnVerify, OnData;
  }

  /** The receiver goes past the request without VERIFY only if none is called for. */
  lemma OfferIsDirect(b: Batch, s: State)
    requires Inv(b, s) && s.snd.AwaitResp? && s.rcv.AwaitReq?
    ensures Decide(b.cfg, Lookup(s.dir, s.rcv.name), s.rcv.size) == RespAt(b, s.current)
    ensures b.cfg.mode == Never ==> RespAt(b, s.current).action != VerifyFirst
  {
    assert s.completed == s.current;
    LookupIsPrior(b, s);
    hide DirAfter, VerifyWindow;
  }

  lemma StaysAware(b: Batch, s: State, step: Step)
    requires Inv(b, s) && Aware(b, s) && Enabled(b, s, step)
    ensures Aware(b, Apply(b, s, step))
  {
    if step.SndFrame? || step.SndTimeout? || step.SndGivesUp? {
      SenderStaysAware(b, s, step);
    } else if step.RcvFrame? {
      ReceiverStaysAware(b, s);
    } else if step.RcvTimeout? && s.snd.AwaitResp? {
      OfferIsDirect(b, s);
    }
    hide RespAt, Inv, SenderReceives, SenderTimesOut, ReceiverReceives;
  }

  lemma {:induction false} RunsStayAware(b: Batch, run: seq<State>, steps: seq<Step>, n: nat)
    requires IsRun(b, run, steps) && b.StopAndWait() && n < |run|
    ensures Inv(b, run[n]) && Aware(b, run[n])
  {
    hide Inv, RespAt;
    RunKeeps(b, run, steps, n);
    if n > 0 {
      RunsStayAware(b, run, steps, n - 1);
      assert Enabled(b, run[n - 1], steps[n - 1]) && run[n] == Apply(b, run[n - 1], steps[n - 1]);
      hide Apply, Enabled, Aware;
      StaysAware(b, run[n - 1], steps[n - 1]);
    }
  }

  // ---------- Losing what is under way ----------

  /** Both parties are well and every run invariant holds. */
  ghost predicate Sane(b: Batch, s: State) {
    Inv(b, s) && Aware(b, s) && s.sndAlive && s.rcvAlive
  }

  lemma LoseOneRev(b: Batch, s: State)
    requires Sane(b, s) && s.rev != []
    ensures Sane(b, PopRev(s)) && (CanSucceed(b, PopRev(s)) ==> CanSucceed(b, s))
  {
    hide CanSucceed;
    assert Enabled(b, s, LoseRev) && Apply(b, s, LoseRev) == PopRev(s);
    StepKeeps(b, s, LoseRev);
    StaysAware(b, s, LoseRev);
    hide Enabled, Apply, Aware, Inv;
    if CanSucceed(b, PopRev(s)) { Before(b, s, LoseRev); }
  }

  lemma LoseOneFwd(b: Batch, s: State)
    requires Sane(b, s) && s.fwd != []
    ensures Sane(b, PopFwd(s)) && (CanSucceed(b, PopFwd(s)) ==> CanSucceed(b, s))
  {
    hide CanSucceed;
    assert Enabled(b, s, LoseFwd) && Apply(b, s, LoseFwd) == PopFwd(s);
    StepKeeps(b, s, LoseFwd);
    StaysAware(b, s, LoseFwd);
    hide Enabled, Apply, Aware, Inv;
    if CanSucceed(b, PopFwd(s)) { Before(b, s, LoseFwd); }
  }

  lemma {:induction false} LosesRev(b: Batch, s: State, k: nat)
    requires Sane(b, s) && k <= |s.rev|
    ensures var t := s.(rev := s.rev[k..]); Sane(b, t) && (CanSucceed(b, t) ==> CanSucceed(b, s))
    decreases k
  {
    hide Sane, CanSucceed;
    if k == 0 {
      assert s.(rev := s.rev[0..]) == s;
    } else {
      LoseOneRev(b, s);
      LosesRev(b, PopRev(s), k - 1);
      assert PopRev(s).rev[k - 1..] == s.rev[k..];
    }
  }

  /** What `k` losses at the front leave of the marked frames. */
  function Less(stale: nat, k: nat): nat { if stale > k then stale - k else 0 }

  lemma {:induction false} LosesFwd(b: Batch, s: State, k: nat)
    requires Sane(b, s) && k <= |s.fwd|
    ensures var t := s.(fwd := s.fwd[k..], stale := Less(s.stale, k)); Sane(b, t) && (CanSucceed(b, t) ==> CanSucceed(b, s))
    decreases k
  {
    hide Sane, CanSucceed;
    if k == 0 {
      assert s.(fwd := s.fwd[0..], stale := Less(s.stale, 0)) == s;
    } else {
      LoseOneFwd(b, s);
      LosesFwd(b, PopFwd(s), k - 1);
      assert PopFwd(s).fwd[k - 1..] == s.fwd[k..];
    }
  }

  function Emptied(s: State): State { s.(fwd := [], rev := [], stale := 0) }

  lemma LosesAll(b: Batch, s: State)
    requires Sane(b, s)
    ensures Sane(b, Emptied(s)) && (CanSucceed(b, Emptied(s)) ==> CanSucceed(b, s))
  {
    assert s.stale <= |s.fwd|;
    hide Sane, CanSucceed;
    LosesFwd(b, s, |s.fwd|);
    var t := s.(fwd := s.fwd[|s.fwd|..], stale := Less(s.stale, |s.fwd|));
    assert s.fwd[|s.fwd|..] == [];
    LosesRev(b, t, |t.rev|);
    assert t.rev[|t.rev|..] == [];
  }

  // ---------- Recovery by a timeout ----------

  /** The sender's resend will be answered. */
  predicate Answerable(s: State) {
    match s.snd
    case AwaitResp => s.rcv.AwaitReq? || s.rcv.AwaitVerify?
    case AwaitVerdict(_) => s.rcv.AwaitVerify?
    case Sending(_) => true
    case AwaitDone => s.completed == s.current
    case AwaitEot => s.rcv.AwaitMeta?
    case Succeeded => true
  }

  predicate PipesEmpty(s: State) { s.fwd == [] && s.rev == [] }

  lemma TimeoutPushes(b: Batch, s: State, t: State)
    requires Sane(b, s) && Enabled(b, s, SndTimeout) && t == SenderTimesOut(b, s)
    ensures CanSucceed(b, t) ==> CanSucceed(b, s)
  {
    hide CanSucceed, SenderTimesOut;
    if CanSucceed(b, t) { Before(b, s, SndTimeout); }
  }

  lemma RecoversRequest(b: Batch, s: State)
    requires Sane(b, s) && PipesEmpty(s) && s.snd.AwaitResp? && s.rcv.AwaitReq?
    ensures CanSucceed(b, s)
  {
    var t := s.(fwd := [ResumeReq]);
    hide CanSucceed, PlanAt, RespAt, BaseAt, DirAfter, FwdInv, RevInv;
    assert SenderTimesOut(b, s) == t;
    assert InStep(b, t);
    InStepSucceeds(b, t);
    TimeoutPushes(b, s, t);
  }

  lemma RecoversOffer(b: Batch, s: State)
    requires Sane(b, s) && PipesEmpty(s) && s.snd.AwaitResp? && s.rcv.AwaitVerify?
    ensures CanSucceed(b, s)
  {
    NothingStale(b, s);
    OfferInStep(b, s);
    assert b.Valid();
    hide Sane, CanSucceed, InStep;
    OfferForm(b, s);
    var t := s.(fwd := [ResumeReq]);
    InStepSucceeds(b, s.(rev := [ResumeResp(s.rcv.resp)]));
    hide Apply, Enabled, SenderTimesOut;
    Before(b, t, RcvFrame);
    TimeoutPushes(b, s, t);
  }

  /** A repeated request is answered with the same offer. */
  lemma OfferForm(b: Batch, s: State)
    requires b.Valid() && s.rcvAlive && PipesEmpty(s) && s.stale == 0 && s.snd.AwaitResp? && s.rcv.AwaitVerify?
    ensures var t := s.(fwd := [ResumeReq]);
            && SenderTimesOut(b, s) == t && Enabled(b, t, RcvFrame)
            && Apply(b, t, RcvFrame) == s.(rev := [ResumeResp(s.rcv.resp)])
  {
    hide OnVerify, PlanAfter, Decide, OnData, Fill;
    var t := s.(fwd := [ResumeReq]);
    assert t.fwd[1..] == [] && [] + [ResumeResp(s.rcv.resp)] == [ResumeResp(s.rcv.resp)];
  }

  lemma OfferInStep(b: Batch, s: State)
    requires Sane(b, s) && PipesEmpty(s) && s.snd.AwaitResp? && s.rcv.AwaitVerify?
    ensures InStep(b, s.(rev := [ResumeResp(s.rcv.resp)])) && Enabled(b, s, SndTimeout)
  {
    hide PlanAt, RespAt, BaseAt, DirAfter, FwdInv, RevInv;
  }

  lemma NothingStale(b: Batch, s: State)
    requires Inv(b, s) && s.rcvAlive && s.fwd == []
    ensures s.stale == 0
  {}

  lemma RecoversVerdict(b: Batch, s: State)
    requires Sane(b, s) && PipesEmpty(s) && s.snd.AwaitVerdict? && s.rcv.AwaitVerify?
    ensures CanSucceed(b, s)
  {
    var ask := s.snd.ask;
    var t := s.(fwd := [Verify(ask.start, ask.crc, ask.length)]);
    hide CanSucceed, PlanAt, RespAt, AskAt, VerdictAt, BaseAt, DirAfter, FwdInv, RevInv;
    assert SenderTimesOut(b, s) == t;
    assert InStep(b, t);
    InStepSucceeds(b, t);
    TimeoutPushes(b, s, t);
  }

  /** The resent cut is new to the receiver, or answered as a duplicate. */
  lemma RecoversData(b: Batch, s: State)
    requires Sane(b, s) && PipesEmpty(s) && s.snd.Sending?
    ensures CanSucceed(b, s)
  {
    var i, tx := s.current, s.snd.tx;
    var c := Chunk(Some(tx.acked), Src(b, i)[tx.acked..tx.next]);
    var t := s.(fwd := [Data(c)]);
    ResendsCut(b, s);
    hide CanSucceed, PlanAt, DirAfter, BaseAt, FwdInv, RevInv, SenderTimesOut;
    if s.rcv.written == tx.acked {
      OneCut(Src(b, i), c, tx.acked, tx.next);
      hide Cuts, Climbs;
      assert InStep(b, t);
      InStepSucceeds(b, t);
    } else {
      DuplicateAnswered(b, s, t, c);
    }
    TimeoutPushes(b, s, t);
  }

  lemma ResendsCut(b: Batch, s: State)
    requires Inv(b, s) && PipesEmpty(s) && s.snd.Sending?
    ensures var tx := s.snd.tx;
            && tx.acked < tx.next <= |Src(b, s.current)| && tx.win == b.windows[s.current] == 1
            && SenderTimesOut(b, s) == s.(fwd := [Data(Chunk(Some(tx.acked), Src(b, s.current)[tx.acked..tx.next]))])
  {
    hide PlanAt, DirAfter, BaseAt, FwdInv, RevInv, DirInv;
    assert b.windows[s.current] == 1;
    FillOneCut(b, s.current, s.snd.tx.acked);
    var c := Chunk(Some(s.snd.tx.acked), Src(b, s.current)[s.snd.tx.acked..s.snd.tx.next]);
    assert Chunks([c]) == [Data(c)];
    hide Fill;
  }

  lemma OneCut(src: seq<Byte>, c: Chunk, from: nat, to: nat)
    requires from < to <= |src| && c == Chunk(Some(from), src[from..to])
    ensures Cuts(src, [Data(c)], from, to) && Cuts(src, [], to, to) && Climbs([], from, from)
  {
    var fs := [Data(c)];
    assert seq(|fs|, k requires 0 <= k < |fs| && fs[k].Data? => fs[k].chunk) == [c];
    assert [c][1..] == [];
    assert L.Aligned(src, [], to, to);
  }

  lemma DuplicateAnswered(b: Batch, s: State, t: State, c: Chunk)
    requires Sane(b, s) && PipesEmpty(s) && s.snd.Sending? && s.rcv.written == s.snd.tx.next > s.snd.tx.acked
    requires s.snd.tx.next <= |Src(b, s.current)| && s.snd.tx.win == b.windows[s.current]
    requires c == Chunk(Some(s.snd.tx.acked), Src(b, s.current)[s.snd.tx.acked..s.snd.tx.next])
    requires t == s.(fwd := [Data(c)])
    ensures CanSucceed(b, t)
  {
    var u := s.(rev := [Reply(DataAck(s.snd.tx.next))]);
    NothingStale(b, s);
    TargetIsOpen(b, s);
    DuplicateForm(b, s, t, c);
    DuplicateInStep(b, s, c);
    hide CanSucceed, Inv, InStep, Apply, Enabled;
    InStepSucceeds(b, u);
    Before(b, t, RcvFrame);
  }

  lemma DuplicateForm(b: Batch, s: State, t: State, c: Chunk)
    requires b.Valid() && s.rcvAlive && PipesEmpty(s) && s.stale == 0 && s.snd.Sending?
    requires s.rcv.Receiving? && s.rcv.name in s.dir && s.rcv.written == s.snd.tx.next > s.snd.tx.acked
    requires c.offset == Some(s.snd.tx.acked) && t == s.(fwd := [Data(c)])
    ensures Enabled(b, t, RcvFrame) && Apply(b, t, RcvFrame) == s.(rev := [Reply(DataAck(s.snd.tx.next))])
  {
    hide TakeChunk, OnData, OnVerify, PlanAfter, Decide;
    TakeChunkForm(PopFwd(t), c);
    assert t.fwd[1..] == [];
    assert s.rev + [Reply(DataAck(s.snd.tx.next))] == [Reply(DataAck(s.snd.tx.next))];
  }

  lemma TargetIsOpen(b: Batch, s: State)
    requires Inv(b, s) && s.snd.Sending?
    ensures s.rcv.Receiving? && s.rcv.name in s.dir && b.Valid()
  {
    hide PlanAt, DirAfter, BaseAt, FwdInv, RevInv;
  }

  lemma DuplicateInStep(b: Batch, s: State, c: Chunk)
    requires Sane(b, s) && PipesEmpty(s) && s.snd.Sending? && s.rcv.written == s.snd.tx.next > s.snd.tx.acked
    requires s.snd.tx.next <= |Src(b, s.current)| && s.snd.tx.win == b.windows[s.current]
    requires c == Chunk(Some(s.snd.tx.acked), Src(b, s.current)[s.snd.tx.acked..s.snd.tx.next])
    ensures InStep(b, s.(rev := [Reply(DataAck(s.snd.tx.next))]))
  {
    var tx := s.snd.tx;
    OneCut(Src(b, s.current), c, tx.acked, tx.next);
    hide PlanAt, DirAfter, BaseAt, FwdInv, RevInv, Cuts, Climbs;
    ClimbsPush([], tx.acked, tx.acked, tx.next);
    assert [] + [Reply(DataAck(tx.next))] == [Reply(DataAck(tx.next))];
  }

  lemma RecoversDone(b: Batch, s: State)
    requires Sane(b, s) && PipesEmpty(s) && s.snd.AwaitDone? && s.completed == s.current
    ensures CanSucceed(b, s)
  {
    var t := s.(fwd := [Done]);
    hide CanSucceed, PlanAt, RespAt, BaseAt, DirAfter, FwdInv, RevInv;
    assert SenderTimesOut(b, s) == t;
    assert InStep(b, t);
    InStepSucceeds(b, t);
    TimeoutPushes(b, s, t);
  }

  lemma RecoversEot(b: Batch, s: State)
    requires Sane(b, s) && PipesEmpty(s) && s.snd.AwaitEot? && s.rcv.AwaitMeta?
    ensures CanSucceed(b, s)
  {
    var t := s.(fwd := [Eot]);
    hide CanSucceed, PlanAt, RespAt, BaseAt, DirAfter, FwdInv, RevInv;
    assert SenderTimesOut(b, s) == t;
    assert InStep(b, t);
    InStepSucceeds(b, t);
    TimeoutPushes(b, s, t);
  }

  /** Whatever was lost: a resend that will be answered is enough. */
  lemma AnswerableSucceeds(b: Batch, s: State)
    requires Sane(b, s) && Answerable(s)
    ensures CanSucceed(b, s)
  {
    LosesAll(b, s);
    var d := Emptied(s);
    assert b.Valid();
    hide Sane, CanSucceed;
    match s.snd
    case AwaitResp => if s.rcv.AwaitReq? { RecoversRequest(b, d); } else { RecoversOffer(b, d); }
    case AwaitVerdict(_) => RecoversVerdict(b, d);
    case Sending(_) => RecoversData(b, d);
    case AwaitDone => RecoversDone(b, d);
    case AwaitEot => RecoversEot(b, d);
    case Succeeded => Arrived(b, s);
  }

  // ---------- Recovery by the one frame nobody resends ----------

  ghost predicate HasMeta(fs: seq<Fwd>) { exists k :: 0 <= k < |fs| && fs[k].Meta? }

  ghost predicate HasResp(gs: seq<Rev>) { exists k :: 0 <= k < |gs| && gs[k].ResumeResp? }

  ghost predicate HasVerdict(gs: seq<Rev>) { exists k :: 0 <= k < |gs| && gs[k].VerifyResult? }

  /** The waiting sender is served by a frame that is still under way and never sent again. */
  ghost predicate Carried(s: State) {
    match s.snd
    case AwaitResp => if s.rcv.AwaitMeta? then HasMeta(s.fwd) else HasResp(s.rev)
    case AwaitVerdict(_) => HasVerdict(s.rev)
    case AwaitDone => DoneAck in s.rev
    case AwaitEot => EotAck in s.rev
    case _ => false
  }

  lemma ByMeta(b: Batch, s: State)
    requires Sane(b, s) && s.snd.AwaitResp? && s.rcv.AwaitMeta? && HasMeta(s.fwd)
    ensures CanSucceed(b, s)
  {
    var k :| 0 <= k < |s.fwd| && s.fwd[k].Meta?;
    LosesFwd(b, s, k);
    var t := s.(fwd := s.fwd[k..], stale := Less(s.stale, k));
    assert t.fwd[0].Meta? && Enabled(b, t, RcvFrame);
    Stepped(b, t, RcvFrame);
    var u := Apply(b, t, RcvFrame);
    assert u.rcv.AwaitReq? && u.snd.AwaitResp? && u.sndAlive && u.rcvAlive;
    hide Inv, Aware, CanSucceed, Apply, Enabled;
    AnswerableSucceeds(b, u);
    Before(b, t, RcvFrame);
  }

  lemma Stepped(b: Batch, s: State, step: Step)
    requires Sane(b, s) && Enabled(b, s, step)
    ensures Inv(b, Apply(b, s, step)) && Aware(b, Apply(b, s, step))
  {
    hide Enabled, Apply, Aware, Inv;
    StepKeeps(b, s, step);
    StaysAware(b, s, step);
  }

  /** A choice that fits the plan leaves the sender waiting for something resendable. */
  lemma ActIsAnswerable(b: Batch, s: State, c: Choice)
    requires b.Valid() && s.current < |b.files| && s.completed == s.current && s.sndAlive && s.rcvAlive
    requires Fits(c, PlanAt(b, s.current), |Src(b, s.current)|)
    ensures var t := Act(b, s, c); Answerable(t) && t.sndAlive && t.rcvAlive
  {
    hide PlanAt, Fill;
  }

  lemma ByResp(b: Batch, s: State)
    requires Sane(b, s) && s.snd.AwaitResp? && (s.rcv.Receiving? || s.rcv.Skipping?) && HasResp(s.rev)
    ensures CanSucceed(b, s)
  {
    var i := s.current;
    var k :| 0 <= k < |s.rev| && s.rev[k].ResumeResp?;
    assert RevOk(b, s, s.rev[k]) && s.completed == i < |b.files|;
    LosesRev(b, s, k);
    var t := s.(rev := s.rev[k..]);
    assert t.rev[0] == ResumeResp(RespAt(b, i)) && Enabled(b, t, SndFrame);
    DirectOffer(b, i);
    ActIsAnswerable(b, PopRev(t), AskAt(b, i));
    assert Apply(b, t, SndFrame) == Act(b, PopRev(t), AskAt(b, i));
    hide Inv, Aware, CanSucceed, Apply, Enabled, Act, Answerable, Fits, AskAt, RespAt, PlanAt;
    Stepped(b, t, SndFrame);
    AnswerableSucceeds(b, Apply(b, t, SndFrame));
    Before(b, t, SndFrame);
  }

  lemma ByVerdict(b: Batch, s: State)
    requires Sane(b, s) && s.snd.AwaitVerdict? && (s.rcv.Receiving? || s.rcv.Skipping?) && HasVerdict(s.rev)
    ensures CanSucceed(b, s)
  {
    var i := s.current;
    var k :| 0 <= k < |s.rev| && s.rev[k].VerifyResult?;
    assert RevOk(b, s, s.rev[k]) && s.completed == i < |b.files|;
    LosesRev(b, s, k);
    var t := s.(rev := s.rev[k..]);
    var c := OnVerdict(VerdictAt(b, i), s.snd.ask.end);
    assert t.rev[0] == VerifyResult(VerdictAt(b, i)) && Enabled(b, t, SndFrame);
    VerifiedOffer(b, i);
    ActIsAnswerable(b, PopRev(t), c);
    assert Apply(b, t, SndFrame) == Act(b, PopRev(t), c);
    hide Inv, Aware, CanSucceed, Apply, Enabled, Act, Answerable, Fits, AskAt, RespAt, PlanAt, OnVerdict, VerdictAt;
    Stepped(b, t, SndFrame);
    AnswerableSucceeds(b, Apply(b, t, SndFrame));
    Before(b, t, SndFrame);
  }

  lemma ByDoneAck(b: Batch, s: State)
    requires Sane(b, s) && s.snd.AwaitDone? && s.completed != s.current && DoneAck in s.rev
    ensures CanSucceed(b, s)
  {
    var k :| 0 <= k < |s.rev| && s.rev[k] == DoneAck;
    assert k == |s.rev| - 1 && s.stale <= |s.fwd|;
    LosesFwd(b, s, |s.fwd|);
    var t := s.(fwd := [], stale := 0);
    assert s.fwd[|s.fwd|..] == [];
    LosesRev(b, t, k);
    var u := t.(rev := [DoneAck]);
    assert t.rev[k..] == [DoneAck];
    hide CanSucceed, PlanAt, RespAt, BaseAt, DirAfter, FwdInv, RevInv;
    assert InStep(b, u);
    InStepSucceeds(b, u);
  }

  lemma ByEotAck(b: Batch, s: State)
    requires Sane(b, s) && s.snd.AwaitEot? && EotAck in s.rev
    ensures CanSucceed(b, s)
  {
    var k :| 0 <= k < |s.rev| && s.rev[k] == EotAck;
    LosesRev(b, s, k);
    var t := s.(rev := s.rev[k..]);
    assert t.rev[0] == EotAck && Enabled(b, t, SndFrame) && Apply(b, t, SndFrame).snd.Succeeded?;
    hide CanSucceed, Inv, Apply, Enabled;
    Arrived(b, Apply(b, t, SndFrame));
    Before(b, t, SndFrame);
  }

  lemma CarriedSucceeds(b: Batch, s: State)
    requires Sane(b, s) && Carried(s) && !Answerable(s)
    ensures CanSucceed(b, s)
  {
    assert s.snd.AwaitResp? || s.snd.AwaitVerdict? ==> s.completed == s.current;
    assert s.snd.AwaitVerdict? ==> PastReq(s.rcv);
    assert s.snd.AwaitResp? ==> !s.rcv.Ended?;
    hide Inv, CanSucceed;
    match s.snd
    case AwaitResp => if s.rcv.AwaitMeta? { ByMeta(b, s); } else { ByResp(b, s); }
    case AwaitVerdict(_) => ByVerdict(b, s);
    case AwaitDone => ByDoneAck(b, s);
    case AwaitEot => ByEotAck(b, s);
  }

  // ---------- No way back ----------

  /** Not there yet, and someone has failed or waits for what can no longer come. */
  ghost predicate Lost(s: State) {
    && !s.snd.Succeeded?
    && (!s.sndAlive || !s.rcvAlive || !(Answerable(s) || Carried(s)))
  }

  lemma LostToSender(b: Batch, s: State, step: Step)
    requires Inv(b, s) && Aware(b, s) && Lost(s) && s.sndAlive && s.rcvAlive && Enabled(b, s, step)
    requires step.SndFrame? || step.SndTimeout?
    ensures Lost(Apply(b, s, step))
  {
    hide PlanAt, RespAt, AskAt, VerdictAt, BaseAt, DirAfter, DirInv, Fill, OnResp, OnVerdict;
    if step.SndFrame? {
      var g, rest := s.rev[0], s.rev[1..];
      assert RevOk(b, s, g);
      assert forall k :: 0 <= k < |rest| ==> rest[k] == s.rev[k + 1];
    }
  }

  lemma LostToReceiver(b: Batch, s: State)
    requires Inv(b, s) && Aware(b, s) && Lost(s) && s.sndAlive && s.rcvAlive && Enabled(b, s, RcvFrame)
    ensures Lost(Apply(b, s, RcvFrame))
  {
    HeadFacts(b, s);
    hide PlanAt, RespAt, AskAt, VerdictAt, BaseAt, DirAfter, DirInv, RevInv, Decide, PlanOf, PlanAfter, OnVerify, OnData;
    var rest := s.fwd[1..];
    assert forall k :: 0 <= k < |rest| ==> rest[k] == s.fwd[k + 1];
  }

  /** Without the receiver the sender never gets its last answer. */
  lemma LostAlone(b: Batch, s: State, step: Step)
    requires Inv(b, s) && Aware(b, s) && Lost(s) && (!s.sndAlive || !s.rcvAlive) && Enabled(b, s, step)
    ensures Lost(Apply(b, s, step))
  {
    hide PlanAt, RespAt, AskAt, VerdictAt, BaseAt, DirAfter, DirInv, FwdInv, Fill, OnResp, OnVerdict;
    hide ReceiverReceives, Answerable, Carried;
    if step.SndFrame? {
      assert RevOk(b, s, s.rev[0]);
    } else if step.RcvFrame? {
      SenderUntouched(b, PopFwd(s), s.fwd[0]);
    }
  }

  lemma SenderUntouched(b: Batch, s: State, f: Fwd)
    requires b.Valid()
    ensures var t := ReceiverReceives(b, s, f); t.snd == s.snd && t.sndAlive == s.sndAlive
  {
    hide Decide, PlanOf, PlanAfter, OnVerify, OnData;
  }

  /** Losing frames or parties, or the receiver's own timeout, brings nothing back. */
  lemma LostToLoss(b: Batch, s: State, step: Step)
    requires Inv(b, s) && Aware(b, s) && Lost(s) && s.sndAlive && s.rcvAlive && Enabled(b, s, step)
    requires !step.SndFrame? && !step.SndTimeout? && !step.RcvFrame?
    ensures Lost(Apply(b, s, step))
  {
    hide Inv, RespAt;
    if step.LoseFwd? {
      var rest := s.fwd[1..];
      assert forall k :: 0 <= k < |rest| ==> rest[k] == s.fwd[k + 1];
    } else if step.LoseRev? {
      var rest := s.rev[1..];
      assert forall k :: 0 <= k < |rest| ==> rest[k] == s.rev[k + 1];
    } else if step.RcvTimeout? {
      NeverLostAtRequest(b, s);
    }
  }

  lemma NeverLostAtRequest(b: Batch, s: State)
    requires Inv(b, s) && s.rcv.AwaitReq? && s.sndAlive && s.rcvAlive
    ensures s.snd.AwaitResp? && !Lost(s)
  {
    hide PlanAt, RespAt, AskAt, VerdictAt, BaseAt, DirAfter, DirInv, FwdInv, RevInv;
  }

  lemma StaysLost(b: Batch, s: State, step: Step)
    requires Inv(b, s) && Aware(b, s) && Lost(s) && Enabled(b, s, step)
    ensures Lost(Apply(b, s, step))
  {
    if !s.sndAlive || !s.rcvAlive { LostAlone(b, s, step); }
    else if step.SndFrame? || step.SndTimeout? { LostToSender(b, s, step); }
    else if step.RcvFrame? { LostToReceiver(b, s); }
    else { LostToLoss(b, s, step); }
  }

  lemma {:induction false} LostForGood(b: Batch, path: seq<State>, steps: seq<Step>, n: nat)
    requires IsPath(b, path, steps) && n < |path| && Inv(b, path[0]) && Aware(b, path[0]) && Lost(path[0])
    ensures Inv(b, path[n]) && Aware(b, path[n]) && Lost(path[n])
  {
    hide Inv, Aware, Lost, Enabled, Apply;
    if n > 0 {
      LostForGood(b, path, steps, n - 1);
      assert Enabled(b, path[n - 1], steps[n - 1]);
      StepKeeps(b, path[n - 1], steps[n - 1]);
      StaysAware(b, path[n - 1], steps[n - 1]);
      StaysLost(b, path[n - 1], steps[n - 1]);
    }
  }

  // ---------- The theorem ----------

  /**
    With a window of one packet, in every state of every run, after whatever losses
    and timeouts: success is still possible if and only if it has happened, or both
    parties are well and either the sender's next resend will be answered or the one
    frame that nobody resends (metadata, an offer without VERIFY, a VERIFY result,
    DONE_ACK or EOT_ACK) has not been lost.
   */
  lemma RecoversIff(b: Batch, run: seq<State>, steps: seq<Step>, n: nat)
    requires IsRun(b, run, steps) && b.StopAndWait() && n < |run|
    ensures var s := run[n];
            CanSucceed(b, s) <==> s.snd.Succeeded? || (s.sndAlive && s.rcvAlive && (Answerable(s) || Carried(s)))
  {
    var s := run[n];
    RunsStayAware(b, run, steps, n);
    assert b.Valid();
    hide Inv, Aware, Answerable, Carried;
    if s.snd.Succeeded? {
      Arrived(b, s);
    } else if s.sndAlive && s.rcvAlive && (Answerable(s) || Carried(s)) {
      if Answerable(s) { AnswerableSucceeds(b, s); } else { CarriedSucceeds(b, s); }
    } else if CanSucceed(b, s) {
      var path: seq<State>, more: seq<Step> :|
        IsPath(b, path, more) && path[0] == s && path[|path| - 1].snd.Succeeded?;
      LostForGood(b, path, more, |path| - 1);
    }
  }

  /** In NEVER mode a receiver that stops waiting for the request leaves the sender without an answer for good. */
  lemma FallbackIsFatal(b: Batch, run: seq<State>, steps: seq<Step>, n: nat)
    requires IsRun(b, run, steps) && b.StopAndWait() && n < |steps| && steps[n] == RcvTimeout
    ensures !CanSucceed(b, run[n + 1])
  {
    var s, t := run[n], run[n + 1];
    assert Enabled(b, s, steps[n]) && t == Apply(b, s, steps[n]);
    RunsStayAware(b, run, steps, n);
    RecoversIff(b, run, steps, n + 1);
    hide CanSucceed, PlanAt, RespAt, AskAt, VerdictAt, BaseAt, DirAfter, DirInv, FwdInv, Aware;
    if s.sndAlive {
      NeverLostAtRequest(b, s);
      forall k | 0 <= k < |t.rev| ensures !t.rev[k].ResumeResp? {
        if k < |s.rev| {
          assert RevOk(b, s, s.rev[k]);
        }
      }
    } else {
      WaitsAtRequest(b, s);
    }
  }

  lemma WaitsAtRequest(b: Batch, s: State)
    requires Inv(b, s) && s.rcv.AwaitReq?
    ensures s.snd.AwaitResp?
  {
    hide PlanAt, RespAt, AskAt, VerdictAt, BaseAt, DirAfter, DirInv, FwdInv, RevInv;
  }
}
