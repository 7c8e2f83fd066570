/**
  The other half of the batch theorem: when nothing is lost and nobody times out, no
  batch fails or gets stuck, whatever the windows. Somebody is always due to act, every
  delivery uses up work, and the run ends in success on both sides with every file in
  place.
 */
module SessionProgress {
  import opened Crc32
  import opened DataPhase
  import opened Resume
  import opened Session
  import opened SessionProof
  import L = LosslessTransfer

  /** Deliveries only: no loss, no timeout, nobody gives up. */
  predicate Quiet(step: Step) { step.SndFrame? || step.RcvFrame? }

  // ---------- What is under way ----------

  /** The frames are DATA, consecutive true cuts of src[from..to]. */
  ghost predicate Cuts(src: seq<Byte>, fs: seq<Fwd>, from: nat, to: nat)
    requires to <= |src|
  {
    && (forall k :: 0 <= k < |fs| ==> fs[k].Data?)
    && L.Aligned(src, seq(|fs|, k requires 0 <= k < |fs| && fs[k].Data? => fs[k].chunk), from, to)
  }

  /** The frames are acknowledgements rising from `from` to `to`. */
  ghost predicate Climbs(gs: seq<Rev>, from: nat, to: nat) {
    && (forall k :: 0 <= k < |gs| ==> gs[k].Reply?)
    && L.Rising(seq(|gs|, k requires 0 <= k < |gs| && gs[k].Reply? => gs[k].reply), from, to)
  }

  lemma CutsPop(src: seq<Byte>, fs: seq<Fwd>, from: nat, to: nat)
    requires to <= |src| && Cuts(src, fs, from, to) && fs != []
    ensures fs[0].Data?
    ensures var c := fs[0].chunk;
            && c.bytes != [] && from + |c.bytes| <= to && c.bytes == src[from..from + |c.bytes|]
            && (c.offset.None? || c.offset.value == from)
            && Cuts(src, fs[1..], from + |c.bytes|, to)
  {
    var cs := seq(|fs|, k requires 0 <= k < |fs| && fs[k].Data? => fs[k].chunk);
    var rest := fs[1..];
    assert forall k :: 0 <= k < |rest| ==> rest[k] == fs[k + 1];
    assert seq(|rest|, k requires 0 <= k < |rest| && rest[k].Data? => rest[k].chunk) == cs[1..];
  }

  lemma CutsEmpty(src: seq<Byte>, fs: seq<Fwd>, from: nat, to: nat)
    requires to <= |src| && Cuts(src, fs, from, to)
    ensures from <= to && (from == to ==> fs == [])
  {
    L.AlignedBounds(src, seq(|fs|, k requires 0 <= k < |fs| && fs[k].Data? => fs[k].chunk), from, to);
  }

  lemma ClimbsPop(gs: seq<Rev>, from: nat, to: nat)
    requires Climbs(gs, from, to) && gs != []
    ensures gs[0].Reply? && gs[0].reply.DataAck? && from < gs[0].reply.offset <= to
    ensures Climbs(gs[1..], gs[0].reply.offset, to)
    ensures gs[0].reply.offset == to ==> |gs| == 1
  {
    var rs := seq(|gs|, k requires 0 <= k < |gs| && gs[k].Reply? => gs[k].reply);
    var rest := gs[1..];
    assert forall k :: 0 <= k < |rest| ==> rest[k] == gs[k + 1];
    assert seq(|rest|, k requires 0 <= k < |rest| && rest[k].Reply? => rest[k].reply) == rs[1..];
    L.RisingBounds(rs[1..], rs[0].offset, to);
  }

  lemma ClimbsPush(gs: seq<Rev>, from: nat, mid: nat, to: nat)
    requires Climbs(gs, from, mid) && mid < to
    ensures Climbs(gs + [Reply(DataAck(to))], from, to)
  {
    var rs := seq(|gs|, k requires 0 <= k < |gs| && gs[k].Reply? => gs[k].reply);
    var more := gs + [Reply(DataAck(to))];
    assert seq(|more|, k requires 0 <= k < |more| && more[k].Reply? => more[k].reply) == rs + [DataAck(to)];
    L.RisingAppend(rs, from, mid, to);
  }

  // ---------- Filling a window of any size ----------

  /** A fill cuts what lies ahead, in order, each cut where its offset says. */
  lemma {:induction false} FillIsAligned(src: seq<Byte>, tx: Tx, maxPayload: nat)
    requires maxPayload > 8 && tx.next <= |src|
    ensures var (tx', cs) := Fill(src, tx, maxPayload);
            && tx'.next <= |src| && L.Aligned(src, cs, tx.next, tx'.next)
            && |cs| <= tx'.next - tx.next
            && (tx.inflight < tx.win && tx.next < |src| ==> cs != [])
    decreases |src| - tx.next
  {
    if tx.inflight < tx.win && tx.next < |src| {
      var tx1 := AfterSend(|src|, tx, maxPayload);
      FillIsAligned(src, tx1, maxPayload);
      var c, rest := NextChunk(src, tx, maxPayload), Fill(src, tx1, maxPayload).1;
      assert ([c] + rest)[1..] == rest;
    }
  }

  // ---------- Who is due ----------

  ghost predicate AtRequest(b: Batch, s: State)
    requires b.Valid() && s.current < |b.files|
  {
    || (s.rcv.AwaitMeta? && s.fwd == [Meta(b.files[s.current].name, |Src(b, s.current)|), ResumeReq] && s.rev == [])
    || (s.rcv.AwaitReq? && s.fwd == [ResumeReq] && s.rev == [])
    || (s.fwd == [] && s.rev == [ResumeResp(RespAt(b, s.current))] && PastReq(s.rcv) && NoDataYet(b, s)
        && (s.rcv.AwaitVerify? <==> RespAt(b, s.current).action == VerifyFirst))
  }

  ghost predicate AtVerdict(b: Batch, s: State, ask: Choice)
    requires b.Valid() && s.current < |b.files|
  {
    && ask == AskAt(b, s.current) && ask.AskVerify? && RespAt(b, s.current).action == VerifyFirst
    && (|| (s.rcv.AwaitVerify? && s.fwd == [Verify(ask.start, ask.crc, ask.length)] && s.rev == [])
        || ((s.rcv.Receiving? || s.rcv.Skipping?) && NoDataYet(b, s)
            && s.fwd == [] && s.rev == [VerifyResult(VerdictAt(b, s.current))]))
  }

  ghost predicate AtData(b: Batch, s: State, tx: Tx)
    requires b.Valid() && s.current < |b.files|
  {
    && s.rcv.Receiving? && tx.acked < tx.next <= |Src(b, s.current)| && tx.win == b.windows[s.current]
    && Cuts(Src(b, s.current), s.fwd, s.rcv.written, tx.next)
    && Climbs(s.rev, tx.acked, s.rcv.written)
  }

  ghost predicate AtDone(b: Batch, s: State)
    requires b.Valid() && s.current < |b.files|
  {
    if s.completed == s.current then
      && s.fwd == [Done] && s.rev == []
      && (s.rcv.Skipping? || (s.rcv.Receiving? && s.rcv.written == s.rcv.size))
    else s.completed == s.current + 1 && s.rcv.AwaitMeta? && s.fwd == [] && s.rev == [DoneAck]
  }

  ghost predicate AtEot(b: Batch, s: State) {
    && s.current == |b.files|
    && (|| (s.rcv.AwaitMeta? && s.fwd == [Eot] && s.rev == [])
        || (s.rcv.Ended? && s.fwd == [] && s.rev == [EotAck]))
  }

  ghost predicate Due(b: Batch, s: State)
    requires b.Valid() && Located(b, s)
  {
    match s.snd
    case AwaitResp => AtRequest(b, s)
    case AwaitVerdict(ask) => AtVerdict(b, s, ask)
    case Sending(tx) => AtData(b, s, tx)
    case AwaitDone => AtDone(b, s)
    case AwaitEot => AtEot(b, s)
    case Succeeded => s.current == |b.files| && s.rcv.Ended? && s.fwd == [] && s.rev == []
  }

  ghost predicate InStep(b: Batch, s: State) {
    && b.Valid() && Located(b, s) && s.sndAlive && s.rcvAlive
    && (!s.snd.AwaitDone? ==> s.completed == s.current)
    && (s.completed == s.current ==> RcvInv(b, s))
    && DirInv(b, s) && Due(b, s)
  }

  // ---------- Work left ----------

  /** Deliveries the files from `i` on may still take, closing included. */
  ghost function Ahead(b: Batch, i: nat): nat
    requires i <= |b.files|
    decreases |b.files| - i
  {
    if i == |b.files| then 3 else 11 + 4 * |Src(b, i)| + Ahead(b, i + 1)
  }

  /** Deliveries the current file may still take. */
  ghost function Left(b: Batch, s: State): nat
    requires Located(b, s)
  {
    var due := if s.rev != [] then 0 else 1;
    match s.snd
    case AwaitResp => 4 * |Src(b, s.current)| + (if s.rcv.AwaitMeta? then 10 else 8 + due)
    case AwaitVerdict(_) => 4 * |Src(b, s.current)| + 6 + due
    case Sending(tx) =>
      (if tx.next < |Src(b, s.current)| then 4 * (|Src(b, s.current)| - tx.next) else 0) + 2 * |s.fwd| + |s.rev| + 3
    case AwaitDone => 1 + due
    case AwaitEot => 1 + due
    case Succeeded => 0
  }

  ghost function Work(b: Batch, s: State): nat
    requires Located(b, s)
  {
    Left(b, s) + if s.current < |b.files| then Ahead(b, s.current + 1) else 0
  }

  /** `s'` is in step again and has less to do. */
  ghost predicate Advances(b: Batch, s: State, s': State)
    requires Located(b, s)
  {
    InStep(b, s') && Work(b, s') < Work(b, s)
  }

  /** `s'` is on the same file, everybody alive, its target as it should be. */
  ghost predicate Sound(b: Batch, s: State, s': State)
    requires b.Valid()
  {
    && s'.current == s.current && s'.completed == s.completed && s'.sndAlive && s'.rcvAlive
    && RcvInv(b, s') && DirInv(b, s')
  }

  // ---------- The receiver is due ----------

  lemma TakesMeta(b: Batch, s: State)
    requires InStep(b, s) && s.fwd != [] && s.snd.AwaitResp? && s.rcv.AwaitMeta?
    ensures Advances(b, s, ReceiverReceives(b, PopFwd(s), s.fwd[0]))
  {
    hide PlanAt, RespAt, DirAfter, BaseAt, Ahead;
    assert s.fwd[1..] == [ResumeReq];
  }

  /** Opening the target leaves it as the reference says. */
  lemma OpensSoundly(b: Batch, s: State, gs: seq<Rev>)
    requires InStep(b, s) && s.completed == s.current < |b.files| && (s.rcv.AwaitReq? || s.rcv.AwaitVerify?)
    ensures Sound(b, s, Carry(Respond(s, gs), s.rcv.name, s.rcv.size, PlanAt(b, s.current)))
    ensures NoDataYet(b, Carry(Respond(s, gs), s.rcv.name, s.rcv.size, PlanAt(b, s.current)))
  {
    var s' := Carry(Respond(s, gs), s.rcv.name, s.rcv.size, PlanAt(b, s.current));
    CarryDir(b, s, gs);
    OpenedRcv(b, s, s');
    hide PlanAt, Due, RcvInv, DirInv;
  }

  lemma RespReady(b: Batch, s: State, s': State)
    requires InStep(b, s) && s.snd.AwaitResp? && s.rcv.AwaitReq? && Sound(b, s, s') && s'.snd == s.snd
    requires s'.fwd == [] && s'.rev == [ResumeResp(RespAt(b, s.current))] && PastReq(s'.rcv) && NoDataYet(b, s')
    requires s'.rcv.AwaitVerify? <==> RespAt(b, s.current).action == VerifyFirst
    ensures Advances(b, s, s')
  {
    hide RespAt, Ahead, Src, RcvInv, DirInv, NoDataYet;
  }

  lemma TakesRequest(b: Batch, s: State)
    requires InStep(b, s) && s.fwd != [] && s.snd.AwaitResp? && s.rcv.AwaitReq?
    ensures Advances(b, s, ReceiverReceives(b, PopFwd(s), s.fwd[0]))
  {
    var i, p := s.current, PopFwd(s);
    var resp := RespAt(b, i);
    LookupIsPrior(b, s);
    assert resp == Decide(b.cfg, Lookup(s.dir, s.rcv.name), s.rcv.size);
    assert p.fwd == [] && s.fwd[0] == ResumeReq;
    var s' := ReceiverReceives(b, p, s.fwd[0]);
    hide PlanAt, RespAt, DirAfter, BaseAt, Decide, PlanOf, Advances;
    if resp.action == VerifyFirst {
      assert s' == Respond(p, [ResumeResp(resp)]).(rcv := AwaitVerify(s.rcv.name, s.rcv.size, resp));
    } else {
      DirectOffer(b, i);
      OpensSoundly(b, s, [ResumeResp(resp)]);
      SameButPopped(b, s, [ResumeResp(resp)]);
    }
    RespReady(b, s, s');
  }

  /** Popping the frame first changes neither the target nor the receiver. */
  lemma SameButPopped(b: Batch, s: State, gs: seq<Rev>)
    requires b.Valid() && s.fwd != [] && s.current < |b.files| && (s.rcv.AwaitReq? || s.rcv.AwaitVerify?)
    ensures var t := Carry(Respond(s, gs), s.rcv.name, s.rcv.size, PlanAt(b, s.current));
            var u := Carry(Respond(PopFwd(s), gs), s.rcv.name, s.rcv.size, PlanAt(b, s.current));
            && (Sound(b, s, t) ==> Sound(b, s, u)) && (NoDataYet(b, t) ==> NoDataYet(b, u))
            && u.rev == s.rev + gs && u.fwd == s.fwd[1..] && u.snd == s.snd && (u.rcv.Receiving? || u.rcv.Skipping?)
  {
    hide PlanAt, RespAt, DirAfter, BaseAt;
  }

  lemma VerdictReady(b: Batch, s: State, s': State)
    requires InStep(b, s) && s.snd.AwaitVerdict? && s.fwd != [] && Sound(b, s, s') && s'.snd == s.snd
    requires s'.fwd == [] && s'.rev == [VerifyResult(VerdictAt(b, s.current))]
    requires (s'.rcv.Receiving? || s'.rcv.Skipping?) && NoDataYet(b, s')
    ensures Advances(b, s, s')
  {
    hide VerdictAt, RespAt, AskAt, Ahead, Src, RcvInv, DirInv, NoDataYet;
  }

  /** The verdict and the plan are the ones the reference calls for. */
  lemma VerifyForm(b: Batch, s: State)
    requires InStep(b, s) && s.fwd != [] && s.snd.AwaitVerdict?
    ensures ReceiverReceives(b, PopFwd(s), s.fwd[0])
         == Carry(Respond(PopFwd(s), [VerifyResult(VerdictAt(b, s.current))]), s.rcv.name, s.rcv.size, PlanAt(b, s.current))
  {
    LookupIsPrior(b, s);
    VerifiedOffer(b, s.current);
    hide PlanAt, RespAt, AskAt, VerdictAt, OnVerify, PlanAfter, DirAfter, BaseAt, Carry;
  }

  lemma TakesVerify(b: Batch, s: State)
    requires InStep(b, s) && s.fwd != [] && s.snd.AwaitVerdict?
    ensures Advances(b, s, ReceiverReceives(b, PopFwd(s), s.fwd[0]))
  {
    var gs := [VerifyResult(VerdictAt(b, s.current))];
    VerifyForm(b, s);
    OpensSoundly(b, s, gs);
    SameButPopped(b, s, gs);
    hide PlanAt, RespAt, AskAt, VerdictAt, ReceiverReceives, Advances, RcvInv, DirInv, Sound, NoDataYet, Carry;
    assert s.fwd[1..] == [] && s.rev == [];
    VerdictReady(b, s, ReceiverReceives(b, PopFwd(s), s.fwd[0]));
  }

  lemma AckReady(b: Batch, s: State, s': State, w: nat)
    requires InStep(b, s) && s.snd.Sending? && s.fwd != [] && Sound(b, s, s') && s'.snd == s.snd
    requires s'.rcv.Receiving? && s'.rcv.written == w && s'.fwd == s.fwd[1..] && |s'.rev| == |s.rev| + 1
    requires Cuts(Src(b, s.current), s'.fwd, w, s.snd.tx.next) && Climbs(s'.rev, s.snd.tx.acked, w)
    ensures Advances(b, s, s')
  {
    hide Ahead, Src, RcvInv, DirInv, Cuts, Climbs;
  }

  /** The next DATA is the cut the receiver is waiting for. */
  lemma DataArrives(b: Batch, s: State)
    requires InStep(b, s) && s.fwd != [] && s.snd.Sending?
    ensures s.rcv.Receiving? && s.fwd[0].Data?
    ensures var src, w, c, tx := Src(b, s.current), s.rcv.written, s.fwd[0].chunk, s.snd.tx;
            && w + |c.bytes| <= tx.next <= |src| && c.bytes == src[w..w + |c.bytes|]
            && (c.offset.None? || c.offset.value == w)
            && Cuts(src, s.fwd[1..], w + |c.bytes|, tx.next)
            && Climbs(s.rev + [Reply(DataAck(w + |c.bytes|))], tx.acked, w + |c.bytes|)
  {
    hide Cuts, Climbs, RcvInv, DirInv;
    CutsPop(Src(b, s.current), s.fwd, s.rcv.written, s.snd.tx.next);
    ClimbsPush(s.rev, s.snd.tx.acked, s.rcv.written, s.rcv.written + |s.fwd[0].chunk.bytes|);
  }

  /** In order, so written and acknowledged, whether or not it carries its offset. */
  lemma TakesData(b: Batch, s: State)
    requires InStep(b, s) && s.fwd != [] && s.snd.Sending?
    ensures Advances(b, s, ReceiverReceives(b, PopFwd(s), s.fwd[0]))
  {
    hide Cuts, Climbs, TakeChunk, RcvInv, DirInv, Advances, Src, PlanAt, Sound, Due;
    DataArrives(b, s);
    var c := s.fwd[0].chunk;
    DataKeeps(b, s, c);
    TakeChunkForm(PopFwd(s), c);
    AckReady(b, s, TakeChunk(PopFwd(s), c), s.rcv.written + |c.bytes|);
  }

  lemma DataKeeps(b: Batch, s: State, c: Chunk)
    requires InStep(b, s) && s.fwd != [] && s.snd.Sending?
    requires s.rcv.written <= s.rcv.written + |c.bytes| <= |Src(b, s.current)|
    requires c.bytes == Src(b, s.current)[s.rcv.written..s.rcv.written + |c.bytes|]
    ensures s.rcv.name in s.dir
    ensures var e := s.rcv.written + |c.bytes|;
            Sound(b, s, Respond(PopFwd(s).(rcv := Receiving(s.rcv.name, s.rcv.size, e),
                                           dir := s.dir[s.rcv.name := s.dir[s.rcv.name] + c.bytes]), [Reply(DataAck(e))]))
  {
    TakenBytes(b, s, c);
    hide PlanAt, DirAfter, BaseAt, Due;
  }

  lemma TakesDone(b: Batch, s: State)
    requires InStep(b, s) && s.fwd != [] && s.snd.AwaitDone?
    ensures Advances(b, s, ReceiverReceives(b, PopFwd(s), s.fwd[0]))
  {
    hide PlanAt, RespAt, DirAfter, BaseAt, Ahead;
    assert s.fwd == [Done] && s.completed == s.current;
    DoneDir(b, s);
    assert ReceiverReceives(b, PopFwd(s), s.fwd[0]) == Complete(PopFwd(s));
    hide RcvInv, ReceiverReceives;
    assert DirInv(b, Complete(PopFwd(s)));
    hide DirInv;
    assert s.fwd[1..] == [];
  }

  lemma TakesEot(b: Batch, s: State)
    requires InStep(b, s) && s.fwd != [] && s.snd.AwaitEot?
    ensures Advances(b, s, ReceiverReceives(b, PopFwd(s), s.fwd[0]))
  {
    hide PlanAt, RespAt, DirAfter, BaseAt, Ahead;
    assert s.fwd[1..] == [];
  }

  lemma ReceiverAdvances(b: Batch, s: State)
    requires InStep(b, s) && Enabled(b, s, RcvFrame)
    ensures Advances(b, s, Apply(b, s, RcvFrame))
  {
    hide ReceiverReceives, Advances, RcvInv, DirInv, Cuts, Climbs, RespAt, AskAt, VerdictAt;
    match s.snd
    case AwaitResp =>
      if s.rcv.AwaitMeta? { TakesMeta(b, s); } else { TakesRequest(b, s); }
    case AwaitVerdict(_) => TakesVerify(b, s);
    case Sending(_) => TakesData(b, s);
    case AwaitDone => TakesDone(b, s);
    case AwaitEot => TakesEot(b, s);
  }

  // ---------- The sender is due ----------

  /** Nothing is under way and the receiver stands where the plan puts it. */
  ghost predicate Drained(b: Batch, s: State) {
    && b.Valid() && s.current < |b.files| && s.sndAlive && s.rcvAlive && s.fwd == [] && s.rev == []
    && s.completed == s.current && RcvInv(b, s) && DirInv(b, s)
  }

  lemma FillCuts(src: seq<Byte>, a: nat, win: nat, maxPayload: nat)
    requires maxPayload > 8 && a < |src| && win >= 1
    ensures var (tx, cs) := Fill(src, Tx(a, a, 0, win), maxPayload);
            && tx.acked == a < tx.next <= |src| && tx.win == win
            && Cuts(src, Chunks(cs), a, tx.next) && |Chunks(cs)| <= tx.next - a
  {
    FillIsAligned(src, Tx(a, a, 0, win), maxPayload);
    hide Fill;
    var (tx, cs) := Fill(src, Tx(a, a, 0, win), maxPayload);
    var fs := Chunks(cs);
    assert seq(|fs|, k requires 0 <= k < |fs| && fs[k].Data? => fs[k].chunk) == cs;
    L.AlignedBounds(src, cs, a, tx.next);
  }

  /** A window from `a` on, where the receiver stands. */
  lemma SendsFrom(b: Batch, s: State, a: nat)
    requires Drained(b, s) && s.rcv.Receiving? && s.rcv.written == a < |Src(b, s.current)|
    ensures var s' := RefillWindow(b, s, Tx(a, a, 0, b.windows[s.current]));
            && InStep(b, s') && s'.current == s.current && Left(b, s') <= 4 * (|Src(b, s.current)| - a) + 1
  {
    FillCuts(Src(b, s.current), a, b.windows[s.current], b.maxPayload);
    hide Fill, PlanAt, DirAfter, BaseAt, Cuts, Chunks;
    var fs := Chunks(Fill(Src(b, s.current), Tx(a, a, 0, b.windows[s.current]), b.maxPayload).1);
    assert s.fwd + fs == fs;
    assert Climbs([], a, a);
    hide Climbs;
  }

  lemma NothingToSend(b: Batch, s: State)
    requires Drained(b, s) && (s.rcv.Skipping? || (s.rcv.Receiving? && s.rcv.written == s.rcv.size))
    ensures InStep(b, Push(s.(snd := AwaitDone), [Done]))
  {
    hide PlanAt, DirAfter, BaseAt;
  }

  /** Data from `a` on, or DONE if nothing is left. */
  lemma Proceeds(b: Batch, s: State, a: nat)
    requires Drained(b, s) && s.rcv.Receiving? && s.rcv.written == a <= |Src(b, s.current)|
    ensures var s' := Proceed(b, s, Tx(a, a, 0, b.windows[s.current]));
            && InStep(b, s') && s'.current == s.current && Left(b, s') <= 4 * (|Src(b, s.current)| - a) + 2
  {
    if a < |Src(b, s.current)| { SendsFrom(b, s, a); } else { NothingToSend(b, s); }
    hide RefillWindow, InStep, PlanAt;
  }

  /** A choice that fits the plan leads to data or straight to DONE. */
  lemma ActAdvances(b: Batch, s: State, c: Choice)
    requires Drained(b, s) && NoDataYet(b, s) && (s.rcv.Receiving? || s.rcv.Skipping?)
    requires Fits(c, PlanAt(b, s.current), |Src(b, s.current)|)
    ensures var s' := Act(b, s, c);
            InStep(b, s') && s'.current == s.current && Left(b, s') <= 4 + 4 * |Src(b, s.current)|
  {
    hide PlanAt, RespAt, AskAt, VerdictAt, BaseAt, DirAfter, DirInv, Proceed;
    var s' := Act(b, s, c);
    if c.Begin? && c.offset < |Src(b, s.current)| {
      Proceeds(b, s, c.offset);
      assert s' == Proceed(b, s, Tx(c.offset, c.offset, 0, b.windows[s.current]));
    } else {
      NothingToSend(b, s);
      assert s' == Push(s.(snd := AwaitDone), [Done]) by { StraightToDone(b, s, c); }
    }
  }

  lemma StraightToDone(b: Batch, s: State, c: Choice)
    requires b.Valid() && s.current < |b.files| && (c.SkipIt? || (c.Begin? && c.offset >= |Src(b, s.current)|))
    ensures Act(b, s, c) == Push(s.(snd := AwaitDone), [Done])
  {}

  lemma VerifyAsked(b: Batch, s: State, s': State)
    requires InStep(b, s) && s.snd.AwaitResp? && s.rev != [] && RespAt(b, s.current).action == VerifyFirst
    requires AskAt(b, s.current).AskVerify?
    requires var ask := AskAt(b, s.current);
             s' == PopRev(s).(snd := AwaitVerdict(ask), fwd := [Verify(ask.start, ask.crc, ask.length)])
    ensures Advances(b, s, s')
  {
    hide RespAt, AskAt, VerdictAt, PlanAt, DirAfter, BaseAt, Ahead;
    assert s.rev[1..] == [];
  }

  lemma TakesVerifyOffer(b: Batch, s: State)
    requires InStep(b, s) && s.rev != [] && s.snd.AwaitResp? && RespAt(b, s.current).action == VerifyFirst
    ensures Advances(b, s, SenderReceives(b, PopRev(s), s.rev[0]))
  {
    var p := PopRev(s);
    assert p.fwd == [] && s.rev[0] == ResumeResp(RespAt(b, s.current));
    VerifiedOffer(b, s.current);
    VerifyOfferForm(b, p, RespAt(b, s.current));
    hide InStep, RespAt, OnResp, Advances, SenderReceives, Act, OnVerify, Prior;
    VerifyAsked(b, s, SenderReceives(b, p, s.rev[0]));
  }

  lemma VerifyOfferForm(b: Batch, p: State, r: Resp)
    requires b.Valid() && Located(b, p) && p.snd.AwaitResp? && p.fwd == [] && OnResp(r, Src(b, p.current)).AskVerify?
    ensures var ask := OnResp(r, Src(b, p.current));
            SenderReceives(b, p, ResumeResp(r))
            == p.(snd := AwaitVerdict(ask), fwd := [Verify(ask.start, ask.crc, ask.length)])
  {
    hide OnResp;
    assert forall f: Fwd :: [] + [f] == [f];
  }

  lemma Acted(b: Batch, s: State, s': State)
    requires Located(b, s) && (s.snd.AwaitResp? || s.snd.AwaitVerdict?) && s.rev != [] && !s.rcv.AwaitMeta?
    requires InStep(b, s') && s'.current == s.current && Left(b, s') <= 4 + 4 * |Src(b, s.current)|
    ensures Advances(b, s, s')
  {
    hide InStep, Ahead;
  }

  lemma TakesDirectOffer(b: Batch, s: State)
    requires InStep(b, s) && s.rev != [] && s.snd.AwaitResp? && RespAt(b, s.current).action != VerifyFirst
    ensures Advances(b, s, SenderReceives(b, PopRev(s), s.rev[0]))
  {
    var p := PopRev(s);
    DirectOffer(b, s.current);
    assert p.rev == [] && Drained(b, p) && NoDataYet(b, p);
    hide RcvInv, DirInv, NoDataYet, PlanAt, RespAt, VerdictAt, OnResp, Act, Fits, Advances, Left, Drained;
    ActAdvances(b, p, AskAt(b, s.current));
    Acted(b, s, SenderReceives(b, p, s.rev[0]));
  }

  lemma VerdictDrains(b: Batch, s: State)
    requires InStep(b, s) && s.rev != [] && s.snd.AwaitVerdict?
    ensures Drained(b, PopRev(s)) && NoDataYet(b, PopRev(s)) && (s.rcv.Receiving? || s.rcv.Skipping?)
    ensures s.rev[0] == VerifyResult(VerdictAt(b, s.current))
    ensures s.snd.ask == AskAt(b, s.current) && s.snd.ask.AskVerify? && RespAt(b, s.current).action == VerifyFirst
  {
    hide PlanAt, RespAt, AskAt, VerdictAt, DirAfter, BaseAt;
    assert s.rev[1..] == [];
  }

  lemma TakesVerdict(b: Batch, s: State)
    requires InStep(b, s) && s.rev != [] && s.snd.AwaitVerdict?
    ensures Advances(b, s, SenderReceives(b, PopRev(s), s.rev[0]))
  {
    var i, p := s.current, PopRev(s);
    VerdictDrains(b, s);
    VerifiedOffer(b, i);
    hide InStep, Drained, NoDataYet, PlanAt, RespAt, AskAt, VerdictAt, OnVerdict, Act, Fits, Advances, Left;
    ActAdvances(b, p, OnVerdict(VerdictAt(b, i), s.snd.ask.end));
    Acted(b, s, SenderReceives(b, p, s.rev[0]));
  }

  /** An acknowledgement inside the window only moves the acknowledged offset. */
  lemma TakesEarlyAck(b: Batch, s: State)
    requires InStep(b, s) && s.rev != [] && s.snd.Sending?
    requires s.rev[0].Reply? && s.rev[0].reply.DataAck? && s.rev[0].reply.offset < s.snd.tx.next
    ensures Advances(b, s, SenderReceives(b, PopRev(s), s.rev[0]))
  {
    var off := s.rev[0].reply.offset;
    ClimbsPop(s.rev, s.snd.tx.acked, s.rcv.written);
    hide PlanAt, DirAfter, BaseAt, Cuts, Climbs, Advances;
    WindowMoves(b, s, OnAck(s.snd.tx, off, b.maxPayload));
  }

  lemma WindowMoves(b: Batch, s: State, tx: Tx)
    requires InStep(b, s) && s.rev != [] && s.snd.Sending?
    requires s.snd.tx.acked < tx.acked < tx.next == s.snd.tx.next && tx.win == s.snd.tx.win
    requires Climbs(s.rev[1..], tx.acked, s.rcv.written)
    ensures Advances(b, s, PopRev(s).(snd := Sending(tx)))
  {
    hide PlanAt, DirAfter, BaseAt, Ahead, Cuts, Climbs;
  }

  /** The last acknowledgement of a window finds both pipes empty. */
  lemma TakesLastAck(b: Batch, s: State)
    requires InStep(b, s) && s.rev != [] && s.snd.Sending?
    requires s.rev[0].Reply? && s.rev[0].reply.DataAck? && s.rev[0].reply.offset >= s.snd.tx.next
    ensures Advances(b, s, SenderReceives(b, PopRev(s), s.rev[0]))
  {
    var tx, p := s.snd.tx, PopRev(s);
    LastAckDrains(b, s);
    hide InStep, Drained, SenderReceives, Proceed, Advances, Left;
    LastAckForm(b, p, tx.next);
    Proceeds(b, p, tx.next);
    WindowDone(b, s, SenderReceives(b, p, s.rev[0]));
  }

  lemma WindowDone(b: Batch, s: State, s': State)
    requires Located(b, s) && s.snd.Sending? && s.rev != [] && InStep(b, s') && s'.current == s.current
    requires s.snd.tx.next <= |Src(b, s.current)| && Left(b, s') <= 4 * (|Src(b, s.current)| - s.snd.tx.next) + 2
    ensures Advances(b, s, s')
  {
    hide InStep, Ahead;
  }

  lemma LastAckForm(b: Batch, p: State, off: nat)
    requires b.Valid() && Located(b, p) && p.snd.Sending? && p.snd.tx.acked < p.snd.tx.next == off
    ensures SenderReceives(b, p, Reply(DataAck(off))) == Proceed(b, p, Tx(off, off, 0, p.snd.tx.win))
  {
    WholeAck(p.snd.tx, b.maxPayload);
    hide OnAck, Proceed;
  }

  lemma LastAckDrains(b: Batch, s: State)
    requires InStep(b, s) && s.rev != [] && s.snd.Sending?
    requires s.rev[0].Reply? && s.rev[0].reply.DataAck? && s.rev[0].reply.offset >= s.snd.tx.next
    ensures var tx := s.snd.tx;
            && Drained(b, PopRev(s)) && s.rcv.Receiving? && s.rcv.written == tx.next == s.rev[0].reply.offset
            && tx.acked < tx.next <= |Src(b, s.current)| && tx.win == b.windows[s.current] && |s.rev| == 1
  {
    ClimbsPop(s.rev, s.snd.tx.acked, s.rcv.written);
    CutsEmpty(Src(b, s.current), s.fwd, s.rcv.written, s.snd.tx.next);
    hide PlanAt, DirAfter, BaseAt, Cuts, Climbs;
  }

  lemma TakesDoneAck(b: Batch, s: State)
    requires InStep(b, s) && s.rev != [] && s.snd.AwaitDone?
    ensures Advances(b, s, SenderReceives(b, PopRev(s), s.rev[0]))
  {
    hide PlanAt, RespAt, DirAfter, BaseAt;
    assert s.rev[1..] == [];
  }

  lemma TakesEotAck(b: Batch, s: State)
    requires InStep(b, s) && s.rev != [] && s.snd.AwaitEot?
    ensures Advances(b, s, SenderReceives(b, PopRev(s), s.rev[0]))
  {
    hide PlanAt, RespAt, DirAfter, BaseAt, Ahead;
    assert s.rev[1..] == [];
  }

  lemma SenderAdvances(b: Batch, s: State)
    requires InStep(b, s) && Enabled(b, s, SndFrame)
    ensures Advances(b, s, Apply(b, s, SndFrame))
  {
    hide SenderReceives, Advances, RcvInv, DirInv, Cuts, Climbs, RespAt, AskAt, VerdictAt;
    match s.snd
    case AwaitResp =>
      if RespAt(b, s.current).action == VerifyFirst { TakesVerifyOffer(b, s); } else { TakesDirectOffer(b, s); }
    case AwaitVerdict(_) => TakesVerdict(b, s);
    case Sending(tx) =>
      ClimbsPop(s.rev, tx.acked, s.rcv.written);
      if s.rev[0].reply.offset < tx.next { TakesEarlyAck(b, s); } else { TakesLastAck(b, s); }
    case AwaitDone => TakesDoneAck(b, s);
    case AwaitEot => TakesEotAck(b, s);
  }

  // ---------- Whole runs ----------

  /** Somebody is due until both sides are finished. */
  lemma SomeoneIsDue(b: Batch, s: State)
    requires InStep(b, s) && !s.snd.Succeeded?
    ensures Enabled(b, s, SndFrame) || Enabled(b, s, RcvFrame)
  {
    hide RespAt, AskAt, VerdictAt, RcvInv, DirInv, Cuts, Climbs;
    if s.snd.Sending? && s.rev == [] {
      EmptyPipes(b, s);
    }
  }

  lemma EmptyPipes(b: Batch, s: State)
    requires InStep(b, s) && s.snd.Sending? && s.rev == []
    ensures s.fwd != []
  {
    assert s.snd.tx.acked == s.rcv.written;
  }

  ghost predicate QuietRun(b: Batch, run: seq<State>, steps: seq<Step>) {
    IsRun(b, run, steps) && forall k :: 0 <= k < |steps| ==> Quiet(steps[k])
  }

  lemma StartsInStep(b: Batch)
    requires b.Valid()
    ensures InStep(b, InitState(b)) && Work(b, InitState(b)) <= Ahead(b, 0)
  {}

  lemma {:induction false} QuietRunsStayInStep(b: Batch, run: seq<State>, steps: seq<Step>, n: nat)
    requires QuietRun(b, run, steps) && n < |run|
    ensures InStep(b, run[n]) && Work(b, run[n]) + n <= Ahead(b, 0)
  {
    hide InStep, Work, Apply, InitState;
    if n == 0 {
      StartsInStep(b);
    } else {
      QuietRunsStayInStep(b, run, steps, n - 1);
      assert Quiet(steps[n - 1]) && Enabled(b, run[n - 1], steps[n - 1]);
      if steps[n - 1].SndFrame? { SenderAdvances(b, run[n - 1]); } else { ReceiverAdvances(b, run[n - 1]); }
    }
  }

  /**
    Over a link that loses nothing, with timeouts long enough, for every choice of
    windows: nobody ever fails, no run is longer than the work the batch holds, the
    directory is right at every moment, and a run that cannot go on has succeeded on
    both sides and delivered every file.
   */
  lemma ReliableLinkSucceeds(b: Batch, run: seq<State>, steps: seq<Step>)
    requires QuietRun(b, run, steps)
    ensures var last := run[|run| - 1];
            && |steps| <= Ahead(b, 0)
            && last.sndAlive && last.rcvAlive && DirInv(b, last)
            && ((forall step :: Quiet(step) ==> !Enabled(b, last, step)) ==> last.snd.Succeeded?)
            && (last.snd.Succeeded? ==> last.rcv.Ended? && last.dir == DirAfter(b, |b.files|))
  {
    var n := |run| - 1;
    QuietRunsStayInStep(b, run, steps, n);
    if !run[n].snd.Succeeded? {
      SomeoneIsDue(b, run[n]);
      assert Quiet(SndFrame) && Quiet(RcvFrame);
    }
    hide Enabled, Work, IsRun, DirAfter, PlanAt;
  }

  lemma OneMore(b: Batch, run: seq<State>, steps: seq<Step>, step: Step)
    requires QuietRun(b, run, steps) && Quiet(step) && Enabled(b, run[|run| - 1], step)
    ensures QuietRun(b, run + [Apply(b, run[|run| - 1], step)], steps + [step])
  {
    hide Enabled, Apply, InitState;
  }

  lemma {:induction false} Extend(b: Batch, run: seq<State>, steps: seq<Step>)
      returns (run': seq<State>, steps': seq<Step>)
    requires QuietRun(b, run, steps)
    ensures QuietRun(b, run', steps') && run'[|run'| - 1].snd.Succeeded?
    decreases Ahead(b, 0) - |steps|
  {
    var n := |run| - 1;
    QuietRunsStayInStep(b, run, steps, n);
    if run[n].snd.Succeeded? {
      return run, steps;
    }
    SomeoneIsDue(b, run[n]);
    hide InStep, Work, Apply, Enabled;
    var step := if Enabled(b, run[n], SndFrame) then SndFrame else RcvFrame;
    OneMore(b, run, steps, step);
    run', steps' := run + [Apply(b, run[n], step)], steps + [step];
    QuietRunsStayInStep(b, run', steps', n + 1);
    run', steps' := Extend(b, run', steps');
  }

  /** Every batch can succeed. */
  lemma EveryBatchCanSucceed(b: Batch)
    requires b.Valid()
    ensures exists run: seq<State>, steps: seq<Step> :: QuietRun(b, run, steps) && run[|run| - 1].snd.Succeeded?
  {
    var run, steps := Extend(b, [InitState(b)], []);
  }
}
