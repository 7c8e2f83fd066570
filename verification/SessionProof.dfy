/**
  If a batch succeeds, the receiver's directory is exactly what the reference rule
  makes of the old directory and the source files, in order. Stale frames of an
  earlier file or an earlier attempt can only end the session with an error.
 */
module SessionProof {
  import opened Crc32
  import opened DataPhase
  import opened Resume
  import opened Session
  import L = LossyTransfer

  // ---------- What file i calls for ----------

  ghost function Src(b: Batch, i: nat): seq<Byte>
    requires i < |b.files|
  {
    b.files[i].src
  }

  ghost function Prior(b: Batch, i: nat): Option<seq<Byte>>
    requires b.Valid() && i < |b.files|
  {
    Lookup(DirAfter(b, i), b.files[i].name)
  }

  ghost function PlanAt(b: Batch, i: nat): Plan
    requires b.Valid() && i < |b.files|
  {
    Outcome(b.cfg, Prior(b, i), Src(b, i))
  }

  ghost function RespAt(b: Batch, i: nat): Resp
    requires b.Valid() && i < |b.files|
  {
    Decide(b.cfg, Prior(b, i), |Src(b, i)|)
  }

  ghost function AskAt(b: Batch, i: nat): Choice
    requires b.Valid() && i < |b.files|
  {
    OnResp(RespAt(b, i), Src(b, i))
  }

  ghost function VerdictAt(b: Batch, i: nat): Verdict
    requires b.Valid() && i < |b.files|
  {
    var ask := AskAt(b, i);
    if ask.AskVerify? && Prior(b, i).Some? then OnVerify(b.cfg, Prior(b, i).value, ask.start, ask.crc, ask.length)
    else Mismatch
  }

  ghost function BaseAt(b: Batch, i: nat): seq<Byte>
    requires b.Valid() && i < |b.files|
  {
    if PlanAt(b, i).Write? then Base(Prior(b, i), PlanAt(b, i).from) else []
  }

  /** The end of file i's cut that starts at `o`. */
  function EndAt(b: Batch, i: nat, o: nat): nat
    requires b.Valid() && i < |b.files|
  {
    CutEnd(|b.files[i].src|, o, b.maxPayload)
  }

  // ---------- The invariant ----------

  ghost predicate RcvInv(b: Batch, s: State)
    requires b.Valid()
  {
    var i := s.current;
    match s.rcv
    case AwaitMeta => true
    case Ended => i == |b.files|
    case AwaitReq(name, size) => i < |b.files| && name == b.files[i].name && size == |Src(b, i)|
    case AwaitVerify(name, size, resp) =>
      && i < |b.files| && name == b.files[i].name && size == |Src(b, i)|
      && resp == RespAt(b, i) && resp.action == VerifyFirst
    case Receiving(name, size, written) =>
      && i < |b.files| && name == b.files[i].name && size == |Src(b, i)|
      && PlanAt(b, i).Write? && PlanAt(b, i).from <= written <= size
    case Skipping(name, size) =>
      i < |b.files| && name == b.files[i].name && size == |Src(b, i)| && PlanAt(b, i) == Leave
  }

  /** The receiver has answered the request for the current file. */
  predicate PastReq(rcv: Rcv) {
    rcv.AwaitVerify? || rcv.Receiving? || rcv.Skipping?
  }

  ghost predicate NoDataYet(b: Batch, s: State)
    requires b.Valid() && s.current < |b.files|
  {
    s.rcv.Receiving? ==> PlanAt(b, s.current) == Write(s.rcv.written)
  }

  ghost predicate SndInv(b: Batch, s: State)
    requires b.Valid() && Located(b, s)
  {
    var i, same := s.current, s.completed == s.current;
    match s.snd
    case AwaitResp => same && NoDataYet(b, s)
    case AwaitVerdict(ask) =>
      && same && RespAt(b, i).action == VerifyFirst && ask == AskAt(b, i) && ask.AskVerify?
      && PastReq(s.rcv) && NoDataYet(b, s)
    case Sending(tx) =>
      && same && s.rcv.Receiving? && PlanAt(b, i).Write?
      && PlanAt(b, i).from <= tx.acked < |Src(b, i)|
      && tx == Tx(tx.acked, EndAt(b, i, tx.acked), 1, 1)
      && (s.rcv.written == tx.acked || s.rcv.written == tx.next)
    case AwaitDone => same ==> (s.rcv.Receiving? && s.rcv.written == s.rcv.size) || s.rcv.Skipping?
    case AwaitEot => same && i == |b.files|
    case Succeeded => same && i == |b.files| && s.rcv.Ended?
  }

  ghost predicate PhaseInv(b: Batch, s: State) {
    && b.Valid() && b.StopAndWait() && Located(b, s)
    && (s.completed == s.current || (s.completed == s.current + 1 && s.snd.AwaitDone? && s.rcv.AwaitMeta?))
    && (s.completed == s.current ==> RcvInv(b, s))
    && SndInv(b, s)
  }

  ghost function AckedBy(b: Batch, i: nat, snd: Snd): nat
    requires i < |b.files|
  {
    match snd
    case Sending(tx) => tx.acked
    case _ => |Src(b, i)|
  }

  /** A frame of the current file that the sender may have sent by now. */
  ghost predicate FwdOk(b: Batch, i: nat, snd: Snd, f: Fwd)
    requires b.Valid()
  {
    match f
    case Meta(name, size) => i < |b.files| && name == b.files[i].name && size == |Src(b, i)|
    case ResumeReq => i < |b.files|
    case Verify(start, crc, length) =>
      && i < |b.files| && !snd.AwaitResp?
      && AskAt(b, i).AskVerify? && f == Verify(AskAt(b, i).start, AskAt(b, i).crc, AskAt(b, i).length)
    case Data(c) =>
      && i < |b.files| && (snd.Sending? || snd.AwaitDone?)
      && PlanAt(b, i).Write? && c.offset.Some?
      && PlanAt(b, i).from <= c.offset.value <= AckedBy(b, i, snd) && c.offset.value < |Src(b, i)|
      && c.bytes == Src(b, i)[c.offset.value..EndAt(b, i, c.offset.value)]
    case Done => snd.AwaitDone?
    case Eot => i == |b.files|
  }

  ghost predicate FwdInv(b: Batch, s: State)
    requires b.Valid()
  {
    s.rcvAlive ==>
      && s.stale <= |s.fwd|
      && (s.stale > 0 ==> s.rcv.AwaitMeta? && s.completed == s.current)
      && (forall k :: 0 <= k < |s.fwd| && k < s.stale ==> s.fwd[k] == Done)
      && (forall k :: s.stale <= k < |s.fwd| ==> FwdOk(b, s.current, s.snd, s.fwd[k]))
      && (forall k :: s.stale <= k < |s.fwd| && s.fwd[k].Meta? ==> k == s.stale && s.rcv.AwaitMeta?)
      && (forall k, l :: s.stale <= k < l < |s.fwd| && s.fwd[k] == Done ==> s.fwd[l] == Done)
      && (s.completed == s.current + 1 ==> forall k :: 0 <= k < |s.fwd| ==> s.fwd[k] == Done)
  }

  ghost predicate AckOk(s: State, off: nat) {
    match s.snd
    case AwaitResp => off == 0
    case AwaitVerdict(_) => off == 0
    case Sending(tx) => off <= tx.acked || (s.rcv.Receiving? && off == s.rcv.written)
    case _ => true
  }

  ghost predicate RevOk(b: Batch, s: State, g: Rev)
    requires b.Valid()
  {
    var i, past := s.current, s.completed == s.current + 1;
    match g
    case ResumeResp(r) => past || (i < |b.files| && r == RespAt(b, i) && PastReq(s.rcv))
    case VerifyResult(v) =>
      past || (i < |b.files| && v == VerdictAt(b, i) && (s.rcv.Receiving? || s.rcv.Skipping?))
    case Reply(r) => r.DataAck? && AckOk(s, r.offset)
    case DoneAck => past
    case EotAck => s.rcv.Ended?
  }

  ghost predicate RevInv(b: Batch, s: State)
    requires b.Valid()
  {
    && (forall k :: 0 <= k < |s.rev| ==> RevOk(b, s, s.rev[k]))
    && (forall k :: 0 <= k < |s.rev| && s.rev[k] == DoneAck ==> k == |s.rev| - 1)
  }

  ghost predicate DirInv(b: Batch, s: State)
    requires b.Valid()
  {
    && s.completed <= |b.files|
    && (if s.rcv.Receiving? then
          && s.completed < |b.files| && PlanAt(b, s.completed).Write?
          && PlanAt(b, s.completed).from <= s.rcv.written <= |Src(b, s.completed)|
          && s.rcv.name == b.files[s.completed].name
          && s.dir == DirAfter(b, s.completed)[s.rcv.name :=
               BaseAt(b, s.completed) + Src(b, s.completed)[PlanAt(b, s.completed).from..s.rcv.written]]
        else s.dir == DirAfter(b, s.completed))
  }

  ghost predicate Inv(b: Batch, s: State) {
    PhaseInv(b, s) && FwdInv(b, s) && RevInv(b, s) && DirInv(b, s)
  }

  // ---------- Negotiation, summed up ----------

  lemma PlanFacts(b: Batch, i: nat)
    requires b.Valid() && i < |b.files|
    ensures PlanAt(b, i).Write? ==> PlanAt(b, i).from <= |Src(b, i)| && |BaseAt(b, i)| == PlanAt(b, i).from
    ensures PlanAt(b, i).Write? && PlanAt(b, i).from > 0 ==> Prior(b, i) == Some(BaseAt(b, i))
    ensures PlanAt(b, i).Write? && PlanAt(b, i).from == 0 ==> BaseAt(b, i) == []
    ensures b.cfg.mode == Never ==> PlanAt(b, i) == Write(0)
  {
    hide Outcome, DirAfter;
    OutcomeFits(b.cfg, Prior(b, i), Src(b, i));
  }

  lemma DirectOffer(b: Batch, i: nat)
    requires b.Valid() && i < |b.files| && RespAt(b, i).action != VerifyFirst
    ensures PlanOf(b.cfg, RespAt(b, i), |Src(b, i)|) == PlanAt(b, i)
    ensures Fits(AskAt(b, i), PlanAt(b, i), |Src(b, i)|)
  {
    hide Outcome, DirAfter, Decide, OnResp, PlanOf, Fits;
    DirectOfferAgrees(b.cfg, Prior(b, i), Src(b, i));
  }

  lemma VerifiedOffer(b: Batch, i: nat)
    requires b.Valid() && i < |b.files| && RespAt(b, i).action == VerifyFirst
    ensures AskAt(b, i).AskVerify? && Prior(b, i).Some?
    ensures VerdictAt(b, i) == OnVerify(b.cfg, Prior(b, i).value, AskAt(b, i).start, AskAt(b, i).crc, AskAt(b, i).length)
    ensures PlanAfter(b.cfg, RespAt(b, i), VerdictAt(b, i), |Src(b, i)|) == PlanAt(b, i)
    ensures Fits(OnVerdict(VerdictAt(b, i), AskAt(b, i).end), PlanAt(b, i), |Src(b, i)|)
  {
    hide Outcome, DirAfter, Decide, OnResp, OnVerify, PlanAfter, Fits, OnVerdict;
    VerifiedOfferAgrees(b.cfg, Prior(b, i), Src(b, i));
  }

  /** Carrying the plan out in full is what the reference rule stores. */
  lemma NextDir(b: Batch, i: nat)
    requires b.Valid() && i < |b.files|
    ensures PlanAt(b, i) == Leave ==> DirAfter(b, i + 1) == DirAfter(b, i)
    ensures PlanAt(b, i).Write? ==>
              PlanAt(b, i).from <= |Src(b, i)| &&
              DirAfter(b, i + 1) == DirAfter(b, i)[b.files[i].name := BaseAt(b, i) + Src(b, i)[PlanAt(b, i).from..]]
  {
    hide Outcome;
    OutcomeFits(b.cfg, Prior(b, i), Src(b, i));
    var d := DirAfter(b, i);
    assert DirAfter(b, i + 1) == Stored(b, d, b.files[i]);
    if PlanAt(b, i) == Leave && Prior(b, i).Some? {
      assert d[b.files[i].name := d[b.files[i].name]] == d;
    }
  }

  // ---------- Sender steps ----------

  /** Frames already under way stay acceptable as the sender moves on within a file. */
  predicate MovesOn(b: Batch, i: nat, before: Snd, after: Snd) {
    match before
    case AwaitResp => after.AwaitResp? || after.AwaitVerdict? || after.Sending? || after.AwaitDone?
    case AwaitVerdict(_) => after.AwaitVerdict? || after.Sending? || after.AwaitDone?
    case Sending(tx) => (after.Sending? && tx.acked <= after.tx.acked) || after.AwaitDone?
    case AwaitDone => after.AwaitDone?
    case AwaitEot => after.AwaitEot? || after.Succeeded?
    case Succeeded => after.Succeeded?
  }

  lemma FwdOkMovesOn(b: Batch, i: nat, before: Snd, after: Snd, f: Fwd)
    requires b.Valid() && FwdOk(b, i, before, f) && MovesOn(b, i, before, after)
    ensures FwdOk(b, i, after, f)
  {
    hide PlanAt, AskAt, EndAt;
  }

  /** Appending acceptable frames of the current file. */
  lemma PushKeepsFwd(b: Batch, s: State, snd: Snd, fs: seq<Fwd>)
    requires b.Valid() && FwdInv(b, s) && MovesOn(b, s.current, s.snd, snd)
    requires s.completed == s.current || (forall k :: 0 <= k < |fs| ==> fs[k] == Done)
    requires forall k :: 0 <= k < |fs| ==> FwdOk(b, s.current, snd, fs[k]) && !fs[k].Meta?
    requires (s.snd.AwaitDone? && forall k :: 0 <= k < |fs| ==> fs[k] == Done)
          || (!s.snd.AwaitDone? && |fs| <= 1)
    ensures FwdInv(b, Push(s.(snd := snd), fs))
  {
    hide FwdOk;
    var s' := Push(s.(snd := snd), fs);
    if s.rcvAlive {
      var n := |s.fwd|;
      forall k | s.stale <= k < |s'.fwd| ensures FwdOk(b, s.current, snd, s'.fwd[k]) {
        if k < n {
          FwdOkMovesOn(b, s.current, s.snd, snd, s.fwd[k]);
        } else {
          assert s'.fwd[k] == fs[k - n];
        }
      }
      forall k, l | s.stale <= k < l < |s'.fwd| && s'.fwd[k] == Done ensures s'.fwd[l] == Done {
        if l >= n {
          assert s'.fwd[l] == fs[l - n];
          if k < n {
            DoneOnlyWhenAwaited(b, s, k);
          }
        }
      }
    }
  }

  lemma DoneOnlyWhenAwaited(b: Batch, s: State, k: nat)
    requires b.Valid() && FwdInv(b, s) && s.rcvAlive && s.stale <= k < |s.fwd| && s.fwd[k] == Done
    ensures s.snd.AwaitDone?
  {
    assert FwdOk(b, s.current, s.snd, s.fwd[k]);
  }

  lemma RevMovesOn(b: Batch, s: State, snd: Snd)
    requires b.Valid() && RevInv(b, s) && MovesOn(b, s.current, s.snd, snd)
    ensures RevInv(b, s.(snd := snd))
  {
    hide RespAt, VerdictAt;
    var s' := s.(snd := snd);
    forall k | 0 <= k < |s'.rev| ensures RevOk(b, s', s'.rev[k]) {
      assert RevOk(b, s, s.rev[k]);
    }
  }

  /** Within a file only the phase facts are left to check. */
  lemma MoveKeeps(b: Batch, s: State, snd: Snd, fs: seq<Fwd>)
    requires Inv(b, s) && MovesOn(b, s.current, s.snd, snd)
    requires s.completed == s.current || (forall k :: 0 <= k < |fs| ==> fs[k] == Done)
    requires forall k :: 0 <= k < |fs| ==> FwdOk(b, s.current, snd, fs[k]) && !fs[k].Meta?
    requires (s.snd.AwaitDone? && forall k :: 0 <= k < |fs| ==> fs[k] == Done)
          || (!s.snd.AwaitDone? && |fs| <= 1)
    requires PhaseInv(b, Push(s.(snd := snd), fs))
    ensures Inv(b, Push(s.(snd := snd), fs))
  {
    PushKeepsFwd(b, s, snd, fs);
    RevMovesOn(b, s, snd);
    hide FwdInv, PhaseInv, FwdOk, RespAt, VerdictAt, PlanAt, BaseAt, DirAfter;
    var s1, s2 := s.(snd := snd), Push(s.(snd := snd), fs);
    forall k | 0 <= k < |s2.rev| ensures RevOk(b, s2, s2.rev[k]) {
      assert RevOk(b, s1, s1.rev[k]);
    }
  }

  lemma PopRevKeeps(b: Batch, s: State)
    requires Inv(b, s) && s.rev != []
    ensures Inv(b, PopRev(s)) && RevOk(b, PopRev(s), s.rev[0])
    ensures s.rev[0] == DoneAck ==> PopRev(s).rev == []
  {
    hide RespAt, VerdictAt, PlanAt, BaseAt, DirAfter, FwdOk, AskAt;
    var s' := PopRev(s);
    assert RevOk(b, s, s.rev[0]);
    forall k | 0 <= k < |s'.rev| ensures RevOk(b, s', s'.rev[k]) {
      assert RevOk(b, s, s.rev[k + 1]);
    }
    assert s.rev[0] == DoneAck ==> 0 == |s.rev| - 1;
    assert forall k :: 0 <= k < |s'.rev| && s'.rev[k] == DoneAck ==> s.rev[k + 1] == DoneAck;
  }

  lemma FillOneCut(b: Batch, i: nat, a: nat)
    requires b.Valid() && i < |b.files| && a < |Src(b, i)|
    ensures Fill(b.files[i].src, Tx(a, a, 0, 1), b.maxPayload)
         == (Tx(a, EndAt(b, i, a), 1, 1), [Chunk(Some(a), Src(b, i)[a..EndAt(b, i, a)])])
  {
    L.FillSendsOne(Transfer(Src(b, i), [], b.maxPayload, 1), Tx(a, a, 0, 1));
  }

  predicate InFile(snd: Snd) {
    snd.AwaitResp? || snd.AwaitVerdict? || snd.Sending?
  }

  /** (Re)sending the cut at `a`, which the receiver has or has not written yet. */
  lemma RefillKeeps(b: Batch, s: State, a: nat)
    requires Inv(b, s) && InFile(s.snd) && s.rcv.Receiving?
    requires PlanAt(b, s.current).Write? && PlanAt(b, s.current).from <= a < |Src(b, s.current)|
    requires s.snd.Sending? ==> s.snd.tx.acked <= a
    requires s.rcv.written == a || s.rcv.written == EndAt(b, s.current, a)
    ensures Inv(b, RefillWindow(b, s, Tx(a, a, 0, 1)))
  {
    hide PlanAt, RespAt, AskAt, VerdictAt, BaseAt, DirAfter, FwdInv, RevInv, DirInv;
    var i := s.current;
    FillOneCut(b, i, a);
    var c := Chunk(Some(a), Src(b, i)[a..EndAt(b, i, a)]);
    var tx := Tx(a, EndAt(b, i, a), 1, 1);
    assert Chunks([c]) == [Data(c)];
    assert FwdOk(b, i, Sending(tx), Data(c));
    MoveKeeps(b, s, Sending(tx), [Data(c)]);
  }

  lemma DoneKeeps(b: Batch, s: State)
    requires Inv(b, s) && InFile(s.snd)
    requires (s.rcv.Receiving? && s.rcv.written == s.rcv.size) || s.rcv.Skipping?
    ensures Inv(b, Push(s.(snd := AwaitDone), [Done]))
  {
    hide PlanAt, RespAt, AskAt, VerdictAt, BaseAt, DirAfter, FwdInv, RevInv, DirInv;
    MoveKeeps(b, s, AwaitDone, [Done]);
  }

  /** A choice that fits the plan keeps the two sides together. */
  lemma ActKeeps(b: Batch, s: State, c: Choice)
    requires Inv(b, s) && (s.snd.AwaitResp? || s.snd.AwaitVerdict?)
    requires s.rcv.Receiving? || s.rcv.Skipping?
    requires Fits(c, PlanAt(b, s.current), |Src(b, s.current)|)
    ensures Inv(b, Act(b, s, c))
  {
    hide PlanAt, RespAt, AskAt, VerdictAt, BaseAt, DirAfter, FwdInv, RevInv, DirInv;
    match c
    case Begin(o) =>
      assert b.windows[s.current] == 1;
      if o < |Src(b, s.current)| {
        RefillKeeps(b, s, o);
      } else {
        DoneKeeps(b, s);
      }
    case SkipIt => DoneKeeps(b, s);
  }

  lemma OnResumeResp(b: Batch, s: State, r: Resp)
    requires Inv(b, s) && s.snd.AwaitResp? && RevOk(b, s, ResumeResp(r))
    ensures Inv(b, SenderReceives(b, s, ResumeResp(r)))
  {
    hide PlanAt, RespAt, VerdictAt, BaseAt, DirAfter, FwdInv, RevInv, DirInv, OnResp;
    var i := s.current;
    assert r == RespAt(b, i);
    if r.action == VerifyFirst {
      VerifiedOffer(b, i);
      var ask := AskAt(b, i);
      var f := Verify(ask.start, ask.crc, ask.length);
      assert FwdOk(b, i, AwaitVerdict(ask), f);
      MoveKeeps(b, s, AwaitVerdict(ask), [f]);
    } else {
      DirectOffer(b, i);
      ActKeeps(b, s, AskAt(b, i));
    }
  }

  lemma OnVerifyResult(b: Batch, s: State, v: Verdict)
    requires Inv(b, s) && s.snd.AwaitVerdict? && RevOk(b, s, VerifyResult(v))
    ensures Inv(b, SenderReceives(b, s, VerifyResult(v)))
  {
    hide PlanAt, RespAt, AskAt, VerdictAt, BaseAt, DirAfter, FwdInv, RevInv, DirInv, Act;
    VerifiedOffer(b, s.current);
    ActKeeps(b, s, OnVerdict(v, s.snd.ask.end));
  }

  lemma OnDataAck(b: Batch, s: State, off: nat)
    requires Inv(b, s) && s.snd.Sending? && RevOk(b, s, Reply(DataAck(off)))
    ensures Inv(b, SenderReceives(b, s, Reply(DataAck(off))))
  {
    hide PlanAt, RespAt, AskAt, VerdictAt, BaseAt, DirAfter, FwdInv, RevInv, DirInv;
    var tx := s.snd.tx;
    if off > tx.acked {
      assert off == s.rcv.written == tx.next;
      WholeAck(tx, b.maxPayload);
      hide OnAck;
      if off < |Src(b, s.current)| {
        RefillKeeps(b, s, off);
      } else {
        DoneKeeps(b, s);
      }
    }
  }

  /** The next file starts on an empty reply pipe, behind nothing but spent DONEs. */
  lemma StartFileKeeps(b: Batch, s: State)
    requires Inv(b, s) && s.completed == s.current + 1 && s.rev == []
    ensures Inv(b, StartFile(b, s, s.current + 1))
  {
    hide PlanAt, RespAt, AskAt, VerdictAt, BaseAt, DirAfter;
    var i := s.current + 1;
    var s' := StartFile(b, s, i);
    var n := |s.fwd|;
    assert PhaseInv(b, s');
    assert DirInv(b, s');
    if s.rcvAlive {
      forall k | n <= k < |s'.fwd| ensures FwdOk(b, i, s'.snd, s'.fwd[k]) {
        assert s'.fwd[k] == (s'.fwd[n..])[k - n];
      }
    }
  }

  lemma SenderFrameKeeps(b: Batch, s: State)
    requires Inv(b, s) && Session.Enabled(b, s, SndFrame)
    ensures Inv(b, Session.Apply(b, s, SndFrame))
  {
    hide PhaseInv, FwdInv, RevInv, DirInv, StartFile, Act, Proceed, RefillWindow, RespAt, VerdictAt, OnResp;
    PopRevKeeps(b, s);
    var p, g := PopRev(s), s.rev[0];
    match p.snd
    case AwaitResp => if g.ResumeResp? { OnResumeResp(b, p, g.resp); }
    case AwaitVerdict(_) => if g.VerifyResult? { OnVerifyResult(b, p, g.verdict); }
    case Sending(_) => if g.Reply? { OnDataAck(b, p, g.reply.offset); }
    case AwaitDone => if g.DoneAck? { StartFileKeeps(b, p); }
    case AwaitEot => if g.EotAck? { FinishKeeps(b, p); }
    case Succeeded =>
  }

  lemma FinishKeeps(b: Batch, s: State)
    requires Inv(b, s) && s.snd.AwaitEot? && s.rcv.Ended?
    ensures Inv(b, s.(snd := Succeeded))
  {
    hide PlanAt, RespAt, AskAt, VerdictAt, BaseAt, DirAfter, FwdInv, RevInv, DirInv;
    assert s.(snd := Succeeded) == Push(s.(snd := Succeeded), []);
    MoveKeeps(b, s, Succeeded, []);
  }

  lemma SenderTimeoutKeeps(b: Batch, s: State)
    requires Inv(b, s) && Session.Enabled(b, s, SndTimeout)
    ensures Inv(b, SenderTimesOut(b, s))
  {
    hide PlanAt, RespAt, AskAt, VerdictAt, BaseAt, DirAfter, FwdInv, RevInv, DirInv, RefillWindow;
    match s.snd
    case AwaitResp => MoveKeeps(b, s, s.snd, [ResumeReq]);
    case AwaitVerdict(ask) =>
      assert FwdOk(b, s.current, s.snd, Verify(ask.start, ask.crc, ask.length));
      MoveKeeps(b, s, s.snd, [Verify(ask.start, ask.crc, ask.length)]);
    case Sending(tx) =>
      assert b.windows[s.current] == 1;
      RefillKeeps(b, s, tx.acked);
    case AwaitDone => MoveKeeps(b, s, s.snd, [Done]);
    case AwaitEot => MoveKeeps(b, s, s.snd, [Eot]);
    case Succeeded =>
  }

  // ---------- Receiver steps ----------

  lemma PopFwdKeeps(b: Batch, s: State)
    requires Inv(b, s) && s.fwd != []
    ensures Inv(b, PopFwd(s))
  {
    hide PlanAt, RespAt, AskAt, VerdictAt, BaseAt, DirAfter, FwdOk, RevOk;
    var p := PopFwd(s);
    assert forall k :: 0 <= k < |p.fwd| ==> p.fwd[k] == s.fwd[k + 1];
    assert RevInv(b, p) by { RevSame(b, s, p); }
    if s.rcvAlive {
      assert forall k :: 0 <= k < |p.fwd| && k < p.stale ==> p.fwd[k] == Done;
      forall k | p.stale <= k < |p.fwd| ensures FwdOk(b, p.current, p.snd, p.fwd[k]) {
        assert FwdOk(b, s.current, s.snd, s.fwd[k + 1]);
      }
      forall k | p.stale <= k < |p.fwd| && p.fwd[k].Meta? ensures k == p.stale && p.rcv.AwaitMeta? {
        assert s.fwd[k + 1].Meta?;
      }
      forall k, l | p.stale <= k < l < |p.fwd| && p.fwd[k] == Done ensures p.fwd[l] == Done {
        assert s.fwd[k + 1] == Done ==> s.fwd[l + 1] == Done;
      }
    }
  }

  lemma RevSame(b: Batch, s: State, p: State)
    requires b.Valid() && RevInv(b, s)
    requires p.rev == s.rev && p.rcv == s.rcv && p.snd == s.snd && p.current == s.current && p.completed == s.completed
    ensures RevInv(b, p)
  {
    hide RespAt, VerdictAt;
    forall k | 0 <= k < |p.rev| ensures RevOk(b, p, p.rev[k]) {
      assert RevOk(b, s, s.rev[k]);
    }
  }

  /** What taking the head off a live receiver's pipe tells. */
  lemma HeadFacts(b: Batch, s: State)
    requires Inv(b, s) && s.rcvAlive && s.fwd != []
    ensures !s.rcv.AwaitMeta? ==> s.stale == 0 && s.completed == s.current
    ensures s.stale == 0 ==> FwdOk(b, s.current, s.snd, s.fwd[0])
    ensures s.fwd[0] != Done ==> s.stale == 0 && s.completed == s.current
    ensures s.fwd[0].Meta? ==> s.rcv.AwaitMeta? && forall k :: 1 <= k < |s.fwd| ==> !s.fwd[k].Meta?
    ensures s.stale == 0 && s.fwd[0] == Done ==> forall k :: 1 <= k < |s.fwd| ==> s.fwd[k] == Done
  {
    hide PlanAt, RespAt, AskAt, VerdictAt, BaseAt, DirAfter, FwdOk, RevOk;
    assert s.stale > 0 ==> s.fwd[0] == Done;
    assert s.completed == s.current + 1 ==> s.fwd[0] == Done;
    if s.fwd[0].Meta? {
      forall k | 1 <= k < |s.fwd| ensures !s.fwd[k].Meta? {
        assert s.fwd[k].Meta? ==> k == s.stale;
      }
    }
  }

  /** A receiver past metadata, on a pipe with no stale frames and no metadata in it. */
  ghost predicate Settled(s: State) {
    s.stale == 0 && (s.rcvAlive ==> forall k :: 0 <= k < |s.fwd| ==> !s.fwd[k].Meta?)
  }

  lemma SettledWhenPast(b: Batch, s: State)
    requires Inv(b, s) && s.rcvAlive && !s.rcv.AwaitMeta?
    ensures Settled(s)
  {
    hide PlanAt, RespAt, AskAt, VerdictAt, BaseAt, DirAfter, FwdOk, RevOk;
  }

  lemma FwdSurvives(b: Batch, s: State, s': State)
    requires b.Valid() && FwdInv(b, s) && Settled(s) && s.completed == s.current
    requires s'.fwd == s.fwd && s'.stale == s.stale && s'.snd == s.snd && s'.current == s.current
    requires s'.completed == s.completed && s'.rcvAlive == s.rcvAlive
    ensures FwdInv(b, s')
  {
    hide FwdOk;
    if s.rcvAlive {
      forall k | s'.stale <= k < |s'.fwd| ensures FwdOk(b, s'.current, s'.snd, s'.fwd[k]) {
        assert FwdOk(b, s.current, s.snd, s.fwd[k]);
      }
    }
  }

  /** How far the receiver has come with the current file. */
  function Rank(r: Rcv): nat {
    match r
    case AwaitMeta => 0
    case AwaitReq(_, _) => 1
    case AwaitVerify(_, _, _) => 2
    case Receiving(_, _, _) => 3
    case Skipping(_, _) => 3
    case Ended => 4
  }

  /** Replies under way survive the receiver's progress before any data is written. */
  lemma RevSurvives(b: Batch, s: State, s': State, gs: seq<Rev>)
    requires b.Valid() && RevInv(b, s) && s.completed == s.current == s'.completed == s'.current
    requires s'.rev == s.rev + gs && s'.snd == s.snd && !s.snd.Sending? && Rank(s.rcv) <= Rank(s'.rcv) < 4
    requires forall k :: 0 <= k < |gs| ==> gs[k] != DoneAck && RevOk(b, s', gs[k])
    ensures RevInv(b, s')
  {
    hide RespAt, VerdictAt;
    var n := |s.rev|;
    forall k | 0 <= k < |s'.rev| ensures RevOk(b, s', s'.rev[k]) && s'.rev[k] != DoneAck {
      if k < n {
        assert RevOk(b, s, s.rev[k]);
      } else {
        assert s'.rev[k] == gs[k - n];
      }
    }
  }

  lemma OnMeta(b: Batch, s: State, p: State, f: Fwd)
    requires Inv(b, s) && s.rcvAlive && s.fwd != [] && f == s.fwd[0] && p == PopFwd(s)
    requires s.rcv.AwaitMeta? && f.Meta?
    ensures Inv(b, p.(rcv := AwaitReq(f.name, f.size)))
  {
    HeadFacts(b, s);
    PopFwdKeeps(b, s);
    hide PlanAt, RespAt, AskAt, VerdictAt, BaseAt, DirAfter, RevInv;
    assert FwdOk(b, s.current, s.snd, f);
    var s' := p.(rcv := AwaitReq(f.name, f.size));
    assert forall k :: 0 <= k < |p.fwd| ==> p.fwd[k] == s.fwd[k + 1];
    FwdSurvives(b, p, s');
    if p.snd.Sending? {
      assert false;
    }
    hide FwdInv;
    assert s'.rev == p.rev + [];
    RevSurvives(b, p, s', []);
  }

  lemma OnEot(b: Batch, s: State, p: State)
    requires Inv(b, s) && s.rcvAlive && s.fwd != [] && s.fwd[0] == Eot && p == PopFwd(s)
    requires s.rcv.AwaitMeta?
    ensures Inv(b, Respond(p.(rcv := Ended), [EotAck]))
  {
    HeadFacts(b, s);
    PopFwdKeeps(b, s);
    hide PlanAt, RespAt, AskAt, VerdictAt, BaseAt, DirAfter;
    var s' := Respond(p.(rcv := Ended), [EotAck]);
    assert FwdOk(b, s.current, s.snd, Eot) && s.current == |b.files|;
    forall k | 0 <= k < |p.fwd| ensures !p.fwd[k].Meta? {
      assert FwdOk(b, p.current, p.snd, p.fwd[k]);
    }
    FwdSurvives(b, p, s');
    hide FwdInv;
    forall k | 0 <= k < |s'.rev| ensures RevOk(b, s', s'.rev[k]) && s'.rev[k] != DoneAck {
      if k < |p.rev| {
        assert RevOk(b, p, p.rev[k]);
      }
    }
  }

  lemma OpenedDir(b: Batch, s: State)
    requires b.Valid() && RcvInv(b, s) && DirInv(b, s)
    requires s.completed == s.current < |b.files| && (s.rcv.AwaitReq? || s.rcv.AwaitVerify?)
    requires PlanAt(b, s.current).Write?
    ensures var o := PlanAt(b, s.current).from;
            && o <= |Src(b, s.current)|
            && (if o == 0 then s.dir[s.rcv.name := []] else s.dir)
               == DirAfter(b, s.current)[s.rcv.name := BaseAt(b, s.current) + Src(b, s.current)[o..o]]
  {
    PlanFacts(b, s.current);
    hide PlanAt, RespAt, AskAt, VerdictAt, BaseAt, DirAfter, FwdInv, RevInv;
    var o, name, d := PlanAt(b, s.current).from, s.rcv.name, DirAfter(b, s.current);
    assert BaseAt(b, s.current) + Src(b, s.current)[o..o] == BaseAt(b, s.current);
    if o > 0 {
      assert name in d && d[name] == BaseAt(b, s.current);
      assert d[name := d[name]] == d;
    }
  }

  /** Opening the target for the agreed plan, with the frames that go with it. */
  lemma CarryKeeps(b: Batch, s: State, gs: seq<Rev>)
    requires Inv(b, s) && s.rcvAlive && (s.rcv.AwaitReq? || s.rcv.AwaitVerify?)
    requires s.snd.AwaitResp? || s.snd.AwaitVerdict?
    requires forall k :: 0 <= k < |gs| ==>
               || gs[k] == ResumeResp(RespAt(b, s.current))
               || gs[k] == VerifyResult(VerdictAt(b, s.current))
               || gs[k] == Reply(DataAck(0))
    ensures Inv(b, Carry(Respond(s, gs), s.rcv.name, s.rcv.size, PlanAt(b, s.current)))
  {
    SettledWhenPast(b, s);
    CarryPhase(b, s, gs);
    CarryDir(b, s, gs);
    assert s.completed == s.current < |b.files|;
    hide PlanAt, RespAt, AskAt, VerdictAt, BaseAt, DirAfter, RevInv, FwdInv, DirInv, PhaseInv;
    OpenedFrames(b, s, Carry(Respond(s, gs), s.rcv.name, s.rcv.size, PlanAt(b, s.current)), gs);
  }

  lemma OpenedFrames(b: Batch, s: State, s': State, gs: seq<Rev>)
    requires b.Valid() && FwdInv(b, s) && RevInv(b, s) && Settled(s) && s.completed == s.current < |b.files|
    requires (s.rcv.AwaitReq? || s.rcv.AwaitVerify?) && (s.snd.AwaitResp? || s.snd.AwaitVerdict?)
    requires Opened(b, s, s') && s'.fwd == s.fwd && s'.stale == s.stale && s'.rcvAlive == s.rcvAlive
    requires s'.rev == s.rev + gs
    requires forall k :: 0 <= k < |gs| ==>
               || gs[k] == ResumeResp(RespAt(b, s.current))
               || gs[k] == VerifyResult(VerdictAt(b, s.current))
               || gs[k] == Reply(DataAck(0))
    ensures FwdInv(b, s') && RevInv(b, s')
  {
    hide PlanAt, RespAt, AskAt, VerdictAt, FwdInv, RevInv;
    FwdSurvives(b, s, s');
    forall k | 0 <= k < |gs| ensures gs[k] != DoneAck && RevOk(b, s', gs[k]) {}
    RevSurvives(b, s, s', gs);
  }

  /** `s'` stands where the plan for the current file puts the receiver. */
  ghost predicate Opened(b: Batch, s: State, s': State)
    requires b.Valid() && s.current < |b.files| && (s.rcv.AwaitReq? || s.rcv.AwaitVerify?)
  {
    && s'.current == s.current && s'.completed == s.completed && s'.snd == s.snd
    && s'.rcv == match PlanAt(b, s.current)
                 case Leave => Skipping(s.rcv.name, s.rcv.size)
                 case Write(o) => Receiving(s.rcv.name, s.rcv.size, o)
  }

  lemma OpenedRcv(b: Batch, s: State, s': State)
    requires b.Valid() && RcvInv(b, s) && s.completed == s.current < |b.files| && (s.rcv.AwaitReq? || s.rcv.AwaitVerify?)
    requires Opened(b, s, s')
    ensures RcvInv(b, s')
  {
    PlanFacts(b, s.current);
    hide PlanAt, RespAt, BaseAt;
  }

  lemma OpenedSnd(b: Batch, s: State, s': State)
    requires PhaseInv(b, s) && s.completed == s.current < |b.files| && (s.rcv.AwaitReq? || s.rcv.AwaitVerify?)
    requires s.snd.AwaitResp? || s.snd.AwaitVerdict?
    requires Opened(b, s, s')
    ensures SndInv(b, s')
  {
    hide PlanAt, RespAt, AskAt, RcvInv;
  }

  lemma CarryPhase(b: Batch, s: State, gs: seq<Rev>)
    requires PhaseInv(b, s) && (s.rcv.AwaitReq? || s.rcv.AwaitVerify?)
    requires s.snd.AwaitResp? || s.snd.AwaitVerdict?
    ensures PhaseInv(b, Carry(Respond(s, gs), s.rcv.name, s.rcv.size, PlanAt(b, s.current)))
  {
    hide PlanAt, RespAt, AskAt, VerdictAt, BaseAt, DirAfter, SndInv;
    var s' := Carry(Respond(s, gs), s.rcv.name, s.rcv.size, PlanAt(b, s.current));
    assert s.completed == s.current;
    OpenedRcv(b, s, s');
    OpenedSnd(b, s, s');
    hide RcvInv;
  }

  lemma CarryDir(b: Batch, s: State, gs: seq<Rev>)
    requires b.Valid() && RcvInv(b, s) && DirInv(b, s)
    requires s.completed == s.current < |b.files| && (s.rcv.AwaitReq? || s.rcv.AwaitVerify?)
    ensures DirInv(b, Carry(Respond(s, gs), s.rcv.name, s.rcv.size, PlanAt(b, s.current)))
  {
    if PlanAt(b, s.current).Write? {
      OpenedDir(b, s);
    }
    hide PlanAt, RespAt, AskAt, VerdictAt, BaseAt, DirAfter;
  }

  lemma LookupIsPrior(b: Batch, s: State)
    requires b.Valid() && RcvInv(b, s) && DirInv(b, s)
    requires s.completed == s.current < |b.files| && (s.rcv.AwaitReq? || s.rcv.AwaitVerify?)
    ensures Lookup(s.dir, s.rcv.name) == Prior(b, s.current)
  {
    hide PlanAt, RespAt, AskAt, VerdictAt, BaseAt, DirAfter, FwdInv, RevInv;
  }

  lemma OnRequest(b: Batch, s: State)
    requires Inv(b, s) && s.rcvAlive && s.rcv.AwaitReq?
    ensures Inv(b, Offer(b, s, s.rcv.name, s.rcv.size))
  {
    SettledWhenPast(b, s);
    LookupIsPrior(b, s);
    var i := s.current;
    hide PlanAt, AskAt, VerdictAt, BaseAt, DirAfter, FwdInv, RevInv, Decide, PlanOf, Prior;
    var resp := RespAt(b, i);
    assert Decide(b.cfg, Lookup(s.dir, s.rcv.name), s.rcv.size) == resp;
    if resp.action == VerifyFirst {
      var s' := Respond(s, [ResumeResp(resp)]).(rcv := AwaitVerify(s.rcv.name, s.rcv.size, resp));
      FwdSurvives(b, s, s');
      assert RevOk(b, s', ResumeResp(resp));
      RevSurvives(b, s, s', [ResumeResp(resp)]);
    } else {
      DirectOffer(b, i);
      CarryKeeps(b, s, [ResumeResp(resp)]);
    }
  }

  lemma FallbackKeeps(b: Batch, s: State)
    requires Inv(b, s) && s.rcvAlive && s.rcv.AwaitReq? && b.cfg.mode == Never
    ensures Inv(b, Fallback(s, s.rcv.name, s.rcv.size))
  {
    PlanFacts(b, s.current);
    hide PlanAt, RespAt, AskAt, VerdictAt, BaseAt, DirAfter, FwdInv, RevInv, DirInv;
    CarryKeeps(b, s, [Reply(DataAck(0))]);
  }

  lemma OnRepeatedRequest(b: Batch, s: State)
    requires Inv(b, s) && s.rcvAlive && s.rcv.AwaitVerify?
    ensures Inv(b, Respond(s, [ResumeResp(s.rcv.resp)]))
  {
    SettledWhenPast(b, s);
    hide PlanAt, RespAt, AskAt, VerdictAt, BaseAt, DirAfter, FwdInv, RevInv;
    var s' := Respond(s, [ResumeResp(s.rcv.resp)]);
    FwdSurvives(b, s, s');
    assert RevOk(b, s', ResumeResp(s.rcv.resp));
    RevSurvives(b, s, s', [ResumeResp(s.rcv.resp)]);
  }

  lemma OnVerifyRequest(b: Batch, s: State, f: Fwd)
    requires Inv(b, s) && s.rcvAlive && s.rcv.AwaitVerify? && f.Verify? && FwdOk(b, s.current, s.snd, f)
    ensures Inv(b, ReceiverReceives(b, s, f))
  {
    LookupIsPrior(b, s);
    VerifiedOffer(b, s.current);
    hide PlanAt, RespAt, AskAt, VerdictAt, BaseAt, DirAfter, FwdInv, RevInv, DirInv, OnVerify, PlanAfter;
    var file := if s.rcv.name in s.dir then s.dir[s.rcv.name] else [];
    assert file == Prior(b, s.current).value;
    CarryKeeps(b, s, [VerifyResult(VerdictAt(b, s.current))]);
  }

  /** A chunk at the write position is the outstanding cut; any other is behind it. */
  lemma ChunkPosition(b: Batch, s: State, c: Chunk)
    requires Inv(b, s) && s.rcv.Receiving? && FwdOk(b, s.current, s.snd, Data(c)) && s.completed == s.current
    ensures c.offset.Some? && c.offset.value <= s.rcv.written
    ensures c.offset.value == s.rcv.written ==>
              && s.snd.Sending? && s.rcv.written == s.snd.tx.acked
              && s.snd.tx.next == EndAt(b, s.current, s.rcv.written)
              && c.bytes == Src(b, s.current)[s.rcv.written..s.snd.tx.next]
              && s.rcv.written < s.snd.tx.next
  {
    hide PlanAt, RespAt, AskAt, VerdictAt, BaseAt, DirAfter, FwdInv, RevInv, DirInv;
  }

  ghost function Position(b: Batch, s: State, c: Chunk): nat
    requires b.Valid() && s.current < |b.files| && s.rcv.Receiving?
  {
    if c.offset == Some(s.rcv.written) then EndAt(b, s.current, s.rcv.written) else s.rcv.written
  }

  lemma TakeChunkForm(s: State, c: Chunk)
    requires s.rcv.Receiving? && s.rcv.name in s.dir && (c.offset.Some? ==> c.offset.value <= s.rcv.written)
    ensures var w, e := s.rcv.written, s.rcv.written + |c.bytes|;
            TakeChunk(s, c) ==
              if c.offset.None? || c.offset.value == w then
                Respond(s.(rcv := Receiving(s.rcv.name, s.rcv.size, e),
                           dir := s.dir[s.rcv.name := s.dir[s.rcv.name] + c.bytes]), [Reply(DataAck(e))])
              else Respond(s, [Reply(DataAck(w))])
  {
    var w, e := s.rcv.written, s.rcv.written + |c.bytes|;
    assert Replies([DataAck(w)]) == [Reply(DataAck(w))];
    assert Replies([DataAck(e)]) == [Reply(DataAck(e))];
    assert s.dir[s.rcv.name := s.dir[s.rcv.name]] == s.dir;
  }

  lemma TakenChunk(b: Batch, s: State, c: Chunk)
    requires Inv(b, s) && s.rcv.Receiving? && FwdOk(b, s.current, s.snd, Data(c)) && s.completed == s.current
    ensures var w, s' := Position(b, s, c), TakeChunk(s, c);
            s' == Respond(s.(rcv := Receiving(s.rcv.name, s.rcv.size, w), dir := s'.dir), [Reply(DataAck(w))])
  {
    ChunkPosition(b, s, c);
    hide PhaseInv, FwdInv, RevInv, FwdOk, PlanAt, DirAfter, BaseAt, TakeChunk, EndAt;
    TakeChunkForm(s, c);
  }

  lemma TakenDir(b: Batch, s: State, c: Chunk)
    requires Inv(b, s) && s.rcv.Receiving? && FwdOk(b, s.current, s.snd, Data(c)) && s.completed == s.current
    ensures DirInv(b, TakeChunk(s, c))
  {
    ChunkPosition(b, s, c);
    EndAtFits(b, s.current, s.rcv.written);
    TakeChunkForm(s, c);
    hide PhaseInv, FwdInv, RevInv, FwdOk, PlanAt, DirAfter, BaseAt, TakeChunk, EndAt;
    if c.offset.value == s.rcv.written {
      hide DirInv;
      TakenBytes(b, s, c);
    }
  }

  lemma EndAtFits(b: Batch, i: nat, o: nat)
    requires b.Valid() && i < |b.files|
    ensures EndAt(b, i, o) <= |Src(b, i)|
  {}

  lemma TakenBytes(b: Batch, s: State, c: Chunk)
    requires b.Valid() && DirInv(b, s) && s.rcv.Receiving? && s.completed == s.current
    requires s.rcv.written <= s.rcv.written + |c.bytes| <= |Src(b, s.current)|
    requires c.bytes == Src(b, s.current)[s.rcv.written..s.rcv.written + |c.bytes|]
    ensures var e := s.rcv.written + |c.bytes|;
            DirInv(b, Respond(s.(rcv := Receiving(s.rcv.name, s.rcv.size, e),
                                 dir := s.dir[s.rcv.name := s.dir[s.rcv.name] + c.bytes]), [Reply(DataAck(e))]))
  {
    hide PlanAt, DirAfter, BaseAt;
    var i, w, e, name := s.current, s.rcv.written, s.rcv.written + |c.bytes|, s.rcv.name;
    var r, d := PlanAt(b, i).from, DirAfter(b, i);
    var x, y := BaseAt(b, i) + Src(b, i)[r..w], BaseAt(b, i) + Src(b, i)[r..e];
    assert x + c.bytes == y;
    assert d[name := x][name := y] == d[name := y];
  }

  lemma ChunkRev(b: Batch, s: State, s': State, w: nat)
    requires PhaseInv(b, s) && RevInv(b, s) && s.rcv.Receiving? && s.completed == s.current
    requires s' == Respond(s.(rcv := Receiving(s.rcv.name, s.rcv.size, w), dir := s'.dir), [Reply(DataAck(w))])
    requires s.snd.Sending? || s.snd.AwaitDone?
    requires s.snd.Sending? && s.rcv.written != w ==> s.rcv.written == s.snd.tx.acked
    ensures RevInv(b, s')
  {
    hide PlanAt, RespAt, AskAt, VerdictAt, RcvInv;
    forall k | 0 <= k < |s'.rev| ensures RevOk(b, s', s'.rev[k]) && s'.rev[k] != DoneAck {
      if k < |s.rev| {
        assert RevOk(b, s, s.rev[k]);
      }
    }
  }

  lemma ChunkPhase(b: Batch, s: State, c: Chunk)
    requires Inv(b, s) && s.rcvAlive && s.rcv.Receiving? && FwdOk(b, s.current, s.snd, Data(c))
    requires s.completed == s.current
    ensures PhaseInv(b, TakeChunk(s, c))
  {
    ChunkPosition(b, s, c);
    TakenChunk(b, s, c);
    hide PlanAt, RespAt, AskAt, VerdictAt, BaseAt, DirAfter, FwdInv, RevInv, DirInv, TakeChunk;
  }

  lemma OnChunk(b: Batch, s: State, c: Chunk)
    requires Inv(b, s) && s.rcvAlive && s.rcv.Receiving? && FwdOk(b, s.current, s.snd, Data(c))
    ensures Inv(b, TakeChunk(s, c))
  {
    SettledWhenPast(b, s);
    ChunkPosition(b, s, c);
    TakenChunk(b, s, c);
    TakenDir(b, s, c);
    ChunkPhase(b, s, c);
    assert s.snd.Sending? || s.snd.AwaitDone?;
    hide PlanAt, RespAt, AskAt, VerdictAt, BaseAt, DirAfter, FwdInv, DirInv, RevInv, TakeChunk, FwdOk, PhaseInv;
    FwdSurvives(b, s, TakeChunk(s, c));
    ChunkRev(b, s, TakeChunk(s, c), Position(b, s, c));
  }

  lemma DoneDir(b: Batch, s: State)
    requires b.Valid() && s.completed == s.current < |b.files| && RcvInv(b, s) && DirInv(b, s)
    requires (s.rcv.Receiving? && s.rcv.written == s.rcv.size) || s.rcv.Skipping?
    ensures DirInv(b, Complete(s))
  {
    var i := s.current;
    NextDir(b, i);
    hide PlanAt, RespAt, AskAt, VerdictAt, BaseAt, DirAfter;
    if s.rcv.Receiving? {
      var r := PlanAt(b, i).from;
      assert Src(b, i)[r..|Src(b, i)|] == Src(b, i)[r..];
    }
  }

  lemma DoneFwd(b: Batch, s: State)
    requires b.Valid() && FwdInv(b, s) && s.completed == s.current && Settled(s)
    requires forall k :: 0 <= k < |s.fwd| ==> s.fwd[k] == Done
    ensures FwdInv(b, Complete(s))
  {
    hide FwdOk;
    var s' := Complete(s);
    if s.rcvAlive {
      forall k | s'.stale <= k < |s'.fwd| ensures FwdOk(b, s'.current, s'.snd, s'.fwd[k]) {
        assert FwdOk(b, s.current, s.snd, s.fwd[k]);
      }
    }
  }

  lemma DoneRev(b: Batch, s: State)
    requires b.Valid() && RevInv(b, s) && s.completed == s.current && s.snd.AwaitDone?
    requires s.rcv.Receiving? || s.rcv.Skipping?
    ensures RevInv(b, Complete(s))
  {
    hide RespAt, VerdictAt;
    var s' := Complete(s);
    forall k | 0 <= k < |s'.rev| ensures RevOk(b, s', s'.rev[k]) && (k < |s.rev| ==> s'.rev[k] != DoneAck) {
      if k < |s.rev| {
        assert RevOk(b, s, s.rev[k]);
      }
    }
  }

  /** DONE is taken only for a file that is complete, and completes it as the rule says. */
  lemma OnDone(b: Batch, s: State)
    requires Inv(b, s) && s.rcvAlive && (s.rcv.Receiving? || s.rcv.Skipping?)
    requires s.snd.AwaitDone? && forall k :: 0 <= k < |s.fwd| ==> s.fwd[k] == Done
    ensures Inv(b, Complete(s))
  {
    SettledWhenPast(b, s);
    DoneDir(b, s);
    DoneFwd(b, s);
    DoneRev(b, s);
    hide DirInv, FwdInv, RevInv, PlanAt, RespAt, AskAt, VerdictAt, BaseAt, DirAfter;
  }

  lemma DeathKeeps(b: Batch, s: State)
    requires Inv(b, s)
    ensures Inv(b, s.(rcvAlive := false)) && Inv(b, s.(sndAlive := false))
  {
    hide PlanAt, RespAt, AskAt, VerdictAt, BaseAt, DirAfter, FwdOk;
    RevSame(b, s, s.(rcvAlive := false));
    RevSame(b, s, s.(sndAlive := false));
  }

  lemma ReceiverFrameKeeps(b: Batch, s: State)
    requires Inv(b, s) && Session.Enabled(b, s, RcvFrame)
    ensures Inv(b, Session.Apply(b, s, RcvFrame))
  {
    var p, f := PopFwd(s), s.fwd[0];
    HeadFacts(b, s);
    PopFwdKeeps(b, s);
    DeathKeeps(b, p);
    assert forall k :: 0 <= k < |p.fwd| ==> p.fwd[k] == s.fwd[k + 1];
    match p.rcv
    case AwaitMeta =>
      if f.Meta? { OnMeta(b, s, p, f); }
      else if f.Eot? { OnEot(b, s, p); }
    case AwaitReq(_, _) =>
      if f.ResumeReq? { OnRequest(b, p); }
      else if b.cfg.mode == Never { FallbackKeeps(b, p); }
    case AwaitVerify(_, _, _) =>
      if f.ResumeReq? { OnRepeatedRequest(b, p); }
      else if f.Verify? { OnVerifyRequest(b, p, f); }
    case Receiving(_, _, _) =>
      if f.Data? { OnChunk(b, p, f.chunk); }
      else if f.Done? { OnDone(b, p); }
    case Skipping(_, _) =>
      if f.Done? { OnDone(b, p); }
      else { NoEotMidFile(b, s); }
    case Ended =>
  }

  lemma NoEotMidFile(b: Batch, s: State)
    requires Inv(b, s) && s.rcvAlive && s.fwd != [] && s.rcv.Skipping?
    ensures s.fwd[0] != Eot
  {
    HeadFacts(b, s);
  }

  lemma StepKeeps(b: Batch, s: State, step: Step)
    requires Inv(b, s) && Session.Enabled(b, s, step)
    ensures Inv(b, Session.Apply(b, s, step))
  {
    hide PhaseInv, FwdInv, RevInv, DirInv, SenderReceives, ReceiverReceives, SenderTimesOut, Fallback;
    match step
    case SndFrame => SenderFrameKeeps(b, s);
    case SndTimeout => SenderTimeoutKeeps(b, s);
    case SndGivesUp => DeathKeeps(b, s);
    case RcvFrame => ReceiverFrameKeeps(b, s);
    case RcvTimeout => FallbackKeeps(b, s);
    case RcvGivesUp => DeathKeeps(b, s);
    case LoseFwd => PopFwdKeeps(b, s);
    case LoseRev => PopRevKeeps(b, s);
  }

  lemma {:induction false} RunKeeps(b: Batch, run: seq<State>, steps: seq<Step>, n: nat)
    requires Session.IsRun(b, run, steps) && b.StopAndWait() && n < |run|
    ensures Inv(b, run[n])
  {
    if n == 0 {
      hide PlanAt, RespAt, AskAt, VerdictAt, BaseAt;
      var s := Session.InitState(b);
      assert s.fwd[0].Meta? && s.fwd[1].ResumeReq? && |s.fwd| == 2;
    } else {
      RunKeeps(b, run, steps, n - 1);
      assert Session.Enabled(b, run[n - 1], steps[n - 1]);
      hide Inv;
      StepKeeps(b, run[n - 1], steps[n - 1]);
    }
  }

  // ---------- The theorem ----------

  /**
    With a window of one packet, in every run: if the sender reports success, or the receiver does, then the
    receiver's directory is exactly the old one with every file of the batch handled
    in order by the reference rule. Mid-way it holds the finished files, plus a
    correct beginning of the one being written.
   */
  lemma SuccessMeansDelivered(b: Batch, run: seq<State>, steps: seq<Step>, n: nat)
    requires Session.IsRun(b, run, steps) && b.StopAndWait() && n < |run|
    ensures run[n].snd.Succeeded? || run[n].rcv.Ended? ==> run[n].dir == DirAfter(b, |b.files|)
    ensures run[n].snd.Succeeded? ==> run[n].rcv.Ended?
    ensures DirInv(b, run[n])
  {
    RunKeeps(b, run, steps, n);
    hide PlanAt, RespAt, AskAt, VerdictAt, BaseAt, DirAfter, FwdInv, RevInv;
  }

  /** The target holds exactly r bytes, and its tail window has the source's checksum. */
  ghost predicate Continues(b: Batch, before: Dir, f: SourceFile, r: nat)
    requires b.Valid() && 0 < r <= |f.src|
  {
    f.name in before && |before[f.name]| == r && TailsAgree(b.cfg, before[f.name], f.src)
  }

  /** One file of a successful batch: untouched, or the kept beginning plus the rest of the source. */
  lemma EachFileUntouchedOrContinued(b: Batch, i: nat)
    requires b.Valid() && i < |b.files|
    ensures var before, after, f := DirAfter(b, i), DirAfter(b, i + 1), b.files[i];
            || after == before
            || (exists r :: 0 <= r <= |f.src|
                  && (r > 0 ==> Continues(b, before, f, r))
                  && after == before[f.name := (if r == 0 then [] else before[f.name]) + f.src[r..]])
  {
    NextDir(b, i);
    PlanFacts(b, i);
    var plan := PlanAt(b, i);
    if plan.Write? {
      var before, f, r := DirAfter(b, i), b.files[i], plan.from;
      hide DirAfter, Crc;
      if r > 0 {
        assert before[f.name] == BaseAt(b, i);
      }
      assert (if r == 0 then [] else before[f.name]) == BaseAt(b, i);
    }
  }

  /**
    A DONE that can still reach a receiver in its data loop belongs to a complete
    file, although the receiver never compares sizes.
   */
  lemma DoneOnlyForCompleteFile(b: Batch, run: seq<State>, steps: seq<Step>, n: nat, k: nat)
    requires Session.IsRun(b, run, steps) && b.StopAndWait() && n < |run|
    requires run[n].rcvAlive && run[n].rcv.Receiving? && k < |run[n].fwd| && run[n].fwd[k] == Done
    ensures run[n].rcv.written == run[n].rcv.size
  {
    RunKeeps(b, run, steps, n);
    hide PlanAt, RespAt, AskAt, VerdictAt, RevInv, DirInv;
    DoneOnlyWhenAwaited(b, run[n], k);
  }

  /** `s'` is `s` with the next cut of the current file written, or nothing. */
  ghost predicate ExtendsOrKeeps(b: Batch, s: State, s': State)
    requires b.Valid() && s.current < |b.files| && s.rcv.Receiving? && s.rcv.name in s.dir
  {
    var src, w := Src(b, s.current), s.rcv.written;
    var e := CutEnd(|src|, w, b.maxPayload);
    && s'.rcv.Receiving? && s'.rev == s.rev + [Reply(DataAck(s'.rcv.written))]
    && (|| (s'.rcv.written == w && s'.dir == s.dir)
        || (s'.rcv.written == e && w < e <= |src| && s'.dir == s.dir[s.rcv.name := s.dir[s.rcv.name] + src[w..e]]))
  }

  /** Any DATA taken in any run writes the next cut of its file or changes nothing. */
  lemma DataExtendsOrKeeps(b: Batch, run: seq<State>, steps: seq<Step>, n: nat)
    requires Session.IsRun(b, run, steps) && b.StopAndWait() && n < |steps| && steps[n] == RcvFrame
    requires run[n].rcv.Receiving? && run[n].fwd != [] && run[n].fwd[0].Data?
    ensures run[n].current < |b.files| && run[n].rcv.name in run[n].dir
    ensures ExtendsOrKeeps(b, run[n], run[n + 1])
  {
    var s := run[n];
    RunKeeps(b, run, steps, n);
    assert Session.Enabled(b, s, steps[n]) && run[n + 1] == Session.Apply(b, s, steps[n]);
    HeadFacts(b, s);
    PopFwdKeeps(b, s);
    hide PlanAt, RespAt, AskAt, VerdictAt, DirAfter, BaseAt, FwdInv, RevInv, TakeChunk;
    ChunkPosition(b, PopFwd(s), s.fwd[0].chunk);
    TakeChunkForm(PopFwd(s), s.fwd[0].chunk);
  }
}
