/**
  A whole batch: metadata, resume negotiation, data, DONE and EOT for every file,
  between a sender and a receiver that share two FIFO pipes which may lose any frame.
  Timeouts and giving up may happen at any time.
 */
module Session {
  import opened Crc32
  import opened DataPhase
  import opened Resume

  type Dir = map<string, seq<Byte>>

  datatype SourceFile = SourceFile(name: string, src: seq<Byte>)

  /** `windows[i]` is the window the session allows when file i starts. */
  datatype Batch = Batch(files: seq<SourceFile>, cfg: Config, dir: Dir, maxPayload: nat, windows: seq<nat>) {
    predicate Valid() {
      && files != [] && cfg.Valid() && 8 < maxPayload <= MAX_CONTENT
      && |windows| == |files| && (forall i :: 0 <= i < |windows| ==> windows[i] >= 1)
    }

    /** The negotiated window is one packet, for every file. */
    predicate StopAndWait() {
      |windows| == |files| && forall i :: 0 <= i < |windows| ==> windows[i] == 1
    }
  }

  // ---------- Frames ----------

  datatype Fwd =
    | Meta(name: string, size: nat)
    | ResumeReq
    | Verify(start: nat, crc: bv32, length: nat)
    | Data(chunk: Chunk)
    | Done
    | Eot

  datatype Rev =
    | ResumeResp(resp: Resp)
    | VerifyResult(verdict: Verdict)
    | Reply(reply: Reply)
    | DoneAck
    | EotAck

  // ---------- The two parties ----------

  datatype Snd =
    | AwaitResp
    | AwaitVerdict(ask: Choice)
    | Sending(tx: Tx)
    | AwaitDone
    | AwaitEot
    | Succeeded

  datatype Rcv =
    | AwaitMeta
    | AwaitReq(name: string, size: nat)
    | AwaitVerify(name: string, size: nat, resp: Resp)
    | Receiving(name: string, size: nat, written: nat)
    | Skipping(name: string, size: nat)
    | Ended

  /**
    `current` is the sender's file; `sndAlive` and `rcvAlive` turn false when a party
    returns an error. `completed` (files the receiver has finished) and `stale` (how
    many leading frames belong to the previous file) are history: no step reads them.
   */
  datatype State = State(
    snd: Snd, sndAlive: bool, current: nat,
    rcv: Rcv, rcvAlive: bool, dir: Dir,
    fwd: seq<Fwd>, rev: seq<Rev>,
    completed: nat, stale: nat)

  function Lookup(d: Dir, name: string): Option<seq<Byte>> {
    if name in d then Some(d[name]) else None
  }

  // ---------- Sender steps ----------

  function Push(s: State, fs: seq<Fwd>): State {
    s.(fwd := s.fwd + fs)
  }

  /** Top of the batch loop: the next file's metadata and request, or EOT. */
  function StartFile(b: Batch, s: State, i: nat): State
    requires i <= |b.files|
  {
    var s1 := s.(current := i, stale := |s.fwd|);
    if i < |b.files| then
      Push(s1.(snd := AwaitResp), [Meta(b.files[i].name, |b.files[i].src|), ResumeReq])
    else
      Push(s1.(snd := AwaitEot), [Eot])
  }

  function Chunks(cs: seq<Chunk>): (fs: seq<Fwd>) {
    seq(|cs|, i requires 0 <= i < |cs| => Data(cs[i]))
  }

  function RefillWindow(b: Batch, s: State, tx: Tx): State
    requires b.Valid() && s.current < |b.files|
  {
    var (tx', cs) := Fill(b.files[s.current].src, tx, b.maxPayload);
    Push(s.(snd := Sending(tx')), Chunks(cs))
  }

  /** Data from an offset on, or DONE when there is none to send. */
  function Proceed(b: Batch, s: State, tx: Tx): State
    requires b.Valid() && s.current < |b.files|
  {
    if tx.acked < |b.files[s.current].src| then RefillWindow(b, s, tx)
    else Push(s.(snd := AwaitDone), [Done])
  }

  function Act(b: Batch, s: State, c: Choice): State
    requires b.Valid() && s.current < |b.files|
  {
    match c
    case Begin(o) => Proceed(b, s, Tx(o, o, 0, b.windows[s.current]))
    case SkipIt => Push(s.(snd := AwaitDone), [Done])
    case AskVerify(start, crc, length, _) => Push(s.(snd := AwaitVerdict(c)), [Verify(start, crc, length)])
    case _ => s.(sndAlive := false)
  }

  function SenderReceives(b: Batch, s: State, f: Rev): State
    requires b.Valid() && s.current <= |b.files|
    requires !s.snd.AwaitEot? && !s.snd.Succeeded? ==> s.current < |b.files|
  {
    match s.snd
    case AwaitResp => if f.ResumeResp? then Act(b, s, OnResp(f.resp, b.files[s.current].src)) else s
    case AwaitVerdict(ask) =>
      if f.VerifyResult? && ask.AskVerify? then Act(b, s, OnVerdict(f.verdict, ask.end)) else s
    case Sending(tx) =>
      if !f.Reply? then s
      else (
        match f.reply
        case DataAck(off) =>
          var tx' := OnAck(tx, off, b.maxPayload);
          if off <= tx.acked || off < tx.next then s.(snd := Sending(tx')) else Proceed(b, s, tx')
        case DataNak(next) => RefillWindow(b, s, OnNak(tx, next, |b.files[s.current].src|, b.windows[s.current])))
    case AwaitDone => if f.DoneAck? then StartFile(b, s, s.current + 1) else s
    case AwaitEot => if f.EotAck? then s.(snd := Succeeded) else s
    case Succeeded => s
  }

  function SenderTimesOut(b: Batch, s: State): State
    requires b.Valid()
    requires s.snd.Sending? ==> s.current < |b.files|
  {
    match s.snd
    case AwaitResp => Push(s, [ResumeReq])
    case AwaitVerdict(ask) => if ask.AskVerify? then Push(s, [Verify(ask.start, ask.crc, ask.length)]) else s
    case Sending(tx) => RefillWindow(b, s, Rewind(tx, b.windows[s.current]))
    case AwaitDone => Push(s, [Done])
    case AwaitEot => Push(s, [Eot])
    case Succeeded => s
  }

  // ---------- Receiver steps ----------

  function Respond(s: State, fs: seq<Rev>): State {
    s.(rev := s.rev + fs)
  }

  /** Opens the target for the plan: "wb" at zero, "ab" further on, nothing when leaving it. */
  function Carry(s: State, name: string, size: nat, plan: Plan): State {
    match plan
    case Leave => s.(rcv := Skipping(name, size))
    case Write(o) =>
      s.(rcv := Receiving(name, size, o), dir := if o == 0 then s.dir[name := []] else s.dir)
  }

  function Complete(s: State): State {
    Respond(s.(rcv := AwaitMeta, completed := s.completed + 1), [DoneAck])
  }

  function Replies(rs: seq<Reply>): seq<Rev> {
    if rs == [] then [] else [Reply(rs[0])] + Replies(rs[1..])
  }

  function Offer(b: Batch, s: State, name: string, size: nat): State
    requires b.Valid()
  {
    var resp := Decide(b.cfg, Lookup(s.dir, name), size);
    var s1 := Respond(s, [ResumeResp(resp)]);
    if resp.action == VerifyFirst then s1.(rcv := AwaitVerify(name, size, resp))
    else Carry(s1, name, size, PlanOf(b.cfg, resp, size))
  }

  /** NEVER mode without a request: acknowledge zero and take data from the start. */
  function Fallback(s: State, name: string, size: nat): State {
    Carry(Respond(s, [Reply(DataAck(0))]), name, size, Write(0))
  }

  function TakeChunk(s: State, c: Chunk): State
    requires s.rcv.Receiving?
  {
    var r := s.rcv;
    var file := if r.name in s.dir then s.dir[r.name] else [];
    var (rx', out) := OnData(Rx(r.written, file), c);
    Respond(s.(rcv := Receiving(r.name, r.size, rx'.written), dir := s.dir[r.name := rx'.file]), Replies(out))
  }

  function ReceiverReceives(b: Batch, s: State, f: Fwd): State
    requires b.Valid()
  {
    match s.rcv
    case AwaitMeta =>
      (match f
       case Meta(name, size) => s.(rcv := AwaitReq(name, size))
       case Eot => Respond(s.(rcv := Ended), [EotAck])
       case _ => s.(rcvAlive := false))
    case AwaitReq(name, size) =>
      if f.ResumeReq? then Offer(b, s, name, size)
      else if b.cfg.mode == Never then Fallback(s, name, size)
      else s
    case AwaitVerify(name, size, resp) =>
      (match f
       case ResumeReq => Respond(s, [ResumeResp(resp)])
       case Verify(start, crc, length) =>
         var file := if name in s.dir then s.dir[name] else [];
         var v := OnVerify(b.cfg, file, start, crc, length);
         Carry(Respond(s, [VerifyResult(v)]), name, size, PlanAfter(b.cfg, resp, v, size))
       case Meta(_, _) => s.(rcvAlive := false)
       case _ => s)
    case Receiving(name, size, written) =>
      (match f
       case Data(c) => TakeChunk(s, c)
       case Done => Complete(s)
       case Meta(_, _) => s.(rcvAlive := false)
       case _ => s)
    case Skipping(name, size) =>
      (match f
       case Done => Complete(s)
       case Eot => Respond(s.(rcv := Ended), [EotAck])
       case _ => s)
    case Ended => s
  }

  // ---------- Runs ----------

  datatype Step =
    | SndFrame        // the sender takes the next reply
    | SndTimeout      // the sender's wait ends, it resends
    | SndGivesUp
    | RcvFrame        // the receiver takes the next frame
    | RcvTimeout      // NEVER mode stops waiting for a request
    | RcvGivesUp
    | LoseFwd
    | LoseRev

  function PopFwd(s: State): State
    requires s.fwd != []
  {
    s.(fwd := s.fwd[1..], stale := if s.stale > 0 then s.stale - 1 else 0)
  }

  function PopRev(s: State): State
    requires s.rev != []
  {
    s.(rev := s.rev[1..])
  }

  predicate Located(b: Batch, s: State) {
    s.current <= |b.files| && (!s.snd.AwaitEot? && !s.snd.Succeeded? ==> s.current < |b.files|)
  }

  predicate Enabled(b: Batch, s: State, step: Step) {
    match step
    case SndFrame => s.sndAlive && !s.snd.Succeeded? && s.rev != [] && Located(b, s)
    case SndTimeout => s.sndAlive && Located(b, s)
    case SndGivesUp => s.sndAlive && !s.snd.Succeeded?
    case RcvFrame => s.rcvAlive && !s.rcv.Ended? && s.fwd != []
    case RcvTimeout => s.rcvAlive && s.rcv.AwaitReq? && b.cfg.mode == Never
    case RcvGivesUp => s.rcvAlive && !s.rcv.Ended?
    case LoseFwd => s.fwd != []
    case LoseRev => s.rev != []
  }

  function Apply(b: Batch, s: State, step: Step): State
    requires b.Valid() && Enabled(b, s, step)
  {
    match step
    case SndFrame => SenderReceives(b, PopRev(s), s.rev[0])
    case SndTimeout => SenderTimesOut(b, s)
    case SndGivesUp => s.(sndAlive := false)
    case RcvFrame => ReceiverReceives(b, PopFwd(s), s.fwd[0])
    case RcvTimeout => Fallback(s, s.rcv.name, s.rcv.size)
    case RcvGivesUp => s.(rcvAlive := false)
    case LoseFwd => PopFwd(s)
    case LoseRev => PopRev(s)
  }

  function InitState(b: Batch): State
    requires b.Valid()
  {
    StartFile(b, State(AwaitResp, true, 0, AwaitMeta, true, b.dir, [], [], 0, 0), 0)
  }

  ghost predicate IsRun(b: Batch, run: seq<State>, steps: seq<Step>) {
    && b.Valid() && |run| == |steps| + 1 && run[0] == InitState(b)
    && forall k :: 0 <= k < |steps| ==> Enabled(b, run[k], steps[k]) && run[k + 1] == Apply(b, run[k], steps[k])
  }

  // ---------- What the batch should do to the directory ----------

  function Stored(b: Batch, d: Dir, f: SourceFile): Dir
    requires b.Valid()
  {
    match Deliver(b.cfg, Lookup(d, f.name), f.src)
    case None => d
    case Some(content) => d[f.name := content]
  }

  /** The directory after the first k files, each handled by the reference rule. */
  function DirAfter(b: Batch, k: nat): Dir
    requires b.Valid() && k <= |b.files|
  {
    if k == 0 then b.dir else Stored(b, DirAfter(b, k - 1), b.files[k - 1])
  }
}
