/**
  One file over a channel that may lose, duplicate and reorder frames. The channel
  is the set of everything ever sent: a frame in it may be delivered any number of
  times, in any order, or never. Timeouts may strike at any moment.
 */
module LossyTransfer {
  import opened Crc32
  import opened DataPhase

  datatype Sender = Waiting(tx: Tx) | Closing

  datatype State = State(
    sender: Sender, rx: Rx, receiving: bool,
    data: set<Chunk>, replies: set<Reply>, done: bool,
    accepts: seq<nat>)   // history: offsets at which non-empty data was written

  datatype Step =
    | Deliver(chunk: Chunk)      // a DATA frame reaches the receiver
    | Answer(reply: Reply, w: nat)  // a reply reaches the sender, whose session then allows window w
    | Timeout(win: nat)          // the sender's wait ends without a frame
    | Close                      // a DONE reaches the receiver

  ghost function ToSet<T>(s: seq<T>): set<T> { set x | x in s }

  /** Top of the sender's outer loop: refill, or send DONE when all is acknowledged. */
  ghost function Go(t: Transfer, s: State, tx: Tx): State
    requires t.Valid()
  {
    if tx.acked < |t.src| then Refill(t, s, tx)
    else s.(sender := Closing, done := true)
  }

  ghost function Refill(t: Transfer, s: State, tx: Tx): State
    requires t.Valid()
  {
    var (tx', chunks) := Fill(t.src, tx, t.maxPayload);
    s.(sender := Waiting(tx'), data := s.data + ToSet(chunks))
  }

  ghost predicate Init(t: Transfer, s: State) {
    && t.Valid()
    && exists win :: 1 <= win <= t.negotiated && s == InitState(t, win)
  }

  ghost function InitState(t: Transfer, win: nat): State
    requires t.Valid()
  {
    var r := t.Start();
    Go(t, State(Closing, Rx(r, t.base), true, {}, {}, false, []), Tx(r, r, 0, win))
  }

  ghost predicate Enabled(t: Transfer, s: State, step: Step) {
    match step
    case Deliver(c) => s.receiving && c in s.data
    case Answer(r, w) => s.sender.Waiting? && r in s.replies && 1 <= w <= t.negotiated
    case Timeout(win) => s.sender.Waiting? && 1 <= win <= t.negotiated
    case Close => s.receiving && s.done
  }

  ghost function Apply(t: Transfer, s: State, step: Step): State
    requires t.Valid() && Enabled(t, s, step)
  {
    match step
    case Deliver(c) =>
      var (rx', out) := OnData(s.rx, c);
      s.(rx := rx', replies := s.replies + ToSet(out),
         accepts := if InOrder(s.rx, c) && c.bytes != [] then s.accepts + [s.rx.written] else s.accepts)
    case Answer(r, w) =>
      var tx := s.sender.tx;
      (match r
       case DataAck(off) =>
         var tx' := OnAck(tx, off, t.maxPayload);
         if off <= tx.acked || off < tx.next then s.(sender := Waiting(tx')) else Go(t, s, tx')
       case DataNak(next) => Refill(t, s, OnNak(tx, next, |t.src|, w)))
    case Timeout(win) => Refill(t, s, Rewind(s.sender.tx, win))
    case Close => s.(receiving := false)
  }

  ghost predicate IsRun(t: Transfer, run: seq<State>, steps: seq<Step>) {
    && t.Valid() && |run| == |steps| + 1 && Init(t, run[0])
    && forall i :: 0 <= i < |steps| ==> Enabled(t, run[i], steps[i]) && run[i + 1] == Apply(t, run[i], steps[i])
  }

  // ---------- At most one DATA outstanding ----------

  /** The window is one packet, or what is left fits in one packet anyway. */
  predicate OneAtATime(t: Transfer)
    requires t.Valid()
  {
    t.negotiated == 1 || |t.src| - t.Start() <= t.Cut()
  }

  /** Where the chunk that starts at `b` ends. */
  function EndOf(t: Transfer, b: nat): nat
    requires t.Valid() && b <= |t.src|
  {
    CutEnd(|t.src|, b, t.maxPayload)
  }

  ghost predicate SenderInv(t: Transfer, s: State) {
    && t.Valid()
    && (s.sender.Waiting? ==>
          var tx := s.sender.tx;
          && t.Start() <= tx.acked < |t.src|
          && tx.next == EndOf(t, tx.acked) && tx.inflight == 1 && 1 <= tx.win <= t.negotiated)
    && (s.done <==> s.sender.Closing?)
  }

  /** What the sender has seen acknowledged; everything once it is closing. */
  ghost function Acked(t: Transfer, s: State): nat {
    if s.sender.Waiting? then s.sender.tx.acked else |t.src|
  }

  ghost predicate ReceiverInv(t: Transfer, s: State)
    requires SenderInv(t, s)
  {
    && t.Start() <= Acked(t, s) <= s.rx.written <= |t.src|
    && (s.sender.Waiting? ==> s.rx.written == Acked(t, s) || s.rx.written == s.sender.tx.next)
    && s.rx.file == t.base + t.src[t.Start()..s.rx.written]
  }

  ghost predicate GoodChunk(t: Transfer, s: State, c: Chunk)
    requires t.Valid()
  {
    && c.offset.Some? && c.offset.value <= Acked(t, s) && c.offset.value < |t.src|
    && c.bytes == t.src[c.offset.value..EndOf(t, c.offset.value)]
  }

  ghost predicate GoodReply(t: Transfer, s: State, r: Reply) {
    r.DataAck? && (r.offset <= Acked(t, s) || r.offset == s.rx.written)
  }

  ghost predicate ChannelInv(t: Transfer, s: State)
    requires t.Valid()
  {
    && (forall c :: c in s.data ==> GoodChunk(t, s, c))
    && (forall r :: r in s.replies ==> GoodReply(t, s, r))
  }

  /** The writes are the consecutive cuts of the file from the start offset on. */
  ghost predicate AcceptsInv(t: Transfer, s: State)
    requires t.Valid()
  {
    && (forall k :: 0 <= k < |s.accepts| ==> t.Start() <= s.accepts[k] < |t.src|)
    && (forall k :: 0 < k < |s.accepts| ==> s.accepts[k] == s.accepts[k - 1] + t.Cut())
    && (s.accepts == [] ==> s.rx.written == t.Start())
    && (s.accepts != [] ==>
          && s.accepts[0] == t.Start()
          && s.rx.written == Min(|t.src|, s.accepts[|s.accepts| - 1] + t.Cut()))
  }

  ghost predicate Inv(t: Transfer, s: State) {
    SenderInv(t, s) && ReceiverInv(t, s) && ChannelInv(t, s) && AcceptsInv(t, s)
  }

  /** With at most one DATA allowed, filling from a clean position sends one explicit chunk. */
  lemma FillSendsOne(t: Transfer, tx: Tx)
    requires t.Valid() && OneAtATime(t)
    requires tx.acked == tx.next && tx.inflight == 0 && t.Start() <= tx.acked < |t.src|
    requires 1 <= tx.win <= t.negotiated
    ensures var (tx', chunks) := Fill(t.src, tx, t.maxPayload);
            && tx' == Tx(tx.acked, EndOf(t, tx.acked), 1, tx.win)
            && chunks == [Chunk(Some(tx.acked), t.src[tx.acked..EndOf(t, tx.acked)])]
  {
    var tx1 := AfterSend(|t.src|, tx, t.maxPayload);
    assert tx1.next == EndOf(t, tx.acked);
    assert Fill(t.src, tx1, t.maxPayload) == (tx1, []);
  }

  lemma RefillKeeps(t: Transfer, s: State, tx: Tx)
    requires Inv(t, s) && OneAtATime(t)
    requires tx.acked == tx.next && tx.inflight == 0 && 1 <= tx.win <= t.negotiated
    requires s.sender.Waiting? && s.sender.tx.acked <= tx.acked < |t.src| && tx.acked <= s.rx.written
    requires s.rx.written == tx.acked || (tx.acked == s.sender.tx.acked && s.rx.written == s.sender.tx.next)
    ensures Inv(t, Refill(t, s, tx))
  {
    FillSendsOne(t, tx);
    var s' := Refill(t, s, tx);
    assert Acked(t, s) <= Acked(t, s') == tx.acked;
    assert forall c :: c in s'.data ==> c in s.data || c == Chunk(Some(tx.acked), t.src[tx.acked..EndOf(t, tx.acked)]);
  }

  lemma FileGrows(t: Transfer, b: nat, e: nat)
    requires t.Valid() && t.Start() <= b <= e <= |t.src|
    ensures (t.base + t.src[t.Start()..b]) + t.src[b..e] == t.base + t.src[t.Start()..e]
  {}

  lemma AcceptKeeps(t: Transfer, s: State, c: Chunk)
    requires SenderInv(t, s) && ReceiverInv(t, s) && Enabled(t, s, Deliver(c))
    requires GoodChunk(t, s, c) && c.offset.value == s.rx.written
    ensures var s' := Apply(t, s, Deliver(c));
            SenderInv(t, s') && ReceiverInv(t, s')
    ensures OnData(s.rx, c).1 == [DataAck(EndOf(t, s.rx.written))]
  {
    var b := c.offset.value;
    assert s.sender.Waiting? && b == s.sender.tx.acked;
    FileGrows(t, b, EndOf(t, b));
    var s' := Apply(t, s, Deliver(c));
    assert s'.rx == Rx(EndOf(t, b), s.rx.file + c.bytes) && s'.sender == s.sender;
  }

  lemma AcceptIsNextCut(t: Transfer, s: State, c: Chunk)
    requires t.Valid() && AcceptsInv(t, s) && Enabled(t, s, Deliver(c))
    requires GoodChunk(t, s, c) && c.offset.value == s.rx.written
    ensures AcceptsInv(t, Apply(t, s, Deliver(c)))
  {
    var s' := Apply(t, s, Deliver(c));
    assert s'.accepts == s.accepts + [s.rx.written];
  }

  lemma DeliverKeeps(t: Transfer, s: State, c: Chunk)
    requires Inv(t, s) && Enabled(t, s, Deliver(c))
    ensures Inv(t, Apply(t, s, Deliver(c)))
  {
    var s' := Apply(t, s, Deliver(c));
    assert GoodChunk(t, s, c);
    if c.offset.value == s.rx.written {
      AcceptKeeps(t, s, c);
      AcceptIsNextCut(t, s, c);
    }
    hide EndOf, AcceptsInv;
    forall c' | c' in s'.data ensures GoodChunk(t, s', c') {
      assert GoodChunk(t, s, c');
    }
    forall r | r in s'.replies ensures GoodReply(t, s', r) {
      assert r in s.replies ==> GoodReply(t, s, r);
    }
  }

  lemma AckAdvances(t: Transfer, s: State, r: Reply)
    requires SenderInv(t, s) && ReceiverInv(t, s) && GoodReply(t, s, r)
    requires s.sender.Waiting? && r.offset > s.sender.tx.acked
    ensures OnAck(s.sender.tx, r.offset, t.maxPayload) == Tx(s.rx.written, s.rx.written, 0, s.sender.tx.win)
    ensures r.offset == s.rx.written == s.sender.tx.next
  {
    assert r.offset == s.sender.tx.next;
    WholeAck(s.sender.tx, t.maxPayload);
    hide OnAck;
  }

  lemma FinishKeeps(t: Transfer, s: State)
    requires Inv(t, s) && s.rx.written == |t.src|
    ensures Inv(t, s.(sender := Closing, done := true))
  {
    var s' := s.(sender := Closing, done := true);
    forall c | c in s'.data ensures GoodChunk(t, s', c) {
      assert GoodChunk(t, s, c);
    }
    forall r | r in s'.replies ensures GoodReply(t, s', r) {
      assert GoodReply(t, s, r);
    }
  }

  lemma AnswerKeeps(t: Transfer, s: State, r: Reply, w: nat)
    requires Inv(t, s) && OneAtATime(t) && Enabled(t, s, Answer(r, w))
    ensures Inv(t, Apply(t, s, Answer(r, w)))
  {
    assert GoodReply(t, s, r);
    var tx := s.sender.tx;
    if r.offset > tx.acked {
      AckAdvances(t, s, r);
      if s.rx.written < |t.src| {
        RefillKeeps(t, s, OnAck(tx, r.offset, t.maxPayload));
      } else {
        FinishKeeps(t, s);
      }
    }
  }

  lemma StepKeeps(t: Transfer, s: State, step: Step)
    requires Inv(t, s) && OneAtATime(t) && Enabled(t, s, step)
    ensures Inv(t, Apply(t, s, step))
  {
    match step
    case Deliver(c) => DeliverKeeps(t, s, c);
    case Answer(r, w) => AnswerKeeps(t, s, r, w);
    case Timeout(win) => RefillKeeps(t, s, Rewind(s.sender.tx, win));
    case Close =>
  }

  lemma InitHolds(t: Transfer, s: State)
    requires Init(t, s) && OneAtATime(t)
    ensures Inv(t, s)
  {
    var win :| 1 <= win <= t.negotiated && s == InitState(t, win);
    var tx := Tx(t.Start(), t.Start(), 0, win);
    assert t.src[t.Start()..t.Start()] == [];
    if t.Start() < |t.src| {
      FillSendsOne(t, tx);
    }
  }

  lemma {:induction false} RunKeeps(t: Transfer, run: seq<State>, steps: seq<Step>, n: nat)
    requires IsRun(t, run, steps) && OneAtATime(t) && n < |run|
    ensures Inv(t, run[n])
  {
    if n == 0 {
      InitHolds(t, run[0]);
    } else {
      RunKeeps(t, run, steps, n - 1);
      assert Enabled(t, run[n - 1], steps[n - 1]);
      StepKeeps(t, run[n - 1], steps[n - 1]);
    }
  }

  // ---------- The theorem ----------

  /** What every moment of a transfer should look like. */
  ghost predicate Intact(t: Transfer, s: State)
    requires t.Valid()
  {
    && t.Start() <= Acked(t, s) <= s.rx.written <= |t.src|
    && s.rx.file == t.base + t.src[t.Start()..s.rx.written]
    && (forall r :: r in s.replies ==> r.DataAck?)
    && (s.done ==> s.rx.written == |t.src|)
  }

  function CeilDiv(a: nat, b: nat): nat
    requires b > 0
  {
    (a + b - 1) / b
  }

  /** Every reachable state of every run is intact; a DONE exists only for a complete file. */
  lemma LossyRunsStayIntact(t: Transfer, run: seq<State>, steps: seq<Step>, n: nat)
    requires IsRun(t, run, steps) && OneAtATime(t) && n < |run|
    ensures Intact(t, run[n])
    ensures run[n].done ==> run[n].rx.file == t.base + t.src[t.Start()..]
  {
    RunKeeps(t, run, steps, n);
    hide EndOf, AcceptsInv;
    var s := run[n];
    forall r | r in s.replies ensures r.DataAck? {
      assert GoodReply(t, s, r);
    }
  }

  /** The file is written in exactly its cuts, each once, in order; all of them by DONE. */
  lemma EachCutWrittenOnce(t: Transfer, run: seq<State>, steps: seq<Step>, n: nat)
    requires IsRun(t, run, steps) && OneAtATime(t) && n < |run|
    ensures forall k :: 0 <= k < |run[n].accepts| ==> run[n].accepts[k] == t.Start() + k * t.Cut()
    ensures run[n].done ==> |run[n].accepts| == CeilDiv(|t.src| - t.Start(), t.Cut())
  {
    RunKeeps(t, run, steps, n);
    var s := run[n];
    hide ChannelInv, AcceptsInv;
    forall k | 0 <= k < |s.accepts| ensures s.accepts[k] == t.Start() + k * t.Cut() {
      AcceptOffset(t, s, k);
    }
    if s.done {
      AllCutsWritten(t, s);
    }
  }

  lemma AllCutsWritten(t: Transfer, s: State)
    requires t.Valid() && AcceptsInv(t, s) && s.rx.written == |t.src|
    ensures |s.accepts| == CeilDiv(|t.src| - t.Start(), t.Cut())
  {
    hide CeilDiv;
    if s.accepts != [] {
      var last := |s.accepts| - 1;
      AcceptOffset(t, s, last);
      var done := last * t.Cut();
      assert s.accepts[last] == t.Start() + done;
      CeilIs(|t.src| - t.Start(), t.Cut(), last);
    } else {
      CeilOfZero(t.Cut());
    }
  }

  lemma CeilOfZero(b: nat)
    requires b > 0
    ensures CeilDiv(0, b) == 0
  {}

  lemma {:induction false} AcceptOffset(t: Transfer, s: State, k: nat)
    requires t.Valid() && AcceptsInv(t, s) && k < |s.accepts|
    ensures s.accepts[k] == t.Start() + k * t.Cut()
  {
    if k > 0 {
      AcceptOffset(t, s, k - 1);
      assert k * t.Cut() == (k - 1) * t.Cut() + t.Cut();
    }
  }

  lemma CeilIs(a: nat, b: nat, k: nat)
    requires b > 0 && k * b < a <= k * b + b
    ensures CeilDiv(a, b) == k + 1
  {
    var x := a + b - 1;
    assert (k + 1) * b == k * b + b;
    assert x == (k + 1) * b + (x - (k + 1) * b);
    DivIs(x, b, k + 1);
  }

  lemma DivIs(x: nat, b: nat, q: nat)
    requires b > 0 && q * b <= x < q * b + b
    ensures x / b == q
  {
    var d := x / b;
    assert x == d * b + x % b;
    assert d < q ==> (d + 1) * b <= q * b;
    assert d > q ==> (q + 1) * b <= d * b;
  }

  // ---------- Negative acknowledgements, for every window ----------

  /** Everything the sender says or believes lies at or behind what the receiver has written. */
  ghost predicate NothingAhead(s: State) {
    && (s.sender.Waiting? ==> s.sender.tx.acked <= s.rx.written)
    && (forall c :: c in s.data && c.offset.Some? ==> c.offset.value <= s.rx.written)
    && (forall r :: r in s.replies ==> r.DataAck? && r.offset <= s.rx.written)
  }

  /** A fill names no offset but the acknowledged one. */
  lemma {:induction false} FillNamesAcked(src: seq<Byte>, tx: Tx, maxPayload: nat)
    requires maxPayload > 8
    ensures forall c :: c in Fill(src, tx, maxPayload).1 && c.offset.Some? ==> c.offset.value == tx.acked
    decreases |src| - tx.next
  {
    if tx.inflight < tx.win && tx.next < |src| {
      FillNamesAcked(src, AfterSend(|src|, tx, maxPayload), maxPayload);
    }
  }

  lemma RefillNothingAhead(t: Transfer, s: State, tx: Tx)
    requires t.Valid() && NothingAhead(s) && tx.acked <= s.rx.written
    ensures NothingAhead(Refill(t, s, tx)) && NothingAhead(Go(t, s, tx))
  {
    FillNamesAcked(t.src, tx, t.maxPayload);
    hide Fill;
  }

  lemma StepNothingAhead(t: Transfer, s: State, step: Step)
    requires t.Valid() && NothingAhead(s) && Enabled(t, s, step)
    ensures NothingAhead(Apply(t, s, step))
  {
    hide Refill, Go;
    match step
    case Deliver(c) =>
    case Answer(r, w) => RefillNothingAhead(t, s, OnAck(s.sender.tx, r.offset, t.maxPayload));
    case Timeout(win) => RefillNothingAhead(t, s, Rewind(s.sender.tx, win));
    case Close =>
  }

  /** Whatever the window and whatever the channel does, no NAK is ever sent. */
  lemma {:induction false} NoNakEver(t: Transfer, run: seq<State>, steps: seq<Step>, n: nat)
    requires IsRun(t, run, steps) && n < |run|
    ensures NothingAhead(run[n]) && forall r :: r in run[n].replies ==> r.DataAck?
  {
    if n == 0 {
      var win :| 1 <= win <= t.negotiated && run[0] == InitState(t, win);
      var r := t.Start();
      RefillNothingAhead(t, State(Closing, Rx(r, t.base), true, {}, {}, false, []), Tx(r, r, 0, win));
    } else {
      NoNakEver(t, run, steps, n - 1);
      assert Enabled(t, run[n - 1], steps[n - 1]);
      hide Apply, Enabled;
      StepNothingAhead(t, run[n - 1], steps[n - 1]);
    }
  }
}
