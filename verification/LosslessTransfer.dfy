/**
  One file, any window, over two lossless FIFO pipes with no timeout: every DATA that
  carries no offset is written where it was cut, each window is drained before the
  next one starts, and every maximal run ends with the whole file in place.
 */
module LosslessTransfer {
  import opened Crc32
  import opened DataPhase

  datatype Phase = Filling | Waiting | Closed

  datatype Pipes = Pipes(phase: Phase, tx: Tx, rx: Rx, fwd: seq<Chunk>, rev: seq<Reply>)

  datatype Move = SendOne | DeliverOne | AnswerOne

  predicate HasRoom(t: Transfer, tx: Tx) {
    tx.inflight < tx.win && tx.next < |t.src|
  }

  function PhaseAfterFill(t: Transfer, tx: Tx): Phase {
    if HasRoom(t, tx) then Filling else Waiting
  }

  function Begin(t: Transfer, win: nat): Pipes {
    var r := |t.base|;
    Pipes(if r < |t.src| then Filling else Closed, Tx(r, r, 0, win), Rx(r, t.base), [], [])
  }

  predicate CanMove(t: Transfer, p: Pipes, m: Move) {
    match m
    case SendOne => p.phase == Filling && HasRoom(t, p.tx)
    case DeliverOne => p.fwd != []
    case AnswerOne => p.phase == Waiting && p.rev != []
  }

  function Do(t: Transfer, p: Pipes, m: Move): Pipes
    requires t.Valid() && CanMove(t, p, m)
  {
    match m
    case SendOne =>
      var tx' := AfterSend(|t.src|, p.tx, t.maxPayload);
      p.(tx := tx', phase := PhaseAfterFill(t, tx'), fwd := p.fwd + [NextChunk(t.src, p.tx, t.maxPayload)])
    case DeliverOne =>
      var (rx', out) := OnData(p.rx, p.fwd[0]);
      p.(rx := rx', fwd := p.fwd[1..], rev := p.rev + out)
    case AnswerOne =>
      match p.rev[0]
      case DataAck(off) =>
        var tx' := OnAck(p.tx, off, t.maxPayload);
        p.(tx := tx', rev := p.rev[1..],
           phase := if off <= p.tx.acked || off < p.tx.next then Waiting
                    else if tx'.acked < |t.src| then PhaseAfterFill(t, tx') else Closed)
      case DataNak(next) =>
        var tx' := OnNak(p.tx, next, |t.src|, p.tx.win);
        p.(tx := tx', rev := p.rev[1..], phase := PhaseAfterFill(t, tx'))
  }

  ghost predicate IsPipeRun(t: Transfer, win: nat, run: seq<Pipes>, moves: seq<Move>) {
    && t.Valid() && 1 <= win <= t.negotiated && |run| == |moves| + 1 && run[0] == Begin(t, win)
    && forall i :: 0 <= i < |moves| ==> CanMove(t, run[i], moves[i]) && run[i + 1] == Do(t, run[i], moves[i])
  }

  // ---------- What is in the pipes ----------

  /** The chunks in flight are consecutive cuts of src[from..to], each offset true. */
  ghost predicate Aligned(src: seq<Byte>, cs: seq<Chunk>, from: nat, to: nat)
    requires to <= |src|
    decreases |cs|
  {
    if cs == [] then from == to
    else
      var c := cs[0];
      && c.bytes != [] && from + |c.bytes| <= to
      && c.bytes == src[from..from + |c.bytes|]
      && (c.offset.None? || c.offset.value == from)
      && Aligned(src, cs[1..], from + |c.bytes|, to)
  }

  /** The replies in flight are rising acknowledgements, the last one current. */
  ghost predicate Rising(rs: seq<Reply>, from: nat, to: nat)
    decreases |rs|
  {
    if rs == [] then from == to
    else rs[0].DataAck? && from < rs[0].offset <= to && Rising(rs[1..], rs[0].offset, to)
  }

  lemma {:induction false} AlignedAppend(src: seq<Byte>, cs: seq<Chunk>, from: nat, mid: nat, c: Chunk)
    requires mid + |c.bytes| <= |src| && Aligned(src, cs, from, mid)
    requires c.bytes != [] && c.bytes == src[mid..mid + |c.bytes|]
    requires c.offset.None? || c.offset.value == mid
    ensures Aligned(src, cs + [c], from, mid + |c.bytes|)
    decreases |cs|
  {
    var to := mid + |c.bytes|;
    if cs == [] {
      assert [c][1..] == [] && cs + [c] == [c];
      assert Aligned(src, [], to, to);
    } else {
      AlignedAppend(src, cs[1..], from + |cs[0].bytes|, mid, c);
      assert (cs + [c])[1..] == cs[1..] + [c];
      assert (cs + [c])[0] == cs[0];
    }
  }

  lemma {:induction false} RisingAppend(rs: seq<Reply>, from: nat, mid: nat, to: nat)
    requires Rising(rs, from, mid) && mid < to
    ensures Rising(rs + [DataAck(to)], from, to)
    decreases |rs|
  {
    if rs == [] {
      assert rs + [DataAck(to)] == [DataAck(to)] && [DataAck(to)][1..] == [];
    } else {
      RisingAppend(rs[1..], rs[0].offset, mid, to);
      assert (rs + [DataAck(to)])[1..] == rs[1..] + [DataAck(to)];
    }
  }

  lemma {:induction false} AlignedBounds(src: seq<Byte>, cs: seq<Chunk>, from: nat, to: nat)
    requires to <= |src| && Aligned(src, cs, from, to)
    ensures from <= to && (from == to ==> cs == [])
    decreases |cs|
  {
    if cs != [] {
      AlignedBounds(src, cs[1..], from + |cs[0].bytes|, to);
    }
  }

  lemma {:induction false} RisingBounds(rs: seq<Reply>, from: nat, to: nat)
    requires Rising(rs, from, to)
    ensures from <= to && (from == to ==> rs == [])
    decreases |rs|
  {
    if rs != [] {
      RisingBounds(rs[1..], rs[0].offset, to);
    }
  }

  /** The payloads in flight, end to end. */
  ghost function Payloads(cs: seq<Chunk>): seq<Byte>
    decreases |cs|
  {
    if cs == [] then [] else cs[0].bytes + Payloads(cs[1..])
  }

  lemma {:induction false} AlignedPayloads(src: seq<Byte>, cs: seq<Chunk>, from: nat, to: nat)
    requires to <= |src| && Aligned(src, cs, from, to)
    ensures from <= to && Payloads(cs) == src[from..to]
    decreases |cs|
  {
    if cs != [] {
      var mid := from + |cs[0].bytes|;
      AlignedPayloads(src, cs[1..], mid, to);
      assert src[from..mid] + src[mid..to] == src[from..to];
    }
  }

  // ---------- The invariant ----------

  ghost predicate PipesInv(t: Transfer, p: Pipes) {
    && t.Valid() && 1 <= p.tx.win <= t.negotiated
    && t.Start() <= p.tx.acked <= p.rx.written <= p.tx.next <= |t.src|
    && p.rx.file == t.base + t.src[t.Start()..p.rx.written]
    && Aligned(t.src, p.fwd, p.rx.written, p.tx.next)
    && Rising(p.rev, p.tx.acked, p.rx.written)
    && |p.fwd| + |p.rev| <= p.tx.win
    && (p.phase == Filling ==> HasRoom(t, p.tx) && |p.fwd| + |p.rev| == p.tx.inflight)
    && (p.phase == Waiting ==> p.tx.acked < p.tx.next)
    && (p.phase == Closed ==> p.tx.acked == |t.src|)
  }

  lemma SendKeeps(t: Transfer, p: Pipes)
    requires PipesInv(t, p) && CanMove(t, p, SendOne)
    ensures PipesInv(t, Do(t, p, SendOne))
  {
    var c := NextChunk(t.src, p.tx, t.maxPayload);
    AlignedAppend(t.src, p.fwd, p.rx.written, p.tx.next, c);
  }

  lemma DeliverKeepsOrder(t: Transfer, p: Pipes)
    requires PipesInv(t, p) && CanMove(t, p, DeliverOne)
    ensures PipesInv(t, Do(t, p, DeliverOne))
    ensures OnData(p.rx, p.fwd[0]).1 == [DataAck(p.rx.written + |p.fwd[0].bytes|)]
  {
    var w, c := p.rx.written, p.fwd[0];
    var w' := w + |c.bytes|;
    RisingAppend(p.rev, p.tx.acked, w, w');
    AlignedBounds(t.src, p.fwd[1..], w', p.tx.next);
    assert t.src[t.Start()..w] + t.src[w..w'] == t.src[t.Start()..w'];
    assert InOrder(p.rx, c);
    hide Aligned, Rising;
    assert p.rx.file + c.bytes == t.base + t.src[t.Start()..w'];
  }

  /** An acknowledgement ends the window only when both pipes have run empty. */
  lemma AnswerKeepsOrder(t: Transfer, p: Pipes)
    requires PipesInv(t, p) && CanMove(t, p, AnswerOne)
    ensures PipesInv(t, Do(t, p, AnswerOne))
    ensures var q := Do(t, p, AnswerOne);
            q.phase != Waiting ==> q.fwd == [] && q.rev == [] && q.tx.acked == q.tx.next == q.rx.written
  {
    var off := p.rev[0].offset;
    RisingBounds(p.rev[1..], off, p.rx.written);
    if off >= p.tx.next {
      AlignedBounds(t.src, p.fwd, p.rx.written, p.tx.next);
      assert p.rev[1..] == [];
      assert OnAck(p.tx, off, t.maxPayload).inflight == 0;
    }
  }

  lemma {:induction false} PipeRunKeeps(t: Transfer, win: nat, run: seq<Pipes>, moves: seq<Move>, n: nat)
    requires IsPipeRun(t, win, run, moves) && n < |run|
    ensures PipesInv(t, run[n])
  {
    if n == 0 {
      assert t.src[t.Start()..t.Start()] == [];
    } else {
      PipeRunKeeps(t, win, run, moves, n - 1);
      var p, m := run[n - 1], moves[n - 1];
      assert CanMove(t, p, m);
      match m
      case SendOne => SendKeeps(t, p);
      case DeliverOne => DeliverKeepsOrder(t, p);
      case AnswerOne => AnswerKeepsOrder(t, p);
    }
  }

  // ---------- The theorems ----------

  /** In every state of every run, for every window: nothing is misplaced, nothing refused. */
  lemma ImpliedOffsetsResolve(t: Transfer, win: nat, run: seq<Pipes>, moves: seq<Move>, n: nat)
    requires IsPipeRun(t, win, run, moves) && n < |run|
    ensures var p := run[n];
            && t.Start() <= p.tx.acked <= p.rx.written <= p.tx.next <= |t.src|
            && p.rx.file == t.base + t.src[t.Start()..p.rx.written]
            && Payloads(p.fwd) == t.src[p.rx.written..p.tx.next]
            && (forall k :: 0 <= k < |p.rev| ==> p.rev[k].DataAck?)
            && |p.fwd| + |p.rev| <= p.tx.win <= t.negotiated
  {
    PipeRunKeeps(t, win, run, moves, n);
    var p := run[n];
    AlignedPayloads(t.src, p.fwd, p.rx.written, p.tx.next);
    RisingAllAcks(p.rev, p.tx.acked, p.rx.written);
  }

  lemma {:induction false} RisingAllAcks(rs: seq<Reply>, from: nat, to: nat)
    requires Rising(rs, from, to)
    ensures forall k :: 0 <= k < |rs| ==> rs[k].DataAck?
    decreases |rs|
  {
    if rs != [] {
      RisingAllAcks(rs[1..], rs[0].offset, to);
      assert forall k :: 1 <= k < |rs| ==> rs[k] == rs[1..][k - 1];
    }
  }

  /** A window starts only when everything sent before has been written and acknowledged. */
  lemma WindowsDoNotOverlap(t: Transfer, win: nat, run: seq<Pipes>, moves: seq<Move>, n: nat)
    requires IsPipeRun(t, win, run, moves) && n < |moves|
    requires run[n].phase == Waiting && run[n + 1].phase != Waiting
    ensures var q := run[n + 1];
            q.fwd == [] && q.rev == [] && q.tx.acked == q.rx.written == q.tx.next == run[n].tx.next
  {
    PipeRunKeeps(t, win, run, moves, n);
    var p, m := run[n], moves[n];
    assert CanMove(t, p, m) && run[n + 1] == Do(t, p, m);
    if m == AnswerOne {
      AnswerKeepsOrder(t, p);
      RisingAllAcks(p.rev, p.tx.acked, p.rx.written);
    }
  }

  ghost function Work(t: Transfer, p: Pipes): int {
    4 * (|t.src| - p.tx.next) + 2 * |p.fwd| + |p.rev|
  }

  lemma MovesUseUpWork(t: Transfer, p: Pipes, m: Move)
    requires PipesInv(t, p) && CanMove(t, p, m)
    ensures Work(t, Do(t, p, m)) < Work(t, p)
  {
    match m
    case SendOne =>
    case DeliverOne => DeliverKeepsOrder(t, p);
    case AnswerOne => RisingAllAcks(p.rev, p.tx.acked, p.rx.written);
  }

  lemma {:induction false} RunsAreShort(t: Transfer, win: nat, run: seq<Pipes>, moves: seq<Move>, n: nat)
    requires IsPipeRun(t, win, run, moves) && n < |run|
    ensures n + Work(t, run[n]) <= 4 * (|t.src| - t.Start())
  {
    if n > 0 {
      RunsAreShort(t, win, run, moves, n - 1);
      PipeRunKeeps(t, win, run, moves, n - 1);
      assert CanMove(t, run[n - 1], moves[n - 1]);
      MovesUseUpWork(t, run[n - 1], moves[n - 1]);
    }
  }

  /** No run goes on for ever, and one that cannot go on has delivered the file. */
  lemma EveryMaximalRunDelivers(t: Transfer, win: nat, run: seq<Pipes>, moves: seq<Move>)
    requires IsPipeRun(t, win, run, moves)
    ensures |moves| <= 4 * (|t.src| - t.Start())
    ensures (forall m :: !CanMove(t, run[|moves|], m)) ==>
              && run[|moves|].phase == Closed
              && run[|moves|].rx.file == t.base + t.src[t.Start()..]
  {
    var p := run[|moves|];
    RunsAreShort(t, win, run, moves, |moves|);
    PipeRunKeeps(t, win, run, moves, |moves|);
    if forall m :: !CanMove(t, p, m) {
      assert !CanMove(t, p, SendOne) && !CanMove(t, p, DeliverOne) && !CanMove(t, p, AnswerOne);
    }
  }
}
