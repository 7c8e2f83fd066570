/**
  The transitions of the single-file data phase: a Go-Back-N sender that puts an
  explicit offset only on the first DATA after its last acknowledged byte, and a
  cumulative-acknowledgement receiver that reads a missing offset as "here".
 */
module DataPhase {
  import opened Crc32

  /** A DATA frame; `None` is the implied offset. */
  datatype Chunk = Chunk(offset: Option<nat>, bytes: seq<Byte>)

  datatype Reply = DataAck(offset: nat) | DataNak(next: nat)

  /** How a call ends. */
  datatype Status = Ok | Aborted | Protocol | TimedOut | BadCrc | Io | LinkDown

  /** Outcomes that local interference can cause at any time. */
  predicate Local(st: Status) { st.Aborted? || st.LinkDown? || st.Io? }

  /** `es` is what a listener to the script `all` hears first, with silence once it is used up. */
  ghost predicate HeardOf<T>(all: seq<T>, rest: seq<T>, es: seq<T>, silence: T) {
    && (forall i :: 0 <= i < |es| ==> es[i] == if i < |all| then all[i] else silence)
    && rest == if |es| <= |all| then all[|es|..] else []
  }

  lemma HeardMore<T>(all: seq<T>, rest: seq<T>, es: seq<T>, silence: T)
    ensures HeardOf(all, rest, es, silence) && rest == [] ==> HeardOf(all, [], es + [silence], silence)
    ensures HeardOf(all, rest, es, silence) && rest != [] ==> HeardOf(all, rest[1..], es + [rest[0]], silence)
  {}

  /** The longest content a frame's 16-bit length field can announce. */
  const MAX_CONTENT: nat := 65535

  /** A transfer: the source, what the target already holds, the payload and window limits. */
  datatype Transfer = Transfer(src: seq<Byte>, base: seq<Byte>, maxPayload: nat, negotiated: nat) {
    predicate Valid() {
      |base| <= |src| && 8 < maxPayload <= MAX_CONTENT && negotiated >= 1
    }

    function Start(): nat { |base| }

    /** Bytes that fit beside an explicit offset. */
    function Cut(): nat
      requires Valid()
    {
      maxPayload - 8
    }
  }

  // ---------- Sender ----------

  datatype Tx = Tx(acked: nat, next: nat, inflight: nat, win: nat)

  function Min(a: nat, b: nat): nat { if a < b then a else b }

  /** Where a cut with an explicit offset that starts at `at` ends. */
  function CutEnd(size: nat, at: nat, maxPayload: nat): nat
    requires maxPayload > 8
  {
    Min(size, at + (maxPayload - 8))
  }

  /** How many bytes the next DATA carries; an explicit offset costs eight. */
  function CutLength(size: nat, tx: Tx, maxPayload: nat): (n: nat)
    requires tx.next < size && maxPayload > 8
    ensures 0 < n <= size - tx.next
  {
    Min(size - tx.next, if tx.next == tx.acked then maxPayload - 8 else maxPayload)
  }

  function NextChunk(src: seq<Byte>, tx: Tx, maxPayload: nat): Chunk
    requires tx.next < |src| && maxPayload > 8
  {
    var n := CutLength(|src|, tx, maxPayload);
    Chunk(if tx.next == tx.acked then Some(tx.next) else None, src[tx.next..tx.next + n])
  }

  function AfterSend(size: nat, tx: Tx, maxPayload: nat): Tx
    requires tx.next < size && maxPayload > 8
  {
    tx.(next := tx.next + CutLength(size, tx, maxPayload), inflight := tx.inflight + 1)
  }

  /** Sends until the window is full or the file is used up. */
  function Fill(src: seq<Byte>, tx: Tx, maxPayload: nat): (r: (Tx, seq<Chunk>))
    requires maxPayload > 8
    ensures r.0.acked == tx.acked && r.0.win == tx.win
    ensures tx.next <= |src| ==> r.0.next <= |src|
    ensures tx.next <= r.0.next
    ensures |r.1| <= if tx.inflight < tx.win then tx.win - tx.inflight else 0
    decreases |src| - tx.next
  {
    if tx.inflight < tx.win && tx.next < |src| then
      var (tx', rest) := Fill(src, AfterSend(|src|, tx, maxPayload), maxPayload);
      (tx', [NextChunk(src, tx, maxPayload)] + rest)
    else (tx, [])
  }

  /** A cumulative acknowledgement; stale ones change nothing. */
  function OnAck(tx: Tx, off: nat, maxPayload: nat): Tx
    requires maxPayload > 0
  {
    if off <= tx.acked then tx
    else
      var outstanding := if tx.next > off then tx.next - off else 0;
      tx.(acked := off, inflight := (outstanding + maxPayload - 1) / maxPayload)
  }

  /** Acknowledging everything sent leaves nothing outstanding. */
  lemma WholeAck(tx: Tx, maxPayload: nat)
    requires maxPayload > 0 && tx.acked < tx.next
    ensures OnAck(tx, tx.next, maxPayload) == Tx(tx.next, tx.next, 0, tx.win)
  {}

  /** Back to the last acknowledged byte, with the window the session now allows. */
  function Rewind(tx: Tx, win: nat): Tx {
    Tx(tx.acked, tx.acked, 0, win)
  }

  function OnNak(tx: Tx, next: nat, size: nat, win: nat): Tx {
    Rewind(if tx.acked < next <= size then tx.(acked := next) else tx, win)
  }

  // ---------- Receiver ----------

  datatype Rx = Rx(written: nat, file: seq<Byte>)

  predicate InOrder(rx: Rx, c: Chunk) {
    c.offset.None? || c.offset.value == rx.written
  }

  function OnData(rx: Rx, c: Chunk): (r: (Rx, seq<Reply>)) {
    if InOrder(rx, c) then
      var rx' := Rx(rx.written + |c.bytes|, rx.file + c.bytes);
      (rx', [DataAck(rx'.written)])
    else if c.offset.value < rx.written then
      (rx, [DataAck(rx.written)])
    else
      (rx, [DataNak(rx.written), DataAck(rx.written)])
  }

  // ---------- The receiver against any traffic at all ----------

  /** Feeds chunks one after another, collecting every reply. */
  function Feed(rx: Rx, cs: seq<Chunk>): (r: (Rx, seq<Reply>))
    decreases |cs|
  {
    if cs == [] then (rx, [])
    else
      var (rx1, out1) := Feed(rx, cs[..|cs| - 1]);
      var (rx2, out2) := OnData(rx1, cs[|cs| - 1]);
      (rx2, out1 + out2)
  }

  /** The acknowledgement offsets carried by a reply sequence, in order. */
  function Acks(rs: seq<Reply>): seq<nat> {
    if rs == [] then []
    else
      var rest := Acks(rs[..|rs| - 1]);
      if rs[|rs| - 1].DataAck? then rest + [rs[|rs| - 1].offset] else rest
  }

  ghost predicate NonDecreasing(s: seq<nat>) {
    forall i, j :: 0 <= i < j < |s| ==> s[i] <= s[j]
  }

  lemma {:induction false} AcksConcat(a: seq<Reply>, b: seq<Reply>)
    ensures Acks(a + b) == Acks(a) + Acks(b)
    decreases |b|
  {
    if b == [] {
      assert a + b == a;
    } else {
      AcksConcat(a, b[..|b| - 1]);
      assert (a + b)[..|a + b| - 1] == a + b[..|b| - 1];
    }
  }

  lemma OneReplyStep(rx: Rx, c: Chunk)
    ensures var (rx', out) := OnData(rx, c);
            && rx.file <= rx'.file && |rx'.file| - |rx.file| == rx'.written - rx.written
            && Acks(out) == [rx'.written]
            && rx'.written >= rx.written
  {
    var (rx', out) := OnData(rx, c);
    if !InOrder(rx, c) && c.offset.value > rx.written {
      assert out[..1] == [DataNak(rx.written)] && out[..1][..0] == [];
      assert Acks(out[..1]) == [];
    } else {
      assert out[..0] == [];
    }
  }

  /**
    Whatever arrives: the file only grows, by exactly the bytes counted; every DATA
    is answered by exactly one acknowledgement; the offsets never go down and the
    last one is the current position.
   */
  lemma {:induction false} ReceiverAgainstAnything(rx: Rx, cs: seq<Chunk>)
    ensures var (rx', out) := Feed(rx, cs);
            && rx.file <= rx'.file
            && |rx'.file| - |rx.file| == rx'.written - rx.written >= 0
            && |Acks(out)| == |cs|
            && NonDecreasing(Acks(out))
            && (forall k :: 0 <= k < |cs| ==> rx.written <= Acks(out)[k] <= rx'.written)
            && (cs != [] ==> Acks(out)[|cs| - 1] == rx'.written)
    decreases |cs|
  {
    if cs != [] {
      var init := cs[..|cs| - 1];
      ReceiverAgainstAnything(rx, init);
      var (rx1, out1) := Feed(rx, init);
      var (rx2, out2) := OnData(rx1, cs[|cs| - 1]);
      OneReplyStep(rx1, cs[|cs| - 1]);
      AcksConcat(out1, out2);
    }
  }
}
