/**
  How the frames of the data-phase models travel: every DATA and every reply the
  models exchange fits a frame of the negotiated packet size and is read back as the
  same message, and a link that damages frames shows the receiver exactly the
  undamaged ones, in order. The step systems over lossy pipes rest on this.
 */
module DataOnWire {
  import opened Crc32
  import opened Wire
  import opened DataPhase
  import F = Framing
  import Sender

  const LIMIT32: nat := 0x1_0000_0000
  const LIMIT64: nat := 0x1_0000_0000_0000_0000

  // ---------- 64-bit offsets ----------

  /** The 64-bit word whose little-endian bytes spell `n`. */
  function Offset64(n: nat): bv64
    requires n < LIMIT64
  {
    GetLe64(PutWord(n % LIMIT32) + PutWord(n / LIMIT32))
  }

  function OffsetValue(w: bv64): nat {
    GetWord(PutLe64(w)[..4]) + LIMIT32 * GetWord(PutLe64(w)[4..])
  }

  lemma SplitJoins(low: bv32, high: bv32)
    ensures Low32(Join32(low, high)) == low && High32(Join32(low, high)) == high
  {}

  lemma Le64WritesBack(s: seq<Byte>)
    requires |s| == 8
    ensures PutLe64(GetLe64(s)) == s
  {
    hide Low32, High32, Join32, GetLe32, PutLe32;
    SplitJoins(GetLe32(s[..4]), GetLe32(s[4..]));
    Le32RoundTrip(0, s[..4]);
    Le32RoundTrip(0, s[4..]);
    assert s == s[..4] + s[4..];
  }

  lemma OffsetRoundTrip(n: nat)
    requires n < LIMIT64
    ensures OffsetValue(Offset64(n)) == n
  {
    hide PutLe64, GetLe64, PutWord, GetWord;
    var low, high := n % LIMIT32, n / LIMIT32;
    var s := PutWord(low) + PutWord(high);
    Le64WritesBack(s);
    WordRoundTrip(low);
    WordRoundTrip(high);
    assert s[..4] == PutWord(low) && s[4..] == PutWord(high);
  }

  lemma ImpliedBytes()
    ensures PutLe64(F.IMPLIED)[..4] == [255, 255, 255, 255] && PutLe64(F.IMPLIED)[4..] == [255, 255, 255, 255]
  {}

  lemma AllOnes(s: seq<Byte>)
    requires s == [255, 255, 255, 255]
    ensures GetWord(s) == LIMIT32 - 1
  {
    assert s[..2] == [255, 255] && s[2..] == [255, 255];
  }

  /** No offset inside a file can be mistaken for the marker of an implied one. */
  lemma NeverImplied(n: nat)
    requires n < LIMIT64 - 1
    ensures Offset64(n) != F.IMPLIED
  {
    hide PutLe64, Offset64, GetWord;
    OffsetRoundTrip(n);
    ImpliedBytes();
    AllOnes(PutLe64(F.IMPLIED)[..4]);
    AllOnes(PutLe64(F.IMPLIED)[4..]);
  }

  // ---------- Messages as packets ----------

  predicate Addressable(c: Chunk) {
    c.offset.Some? ==> c.offset.value < LIMIT64 - 1
  }

  function AsPacket(c: Chunk): F.Packet
    requires Addressable(c)
  {
    F.Data(if c.offset.Some? then Some(Offset64(c.offset.value)) else None, c.bytes)
  }

  /** What the receiver's data loop makes of a received DATA packet. */
  function AsChunk(r: F.Received): Chunk {
    Chunk(if r.offset == F.IMPLIED then None else Some(OffsetValue(r.offset)), r.payload)
  }

  lemma ChunkReadsBack(c: Chunk)
    requires Addressable(c)
    ensures AsChunk(F.View(AsPacket(c))) == c
  {
    hide Offset64, OffsetValue;
    if c.offset.Some? {
      OffsetRoundTrip(c.offset.value);
      NeverImplied(c.offset.value);
    }
  }

  function ReplyPacket(r: Reply): F.Packet
    requires match r case DataAck(off) => off < LIMIT64 case DataNak(next) => next < LIMIT64
  {
    match r
    case DataAck(off) => F.Ack(F.DATA_ACK, Offset64(off))
    case DataNak(next) => F.Nak(Offset64(next), 1)
  }

  /** What the sender's wait makes of a received acknowledgement. */
  function AsReply(r: F.Received): Reply {
    if r.kind == F.DATA_ACK then DataAck(OffsetValue(r.offset)) else DataNak(OffsetValue(r.offset))
  }

  /** Replies of any offset fit every packet size and are read back unchanged. */
  lemma ReplyReadsBack(r: Reply, mtu: nat)
    requires match r case DataAck(off) => off < LIMIT64 case DataNak(next) => next < LIMIT64
    requires mtu >= 512
    ensures F.Fits(ReplyPacket(r), mtu) && AsReply(F.View(ReplyPacket(r))) == r
  {
    hide Offset64, OffsetValue, PutLe32;
    match r
    case DataAck(off) => OffsetRoundTrip(off);
    case DataNak(next) => OffsetRoundTrip(next);
  }

  // ---------- Everything the sender cuts fits ----------

  /** Any piece of the source that the sender may cut fits a frame of the packet size. */
  lemma CutFits(src: seq<Byte>, maxPayload: nat, c: Chunk, at: nat)
    requires |src| < LIMIT64 && 8 < maxPayload <= MAX_CONTENT && Sender.CutAt(src, maxPayload, c, at)
    ensures Addressable(c) && F.Fits(AsPacket(c), maxPayload + 12)
  {
    hide Offset64, PutLe64;
  }

  lemma NextChunkFits(src: seq<Byte>, tx: Tx, maxPayload: nat)
    requires |src| < LIMIT64 && 8 < maxPayload <= MAX_CONTENT && tx.next < |src|
    ensures Addressable(NextChunk(src, tx, maxPayload))
    ensures F.Fits(AsPacket(NextChunk(src, tx, maxPayload)), maxPayload + 12)
  {
    hide NextChunk, F.Fits, AsPacket;
    Sender.NextChunkIsCut(src, tx, maxPayload);
    CutFits(src, maxPayload, NextChunk(src, tx, maxPayload), tx.next);
  }

  ghost predicate NextCutSurvives(src: seq<Byte>, tx: Tx, maxPayload: nat)
    requires |src| < LIMIT64 && maxPayload > 8 && tx.next < |src|
  {
    F.Survives(AsPacket(NextChunk(src, tx, maxPayload)), maxPayload + 12)
  }

  /** The payload limit the data-phase models assume is exactly the one the code needs. */
  lemma PayloadLimitIsExact(maxPayload: nat)
    requires maxPayload > 8
    ensures (forall src: seq<Byte>, tx: Tx :: |src| < LIMIT64 && tx.next < |src| ==> NextCutSurvives(src, tx, maxPayload))
       <==> maxPayload <= MAX_CONTENT
  {
    hide F.Survives, AsPacket, NextChunk;
    if maxPayload <= MAX_CONTENT {
      F.LargestSafePacketSize(maxPayload + 12);
      forall src: seq<Byte>, tx: Tx | |src| < LIMIT64 && tx.next < |src| ensures NextCutSurvives(src, tx, maxPayload) {
        NextChunkFits(src, tx, maxPayload);
        PacketIsData(NextChunk(src, tx, maxPayload));
      }
    } else {
      var src: seq<Byte>, tx := seq(65528, _ => 0), Tx(0, 0, 0, 1);
      OversizedCut(src, maxPayload);
      assert !NextCutSurvives(src, tx, maxPayload);
    }
  }

  lemma PacketIsData(c: Chunk)
    requires Addressable(c)
    ensures AsPacket(c).Data?
  {}

  lemma OversizedCut(src: seq<Byte>, maxPayload: nat)
    requires |src| == 65528 && maxPayload > MAX_CONTENT
    ensures !NextCutSurvives(src, Tx(0, 0, 0, 1), maxPayload)
  {
    hide F.Parse, F.Send, Offset64;
    var c := NextChunk(src, Tx(0, 0, 0, 1), maxPayload);
    assert c == Chunk(Some(0), src[0..65528]) && src[0..65528] == src;
    F.OversizedDataIsLost(Offset64(0), src, maxPayload + 12);
  }

  // ---------- A link that damages frames ----------

  /** The DATA messages among what a receiver got, in order. */
  function Heard(os: seq<F.Outcome>): seq<Chunk> {
    if os == [] then []
    else (if os[0].Delivered? then [AsChunk(os[0].packet)] else []) + Heard(os[1..])
  }

  /** `xs` is what became of the frames that carried `cs`. */
  ghost predicate Carries(cs: seq<Chunk>, xs: seq<F.Crossing>, mtu: nat) {
    && |xs| == |cs|
    && forall i :: 0 <= i < |xs| ==> Addressable(cs[i]) && xs[i].packet == AsPacket(cs[i]) && F.Crossed(xs[i], mtu)
  }

  /** The messages whose frames were not damaged. */
  ghost function Undamaged(cs: seq<Chunk>, xs: seq<F.Crossing>, mtu: nat): seq<Chunk>
    requires Carries(cs, xs, mtu)
  {
    if cs == [] then []
    else
      assert F.Crossed(xs[0], mtu);
      (if xs[0].wire == F.Sealed(xs[0].packet, mtu) then [cs[0]] else []) + Undamaged(cs[1..], xs[1..], mtu)
  }

  /**
    Bytes in, messages out: however many of the frames are damaged, the receiver hears
    exactly the undamaged messages, each with its offset and payload, in order. This
    is the frame-losing pipe of the step systems.
   */
  lemma {:induction false} LinkOnlyLoses(cs: seq<Chunk>, xs: seq<F.Crossing>, mtu: nat)
    requires mtu >= F.HEADER_SIZE + F.TRAILER_SIZE && Carries(cs, xs, mtu)
    ensures Heard(F.ParseAll(F.Wires(xs), mtu)) == Undamaged(cs, xs, mtu)
  {
    F.DamageIsOnlyLoss(xs, mtu);
    HeardSurviving(cs, xs, mtu);
  }

  lemma {:induction false} HeardSurviving(cs: seq<Chunk>, xs: seq<F.Crossing>, mtu: nat)
    requires Carries(cs, xs, mtu)
    ensures Heard(F.Surviving(xs, mtu)) == Undamaged(cs, xs, mtu)
    decreases |cs|
  {
    hide F.Crossed, F.Sealed, F.View, AsPacket, AsChunk;
    if cs != [] {
      assert F.Crossed(xs[0], mtu);
      ChunkReadsBack(cs[0]);
      HeardSurviving(cs[1..], xs[1..], mtu);
      assert F.Surviving(xs, mtu)[1..] == F.Surviving(xs[1..], mtu);
    }
  }

  /** The frames of messages that all fit, unharmed. */
  ghost function Unharmed(cs: seq<Chunk>, mtu: nat): seq<F.Crossing>
    requires forall i :: 0 <= i < |cs| ==> Addressable(cs[i]) && F.Fits(AsPacket(cs[i]), mtu)
  {
    seq(|cs|, i requires 0 <= i < |cs| => F.Crossing(AsPacket(cs[i]), F.Sealed(AsPacket(cs[i]), mtu)))
  }

  lemma {:induction false} NothingLost(cs: seq<Chunk>, xs: seq<F.Crossing>, mtu: nat)
    requires Carries(cs, xs, mtu)
    requires forall i :: 0 <= i < |xs| ==> F.Fits(xs[i].packet, mtu) && xs[i].wire == F.Sealed(xs[i].packet, mtu)
    ensures Undamaged(cs, xs, mtu) == cs
    decreases |cs|
  {
    hide F.Crossed, F.Sealed, F.Fits, AsPacket;
    if cs != [] {
      NothingLost(cs[1..], xs[1..], mtu);
    }
  }

  /** Whatever a sender's data phase put on an undisturbed wire is heard as it was sent. */
  lemma SentIsHeard(src: seq<Byte>, maxPayload: nat, sent: seq<Chunk>, at: seq<nat>)
    requires |src| < LIMIT64 && 8 < maxPayload <= MAX_CONTENT && Sender.AllCut(src, maxPayload, sent, at)
    ensures forall i :: 0 <= i < |sent| ==> Addressable(sent[i]) && F.Fits(AsPacket(sent[i]), maxPayload + 12)
    ensures Heard(F.ParseAll(F.Wires(Unharmed(sent, maxPayload + 12)), maxPayload + 12)) == sent
  {
    var mtu := maxPayload + 12;
    hide F.Sealed, F.Fits, F.ParseAll, AsPacket, Sender.CutAt;
    forall i | 0 <= i < |sent| ensures Addressable(sent[i]) && F.Fits(AsPacket(sent[i]), mtu) {
      CutFits(src, maxPayload, sent[i], at[i]);
    }
    var xs := Unharmed(sent, mtu);
    LinkOnlyLoses(sent, xs, mtu);
    NothingLost(sent, xs, mtu);
  }
}
