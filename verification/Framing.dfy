/**
  Frames on the byte stream: an 8-byte header, the content, and a CRC-32 trailer.
  Covers what the sender puts on the wire (including the 16-bit length field it
  truncates to), what the receiver reads back, in-place frame building in the send
  buffer, partial reads, and the refinement of corruption to loss.
 */
module Framing {
  import opened Crc32
  import opened Wire

  const HEADER_SIZE: nat := 8
  const TRAILER_SIZE: nat := 4
  const LENGTH_LIMIT: nat := 0x1_0000
  const IMPLIED: bv64 := 0xFFFF_FFFF_FFFF_FFFF

  const DATA: Byte := 5
  const DATA_ACK: Byte := 6
  const EOT_ACK: Byte := 11
  const DONE_ACK: Byte := 12
  const DATA_NAK: Byte := 13

  const OFFSET_PRESENT: Byte := 1
  const ACK_DONE_FILE: Byte := 2
  const ACK_EOT: Byte := 4

  predicate IsAckKind(kind: Byte) {
    kind == DATA_ACK || kind == DONE_ACK || kind == EOT_ACK
  }

  /** What a caller asks to send. */
  datatype Packet =
    | Data(offset: Option<bv64>, bytes: seq<Byte>)
    | Ack(kind: Byte, ackOffset: bv64)
    | Nak(next: bv64, reason: bv32)
    | Control(controlKind: Byte, payload: seq<Byte>)
  {
    predicate Valid() {
      match this
      case Ack(kind, _) => IsAckKind(kind)
      case Control(kind, _) => !IsAckKind(kind) && kind != DATA && kind != DATA_NAK
      case _ => true
    }

    function Kind(): Byte {
      match this
      case Data(_, _) => DATA
      case Ack(kind, _) => kind
      case Nak(_, _) => DATA_NAK
      case Control(kind, _) => kind
    }

    function Flags(): Byte {
      match this
      case Data(off, _) => if off.Some? then OFFSET_PRESENT else 0
      case Ack(kind, _) => if kind == DONE_ACK then ACK_DONE_FILE else if kind == EOT_ACK then ACK_EOT else 0
      case _ => 0
    }

    function TypeData(): bv32 {
      match this
      case Ack(_, off) => Low32(off)
      case Nak(next, _) => Low32(next)
      case _ => 0
    }

    function Content(): seq<Byte> {
      match this
      case Data(off, b) => if off.Some? then PutLe64(off.value) + b else b
      case Ack(_, off) => if High32(off) != 0 then PutLe32(High32(off)) else []
      case Nak(next, reason) => PutLe32(High32(next)) + PutLe32(reason) + PutLe32(0)
      case Control(_, p) => p
    }
  }

  /** What a caller of the receive path sees: type, 64-bit offset, payload. */
  datatype Received = Received(kind: Byte, offset: bv64, payload: seq<Byte>)

  function View(p: Packet): Received {
    match p
    case Data(off, b) => Received(DATA, if off.Some? then off.value else IMPLIED, b)
    case Ack(kind, off) => Received(kind, off, p.Content())
    case Nak(next, _) => Received(DATA_NAK, next, p.Content())
    case Control(kind, b) => Received(kind, 0, b)
  }

  // ---------- Sending ----------

  function Body(kind: Byte, flags: Byte, typeData: bv32, content: seq<Byte>): (s: seq<Byte>)
    requires |content| < LENGTH_LIMIT
    ensures |s| == HEADER_SIZE + |content|
  {
    PutHeader(Header(kind, flags, |content|, typeData)) + content
  }

  function Frame(kind: Byte, flags: Byte, typeData: bv32, content: seq<Byte>): (s: seq<Byte>)
    requires |content| < LENGTH_LIMIT
    ensures |s| == HEADER_SIZE + |content| + TRAILER_SIZE
  {
    var body := Body(kind, flags, typeData, content);
    body + PutLe32(Crc(body))
  }

  /**
    The send path. The content length is kept in 16 bits and range-checked only
    after that truncation, so an oversized content can go out cut short.
   */
  function Send(p: Packet, mtu: nat): (r: Option<seq<Byte>>)
    requires mtu >= HEADER_SIZE + TRAILER_SIZE
  {
    var n := |p.Content()| % LENGTH_LIMIT;
    if n > mtu - HEADER_SIZE - TRAILER_SIZE then None
    else Some(Frame(p.Kind(), p.Flags(), p.TypeData(), p.Content()[..n]))
  }

  // ---------- Receiving ----------

  datatype Outcome =
    | Starved                     // not enough bytes arrived in time
    | BadLength                   // header announces more than the MTU admits
    | Corrupt                     // trailer does not match
    | Malformed                   // explicit-offset DATA shorter than its offset
    | TooLarge                    // payload does not fit the caller's buffer
    | Delivered(packet: Received)

  function Interpret(kind: Byte, flags: Byte, typeData: bv32, content: seq<Byte>): (o: Outcome)
    ensures o.Delivered? ==> |o.packet.payload| <= |content|
    ensures o.Delivered? || o.Malformed?
  {
    if kind == DATA then
      if flags & OFFSET_PRESENT != 0 then
        if |content| < 8 then Malformed
        else Delivered(Received(DATA, GetLe64(content[..8]), content[8..]))
      else Delivered(Received(DATA, IMPLIED, content))
    else if IsAckKind(kind) || kind == DATA_NAK then
      var high := if |content| >= 4 then GetLe32(content[..4]) else 0;
      Delivered(Received(kind, Join32(typeData, high), content))
    else
      Delivered(Received(kind, 0, content))
  }

  /** One receive call on the bytes that will arrive in time, and what is left of them. */
  function Parse(s: seq<Byte>, mtu: nat): (r: (Outcome, seq<Byte>))
    requires mtu >= HEADER_SIZE + TRAILER_SIZE
    ensures r.0 != Starved ==> |r.1| + HEADER_SIZE <= |s|
    ensures r.0.Delivered? ==> |r.0.packet.payload| + HEADER_SIZE + TRAILER_SIZE <= mtu
  {
    if |s| < HEADER_SIZE then (Starved, [])
    else
      var h := GetHeader(s[..HEADER_SIZE]);
      var end := HEADER_SIZE + h.length;
      if h.length > mtu - HEADER_SIZE - TRAILER_SIZE then (BadLength, s[HEADER_SIZE..])
      else if |s| < end + TRAILER_SIZE then (Starved, [])
      else if GetLe32(s[end..end + TRAILER_SIZE]) != Crc(s[..end]) then (Corrupt, s[end + TRAILER_SIZE..])
      else (Interpret(h.kind, h.flags, h.typeData, s[HEADER_SIZE..end]), s[end + TRAILER_SIZE..])
  }

  /** What a caller with room for `cap` bytes gets to see; no room means header only. */
  function Handed(o: Outcome, cap: nat): Outcome {
    if !o.Delivered? then o
    else if cap == 0 then Delivered(o.packet.(payload := []))
    else if |o.packet.payload| > cap then TooLarge
    else o
  }

  /** Receive calls repeated until the stream runs dry or the session gives up. */
  function ParseAll(s: seq<Byte>, mtu: nat): (r: seq<Outcome>)
    requires mtu >= HEADER_SIZE + TRAILER_SIZE
    decreases |s|
  {
    var (o, rest) := Parse(s, mtu);
    if o.Starved? then []
    else [o] + ParseAll(rest, mtu)
  }

  // ---------- Round trip of one frame ----------

  lemma ParseFrame(kind: Byte, flags: Byte, typeData: bv32, content: seq<Byte>, rest: seq<Byte>, mtu: nat)
    requires |content| < LENGTH_LIMIT && |content| + HEADER_SIZE + TRAILER_SIZE <= mtu
    ensures Parse(Frame(kind, flags, typeData, content) + rest, mtu)
         == (Interpret(kind, flags, typeData, content), rest)
  {
    hide PutHeader, GetHeader, Crc, PutLe32, GetLe32, Interpret;
    var h := Header(kind, flags, |content|, typeData);
    var body := Body(kind, flags, typeData, content);
    var s := Frame(kind, flags, typeData, content) + rest;
    var end := HEADER_SIZE + |content|;
    HeaderRoundTrip(h);
    Le32Reads(Crc(body));
    assert s[..HEADER_SIZE] == PutHeader(h);
    assert s[..end] == body;
    assert s[end..end + TRAILER_SIZE] == PutLe32(Crc(body));
    assert s[HEADER_SIZE..end] == content;
    assert s[end + TRAILER_SIZE..] == rest;
  }

  lemma JoinNoHigh(w: bv64)
    requires High32(w) == 0
    ensures Join32(Low32(w), 0) == w
  {}

  lemma InterpretReadsBack(p: Packet)
    requires p.Valid()
    ensures Interpret(p.Kind(), p.Flags(), p.TypeData(), p.Content()) == Delivered(View(p))
  {
    hide PutLe64, GetLe64, PutLe32, GetLe32, Low32, High32, Join32;
    match p
    case Data(off, b) =>
      if off.Some? {
        Le64RoundTrip(off.value);
        assert p.Content()[..8] == PutLe64(off.value);
        assert p.Content()[8..] == b;
      }
    case Ack(kind, off) =>
      JoinSplits(off);
      if High32(off) != 0 {
        Le32Reads(High32(off));
        assert p.Content()[..4] == PutLe32(High32(off));
      } else {
        JoinNoHigh(off);
      }
    case Nak(next, reason) =>
      JoinSplits(next);
      Le32Reads(High32(next));
      assert p.Content()[..4] == PutLe32(High32(next));
    case Control(kind, b) =>
  }

  /** A packet whose content fits arrives as sent and leaves the rest of the stream alone. */
  lemma SendParses(p: Packet, rest: seq<Byte>, mtu: nat)
    requires p.Valid() && mtu >= HEADER_SIZE + TRAILER_SIZE
    requires |p.Content()| < LENGTH_LIMIT && |p.Content()| + HEADER_SIZE + TRAILER_SIZE <= mtu
    ensures Send(p, mtu).Some?
    ensures Parse(Send(p, mtu).value + rest, mtu) == (Delivered(View(p)), rest)
  {
    hide Interpret, Parse, Frame;
    assert p.Content()[..|p.Content()|] == p.Content();
    ParseFrame(p.Kind(), p.Flags(), p.TypeData(), p.Content(), rest, mtu);
    InterpretReadsBack(p);
  }

  // ---------- The layout, byte by byte ----------

  /** Every frame: type, flags, 16-bit length low byte first, content from byte 8, four bytes behind it. */
  lemma FrameLayout(kind: Byte, flags: Byte, typeData: bv32, content: seq<Byte>)
    requires |content| < 65536
    ensures var f := Frame(kind, flags, typeData, content);
            && |f| == |content| + 12 && f[0] == kind && f[1] == flags
            && (f[2] as nat) + 256 * (f[3] as nat) == |content|
            && f[8..8 + |content|] == content
  {
    hide PutLe32, Crc, ByteOf;
    var h := PutHeader(Header(kind, flags, |content|, typeData));
    assert h[2] == PutLe16(|content|)[0] && h[3] == PutLe16(|content|)[1];
  }

  /** DATA is type 5; an explicit offset sets flag 1 and takes the first eight content bytes, low byte first. */
  lemma DataLayout(off: bv64, b: seq<Byte>)
    ensures var p := Data(Some(off), b);
            && p.Kind() == 5 && p.Flags() == 1 && |p.Content()| == 8 + |b| && p.Content()[8..] == b
            && p.Content()[..4] == PutLe32(Low32(off)) && p.Content()[4..8] == PutLe32(High32(off))
    ensures var p := Data(None, b); p.Kind() == 5 && p.Flags() == 0 && p.Content() == b
  {
    hide PutLe32;
  }

  /** Acknowledgements: types 6, 12 and 11 with flags 0, 2 and 4, the offset split over header and content. */
  lemma AckLayout(off: bv64)
    ensures Ack(6, off).Valid() && Ack(6, off).Flags() == 0
    ensures Ack(12, off).Valid() && Ack(12, off).Flags() == 2
    ensures Ack(11, off).Valid() && Ack(11, off).Flags() == 4
    ensures Ack(6, off).TypeData() == Low32(off) && (High32(off) == 0 ==> Ack(6, off).Content() == [])
    ensures Nak(off, 1).Kind() == 13 && Nak(off, 1).TypeData() == Low32(off) && |Nak(off, 1).Content()| == 12
  {
    hide PutLe32, Low32, High32;
  }

  // ---------- Streams of frames ----------

  ghost predicate Fits(p: Packet, mtu: nat) {
    && p.Valid() && mtu >= HEADER_SIZE + TRAILER_SIZE
    && |p.Content()| < LENGTH_LIMIT && |p.Content()| + HEADER_SIZE + TRAILER_SIZE <= mtu
  }

  lemma SendParsesWhenFits(p: Packet, rest: seq<Byte>, mtu: nat)
    requires Fits(p, mtu)
    ensures mtu >= HEADER_SIZE + TRAILER_SIZE && Send(p, mtu).Some?
    ensures Parse(Send(p, mtu).value + rest, mtu) == (Delivered(View(p)), rest)
  {
    hide Parse, Send, View;
    SendParses(p, rest, mtu);
  }

  /** The frame of a packet that fits. */
  ghost function Sealed(p: Packet, mtu: nat): (f: seq<Byte>)
    requires Fits(p, mtu)
    ensures |f| >= HEADER_SIZE + TRAILER_SIZE
  {
    Frame(p.Kind(), p.Flags(), p.TypeData(), p.Content())
  }

  lemma SealedIsSent(p: Packet, mtu: nat)
    requires Fits(p, mtu)
    ensures mtu >= HEADER_SIZE + TRAILER_SIZE && Send(p, mtu) == Some(Sealed(p, mtu))
  {
    hide Frame, Packet.Content, Packet.Valid, Packet.Kind, Packet.Flags, Packet.TypeData;
    assert p.Content()[..|p.Content()|] == p.Content();
  }

  ghost function Stream(ps: seq<Packet>, mtu: nat): seq<Byte>
    requires forall i :: 0 <= i < |ps| ==> Fits(ps[i], mtu)
  {
    if ps == [] then []
    else
      assert Fits(ps[0], mtu);
      Sealed(ps[0], mtu) + Stream(ps[1..], mtu)
  }

  ghost function Views(ps: seq<Packet>): (vs: seq<Outcome>) {
    if ps == [] then [] else [Delivered(View(ps[0]))] + Views(ps[1..])
  }

  /** Any sequence of fitting packets comes back in order, complete and unmixed. */
  lemma {:induction false} StreamRoundTrip(ps: seq<Packet>, mtu: nat)
    requires mtu >= HEADER_SIZE + TRAILER_SIZE
    requires forall i :: 0 <= i < |ps| ==> Fits(ps[i], mtu)
    ensures ParseAll(Stream(ps, mtu), mtu) == Views(ps)
    decreases |ps|
  {
    hide Parse, Send, View, Fits, Sealed;
    if ps == [] {
      ParseNothing(mtu);
    } else {
      assert Fits(ps[0], mtu);
      var rest := Stream(ps[1..], mtu);
      SealedIsSent(ps[0], mtu);
      SendParsesWhenFits(ps[0], rest, mtu);
      StreamRoundTrip(ps[1..], mtu);
    }
  }

  lemma ParseNothing(mtu: nat)
    requires mtu >= HEADER_SIZE + TRAILER_SIZE
    ensures Parse([], mtu) == (Starved, [])
  {}

  // ---------- Exactly which packet sizes are safe ----------

  /** Every DATA packet, offset explicit or implied, that this packet size admits is delivered intact. */
  ghost predicate AllDataSurvives(mtu: nat)
    requires mtu >= HEADER_SIZE + TRAILER_SIZE
  {
    forall p: Packet :: p.Data? && |p.Content()| + HEADER_SIZE + TRAILER_SIZE <= mtu ==> Survives(p, mtu)
  }

  ghost predicate Survives(p: Packet, mtu: nat)
    requires mtu >= HEADER_SIZE + TRAILER_SIZE
  {
    && Send(p, mtu).Some?
    && Parse(Send(p, mtu).value, mtu) == (Delivered(View(p)), [])
  }

  lemma LargestSafePacketSize(mtu: nat)
    requires mtu >= HEADER_SIZE + TRAILER_SIZE
    ensures AllDataSurvives(mtu) <==> mtu <= 65547
  {
    hide Parse, Send, View;
    if mtu <= 65547 {
      forall p: Packet | p.Data? && |p.Content()| + HEADER_SIZE + TRAILER_SIZE <= mtu ensures Survives(p, mtu) {
        SendParses(p, [], mtu);
        assert Send(p, mtu).value + [] == Send(p, mtu).value;
      }
    } else {
      var zeros: seq<Byte> := seq(65528, _ => 0);
      OversizedDataIsLost(0, zeros, mtu);
      assert !Survives(Data(Some(0), zeros), mtu);
    }
  }

  /** A content of exactly 65536 bytes goes out as an empty frame that the peer rejects. */
  lemma OversizedDataIsLost(off: bv64, b: seq<Byte>, mtu: nat)
    requires mtu > 65547 && |b| == 65528
    ensures Send(Data(Some(off), b), mtu).Some?
    ensures Parse(Send(Data(Some(off), b), mtu).value, mtu) == (Malformed, [])
  {
    hide Parse, Frame, PutLe64;
    var p := Data(Some(off), b);
    assert |p.Content()| == 65536;
    assert p.Content()[..0] == [];
    ParseFrame(DATA, OFFSET_PRESENT, 0, [], [], mtu);
    var f := Frame(DATA, OFFSET_PRESENT, 0, []);
    assert f + [] == f;
    assert OFFSET_PRESENT & OFFSET_PRESENT != 0;
  }

  // ---------- Corruption refines to loss ----------

  /** Same length, and equal outside the four bytes starting at `at`. */
  ghost predicate DiffersOnlyWithin(f: seq<Byte>, g: seq<Byte>, at: nat) {
    && |f| == |g| && at + 4 <= |f|
    && f[..at] == g[..at] && f[at + 4..] == g[at + 4..]
  }

  lemma FrameLeavesResidue(kind: Byte, flags: Byte, typeData: bv32, content: seq<Byte>)
    requires |content| < LENGTH_LIMIT
    ensures Run(ONES, Frame(kind, flags, typeData, content)) == Residue()
  {
    hide Crc, Run, Residue, PutLe32, GetLe32, Body;
    var body := Body(kind, flags, typeData, content);
    Le32Reads(Crc(body));
    TrailerMatchesIffResidue(body, PutLe32(Crc(body)));
  }

  lemma AlteredLeavesNoResidue(f: seq<Byte>, g: seq<Byte>, at: nat)
    requires DiffersOnlyWithin(f, g, at) && f != g
    requires Run(ONES, f) == Residue()
    ensures Run(ONES, g) != Residue()
  {
    hide Run, Residue;
    var x, y := f[at..at + 4], g[at..at + 4];
    assert f == f[..at] + x + f[at + 4..];
    assert g == f[..at] + y + f[at + 4..];
    BurstChangesRegister(ONES, f[..at], x, y, f[at + 4..]);
  }

  /**
    A frame altered anywhere inside four consecutive bytes (trailer included), with
    its length field intact, is reported corrupt, and the next receive call starts
    at the true boundary of the next frame: to the protocol above it was lost.
   */
  lemma CorruptionIsLoss(kind: Byte, flags: Byte, typeData: bv32, content: seq<Byte>,
                         g: seq<Byte>, at: nat, rest: seq<Byte>, mtu: nat)
    requires |content| < LENGTH_LIMIT && |content| + HEADER_SIZE + TRAILER_SIZE <= mtu
    requires DiffersOnlyWithin(Frame(kind, flags, typeData, content), g, at)
    requires g != Frame(kind, flags, typeData, content)
    requires g[2..4] == Frame(kind, flags, typeData, content)[2..4]
    ensures Parse(g + rest, mtu) == (Corrupt, rest)
  {
    hide Frame, Parse, Crc, Run, Residue, GetLe32, GetHeader;
    var f := Frame(kind, flags, typeData, content);
    var end := HEADER_SIZE + |content|;
    LengthFieldSame(kind, flags, typeData, content, g);
    FrameLeavesResidue(kind, flags, typeData, content);
    AlteredLeavesNoResidue(f, g, at);
    assert g == g[..end] + g[end..];
    TrailerMatchesIffResidue(g[..end], g[end..]);
    ParseMismatch(g, rest, mtu);
  }

  /** A packet that was sent, and what arrived in its place. */
  datatype Crossing = Crossing(packet: Packet, wire: seq<Byte>)

  /** The frame arrived as sent, or damaged within four bytes outside its length field. */
  ghost predicate Crossed(x: Crossing, mtu: nat) {
    && Fits(x.packet, mtu)
    && var f := Sealed(x.packet, mtu);
       x.wire == f || (exists at :: DiffersOnlyWithin(f, x.wire, at) && x.wire[2..4] == f[2..4])
  }

  ghost function Wires(xs: seq<Crossing>): seq<Byte> {
    if xs == [] then [] else xs[0].wire + Wires(xs[1..])
  }

  /** What a channel that loses the damaged packets, and only those, would deliver. */
  ghost function Surviving(xs: seq<Crossing>, mtu: nat): seq<Outcome>
    requires forall i :: 0 <= i < |xs| ==> Crossed(xs[i], mtu)
  {
    if xs == [] then []
    else
      assert Crossed(xs[0], mtu);
      [if xs[0].wire == Sealed(xs[0].packet, mtu) then Delivered(View(xs[0].packet)) else Corrupt]
      + Surviving(xs[1..], mtu)
  }

  lemma CrossingParses(x: Crossing, rest: seq<Byte>, mtu: nat)
    requires Crossed(x, mtu)
    ensures Parse(x.wire + rest, mtu)
         == (if x.wire == Sealed(x.packet, mtu) then Delivered(View(x.packet)) else Corrupt, rest)
  {
    hide Parse, View, Send, Frame;
    var p, f := x.packet, Sealed(x.packet, mtu);
    if x.wire == f {
      SealedIsSent(p, mtu);
      SendParsesWhenFits(p, rest, mtu);
    } else {
      var at :| DiffersOnlyWithin(f, x.wire, at) && x.wire[2..4] == f[2..4];
      CorruptionIsLoss(p.Kind(), p.Flags(), p.TypeData(), p.Content(), x.wire, at, rest, mtu);
    }
  }

  /**
    Corruption refines to loss over whole streams: however many frames of a stream are
    damaged, every other packet is delivered, in order and unchanged, and each damaged
    one only shows up as a checksum error in its place.
   */
  lemma {:induction false} DamageIsOnlyLoss(xs: seq<Crossing>, mtu: nat)
    requires mtu >= HEADER_SIZE + TRAILER_SIZE
    requires forall i :: 0 <= i < |xs| ==> Crossed(xs[i], mtu)
    ensures ParseAll(Wires(xs), mtu) == Surviving(xs, mtu)
    decreases |xs|
  {
    hide Parse, Crossed, View, Sealed;
    if xs == [] {
      ParseNothing(mtu);
    } else {
      assert Crossed(xs[0], mtu);
      CrossingParses(xs[0], Wires(xs[1..]), mtu);
      DamageIsOnlyLoss(xs[1..], mtu);
    }
  }

  lemma ParseMismatch(g: seq<Byte>, rest: seq<Byte>, mtu: nat)
    requires mtu >= |g| >= HEADER_SIZE + TRAILER_SIZE
    requires GetHeader(g[..HEADER_SIZE]).length == |g| - HEADER_SIZE - TRAILER_SIZE
    requires GetLe32(g[|g| - TRAILER_SIZE..]) != Crc(g[..|g| - TRAILER_SIZE])
    ensures Parse(g + rest, mtu) == (Corrupt, rest)
  {
    hide Crc, GetLe32, GetHeader, Interpret;
    var s, end := g + rest, |g| - TRAILER_SIZE;
    assert s[..HEADER_SIZE] == g[..HEADER_SIZE];
    assert s[..end] == g[..end];
    assert s[end..end + TRAILER_SIZE] == g[end..];
    assert s[end + TRAILER_SIZE..] == rest;
  }

  lemma LengthFieldSame(kind: Byte, flags: Byte, typeData: bv32, content: seq<Byte>, g: seq<Byte>)
    requires |content| < LENGTH_LIMIT
    requires |g| == HEADER_SIZE + |content| + TRAILER_SIZE
    requires g[2..4] == Frame(kind, flags, typeData, content)[2..4]
    ensures GetHeader(g[..HEADER_SIZE]).length == |content|
  {
    hide PutLe32, GetLe32, PutLe16, GetLe16, Crc;
    var f := Frame(kind, flags, typeData, content);
    assert f[2..4] == PutLe16(|content|);
    Le16RoundTrip(|content|);
    assert g[..HEADER_SIZE][2..4] == g[2..4];
  }

  // ---------- In-place frame building in the send buffer ----------

  /** Moves `n` bytes eight places to the right, last byte first. */
  method ShiftRightEight(buf: array<Byte>, start: nat, n: nat)
    requires start + n + 8 <= buf.Length
    modifies buf
    ensures forall k :: start + 8 <= k < start + 8 + n ==> buf[k] == old(buf[..])[k - 8]
    ensures forall k :: 0 <= k < start || start + 8 + n <= k < buf.Length ==> buf[k] == old(buf[..])[k]
  {
    ghost var was := buf[..];
    var i := n;
    while i > 0
      invariant 0 <= i <= n
      invariant forall k :: start + 8 + i <= k < start + 8 + n ==> buf[k] == was[k - 8]
      invariant forall k :: 0 <= k < start + 8 + i || start + 8 + n <= k < buf.Length ==> buf[k] == was[k]
    {
      i := i - 1;
      buf[start + 8 + i] := buf[start + i];
    }
  }

  method PutBytes(buf: array<Byte>, at: nat, s: seq<Byte>)
    requires at + |s| <= buf.Length
    modifies buf
    ensures forall k :: at <= k < at + |s| ==> buf[k] == s[k - at]
    ensures forall k :: 0 <= k < at || at + |s| <= k < buf.Length ==> buf[k] == old(buf[..])[k]
  {
    ghost var was := buf[..];
    var i := 0;
    while i < |s|
      invariant 0 <= i <= |s|
      invariant forall k :: at <= k < at + i ==> buf[k] == s[k - at]
      invariant forall k :: 0 <= k < at || at + |s| <= k < buf.Length ==> buf[k] == was[k]
    {
      buf[at + i] := s[i];
      i := i + 1;
    }
  }

  /** Header in front, trailer behind: turns a staged content into a frame. */
  method Seal(table: array<bv32>, buf: array<Byte>, h: Header) returns (total: nat)
    requires IsTable(table[..])
    requires h.length < LENGTH_LIMIT && HEADER_SIZE + h.length + TRAILER_SIZE <= buf.Length
    modifies buf
    ensures total == HEADER_SIZE + h.length + TRAILER_SIZE
    ensures buf[..total] == Frame(h.kind, h.flags, h.typeData, old(buf[8..8 + h.length]))
    ensures buf[total..] == old(buf[total..])
  {
    hide Crc, PutLe32, PutHeader, IsTable;
    ghost var content := buf[8..8 + h.length];
    var used := HEADER_SIZE + h.length;
    PutBytes(buf, 0, PutHeader(h));
    assert buf[..used] == Body(h.kind, h.flags, h.typeData, content);
    var crc := Checksum(table, buf[..used]);
    ghost var body := buf[..used];
    PutBytes(buf, used, PutLe32(crc));
    total := used + TRAILER_SIZE;
    assert buf[..total] == body + PutLe32(crc);
  }

  /** Makes room for the offset in front of a payload already lying at buf[8..]. */
  method InsertOffset(buf: array<Byte>, n: nat, offset: bv64)
    requires HEADER_SIZE + 8 + n + TRAILER_SIZE <= buf.Length
    modifies buf
    ensures buf[8..16 + n] == PutLe64(offset) + old(buf[8..8 + n])
    ensures buf[16 + n..] == old(buf[16 + n..])
  {
    hide PutLe64;
    ShiftRightEight(buf, 8, n);
    PutBytes(buf, 8, PutLe64(offset));
  }

  /**
    DATA with an explicit offset, built where the payload already lies: the payload
    read at buf[8..] is shifted right by eight bytes, never leaving the buffer. The
    packet size may be smaller than the buffer, and the length field is cut to 16 bits.
   */
  method BuildDataInPlace(table: array<bv32>, buf: array<Byte>, n: nat, offset: bv64, mtu: nat) returns (total: nat)
    requires IsTable(table[..])
    requires HEADER_SIZE + 8 + n + TRAILER_SIZE <= mtu <= buf.Length
    modifies buf
    ensures total == HEADER_SIZE + (8 + n) % LENGTH_LIMIT + TRAILER_SIZE <= mtu
    ensures Send(Data(Some(offset), old(buf[8..8 + n])), mtu) == Some(buf[..total])
    ensures buf[20 + n..] == old(buf[20 + n..])
  {
    hide Frame, PutLe64, IsTable;
    ghost var p := Data(Some(offset), buf[8..8 + n]);
    ghost var tail := buf[20 + n..];
    InsertOffset(buf, n, offset);
    assert buf[20 + n..] == buf[16 + n..][4..] == tail;
    var length := (8 + n) % LENGTH_LIMIT;
    assert p.Content() == buf[8..8 + (8 + n)];
    assert p.Content()[..length] == buf[8..8 + length];
    total := Seal(table, buf, Header(DATA, OFFSET_PRESENT, length, 0));
    assert buf[20 + n..] == buf[total..][20 + n - total..];
  }

  // ---------- Partial reads ----------

  /** The transport: hands over any non-empty part of what is asked for and pending. */
  class Transport {
    var pending: seq<Byte>

    constructor (arriving: seq<Byte>)
      ensures pending == arriving
    {
      pending := arriving;
    }

    method Recv(want: nat) returns (got: seq<Byte>)
      requires want > 0
      modifies this
      ensures old(pending) != [] ==> got != []
      ensures |got| <= want && old(pending) == got + pending
    {
      if pending == [] {
        return [];
      }
      var k :| 1 <= k <= want && k <= |pending|;
      got, pending := pending[..k], pending[k..];
    }

    /** Reads exactly `need` bytes across partial reads, or runs into the timeout. */
    method RecvFull(need: nat) returns (r: Option<seq<Byte>>)
      modifies this
      ensures need <= |old(pending)| ==> r == Some(old(pending)[..need]) && pending == old(pending)[need..]
      ensures need > |old(pending)| ==> r == None && pending == []
    {
      var have: seq<Byte> := [];
      while |have| < need
        invariant old(pending) == have + pending && |have| <= need
        decreases need - |have|
      {
        var got := Recv(need - |have|);
        if got == [] {
          return None;
        }
        have := have + got;
      }
      r := Some(have);
    }

    /** Header, content and trailer in three reads, as one receive call. */
    method RecvPacket(table: array<bv32>, mtu: nat, cap: nat) returns (o: Outcome)
      requires IsTable(table[..]) && mtu >= HEADER_SIZE + TRAILER_SIZE
      modifies this
      ensures o == Handed(Parse(old(pending), mtu).0, cap)
      ensures pending == Parse(old(pending), mtu).1
    {
      hide Crc, GetHeader, GetLe32, Interpret, IsTable;
      ghost var s := pending;
      var head := RecvFull(HEADER_SIZE);
      if head.None? { return Starved; }
      var h := GetHeader(head.value);
      if h.length > mtu - HEADER_SIZE - TRAILER_SIZE { return BadLength; }
      var content := RecvFull(h.length);
      if content.None? { return Starved; }
      var trailer := RecvFull(TRAILER_SIZE);
      if trailer.None? { return Starved; }
      ghost var end := HEADER_SIZE + h.length;
      assert head.value + content.value == s[..end];
      assert content.value == s[HEADER_SIZE..end];
      assert trailer.value == s[end..end + TRAILER_SIZE];
      var crc := Checksum(table, head.value + content.value);
      if GetLe32(trailer.value) != crc { return Corrupt; }
      o := Interpret(h.kind, h.flags, h.typeData, content.value);
      if o.Delivered? {
        if cap == 0 {
          o := Delivered(o.packet.(payload := []));
        } else if |o.packet.payload| > cap {
          o := TooLarge;
        }
      }
    }

    /** Receive calls until nothing more arrives, in whatever pieces the link delivers. */
    method Drain(table: array<bv32>, mtu: nat) returns (os: seq<Outcome>)
      requires IsTable(table[..]) && mtu >= HEADER_SIZE + TRAILER_SIZE
      modifies this
      ensures os == ParseAll(old(pending), mtu)
    {
      hide Parse, IsTable;
      os := [];
      while true
        invariant os + ParseAll(pending, mtu) == ParseAll(old(pending), mtu)
        invariant IsTable(table[..])
        decreases |pending|
      {
        ghost var before, s := os, pending;
        var o := RecvPacket(table, mtu, mtu);
        if o.Starved? { return; }
        os := os + [o];
        assert ParseAll(s, mtu) == [o] + ParseAll(pending, mtu);
        assert before + ([o] + ParseAll(pending, mtu)) == os + ParseAll(pending, mtu);
      }
    }
  }
}
