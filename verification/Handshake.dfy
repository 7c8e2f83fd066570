/**
  The HELLO exchange, through the bytes on the wire: what each end advertises, what it
  adopts from the other, and what both then hold.
 */
module Handshake {
  import opened Crc32
  import opened Wire
  import opened DataPhase
  import Framing
  import WindowLimits

  const MAGIC: bv32 := 0x56414C00
  const MIN_PACKET: nat := 512
  const MAX_PACKET: nat := 2 * 1024 * 1024
  const FRAME_OVERHEAD: nat := 12

  datatype Error = MalformedHello | IncompatibleVersion | PacketSizeMismatch | MissingFeatures(missing: bv32)

  datatype Result<T> = Success(value: T) | Failure(error: Error)

  function Both(a: bv32, b: bv32): bv32 { a & b }

  function Without(a: bv32, b: bv32): bv32 { a & !b }

  /** One end's configuration; `builtin` is the mask of optional features compiled in. */
  datatype Config = Config(packetSize: nat, windowCap: nat, initialCwnd: nat,
                           builtin: bv32, required: bv32, requested: bv32)
  {
    /** What session creation accepts. */
    predicate Valid() {
      MIN_PACKET <= packetSize <= MAX_PACKET && windowCap < 0x1_0000 && initialCwnd < 0x1_0000
    }

    /** Required features, reduced to those that can be negotiated at all. */
    function Needs(): bv32 { Both(required, builtin) }
  }

  /** What a finished handshake leaves in the session. */
  datatype Agreed = Agreed(packetSize: nat, negotiated: nat, cwnd: nat, peerTx: nat, peerFeatures: bv32)

  function AtLeastOne(n: nat): nat { if n == 0 then 1 else n }

  function FillHello(c: Config, packetSize: nat): (h: Hello)
    requires c.Valid() && packetSize < 0x1_0000_0000
    ensures h.Valid()
  {
    var w := AtLeastOne(c.windowCap);
    Hello(MAGIC, 0, 7, 0, packetSize, c.builtin, c.Needs(), Both(c.requested, c.builtin),
          w, w, 1, [0, 0, 0], 0, 0, 0, 0)
  }

  function Adopt(c: Config, h: Hello): (r: Result<Agreed>)
    ensures r.Success? ==> MIN_PACKET <= r.value.packetSize <= MAX_PACKET
  {
    if h.magic != MAGIC then Failure(MalformedHello)
    else if h.versionMajor != 0 then Failure(IncompatibleVersion)
    else
      var size := Min(h.packetSize, c.packetSize);
      if size < MIN_PACKET || size > MAX_PACKET then Failure(PacketSizeMismatch)
      else if Without(c.Needs(), h.features) != 0 then Failure(MissingFeatures(Without(c.Needs(), h.features)))
      else
        var desired := if c.windowCap != 0 then c.windowCap else 4;
        var window := Min(desired, AtLeastOne(h.rxWindow));
        var cwnd := if c.initialCwnd != 0 then Min(c.initialCwnd, window) else Min(4, window);
        Success(Agreed(size, window, cwnd, AtLeastOne(h.txWindow), h.features))
  }

  function SenderHello(s: Config): (wire: seq<Byte>)
    requires s.Valid()
    ensures |wire| == 44
  {
    PutHello(FillHello(s, s.packetSize))
  }

  /** The receiving end: adopt, check what the peer requires, answer with the agreed size. */
  function Respond(r: Config, wire: seq<Byte>): Result<(Agreed, seq<Byte>)>
    requires r.Valid()
  {
    if |wire| < 44 then Failure(MalformedHello)
    else
      var h := GetHello(wire[..44]);
      match Adopt(r, h)
      case Failure(e) => Failure(e)
      case Success(a) =>
        var missing := Without(Both(h.required, r.builtin), r.builtin);
        if missing != 0 then Failure(MissingFeatures(missing))
        else Success((a, PutHello(FillHello(r, a.packetSize))))
  }

  function Finish(s: Config, wire: seq<Byte>): Result<Agreed> {
    if |wire| < 44 then Failure(MalformedHello) else Adopt(s, GetHello(wire[..44]))
  }

  // ---------- What the exchange settles ----------

  /** Every feature in `need` is in `have`. */
  predicate Covered(need: bv32, have: bv32) { Without(need, have) == 0 }

  /** The window one end may use: its own wish, held to what the other advertises. */
  function Granted(mine: Config, peer: Config): nat {
    Min(if mine.windowCap != 0 then mine.windowCap else 4, AtLeastOne(peer.windowCap))
  }

  /**
    Any HELLO whatsoever: accepted exactly when its magic and major version are right,
    the smaller packet size is within bounds and it offers what is required.
   */
  lemma AdoptIff(c: Config, h: Hello)
    ensures Adopt(c, h).Success? <==>
              && h.magic == 0x56414C00 && h.versionMajor == 0
              && 512 <= Min(h.packetSize, c.packetSize) <= 2097152 && Covered(c.Needs(), h.features)
    ensures h.magic != 0x56414C00 ==> Adopt(c, h) == Failure(MalformedHello)
    ensures h.magic == 0x56414C00 && h.versionMajor != 0 ==> Adopt(c, h) == Failure(IncompatibleVersion)
    ensures Adopt(c, h).Success? ==>
              var a, window := Adopt(c, h).value, Min(if c.windowCap != 0 then c.windowCap else 4, AtLeastOne(h.rxWindow));
              a.negotiated == window && a.cwnd == Min(if c.initialCwnd != 0 then c.initialCwnd else 4, window)
  {
    hide Both, Without;
  }

  /** Bytes that do not spell a HELLO of this protocol are refused by both ends. */
  lemma ForeignBytesRefused(c: Config, wire: seq<Byte>)
    requires c.Valid()
    requires |wire| < 44 || wire[..4] != [0x00, 0x4C, 0x41, 0x56] || wire[4] != 0
    ensures Respond(c, wire).Failure? && Finish(c, wire).Failure?
  {
    if |wire| >= 44 {
      var s := wire[..44];
      MagicBytes(s[0..4]);
      assert s[0..4] == wire[..4] && s[4] == wire[4];
      AdoptIff(c, GetHello(s));
      hide Adopt, GetLe32, GetLe16, GetWord;
    }
  }

  lemma MagicBytes(s: seq<Byte>)
    requires |s| == 4
    ensures GetLe32(s) == 0x56414C00 ==> s == [0x00, 0x4C, 0x41, 0x56]
  {
    Le32RoundTrip(0, s);
    MagicWord();
    hide GetLe32, PutLe32;
  }

  lemma MagicWord()
    ensures PutLe32(0x56414C00) == [0x00, 0x4C, 0x41, 0x56]
  {}

  /** The HELLO a sender opens with, byte by byte: "VAL" and zero low byte first, version 0.7, size, windows, stride 1. */
  lemma HelloLayout(s: Config)
    requires s.Valid()
    ensures var w := SenderHello(s);
            && w[..4] == [0x00, 0x4C, 0x41, 0x56] && w[4] == 0 && w[5] == 7
            && GetWord(w[8..12]) == s.packetSize
            && GetLe16(w[24..26]) == GetLe16(w[26..28]) == (if s.windowCap == 0 then 1 else s.windowCap)
            && w[28] == 1
  {
    var h := FillHello(s, s.packetSize);
    HelloCutsFirst(h);
    HelloCutsRest(h);
    MagicWord();
    WordRoundTrip(h.packetSize);
    Le16RoundTrip(h.txWindow);
    hide PutHello, PutLe32, PutLe16, GetLe16, PutWord, GetWord, Both;
    assert SenderHello(s)[..4] == SenderHello(s)[0..4];
  }

  lemma AdoptOutcome(c: Config, peer: Config, size: nat)
    requires c.Valid() && peer.Valid() && MIN_PACKET <= size <= MAX_PACKET
    ensures var r := Adopt(c, FillHello(peer, size));
            && (r.Success? <==> Covered(c.Needs(), peer.builtin))
            && (r.Success? ==> && r.value.packetSize == Min(size, c.packetSize)
                               && r.value.negotiated == Granted(c, peer)
                               && r.value.cwnd == Min(if c.initialCwnd != 0 then c.initialCwnd else 4, Granted(c, peer))
                               && 1 <= r.value.cwnd <= r.value.negotiated
                               && r.value.peerTx == AtLeastOne(peer.windowCap))
  {
    hide Both, Without;
  }

  lemma MaskedNeverMissing(a: bv32, b: bv32)
    ensures Without(Both(a, b), b) == 0
  {}

  lemma RespondOutcome(s: Config, r: Config)
    requires s.Valid() && r.Valid()
    ensures Respond(r, SenderHello(s)) ==
            match Adopt(r, FillHello(s, s.packetSize))
            case Failure(e) => Failure(e)
            case Success(a) => Success((a, PutHello(FillHello(r, a.packetSize))))
  {
    hide GetHello, PutHello, Adopt, Both, Without;
    var h := FillHello(s, s.packetSize);
    HelloRoundTrip(h);
    assert SenderHello(s)[..44] == SenderHello(s);
    MaskedNeverMissing(h.required, r.builtin);
  }

  lemma FinishOutcome(s: Config, r: Config, size: nat)
    requires s.Valid() && r.Valid() && MIN_PACKET <= size <= MAX_PACKET
    ensures Finish(s, PutHello(FillHello(r, size))) == Adopt(s, FillHello(r, size))
  {
    hide GetHello, PutHello, Adopt;
    var wire := PutHello(FillHello(r, size));
    HelloRoundTrip(FillHello(r, size));
    assert wire[..44] == wire;
  }

  /**
    For every pair of configurations: the receiver accepts exactly when the sender has
    what it requires, the sender then accepts exactly when the receiver has what it
    requires, and both hold the smaller of the two packet sizes and a window of at
    least one packet within what the other advertised.
   */
  lemma HandshakeAgrees(s: Config, r: Config)
    requires s.Valid() && r.Valid()
    ensures var answer := Respond(r, SenderHello(s));
            && (answer.Success? <==> Covered(r.Needs(), s.builtin))
            && (answer.Success? ==>
                  var (atReceiver, wire) := answer.value;
                  var done := Finish(s, wire);
                  && (done.Success? <==> Covered(s.Needs(), r.builtin))
                  && (done.Success? ==>
                        && done.value.packetSize == atReceiver.packetSize == Min(s.packetSize, r.packetSize)
                        && MIN_PACKET <= done.value.packetSize <= MAX_PACKET
                        && 1 <= done.value.cwnd <= done.value.negotiated <= AtLeastOne(r.windowCap)
                        && 1 <= atReceiver.cwnd <= atReceiver.negotiated <= AtLeastOne(s.windowCap)
                        && done.value.negotiated == Granted(s, r) && atReceiver.negotiated == Granted(r, s)
                        && done.value.peerTx == AtLeastOne(r.windowCap) && atReceiver.peerTx == AtLeastOne(s.windowCap)))
  {
    hide Adopt, FillHello, PutHello, Respond, Finish, SenderHello, Covered;
    RespondOutcome(s, r);
    AdoptOutcome(r, s, s.packetSize);
    var first := Adopt(r, FillHello(s, s.packetSize));
    if first.Success? {
      FinishOutcome(s, r, first.value.packetSize);
      AdoptOutcome(s, r, first.value.packetSize);
    }
  }

  /**
    Every DATA frame this packet size admits reaches the peer intact, and no transfer
    the sender can start with this window completes wrongly on a lossy channel.
   */
  ghost predicate AlwaysSafe(packetSize: nat, window: nat)
    requires packetSize >= MIN_PACKET
  {
    && Framing.AllDataSurvives(packetSize)
    && forall size: nat, start: nat :: start <= size ==> SafeShape(size, start, packetSize, window)
  }

  ghost predicate SafeShape(size: nat, start: nat, packetSize: nat, window: nat)
    requires packetSize >= MIN_PACKET
  {
    forall t :: WindowLimits.Shaped(t, size, start, packetSize - FRAME_OVERHEAD, window) ==>
      WindowLimits.CompletionsDeliver(t)
  }

  /**
    The configurations under which every file survives loss are exactly those whose
    smaller packet size is at most 65547 and whose receiver caps its window at zero or
    one, or whose sender caps its own at one.
   */
  lemma SafeConfigurations(s: Config, r: Config)
    requires s.Valid() && r.Valid()
    ensures AlwaysSafe(Min(s.packetSize, r.packetSize), Granted(s, r))
       <==> Min(s.packetSize, r.packetSize) <= 65547 && (r.windowCap <= 1 || s.windowCap == 1)
  {
    hide WindowLimits.CompletionsDeliver, WindowLimits.AllRunsIntact, WindowLimits.Shaped, Framing.AllDataSurvives;
    var size, window := Min(s.packetSize, r.packetSize), Granted(s, r);
    var limit := size - FRAME_OVERHEAD;
    Framing.LargestSafePacketSize(size);
    assert window == 1 <==> (r.windowCap <= 1 || s.windowCap == 1);
    if size <= 65547 {
      if window == 1 {
        forall n: nat, start: nat | start <= n ensures SafeShape(n, start, size, window) {
          WindowLimits.SafeWindows(n, start, limit, window);
        }
      } else {
        WindowLimits.SafeWindows(limit, 0, limit, window);
        assert !SafeShape(limit, 0, size, window);
      }
    }
  }
}
