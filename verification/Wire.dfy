/**
  Little-endian fields and the fixed-layout payloads of src/val_wire.c. Every
  serializer is paired with its deserializer by a round-trip lemma.
 */
module Wire {
  import opened Crc32

  // ---------- Little-endian fields ----------

  lemma Successor(b: Byte)
    requires b != 255
    ensures (b + 1) as nat == (b as nat) + 1
  {}

  /** The byte with value `n`. */
  function ByteOf(n: nat): (b: Byte)
    requires n < 256
    ensures b as nat == n
  {
    if n == 0 then 0
    else
      var b := ByteOf(n - 1);
      Successor(b);
      b + 1
  }

  function PutLe16(n: nat): (s: seq<Byte>)
    requires n < 0x1_0000
    ensures |s| == 2
  {
    [ByteOf(n % 256), ByteOf(n / 256)]
  }

  function GetLe16(s: seq<Byte>): (n: nat)
    requires |s| == 2
    ensures n < 0x1_0000
  {
    (s[0] as nat) + 256 * (s[1] as nat)
  }

  lemma Le16RoundTrip(n: nat)
    requires n < 0x1_0000
    ensures GetLe16(PutLe16(n)) == n
  {
    hide ByteOf;
  }

  /** A 32-bit field held as a number: its low half, then its high half. */
  function PutWord(n: nat): (s: seq<Byte>)
    requires n < 0x1_0000_0000
    ensures |s| == 4
  {
    PutLe16(n % 0x1_0000) + PutLe16(n / 0x1_0000)
  }

  function GetWord(s: seq<Byte>): (n: nat)
    requires |s| == 4
  {
    GetLe16(s[..2]) + 0x1_0000 * GetLe16(s[2..])
  }

  lemma WordRoundTrip(n: nat)
    requires n < 0x1_0000_0000
    ensures GetWord(PutWord(n)) == n
  {
    hide PutLe16, GetLe16;
    Le16RoundTrip(n % 0x1_0000);
    Le16RoundTrip(n / 0x1_0000);
    assert PutWord(n)[..2] == PutLe16(n % 0x1_0000);
    assert PutWord(n)[2..] == PutLe16(n / 0x1_0000);
  }

  function Low32(w: bv64): bv32 { (w & 0xFFFF_FFFF) as bv32 }

  function High32(w: bv64): bv32 { (w >> 32) as bv32 }

  function Join32(low: bv32, high: bv32): bv64 { ((high as bv64) << 32) | (low as bv64) }

  lemma JoinSplits(w: bv64)
    ensures Join32(Low32(w), High32(w)) == w
  {}

  function PutLe64(w: bv64): (s: seq<Byte>)
    ensures |s| == 8
  {
    PutLe32(Low32(w)) + PutLe32(High32(w))
  }

  function GetLe64(s: seq<Byte>): bv64
    requires |s| == 8
  {
    Join32(GetLe32(s[..4]), GetLe32(s[4..]))
  }

  lemma Le32Reads(w: bv32)
    ensures GetLe32(PutLe32(w)) == w
  {
    Le32RoundTrip(w, PutLe32(w));
  }

  lemma Le64RoundTrip(w: bv64)
    ensures GetLe64(PutLe64(w)) == w
  {
    hide Low32, High32, Join32, GetLe32, PutLe32;
    Le32Reads(Low32(w));
    Le32Reads(High32(w));
    JoinSplits(w);
    assert PutLe64(w)[..4] == PutLe32(Low32(w));
    assert PutLe64(w)[4..] == PutLe32(High32(w));
  }

  // ---------- Frame header: type, flags, content length, type data ----------

  datatype Header = Header(kind: Byte, flags: Byte, length: nat, typeData: bv32)

  function PutHeader(h: Header): (s: seq<Byte>)
    requires h.length < 0x1_0000
    ensures |s| == 8
  {
    [h.kind, h.flags] + PutLe16(h.length) + PutLe32(h.typeData)
  }

  function GetHeader(s: seq<Byte>): (h: Header)
    requires |s| == 8
    ensures h.length < 0x1_0000
  {
    Header(s[0], s[1], GetLe16(s[2..4]), GetLe32(s[4..]))
  }

  lemma HeaderRoundTrip(h: Header)
    requires h.length < 0x1_0000
    ensures GetHeader(PutHeader(h)) == h
  {
    hide PutLe16, GetLe16, PutLe32, GetLe32;
    Le16RoundTrip(h.length);
    Le32Reads(h.typeData);
    assert PutHeader(h)[2..4] == PutLe16(h.length);
    assert PutHeader(h)[4..] == PutLe32(h.typeData);
  }

  // ---------- HELLO (44 bytes) ----------

  datatype Hello = Hello(
    magic: bv32, versionMajor: Byte, versionMinor: Byte, reserved: nat,
    packetSize: nat, features: bv32, required: bv32, requested: bv32,
    txWindow: nat, rxWindow: nat, ackStride: Byte, spare: seq<Byte>,
    supported16: nat, required16: nat, requested16: nat, reserved2: bv32)
  {
    predicate Valid() {
      && reserved < 0x1_0000 && txWindow < 0x1_0000 && rxWindow < 0x1_0000
      && supported16 < 0x1_0000 && required16 < 0x1_0000 && requested16 < 0x1_0000
      && packetSize < 0x1_0000_0000 && |spare| == 3
    }
  }

  function PutHello(h: Hello): (s: seq<Byte>)
    requires h.Valid()
    ensures |s| == 44
  {
    PutLe32(h.magic) + ([h.versionMajor, h.versionMinor] + PutLe16(h.reserved))
    + PutWord(h.packetSize) + PutLe32(h.features) + PutLe32(h.required) + PutLe32(h.requested)
    + (PutLe16(h.txWindow) + PutLe16(h.rxWindow)) + ([h.ackStride] + h.spare)
    + (PutLe16(h.supported16) + PutLe16(h.required16)) + (PutLe16(h.requested16) + [0, 0])
    + PutLe32(h.reserved2)
  }

  function GetHello(s: seq<Byte>): Hello
    requires |s| == 44
  {
    Hello(GetLe32(s[0..4]), s[4], s[5], GetLe16(s[6..8]),
          GetWord(s[8..12]), GetLe32(s[12..16]), GetLe32(s[16..20]), GetLe32(s[20..24]),
          GetLe16(s[24..26]), GetLe16(s[26..28]), s[28], s[29..32],
          GetLe16(s[32..34]), GetLe16(s[34..36]), GetLe16(s[36..38]), GetLe32(s[40..44]))
  }

  lemma HelloCutsFirst(h: Hello)
    requires h.Valid()
    ensures var s := PutHello(h);
            && s[0..4] == PutLe32(h.magic) && s[4] == h.versionMajor && s[5] == h.versionMinor
            && s[6..8] == PutLe16(h.reserved) && s[8..12] == PutWord(h.packetSize)
  {
    hide PutLe16, PutLe32, PutWord;
  }

  lemma HelloCutsFeatures(h: Hello)
    requires h.Valid()
    ensures var s := PutHello(h);
            && s[12..16] == PutLe32(h.features) && s[16..20] == PutLe32(h.required)
            && s[20..24] == PutLe32(h.requested)
  {
    hide PutLe16, PutLe32, PutWord;
  }

  lemma HelloCutsRest(h: Hello)
    requires h.Valid()
    ensures var s := PutHello(h);
            && s[24..26] == PutLe16(h.txWindow) && s[26..28] == PutLe16(h.rxWindow)
            && s[28] == h.ackStride && s[29..32] == h.spare
            && s[32..34] == PutLe16(h.supported16) && s[34..36] == PutLe16(h.required16)
            && s[36..38] == PutLe16(h.requested16) && s[40..44] == PutLe32(h.reserved2)
  {
    hide PutLe16, PutLe32, PutWord;
  }

  lemma HelloRoundTrip(h: Hello)
    requires h.Valid()
    ensures GetHello(PutHello(h)) == h
  {
    hide PutHello, PutLe16, GetLe16, PutLe32, GetLe32, PutWord, GetWord;
    HelloCutsFirst(h);
    HelloCutsFeatures(h);
    HelloCutsRest(h);
    Le32Reads(h.magic); WordRoundTrip(h.packetSize); Le32Reads(h.features);
    Le32Reads(h.required); Le32Reads(h.requested); Le32Reads(h.reserved2);
    Le16RoundTrip(h.reserved); Le16RoundTrip(h.txWindow); Le16RoundTrip(h.rxWindow);
    Le16RoundTrip(h.supported16); Le16RoundTrip(h.required16); Le16RoundTrip(h.requested16);
  }
}
