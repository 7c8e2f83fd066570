/**
  The built-in CRC-32 (clause 3.2.9 of IEEE 802.3, reflected form): the bit-by-bit
  definition, the 256-entry table and the chunked file-region form that the
  implementation uses, and the algebra that makes burst errors detectable.

  Word operations are named functions so that proofs above the bit level can hide
  them and reason by equality alone.
 */
module Crc32 {

  type Byte = bv8

  datatype Option<T> = None | Some(value: T)

  const POLY: bv32 := 0xEDB8_8320
  const ONES: bv32 := 0xFFFF_FFFF

  function Xor(a: bv32, b: bv32): bv32 { a ^ b }

  function Widen(b: Byte): bv32 { b as bv32 }

  function Low8(x: bv32): bv32 { x & 0xFF }

  function High24(x: bv32): bv32 { x & 0xFFFF_FF00 }

  function Drop8(x: bv32): bv32 { x >> 8 }

  function Lift8(x: bv32): bv32 { x << 8 }

  function LowByte(x: bv32): Byte { (x & 0xFF) as Byte }

  // ---------- The reference: one bit at a time ----------

  /** Shifts one message bit (already added into bit 0 of `c`) out of the register. */
  function Shift(c: bv32): bv32 {
    if c & 1 == 1 then Xor(POLY, c >> 1) else c >> 1
  }

  function ShiftBy(c: bv32, n: nat): bv32
    decreases n
  {
    if n == 0 then c else ShiftBy(Shift(c), n - 1)
  }

  /** The register after one more message byte, low bit first. */
  function AddByte(c: bv32, b: Byte): bv32 {
    ShiftBy(Xor(c, Widen(b)), 8)
  }

  /** The register after a whole message. */
  function Run(c: bv32, s: seq<Byte>): bv32
    decreases |s|
  {
    if s == [] then c else AddByte(Run(c, s[..|s| - 1]), s[|s| - 1])
  }

  /** The checksum of a message. */
  function Crc(s: seq<Byte>): bv32 {
    Xor(Run(ONES, s), ONES)
  }

  // ---------- Composition over concatenation ----------

  lemma {:induction false} RunConcat(c: bv32, s: seq<Byte>, t: seq<Byte>)
    ensures Run(c, s + t) == Run(Run(c, s), t)
    decreases |t|
  {
    hide AddByte;
    if t == [] {
      assert s + t == s;
    } else {
      var n := |t| - 1;
      RunConcat(c, s, t[..n]);
      assert (s + t)[..|s + t| - 1] == s + t[..n];
    }
  }

  // ---------- Linearity and injectivity of the register ----------

  lemma ShiftIsInjective(a: bv32, b: bv32)
    requires Shift(a) == Shift(b)
    ensures a == b
  {}

  lemma XorDefinition(a: bv32, b: bv32)
    ensures Xor(a, b) == a ^ b
  {}

  lemma RawXorFacts(x: bv32, y: bv32)
    ensures (x ^ y) >> 1 == (x >> 1) ^ (y >> 1)
    ensures (x ^ y) & 1 == (x & 1) ^ (y & 1)
    ensures x & 1 == 0 || x & 1 == 1
  {}

  lemma XorBits(x: bv32, y: bv32)
    ensures Xor(x, y) >> 1 == Xor(x >> 1, y >> 1)
    ensures Xor(x, y) & 1 == (x & 1) ^ (y & 1)
    ensures x & 1 == 0 || x & 1 == 1
    ensures y & 1 == 0 || y & 1 == 1
  {
    hide Xor;
    RawXorFacts(x, y);
    RawXorFacts(y, x);
    XorDefinition(x, y);
    XorDefinition(x >> 1, y >> 1);
  }

  lemma XorAssociates(a: bv32, b: bv32, c: bv32)
    ensures Xor(Xor(a, b), c) == Xor(a, Xor(b, c))
  {}

  lemma XorCommutes(a: bv32, b: bv32)
    ensures Xor(a, b) == Xor(b, a)
  {}

  lemma XorUndoes(a: bv32, b: bv32)
    ensures Xor(a, Xor(a, b)) == b
  {}

  lemma XorMoves(x: bv32, y: bv32, p: bv32)
    ensures Xor(Xor(p, x), Xor(p, y)) == Xor(x, y)
    ensures Xor(Xor(p, x), y) == Xor(p, Xor(x, y))
    ensures Xor(x, Xor(p, y)) == Xor(p, Xor(x, y))
  {
    hide Xor;
    XorAssociates(p, x, y);
    XorAssociates(x, p, y);
    XorCommutes(x, p);
    XorAssociates(p, x, Xor(p, y));
    XorUndoes(p, Xor(x, y));
  }

  lemma XorCancels(a: bv32, b: bv32, x: bv32)
    ensures Xor(a, x) == Xor(b, x) ==> a == b
    ensures Xor(x, a) == Xor(x, b) ==> a == b
  {}

  lemma ShiftIsLinear(a: bv32, b: bv32)
    ensures Shift(Xor(a, b)) == Xor(Shift(a), Shift(b))
  {
    XorBits(a, b);
    XorMoves(a >> 1, b >> 1, POLY);
  }

  lemma {:induction false} ShiftByIsInjective(a: bv32, b: bv32, n: nat)
    requires ShiftBy(a, n) == ShiftBy(b, n)
    ensures a == b
    decreases n
  {
    hide Shift;
    if n > 0 {
      ShiftByIsInjective(Shift(a), Shift(b), n - 1);
      ShiftIsInjective(a, b);
    }
  }

  lemma {:induction false} ShiftByIsLinear(a: bv32, b: bv32, n: nat)
    ensures ShiftBy(Xor(a, b), n) == Xor(ShiftBy(a, n), ShiftBy(b, n))
    decreases n
  {
    hide Shift, Xor;
    if n > 0 {
      ShiftIsLinear(a, b);
      ShiftByIsLinear(Shift(a), Shift(b), n - 1);
    }
  }

  lemma {:induction false} ShiftByAdds(c: bv32, m: nat, n: nat)
    ensures ShiftBy(c, m + n) == ShiftBy(ShiftBy(c, m), n)
    decreases m
  {
    hide Shift;
    if m > 0 {
      ShiftByAdds(Shift(c), m - 1, n);
    }
  }

  lemma AddByteIsInjective(a: bv32, b: bv32, x: Byte)
    requires AddByte(a, x) == AddByte(b, x)
    ensures a == b
  {
    hide ShiftBy, Xor, Widen;
    ShiftByIsInjective(Xor(a, Widen(x)), Xor(b, Widen(x)), 8);
    XorCancels(a, b, Widen(x));
  }

  /** Different registers stay different whatever bytes follow. */
  lemma {:induction false} RunIsInjective(a: bv32, b: bv32, s: seq<Byte>)
    requires Run(a, s) == Run(b, s)
    ensures a == b
    decreases |s|
  {
    hide AddByte;
    if s != [] {
      var p := s[..|s| - 1];
      AddByteIsInjective(Run(a, p), Run(b, p), s[|s| - 1]);
      RunIsInjective(a, b, p);
    }
  }

  // ---------- The table ----------

  /** Shifting out eight zero bits is a plain right shift. */
  lemma ShiftOutZeros(x: bv32)
    requires Low8(x) == 0
    ensures ShiftBy(x, 8) == Drop8(x)
  {}

  lemma LowAndHigh(x: bv32)
    ensures x == Xor(Low8(x), High24(x))
    ensures Low8(High24(x)) == 0
    ensures Widen(LowByte(x)) == Low8(x)
  {}

  lemma HighPart(c: bv32, b: Byte)
    ensures Drop8(High24(Xor(c, Widen(b)))) == Drop8(c)
  {}

  /** The table step is the eight-fold bit step, for every register and byte. */
  lemma TableStep(c: bv32, b: Byte)
    ensures AddByte(c, b) == Xor(TableEntry(LowByte(Xor(c, Widen(b)))), Drop8(c))
  {
    hide ShiftBy, Xor, Low8, High24, Drop8, LowByte;
    var x := Xor(c, Widen(b));
    LowAndHigh(x);
    HighPart(c, b);
    ShiftByIsLinear(Low8(x), High24(x), 8);
    ShiftOutZeros(High24(x));
  }

  function TableEntry(b: Byte): bv32 {
    ShiftBy(Widen(b), 8)
  }

  ghost predicate IsTable(t: seq<bv32>) {
    |t| == 256 && forall b: Byte :: t[b as int] == TableEntry(b)
  }

  lemma ByteOfValue(b: Byte)
    ensures (b as int) as Byte == b
  {}

  method InitTable() returns (t: array<bv32>)
    ensures fresh(t) && IsTable(t[..])
  {
    hide ShiftBy;
    t := new bv32[256];
    var i := 0;
    while i < 256
      invariant 0 <= i <= 256
      invariant forall k :: 0 <= k < i ==> t[k] == TableEntry(k as Byte)
    {
      var c := BuildEntry(i as Byte);
      t[i] := c;
      i := i + 1;
    }
    forall b: Byte ensures t[..][b as int] == TableEntry(b) {
      ByteOfValue(b);
    }
  }

  method BuildEntry(b: Byte) returns (c: bv32)
    ensures c == TableEntry(b)
  {
    hide Widen;
    c := Widen(b);
    var j := 0;
    while j < 8
      invariant 0 <= j <= 8
      invariant ShiftBy(c, 8 - j) == TableEntry(b)
    {
      c := if c & 1 == 1 then Xor(POLY, c >> 1) else c >> 1;
      j := j + 1;
    }
  }

  /** The incremental form: continues from any register value. */
  method UpdateState(table: array<bv32>, state: bv32, data: seq<Byte>) returns (c: bv32)
    requires IsTable(table[..])
    ensures c == Run(state, data)
  {
    hide AddByte, ShiftBy, Xor, Widen, LowByte, Drop8, TableEntry;
    c := state;
    var i := 0;
    while i < |data|
      invariant 0 <= i <= |data|
      invariant c == Run(state, data[..i])
    {
      var low := LowByte(Xor(c, Widen(data[i])));
      TableStep(c, data[i]);
      assert table[..][low as int] == TableEntry(low);
      assert data[..i + 1][..i] == data[..i];
      c := Xor(table[low as int], Drop8(c));
      i := i + 1;
    }
    assert data[..i] == data;
  }

  method Checksum(table: array<bv32>, data: seq<Byte>) returns (c: bv32)
    requires IsTable(table[..])
    ensures c == Crc(data)
  {
    hide Run;
    c := UpdateState(table, ONES, data);
    c := Xor(c, ONES);
  }

  /**
    The checksum of a file region, read in blocks of at most `step` bytes. A read
    past the end of the file is short and fails the call.
   */
  method RegionChecksum(table: array<bv32>, file: seq<Byte>, start: nat, length: nat, step: nat)
      returns (r: Option<bv32>)
    requires IsTable(table[..])
    requires step > 0
    ensures r.Some? <==> length == 0 || start + length <= |file|
    ensures r.Some? && length > 0 ==> r.value == Crc(file[start..start + length])
    ensures length == 0 ==> r == Some(Crc([]))
  {
    hide AddByte, Xor;
    var state, left, pos := ONES, length, start;
    while left > 0
      invariant 0 <= left <= length && pos == start + length - left
      invariant left < length ==> pos <= |file|
      invariant state == if left < length then Run(ONES, file[start..pos]) else ONES
    {
      var take := if left < step then left else step;
      if pos + take > |file| {
        return None;
      }
      RunConcat(ONES, file[start..pos], file[pos..pos + take]);
      assert file[start..pos] + file[pos..pos + take] == file[start..pos + take];
      state := UpdateState(table, state, file[pos..pos + take]);
      pos, left := pos + take, left - take;
    }
    r := Some(Xor(state, ONES));
  }

  // ---------- Little-endian words, and why four-byte bursts are always seen ----------

  function PutLe32(w: bv32): (s: seq<Byte>)
    ensures |s| == 4
  {
    [(w & 0xFF) as Byte, ((w >> 8) & 0xFF) as Byte, ((w >> 16) & 0xFF) as Byte, (w >> 24) as Byte]
  }

  function GetLe32(s: seq<Byte>): bv32
    requires |s| == 4
  {
    (s[0] as bv32) | ((s[1] as bv32) << 8) | ((s[2] as bv32) << 16) | ((s[3] as bv32) << 24)
  }

  lemma Le32RoundTrip(w: bv32, s: seq<Byte>)
    requires |s| == 4
    ensures GetLe32(PutLe32(w)) == w
    ensures PutLe32(GetLe32(s)) == s
  {}

  /** A byte in front of up to three later bytes. */
  function Ahead(b: Byte, hi: bv32): bv32 {
    (b as bv32) | (hi << 8)
  }

  predicate Fits24(x: bv32) { x & 0xFF00_0000 == 0 }

  lemma LiftFacts(b: Byte, hi: bv32)
    requires Fits24(hi)
    ensures Low8(Lift8(hi)) == 0
    ensures Drop8(Lift8(hi)) == hi
  {}

  lemma AheadIsXor(b: Byte, hi: bv32)
    ensures Ahead(b, hi) == Xor(Widen(b), Lift8(hi))
  {}

  /** Eight shifts of a register that already holds later message bytes. */
  lemma AddByteAhead(c: bv32, b: Byte, hi: bv32)
    requires Fits24(hi)
    ensures ShiftBy(Xor(c, Ahead(b, hi)), 8) == Xor(AddByte(c, b), hi)
  {
    hide ShiftBy, Xor, Widen, Ahead, Low8, Lift8, Drop8, Fits24;
    AheadIsXor(b, hi);
    LiftFacts(b, hi);
    XorAssociates(c, Widen(b), Lift8(hi));
    ShiftByIsLinear(Xor(c, Widen(b)), Lift8(hi), 8);
    ShiftOutZeros(Lift8(hi));
  }

  lemma Le32IsNested(s: seq<Byte>)
    requires |s| == 4
    ensures var h3 := Widen(s[3]);
            var h2 := Ahead(s[2], h3);
            var h1 := Ahead(s[1], h2);
            && GetLe32(s) == Ahead(s[0], h1)
            && Fits24(h1) && Fits24(h2) && Fits24(h3)
  {}

  lemma RunFour(c: bv32, s: seq<Byte>)
    requires |s| == 4
    ensures Run(c, s) == AddByte(AddByte(AddByte(AddByte(c, s[0]), s[1]), s[2]), s[3])
  {
    hide AddByte;
    assert s[..3][..2] == s[..2] && s[..2][..1] == s[..1] && s[..1][..0] == [];
    assert Run(c, s[..1]) == AddByte(c, s[0]);
    assert Run(c, s[..2]) == AddByte(Run(c, s[..1]), s[1]);
    assert Run(c, s[..3]) == AddByte(Run(c, s[..2]), s[2]);
  }

  lemma AddByteAsShift(c: bv32, b: Byte)
    ensures AddByte(c, b) == ShiftBy(Xor(c, Widen(b)), 8)
  {}

  /** Four bytes enter the register as one little-endian word. */
  lemma RunWord(c: bv32, s: seq<Byte>)
    requires |s| == 4
    ensures Run(c, s) == ShiftBy(Xor(c, GetLe32(s)), 32)
  {
    hide Run, AddByte, ShiftBy, Xor, Ahead, Widen, GetLe32, Fits24;
    var h3 := Widen(s[3]);
    var h2 := Ahead(s[2], h3);
    var h1 := Ahead(s[1], h2);
    Le32IsNested(s);
    RunFour(c, s);
    var c1 := AddByte(c, s[0]);
    var c2 := AddByte(c1, s[1]);
    var c3 := AddByte(c2, s[2]);
    AddByteAhead(c, s[0], h1);
    AddByteAhead(c1, s[1], h2);
    AddByteAhead(c2, s[2], h3);
    AddByteAsShift(c3, s[3]);
    ShiftByAdds(Xor(c, GetLe32(s)), 8, 24);
    ShiftByAdds(Xor(c1, h1), 8, 16);
    ShiftByAdds(Xor(c2, h2), 8, 8);
  }

  /** The register value that a message followed by its own checksum always leaves. */
  function Residue(): bv32 {
    ShiftBy(ONES, 32)
  }

  lemma XorWithOnes(c: bv32, t: bv32)
    ensures (t == Xor(c, ONES)) <==> (Xor(c, t) == ONES)
  {
    hide Xor;
    XorUndoes(c, t);
    XorUndoes(c, ONES);
  }

  /** A trailer is the checksum of its body exactly when the whole leaves the residue. */
  lemma TrailerMatchesIffResidue(body: seq<Byte>, trailer: seq<Byte>)
    requires |trailer| == 4
    ensures GetLe32(trailer) == Crc(body) <==> Run(ONES, body + trailer) == Residue()
  {
    hide Run, ShiftBy, Xor, GetLe32;
    var c, t := Run(ONES, body), GetLe32(trailer);
    RunConcat(ONES, body, trailer);
    RunWord(c, trailer);
    XorWithOnes(c, t);
    if Run(ONES, body + trailer) == Residue() {
      ShiftByIsInjective(Xor(c, t), ONES, 32);
    }
  }

  /** Two messages that differ only inside one four-byte window leave different registers. */
  lemma BurstChangesRegister(c: bv32, pre: seq<Byte>, x: seq<Byte>, y: seq<Byte>, post: seq<Byte>)
    requires |x| == |y| == 4 && x != y
    ensures Run(c, pre + x + post) != Run(c, pre + y + post)
  {
    hide Run, ShiftBy, Xor, GetLe32, PutLe32;
    var r := Run(c, pre);
    RunConcat(c, pre, x);
    RunConcat(c, pre, y);
    RunConcat(c, pre + x, post);
    RunConcat(c, pre + y, post);
    if Run(c, pre + x + post) == Run(c, pre + y + post) {
      RunIsInjective(Run(r, x), Run(r, y), post);
      RunWord(r, x);
      RunWord(r, y);
      ShiftByIsInjective(Xor(r, GetLe32(x)), Xor(r, GetLe32(y)), 32);
      XorCancels(GetLe32(x), GetLe32(y), r);
      Le32RoundTrip(0, x);
      Le32RoundTrip(0, y);
    }
  }
}
