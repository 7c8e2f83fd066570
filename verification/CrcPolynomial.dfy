/**
  The checksum as polynomial arithmetic over GF(2), independent of any register: the
  generator is given by its exponents (clause 3.2.9 of IEEE 802.3), the message by its
  bits in the order of transmission, and the CRC turns out to be the complement of the
  one remainder of the preset message modulo the generator.
 */
module CrcPolynomial {
  import opened Crc32

  // ---------- Polynomials over GF(2): the set of exponents with coefficient one ----------

  type Poly = set<nat>

  /** x^32 + x^26 + x^23 + x^22 + x^16 + x^12 + x^11 + x^10 + x^8 + x^7 + x^5 + x^4 + x^2 + x + 1 */
  const GENERATOR: Poly := {32, 26, 23, 22, 16, 12, 11, 10, 8, 7, 5, 4, 2, 1, 0}

  function Add(p: Poly, q: Poly): Poly { (p - q) + (q - p) }

  /** p times x^n. */
  function Raise(p: Poly, n: nat): Poly { set e | e in p :: e + n }

  /** The generator times the polynomial whose coefficients are `q`, lowest first. */
  function Multiple(q: seq<bool>): Poly {
    if q == [] then {}
    else Add(Multiple(q[..|q| - 1]), if q[|q| - 1] then Raise(GENERATOR, |q| - 1) else {})
  }

  /** Equal up to a multiple of the generator. */
  ghost predicate Congruent(p: Poly, r: Poly) {
    exists q :: Add(p, r) == Multiple(q)
  }

  ghost predicate Below(p: Poly, n: nat) {
    forall e :: e in p ==> e < n
  }

  // ---------- Algebra ----------

  lemma RaiseHas(p: Poly, n: nat, e: nat)
    ensures e in Raise(p, n) <==> e >= n && e - n in p
  {
    if e >= n && e - n in p {
      assert (e - n) + n == e;
    }
  }

  lemma RaiseAdds(p: Poly, q: Poly, n: nat)
    ensures Raise(Add(p, q), n) == Add(Raise(p, n), Raise(q, n))
  {
    forall e ensures e in Raise(Add(p, q), n) <==> e in Add(Raise(p, n), Raise(q, n)) {
      if e >= 0 {
        RaiseHas(Add(p, q), n, e);
        RaiseHas(p, n, e);
        RaiseHas(q, n, e);
      }
    }
  }

  lemma RaiseTwice(p: Poly, m: nat, n: nat)
    ensures Raise(Raise(p, m), n) == Raise(p, m + n) && Raise(p, 0) == p
  {
    forall e: nat ensures e in Raise(Raise(p, m), n) <==> e in Raise(p, m + n) {
      RaiseHas(Raise(p, m), n, e);
      if e >= n { RaiseHas(p, m, e - n); }
      RaiseHas(p, m + n, e);
    }
    forall e: nat ensures e in Raise(p, 0) <==> e in p {
      RaiseHas(p, 0, e);
    }
  }

  lemma AddRearranges(p: Poly, q: Poly, r: Poly, s: Poly)
    ensures Add(Add(p, q), Add(r, s)) == Add(Add(p, r), Add(q, s))
    ensures Add(p, q) == Add(q, p) && Add(p, p) == {} && Add(p, {}) == p
    ensures Add(Add(p, q), r) == Add(p, Add(q, r))
    ensures Add(Add(p, q), Add(q, r)) == Add(p, r)
  {}

  // ---------- Multiples of the generator ----------

  function Plus(a: seq<bool>, b: seq<bool>): (c: seq<bool>)
    requires |a| == |b|
    ensures |c| == |a|
  {
    seq(|a|, i requires 0 <= i < |a| => a[i] != b[i])
  }

  lemma {:induction false} MultiplesAdd(a: seq<bool>, b: seq<bool>)
    requires |a| == |b|
    ensures Multiple(Plus(a, b)) == Add(Multiple(a), Multiple(b))
    decreases |a|
  {
    if a != [] {
      var n := |a| - 1;
      MultiplesAdd(a[..n], b[..n]);
      assert Plus(a, b)[..n] == Plus(a[..n], b[..n]);
      var g := Raise(GENERATOR, n);
      var x, y := if a[n] then g else {}, if b[n] then g else {};
      AddRearranges(Multiple(a[..n]), Multiple(b[..n]), x, y);
      AddRearranges(Multiple(a[..n]), x, Multiple(b[..n]), y);
      AddRearranges(g, {}, {}, {});
      assert Add(x, y) == if a[n] != b[n] then g else {};
    }
  }

  function Zeros(n: nat): seq<bool> { seq(n, _ => false) }

  lemma {:induction false} MultiplePads(q: seq<bool>, n: nat)
    ensures Multiple(q + Zeros(n)) == Multiple(q)
    decreases n
  {
    if n == 0 {
      assert q + Zeros(0) == q;
    } else {
      MultiplePads(q, n - 1);
      var more := q + Zeros(n);
      assert more[..|more| - 1] == q + Zeros(n - 1);
      AddRearranges(Multiple(q), {}, {}, {});
    }
  }

  lemma {:induction false} MultipleRaises(q: seq<bool>)
    ensures Multiple([false] + q) == Raise(Multiple(q), 1)
    decreases |q|
  {
    if q == [] {
      assert ([false] + q)[..0] == [];
      AddRearranges({}, {}, {}, {});
    } else {
      var n := |q| - 1;
      MultipleRaises(q[..n]);
      assert ([false] + q)[..|q|] == [false] + q[..n];
      var top := if q[n] then Raise(GENERATOR, n) else {};
      RaiseAdds(Multiple(q[..n]), top, 1);
      RaiseTwice(GENERATOR, n, 1);
    }
  }

  /** A nonzero multiple of the generator has degree at least 32. */
  lemma {:induction false} MultipleIsHigh(q: seq<bool>)
    ensures Multiple(q) == {} || exists e :: e in Multiple(q) && e >= 32
    ensures Below(Multiple(q), |q| + 32)
    decreases |q|
  {
    if q != [] {
      var n := |q| - 1;
      MultipleIsHigh(q[..n]);
      if q[n] {
        forall e: nat ensures e in Raise(GENERATOR, n) ==> e <= n + 32 {
          RaiseHas(GENERATOR, n, e);
        }
        RaiseHas(GENERATOR, n, n + 32);
        assert n + 32 !in Multiple(q[..n]);
        assert n + 32 in Multiple(q);
      } else {
        AddRearranges(Multiple(q[..n]), {}, {}, {});
      }
    }
  }

  // ---------- Congruence ----------

  lemma CongruentSelf(p: Poly)
    ensures Congruent(p, p)
  {
    AddRearranges(p, p, p, p);
    assert Multiple([]) == {};
  }

  lemma CongruentAdds(p: Poly, p': Poly, r: Poly, r': Poly)
    requires Congruent(p, p') && Congruent(r, r')
    ensures Congruent(Add(p, r), Add(p', r'))
  {
    var a :| Add(p, p') == Multiple(a);
    var b :| Add(r, r') == Multiple(b);
    var a', b' := a + Zeros(|b|), b + Zeros(|a|);
    MultiplePads(a, |b|);
    MultiplePads(b, |a|);
    MultiplesAdd(a', b');
    AddRearranges(p, r, p', r');
    assert Add(Add(p, r), Add(p', r')) == Multiple(Plus(a', b'));
  }

  lemma CongruentChains(p: Poly, q: Poly, r: Poly)
    requires Congruent(p, q) && Congruent(q, r)
    ensures Congruent(p, r)
  {
    CongruentAdds(p, q, q, r);
    AddRearranges(p, q, q, r);
    AddRearranges(p, q, r, r);
    AddRearranges(q, r, p, p);
    var m :| Add(Add(p, q), Add(q, r)) == Multiple(m);
    assert Add(p, r) == Multiple(m);
  }

  lemma CongruentRaises(p: Poly, r: Poly)
    requires Congruent(p, r)
    ensures Congruent(Raise(p, 1), Raise(r, 1))
  {
    var q :| Add(p, r) == Multiple(q);
    MultipleRaises(q);
    RaiseAdds(p, r, 1);
    assert Add(Raise(p, 1), Raise(r, 1)) == Multiple([false] + q);
  }

  /** Remainders below the generator's degree are unique. */
  lemma RemainderIsUnique(p: Poly, r: Poly)
    requires Congruent(p, r) && Below(p, 32) && Below(r, 32)
    ensures p == r
  {
    var q :| Add(p, r) == Multiple(q);
    MultipleIsHigh(q);
    assert Add(p, r) == {};
    assert forall e :: e in p <==> e in r;
  }

  // ---------- Registers as polynomials ----------

  function Half(c: bv32): bv32 { c >> 1 }

  predicate Odd(c: bv32) { c & 1 == 1 }

  predicate BitAt(c: bv32, i: nat) {
    if i == 0 then Odd(c) else BitAt(Half(c), i - 1)
  }

  /** The register holds its polynomial reversed: the lowest bit is the coefficient of x^31. */
  function PolyOf(c: bv32): Poly {
    set e: nat | e < 32 && Coefficient(c, e)
  }

  predicate Coefficient(c: bv32, e: nat)
    requires e < 32
  {
    BitAt(c, 31 - e)
  }

  lemma XorHalves(a: bv32, b: bv32)
    ensures Half(Xor(a, b)) == Xor(Half(a), Half(b))
    ensures Odd(Xor(a, b)) <==> (Odd(a) != Odd(b))
  {
    XorBits(a, b);
  }

  lemma {:induction false} XorBit(a: bv32, b: bv32, i: nat)
    ensures BitAt(Xor(a, b), i) <==> (BitAt(a, i) != BitAt(b, i))
    decreases i
  {
    hide Xor, Half, Odd;
    XorHalves(a, b);
    if i > 0 {
      XorBit(Half(a), Half(b), i - 1);
    }
  }

  lemma PolyOfXor(a: bv32, b: bv32)
    ensures PolyOf(Xor(a, b)) == Add(PolyOf(a), PolyOf(b))
  {
    hide Xor, BitAt;
    forall e: nat | e < 32 ensures e in PolyOf(Xor(a, b)) <==> e in Add(PolyOf(a), PolyOf(b)) {
      XorBit(a, b, 31 - e);
    }
  }

  lemma HalvesAre8(c: bv32)
    ensures Half(Half(Half(Half(Half(Half(Half(Half(c)))))))) == Drop8(c)
  {}

  lemma Down4(c: bv32, i: nat)
    ensures BitAt(c, i + 4) <==> BitAt(Half(Half(Half(Half(c)))), i)
  {
    hide Half, Odd;
    var c1, c2 := Half(c), Half(Half(c));
    assert BitAt(c, i + 4) <==> BitAt(c1, i + 3);
    assert BitAt(c1, i + 3) <==> BitAt(c2, i + 2);
    assert BitAt(c2, i + 2) <==> BitAt(Half(c2), i + 1);
  }

  lemma Down8(c: bv32, i: nat)
    ensures BitAt(c, i + 8) <==> BitAt(Drop8(c), i)
  {
    HalvesAre8(c);
    hide Half, BitAt, Drop8;
    Down4(c, i + 4);
    Down4(Half(Half(Half(Half(c)))), i);
  }

  lemma FourBytes(c: bv32)
    ensures Drop8(Drop8(Drop8(Drop8(c)))) == 0
  {}

  lemma {:induction false} ZeroBit(i: nat)
    ensures !BitAt(0, i)
    decreases i
  {
    assert Half(0) == 0;
    if i > 0 {
      ZeroBit(i - 1);
    }
  }

  lemma BitsEnd(c: bv32)
    ensures !BitAt(c, 32)
  {
    hide BitAt, Drop8;
    Down8(c, 24);
    Down8(Drop8(c), 16);
    Down8(Drop8(Drop8(c)), 8);
    Down8(Drop8(Drop8(Drop8(c))), 0);
    FourBytes(c);
    ZeroBit(0);
  }

  lemma Masks(c: bv32)
    ensures Odd(c) <==> c & 0x01 != 0
    ensures Odd(Half(c)) <==> c & 0x02 != 0
    ensures Odd(Half(Half(c))) <==> c & 0x04 != 0
    ensures Odd(Half(Half(Half(c)))) <==> c & 0x08 != 0
  {}

  lemma MasksShifted(c: bv32)
    ensures var d := Half(Half(Half(Half(c))));
            && (d & 0x01 != 0 <==> c & 0x10 != 0) && (d & 0x02 != 0 <==> c & 0x20 != 0)
            && (d & 0x04 != 0 <==> c & 0x40 != 0) && (d & 0x08 != 0 <==> c & 0x80 != 0)
  {}

  lemma FourBits(c: bv32)
    ensures BitAt(c, 0) <==> Odd(c)
    ensures BitAt(c, 1) <==> Odd(Half(c))
    ensures BitAt(c, 2) <==> Odd(Half(Half(c)))
    ensures BitAt(c, 3) <==> Odd(Half(Half(Half(c))))
  {
    hide Odd, Half;
    var c1, c2 := Half(c), Half(Half(c));
    assert BitAt(c2, 1) <==> BitAt(Half(c2), 0);
    assert BitAt(c1, 2) <==> BitAt(c2, 1);
    assert BitAt(c1, 1) <==> BitAt(c2, 0);
    assert BitAt(c, 3) <==> BitAt(c1, 2);
    assert BitAt(c, 2) <==> BitAt(c1, 1);
  }

  /** The eight lowest bits, by their masks. */
  lemma LowBits(c: bv32)
    ensures BitAt(c, 0) <==> c & 0x01 != 0
    ensures BitAt(c, 1) <==> c & 0x02 != 0
    ensures BitAt(c, 2) <==> c & 0x04 != 0
    ensures BitAt(c, 3) <==> c & 0x08 != 0
    ensures BitAt(c, 4) <==> c & 0x10 != 0
    ensures BitAt(c, 5) <==> c & 0x20 != 0
    ensures BitAt(c, 6) <==> c & 0x40 != 0
    ensures BitAt(c, 7) <==> c & 0x80 != 0
  {
    hide Odd, Half, BitAt;
    var d := Half(Half(Half(Half(c))));
    Masks(c);
    Masks(d);
    MasksShifted(c);
    FourBits(c);
    FourBits(d);
    Down4(c, 0);
    Down4(c, 1);
    Down4(c, 2);
    Down4(c, 3);
  }

  /** All 32 bits as those of four bytes. */
  lemma Bytewise(c: bv32)
    ensures forall i: nat | 8 <= i < 16 :: BitAt(c, i) <==> BitAt(Drop8(c), i - 8)
    ensures forall i: nat | 16 <= i < 24 :: BitAt(c, i) <==> BitAt(Drop8(Drop8(c)), i - 16)
    ensures forall i: nat | 24 <= i < 32 :: BitAt(c, i) <==> BitAt(Drop8(Drop8(Drop8(c))), i - 24)
  {
    hide BitAt, Drop8;
    forall i: nat | 8 <= i < 32 ensures BitAt(c, i) <==> BitAt(Drop8(c), i - 8) {
      Down8(c, i - 8);
    }
    forall i: nat | 8 <= i < 24 ensures BitAt(Drop8(c), i) <==> BitAt(Drop8(Drop8(c)), i - 8) {
      Down8(Drop8(c), i - 8);
    }
    forall i: nat | 8 <= i < 16 ensures BitAt(Drop8(Drop8(c)), i) <==> BitAt(Drop8(Drop8(Drop8(c))), i - 8) {
      Down8(Drop8(Drop8(c)), i - 8);
    }
  }

  // ---------- The constants ----------

  /** The bits of the polynomial constant are the generator without its leading term. */
  lemma PolyIsGenerator()
    ensures PolyOf(POLY) == GENERATOR - {32}
  {
    PolyBits();
    hide BitAt;
    forall e: nat | e < 32 ensures Coefficient(POLY, e) <==> e in GENERATOR {
      SmallNumber(31 - e);
    }
  }

  lemma SmallNumber(i: nat)
    requires i < 32
    ensures i in {0, 1, 2, 3, 4, 5, 6, 7, 8, 9, 10, 11, 12, 13, 14, 15, 16, 17, 18, 19, 20, 21, 22, 23, 24, 25, 26, 27, 28, 29, 30, 31}
  {}

  lemma PolyBytes()
    ensures Drop8(POLY) == 0xEDB883 && Drop8(Drop8(POLY)) == 0xEDB8 && Drop8(Drop8(Drop8(POLY))) == 0xED
  {}

  lemma PolyBits()
    ensures !BitAt(POLY, 0) && !BitAt(POLY, 1) && !BitAt(POLY, 2) && !BitAt(POLY, 3)
    ensures !BitAt(POLY, 4) && BitAt(POLY, 5) && !BitAt(POLY, 6) && !BitAt(POLY, 7)
    ensures BitAt(POLY, 8) && BitAt(POLY, 9) && !BitAt(POLY, 10) && !BitAt(POLY, 11)
    ensures !BitAt(POLY, 12) && !BitAt(POLY, 13) && !BitAt(POLY, 14) && BitAt(POLY, 15)
    ensures !BitAt(POLY, 16) && !BitAt(POLY, 17) && !BitAt(POLY, 18) && BitAt(POLY, 19)
    ensures BitAt(POLY, 20) && BitAt(POLY, 21) && !BitAt(POLY, 22) && BitAt(POLY, 23)
    ensures BitAt(POLY, 24) && !BitAt(POLY, 25) && BitAt(POLY, 26) && BitAt(POLY, 27)
    ensures !BitAt(POLY, 28) && BitAt(POLY, 29) && BitAt(POLY, 30) && BitAt(POLY, 31)
  {
    PolyBytes();
    Bytewise(POLY);
    LowBits(POLY);
    LowBits(Drop8(POLY));
    LowBits(Drop8(Drop8(POLY)));
    LowBits(Drop8(Drop8(Drop8(POLY))));
    hide BitAt, Drop8;
  }

  const ALL_ONES: Poly := set e: nat | e < 32

  lemma OnesBytes()
    ensures Drop8(ONES) == 0xFF_FFFF && Drop8(Drop8(ONES)) == 0xFFFF && Drop8(Drop8(Drop8(ONES))) == 0xFF
  {}

  lemma OnesIsAllOnes()
    ensures PolyOf(ONES) == ALL_ONES
  {
    OnesBytes();
    Bytewise(ONES);
    LowBits(ONES);
    LowBits(Drop8(ONES));
    LowBits(Drop8(Drop8(ONES)));
    LowBits(Drop8(Drop8(Drop8(ONES))));
    hide BitAt, Drop8;
    forall e: nat | e < 32 ensures Coefficient(ONES, e) {
      SmallNumber(31 - e);
    }
  }

  // ---------- Registers are determined by their polynomials ----------

  lemma LowByteVanishes(c: bv32)
    requires forall i: nat | i < 8 :: !BitAt(c, i)
    ensures Low8(c) == 0
  {
    LowBits(c);
    hide BitAt;
  }

  lemma BytesVanish(c: bv32)
    requires Low8(c) == 0 && Low8(Drop8(c)) == 0 && Low8(Drop8(Drop8(c))) == 0 && Low8(Drop8(Drop8(Drop8(c)))) == 0
    ensures c == 0
  {}

  lemma NoTermsNoBits(c: bv32)
    requires PolyOf(c) == {}
    ensures c == 0
  {
    hide BitAt, Drop8, Low8;
    forall i: nat | i < 32 ensures !BitAt(c, i) {
      assert 31 - i !in PolyOf(c);
      assert !Coefficient(c, 31 - i);
    }
    forall i: nat | i < 24 ensures !BitAt(Drop8(c), i) { Down8(c, i); }
    forall i: nat | i < 16 ensures !BitAt(Drop8(Drop8(c)), i) { Down8(Drop8(c), i); }
    forall i: nat | i < 8 ensures !BitAt(Drop8(Drop8(Drop8(c))), i) { Down8(Drop8(Drop8(c)), i); }
    LowByteVanishes(c);
    LowByteVanishes(Drop8(c));
    LowByteVanishes(Drop8(Drop8(c)));
    LowByteVanishes(Drop8(Drop8(Drop8(c))));
    BytesVanish(c);
  }

  lemma PolyDetermines(a: bv32, b: bv32)
    requires PolyOf(a) == PolyOf(b)
    ensures a == b
  {
    hide Xor, PolyOf;
    PolyOfXor(a, b);
    AddRearranges(PolyOf(a), {}, {}, {});
    NoTermsNoBits(Xor(a, b));
    XorZero(a, b);
  }

  lemma XorZero(a: bv32, b: bv32)
    requires Xor(a, b) == 0
    ensures a == b
  {}

  // ---------- One step of the register ----------

  lemma PolyOfHalf(c: bv32)
    ensures PolyOf(Half(c)) == Raise(PolyOf(c), 1) - {32}
    ensures 32 in Raise(PolyOf(c), 1) <==> Odd(c)
  {
    BitsEnd(c);
    hide Half, Odd;
    forall e: nat | e < 32 ensures e in PolyOf(Half(c)) <==> e in Raise(PolyOf(c), 1) {
      RaiseHas(PolyOf(c), 1, e);
      assert BitAt(c, 32 - e) <==> BitAt(Half(c), 31 - e);
      if e > 0 {
        assert Coefficient(c, e - 1) <==> BitAt(c, 32 - e);
      }
    }
    RaiseHas(PolyOf(c), 1, 32);
    assert Coefficient(c, 31) <==> Odd(c);
    forall e: nat | e > 32 ensures e !in Raise(PolyOf(c), 1) {
      RaiseHas(PolyOf(c), 1, e);
    }
  }

  lemma ShiftForm(c: bv32)
    ensures Shift(c) == if Odd(c) then Xor(Half(c), POLY) else Half(c)
  {}

  /** A shift multiplies by x and reduces by the generator. */
  lemma ShiftReduces(c: bv32)
    ensures PolyOf(Shift(c)) == if Odd(c) then Add(Raise(PolyOf(c), 1), GENERATOR) else Raise(PolyOf(c), 1)
  {
    ShiftForm(c);
    PolyOfHalf(c);
    PolyIsGenerator();
    PolyOfXor(Half(c), POLY);
    hide PolyOf, Shift, Half, Odd, Raise, Xor;
    var r := Raise(PolyOf(c), 1);
    if Odd(c) {
      assert Add(r - {32}, GENERATOR - {32}) == Add(r, GENERATOR);
    } else {
      assert r - {32} == r;
    }
  }

  lemma ShiftCongruent(c: bv32)
    ensures Congruent(PolyOf(Shift(c)), Raise(PolyOf(c), 1))
  {
    ShiftReduces(c);
    hide PolyOf, Shift, Odd;
    var r := Raise(PolyOf(c), 1);
    hide Raise, Add, Multiple;
    if Odd(c) {
      OnceGenerator(r);
      assert Add(Add(r, GENERATOR), r) == Multiple([true]);
    } else {
      CongruentSelf(r);
    }
  }

  lemma OnceGenerator(r: Poly)
    ensures Multiple([true]) == GENERATOR && Add(Add(r, GENERATOR), r) == GENERATOR
  {
    assert [true][..0] == [];
    RaiseTwice(GENERATOR, 0, 0);
    AddRearranges(GENERATOR, {}, {}, {});
    hide Raise;
    AddRearranges({}, GENERATOR, {}, {});
    var g := GENERATOR;
    AddRearranges(r, g, r, {});
    AddRearranges(g, r, r, {});
    AddRearranges(r, r, g, {});
  }

  lemma {:induction false} ShiftByCongruent(c: bv32, n: nat)
    ensures Congruent(PolyOf(ShiftBy(c, n)), Raise(PolyOf(c), n))
    decreases n
  {
    hide PolyOf, Shift, Raise, Congruent;
    RaiseTwice(PolyOf(c), 0, 0);
    if n == 0 {
      CongruentSelf(PolyOf(c));
    } else {
      ShiftByLast(c, n);
      var d := ShiftBy(c, n - 1);
      ShiftByCongruent(c, n - 1);
      ShiftCongruent(d);
      CongruentRaises(PolyOf(d), Raise(PolyOf(c), n - 1));
      RaiseTwice(PolyOf(c), n - 1, 1);
      CongruentChains(PolyOf(Shift(d)), Raise(PolyOf(d), 1), Raise(PolyOf(c), n));
    }
  }

  lemma {:induction false} ShiftByLast(c: bv32, n: nat)
    requires n > 0
    ensures ShiftBy(c, n) == Shift(ShiftBy(c, n - 1))
    decreases n
  {
    hide Shift;
    if n > 1 {
      ShiftByLast(Shift(c), n - 1);
    }
  }

  // ---------- The message ----------

  /** A byte in the order of transmission: the lowest bit first, as the highest power. */
  function BytePoly(b: Byte): Poly {
    set e: nat | e < 8 && ByteCoefficient(b, e)
  }

  predicate ByteCoefficient(b: Byte, e: nat)
    requires e < 8
  {
    BitAt(Widen(b), 7 - e)
  }

  function Message(s: seq<Byte>): Poly {
    if s == [] then {} else Add(Raise(Message(s[..|s| - 1]), 8), BytePoly(s[|s| - 1]))
  }

  lemma WidenIsLow(b: Byte)
    ensures Drop8(Widen(b)) == 0
  {}

  lemma PolyOfByte(b: Byte)
    ensures PolyOf(Widen(b)) == Raise(BytePoly(b), 24)
  {
    WidenIsLow(b);
    hide BitAt, Drop8, Widen;
    forall e: nat | e < 32 ensures e in PolyOf(Widen(b)) <==> e in Raise(BytePoly(b), 24) {
      RaiseHas(BytePoly(b), 24, e);
      if e < 24 {
        Down8(Widen(b), 23 - e);
        ZeroBit(23 - e);
      } else {
        assert ByteCoefficient(b, e - 24) <==> Coefficient(Widen(b), e);
      }
    }
    forall e: nat | e >= 32 ensures e !in Raise(BytePoly(b), 24) {
      RaiseHas(BytePoly(b), 24, e);
    }
  }

  /** What the register holds, modulo the generator, after any message from any preset. */
  function Expected(preset: Poly, s: seq<Byte>): Poly {
    Add(Raise(preset, 8 * |s|), Raise(Message(s), 32))
  }

  lemma ExpectedStep(preset: Poly, s: seq<Byte>)
    requires s != []
    ensures var init, b := s[..|s| - 1], s[|s| - 1];
            Expected(preset, s) == Raise(Add(Expected(preset, init), Raise(BytePoly(b), 24)), 8)
  {
    var init, b, n := s[..|s| - 1], BytePoly(s[|s| - 1]), |s| - 1;
    var p, m := Raise(preset, 8 * n), Raise(Message(init), 32);
    hide BytePoly;
    RaiseAdds(Add(p, m), Raise(b, 24), 8);
    RaiseAdds(p, m, 8);
    RaiseTwice(preset, 8 * n, 8);
    RaiseTwice(Message(init), 32, 8);
    RaiseTwice(Message(init), 8, 32);
    RaiseTwice(b, 24, 8);
    RaiseAdds(Raise(Message(init), 8), b, 32);
    AddRearranges(Raise(p, 8), Raise(m, 8), Raise(b, 32), {});
  }

  lemma {:induction false} RunCongruent(c: bv32, s: seq<Byte>)
    ensures Congruent(PolyOf(Run(c, s)), Expected(PolyOf(c), s))
    decreases |s|
  {
    hide PolyOf, Raise, Congruent, BytePoly, AddByte, ShiftBy, Xor, Widen, Add;
    if s == [] {
      RaiseTwice(PolyOf(c), 0, 0);
      RaiseNothing();
      AddRearranges(PolyOf(c), {}, {}, {});
      CongruentSelf(PolyOf(c));
    } else {
      var init, b := s[..|s| - 1], s[|s| - 1];
      var r, want := Run(c, init), Expected(PolyOf(c), init);
      RunCongruent(c, init);
      ExpectedStep(PolyOf(c), s);
      hide Expected;
      AddByteAsShift(r, b);
      ShiftByCongruent(Xor(r, Widen(b)), 8);
      PolyOfXor(r, Widen(b));
      PolyOfByte(b);
      var byte := Raise(BytePoly(b), 24);
      CongruentSelf(byte);
      CongruentAdds(PolyOf(r), want, byte, byte);
      CongruentRaisesBy(Add(PolyOf(r), byte), Add(want, byte), 8);
      CongruentChains(PolyOf(Run(c, s)), Raise(Add(PolyOf(r), byte), 8), Raise(Add(want, byte), 8));
    }
  }

  lemma RaiseNothing()
    ensures Raise({}, 32) == {}
  {}

  lemma {:induction false} CongruentRaisesBy(p: Poly, r: Poly, n: nat)
    requires Congruent(p, r)
    ensures Congruent(Raise(p, n), Raise(r, n))
    decreases n
  {
    hide Congruent, Raise;
    if n == 0 {
      RaiseTwice(p, 0, 0);
      RaiseTwice(r, 0, 0);
    } else {
      CongruentRaisesBy(p, r, n - 1);
      CongruentRaises(Raise(p, n - 1), Raise(r, n - 1));
      RaiseTwice(p, n - 1, 1);
      RaiseTwice(r, n - 1, 1);
    }
  }

  // ---------- The theorem ----------

  /**
    A word is the CRC of a message exactly when its complement, read as a polynomial,
    is the remainder modulo the generator of the message times x^32, with its first
    thirty-two bits complemented.
   */
  lemma CrcIsRemainder(s: seq<Byte>, w: bv32)
    ensures w == Crc(s) <==> Congruent(ALL_ONES - PolyOf(w), Expected(ALL_ONES, s))
  {
    hide PolyOf, Congruent, Expected, Run, Xor, Raise, Add;
    var r := Run(ONES, s);
    RunCongruent(ONES, s);
    OnesIsAllOnes();
    PolyIsLow(w);
    PolyIsLow(Crc(s));
    PolyIsLow(r);
    Complements(w);
    Complements(Crc(s));
    XorUndoes(ONES, r);
    XorCommutes(ONES, r);
    XorCommutes(ONES, Crc(s));
    assert ALL_ONES - PolyOf(Crc(s)) == PolyOf(r);
    if Congruent(ALL_ONES - PolyOf(w), Expected(ALL_ONES, s)) {
      CongruentTurns(PolyOf(r), Expected(ALL_ONES, s));
      CongruentChains(ALL_ONES - PolyOf(w), Expected(ALL_ONES, s), PolyOf(r));
      RemainderIsUnique(ALL_ONES - PolyOf(w), PolyOf(r));
      SameComplement(PolyOf(w), PolyOf(Crc(s)));
      PolyDetermines(w, Crc(s));
    }
  }

  lemma SameComplement(p: Poly, q: Poly)
    requires p <= ALL_ONES && q <= ALL_ONES && ALL_ONES - p == ALL_ONES - q
    ensures p == q
  {
    assert forall e: nat :: e in p <==> e in ALL_ONES && e !in ALL_ONES - p;
    assert forall e: nat :: e in q <==> e in ALL_ONES && e !in ALL_ONES - q;
  }

  lemma PolyIsLow(c: bv32)
    ensures PolyOf(c) <= ALL_ONES && Below(PolyOf(c), 32) && Below(ALL_ONES - PolyOf(c), 32)
  {
    hide Coefficient;
  }

  lemma Complements(w: bv32)
    ensures PolyOf(Xor(w, ONES)) == ALL_ONES - PolyOf(w)
  {
    hide PolyOf, Xor;
    PolyIsLow(w);
    OnesIsAllOnes();
    PolyOfXor(w, ONES);
  }

  lemma CongruentTurns(p: Poly, r: Poly)
    requires Congruent(p, r)
    ensures Congruent(r, p)
  {
    AddRearranges(p, r, p, r);
  }
}
