/** The POSIX cksum of a file, as a 32-bit register and as a polynomial remainder
    over GF(2) (POSIX.1-2017, Shell and Utilities, chapter 4, cksum). */
module Checksum {
  import opened Basics

  // ----- polynomials over GF(2), as sets of exponents -----

  type Poly = set<nat>

  function Plus(a: Poly, b: Poly): Poly {
    (a - b) + (b - a)
  }

  /** Multiplication by x^k. */
  function Shift(a: Poly, k: nat): Poly {
    set e | e in a :: e + k
  }

  /** The exponents of 0x04c11db7, and the generator x^32 + ... of degree 32. */
  const LOW: Poly := {26, 23, 22, 16, 12, 11, 10, 8, 7, 5, 4, 2, 1, 0}
  const GENERATOR: Poly := {32, 26, 23, 22, 16, 12, 11, 10, 8, 7, 5, 4, 2, 1, 0}

  /** The sum of the generator times x^e, for the listed exponents. */
  function Multiple(quotient: seq<nat>): Poly {
    if quotient == [] then {} else Plus(Shift(GENERATOR, quotient[0]), Multiple(quotient[1..]))
  }

  /** Equal up to a multiple of the generator. */
  ghost predicate Congruent(a: Poly, b: Poly) {
    exists quotient :: Plus(a, b) == Multiple(quotient)
  }

  predicate Below(a: Poly, n: nat) {
    forall e | e in a :: e < n
  }

  predicate AllBelow(quotient: seq<nat>, n: nat) {
    forall i | 0 <= i < |quotient| :: quotient[i] < n
  }

  lemma ShiftHas(a: Poly, k: nat, e: nat)
    ensures e in Shift(a, k) <==> e >= k && e - k in a
  {
    if e >= k && e - k in a { assert e == (e - k) + k; }
  }

  lemma ShiftPlus(a: Poly, b: Poly, k: nat)
    ensures Shift(Plus(a, b), k) == Plus(Shift(a, k), Shift(b, k))
  {
    forall e: nat ensures e in Shift(Plus(a, b), k) <==> e in Plus(Shift(a, k), Shift(b, k)) {
      ShiftHas(Plus(a, b), k, e);
      ShiftHas(a, k, e);
      ShiftHas(b, k, e);
    }
  }

  lemma ShiftTwice(a: Poly, j: nat, k: nat)
    ensures Shift(Shift(a, j), k) == Shift(a, j + k)
  {
    forall e: nat ensures e in Shift(Shift(a, j), k) <==> e in Shift(a, j + k) {
      ShiftHas(Shift(a, j), k, e);
      if e >= k { ShiftHas(a, j, e - k); }
      ShiftHas(a, j + k, e);
    }
  }

  lemma {:induction false} MultipleShift(quotient: seq<nat>, k: nat)
    ensures Shift(Multiple(quotient), k) == Multiple(Raised(quotient, k))
  {
    if quotient == [] {
      assert Shift({}, k) == {};
    } else {
      MultipleShift(quotient[1..], k);
      assert Raised(quotient, k)[1..] == Raised(quotient[1..], k);
      ShiftPlus(Shift(GENERATOR, quotient[0]), Multiple(quotient[1..]), k);
      ShiftTwice(GENERATOR, quotient[0], k);
    }
  }

  function Raised(quotient: seq<nat>, k: nat): seq<nat> {
    seq(|quotient|, i requires 0 <= i < |quotient| => quotient[i] + k)
  }

  lemma {:induction false} MultipleMore(a: seq<nat>, b: seq<nat>)
    ensures Multiple(a + b) == Plus(Multiple(a), Multiple(b))
  {
    if a == [] {
      assert a + b == b;
    } else {
      assert (a + b)[1..] == a[1..] + b;
      MultipleMore(a[1..], b);
    }
  }

  // ----- congruence -----

  lemma CongruentSelf(a: Poly)
    ensures Congruent(a, a)
  {
    assert Plus(a, a) == Multiple([]);
  }

  lemma CongruentShift(a: Poly, b: Poly, k: nat)
    requires Congruent(a, b)
    ensures Congruent(Shift(a, k), Shift(b, k))
  {
    var quotient :| Plus(a, b) == Multiple(quotient);
    ShiftPlus(a, b, k);
    MultipleShift(quotient, k);
  }

  lemma CongruentPlus(a: Poly, b: Poly, c: Poly)
    requires Congruent(a, b)
    ensures Congruent(Plus(a, c), Plus(b, c))
  {
    assert Plus(Plus(a, c), Plus(b, c)) == Plus(a, b);
  }

  lemma CongruentMore(a: Poly, b: Poly, c: Poly)
    requires Congruent(a, b) && Congruent(b, c)
    ensures Congruent(a, c)
  {
    var p :| Plus(a, b) == Multiple(p);
    var q :| Plus(b, c) == Multiple(q);
    MultipleMore(p, q);
    assert Plus(Plus(a, b), Plus(b, c)) == Plus(a, c);
  }

  lemma CongruentReduced(a: Poly)
    ensures Congruent(Plus(a, GENERATOR), a)
  {
    assert Shift(GENERATOR, 0) == GENERATOR by {
      forall e: nat ensures e in Shift(GENERATOR, 0) <==> e in GENERATOR { ShiftHas(GENERATOR, 0, e); }
    }
    assert Multiple([0]) == GENERATOR by {
      assert [0][1..] == [];
      assert Plus(GENERATOR, {}) == GENERATOR;
    }
    assert Plus(Plus(a, GENERATOR), a) == GENERATOR;
  }

  // ----- the remainder is unique -----

  function Dropped(quotient: seq<nat>, m: nat): seq<nat> {
    if quotient == [] then []
    else (if quotient[0] == m then [] else [quotient[0]]) + Dropped(quotient[1..], m)
  }

  function Odd(quotient: seq<nat>, m: nat): bool {
    if quotient == [] then false else (quotient[0] == m) != Odd(quotient[1..], m)
  }

  lemma PlusRules(a: Poly, b: Poly, c: Poly)
    ensures Plus(a, Plus(b, c)) == Plus(b, Plus(a, c))
    ensures Plus(a, Plus(a, c)) == c
    ensures Plus({}, c) == c
  {
  }

  /** Equal exponents cancel in pairs. */
  lemma {:induction false} MultipleParity(quotient: seq<nat>, m: nat)
    ensures Multiple(quotient)
         == Plus(if Odd(quotient, m) then Shift(GENERATOR, m) else {}, Multiple(Dropped(quotient, m)))
  {
    if quotient != [] {
      MultipleParity(quotient[1..], m);
      var rest := Dropped(quotient[1..], m);
      var first, odd := Shift(GENERATOR, quotient[0]), Shift(GENERATOR, m);
      PlusRules(first, odd, Multiple(rest));
      if quotient[0] == m {
        assert Dropped(quotient, m) == rest;
        if Odd(quotient[1..], m) { PlusRules({}, {}, Multiple(rest)); }
        else { PlusRules(first, {}, Multiple(rest)); }
      } else {
        assert ([quotient[0]] + rest)[1..] == rest;
        PlusRules(first, {}, Multiple(rest));
        PlusRules({}, {}, Multiple([quotient[0]] + rest));
      }
    }
  }

  lemma {:induction false} MultipleBelow(quotient: seq<nat>, n: nat)
    requires AllBelow(quotient, n)
    ensures Below(Multiple(quotient), n + 32)
  {
    if quotient != [] {
      MultipleBelow(quotient[1..], n);
      forall e | e in Shift(GENERATOR, quotient[0]) ensures e < n + 32 { ShiftHas(GENERATOR, quotient[0], e); }
    }
  }

  /** A multiple of the generator below degree 32 is zero. */
  lemma {:induction false} SmallMultiple(quotient: seq<nat>, n: nat)
    requires AllBelow(quotient, n) && Below(Multiple(quotient), 32)
    ensures Multiple(quotient) == {}
    decreases n
  {
    if n == 0 {
      assert |quotient| == 0;
    } else {
      var m := n - 1;
      MultipleParity(quotient, m);
      DroppedBelow(quotient, m);
      MultipleBelow(Dropped(quotient, m), m);
      ShiftHas(GENERATOR, m, m + 32);
      assert Odd(quotient, m) ==> m + 32 in Multiple(quotient);
      assert Plus({}, Multiple(Dropped(quotient, m))) == Multiple(Dropped(quotient, m));
      SmallMultiple(Dropped(quotient, m), m);
    }
  }

  lemma {:induction false} DroppedBelow(quotient: seq<nat>, m: nat)
    requires AllBelow(quotient, m + 1)
    ensures AllBelow(Dropped(quotient, m), m)
  {
    if quotient != [] { DroppedBelow(quotient[1..], m); }
  }

  /** Only one polynomial below degree 32 is congruent to a given one. */
  lemma RemainderUnique(a: Poly, r: Poly, s: Poly)
    requires Congruent(r, a) && Congruent(s, a) && Below(r, 32) && Below(s, 32)
    ensures r == s
  {
    CongruentFlip(s, a);
    CongruentMore(r, a, s);
    var quotient :| Plus(r, s) == Multiple(quotient);
    SmallMultiple(quotient, Bound(quotient));
    assert Plus(r, s) == {};
    forall e: nat ensures e in r <==> e in s {
      assert e !in Plus(r, s);
    }
  }

  lemma CongruentFlip(a: Poly, b: Poly)
    requires Congruent(a, b)
    ensures Congruent(b, a)
  {
    assert Plus(b, a) == Plus(a, b);
  }

  function Bound(quotient: seq<nat>): (n: nat)
    ensures AllBelow(quotient, n)
  {
    if quotient == [] then 0
    else
      var rest := Bound(quotient[1..]);
      if quotient[0] < rest then rest else quotient[0] + 1
  }

  // ----- the register -----

  /** Thirty-two bits, least significant first. */
  type Register = r: seq<bool> | |r| == 32 witness seq(32, _ => false)

  function Zero(): Register {
    seq(32, _ => false)
  }

  function Xor(a: Register, b: Register): (r: Register)
    ensures forall i | 0 <= i < 32 :: r[i] == (a[i] != b[i])
  {
    seq(32, i requires 0 <= i < 32 => a[i] != b[i])
  }

  /** A left shift drops the top bit. */
  function ShiftLeft(a: Register): (r: Register)
    ensures r[0] == false && forall i | 1 <= i < 32 :: r[i] == a[i - 1]
  {
    [false] + a[..31]
  }

  function Bit(value: Byte, i: nat): bool {
    if i == 0 then value % 2 == 1 else Bit(value / 2, i - 1)
  }

  /** The byte in the register's top octet. */
  function Top(value: Byte): Register {
    seq(32, i requires 0 <= i < 32 => i >= 24 && Bit(value, i - 24))
  }

  function LowRegister(): Register {
    seq(32, i requires 0 <= i < 32 => i in LOW)
  }

  function PolyOf(r: seq<bool>): Poly {
    set i | 0 <= i < |r| && r[i]
  }

  function BytePoly(value: Byte): Poly {
    set i | 0 <= i < 8 && Bit(value, i)
  }

  function Digit(value: Byte, i: nat): nat { if Bit(value, i) then 1 else 0 }

  lemma DigitDown(value: Byte, i: nat)
    ensures Digit(value, i + 1) == Digit(value / 2, i) && value == Digit(value, 0) + 2 * (value / 2)
  {
  }

  /** The bits of an octet are its binary digits. */
  lemma OctetBits(value: Byte)
    ensures value == Digit(value, 0) + 2 * Digit(value, 1) + 4 * Digit(value, 2) + 8 * Digit(value, 3)
      + 16 * Digit(value, 4) + 32 * Digit(value, 5) + 64 * Digit(value, 6) + 128 * Digit(value, 7)
  {
    hide Digit;
    Nibble(value);
    Nibble(value / 16);
    assert Digit(value, 4) == Digit(value, 0 + 4) && Digit(value, 5) == Digit(value, 1 + 4);
    assert Digit(value, 6) == Digit(value, 2 + 4) && Digit(value, 7) == Digit(value, 3 + 4);
  }

  lemma Nibble(value: Byte)
    ensures value == Digit(value, 0) + 2 * Digit(value, 1) + 4 * Digit(value, 2) + 8 * Digit(value, 3)
      + 16 * (value / 16)
    ensures forall i: nat :: Digit(value, i + 4) == Digit(value / 16, i)
  {
    hide Digit;
    var a: Byte := value / 2;
    var b: Byte := a / 2;
    var c: Byte := b / 2;
    forall i: nat ensures Digit(value, i + 4) == Digit(value / 16, i) { Halved(value, i); }
    DigitDown(value, 0);
    DigitDown(value, 1);
    DigitDown(value, 2);
    DigitDown(a, 0);
    DigitDown(a, 1);
    DigitDown(b, 0);
    DigitDown(c, 0);
  }

  lemma Halved(value: Byte, i: nat)
    ensures Digit(value, i + 4) == Digit(value / 16, i)
  {
    hide Digit;
    DigitDown(value, i + 3);
    DigitDown(value / 2, i + 2);
    DigitDown(value / 2 / 2, i + 1);
    DigitDown(value / 2 / 2 / 2, i);
  }

  /** The generator is x^32 and the polynomial of 0x04c11db7. */
  lemma GeneratorOctets()
    ensures MessagePoly([0x04, 0xc1, 0x1d, 0xb7]) == LOW && GENERATOR == LOW + {32}
  {
    hide Bit, BytePoly, Shift, Plus;
    OctetPolys();
    ShiftedLow();
    var m: Bytes := [0x04, 0xc1, 0x1d, 0xb7];
    assert m[..3][..2] == m[..2] && m[..2][..1] == m[..1] && m[..1][..0] == [];
    assert MessagePoly(m[..1]) == Plus(Shift({}, 8), BytePoly(0x04));
    assert MessagePoly(m[..2]) == Plus(Shift(MessagePoly(m[..1]), 8), BytePoly(0xc1));
    assert MessagePoly(m[..3]) == Plus(Shift(MessagePoly(m[..2]), 8), BytePoly(0x1d));
    assert GENERATOR == LOW + {32};
  }

  lemma OctetPolys()
    ensures BytePoly(0x04) == {2} && BytePoly(0xc1) == {7, 6, 0}
    ensures BytePoly(0x1d) == {4, 3, 2, 0} && BytePoly(0xb7) == {7, 5, 4, 2, 1, 0}
  {
    hide Bit;
    OctetBits(0x04);
    OctetBits(0xc1);
    OctetBits(0x1d);
    OctetBits(0xb7);
  }

  lemma ShiftedLow()
    ensures Plus(Shift({}, 8), {2}) == {2}
    ensures Plus(Shift({2}, 8), {7, 6, 0}) == {10, 7, 6, 0}
    ensures Plus(Shift({10, 7, 6, 0}, 8), {4, 3, 2, 0}) == {18, 15, 14, 8, 4, 3, 2, 0}
    ensures Plus(Shift({18, 15, 14, 8, 4, 3, 2, 0}, 8), {7, 5, 4, 2, 1, 0}) == LOW
  {
    assert Shift({2}, 8) == {10};
    assert Shift({10, 7, 6, 0}, 8) == {18, 15, 14, 8};
    assert Shift({18, 15, 14, 8, 4, 3, 2, 0}, 8) == {26, 23, 22, 16, 12, 11, 10, 8};
  }

  /** The message polynomial: the first octet has the highest exponents. */
  function MessagePoly(data: Bytes): Poly {
    if data == [] then {} else Plus(Shift(MessagePoly(data[..|data| - 1]), 8), BytePoly(data[|data| - 1]))
  }

  /** Shifting the register multiplies by x, up to a multiple of the generator. */
  lemma ShiftStep(r: Register)
    ensures
      var next := if r[31] then Xor(ShiftLeft(r), LowRegister()) else ShiftLeft(r);
      Congruent(PolyOf(next), Shift(PolyOf(r), 1))
  {
    var shifted := Shift(PolyOf(r), 1);
    forall e: nat ensures e in shifted <==> 1 <= e <= 32 && r[e - 1] { ShiftHas(PolyOf(r), 1, e); }
    if r[31] {
      var next := Xor(ShiftLeft(r), LowRegister());
      assert PolyOf(next) == Plus(shifted, GENERATOR) by {
        forall e: nat ensures e in PolyOf(next) <==> e in Plus(shifted, GENERATOR) {
          if e < 32 { assert next[e] == (ShiftLeft(r)[e] != (e in LOW)); }
        }
      }
      CongruentReduced(shifted);
    } else {
      assert PolyOf(ShiftLeft(r)) == shifted;
      CongruentSelf(shifted);
    }
  }

  lemma TopPoly(value: Byte)
    ensures PolyOf(Top(value)) == Shift(BytePoly(value), 24)
  {
    forall e: nat ensures e in PolyOf(Top(value)) <==> e in Shift(BytePoly(value), 24) {
      ShiftHas(BytePoly(value), 24, e);
    }
  }

  lemma XorPoly(a: Register, b: Register)
    ensures PolyOf(Xor(a, b)) == Plus(PolyOf(a), PolyOf(b))
  {
  }

  /** One octet of the message enters the register. */
  method Step(crc: Register, value: Byte) returns (r: Register)
    ensures Congruent(PolyOf(r), Plus(Shift(PolyOf(crc), 8), Shift(BytePoly(value), 32)))
  {
    r := Xor(crc, Top(value));
    ghost var start := PolyOf(r);
    CongruentSelf(start);
    ShiftNone(start);
    for i := 0 to 8
      invariant Congruent(PolyOf(r), Shift(start, i))
    {
      ShiftStep(r);
      CongruentShift(PolyOf(r), Shift(start, i), 1);
      ShiftTwice(start, i, 1);
      ghost var before := r;
      if r[31] { r := Xor(ShiftLeft(r), LowRegister()); } else { r := ShiftLeft(r); }
      CongruentMore(PolyOf(r), Shift(PolyOf(before), 1), Shift(start, i + 1));
    }
    XorPoly(crc, Top(value));
    TopPoly(value);
    ShiftPlus(PolyOf(crc), Shift(BytePoly(value), 24), 8);
    ShiftTwice(BytePoly(value), 24, 8);
  }

  lemma ShiftNone(a: Poly)
    ensures Shift(a, 0) == a
  {
    forall e: nat ensures e in Shift(a, 0) <==> e in a { ShiftHas(a, 0, e); }
  }

  /** The register holds the message times x^32, up to a multiple of the generator. */
  ghost predicate Holds(crc: Register, data: Bytes) {
    Congruent(PolyOf(crc), Shift(MessagePoly(data), 32))
  }

  lemma HoldsMore(crc: Register, data: Bytes, value: Byte, next: Register)
    requires Holds(crc, data)
    requires Congruent(PolyOf(next), Plus(Shift(PolyOf(crc), 8), Shift(BytePoly(value), 32)))
    ensures Holds(next, data + [value])
  {
    var m := MessagePoly(data);
    assert (data + [value])[..|data|] == data;
    CongruentShift(PolyOf(crc), Shift(m, 32), 8);
    CongruentPlus(Shift(PolyOf(crc), 8), Shift(Shift(m, 32), 8), Shift(BytePoly(value), 32));
    ShiftTwice(m, 32, 8);
    ShiftTwice(m, 8, 32);
    ShiftPlus(Shift(m, 8), BytePoly(value), 32);
    CongruentMore(PolyOf(next), Plus(Shift(PolyOf(crc), 8), Shift(BytePoly(value), 32)),
                  Plus(Shift(Shift(m, 32), 8), Shift(BytePoly(value), 32)));
  }

  // ----- the length octets -----

  /** The length in as few octets as it needs, least significant first. */
  function LengthOctets(n: nat): Bytes {
    if n == 0 then [] else [(n % 256) as Byte] + LengthOctets(n / 256)
  }

  function Number(octets: Bytes): nat {
    if octets == [] then 0 else octets[0] as nat + 256 * Number(octets[1..])
  }

  lemma {:induction false} LengthMinimal(n: nat)
    ensures Number(LengthOctets(n)) == n
    ensures n > 0 ==> LengthOctets(n) != [] && LengthOctets(n)[|LengthOctets(n)| - 1] != 0
  {
    if n > 0 {
      LengthMinimal(n / 256);
      assert LengthOctets(n)[1..] == LengthOctets(n / 256);
    }
  }

  /** The complemented remainder of the data, its length octets and thirty-two zero
      bits on division by the generator; with the length, the whole checksum. */
  method Checksum(data: Bytes) returns (crc: Register, size: nat)
    ensures size == |data|
    ensures Remainder(Complement(crc), data + LengthOctets(|data|))
  {
    hide Holds, Congruent, MessagePoly, Shift;
    crc, size := Zero(), |data|;
    EmptyHolds();
    for i := 0 to |data|
      invariant Holds(crc, data[..i])
    {
      var next := Step(crc, data[i]);
      HoldsMore(crc, data[..i], data[i], next);
      assert data[..i] + [data[i]] == data[..i + 1];
      crc := next;
    }
    assert data[..|data|] == data;
    crc := FeedLength(crc, data);
    HoldsRemainder(crc, data + LengthOctets(|data|));
    crc := Complement(crc);
  }

  lemma HoldsRemainder(crc: Register, message: Bytes)
    requires Holds(crc, message)
    ensures Remainder(Complement(Complement(crc)), message)
  {
    assert Complement(Complement(crc)) == crc;
  }

  method FeedLength(start: Register, data: Bytes) returns (crc: Register)
    requires Holds(start, data)
    ensures Holds(crc, data + LengthOctets(|data|))
  {
    hide Holds, Congruent, MessagePoly, Shift;
    crc := start;
    var left: nat := |data|;
    ghost var octets: Bytes := [];
    assert data + [] == data;
    while left != 0
      invariant Holds(crc, data + octets) && octets + LengthOctets(left) == LengthOctets(|data|)
      decreases left
    {
      var octet := (left % 256) as Byte;
      var next := Step(crc, octet);
      HoldsMore(crc, data + octets, octet, next);
      assert data + octets + [octet] == data + (octets + [octet]);
      assert octets + ([octet] + LengthOctets(left / 256)) == (octets + [octet]) + LengthOctets(left / 256);
      octets := octets + [octet];
      crc, left := next, left / 256;
    }
    assert octets + [] == octets;
  }

  function Complement(a: Register): (r: Register)
    ensures forall i | 0 <= i < 32 :: r[i] == !a[i]
  {
    seq(32, i requires 0 <= i < 32 => !a[i])
  }

  /** `r` is the remainder of the message times x^32: congruent to it, and below
      degree 32. */
  ghost predicate Remainder(r: Register, message: Bytes) {
    Congruent(PolyOf(r), Shift(MessagePoly(message), 32)) && Below(PolyOf(r), 32)
  }

  lemma EmptyHolds()
    ensures Holds(Zero(), [])
  {
    var none: Poly := {};
    assert PolyOf(Zero()) == none && MessagePoly([]) == none && Shift(none, 32) == none;
    CongruentSelf(none);
  }

  /** The checksum is determined by the division alone. */
  lemma ChecksumUnique(a: Register, b: Register, message: Bytes)
    requires Remainder(a, message) && Remainder(b, message)
    ensures a == b
  {
    RemainderUnique(Shift(MessagePoly(message), 32), PolyOf(a), PolyOf(b));
    forall i: nat | i < 32 ensures a[i] == b[i] {
      assert i in PolyOf(a) <==> i in PolyOf(b);
    }
  }
}
