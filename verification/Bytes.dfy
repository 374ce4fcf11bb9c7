/** Bytes under exclusive or and doubling modulo 0x11d: the field of the QR encoder. */
module Bytes {
  import opened Arithmetic
  import opened Field

  /** A byte, bit 7 first. */
  datatype Octet = Octet(b7: bool, b6: bool, b5: bool, b4: bool, b3: bool, b2: bool, b1: bool, b0: bool)

  const ZERO := Octet(false, false, false, false, false, false, false, false)

  const ONE := Octet(false, false, false, false, false, false, false, true)

  /** `^` */
  function Xor(a: Octet, b: Octet): Octet {
    Octet(a.b7 != b.b7, a.b6 != b.b6, a.b5 != b.b5, a.b4 != b.b4,
          a.b3 != b.b3, a.b2 != b.b2, a.b1 != b.b1, a.b0 != b.b0)
  }

  /** `x <<= 1; if (x & 0x100) x ^= 0x11d`: bits 4, 3, 2 and 0 feel the ninth bit. */
  function Double(x: Octet): Octet {
    Octet(x.b6, x.b5, x.b4, x.b3 != x.b7, x.b2 != x.b7, x.b1 != x.b7, x.b0, x.b7)
  }

  function LowFirst(b: Octet): seq<bool> { [b.b0, b.b1, b.b2, b.b3, b.b4, b.b5, b.b6, b.b7] }

  function Digit(b: bool): nat { if b then 1 else 0 }

  function HighFirst(b: Octet): seq<bool> { [b.b7, b.b6, b.b5, b.b4, b.b3, b.b2, b.b1, b.b0] }

  /** The number with these binary digits, highest first. */
  function Number(bits: seq<bool>): nat {
    if bits == [] then 0 else 2 * Number(bits[..|bits| - 1]) + Digit(bits[|bits| - 1])
  }

  function Value(o: Octet): nat { Number(HighFirst(o)) }

  const BYTE: Ops<Octet> :=
    Ops(ZERO, ONE, (a, b) => Xor(a, b), a => Double(a), a => LowFirst(a), a => Value(a), 255, 8)

  /* ---- addition, doubling, bits ---- */

  lemma XorSwap(a: Octet, b: Octet, c: Octet, d: Octet)
    ensures Xor(Xor(a, b), Xor(c, d)) == Xor(Xor(a, c), Xor(b, d))
  {
  }

  lemma DoubleXor(a: Octet, b: Octet)
    ensures Double(Xor(a, b)) == Xor(Double(a), Double(b))
  {
  }

  lemma DoubleInjective(a: Octet, b: Octet)
    requires Double(a) == Double(b)
    ensures a == b
  {
  }

  lemma {:induction false} NumberInjective(a: seq<bool>, b: seq<bool>)
    requires |a| == |b| && Number(a) == Number(b)
    ensures a == b
    decreases |a|
  {
    if a != [] {
      var n := |a| - 1;
      NumberInjective(a[..n], b[..n]);
      assert a == a[..n] + [a[n]] && b == b[..n] + [b[n]];
    }
  }

  lemma {:induction false} NumberRange(a: seq<bool>)
    ensures Number(a) < Places(|a|)
    ensures Number(a) == 0 <==> forall i :: 0 <= i < |a| ==> !a[i]
    decreases |a|
  {
    if a != [] { NumberRange(a[..|a| - 1]); }
  }

  lemma SameBits(a: Octet, b: Octet)
    requires HighFirst(a) == HighFirst(b)
    ensures a == b
  {
    assert HighFirst(a)[0] == HighFirst(b)[0] && HighFirst(a)[1] == HighFirst(b)[1];
    assert HighFirst(a)[2] == HighFirst(b)[2] && HighFirst(a)[3] == HighFirst(b)[3];
    assert HighFirst(a)[4] == HighFirst(b)[4] && HighFirst(a)[5] == HighFirst(b)[5];
    assert HighFirst(a)[6] == HighFirst(b)[6] && HighFirst(a)[7] == HighFirst(b)[7];
  }

  lemma ValueInjective(a: Octet, b: Octet)
    requires Value(a) == Value(b)
    ensures a == b
  {
    NumberInjective(HighFirst(a), HighFirst(b));
    SameBits(a, b);
  }

  lemma ValueRange(a: Octet)
    ensures Value(a) <= 255 && (Value(a) == 0 <==> a == ZERO)
  {
    NumberRange(HighFirst(a));
    NumberRange(HighFirst(ZERO));
    assert Places(8) == 256;
    if Value(a) == 0 { ValueInjective(a, ZERO); }
  }

  lemma BytesAdd()
    ensures Additive(BYTE)
  {
    forall a, b, c, d ensures Swaps(BYTE, a, b, c, d) { XorSwap(a, b, c, d); }
    forall a, b ensures Double(Xor(a, b)) == Xor(Double(a), Double(b)) { DoubleXor(a, b); }
  }

  lemma SelectStep(a: Octet, bits: seq<bool>)
    requires bits != []
    ensures Select(BYTE, a, bits) == Xor(if bits[0] then a else ZERO, Select(BYTE, Double(a), bits[1..]))
  {
  }

  function Single(i: nat): Octet
    requires i < 8
  {
    Octet(i == 7, i == 6, i == 5, i == 4, i == 3, i == 2, i == 1, i == 0)
  }

  function Place(a: Octet, i: nat): bool {
    match i
    case 0 => a.b0
    case 1 => a.b1
    case 2 => a.b2
    case 3 => a.b3
    case 4 => a.b4
    case 5 => a.b5
    case 6 => a.b6
    case _ => a.b7
  }

  lemma PlaceIsBit(a: Octet, i: nat)
    requires i < 8
    ensures LowFirst(a)[i] == Place(a, i)
  {
  }

  lemma LowPlaceXor(a: Octet, b: Octet, k: nat)
    requires k == 0 || k == 1 || k == 2
    ensures Place(Xor(a, b), k) == (Place(a, k) != Place(b, k))
  {
  }

  lemma MiddlePlaceXor(a: Octet, b: Octet, k: nat)
    requires k == 3 || k == 4 || k == 5
    ensures Place(Xor(a, b), k) == (Place(a, k) != Place(b, k))
  {
  }

  lemma HighPlaceXor(a: Octet, b: Octet, k: nat)
    requires k == 6 || k == 7
    ensures Place(Xor(a, b), k) == (Place(a, k) != Place(b, k))
  {
  }

  lemma PlaceXor(a: Octet, b: Octet, k: nat)
    requires k < 8
    ensures Place(Xor(a, b), k) == (Place(a, k) != Place(b, k))
  {
    if k < 3 { LowPlaceXor(a, b, k); } else if k < 6 { MiddlePlaceXor(a, b, k); } else { HighPlaceXor(a, b, k); }
  }

  lemma PlaceSingle(i: nat, k: nat)
    requires i < 8 && k < 8
    ensures Place(Single(i), k) <==> i == k
    ensures !Place(ZERO, k)
  {
  }

  lemma SamePlaces(a: Octet, b: Octet)
    requires forall k :: 0 <= k < 8 ==> Place(a, k) == Place(b, k)
    ensures a == b
  {
    assert Place(a, 0) == Place(b, 0) && Place(a, 1) == Place(b, 1) && Place(a, 2) == Place(b, 2);
    assert Place(a, 3) == Place(b, 3) && Place(a, 4) == Place(b, 4) && Place(a, 5) == Place(b, 5);
    assert Place(a, 6) == Place(b, 6) && Place(a, 7) == Place(b, 7);
  }

  lemma SingleStep(i: nat)
    requires i < 7
    ensures Double(Single(i)) == Single(i + 1)
  {
  }

  /** Selecting among the doublings of `Single(i)` by the bits from place `i` up gives those
      bits. */
  lemma {:induction false} UnitPlaces(a: Octet, i: nat, k: nat)
    requires i < 8 && k < 8
    ensures Place(Select(BYTE, Single(i), LowFirst(a)[i..]), k) <==> i <= k && Place(a, k)
    decreases 8 - i, 1
  {
    var rest := Select(BYTE, Double(Single(i)), LowFirst(a)[i + 1..]);
    assert LowFirst(a)[i..][1..] == LowFirst(a)[i + 1..];
    SelectStep(Single(i), LowFirst(a)[i..]);
    PlaceIsBit(a, i);
    PlaceXor(if Place(a, i) then Single(i) else ZERO, rest, k);
    PlaceSingle(i, k);
    RestPlaces(a, i, k);
  }

  lemma {:induction false} RestPlaces(a: Octet, i: nat, k: nat)
    requires i < 8 && k < 8
    ensures Place(Select(BYTE, Double(Single(i)), LowFirst(a)[i + 1..]), k) <==> i < k && Place(a, k)
    decreases 8 - i, 0
  {
    if i < 7 {
      SingleStep(i);
      UnitPlaces(a, i + 1, k);
    } else {
      assert LowFirst(a)[i + 1..] == [];
      PlaceSingle(0, k);
    }
  }

  /* ---- the order of doubling ---- */

  function Eight(x: Octet): Octet {
    Double(Double(Double(Double(Double(Double(Double(Double(x))))))))
  }

  lemma PowerEight(i: nat)
    ensures Power(BYTE, i + 8) == Eight(Power(BYTE, i))
  {
    assert Power(BYTE, i + 1) == Double(Power(BYTE, i));
    assert Power(BYTE, i + 2) == Double(Power(BYTE, i + 1));
    assert Power(BYTE, i + 3) == Double(Power(BYTE, i + 2));
    assert Power(BYTE, i + 4) == Double(Power(BYTE, i + 3));
    assert Power(BYTE, i + 5) == Double(Power(BYTE, i + 4));
    assert Power(BYTE, i + 6) == Double(Power(BYTE, i + 5));
    assert Power(BYTE, i + 7) == Double(Power(BYTE, i + 6));
  }

  function Bits(b7: nat, b6: nat, b5: nat, b4: nat, b3: nat, b2: nat, b1: nat, b0: nat): Octet {
    Octet(b7 == 1, b6 == 1, b5 == 1, b4 == 1, b3 == 1, b2 == 1, b1 == 1, b0 == 1)
  }

  function P15(): Octet { Bits(0, 0, 1, 0, 0, 1, 1, 0) }
  function P17(): Octet { Bits(1, 0, 0, 1, 1, 0, 0, 0) }
  function P34(): Octet { Bits(0, 1, 0, 0, 1, 1, 1, 0) }
  function P51(): Octet { Bits(0, 0, 0, 0, 1, 0, 1, 0) }
  function P85(): Octet { Bits(1, 1, 0, 1, 0, 1, 1, 0) }
  function P170(): Octet { Bits(1, 1, 0, 1, 0, 1, 1, 1) }

  lemma Power15And17()
    ensures Power(BYTE, 15) == P15() && Power(BYTE, 17) == P17()
  {
    assert Power(BYTE, 8) == Bits(0, 0, 0, 1, 1, 1, 0, 1);
    PowerEight(7);
    PowerEight(8);
    assert Power(BYTE, 17) == Double(Power(BYTE, 16));
  }

  lemma Product34() ensures Times(BYTE, P17(), P17()) == P34() {}

  lemma Product51() ensures Times(BYTE, P34(), P17()) == P51() {}

  lemma Product85() ensures Times(BYTE, P51(), P34()) == P85() {}

  lemma Product170() ensures Times(BYTE, P85(), P85()) == P170() {}

  lemma Product255() ensures Times(BYTE, P170(), P85()) == ONE {}

  lemma Power34()
    requires Ring(BYTE)
    ensures Power(BYTE, 34) == P34()
  {
    Power15And17();
    Product34();
    PowerProduct(BYTE, 17, 17, P17(), P17(), P34());
  }

  lemma Power51()
    requires Ring(BYTE)
    ensures Power(BYTE, 51) == P51()
  {
    Power15And17();
    Power34();
    Product51();
    PowerProduct(BYTE, 34, 17, P34(), P17(), P51());
  }

  lemma Power85()
    requires Ring(BYTE)
    ensures Power(BYTE, 85) == P85()
  {
    Power34();
    Power51();
    Product85();
    PowerProduct(BYTE, 51, 34, P51(), P34(), P85());
  }

  lemma Power170()
    requires Ring(BYTE)
    ensures Power(BYTE, 170) == P170()
  {
    Power85();
    Product170();
    PowerProduct(BYTE, 85, 85, P85(), P85(), P170());
  }

  lemma Power255()
    requires Ring(BYTE)
    ensures Power(BYTE, 255) == ONE
  {
    Power85();
    Power170();
    Product255();
    PowerProduct(BYTE, 170, 85, P170(), P85(), ONE);
  }

  predicate DivisorsKnown(n: nat) {
    n == 0 || ((255 % n == 0 ==> n in {1, 3, 5, 15, 17, 51, 85, 255}) && DivisorsKnown(n - 1))
  }

  lemma {:induction false} KnownDivisor(n: nat, d: nat)
    requires DivisorsKnown(n) && 1 <= d <= n && 255 % d == 0
    ensures d in {1, 3, 5, 15, 17, 51, 85, 255}
  {
    if d < n { KnownDivisor(n - 1, d); }
  }

  lemma ProperDivisor(d: nat)
    requires 1 <= d < 255 && 255 % d == 0
    ensures 15 % d == 0 || 51 % d == 0 || 85 % d == 0
  {
    assert DivisorsKnown(16);
    if d <= 16 {
      KnownDivisor(16, d);
    } else {
      var q := 255 / d;
      assert q * d == 255;
      CoDivisor(q, d);
    }
  }

  lemma CoDivisor(q: nat, d: nat)
    requires q * d == 255 && 16 < d < 255
    ensures d in {17, 51, 85}
  {
    assert q < 16 && q > 1;
    if q == 2 {} else if q == 3 {} else if q == 4 {} else if q == 5 {} else if q == 6 {} else if q == 7 {}
    else if q == 8 {} else if q == 9 {} else if q == 10 {} else if q == 11 {} else if q == 12 {}
    else if q == 13 {} else if q == 14 {} else {}
  }

  lemma DivisorsOf255(n: nat)
    requires n == 255
    ensures Covers(n, {15, 51, 85})
  {
    forall d: nat {:trigger n % d} | 1 <= d < n && n % d == 0 ensures exists m :: m in {15, 51, 85} && m % d == 0 {
      ProperDivisor(d);
      assert 15 in {15, 51, 85} && 51 in {15, 51, 85} && 85 in {15, 51, 85};
    }
  }

  /** Two has order 255: neither 15, 51 nor 85 doublings lead back to one. */
  lemma OrderOfTwo(d: nat)
    requires Ring(BYTE) && 0 < d < BYTE.order
    ensures Power(BYTE, d) != ONE
  {
    Power15And17();
    Power51();
    Power85();
    Power255();
    DivisorsOf255(BYTE.order);
    OrderIsFull(BYTE, BYTE.order, {15, 51, 85}, d);
  }

  lemma BytesAreCyclic()
    requires Ring(BYTE)
    ensures Cyclic(BYTE)
  {
    Power255();
    forall d | 0 < d < BYTE.order ensures Power(BYTE, d) != ONE { OrderOfTwo(d); }
    forall a, b | Double(a) == Double(b) ensures a == b { DoubleInjective(a, b); }
  }

  lemma UnitIsNeutral(a: Octet)
    ensures Select(BYTE, ONE, LowFirst(a)) == a
  {
    var b := Select(BYTE, Single(0), LowFirst(a)[0..]);
    forall k | 0 <= k < 8 ensures Place(b, k) == Place(a, k) { UnitPlaces(a, 0, k); }
    SamePlaces(b, a);
    assert LowFirst(a)[0..] == LowFirst(a) && Single(0) == ONE;
  }

  lemma BytesHaveUnit()
    ensures forall a {:trigger Select(BYTE, ONE, LowFirst(a))} :: Select(BYTE, ONE, LowFirst(a)) == a
  {
    forall a ensures Select(BYTE, ONE, LowFirst(a)) == a { UnitIsNeutral(a); }
  }

  lemma BytesHaveNumbers()
    ensures forall a, b :: Value(a) == Value(b) ==> a == b
    ensures forall a :: Value(a) <= 255 && (Value(a) == 0 <==> a == ZERO)
  {
    forall a, b | Value(a) == Value(b) ensures a == b { ValueInjective(a, b); }
    forall a ensures Value(a) <= 255 && (Value(a) == 0 <==> a == ZERO) { ValueRange(a); }
  }

  lemma XorIsBitwise()
    ensures forall a, b, i {:trigger LowFirst(Xor(a, b))[i]} ::
      0 <= i < 8 ==> (LowFirst(Xor(a, b))[i] <==> LowFirst(a)[i] != LowFirst(b)[i])
  {
    forall a, b, i | 0 <= i < 8 ensures LowFirst(Xor(a, b))[i] <==> LowFirst(a)[i] != LowFirst(b)[i] {
      PlaceIsBit(a, i);
      PlaceIsBit(b, i);
      PlaceIsBit(Xor(a, b), i);
      PlaceXor(a, b, i);
    }
  }

  lemma BytesHaveBits()
    ensures Bitwise(BYTE)
  {
    BytesHaveUnit();
    BytesHaveNumbers();
    XorIsBitwise();
    assert LowFirst(ONE) == [true, false, false, false, false, false, false, false];
  }

  /** Bytes modulo 0x11d obey every law the encoder's arithmetic rests on. */
  lemma BytesAreAField()
    ensures Laws(BYTE)
  {
    BytesAdd();
    BytesHaveBits();
    BytesAreCyclic();
  }

  /** A function that reads binary digits highest first. */
  ghost predicate Reads(num: seq<bool> -> nat) {
    forall s, x {:trigger num(s + [x])} :: num(s + [x]) == 2 * num(s) + Digit(x)
  }

  lemma ReadsFour(num: seq<bool> -> nat, s: seq<bool>, a: bool, b: bool, c: bool, d: bool)
    requires Reads(num)
    ensures num(s + [a, b, c, d]) == 16 * num(s) + 8 * Digit(a) + 4 * Digit(b) + 2 * Digit(c) + Digit(d)
  {
    assert s + [a, b, c, d] == s + [a] + [b] + [c] + [d];
  }

  lemma NumberReads()
    ensures Reads((b: seq<bool>) => Number(b))
  {
    forall s: seq<bool>, x ensures Number(s + [x]) == 2 * Number(s) + Digit(x) { assert (s + [x])[..|s|] == s; }
  }

  lemma NumberOfFour(s: seq<bool>, a: bool, b: bool, c: bool, d: bool)
    ensures Number(s + [a, b, c, d]) == 16 * Number(s) + 8 * Digit(a) + 4 * Digit(b) + 2 * Digit(c) + Digit(d)
  {
    NumberReads();
    var num := (b: seq<bool>) => Number(b);
    ReadsFour(num, s, a, b, c, d);
    assert num(s + [a, b, c, d]) == Number(s + [a, b, c, d]);
  }

  /** A byte's value, by its bits. */
  lemma ValueOfBits(o: Octet)
    ensures Value(o) == 128 * Digit(o.b7) + 64 * Digit(o.b6) + 32 * Digit(o.b5) + 16 * Digit(o.b4)
                        + 8 * Digit(o.b3) + 4 * Digit(o.b2) + 2 * Digit(o.b1) + Digit(o.b0)
  {
    var high := [] + [o.b7, o.b6, o.b5, o.b4];
    NumberOfFour([], o.b7, o.b6, o.b5, o.b4);
    NumberOfFour(high, o.b3, o.b2, o.b1, o.b0);
    assert HighFirst(o) == high + [o.b3, o.b2, o.b1, o.b0];
  }

  lemma RestOfDouble(v: nat, w: nat, top: nat)
    requires 2 * v == 256 * top + w && w < 256 && v < 256
    ensures w == 2 * v % 256 && (top > 0 <==> v >= 128)
  {
  }

  lemma ShiftedValue(x: Octet, s: Octet)
    requires s == Octet(x.b6, x.b5, x.b4, x.b3, x.b2, x.b1, x.b0, false)
    ensures Value(s) == 2 * Value(x) % 256
    ensures x.b7 <==> Value(x) >= 128
  {
    ValueOfBits(x);
    ValueOfBits(s);
    RestOfDouble(Value(x), Value(s), Digit(x.b7));
  }

  /** Doubling a byte: shifted by one place, and what falls off the left comes back as 0x1d. */
  lemma DoubleIsShift(x: Octet, shifted: Octet, low: Octet)
    requires Value(shifted) == 2 * Value(x) % 256 && Value(low) == 0x1d
    ensures Double(x) == if Value(x) < 128 then shifted else Xor(shifted, low)
  {
    var s := Octet(x.b6, x.b5, x.b4, x.b3, x.b2, x.b1, x.b0, false);
    ShiftedValue(x, s);
    ValueInjective(s, shifted);
    ValueOfBits(Octet(false, false, false, true, true, true, false, true));
    ValueInjective(Octet(false, false, false, true, true, true, false, true), low);
  }
}
