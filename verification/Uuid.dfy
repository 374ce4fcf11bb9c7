/** `uuidv7`: the bytes, their text, and reading the time back. */
module Uuid {
  import opened Arithmetic
  import opened NumberText

  type Byte = b: nat | b < 256

  /** Times below this fit the 48-bit field. */
  const TIMES: nat := 0x1_0000_0000_0000

  /** The value of bytes, highest first. */
  function Value(bytes: seq<Byte>): nat {
    if bytes == [] then 0 else Value(bytes[..|bytes| - 1]) * 256 + bytes[|bytes| - 1]
  }

  const ID_BYTES: nat := 16

  const RANDOM_BYTES: nat := 10

  /** The low `n` bytes of a number, highest first. */
  function LowBytes(now: int, n: nat): (b: seq<Byte>)
    ensures |b| == n
    decreases n
  {
    if n == 0 then [] else LowBytes(now / 256, n - 1) + [now % 256]
  }

  function TimeBytes(now: int): seq<Byte> { LowBytes(now, ID_BYTES - RANDOM_BYTES) }

  function RandomBytes(r: seq<Byte>): (b: seq<Byte>)
    requires |r| == 10
    ensures |b| == 10
  {
    [0x70 + r[0] % 16, r[1], 0x80 + r[2] % 64] + r[3..]
  }

  function HexText(bytes: seq<Byte>): (s: string)
    ensures |s| == 2 * |bytes|
    ensures forall i :: 0 <= i < |s| ==> Hex(s[i])
  {
    if bytes == [] then ""
    else
      var b := bytes[|bytes| - 1];
      HexText(bytes[..|bytes| - 1]) + [DigitChar(b / 16), DigitChar(b % 16)]
  }

  function Dashed(hex: string): string
    requires |hex| == 32
  {
    hex[..8] + "-" + hex[8..12] + "-" + hex[12..16] + "-" + hex[16..20] + "-" + hex[20..]
  }

  function IdOf(now: int, random: seq<Byte>): string
    requires |random| == 10
  {
    Dashed(HexText(TimeBytes(now) + RandomBytes(random)))
  }

  /** `replace(/-/g, '')` */
  function Undashed(s: string): string {
    if s == [] then [] else (if s[0] == '-' then [] else [s[0]]) + Undashed(s[1..])
  }

  function Uuidv7Timestamp(id: string): int {
    var hex := Undashed(id);
    FromText(if |hex| > 12 then hex[..12] else hex, 16)
  }

  /** The byte array, filled in place; `random` is what `randomFillSync` writes. */
  method Uuidv7(now: int, random: seq<Byte>) returns (id: string)
    requires |random| == 10
    ensures id == IdOf(now, random)
  {
    var bytes := new Byte[16](_ => 0);
    SetTime(bytes, now);
    forall i | 6 <= i < 16 { bytes[i] := random[i - 6]; }
    bytes[6] := bytes[6] % 16 + 0x70;
    bytes[8] := bytes[8] % 64 + 0x80;
    assert bytes[..6] == TimeBytes(now) && bytes[6..] == RandomBytes(random);
    assert bytes[..] == bytes[..6] + bytes[6..];
    id := Dashed(HexText(bytes[..]));
  }

  method SetTime(bytes: array<Byte>, now: int)
    requires bytes.Length == 16
    modifies bytes
    ensures bytes[..6] == TimeBytes(now)
  {
    bytes[0] := now / 0x100_0000_0000 % 256;
    bytes[1] := now / 0x1_0000_0000 % 256;
    bytes[2] := now / 0x100_0000 % 256;
    bytes[3] := now / 0x1_0000 % 256;
    bytes[4] := now / 0x100 % 256;
    bytes[5] := now % 256;
    Shifted(now);
    assert bytes[..6] == bytes[..5] + [now % 256] && bytes[..5] == bytes[..4] + [now / 0x100 % 256];
    assert bytes[..4] == bytes[..3] + [now / 0x1_0000 % 256] && bytes[..3] == bytes[..2] + [now / 0x100_0000 % 256];
  }

  lemma Shifted(now: int)
    ensures TimeBytes(now) ==
      [now / 0x100_0000_0000 % 256, now / 0x1_0000_0000 % 256, now / 0x100_0000 % 256,
       now / 0x1_0000 % 256, now / 0x100 % 256, now % 256]
  {
    var a := now / 256;
    var b := a / 256;
    var c := b / 256;
    var d := c / 256;
    var e := d / 256;
    assert b == now / 0x1_0000 && c == now / 0x100_0000 && d == now / 0x1_0000_0000 && e == now / 0x100_0000_0000;
    assert LowBytes(now, 6) == LowBytes(a, 5) + [now % 256];
    assert LowBytes(a, 5) == LowBytes(b, 4) + [a % 256];
    assert LowBytes(b, 4) == LowBytes(c, 3) + [b % 256];
    assert LowBytes(c, 3) == LowBytes(d, 2) + [c % 256];
    assert LowBytes(d, 2) == [e % 256, d % 256];
  }

  /* ---- the time ---- */

  lemma {:induction false} HexReads(bytes: seq<Byte>)
    ensures FromText(HexText(bytes), 16) == Value(bytes)
    decreases |bytes|
  {
    if bytes != [] {
      var front, b := bytes[..|bytes| - 1], bytes[|bytes| - 1];
      HexReads(front);
      var s := HexText(front);
      ReadMore(s, 16, DigitChar(b / 16));
      ReadMore(s + [DigitChar(b / 16)], 16, DigitChar(b % 16));
      assert s + [DigitChar(b / 16), DigitChar(b % 16)] == s + [DigitChar(b / 16)] + [DigitChar(b % 16)];
    }
  }

  lemma {:induction false} HexPrefix(a: seq<Byte>, b: seq<Byte>)
    ensures HexText(a + b)[..2 * |a|] == HexText(a)
    decreases |b|
  {
    if b == [] {
      assert a + b == a;
    } else {
      HexPrefix(a, b[..|b| - 1]);
      assert (a + b)[..|a + b| - 1] == a + b[..|b| - 1];
    }
  }

  function Power256(n: nat): nat { if n == 0 then 1 else 256 * Power256(n - 1) }

  lemma {:induction false} LowValue(now: int, n: nat)
    ensures Power256(n) > 0 && Value(LowBytes(now, n)) == now % Power256(n)
    decreases n
  {
    if n > 0 {
      LowValue(now / 256, n - 1);
      SplitRest(now, Power256(n - 1));
      assert LowBytes(now, n)[..n - 1] == LowBytes(now / 256, n - 1);
    }
  }

  lemma SplitRest(now: int, p: nat)
    requires p > 0
    ensures now % (256 * p) == now / 256 % p * 256 + now % 256
  {
    var q := now / 256;
    Remainder(q, p);
    Distribute(q / p, p);
    UniqueRest(now, 256 * p, q / p, q % p * 256 + now % 256);
  }

  lemma Distribute(q: int, p: nat)
    ensures q * p * 256 == q * (256 * p)
  {
  }

  lemma TimeValue(now: int)
    ensures Value(TimeBytes(now)) == now % TIMES
  {
    LowValue(now, ID_BYTES - RANDOM_BYTES);
    assert Power256(3) == 0x100_0000 && Power256(6) == TIMES;
  }

  lemma {:induction false} UndashedAppend(a: string, b: string)
    ensures Undashed(a + b) == Undashed(a) + Undashed(b)
    decreases |a|
  {
    if a == [] {
      assert a + b == b;
    } else {
      UndashedAppend(a[1..], b);
      assert (a + b)[1..] == a[1..] + b;
      var x := if a[0] == '-' then [] else [a[0]];
      assert x + (Undashed(a[1..]) + Undashed(b)) == (x + Undashed(a[1..])) + Undashed(b);
    }
  }

  lemma {:induction false} UndashedPlain(s: string)
    requires '-' !in s
    ensures Undashed(s) == s
  {
    if s != [] { UndashedPlain(s[1..]); }
  }

  lemma Joined(a: string, dash: string, b: string)
    requires Undashed(dash) == "" && '-' !in b
    ensures Undashed(a + dash + b) == Undashed(a) + b
  {
    UndashedAppend(a + dash, b);
    UndashedAppend(a, dash);
    UndashedPlain(b);
  }

  lemma DashBetween(a: string, b: string)
    requires '-' !in b
    ensures Undashed(a + "-" + b) == Undashed(a) + b
  {
    Joined(a, "-", b);
  }

  lemma UndashedDashed(hex: string)
    requires |hex| == 32 && '-' !in hex
    ensures Undashed(Dashed(hex)) == hex
  {
    var a := hex[..8];
    var b := a + "-" + hex[8..12];
    var c := b + "-" + hex[12..16];
    var d := c + "-" + hex[16..20];
    UndashedPlain(a);
    DashBetween(a, hex[8..12]);
    DashBetween(b, hex[12..16]);
    DashBetween(c, hex[16..20]);
    DashBetween(d, hex[20..]);
  }

  lemma PrefixReads(time: seq<Byte>, rest: seq<Byte>)
    requires |time| == 6 && |rest| == 10
    ensures Uuidv7Timestamp(Dashed(HexText(time + rest))) == Value(time)
  {
    UndashedDashed(HexText(time + rest));
    HexPrefix(time, rest);
    HexReads(time);
  }

  /** The time comes back, reduced to the 48 bits of its field: exactly when it fits them. */
  lemma TimestampReads(now: int, random: seq<Byte>)
    requires |random| == 10
    ensures Uuidv7Timestamp(IdOf(now, random)) == now % TIMES
    ensures Uuidv7Timestamp(IdOf(now, random)) == now <==> 0 <= now < TIMES
  {
    PrefixReads(TimeBytes(now), RandomBytes(random));
    TimeValue(now);
  }

  /* ---- order ---- */

  /** `a` is the smaller text: they agree up to `i` and part there. */
  predicate Before(a: string, b: string, i: nat) { i < |a| && i < |b| && a[..i] == b[..i] && a[i] < b[i] }

  lemma {:induction false} SmallerBytes(a: seq<Byte>, b: seq<Byte>) returns (i: nat)
    requires |a| == |b| && Value(a) < Value(b)
    ensures i < |a| && a[..i] == b[..i] && a[i] < b[i]
    decreases |a|
  {
    var n := |a| - 1;
    if Value(a[..n]) < Value(b[..n]) {
      i := SmallerBytes(a[..n], b[..n]);
      assert a[..n][..i] == a[..i] && b[..n][..i] == b[..i];
    } else {
      i := n;
      SameBytes(a[..n], b[..n]);
    }
  }

  lemma SmallerDigits(x: Byte, y: Byte)
    requires x < y
    ensures DigitChar(x / 16) < DigitChar(y / 16)
         || (DigitChar(x / 16) == DigitChar(y / 16) && DigitChar(x % 16) < DigitChar(y % 16))
  {
  }

  lemma SameFront(a: seq<Byte>, b: seq<Byte>, c: seq<Byte>)
    requires c == a + b
    ensures HexText(c)[..2 * |a|] == HexText(a)
  {
    HexPrefix(a, b);
  }

  lemma OneLonger(s: string, t: string, n: nat)
    requires n < |s| && n < |t| && s[..n] == t[..n] && s[n] == t[n]
    ensures s[..n + 1] == t[..n + 1]
  {
    assert s[..n + 1] == s[..n] + [s[n]] && t[..n + 1] == t[..n] + [t[n]];
  }

  lemma SmallerHex(a: seq<Byte>, b: seq<Byte>, i: nat) returns (j: nat)
    requires i < |a| && i < |b| && a[..i] == b[..i] && a[i] < b[i]
    ensures 2 * i <= j < 2 * i + 2 && HexText(a)[..j] == HexText(b)[..j] && HexText(a)[j] < HexText(b)[j]
  {
    SameFront(a[..i], a[i..], a);
    SameFront(b[..i], b[i..], b);
    HexAt(a, i);
    HexAt(b, i);
    SmallerDigits(a[i], b[i]);
    j := FirstSmaller(HexText(a), HexText(b), 2 * i);
  }

  lemma FirstSmaller(s: string, t: string, n: nat) returns (j: nat)
    requires n + 1 < |s| && n + 1 < |t| && s[..n] == t[..n]
    requires s[n] < t[n] || (s[n] == t[n] && s[n + 1] < t[n + 1])
    ensures n <= j < n + 2 && s[..j] == t[..j] && s[j] < t[j]
  {
    if s[n] < t[n] {
      j := n;
    } else {
      j := n + 1;
      OneLonger(s, t, n);
    }
  }

  lemma DashedAt(hex: string, j: nat)
    requires |hex| == 32 && j <= 12
    ensures Dashed(hex)[j] == if j < 8 then hex[j] else if j == 8 then '-' else hex[j - 1]
  {
  }

  lemma DashedBefore(a: string, b: string, i: nat)
    requires |a| == |b| == 32 && i < 12 && a[..i] == b[..i] && a[i] < b[i]
    ensures Before(Dashed(a), Dashed(b), if i < 8 then i else i + 1)
  {
    var p, x, y := if i < 8 then i else i + 1, Dashed(a), Dashed(b);
    DashedAt(a, p);
    DashedAt(b, p);
    forall j | 0 <= j < p ensures x[j] == y[j] {
      DashedAt(a, j);
      DashedAt(b, j);
      if j < 8 { assert a[..i][j] == b[..i][j]; } else if j > 8 { assert a[..i][j - 1] == b[..i][j - 1]; }
    }
    assert x[..p] == y[..p];
  }

  lemma Parts(now: int, r: seq<Byte>) returns (time: seq<Byte>, rest: seq<Byte>)
    requires |r| == 10
    ensures |time| == 6 && |rest| == 10 && Value(time) == now % TIMES && IdOf(now, r) == Dashed(HexText(time + rest))
  {
    time, rest := TimeBytes(now), RandomBytes(r);
    TimeValue(now);
  }

  lemma SumPrefix(x: seq<Byte>, p: seq<Byte>, i: nat)
    requires i < |x|
    ensures (x + p)[..i] == x[..i] && (x + p)[i] == x[i]
  {
  }

  lemma SmallerPrefix(x: seq<Byte>, y: seq<Byte>, p: seq<Byte>, q: seq<Byte>, a: string, b: string)
    returns (k: nat)
    requires |x| == |y| == 6 && |p| == |q| == 10 && Value(x) < Value(y)
    requires a == Dashed(HexText(x + p)) && b == Dashed(HexText(y + q))
    ensures Before(a, b, k)
  {
    var i := SmallerBytes(x, y);
    SumPrefix(x, p, i);
    SumPrefix(y, q, i);
    var j := SmallerHex(x + p, y + q, i);
    DashedBefore(HexText(x + p), HexText(y + q), j);
    k := if j < 8 then j else j + 1;
  }

  lemma EarlierParts(t: int, u: int, x: seq<Byte>, y: seq<Byte>, p: seq<Byte>, q: seq<Byte>, a: string, b: string)
      returns (k: nat)
    requires 0 <= t < u < TIMES && |x| == |y| == 6 && |p| == |q| == 10 && Value(x) == t % TIMES && Value(y) == u % TIMES
    requires a == Dashed(HexText(x + p)) && b == Dashed(HexText(y + q))
    ensures Before(a, b, k)
  {
    k := SmallerPrefix(x, y, p, q, a, b);
  }

  /** An earlier time gives the smaller text, whatever the random bytes. */
  lemma EarlierIsBefore(t: int, u: int, r: seq<Byte>, s: seq<Byte>) returns (k: nat)
    requires 0 <= t < u < TIMES && |r| == |s| == 10
    ensures Before(IdOf(t, r), IdOf(u, s), k)
  {
    var x, p := Parts(t, r);
    var y, q := Parts(u, s);
    k := EarlierParts(t, u, x, y, p, q, IdOf(t, r), IdOf(u, s));
  }

  /* ---- the fixed bits ---- */

  lemma {:induction false} HexAt(bytes: seq<Byte>, i: nat)
    requires i < |bytes|
    ensures HexText(bytes)[2 * i] == DigitChar(bytes[i] / 16) && HexText(bytes)[2 * i + 1] == DigitChar(bytes[i] % 16)
    decreases |bytes|
  {
    if i < |bytes| - 1 { HexAt(bytes[..|bytes| - 1], i); }
  }

  lemma DashedShape(hex: string)
    requires |hex| == 32
    ensures var id := Dashed(hex);
            |id| == 36 && id[8] == id[13] == id[18] == id[23] == '-' && id[14] == hex[12] && id[19] == hex[16]
  {
  }

  /** The text is 36 characters, with four dashes, version digit 7 and variant bits 10. */
  lemma VersionAndVariant(now: int, random: seq<Byte>)
    requires |random| == 10
    ensures var id := IdOf(now, random);
            && |id| == 36 && id[8] == id[13] == id[18] == id[23] == '-' && id[14] == '7'
            && (id[19] == '8' || id[19] == '9' || id[19] == 'a' || id[19] == 'b')
  {
    var bytes := TimeBytes(now) + RandomBytes(random);
    DashedShape(HexText(bytes));
    HexAt(bytes, 6);
    HexAt(bytes, 8);
    assert bytes[6] == 0x70 + random[0] % 16 && bytes[8] == 0x80 + random[2] % 64;
    FixedDigits(bytes[6], bytes[8]);
  }

  lemma FixedDigits(b: Byte, c: Byte)
    requires 0x70 <= b < 0x80 && 0x80 <= c < 0xc0
    ensures DigitChar(b / 16) == '7'
    ensures DigitChar(c / 16) == '8' || DigitChar(c / 16) == '9' || DigitChar(c / 16) == 'a' || DigitChar(c / 16) == 'b'
  {
  }

  lemma SameRandom(r: seq<Byte>, s: seq<Byte>)
    requires |r| == |s| == 10
    ensures RandomBytes(r) == RandomBytes(s)
       <==> r[0] % 16 == s[0] % 16 && r[1] == s[1] && r[2] % 64 == s[2] % 64 && r[3..] == s[3..]
  {
    var x, y := RandomBytes(r), RandomBytes(s);
    assert x[3..] == r[3..] && y[3..] == s[3..];
    assert x == [x[0], x[1], x[2]] + x[3..] && y == [y[0], y[1], y[2]] + y[3..];
  }

  lemma TwoDigits(b: Byte)
    ensures FromText([DigitChar(b / 16), DigitChar(b % 16)], 16) == b
  {
    var x, y := DigitChar(b / 16), DigitChar(b % 16);
    ReadMore([], 16, x);
    ReadMore([x], 16, y);
    assert [] + [x] == [x] && [x] + [y] == [x, y];
  }

  lemma ReadsTwo(s: string, k: nat, b: Byte)
    requires k + 2 <= |s| && s[k] == DigitChar(b / 16) && s[k + 1] == DigitChar(b % 16)
    ensures FromText(s[k..k + 2], 16) == b
  {
    TwoDigits(b);
    assert s[k..k + 2] == [DigitChar(b / 16), DigitChar(b % 16)];
  }

  /** The random bytes follow the time in their order, two digits each, all but the six bits that
      say version and variant. */
  lemma RandomReads(now: int, r: seq<Byte>, i: nat)
    requires |r| == 10 && i < 10
    ensures var hex := Undashed(IdOf(now, r));
            && |hex| == 32
            && FromText(hex[12 + 2 * i..14 + 2 * i], 16) ==
                 if i == 0 then 112 + r[0] % 16 else if i == 2 then 128 + r[2] % 64 else r[i]
  {
    var bytes := TimeBytes(now) + RandomBytes(r);
    UndashedDashed(HexText(bytes));
    HexAt(bytes, 6 + i);
    ReadsTwo(HexText(bytes), 12 + 2 * i, RandomBytes(r)[i]);
  }

  /** Two ids are the same exactly when the times agree in 48 bits and the random bytes in
      the 74 bits the layout leaves to them. */
  lemma SameIdIff(t: int, u: int, r: seq<Byte>, s: seq<Byte>)
    requires |r| == |s| == 10
    ensures IdOf(t, r) == IdOf(u, s)
       <==> && t % TIMES == u % TIMES && r[0] % 16 == s[0] % 16 && r[1] == s[1]
            && r[2] % 64 == s[2] % 64 && r[3..] == s[3..]
  {
    SameRandom(r, s);
    var a, b := TimeBytes(t) + RandomBytes(r), TimeBytes(u) + RandomBytes(s);
    TimeValue(t);
    TimeValue(u);
    if t % TIMES == u % TIMES { SameBytes(TimeBytes(t), TimeBytes(u)); }
    if IdOf(t, r) == IdOf(u, s) {
      UndashedDashed(HexText(a));
      UndashedDashed(HexText(b));
      HexReads(a);
      HexReads(b);
      SameBytes(a, b);
      assert a[..6] == TimeBytes(t) && b[..6] == TimeBytes(u) && a[6..] == RandomBytes(r) && b[6..] == RandomBytes(s);
    }
  }

  lemma {:induction false} SameBytes(a: seq<Byte>, b: seq<Byte>)
    requires |a| == |b| && Value(a) == Value(b)
    ensures a == b
    decreases |a|
  {
    if a != [] {
      var n := |a| - 1;
      SameBytes(a[..n], b[..n]);
      assert a == a[..n] + [a[n]] && b == b[..n] + [b[n]];
    }
  }
}
