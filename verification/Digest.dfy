/** The two string digests: FNV-1a as hexadecimal, and the base-36 hash of a session token. */
module Digest {
  import opened Arithmetic
  import opened NumberText

  /** A UTF-16 code unit. */
  type Unit = c: nat | c < 0x1_0000

  const WORD: nat := 0x1_0000_0000

  /** `x | 0` */
  function Int32(x: int): int { if x % WORD < 0x8000_0000 then x % WORD else x % WORD - WORD }

  /** `x >>> 0` */
  function Uint32(x: int): nat { x % WORD }

  function Imul(x: int, y: int): int { Int32(x * y) }

  /** `^` on nonnegative operands. */
  function Xor(a: nat, b: nat): nat {
    if a == 0 then b
    else if b == 0 then a
    else 2 * Xor(a / 2, b / 2) + (if a % 2 == b % 2 then 0 else 1)
  }

  lemma {:induction false} XorParts(a: nat, b: nat)
    ensures Xor(a, b) / 2 == Xor(a / 2, b / 2) && Xor(a, b) % 2 == if a % 2 == b % 2 then 0 else 1
  {
  }

  lemma {:induction false} XorInjective(a: nat, b: nat, c: nat, d: nat)
    requires Xor(a, b) == Xor(c, d) && (a == c || b == d)
    ensures a == c && b == d
    decreases a + b + c + d
  {
    if a + b + c + d > 0 {
      XorParts(a, b);
      XorParts(c, d);
      XorInjective(a / 2, b / 2, c / 2, d / 2);
    }
  }

  lemma {:induction false} XorRange(a: nat, b: nat, n: nat)
    requires a < Places(n) && b < Places(n)
    ensures Xor(a, b) < Places(n)
    decreases n
  {
    if n > 0 {
      XorParts(a, b);
      XorRange(a / 2, b / 2, n - 1);
    }
  }

  /* ---- odd multipliers ---- */

  lemma MultipleOfWord(x: int, t: int)
    requires x == t * WORD && 0 - WORD < x < WORD
    ensures x == 0
  {
  }

  /** Multiplying by a number with an inverse loses nothing. */
  lemma Cancel(a: int, b: int, m: nat, inverse: nat, k: nat)
    requires m * inverse == 1 + k * WORD && 0 - WORD < a - b < WORD
    requires (a * m) % WORD == (b * m) % WORD
    ensures a == b
  {
    var t := a * m / WORD - b * m / WORD;
    assert a * m - b * m == t * WORD;
    calc {
      (a - b) * (1 + k * WORD);
      (a - b) * (m * inverse);
      ((a - b) * m) * inverse;
      { assert (a - b) * m == t * WORD; }
      (t * WORD) * inverse;
      (t * inverse) * WORD;
    }
    assert a - b == (t * inverse - (a - b) * k) * WORD;
    MultipleOfWord(a - b, t * inverse - (a - b) * k);
  }

  const FNV_PRIME: nat := 0x0100_0193

  const FNV_OFFSET: nat := 0x811c_9dc5

  /** One round of `asciiDigest`. */
  function FnvStep(h: nat, c: Unit): nat { Uint32(Imul(Int32(Xor(h, c)), FNV_PRIME)) }

  /** One round of `hashForBucket`. */
  function HashStep(h: int, c: Unit): int { Int32(Imul(31, h) + c) }

  function Fold(step: (int, Unit) -> int, h: int, s: seq<Unit>): int {
    if s == [] then h else step(Fold(step, h, s[..|s| - 1]), s[|s| - 1])
  }

  /** A round on states `good` picks loses neither the state nor the unit. */
  ghost predicate Lossless(step: (int, Unit) -> int, good: int -> bool) {
    && (forall h, c :: good(h) ==> good(step(h, c)))
    && (forall h, k, c, d :: good(h) && good(k) && step(h, c) == step(k, d) ==> (h == k <==> c == d))
    && (forall h, k :: good(h) && good(k) && Uint32(h) == Uint32(k) ==> h == k)
  }

  lemma {:induction false} FoldGood(step: (int, Unit) -> int, good: int -> bool, h: int, s: seq<Unit>)
    requires Lossless(step, good) && good(h)
    ensures good(Fold(step, h, s))
    decreases |s|
  {
    if s != [] { FoldGood(step, good, h, s[..|s| - 1]); }
  }

  ghost predicate DifferAt(a: seq<Unit>, b: seq<Unit>, i: nat) {
    |a| == |b| && i < |a| && a[i] != b[i] && forall j :: 0 <= j < |a| && j != i ==> a[j] == b[j]
  }

  lemma {:induction false} FoldsDiffer(step: (int, Unit) -> int, good: int -> bool, h: int,
                                       a: seq<Unit>, b: seq<Unit>, i: nat)
    requires Lossless(step, good) && good(h) && DifferAt(a, b, i)
    ensures Fold(step, h, a) != Fold(step, h, b)
    decreases |a|
  {
    var n := |a| - 1;
    FoldGood(step, good, h, a[..n]);
    FoldGood(step, good, h, b[..n]);
    if i == n {
      assert a[..n] == b[..n];
    } else {
      assert DifferAt(a[..n], b[..n], i);
      FoldsDiffer(step, good, h, a[..n], b[..n], i);
    }
  }

  lemma HashesDiffer(step: (int, Unit) -> int, good: int -> bool, h: int, a: seq<Unit>, b: seq<Unit>, i: nat)
    requires Lossless(step, good) && good(h) && DifferAt(a, b, i)
    ensures Uint32(Fold(step, h, a)) != Uint32(Fold(step, h, b))
  {
    FoldGood(step, good, h, a);
    FoldGood(step, good, h, b);
    FoldsDiffer(step, good, h, a, b, i);
  }

  const FNV: (int, Unit) -> int := (h: int, c: Unit) => if 0 <= h then FnvStep(h, c) else 0

  const HASH: (int, Unit) -> int := (h: int, c: Unit) => HashStep(h, c)

  lemma FnvRound(h: nat, k: nat, c: Unit, d: Unit)
    requires h < WORD && k < WORD && FnvStep(h, c) == FnvStep(k, d)
    ensures h == k <==> c == d
  {
    assert Places(8) == 256 && Places(16) == 0x1_0000 && Places(24) == 0x100_0000 && Places(32) == WORD;
    XorRange(h, c, 32);
    XorRange(k, d, 32);
    SameProduct(Xor(h, c), Xor(k, d));
    if h == k || c == d { XorInjective(h, c, k, d); }
  }

  lemma Wrapped(x: int)
    ensures Uint32(Int32(x)) == x % WORD && Uint32(x) == x % WORD
  {
  }

  lemma SameProduct(x: nat, y: nat)
    requires x < WORD && y < WORD && Uint32(Imul(Int32(x), FNV_PRIME)) == Uint32(Imul(Int32(y), FNV_PRIME))
    ensures x == y
  {
    var a, b := Int32(x), Int32(y);
    Wrapped(a * FNV_PRIME);
    Wrapped(b * FNV_PRIME);
    Cancel(a, b, FNV_PRIME, 899433627, 3513497);
    Wrapped(x);
    Wrapped(y);
  }

  lemma SumsAgree(x: int, y: int, c: int, d: int)
    requires Int32(Int32(x) + c) == Int32(Int32(y) + d)
    ensures (x + c) % WORD == (y + d) % WORD
  {
  }

  lemma HashRound(h: int, k: int, c: Unit, d: Unit)
    requires Int32(h) == h && Int32(k) == k && HashStep(h, c) == HashStep(k, d)
    ensures h == k <==> c == d
  {
    SumsAgree(31 * h, 31 * k, c, d);
    if c == d { SameState(h, k, c); }
    if h == k { SameUnit(31 * h, c, d); }
  }

  lemma SameState(h: int, k: int, c: int)
    requires Int32(h) == h && Int32(k) == k && (31 * h + c) % WORD == (31 * k + c) % WORD
    ensures h == k
  {
    SameAddend(31 * h, 31 * k, c);
    Cancel(h, k, 31, 3186588639, 23);
  }

  lemma SameUnit(x: int, c: Unit, d: Unit)
    requires (x + c) % WORD == (x + d) % WORD
    ensures c == d
  {
    SameAddend(c, d, x);
  }

  lemma SameAddend(x: int, y: int, c: int)
    requires (x + c) % WORD == (y + c) % WORD
    ensures x % WORD == y % WORD
  {
  }

  /* ---- the digests ---- */

  function DigestOf(input: seq<Unit>): string { PadStart(ToText(Uint32(Fold(FNV, FNV_OFFSET, input)), 16), 8) }

  function BucketOf(token: seq<Unit>): string { "t" + ToText(Uint32(Fold(HASH, 0, token)), 36) }

  predicate IsWord(h: int) { 0 <= h < WORD }

  predicate IsInt32(h: int) { Int32(h) == h }

  lemma FnvLossless()
    ensures Lossless(FNV, (h: int) => IsWord(h))
  {
    forall h, k, c, d | IsWord(h) && IsWord(k) && FNV(h, c) == FNV(k, d) ensures h == k <==> c == d {
      FnvRound(h, k, c, d);
    }
  }

  lemma HashLossless()
    ensures Lossless(HASH, (h: int) => IsInt32(h))
  {
    forall h, k, c, d | IsInt32(h) && IsInt32(k) && HASH(h, c) == HASH(k, d) ensures h == k <==> c == d {
      HashRound(h, k, c, d);
    }
    forall x ensures IsInt32(Int32(x)) { Wrapped(x); }
    forall h, k | IsInt32(h) && IsInt32(k) && Uint32(h) == Uint32(k) ensures h == k {
      Wrapped(h);
      Wrapped(k);
    }
  }

  /** Texts that differ in one code unit have different digests. */
  lemma DigestsDiffer(a: seq<Unit>, b: seq<Unit>, i: nat)
    requires DifferAt(a, b, i)
    ensures DigestOf(a) != DigestOf(b)
  {
    FnvLossless();
    HashesDiffer(FNV, (h: int) => IsWord(h), FNV_OFFSET, a, b, i);
    DigestReads(a);
    DigestReads(b);
  }

  /** The digest is the hash, in hexadecimal. */
  lemma DigestReads(a: seq<Unit>)
    ensures FromText(DigestOf(a), 16) == Uint32(Fold(FNV, FNV_OFFSET, a))
  {
    var t := ToText(Uint32(Fold(FNV, FNV_OFFSET, a)), 16);
    TextReads(Uint32(Fold(FNV, FNV_OFFSET, a)), 16);
    if |t| < 8 { PaddedReads(t, 8 - |t|, 16); }
  }

  /** The digest is always eight hexadecimal digits. */
  lemma DigestShape(a: seq<Unit>)
    ensures |DigestOf(a)| == 8 && forall i :: 0 <= i < 8 ==> Hex(DigestOf(a)[i])
  {
    assert Places(8) == 256 && Places(16) == 0x1_0000 && Places(24) == 0x100_0000 && Places(32) == WORD;
    TextLength(Uint32(Fold(FNV, FNV_OFFSET, a)), 8);
  }

  /** Tokens that differ in one code unit fall into different buckets. */
  lemma BucketsDiffer(a: seq<Unit>, b: seq<Unit>, i: nat)
    requires DifferAt(a, b, i)
    ensures BucketOf(a) != BucketOf(b)
  {
    HashLossless();
    HashesDiffer(HASH, (h: int) => IsInt32(h), 0, a, b, i);
    TextReads(Uint32(Fold(HASH, 0, a)), 36);
    TextReads(Uint32(Fold(HASH, 0, b)), 36);
    assert BucketOf(a)[1..] == ToText(Uint32(Fold(HASH, 0, a)), 36);
    assert BucketOf(b)[1..] == ToText(Uint32(Fold(HASH, 0, b)), 36);
  }

  lemma FoldMore(step: (int, Unit) -> int, h: int, s: seq<Unit>, i: nat)
    requires i < |s|
    ensures Fold(step, h, s[..i + 1]) == step(Fold(step, h, s[..i]), s[i])
  {
    assert s[..i + 1][..i] == s[..i];
  }

  ghost predicate IsFnv(step: (int, Unit) -> int) {
    forall x: nat, c: Unit {:trigger step(x, c)} :: step(x, c) == FnvStep(x, c)
  }

  lemma FnvIsFnv()
    ensures IsFnv(FNV)
  {
  }

  method AsciiDigest(input: seq<Unit>) returns (text: string)
    ensures text == DigestOf(input)
  {
    FnvIsFnv();
    text := DigestLoop(input, FNV);
  }

  method DigestLoop(input: seq<Unit>, ghost step: (int, Unit) -> int) returns (text: string)
    requires IsFnv(step)
    ensures text == PadStart(ToText(Uint32(Fold(step, FNV_OFFSET, input)), 16), 8)
  {
    var h := FnvLoop(input, step);
    text := Render(h);
  }

  method Render(h: nat) returns (text: string)
    requires h < WORD
    ensures text == PadStart(ToText(Uint32(h), 16), 8)
  {
    text := PadStart(ToText(h, 16), 8);
  }

  method FnvLoop(input: seq<Unit>, ghost step: (int, Unit) -> int) returns (h: nat)
    requires IsFnv(step)
    ensures h == Fold(step, FNV_OFFSET, input) && h < WORD
  {
    h := FNV_OFFSET;
    for i := 0 to |input|
      invariant h == Fold(step, FNV_OFFSET, input[..i]) && h < WORD
    {
      FoldMore(step, FNV_OFFSET, input, i);
      ghost var next := step(h, input[i]);
      h := Xor(h, input[i]);
      h := Uint32(Imul(Int32(h), FNV_PRIME));
      assert h == next;
    }
    assert input[..|input|] == input;
  }

  method HashForBucket(token: seq<Unit>) returns (text: string)
    ensures text == BucketOf(token)
  {
    var h: int := 0;
    for i := 0 to |token|
      invariant h == Fold(HASH, 0, token[..i])
    {
      FoldMore(HASH, 0, token, i);
      h := Int32(Imul(31, h) + token[i]);
    }
    assert token[..|token|] == token;
    text := "t" + ToText(Uint32(h), 36);
  }

  /* ---- what the digests are, without the wraps ---- */

  lemma FnvMore(s: seq<Unit>, c: Unit)
    ensures var h := Fold(FNV, FNV_OFFSET, s); 0 <= h < WORD && Fold(FNV, FNV_OFFSET, s + [c]) == FnvStep(h, c)
  {
    FnvLossless();
    FoldGood(FNV, (h: int) => IsWord(h), FNV_OFFSET, s);
    assert (s + [c])[..|s|] == s;
  }

  /** The empty text has the digest 811c9dc5; one unit more is combined by exclusive or, and the
      result multiplied by 16777619 modulo 2^32, signed wraps or not. */
  lemma DigestGrows(s: seq<Unit>, c: Unit)
    ensures DigestOf([]) == "811c9dc5"
    ensures FromText(DigestOf(s), 16) >= 0
    ensures FromText(DigestOf(s + [c]), 16) == Xor(FromText(DigestOf(s), 16), c) * 16777619 % 0x1_0000_0000
  {
    EmptyDigest();
    DigestReads(s);
    DigestReads(s + [c]);
    FnvGrows(s, c);
  }

  lemma FnvGrows(s: seq<Unit>, c: Unit)
    ensures var h := Uint32(Fold(FNV, FNV_OFFSET, s));
            Uint32(Fold(FNV, FNV_OFFSET, s + [c])) == Xor(h, c) * FNV_PRIME % WORD
  {
    FnvMore(s, c);
    StepGrows(Fold(FNV, FNV_OFFSET, s), Fold(FNV, FNV_OFFSET, s + [c]), c);
  }

  lemma StepGrows(h: int, g: int, c: Unit)
    requires 0 <= h < WORD && g == FnvStep(h, c)
    ensures Uint32(h) == h && Uint32(g) == Xor(h, c) * FNV_PRIME % WORD
  {
    UnsignedStep(Xor(h, c));
    SmallWord(h);
    SmallWord(g);
  }

  lemma SmallWord(x: int)
    requires 0 <= x < WORD
    ensures Uint32(x) == x
  {
  }

  lemma UnsignedStep(x: nat)
    ensures Uint32(Imul(Int32(x), FNV_PRIME)) == x * FNV_PRIME % WORD
  {
    var q := Int32(x);
    Wrapped(x);
    Wrapped(q * FNV_PRIME);
    SameFactor(q, x, FNV_PRIME);
  }

  lemma SameFactor(a: int, b: int, m: nat)
    requires a % WORD == b % WORD
    ensures a * m % WORD == b * m % WORD
  {
    Remainder(a, WORD);
    Remainder(b, WORD);
    var t := a / WORD - b / WORD;
    assert a == b + t * WORD;
    assert a * m == b * m + (t * m) * WORD;
    WholeWords(b * m, t * m);
  }

  lemma WholeWords(x: int, t: int)
    ensures (x + t * WORD) % WORD == x % WORD
  {
    Remainder(x, WORD);
    UniqueRest(x + t * WORD, WORD, x / WORD + t, x % WORD);
  }

  lemma EmptyDigest()
    ensures DigestOf([]) == "811c9dc5"
  {
    var n := FNV_OFFSET;
    assert Fold(FNV, FNV_OFFSET, []) == n && Uint32(n) == n;
    assert ToText(0x8, 16) == "8";
    TextMore(0x8, 1);
    TextMore(0x81, 1);
    TextMore(0x811, 12);
    TextMore(0x811c, 9);
    TextMore(0x811c9, 13);
    TextMore(0x811c9d, 12);
    TextMore(0x811c9dc, 5);
  }

  lemma TextMore(n: nat, d: nat)
    requires n > 0 && d < 16
    ensures ToText(16 * n + d, 16) == ToText(n, 16) + [DigitChar(d)]
  {
    UniqueRest(16 * n + d, 16, n, d);
  }

  /** The units as digits in base 31, not reduced. */
  function Base31(s: seq<Unit>): nat { if s == [] then 0 else 31 * Base31(s[..|s| - 1]) + s[|s| - 1] }

  lemma {:induction false} HashIsBase31(s: seq<Unit>)
    ensures Uint32(Fold(HASH, 0, s)) == Base31(s) % WORD
    decreases |s|
  {
    if s != [] {
      var front, c := s[..|s| - 1], s[|s| - 1];
      HashIsBase31(front);
      var h := Fold(HASH, 0, front);
      SameFactor(h, Base31(front), 31);
      UnsignedHash(h, c, 31 * Base31(front));
    }
  }

  lemma UnsignedHash(h: int, c: Unit, x: nat)
    requires h * 31 % WORD == x % WORD
    ensures Uint32(HashStep(h, c)) == (x + c) % WORD
  {
    Wrapped(31 * h);
    Wrapped(Imul(31, h) + c);
    Remainder(Imul(31, h), WORD);
    Remainder(x, WORD);
    WholeWords(x + c, Imul(31, h) / WORD - x / WORD);
  }

  /** The bucket is the token read as a number in base 31, modulo 2^32, in base 36. */
  lemma BucketIsBase31(token: seq<Unit>)
    ensures BucketOf(token) == "t" + ToText(Base31(token) % 0x1_0000_0000, 36)
  {
    HashIsBase31(token);
  }
}
