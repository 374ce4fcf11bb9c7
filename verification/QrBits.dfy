/** The bit stream of the QR encoder: mode, length, payload, terminator, padding. */
module QrBits {
  import opened Wrappers
  import opened Arithmetic
  import opened Bytes

  const CAPACITY: nat := 134

  const CODEWORDS: nat := 136

  const MODE: seq<bool> := [false, true, false, false]

  const PAD0 := Octet(true, true, true, false, true, true, false, false)

  const PAD1 := Octet(false, false, false, true, false, false, false, true)

  /** The low `n` binary digits of `v`, highest first. */
  function Digits(v: nat, n: nat): (s: seq<bool>)
    ensures |s| == n
    decreases n
  {
    if n == 0 then [] else Digits(v / 2, n - 1) + [v % 2 == 1]
  }

  /** `v >>> n` */
  function Shift(v: nat, n: nat): nat { if n == 0 then v else Shift(v, n - 1) / 2 }

  function Falses(n: nat): seq<bool> { seq(n, _ => false) }

  /** The bits of the codewords, one after the other. */
  function Flat(words: seq<Octet>): (s: seq<bool>)
    ensures |s| == 8 * |words|
  {
    seq(8 * |words|, t requires 0 <= t < 8 * |words| => HighFirst(words[t / 8])[t % 8])
  }

  function Message(data: seq<Octet>): (s: seq<bool>)
    ensures |s| == 12 + 8 * |data|
  {
    MODE + Digits(|data|, 8) + Flat(data)
  }

  /** The codewords hold the message, its terminator and the alternating padding. */
  ghost predicate Encodes(data: seq<Octet>, words: seq<Octet>) {
    && |words| == CODEWORDS && |data| <= CAPACITY
    && Flat(words)[..16 + 8 * |data|] == Message(data) + Falses(4)
    && forall k :: |data| + 2 <= k < CODEWORDS ==> words[k] == if (k - |data|) % 2 == 0 then PAD0 else PAD1
  }

  function Word(bits: seq<bool>): Octet
    requires |bits| == 8
  {
    Octet(bits[0], bits[1], bits[2], bits[3], bits[4], bits[5], bits[6], bits[7])
  }

  function Words(bits: seq<bool>, n: nat): seq<Octet>
    requires |bits| >= 8 * n
  {
    seq(n, k requires 0 <= k < n => Word(bits[8 * k..8 * k + 8]))
  }

  /** Reading a bit stream: byte mode, the length, that many bytes. */
  function Parse(bits: seq<bool>): Option<seq<Octet>> {
    if |bits| < 12 || bits[..4] != MODE then None else
    var n := Number(bits[4..12]);
    if |bits| < 12 + 8 * n then None
    else Some(Words(bits[12..], n))
  }

  /* ---- digits ---- */

  lemma {:induction false} DigitsOfNumber(b: seq<bool>)
    ensures Digits(Number(b), |b|) == b
    decreases |b|
  {
    if b != [] {
      DigitsOfNumber(b[..|b| - 1]);
      assert b == b[..|b| - 1] + [b[|b| - 1]];
    }
  }

  lemma {:induction false} NumberOfDigits(v: nat, n: nat)
    requires v < Places(n)
    ensures Number(Digits(v, n)) == v
    decreases n
  {
    if n > 0 {
      NumberOfDigits(v / 2, n - 1);
      assert Digits(v, n)[..n - 1] == Digits(v / 2, n - 1);
    }
  }

  lemma WordOfBits(b: seq<bool>)
    requires |b| == 8
    ensures HighFirst(Word(b)) == b
  {
  }

  lemma BitsOfWord(o: Octet)
    ensures Word(HighFirst(o)) == o
  {
  }

  method Push(bits: seq<bool>, value: nat, length: nat) returns (r: seq<bool>)
    ensures r == bits + Digits(value, length)
  {
    r := bits;
    var i: int := length - 1;
    while i >= 0
      invariant -1 <= i < length
      invariant r == bits + Digits(Shift(value, i + 1), length - 1 - i)
    {
      r := r + [Shift(value, i) % 2 == 1];
      i := i - 1;
    }
  }

  /* ---- the loops ---- */

  lemma FlatMore(data: seq<Octet>, n: nat)
    requires n < |data|
    ensures Flat(data[..n]) + HighFirst(data[n]) == Flat(data[..n + 1])
  {
    var a, b := Flat(data[..n]) + HighFirst(data[n]), Flat(data[..n + 1]);
    forall t | 0 <= t < 8 * n + 8 ensures a[t] == b[t] {
      if t < 8 * n {
        assert data[..n][t / 8] == data[..n + 1][t / 8];
      } else {
        assert t / 8 == n;
      }
    }
  }

  method PushPayload(bits: seq<bool>, data: seq<Octet>) returns (r: seq<bool>)
    ensures r == bits + Flat(data)
  {
    r := bits;
    for k := 0 to |data|
      invariant r == bits + Flat(data[..k])
    {
      DigitsOfNumber(HighFirst(data[k]));
      FlatMore(data, k);
      r := Push(r, Value(data[k]), 8);
    }
    assert data[..|data|] == data;
  }

  method PushHeader(length: nat) returns (bits: seq<bool>)
    ensures bits == MODE + Digits(length, 8)
  {
    ModeDigits();
    bits := Push([], 4, 4);
    bits := Push(bits, length, 8);
  }

  method BitStream(data: seq<Octet>) returns (bits: seq<bool>)
    requires |data| <= CAPACITY
    ensures bits == Message(data) + Falses(4)
  {
    bits := PushHeader(|data|);
    bits := PushPayload(bits, data);
    bits := Terminate(bits, |data|);
  }

  method Terminate(bits: seq<bool>, n: nat) returns (r: seq<bool>)
    requires |bits| == 12 + 8 * n && n <= CAPACITY
    ensures r == bits + Falses(4)
  {
    var room := CODEWORDS * 8 - |bits|;
    DigitsOfZero(4);
    r := Push(bits, 0, if room < 4 then room else 4);
    r := FillOctet(r);
  }

  method FillOctet(bits: seq<bool>) returns (r: seq<bool>)
    ensures |r| % 8 == 0 && |bits| <= |r| < |bits| + 8 && r == bits + Falses(|r| - |bits|)
  {
    r := bits;
    while |r| % 8 != 0
      invariant |r| <= (|bits| + 7) / 8 * 8 && |bits| <= |r| && r == bits + Falses(|r| - |bits|)
      decreases (|bits| + 7) / 8 * 8 - |r|
    {
      r := r + [false];
    }
  }

  lemma ModeDigits()
    ensures Digits(4, 4) == MODE
  {
    assert Digits(4, 4) == Digits(2, 3) + [false] && Digits(2, 3) == Digits(1, 2) + [false];
  }

  lemma {:induction false} DigitsOfZero(n: nat)
    ensures Digits(0, n) == Falses(n)
  {
    if n > 0 { DigitsOfZero(n - 1); }
  }

  /** The reduce: eight bits become the byte with that number. */
  method Gather(bits: seq<bool>) returns (w: Octet)
    requires |bits| == 8
    ensures HighFirst(w) == bits
  {
    var acc := 0;
    for i := 0 to 8
      invariant acc == Number(bits[..i])
    {
      assert bits[..i + 1][..i] == bits[..i];
      acc := 2 * acc + Digit(bits[i]);
    }
    assert bits[..8] == bits;
    DigitsOfNumber(bits);
    w := Word(Digits(acc, 8));
    WordOfBits(bits);
  }

  lemma FlatPrefix(a: seq<Octet>, b: seq<Octet>)
    requires a <= b
    ensures Flat(b)[..8 * |a|] == Flat(a)
  {
    forall t | 0 <= t < 8 * |a| ensures Flat(b)[t] == Flat(a)[t] { assert b[t / 8] == a[t / 8]; }
  }

  method Codewords(data: seq<Octet>) returns (words: seq<Octet>)
    requires |data| <= CAPACITY
    ensures Encodes(data, words)
  {
    var bits := BitStream(data);
    words := [];
    var n := |data| + 2;
    for k := 0 to n
      invariant |words| == k && Flat(words) == bits[..8 * k]
    {
      var w := Gather(bits[8 * k..8 * k + 8]);
      words := AppendWord(bits, words, w);
    }
    assert bits[..8 * n] == bits;
    ghost var made := words;
    words := Pad(words);
    PaddedEncodes(data, made, words);
  }

  lemma PaddedEncodes(data: seq<Octet>, made: seq<Octet>, words: seq<Octet>)
    requires |data| <= CAPACITY && Flat(made) == Message(data) + Falses(4) && |made| == |data| + 2 && made <= words
    requires |words| == CODEWORDS
    requires forall k :: |made| <= k < CODEWORDS ==> words[k] == if (k - |made|) % 2 == 0 then PAD0 else PAD1
    ensures Encodes(data, words)
  {
    FlatPrefix(made, words);
    forall k | |data| + 2 <= k < CODEWORDS ensures words[k] == if (k - |data|) % 2 == 0 then PAD0 else PAD1 {
      assert (k - |data|) % 2 == (k - |made|) % 2;
    }
  }

  method AppendWord(ghost bits: seq<bool>, words: seq<Octet>, w: Octet) returns (r: seq<Octet>)
    requires 8 * |words| + 8 <= |bits| && Flat(words) == bits[..8 * |words|]
    requires HighFirst(w) == bits[8 * |words|..8 * |words| + 8]
    ensures r == words + [w] && Flat(r) == bits[..8 * |r|]
  {
    r := words + [w];
    FlatMore(r, |words|);
    assert r[..|words|] == words && r[..|r|] == r;
  }

  method Pad(words: seq<Octet>) returns (r: seq<Octet>)
    requires |words| <= CODEWORDS
    ensures |r| == CODEWORDS && r[..|words|] == words
    ensures forall k :: |words| <= k < CODEWORDS ==> r[k] == if (k - |words|) % 2 == 0 then PAD0 else PAD1
  {
    r := words;
    var i := 0;
    while |r| < CODEWORDS
      invariant |r| == |words| + i <= CODEWORDS && r[..|words|] == words
      invariant forall k :: |words| <= k < |r| ==> r[k] == if (k - |words|) % 2 == 0 then PAD0 else PAD1
    {
      r := r + [if i % 2 == 0 then PAD0 else PAD1];
      i := i + 1;
    }
  }

  /* ---- reading back ---- */

  lemma Header(data: seq<Octet>, bits: seq<bool>)
    requires |data| <= CAPACITY && Message(data) <= bits
    ensures bits[..4] == MODE && Number(bits[4..12]) == |data|
  {
    assert bits[..4] == Message(data)[..4];
    assert bits[4..12] == Message(data)[4..12] == Digits(|data|, 8);
    assert Places(8) == 256;
    NumberOfDigits(|data|, 8);
  }

  lemma FlatSlice(data: seq<Octet>, k: nat)
    requires k < |data|
    ensures Flat(data)[8 * k..8 * k + 8] == HighFirst(data[k])
  {
    var slice, word := Flat(data)[8 * k..8 * k + 8], HighFirst(data[k]);
    forall t | 0 <= t < 8 ensures slice[t] == word[t] { FlatAt(data, k, t); }
  }

  lemma FlatAt(data: seq<Octet>, k: nat, t: nat)
    requires k < |data| && t < 8
    ensures Flat(data)[8 * k + t] == HighFirst(data[k])[t]
  {
    assert (8 * k + t) / 8 == k && (8 * k + t) % 8 == t;
  }

  lemma WordsOfFlat(data: seq<Octet>, bits: seq<bool>)
    requires Flat(data) <= bits
    ensures Words(bits, |data|) == data
  {
    forall k | 0 <= k < |data| ensures Word(bits[8 * k..8 * k + 8]) == data[k] {
      FlatSlice(data, k);
      assert bits[8 * k..8 * k + 8] == Flat(data)[8 * k..8 * k + 8];
      BitsOfWord(data[k]);
    }
  }

  lemma ParseMessage(data: seq<Octet>, bits: seq<bool>)
    requires |data| <= CAPACITY && Message(data) <= bits
    ensures Parse(bits) == Some(data)
  {
    Header(data, bits);
    assert Flat(data) == Message(data)[12..] <= bits[12..];
    WordsOfFlat(data, bits[12..]);
  }

  /** Parsing inverts the encoder, whatever follows the codewords. */
  lemma ParseEncoded(data: seq<Octet>, words: seq<Octet>, bits: seq<bool>)
    requires Encodes(data, words) && Flat(words) <= bits
    ensures Parse(bits) == Some(data)
  {
    assert Message(data) <= Flat(words)[..16 + 8 * |data|] <= bits;
    ParseMessage(data, bits);
  }
}
