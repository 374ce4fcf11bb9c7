/** The finished symbol cell by cell, said without the loops' own formulas: codewords as numbers, the
    zigzag as moves, patterns as rings, format information as one number shown twice. */
module QrSymbol {
  import opened Wrappers
  import opened Arithmetic
  import opened Bytes
  import opened QrBits
  import opened QrGrid
  import opened QrMatrix

  /* ---- the codewords as numbers ---- */

  lemma NumberOfNibbles(a: seq<bool>, b: seq<bool>)
    requires |b| == 4
    ensures Number(b) < 16 && Number(a + b) == 16 * Number(a) + Number(b)
  {
    NumberOfFour(a, b[0], b[1], b[2], b[3]);
    NumberOfFour([], b[0], b[1], b[2], b[3]);
    assert a + b == a + [b[0], b[1], b[2], b[3]] && b == [] + [b[0], b[1], b[2], b[3]];
  }

  lemma Halves(b: seq<bool>)
    requires |b| == 8
    ensures Number(b[..4]) == Number(b) / 16 && Number(b[4..]) == Number(b) % 16
  {
    NumberOfNibbles(b[..4], b[4..]);
    assert b == b[..4] + b[4..];
  }

  function Stream(data: seq<Octet>): seq<bool> { Message(data) + Falses(4) }

  lemma InSecond(a: seq<bool>, b: seq<bool>, c: seq<bool>, d: seq<bool>, i: nat, j: nat)
    requires i <= j <= |b|
    ensures (a + b + c + d)[|a| + i..|a| + j] == b[i..j]
  {
  }

  lemma InThird(a: seq<bool>, b: seq<bool>, c: seq<bool>, d: seq<bool>, i: nat, j: nat)
    requires i <= j <= |c|
    ensures (a + b + c + d)[|a| + |b| + i..|a| + |b| + j] == c[i..j]
  {
  }

  lemma InFourth(a: seq<bool>, b: seq<bool>, c: seq<bool>, d: seq<bool>)
    ensures (a + b + c + d)[|a| + |b| + |c|..|a| + |b| + |c| + |d|] == d
  {
  }

  lemma TwoHalves(s: seq<bool>, at: nat)
    requires at + 8 <= |s|
    ensures Number(s[at..at + 8]) == 16 * Number(s[at..at + 4]) + Number(s[at + 4..at + 8])
  {
    NumberOfNibbles(s[at..at + 4], s[at + 4..at + 8]);
    assert s[at..at + 8] == s[at..at + 4] + s[at + 4..at + 8];
  }

  lemma WordInStream(data: seq<Octet>, words: seq<Octet>, m: nat)
    requires Encodes(data, words) && m <= |data| + 1
    ensures |Stream(data)| >= 8 * m + 8
    ensures Value(words[m]) == 16 * Number(Stream(data)[8 * m..8 * m + 4]) + Number(Stream(data)[8 * m + 4..8 * m + 8])
  {
    FlatSlice(words, m);
    HalvesBefore(Flat(words), Stream(data), 8 * m);
  }

  lemma HalvesBefore(a: seq<bool>, b: seq<bool>, at: nat)
    requires at + 8 <= |b| <= |a| && a[..|b|] == b
    ensures Number(a[at..at + 8]) == 16 * Number(b[at..at + 4]) + Number(b[at + 4..at + 8])
  {
    assert a[..|b|][at..at + 8] == a[at..at + 8];
    TwoHalves(b, at);
  }

  lemma ByteHalves(data: seq<Octet>, k: nat)
    requires k < |data|
    ensures Number(Flat(data)[8 * k..8 * k + 4]) == Value(data[k]) / 16
    ensures Number(Flat(data)[8 * k + 4..8 * k + 8]) == Value(data[k]) % 16
  {
    FlatSlice(data, k);
    Halves(HighFirst(data[k]));
    var f := Flat(data);
    assert f[8 * k..8 * k + 8][..4] == f[8 * k..8 * k + 4] && f[8 * k..8 * k + 8][4..] == f[8 * k + 4..8 * k + 8];
  }

  /** What comes before data byte `m`: the length, then the bytes. */
  function Previous(data: seq<Octet>, m: nat): nat
    requires 1 <= m <= |data| + 1
  {
    if m == 1 then |data| else Value(data[m - 2])
  }

  lemma LengthDigits(n: nat)
    requires n <= CAPACITY
    ensures Number(Digits(n, 8)[0..4]) == n / 16 && Number(Digits(n, 8)[4..8]) == n % 16
  {
    assert Places(8) == 256;
    NumberOfDigits(n, 8);
    var d := Digits(n, 8);
    Halves(d);
    assert d[0..4] == d[..4] && d[4..8] == d[4..];
  }

  /** The stream, part by part. */
  ghost predicate Streamed(s: seq<bool>, data: seq<Octet>, length: seq<bool>, bytes: seq<bool>) {
    && s == MODE + length + bytes + Falses(4)
    && |length| == 8 && Number(length[0..4]) == |data| / 16 && Number(length[4..8]) == |data| % 16
    && |bytes| == 8 * |data|
    && forall k {:trigger data[k]} :: 0 <= k < |data| ==>
         && Number(bytes[8 * k..8 * k + 4]) == Value(data[k]) / 16
         && Number(bytes[8 * k + 4..8 * k + 8]) == Value(data[k]) % 16
  }

  lemma StreamIsStreamed(data: seq<Octet>)
    requires |data| <= CAPACITY
    ensures Streamed(Stream(data), data, Digits(|data|, 8), Flat(data))
  {
    LengthDigits(|data|);
    forall k {:trigger data[k]} | 0 <= k < |data|
      ensures Number(Flat(data)[8 * k..8 * k + 4]) == Value(data[k]) / 16
      ensures Number(Flat(data)[8 * k + 4..8 * k + 8]) == Value(data[k]) % 16
    {
      ByteHalves(data, k);
    }
  }

  lemma LowNibble(s: seq<bool>, data: seq<Octet>, length: seq<bool>, bytes: seq<bool>, m: nat)
    requires Streamed(s, data, length, bytes) && 1 <= m <= |data| + 1
    ensures |s| >= 8 * m + 4 && Number(s[8 * m..8 * m + 4]) == Previous(data, m) % 16
  {
    if m == 1 {
      InSecond(MODE, length, bytes, Falses(4), 4, 8);
    } else {
      assert Number(bytes[8 * (m - 2) + 4..8 * (m - 2) + 8]) == Value(data[m - 2]) % 16;
      InThird(MODE, length, bytes, Falses(4), 8 * (m - 2) + 4, 8 * (m - 2) + 8);
    }
  }

  lemma HighNibble(s: seq<bool>, data: seq<Octet>, length: seq<bool>, bytes: seq<bool>, m: nat)
    requires Streamed(s, data, length, bytes) && 1 <= m <= |data| + 1
    ensures |s| >= 8 * m + 8
    ensures Number(s[8 * m + 4..8 * m + 8]) == if m <= |data| then Value(data[m - 1]) / 16 else 0
  {
    if m <= |data| {
      assert Number(bytes[8 * (m - 1)..8 * (m - 1) + 4]) == Value(data[m - 1]) / 16;
      InThird(MODE, length, bytes, Falses(4), 8 * (m - 1), 8 * (m - 1) + 4);
    } else {
      InFourth(MODE, length, bytes, Falses(4));
      NoNumber();
    }
  }

  lemma NoNumber()
    ensures Number(Falses(4)) == 0
  {
    NumberOfFour([], false, false, false, false);
    assert Falses(4) == [] + [false, false, false, false];
  }

  lemma FirstCodeword(data: seq<Octet>, words: seq<Octet>)
    requires Encodes(data, words)
    ensures Value(words[0]) == 64 + |data| / 16
  {
    WordInStream(data, words, 0);
    LengthDigits(|data|);
    InSecond(MODE, Digits(|data|, 8), Flat(data), Falses(4), 0, 4);
    ModeNibble(Stream(data));
  }

  lemma ModeNibble(s: seq<bool>)
    requires |s| >= 4 && s[..4] == MODE
    ensures Number(s[0..4]) == 4
  {
    NumberOfFour([], false, true, false, false);
    assert s[0..4] == [] + [false, true, false, false];
  }

  /** The codewords by their values: mode 4 and the length's high half; then every byte split over
      two codewords; a zero half at the end; then 0xec and 0x11 in turn. */
  lemma CodewordValues(data: seq<Octet>, words: seq<Octet>)
    requires Encodes(data, words)
    ensures |words| == 136 && Value(words[0]) == 64 + |data| / 16
    ensures forall m :: 1 <= m <= |data| + 1 ==>
      Value(words[m]) == 16 * ((if m == 1 then |data| else Value(data[m - 2])) % 16)
                         + if m <= |data| then Value(data[m - 1]) / 16 else 0
    ensures forall k :: |data| + 2 <= k < 136 ==> Value(words[k]) == if (k - |data|) % 2 == 0 then 0xec else 0x11
  {
    FirstCodeword(data, words);
    StreamIsStreamed(data);
    forall m | 1 <= m <= |data| + 1
      ensures Value(words[m]) == 16 * ((if m == 1 then |data| else Value(data[m - 2])) % 16)
                                 + if m <= |data| then Value(data[m - 1]) / 16 else 0
    {
      WordInStream(data, words, m);
      LowNibble(Stream(data), data, Digits(|data|, 8), Flat(data), m);
      HighNibble(Stream(data), data, Digits(|data|, 8), Flat(data), m);
    }
    ValueOfBits(PAD0);
    ValueOfBits(PAD1);
  }

  /* ---- the path as moves ---- */

  /** The path starts in the lower right corner and goes left, then up and right, and so on; at the
      top it turns round two columns further left, and so at the bottom; column 6 is skipped. */
  lemma PathMoves(k: nat)
    requires k + 1 < VISITS
    ensures VisitRow(0) == 40 && VisitColumn(0) == 40
    ensures k % 2 == 0 ==> VisitRow(k + 1) == VisitRow(k) && VisitColumn(k + 1) == VisitColumn(k) - 1
    ensures k % 2 == 1 && k % 82 != 81 ==>
      && VisitRow(k + 1) == (if k / 82 % 2 == 0 then VisitRow(k) - 1 else VisitRow(k) + 1)
      && VisitColumn(k + 1) == VisitColumn(k) + 1
    ensures k % 82 == 81 ==>
      VisitRow(k + 1) == VisitRow(k) && VisitColumn(k + 1) == VisitColumn(k) - if VisitColumn(k) == 7 then 2 else 1
  {
    if k % 82 != 81 {
      assert (k + 1) / 82 == k / 82 && (k + 1) % 82 == k % 82 + 1;
    } else {
      assert (k + 1) / 82 == k / 82 + 1 && (k + 1) % 82 == 0;
    }
  }

  /* ---- the data cells ---- */

  lemma HalfQuotient(x: nat, d: nat, p: nat)
    requires d < 2 && p > 0
    ensures (2 * x + d) / (2 * p) == x / p && (2 * x + d) % 2 == d
  {
    Remainder(x, p);
    UniqueRest(2 * x + d, 2 * p, x / p, 2 * (x % p) + d);
  }

  /** A binary digit of a number, by division. */
  lemma {:induction false} BitOfNumber(b: seq<bool>, i: nat)
    requires i < |b|
    ensures Number(b) / Places(|b| - 1 - i) % 2 == Digit(b[i])
    decreases |b|
  {
    var front, last := b[..|b| - 1], Digit(b[|b| - 1]);
    if i < |b| - 1 {
      BitOfNumber(front, i);
      HalfQuotient(Number(front), last, Places(|b| - 2 - i));
    } else {
      HalfQuotient(Number(front), last, 1);
    }
  }

  /** Bit `i` of a byte, highest first. */
  lemma BitOfValue(o: Octet, i: nat)
    requires i < 8
    ensures HighFirst(o)[i] <==> Value(o) / Places(7 - i) % 2 == 1
  {
    BitOfNumber(HighFirst(o), i);
  }

  /** The free cell the path comes to after `n` others shows bit `n` of the codewords, highest bit of
      each first and zeros after the last, turned over where row and column add up to an even number. */
  lemma DataShown(g: Grid, words: seq<Octet>, k: nat)
    requires Shows(g, words) && k < VISITS && Free(VisitRow(k), VisitColumn(k))
    ensures Rank(0) == 0 && Rank(k + 1) == Rank(k) + 1
    ensures Inside(VisitRow(k), VisitColumn(k))
    ensures var n, r, c := Rank(k), VisitRow(k), VisitColumn(k);
            var bit := n < 8 * |words| && Value(words[n / 8]) / Places(7 - n % 8) % 2 == 1;
            g[r][c] == if (r + c) % 2 == 0 then !bit else bit
  {
    ShownIsHeld(g, words);
    CellOfVisit(k);
    PlacedOnVisit(words, k, VisitRow(k), VisitColumn(k));
    var n := Rank(k);
    if n < 8 * |words| { BitOfValue(words[n / 8], n % 8); }
  }

  lemma TakenIsNotCounted(k: nat)
    requires k < VISITS && !Free(VisitRow(k), VisitColumn(k))
    ensures Rank(k + 1) == Rank(k)
  {
  }

  /* ---- the patterns ---- */

  /** How far a cell is from the middle of a pattern, in rings. */
  function Ring(r: int, c: int): int { Max(Abs(r), Abs(c)) }

  /** A finder around (`row`, `col`): dark in the middle nine cells and on the third ring, white on
      the second and on the fourth, which is its border. */
  lemma FinderShown(g: Grid, words: seq<Octet>, row: int, col: int, r: int, c: int)
    requires Shows(g, words) && (row, col) in {(3, 3), (3, 37), (37, 3)}
    requires Inside(row + r, col + c) && Ring(r, c) <= 4
    ensures g[row + r][col + c] == (Ring(r, c) != 2 && Ring(r, c) != 4)
  {
    FinderFixed(row, col, r, c);
    assert FormatIndex(row + r, col + c) < 0;
  }

  lemma FinderFixed(row: int, col: int, r: int, c: int)
    requires (row, col) in {(3, 3), (3, 37), (37, 3)} && Inside(row + r, col + c) && Ring(r, c) <= 4
    ensures Fixed(row + r, col + c) == Some(Ring(r, c) != 2 && Ring(r, c) != 4)
  {
    RingsOfFinder(r + 3, c + 3);
    if (row, col) == (3, 3) { assert Finders(row + r, col + c) == Some(FinderOn(r + 3, c + 3)); }
    if (row, col) == (3, 37) { assert Finders(row + r, col + c) == Some(FinderOn(r + 3, c + 3)); }
    if (row, col) == (37, 3) { assert Finders(row + r, col + c) == Some(FinderOn(r + 3, c + 3)); }
  }

  lemma RingsOfFinder(r: int, c: int)
    requires -1 <= r <= 7 && -1 <= c <= 7
    ensures FinderOn(r, c) <==> Ring(r - 3, c - 3) != 2 && Ring(r - 3, c - 3) != 4
  {
  }

  /** The alignment pattern around (34, 34): dark but for the first ring. */
  lemma AlignmentShown(g: Grid, words: seq<Octet>, r: int, c: int)
    requires Shows(g, words) && Ring(r, c) <= 2
    ensures g[34 + r][34 + c] == (Ring(r, c) != 1)
  {
    assert Fixed(34 + r, 34 + c) == Some(Ring(r, c) != 1);
    assert FormatIndex(34 + r, 34 + c) < 0;
  }

  /** The timing patterns alternate between the finders, and the dark module is dark. */
  lemma TimingShown(g: Grid, words: seq<Octet>, i: int)
    requires Shows(g, words) && 8 <= i < 33
    ensures g[6][i] == g[i][6] == (i % 2 == 0) && g[33][8]
  {
  }

  /* ---- the format information ---- */

  /** Level L and mask 0 with their check bits, masked: section 7.9 of ISO/IEC 18004:2015. */
  const FORMAT_NUMBER: nat := 0x77c4

  lemma FormatDigits(i: nat)
    requires i < 15
    ensures FORMAT[i] <==> FORMAT_NUMBER / Places(i) % 2 == 1
  {
    var a := [] + [false, true, true, true];
    var b := a + [false, true, true, true];
    var c := b + [true, true, false, false];
    var d := c + [false, true, false, false];
    NumberOfFour([], false, true, true, true);
    NumberOfFour(a, false, true, true, true);
    NumberOfFour(b, true, true, false, false);
    NumberOfFour(c, false, true, false, false);
    BitOfNumber(d, 15 - i);
    assert d[15 - i] == FORMAT[i];
  }

  /** Where bit `i` stands around the upper left finder ... */
  function FirstCopy(i: nat): (int, int) {
    if i <= 5 then (8, i) else if i <= 7 then (8, i + 1) else if i == 8 then (7, 8) else (14 - i, 8)
  }

  /** ... and along the two others. */
  function SecondCopy(i: nat): (int, int) { if i <= 7 then (40 - i, 8) else (8, 26 + i) }

  /** The finished symbol shows the fifteen bits twice, and nothing else was overwritten by them. */
  lemma FormatShown(g: Grid, words: seq<Octet>, i: nat)
    requires Shows(g, words) && i < 15
    ensures var bit := FORMAT_NUMBER / Places(i) % 2 == 1; var a, b := FirstCopy(i), SecondCopy(i);
            && Inside(a.0, a.1) && Inside(b.0, b.1)
            && g[a.0][a.1] == bit && g[b.0][b.1] == bit
  {
    FormatDigits(i);
    assert FormatIndex(FirstCopy(i).0, FirstCopy(i).1) == i && FormatIndex(SecondCopy(i).0, SecondCopy(i).1) == i;
  }

  lemma OnlyTwoCopies(r: int, c: int)
    requires Inside(r, c) && FormatIndex(r, c) >= 0
    ensures exists i: nat :: i < 15 && ((r, c) == FirstCopy(i) || (r, c) == SecondCopy(i))
  {
    var i: nat := FormatIndex(r, c);
    assert i < 15 && ((r, c) == FirstCopy(i) || (r, c) == SecondCopy(i));
  }
}
