/** `qrMatrix`: the loops over the mutable matrix, from the text's bytes to the symbol. */
module QrMatrix {
  import opened Wrappers
  import opened Arithmetic
  import opened Field
  import opened Bytes
  import opened Algebras
  import opened Polynomial
  import opened ShiftRegister
  import opened ReedSolomon
  import opened QrBits
  import opened QrGrid

  type Cells = array2<Option<bool>>

  ghost predicate Sized(m: Cells) { m.Length0 == 41 && m.Length1 == 41 }

  /** One finder with its border, clipped to the symbol. */
  method SetFinder(m: Cells, row: int, col: int)
    requires Sized(m)
    modifies m
    ensures forall r, c :: Inside(r, c) ==>
              m[r, c] == if InFinder(r, c, row, col) then Some(FinderOn(r - row, c - col)) else old(m[r, c])
  {
    for r := -1 to 8
      invariant forall a, c :: Inside(a, c) ==>
                  m[a, c] == if InFinder(a, c, row, col) && a - row < r then Some(FinderOn(a - row, c - col))
                             else old(m[a, c])
    {
      FinderRow(m, row, col, r);
    }
  }

  method FinderRow(m: Cells, row: int, col: int, r: int)
    requires Sized(m)
    modifies m
    ensures forall a, c :: Inside(a, c) ==>
              m[a, c] == if a == row + r && col - 1 <= c <= col + 7 then Some(FinderOn(r, c - col)) else old(m[a, c])
  {
    for c := -1 to 8
      invariant forall a, b :: Inside(a, b) ==>
                  m[a, b] == if a == row + r && col - 1 <= b < col + c then Some(FinderOn(r, b - col)) else old(m[a, b])
    {
      if Inside(row + r, col + c) {
        m[row + r, col + c] := Some(FinderOn(r, c));
      }
    }
  }

  method SetAlignment(m: Cells)
    requires Sized(m)
    modifies m
    ensures forall r, c :: Inside(r, c) ==>
              m[r, c] == if InAlignment(r, c) then Some(!InRing(r, c)) else old(m[r, c])
  {
    for r := -2 to 3
      invariant forall a, c :: Inside(a, c) ==>
                  m[a, c] == if InAlignment(a, c) && a < 34 + r then Some(!InRing(a, c)) else old(m[a, c])
    {
      AlignmentRow(m, r);
    }
  }

  method AlignmentRow(m: Cells, r: int)
    requires Sized(m) && -2 <= r <= 2
    modifies m
    ensures forall a, c :: Inside(a, c) ==>
              m[a, c] == if InAlignment(a, c) && a == 34 + r then Some(!InRing(a, c)) else old(m[a, c])
  {
    for c := -2 to 3
      invariant forall a, b :: Inside(a, b) ==>
                  m[a, b] == if InAlignment(a, b) && a == 34 + r && b < 34 + c then Some(!InRing(a, b))
                             else old(m[a, b])
    {
      m[34 + r, 34 + c] := Some(Max(Abs(r), Abs(c)) != 1);
    }
  }

  function Abs(x: int): int { if x < 0 then -x else x }

  function Max(x: int, y: int): int { if x < y then y else x }

  method SetTiming(m: Cells)
    requires Sized(m)
    modifies m
    ensures forall r, c :: Inside(r, c) ==>
              m[r, c] == if r == 6 && 8 <= c < 33 then Some(c % 2 == 0)
                         else if c == 6 && 8 <= r < 33 then Some(r % 2 == 0) else old(m[r, c])
  {
    for i := 8 to 33
      invariant forall r, c :: Inside(r, c) ==>
                  m[r, c] == if r == 6 && 8 <= c < i then Some(c % 2 == 0)
                             else if c == 6 && 8 <= r < i then Some(r % 2 == 0) else old(m[r, c])
    {
      m[6, i] := Some(i % 2 == 0);
      m[i, 6] := Some(i % 2 == 0);
    }
  }

  predicate InArea(r: int, c: int, from: int, to: int) { (r == 8 && from <= c < to) || (c == 8 && from <= r < to) }

  method Reserve(m: Cells, from: int, to: int)
    requires Sized(m) && 0 <= from <= to <= 41
    modifies m
    ensures forall r, c :: Inside(r, c) ==>
              m[r, c] == if old(m[r, c]) == None && InArea(r, c, from, to) then Some(false) else old(m[r, c])
  {
    for i := from to to
      invariant forall r, c :: Inside(r, c) ==>
                  m[r, c] == if old(m[r, c]) == None && InArea(r, c, from, i) then Some(false) else old(m[r, c])
    {
      if m[8, i] == None { m[8, i] := Some(false); }
      if m[i, 8] == None { m[i, 8] := Some(false); }
    }
  }

  method DrawPatterns(m: Cells)
    requires Sized(m) && forall r, c :: Inside(r, c) ==> m[r, c] == None
    modifies m
    ensures forall r, c :: Inside(r, c) ==> m[r, c] == Fixed(r, c)
  {
    SetFinder(m, 0, 0);
    SetFinder(m, 0, 34);
    SetFinder(m, 34, 0);
    assert forall r, c :: Inside(r, c) ==> m[r, c] == Finders(r, c);
    SetAlignment(m);
    assert forall r, c :: Inside(r, c) ==> m[r, c] == WithAlignment(r, c);
    SetTiming(m);
    assert forall r, c :: Inside(r, c) ==> m[r, c] == WithTiming(r, c);
    m[33, 8] := Some(true);
    assert forall r, c :: Inside(r, c) ==> m[r, c] == WithDark(r, c);
    Reserve(m, 0, 9);
    Reserve(m, 33, 41);
  }

  /* ---- placing the data ---- */

  /** What a cell holds after `k` visits. */
  function Goal(words: seq<Octet>, k: nat, r: int, c: int): Option<bool> {
    if !Free(r, c) then Fixed(r, c) else if Index(r, c) < k then Some(Placed(words, r, c)) else None
  }

  ghost predicate Placing(m: Cells, words: seq<Octet>, k: nat)
    requires Sized(m)
    reads m
  {
    forall r, c :: Inside(r, c) ==> m[r, c] == Goal(words, k, r, c)
  }

  /** `count` is `Rank`, kept as a name so that the loops below need not look inside it. */
  ghost predicate Ranks(count: nat -> nat) { forall k: nat {:trigger Rank(k)} :: count(k) == Rank(k) }

  ghost predicate Arrived(m: Cells, words: seq<Octet>, count: nat -> nat, k: nat, bitIndex: nat)
    reads m
  {
    Sized(m) && Placing(m, words, k) && bitIndex == Min(count(k), 8 * |words|)
  }

  lemma OnlyThatCell(words: seq<Octet>, k: nat, r: int, c: int)
    requires k < VISITS && r == VisitRow(k) && c == VisitColumn(k)
    ensures forall a, b :: Inside(a, b) && (a, b) != (r, c) ==> Goal(words, k + 1, a, b) == Goal(words, k, a, b)
  {
    forall a, b | Inside(a, b) && (a, b) != (r, c)
      ensures Goal(words, k + 1, a, b) == Goal(words, k, a, b)
    {
      if Free(a, b) { VisitedOnce(a, b, k); }
    }
  }

  lemma ThatCell(words: seq<Octet>, k: nat, r: int, c: int)
    requires k < VISITS && r == VisitRow(k) && c == VisitColumn(k)
    ensures Goal(words, k + 1, r, c) == if Free(r, c) then Some(BitAt(words, Rank(k)) != Mask(r, c)) else Fixed(r, c)
    ensures Goal(words, k, r, c) == Fixed(r, c) && Inside(r, c)
    ensures Rank(k + 1) == Rank(k) + if Free(r, c) then 1 else 0
  {
    CellOfVisit(k);
    PlacedOnVisit(words, k, r, c);
  }

  method NextBit(words: seq<Octet>, bitIndex: nat) returns (bit: bool, next: nat)
    ensures bit == BitAt(words, bitIndex)
    ensures next == if bitIndex < 8 * |words| then bitIndex + 1 else bitIndex
  {
    bit, next := false, bitIndex;
    if bitIndex / 8 < |words| {
      bit := HighFirst(words[bitIndex / 8])[bitIndex % 8];
      next := bitIndex + 1;
    }
  }

  method PlaceCell(m: Cells, words: seq<Octet>, r: int, c: int, bitIndex: nat, ghost count: nat -> nat, ghost k: nat)
      returns (next: nat)
    requires k < VISITS && r == VisitRow(k) && c == VisitColumn(k)
    requires Ranks(count) && Arrived(m, words, count, k, bitIndex)
    modifies m
    ensures Arrived(m, words, count, k + 1, next)
  {
    OnlyThatCell(words, k, r, c);
    ThatCell(words, k, r, c);
    next := bitIndex;
    if m[r, c] == None {
      var bit;
      bit, next := NextBit(words, bitIndex);
      m[r, c] := Some(bit != Mask(r, c));
    }
  }

  method PlaceRow(m: Cells, words: seq<Octet>, r: int, c: int, bitIndex: nat,
                  ghost count: nat -> nat, ghost p: nat, ghost i: nat)
      returns (next: nat)
    requires p < PAIRS && i < 41 && r == RowOf(p, i) && c == ColumnOf(p, 0)
    requires Ranks(count) && Arrived(m, words, count, 82 * p + 2 * i, bitIndex)
    modifies m
    ensures Arrived(m, words, count, 82 * p + 2 * (i + 1), next)
  {
    VisitParts(p, i, 0);
    VisitParts(p, i, 1);
    next := PlaceBoth(m, words, r, c, bitIndex, count, Visit(p, i, 0));
  }

  /** `for (const c of [col, col - 1])` */
  method PlaceBoth(m: Cells, words: seq<Octet>, r: int, c: int, bitIndex: nat, ghost count: nat -> nat, ghost k: nat)
      returns (next: nat)
    requires k + 1 < VISITS && r == VisitRow(k) == VisitRow(k + 1) && c == VisitColumn(k) && c - 1 == VisitColumn(k + 1)
    requires Ranks(count) && Arrived(m, words, count, k, bitIndex)
    modifies m
    ensures Arrived(m, words, count, k + 2, next)
  {
    next := PlaceCell(m, words, r, c, bitIndex, count, k);
    next := PlaceCell(m, words, r, c - 1, next, count, k + 1);
  }

  method PlacePair(m: Cells, words: seq<Octet>, col: int, upward: bool, bitIndex: nat,
                   ghost count: nat -> nat, ghost p: nat)
      returns (next: nat)
    requires p < PAIRS && col == ColumnOf(p, 0) && upward == (p % 2 == 0)
    requires Ranks(count) && Arrived(m, words, count, 82 * p, bitIndex)
    modifies m
    ensures Arrived(m, words, count, 82 * p + 82, next)
  {
    next := bitIndex;
    for i := 0 to 41
      invariant Arrived(m, words, count, 82 * p + 2 * i, next)
    {
      var row := if upward then 40 - i else i;
      next := PlaceRow(m, words, row, col, next, count, p, i);
    }
  }

  method PlaceData(m: Cells, words: seq<Octet>)
    requires Sized(m) && forall r, c :: Inside(r, c) ==> m[r, c] == Fixed(r, c)
    modifies m
    ensures Placing(m, words, VISITS)
  {
    NothingPlaced(words);
    PlacePairs(m, words, (k: nat) => Rank(k));
  }

  method PlacePairs(m: Cells, words: seq<Octet>, ghost count: nat -> nat)
    requires Ranks(count) && Arrived(m, words, count, 0, 0)
    modifies m
    ensures Sized(m) && Placing(m, words, VISITS)
  {
    var bitIndex := 0;
    var upward := true;
    var col := 40;
    ghost var p := 0;
    while col > 0
      invariant p <= PAIRS && col == Heading(p) && upward == (p % 2 == 0)
      invariant Arrived(m, words, count, 82 * p, bitIndex)
      decreases col
    {
      bitIndex, col := PlaceNext(m, words, col, upward, bitIndex, count, p);
      upward := !upward;
      p := p + 1;
    }
    assert p == PAIRS;
  }

  /** Where `col` stands when the loop comes to its pair number `p`. */
  function Heading(p: nat): int { if p <= 17 then 40 - 2 * p else 39 - 2 * p }

  method PlaceNext(m: Cells, words: seq<Octet>, col: int, upward: bool, bitIndex: nat,
                   ghost count: nat -> nat, ghost p: nat)
      returns (next: nat, after: int)
    requires p < PAIRS && col == Heading(p) && upward == (p % 2 == 0)
    requires Ranks(count) && Arrived(m, words, count, 82 * p, bitIndex)
    modifies m
    ensures Arrived(m, words, count, 82 * (p + 1), next) && after == Heading(p + 1)
  {
    after := if col == 6 then col - 1 else col;
    next := PlacePair(m, words, after, upward, bitIndex, count, p);
    after := after - 2;
  }

  lemma NothingPlaced(words: seq<Octet>)
    ensures forall r, c :: Inside(r, c) ==> Goal(words, 0, r, c) == Fixed(r, c)
  {
    forall r, c | Inside(r, c) ensures Goal(words, 0, r, c) == Fixed(r, c) {
      if Free(r, c) { VisitedOnce(r, c, 0); }
    }
  }

  /* ---- format information ---- */

  /** 0b111011111000100, lowest bit first. */
  const FORMAT: seq<bool> :=
    [false, false, true, false, false, false, true, true, true, true, true, false, true, true, true]

  /** The bit of the format information a cell shows, or -1. */
  function FormatIndex(r: int, c: int): int {
    if r == 8 && 0 <= c <= 5 then c
    else if r == 8 && c == 7 then 6
    else if r == 8 && c == 8 then 7
    else if r == 7 && c == 8 then 8
    else if c == 8 && 0 <= r <= 5 then 14 - r
    else if c == 8 && 33 <= r <= 40 then 40 - r
    else if r == 8 && 34 <= c <= 40 then c - 26
    else -1
  }

  function Formatted(r: int, c: int, before: Option<bool>): Option<bool> {
    if FormatIndex(r, c) >= 0 then Some(FORMAT[FormatIndex(r, c)]) else before
  }

  /** Format information overwrites no data cell and leaves the dark module dark. */
  lemma FormatSparesData(r: int, c: int)
    requires Inside(r, c) && FormatIndex(r, c) >= 0
    ensures !Free(r, c)
    ensures (r, c) == (33, 8) ==> Formatted(r, c, None) == Fixed(r, c)
  {
  }

  method SetFormat(m: Cells)
    requires Sized(m)
    modifies m
    ensures forall r, c :: Inside(r, c) ==> m[r, c] == Formatted(r, c, old(m[r, c]))
  {
    FormatAlongRow(m);
    FormatAlongColumn(m);
    FormatSecondCopy(m);
  }

  method FormatAlongRow(m: Cells)
    requires Sized(m)
    modifies m
    ensures forall r, c :: Inside(r, c) ==>
      m[r, c] == if (r == 8 && c <= 8 && c != 6) || (r, c) == (7, 8) then Formatted(r, c, None) else old(m[r, c])
  {
    for i := 0 to 6
      invariant forall r, c :: Inside(r, c) ==>
        m[r, c] == if r == 8 && c < i then Some(FORMAT[c]) else old(m[r, c])
    {
      m[8, i] := Some(FORMAT[i]);
    }
    m[8, 7] := Some(FORMAT[6]);
    m[8, 8] := Some(FORMAT[7]);
    m[7, 8] := Some(FORMAT[8]);
  }

  method FormatAlongColumn(m: Cells)
    requires Sized(m)
    modifies m
    ensures forall r, c :: Inside(r, c) ==>
      m[r, c] == if c == 8 && r <= 5 then Some(FORMAT[14 - r]) else old(m[r, c])
  {
    for i := 9 to 15
      invariant forall r, c :: Inside(r, c) ==>
        m[r, c] == if c == 8 && 14 - i < r <= 5 then Some(FORMAT[14 - r]) else old(m[r, c])
    {
      m[14 - i, 8] := Some(FORMAT[i]);
    }
  }

  method FormatSecondCopy(m: Cells)
    requires Sized(m)
    modifies m
    ensures forall r, c :: Inside(r, c) ==>
      m[r, c] == if c == 8 && r >= 33 then Some(FORMAT[40 - r])
                 else if r == 8 && c >= 34 then Some(FORMAT[c - 26]) else old(m[r, c])
  {
    for i := 0 to 8
      invariant forall r, c :: Inside(r, c) ==>
        m[r, c] == if c == 8 && r > 40 - i then Some(FORMAT[40 - r]) else old(m[r, c])
    {
      m[40 - i, 8] := Some(FORMAT[i]);
    }
    for i := 8 to 15
      invariant forall r, c :: Inside(r, c) ==>
        m[r, c] == if c == 8 && r >= 33 then Some(FORMAT[40 - r])
                   else if r == 8 && 34 <= c < 26 + i then Some(FORMAT[c - 26]) else old(m[r, c])
    {
      m[8, 26 + i] := Some(FORMAT[i]);
    }
  }

  /* ---- the symbol ---- */

  /** Every cell of the finished symbol. */
  function Symbol(words: seq<Octet>, r: int, c: int): bool {
    Formatted(r, c, Goal(words, VISITS, r, c)) == Some(true)
  }

  ghost predicate Shows(g: Grid, words: seq<Octet>) {
    Square(g) && forall r, c {:trigger g[r][c]} :: Inside(r, c) ==> g[r][c] == Symbol(words, r, c)
  }

  lemma ShownIsHeld(g: Grid, words: seq<Octet>)
    requires Shows(g, words)
    ensures Holds(g, words)
  {
    forall r, c {:trigger g[r][c]} | Inside(r, c) && Free(r, c) ensures g[r][c] == Placed(words, r, c) {
      VisitedOnce(r, c, 0);
      if FormatIndex(r, c) >= 0 { FormatSparesData(r, c); }
    }
  }

  /** No cell stays empty. */
  lemma NoCellEmpty(words: seq<Octet>, r: int, c: int)
    requires Inside(r, c)
    ensures Goal(words, VISITS, r, c) != None && Formatted(r, c, Goal(words, VISITS, r, c)) != None
  {
    if Free(r, c) { VisitedOnce(r, c, 0); }
  }

  method Draw(words: seq<Octet>) returns (g: Grid)
    ensures Shows(g, words)
  {
    var m := new Option<bool>[41, 41]((r, c) => None);
    DrawPatterns(m);
    PlaceData(m, words);
    SetFormat(m);
    g := seq(41, r requires 0 <= r < 41 reads m requires Sized(m) =>
      seq(41, c requires 0 <= c < 41 reads m requires Sized(m) => m[r, c] == Some(true)));
  }

  /** Bytes as the polynomial loops see them. */
  const BYTES: Algebra<Octet> := AlgebraOf(BYTE)

  lemma BytesAreGood()
    ensures Good(BYTES)
  {
    BytesAreAField();
    FieldIsGood(BYTE);
  }

  method ErrorWords(words: seq<Octet>, n: nat) returns (ec: seq<Octet>)
    requires n <= 512
    ensures ec == EcWords(BYTES, Generator(BYTES, n), words)
  {
    BytesAreAField();
    ec := TableWords(BYTE, words, n);
  }

  /** More than 134 bytes are refused; any other text can be read back from its symbol. */
  method Encode(data: seq<Octet>) returns (symbol: Option<Grid>)
    ensures symbol == None <==> |data| > CAPACITY
    ensures symbol.Some? ==> Square(symbol.value) && Parse(Read(symbol.value, VISITS)) == Some(data)
    ensures symbol.Some? ==> exists words ::
      Encodes(data, words) && Shows(symbol.value, words + EcWords(BYTES, Generator(BYTES, 16), words))
  {
    if |data| > CAPACITY { return None; }
    var words := Codewords(data);
    var ec := ErrorWords(words, 16);
    var g := Draw(words + ec);
    ShownIsHeld(g, words + ec);
    ReadBack(g, data, words, ec);
    symbol := Some(g);
  }

  /** The generator over bytes has exactly the first `n` powers of two as roots. */
  lemma ByteGeneratorRoots(n: nat, x: Octet)
    ensures RootsAre(BYTES, x, n, Generator(BYTES, n))
  {
    BytesAreGood();
    GeneratorRoots(BYTES, n, x);
  }

  /** The generator over bytes is monic, and its constant term is the product of its roots. */
  lemma ByteGeneratorEnds(n: nat)
    ensures EndsAre(BYTES, n, Generator(BYTES, n))
  {
    BytesAreGood();
    GeneratorEnds(BYTES, n);
  }

  /** The error-correction words of an exclusive or. */
  lemma ByteEcIsLinear(n: nat, a: seq<Octet>, b: seq<Octet>)
    requires |a| == |b|
    ensures var g := Generator(BYTES, n);
            EcWords(BYTES, g, Plus(BYTES, a, b)) == Plus(BYTES, EcWords(BYTES, g, a), EcWords(BYTES, g, b))
  {
    BytesAreGood();
    EcIsLinear(BYTES, Generator(BYTES, n), a, b);
  }

  /** One more codeword moves every error-correction word one place down and adds the generator
      times the word that leaves. */
  lemma ByteEcNext(n: nat, words: seq<Octet>, w: Octet)
    requires n > 0
    ensures EcWords(BYTES, Generator(BYTES, n), []) == Zeros(BYTES, n)
    ensures var g := Generator(BYTES, n); var e := EcWords(BYTES, g, words);
            forall k :: 0 <= k < n ==>
              EcWords(BYTES, g, words + [w])[k]
              == Xor(if k + 1 < n then e[k + 1] else ZERO, Times(BYTE, g[k + 1], Xor(e[0], w)))
  {
    BytesAreGood();
    EcOfNothing(BYTES, Generator(BYTES, n));
    EcNext(BYTES, Generator(BYTES, n), words, w);
  }

  /** One wrong codeword, wherever it is, gives other error-correction words, for any number of
      them but none. */
  lemma OneWrongCodeword(n: nat, a: seq<Octet>, b: seq<Octet>, at: nat)
    requires n > 0 && at < |a| == |b| && a[at] != b[at] && forall i :: 0 <= i < |a| && i != at ==> a[i] == b[i]
    ensures EcWords(BYTES, Generator(BYTES, n), a) != EcWords(BYTES, Generator(BYTES, n), b)
  {
    BytesAreGood();
    ByteGeneratorEnds(n);
    OneWrongWord(BYTES, Generator(BYTES, n), a, b, at);
  }

  /** Powers of two are one at the multiples of 255 and nowhere else. */
  lemma PowerIsOneIff(k: nat)
    ensures Power(BYTE, k) == ONE <==> k % BYTE.order == 0
  {
    BytesAreAField();
    var r := k % BYTE.order;
    assert r + k / BYTE.order * BYTE.order == k;
    Periodic(BYTE, BYTE.order, r, k / BYTE.order);
    if r > 0 { PowersDiffer(BYTE, 0, r); }
  }

  /** In bytes, a division step clears a word that is not zero exactly when the sum of the
      exponents of the generator's roots is a multiple of 255. */
  lemma ClearedIff(r: seq<Octet>, i: nat, n: nat)
    requires i < |r| && r[i] != ZERO
    ensures Step(BYTES, Generator(BYTES, n), r, i)[i] == ZERO <==> Below(n) % 255 == 0
  {
    BytesAreGood();
    ByteGeneratorEnds(n);
    PowerIsOneIff(Below(n));
    StepClearsIff(BYTES, Generator(BYTES, n), r, i);
  }

  /** So with the encoder's 16 words none is ever cleared. */
  lemma SixteenWords()
    ensures Below(16) == 120 && Below(16) % 255 != 0
  {
    assert Below(4) == 6;
    assert Below(8) == 28;
    assert Below(12) == 66;
  }
}
