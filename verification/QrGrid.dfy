/** The 41 by 41 symbol: which cells the function patterns take, the zigzag path through
    the others, and reading a finished symbol back along that path. */
module QrGrid {
  import opened Wrappers
  import opened Bytes
  import opened QrBits

  const PAIRS: nat := 20

  const VISITS: nat := 82 * PAIRS

  predicate InFinder(r: int, c: int, row: int, col: int) { row - 1 <= r <= row + 7 && col - 1 <= c <= col + 7 }

  /** Finder pattern and its white border, seen from the finder's corner. */
  predicate FinderOn(r: int, c: int) {
    || (0 <= r <= 6 && (c == 0 || c == 6))
    || (0 <= c <= 6 && (r == 0 || r == 6))
    || (2 <= r <= 4 && 2 <= c <= 4)
  }

  function Finders(r: int, c: int): Option<bool> {
    if InFinder(r, c, 0, 0) then Some(FinderOn(r, c))
    else if InFinder(r, c, 0, 34) then Some(FinderOn(r, c - 34))
    else if InFinder(r, c, 34, 0) then Some(FinderOn(r - 34, c))
    else None
  }

  predicate InAlignment(r: int, c: int) { 32 <= r <= 36 && 32 <= c <= 36 }

  predicate InRing(r: int, c: int) { 33 <= r <= 35 && 33 <= c <= 35 && (r, c) != (34, 34) }

  function WithAlignment(r: int, c: int): Option<bool> {
    if InAlignment(r, c) then Some(!InRing(r, c)) else Finders(r, c)
  }

  function WithTiming(r: int, c: int): Option<bool> {
    if r == 6 && 8 <= c < 33 then Some(c % 2 == 0)
    else if c == 6 && 8 <= r < 33 then Some(r % 2 == 0)
    else WithAlignment(r, c)
  }

  function WithDark(r: int, c: int): Option<bool> { if (r, c) == (33, 8) then Some(true) else WithTiming(r, c) }

  predicate FormatArea(r: int, c: int) {
    (r == 8 && (0 <= c < 9 || 33 <= c < 41)) || (c == 8 && (0 <= r < 9 || 33 <= r < 41))
  }

  /** The symbol before any data. */
  function Fixed(r: int, c: int): Option<bool> {
    if WithDark(r, c) == None && FormatArea(r, c) then Some(false) else WithDark(r, c)
  }

  predicate Free(r: int, c: int) { Fixed(r, c) == None }

  predicate Inside(r: int, c: int) { 0 <= r < 41 && 0 <= c < 41 }

  /* ---- the path: pairs of columns from the right, up and down in turn, skipping column 6 ---- */

  function RowOf(p: int, i: int): int { if p % 2 == 0 then 40 - i else i }

  function ColumnOf(p: int, side: int): int { (if p < 17 then 40 - 2 * p else 39 - 2 * p) - side }

  function VisitRow(k: nat): int { RowOf(k / 82, k % 82 / 2) }

  function VisitColumn(k: nat): int { ColumnOf(k / 82, k % 2) }

  function FromRight(c: int): int { if c > 6 then 40 - c else 39 - c }

  /** When the path comes to a cell. */
  function Index(r: int, c: int): int {
    var p := FromRight(c) / 2;
    82 * p + 2 * RowOf(p, r) + FromRight(c) % 2
  }

  function Counted(f: nat -> bool, k: nat): nat { if k == 0 then 0 else Counted(f, k - 1) + Digit(f(k - 1)) }

  const MEETS_FREE: nat -> bool := (k: nat) => Free(VisitRow(k), VisitColumn(k))

  /** How many free cells the first `k` visits meet. */
  function Rank(k: nat): nat { Counted(MEETS_FREE, k) }

  function Visit(p: int, i: int, side: int): int { 82 * p + 2 * i + side }

  lemma VisitParts(p: nat, i: nat, side: nat)
    requires p < PAIRS && i < 41 && side < 2
    ensures 0 <= Visit(p, i, side) < VISITS
    ensures VisitRow(Visit(p, i, side)) == RowOf(p, i) && VisitColumn(Visit(p, i, side)) == ColumnOf(p, side)
  {
    var k := Visit(p, i, side);
    assert k / 82 == p && k % 82 == 2 * i + side;
    assert k % 2 == side && k % 82 / 2 == i;
  }

  lemma VisitOfCell(p: nat, i: nat, side: nat)
    requires p < PAIRS && i < 41 && side < 2
    ensures Inside(RowOf(p, i), ColumnOf(p, side)) && ColumnOf(p, side) != 6
    ensures Index(RowOf(p, i), ColumnOf(p, side)) == Visit(p, i, side)
  {
    var c := ColumnOf(p, side);
    assert FromRight(c) == 2 * p + side;
  }

  lemma CellOfVisit(k: nat)
    requires k < VISITS
    ensures Inside(VisitRow(k), VisitColumn(k)) && VisitColumn(k) != 6
    ensures Index(VisitRow(k), VisitColumn(k)) == k
  {
    VisitOfCell(k / 82, k % 82 / 2, k % 2);
  }

  lemma ColumnSixIsTaken(r: int, c: int)
    requires Inside(r, c) && Free(r, c)
    ensures c != 6
  {
  }

  /** The path comes to every free cell, once. */
  lemma VisitedOnce(r: int, c: int, k: nat)
    requires Inside(r, c) && Free(r, c) && k < VISITS
    ensures 0 <= Index(r, c) < VISITS
    ensures (VisitRow(k) == r && VisitColumn(k) == c) <==> k == Index(r, c)
  {
    ColumnSixIsTaken(r, c);
    CellOfVisit(k);
    var p, side := FromRight(c) / 2, FromRight(c) % 2;
    VisitParts(p, RowOf(p, r), side);
  }

  /* ---- what the data cells hold ---- */

  function BitAt(words: seq<Octet>, n: nat): bool { n < 8 * |words| && Flat(words)[n] }

  predicate Mask(r: int, c: int) { (r + c) % 2 == 0 }

  function Placed(words: seq<Octet>, r: int, c: int): bool {
    Index(r, c) >= 0 && BitAt(words, Rank(Index(r, c))) != Mask(r, c)
  }

  type Grid = seq<seq<bool>>

  predicate Square(g: Grid) { |g| == 41 && forall r :: 0 <= r < 41 ==> |g[r]| == 41 }

  /** Reading along the path, unmasking the free cells. */
  function Read(g: Grid, k: nat): seq<bool>
    requires Square(g) && k <= VISITS
  {
    if k == 0 then [] else
    CellOfVisit(k - 1);
    var r, c := VisitRow(k - 1), VisitColumn(k - 1);
    Read(g, k - 1) + if Free(r, c) then [g[r][c] != Mask(r, c)] else []
  }

  ghost predicate Holds(g: Grid, words: seq<Octet>) {
    Square(g) && forall r, c {:trigger g[r][c]} :: Inside(r, c) && Free(r, c) ==> g[r][c] == Placed(words, r, c)
  }

  lemma PlacedOnVisit(words: seq<Octet>, k: nat, r: int, c: int)
    requires k < VISITS && r == VisitRow(k) && c == VisitColumn(k)
    ensures Placed(words, r, c) == (BitAt(words, Rank(k)) != Mask(r, c))
  {
    CellOfVisit(k);
  }

  lemma ReadStep(g: Grid, words: seq<Octet>, k: nat)
    requires Holds(g, words) && k < VISITS
    ensures Rank(k) <= Rank(k + 1) <= Rank(k) + 1
    ensures Read(g, k + 1) == Read(g, k) + if Rank(k + 1) > Rank(k) then [BitAt(words, Rank(k))] else []
  {
    CellOfVisit(k);
    PlacedOnVisit(words, k, VisitRow(k), VisitColumn(k));
  }

  function Bits(words: seq<Octet>, n: nat): seq<bool> { seq(n, i requires 0 <= i < n => BitAt(words, i)) }

  ghost predicate ReadSoFar(g: Grid, words: seq<Octet>, k: nat) {
    Square(g) && k <= VISITS && Read(g, k) == Bits(words, Rank(k))
  }

  lemma MoreBits(words: seq<Octet>, n: nat, m: nat, a: seq<bool>, b: seq<bool>)
    requires a == Bits(words, n) && b == a + (if m > n then [BitAt(words, n)] else []) && n <= m <= n + 1
    ensures b == Bits(words, m)
  {
  }

  lemma ReadMore(g: Grid, words: seq<Octet>, k: nat)
    requires Holds(g, words) && k < VISITS && ReadSoFar(g, words, k)
    ensures ReadSoFar(g, words, k + 1)
  {
    ReadStep(g, words, k);
    MoreBits(words, Rank(k), Rank(k + 1), Read(g, k), Read(g, k + 1));
  }

  lemma {:induction false} AlongPath(inv: nat -> bool, k: nat)
    requires inv(0) && (forall j :: 0 <= j < VISITS && inv(j) ==> inv(j + 1)) && k <= VISITS
    ensures inv(k)
    decreases k
  {
    if k > 0 { AlongPath(inv, k - 1); }
  }

  lemma ReadGivesBits(g: Grid, words: seq<Octet>, k: nat)
    requires Holds(g, words) && k <= VISITS
    ensures Read(g, k) == Bits(words, Rank(k))
  {
    forall j | 0 <= j < VISITS && ReadSoFar(g, words, j) ensures ReadSoFar(g, words, j + 1) {
      ReadMore(g, words, j);
    }
    AlongPath((j: nat) => ReadSoFar(g, words, j), k);
  }

  /* ---- there are 1383 free cells ---- */

  predicate FreeAt(p: int, i: int, side: int) { Free(RowOf(p, i), ColumnOf(p, side)) }

  ghost predicate Meets(f: nat -> bool) {
    forall p: nat, i: nat, side: nat {:trigger Visit(p, i, side)} ::
      p < PAIRS && i < 41 && side < 2 ==> f(Visit(p, i, side)) == FreeAt(p, i, side)
  }

  lemma PathMeets()
    ensures Meets(MEETS_FREE)
  {
    forall p: nat, i: nat, side: nat | p < PAIRS && i < 41 && side < 2
      ensures MEETS_FREE(Visit(p, i, side)) == FreeAt(p, i, side)
    {
      VisitParts(p, i, side);
    }
  }

  /** The free cells of a pair of columns in the row the path comes to as its `i`th. */
  function Width(p: nat, i: nat): nat { Digit(FreeAt(p, i, 0)) + Digit(FreeAt(p, i, 1)) }

  /** The free cells met before that row. */
  function Before(f: nat -> bool, p: nat): nat -> nat { (i: nat) => Counted(f, 82 * p + 2 * i) }

  ghost predicate Sums(at: nat -> nat, w: nat -> nat) {
    forall i: nat {:trigger w(i)} :: i < 41 ==> at(i + 1) == at(i) + w(i)
  }

  lemma RowCounted(f: nat -> bool, p: nat, i: nat)
    requires Meets(f) && p < PAIRS && i < 41
    ensures Counted(f, 82 * p + 2 * (i + 1)) == Counted(f, 82 * p + 2 * i) + Width(p, i)
  {
    assert f(Visit(p, i, 0)) == FreeAt(p, i, 0) && f(Visit(p, i, 1)) == FreeAt(p, i, 1);
  }

  lemma PairSums(f: nat -> bool, p: nat)
    requires Meets(f) && p < PAIRS
    ensures Sums(Before(f, p), (i: nat) => Width(p, i))
  {
    forall i: nat | i < 41 ensures Before(f, p)(i + 1) == Before(f, p)(i) + Width(p, i) { RowSum(f, p, i); }
  }

  lemma RowSum(f: nat -> bool, p: nat, i: nat)
    requires Meets(f) && p < PAIRS && i < 41
    ensures Before(f, p)(i + 1) == Before(f, p)(i) + Width(p, i)
  {
    RowCounted(f, p, i);
  }

  lemma {:induction false} Stretch(at: nat -> nat, w: nat -> nat, i: nat, n: nat, v: nat)
    requires Sums(at, w) && i + n <= 41 && forall j: nat :: i <= j < i + n ==> w(j) == v
    ensures at(i + n) == at(i) + n * v
    decreases n
  {
    if n > 0 {
      Stretch(at, w, i, n - 1, v);
      assert w(i + n - 1) == v;
      assert n * v == (n - 1) * v + v;
    }
  }

  /** All the free cells are in two stretches of whole rows. */
  ghost predicate TwoRuns(w: nat -> nat, a: nat, n: nat, b: nat, m: nat) {
    a + n <= b && b + m <= 41 && forall i: nat :: i < 41 ==> w(i) == if a <= i < a + n || b <= i < b + m then 2 else 0
  }

  lemma TwoRunsCount(at: nat -> nat, w: nat -> nat, a: nat, n: nat, b: nat, m: nat)
    requires Sums(at, w) && TwoRuns(w, a, n, b, m)
    ensures at(41) == at(0) + 2 * n + 2 * m
  {
    Stretch(at, w, 0, a, 0);
    Stretch(at, w, a, n, 2);
    Stretch(at, w, a + n, b - a - n, 0);
    Stretch(at, w, b, m, 2);
    Stretch(at, w, b + m, 41 - b - m, 0);
  }

  lemma AlignmentCount(at: nat -> nat, w: nat -> nat)
    requires Sums(at, w)
    requires forall i: nat :: i < 41 ==> w(i) == if i == 34 then 0 else if 4 <= i <= 8 then 1 else 2
    ensures at(41) == at(0) + 75
  {
    Stretch(at, w, 0, 4, 2);
    Stretch(at, w, 4, 5, 1);
    Stretch(at, w, 9, 25, 2);
    Stretch(at, w, 34, 1, 0);
    Stretch(at, w, 35, 6, 2);
  }

  predicate RightRow(p: int, r: int) { r >= 9 && (p < 2 || r < 32 || r > 36) }

  lemma RightColumns(p: int, r: int, c: int)
    requires 0 <= p < 4 && 0 <= r < 41 && (c == ColumnOf(p, 0) || c == ColumnOf(p, 1))
    ensures Free(r, c) <==> RightRow(p, r)
  {
  }

  lemma AlignmentColumns(r: int, c: int)
    requires 0 <= r < 41 && (c == 31 || c == 32)
    ensures Free(r, c) <==> r != 6 && (c == 31 || r < 32 || r > 36)
  {
  }

  lemma MiddleColumns(r: int, c: int)
    requires 0 <= r < 41 && 9 <= c <= 30
    ensures Free(r, c) <==> r != 6
  {
  }

  lemma LeftColumns(r: int, c: int)
    requires 0 <= r < 41 && 0 <= c <= 8 && c != 6
    ensures Free(r, c) <==> 9 <= r < 33
  {
  }

  lemma RightWidths(p: nat)
    requires p < 4
    ensures forall i: nat {:trigger Width(p, i)} :: i < 41 ==> Width(p, i) == if RightRow(p, RowOf(p, i)) then 2 else 0
  {
    forall i: nat | i < 41 ensures Width(p, i) == if RightRow(p, RowOf(p, i)) then 2 else 0 {
      RightColumns(p, RowOf(p, i), ColumnOf(p, 0));
      RightColumns(p, RowOf(p, i), ColumnOf(p, 1));
    }
  }

  lemma RightPair(f: nat -> bool, p: nat)
    requires Meets(f) && p < 4
    ensures Before(f, p)(41) == Before(f, p)(0) + PairCells(p)
  {
    var w := (i: nat) => Width(p, i);
    PairSums(f, p);
    RightWidths(p);
    if p == 0 { TwoRunsCount(Before(f, p), w, 0, 32, 41, 0); }
    else if p == 1 { TwoRunsCount(Before(f, p), w, 0, 0, 9, 32); }
    else if p == 2 { TwoRunsCount(Before(f, p), w, 0, 4, 9, 23); }
    else { TwoRunsCount(Before(f, p), w, 9, 23, 37, 4); }
  }

  lemma AlignmentPair(f: nat -> bool, p: nat)
    requires Meets(f) && p == 4
    ensures Before(f, p)(41) == Before(f, p)(0) + PairCells(p)
  {
    var w := (i: nat) => Width(p, i);
    PairSums(f, p);
    forall i: nat | i < 41 ensures w(i) == if i == 34 then 0 else if 4 <= i <= 8 then 1 else 2 {
      AlignmentColumns(40 - i, 32);
      AlignmentColumns(40 - i, 31);
    }
    AlignmentCount(Before(f, p), w);
  }

  lemma MiddlePair(f: nat -> bool, p: nat)
    requires Meets(f) && 5 <= p < 16
    ensures Before(f, p)(41) == Before(f, p)(0) + PairCells(p)
  {
    var w := (i: nat) => Width(p, i);
    var six := RowOf(p, 6);
    PairSums(f, p);
    forall i: nat | i < 41 ensures w(i) == if i == six then 0 else 2 {
      MiddleColumns(RowOf(p, i), ColumnOf(p, 0));
      MiddleColumns(RowOf(p, i), ColumnOf(p, 1));
    }
    TwoRunsCount(Before(f, p), w, 0, six, six + 1, 40 - six);
  }

  lemma LeftPair(f: nat -> bool, p: nat)
    requires Meets(f) && 16 <= p < PAIRS
    ensures Before(f, p)(41) == Before(f, p)(0) + PairCells(p)
  {
    var w := (i: nat) => Width(p, i);
    var first := if p % 2 == 0 then 8 else 9;
    PairSums(f, p);
    forall i: nat | i < 41 ensures w(i) == if first <= i < first + 24 then 2 else 0 {
      LeftColumns(RowOf(p, i), ColumnOf(p, 0));
      LeftColumns(RowOf(p, i), ColumnOf(p, 1));
    }
    TwoRunsCount(Before(f, p), w, first, 24, 41, 0);
  }

  /** The free cells of a pair of columns. */
  function PairCells(p: nat): nat {
    if p < 2 then 64 else if p < 4 then 54 else if p == 4 then 75 else if p < 16 then 80 else 48
  }

  function FreeBefore(p: nat): nat { if p == 0 then 0 else FreeBefore(p - 1) + PairCells(p - 1) }

  lemma PairCount(f: nat -> bool, p: nat)
    requires Meets(f) && p < PAIRS
    ensures Before(f, p)(41) == Before(f, p)(0) + PairCells(p)
  {
    if p < 4 { RightPair(f, p); } else if p == 4 { AlignmentPair(f, p); }
    else if p < 16 { MiddlePair(f, p); } else { LeftPair(f, p); }
  }

  lemma {:induction false} PairsCount(f: nat -> bool, p: nat)
    requires Meets(f) && p <= PAIRS
    ensures Counted(f, 82 * p) == FreeBefore(p)
    decreases p
  {
    if p > 0 {
      PairsCount(f, p - 1);
      PairCount(f, p - 1);
    }
  }

  lemma AllPairs()
    ensures FreeBefore(PAIRS) == 1383
  {
    assert FreeBefore(5) == 311;
    assert FreeBefore(10) == 711;
    assert FreeBefore(16) == 1191;
  }

  /** The path meets 1383 free cells: 1216 for the 152 codewords, 167 left over. */
  lemma FreeCells()
    ensures Rank(VISITS) == 1383
  {
    PathMeets();
    PairsCount(MEETS_FREE, PAIRS);
    AllPairs();
  }

  /** A symbol whose free cells hold the codewords reads back as the data they encode. */
  lemma ReadBack(g: Grid, data: seq<Octet>, words: seq<Octet>, ec: seq<Octet>)
    requires Encodes(data, words) && |ec| == 16 && Holds(g, words + ec)
    ensures Parse(Read(g, VISITS)) == Some(data)
  {
    ReadGivesBits(g, words + ec, VISITS);
    FreeCells();
    var bits := Read(g, VISITS);
    assert Flat(words) <= bits by {
      forall n | 0 <= n < 8 * |words| ensures bits[n] == Flat(words)[n] {
        assert bits[n] == BitAt(words + ec, n);
        assert (words + ec)[n / 8] == words[n / 8];
      }
    }
    ParseEncoded(data, words, bits);
  }
}
