/** `formatTotal`: an amount in minor units, as text for the screen. */
module Money {
  import opened NumberText

  const MINUS: char := '\U{2212}'

  const SPACE: char := ' '

  /** The decimal text of an integer. */
  function Decimal(n: int): string { if n < 0 then "-" + ToText(-n, 10) else ToText(n, 10) }

  /** A separator goes wherever a positive multiple of three digits remains. */
  function Separated(w: string, i: nat): string
    requires i <= |w|
    decreases |w| - i
  {
    if i == |w| then []
    else (if i > 0 && (|w| - i) % 3 == 0 then [SPACE, w[i]] else [w[i]]) + Separated(w, i + 1)
  }

  function FormatTotal(minor: string): string {
    var negative := "-" <= minor;
    var digits := PadStart(if negative then minor[1..] else minor, 3);
    var n := |digits| - 2;
    (if negative then [MINUS] else []) + Separated(digits[..n], 0) + "," + digits[n..]
  }

  /* ---- reading it back ---- */

  function Dropped(s: string): string {
    if s == [] then [] else (if s[0] == SPACE then [] else [s[0]]) + Dropped(s[1..])
  }

  /** Sign, separators and comma removed, the amount in minor units. */
  function Amount(s: string): int {
    if s != [] && s[0] == MINUS then -FromText(Digits(s[1..]), 10) else FromText(Digits(s), 10)
  }

  function Digits(s: string): string {
    if |s| < 3 then s else Dropped(s[..|s| - 3]) + s[|s| - 2..]
  }

  predicate Digit(c: char) { '0' <= c <= '9' }

  predicate AllDigits(s: string) { forall i :: 0 <= i < |s| ==> Digit(s[i]) }

  /** Groups of three digits, each after a separator. */
  predicate Threes(s: string) {
    s == [] || (|s| >= 4 && s[0] == SPACE && AllDigits(s[1..4]) && Threes(s[4..]))
  }

  /** One to three digits, then groups of three. */
  ghost predicate Grouped(s: string) { exists a, b :: s == a + b && 1 <= |a| <= 3 && AllDigits(a) && Threes(b) }

  lemma {:induction false} DecimalDigits(n: nat)
    ensures |ToText(n, 10)| > 0 && AllDigits(ToText(n, 10))
  {
    if n >= 10 { DecimalDigits(n / 10); }
  }

  lemma {:induction false} DroppedSeparated(w: string, i: nat)
    requires i <= |w| && AllDigits(w)
    ensures Dropped(Separated(w, i)) == w[i..]
    decreases |w| - i
  {
    if i < |w| {
      DroppedSeparated(w, i + 1);
      var rest := Separated(w, i + 1);
      assert Digit(w[i]);
      DropOne(w[i], rest);
      if i > 0 && (|w| - i) % 3 == 0 {
        assert ([SPACE, w[i]] + rest)[1..] == [w[i]] + rest;
      }
    }
  }

  lemma DropOne(c: char, rest: string)
    requires Digit(c)
    ensures Dropped([c] + rest) == [c] + Dropped(rest)
  {
    assert ([c] + rest)[1..] == rest;
  }

  lemma {:induction false} ThreesFrom(w: string, i: nat)
    requires 0 < i <= |w| && (|w| - i) % 3 == 0 && AllDigits(w)
    ensures Threes(Separated(w, i))
    decreases |w| - i
  {
    if i < |w| {
      ThreesFrom(w, i + 3);
      OneGroup(w, i);
      MoreThrees([SPACE, w[i], w[i + 1], w[i + 2]], Separated(w, i + 3));
    }
  }

  lemma OneGroup(w: string, i: nat)
    requires 0 < i && i + 3 <= |w| && (|w| - i) % 3 == 0
    ensures Separated(w, i) == [SPACE, w[i], w[i + 1], w[i + 2]] + Separated(w, i + 3)
  {
    NoSeparator(w, i + 2);
    NoSeparator(w, i + 1);
    assert Separated(w, i) == [SPACE, w[i]] + Separated(w, i + 1);
  }

  lemma MoreThrees(group: string, rest: string)
    requires |group| == 4 && group[0] == SPACE && Digit(group[1]) && Digit(group[2]) && Digit(group[3]) && Threes(rest)
    ensures Threes(group + rest)
  {
    assert (group + rest)[4..] == rest && (group + rest)[1..4] == group[1..4];
  }

  lemma SeparatedIsGrouped(w: string, k: nat)
    requires 1 <= k <= 3 && k <= |w| && (|w| - k) % 3 == 0 && AllDigits(w)
    ensures Grouped(Separated(w, 0))
  {
    FirstGroup(w, k);
    ThreesFrom(w, k);
  }

  lemma FirstGroup(w: string, k: nat)
    requires 1 <= k <= 3 && k <= |w| && (|w| - k) % 3 == 0
    ensures Separated(w, 0) == w[..k] + Separated(w, k)
  {
    NoSeparator(w, 0);
    if k >= 2 { NoSeparator(w, 1); }
    if k == 3 { NoSeparator(w, 2); }
  }

  lemma NoSeparator(w: string, i: nat)
    requires i < |w| && (i == 0 || (|w| - i) % 3 != 0)
    ensures Separated(w, i) == [w[i]] + Separated(w, i + 1)
  {
  }

  lemma Padded(n: nat) returns (d: string)
    ensures d == PadStart(ToText(n, 10), 3) && |d| >= 3 && AllDigits(d) && FromText(d, 10) == n
  {
    var t := ToText(n, 10);
    d := PadStart(t, 3);
    DecimalDigits(n);
    TextReads(n, 10);
    if |t| < 3 { PaddedReads(t, 3 - |t|, 10); }
  }

  /** The shape of the text: sign, grouped whole part, comma, two digits. */
  ghost predicate Shaped(s: string, negative: bool) {
    exists whole, cents ::
      && s == (if negative then [MINUS] else []) + whole + "," + cents
      && Grouped(whole) && |cents| == 2 && AllDigits(cents)
  }

  lemma WholePart(w: string)
    requires |w| > 0 && AllDigits(w)
    ensures var s := Separated(w, 0); Grouped(s) && Dropped(s) == w && |s| > 0 && s[0] == w[0]
  {
    SeparatedIsGrouped(w, if |w| % 3 == 0 then 3 else |w| % 3);
    DroppedSeparated(w, 0);
  }

  lemma ShapeOf(sign: string, whole: string, cents: string, negative: bool)
    requires Grouped(whole) && |cents| == 2 && AllDigits(cents) && sign == if negative then [MINUS] else []
    ensures Shaped(sign + (whole + "," + cents), negative)
  {
    assert sign + (whole + "," + cents) == sign + whole + "," + cents;
  }

  lemma DigitsOf(whole: string, cents: string)
    requires |cents| == 2
    ensures Digits(whole + "," + cents) == Dropped(whole) + cents
  {
    var body := whole + "," + cents;
    assert body[..|body| - 3] == whole && body[|body| - 2..] == cents;
  }

  lemma FormatsDigits(d: string, negative: bool)
    requires |d| >= 3 && AllDigits(d)
    ensures var body := Separated(d[..|d| - 2], 0) + "," + d[|d| - 2..];
            && Shaped((if negative then [MINUS] else []) + body, negative)
            && Digits(body) == d && |body| > 0 && body[0] != MINUS
  {
    var n := |d| - 2;
    WholePart(d[..n]);
    assert Digit(d[..n][0]);
    var whole, cents := Separated(d[..n], 0), d[n..];
    DigitsOf(whole, cents);
    ShapeOf(if negative then [MINUS] else [], whole, cents, negative);
    assert d[..n] + d[n..] == d;
  }

  lemma SplitText(minor: string, d: string, negative: bool)
    requires |d| >= 3 && negative == ("-" <= minor) && d == PadStart(if negative then minor[1..] else minor, 3)
    ensures FormatTotal(minor) == (if negative then [MINUS] else []) + (Separated(d[..|d| - 2], 0) + "," + d[|d| - 2..])
  {
  }

  /** Every amount can be read back from its text, which has two fraction digits and groups
      of three after a first group of one to three. */
  lemma FormatReads(n: int)
    ensures Amount(FormatTotal(Decimal(n))) == n && Shaped(FormatTotal(Decimal(n)), n < 0)
  {
    var m: nat := if n < 0 then -n else n;
    var d := Padded(m);
    DecimalDigits(m);
    if n >= 0 { assert Digit(ToText(m, 10)[0]); }
    SplitText(Decimal(n), d, n < 0);
    FormatsDigits(d, n < 0);
    var body := Separated(d[..|d| - 2], 0) + "," + d[|d| - 2..];
    assert n < 0 ==> ([MINUS] + body)[1..] == body;
    assert [] + body == body;
  }
}
