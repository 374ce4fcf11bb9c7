/** Numbers in text: `toString(base)`, `padStart`, and reading them back. */
module NumberText {
  import opened Arithmetic

  function DigitChar(d: nat): char
    requires d < 36
  {
    if d < 10 then '0' + d as char else 'a' + (d - 10) as char
  }

  function DigitOf(c: char): int { if c <= '9' then c as int - '0' as int else c as int - 'a' as int + 10 }

  /** `toString(base)` */
  function ToText(n: nat, base: nat): string
    requires 2 <= base <= 36
  {
    if n < base then [DigitChar(n)] else
    QuotientSmaller(n, base);
    ToText(n / base, base) + [DigitChar(n % base)]
  }

  function FromText(s: string, base: nat): int {
    if s == [] then 0 else FromText(s[..|s| - 1], base) * base + DigitOf(s[|s| - 1])
  }

  function PadStart(s: string, n: nat): string { if |s| >= n then s else seq(n - |s|, _ => '0') + s }

  lemma {:induction false} TextReads(n: nat, base: nat)
    requires 2 <= base <= 36
    ensures FromText(ToText(n, base), base) == n
    decreases n
  {
    if n < base {
      ReadMore([], base, DigitChar(n));
    } else {
      QuotientSmaller(n, base);
      var front, q, d := ToText(n / base, base), n / base, n % base;
      TextReads(q, base);
      ReadMore(front, base, DigitChar(d));
      assert ToText(n, base) == front + [DigitChar(d)];
      Remainder(n, base);
    }
  }

  lemma ReadMore(s: string, base: nat, c: char)
    ensures FromText(s + [c], base) == FromText(s, base) * base + DigitOf(c)
  {
    assert (s + [c])[..|s|] == s;
  }

  lemma {:induction false} PaddedReads(s: string, n: nat, base: nat)
    ensures FromText(seq(n, _ => '0') + s, base) == FromText(s, base)
    decreases |s| + n
  {
    var z := seq(n, _ => '0');
    if s != [] {
      PaddedReads(s[..|s| - 1], n, base);
      assert (z + s)[..n + |s| - 1] == z + s[..|s| - 1];
    } else if n > 0 {
      PaddedReads(s, n - 1, base);
      assert z + s == z;
      assert z[..n - 1] == seq(n - 1, _ => '0') + s;
      ZeroTail(z, base);
    } else {
      assert z + s == s;
    }
  }

  lemma ZeroTail(z: string, base: nat)
    requires z != [] && z[|z| - 1] == '0' && FromText(z[..|z| - 1], base) == 0
    ensures FromText(z, base) == 0
  {
  }

  lemma {:induction false} TextLength(n: nat, digits: nat)
    requires digits > 0 && n < Places(4 * digits)
    ensures |ToText(n, 16)| <= digits
    ensures forall i :: 0 <= i < |ToText(n, 16)| ==> Hex(ToText(n, 16)[i])
    decreases digits
  {
    if n >= 16 {
      assert Places(4 * digits) == 16 * Places(4 * (digits - 1)) by {
        var k := 4 * (digits - 1);
        assert Places(k + 2) == 2 * Places(k + 1) && Places(k + 4) == 2 * Places(k + 3);
      }
      assert digits > 1;
      TextLength(n / 16, digits - 1);
    }
  }

  predicate Hex(c: char) { '0' <= c <= '9' || 'a' <= c <= 'f' }
}
