/** The error-correction words as a shift register: what one more data word does to them, and
    that no single wrong word goes unnoticed. */
module ShiftRegister {
  import opened Algebras
  import opened Polynomial

  lemma Swap<T(!new)>(o: Algebra<T>, a: T, w: T, x: T)
    requires Good(o)
    ensures o.add(o.add(a, w), x) == o.add(o.add(a, x), w)
  {
    assert Regroups(o, a, w, x, o.zero);
  }

  lemma AddCommutes<T(!new)>(o: Algebra<T>, a: T, b: T)
    requires Good(o)
    ensures o.add(a, b) == o.add(b, a)
  {
    assert Regroups(o, o.zero, a, b, o.zero);
  }

  lemma AddCancels<T(!new)>(o: Algebra<T>, a: T, b: T, x: T)
    requires Good(o) && o.add(a, x) == o.add(b, x)
    ensures a == b
  {
    assert Cancels(o, o.add(a, x), o.add(b, x));
    assert Regroups(o, a, x, b, x);
    assert Cancels(o, x, x);
    assert Cancels(o, a, b);
  }

  lemma MulCancels<T(!new)>(o: Algebra<T>, c: T, a: T, b: T)
    requires Good(o) && c != o.zero && o.mul(c, a) == o.mul(c, b)
    ensures a == b
  {
    assert Distributes(o, a, b, c);
    assert Cancels(o, o.mul(c, a), o.mul(c, b));
    assert Domain(o, c, o.add(a, b));
    assert Cancels(o, a, b);
  }

  /* ---- one more word ---- */

  /** `q` is `p` with `w` added at position `d` and a zero more at the end. */
  ghost predicate Extends<T>(o: Algebra<T>, p: seq<T>, q: seq<T>, d: nat, w: T) {
    && d < |p| && |q| == |p| + 1 && q[|p|] == o.zero
    && forall k :: 0 <= k < |p| ==> q[k] == if k == d then o.add(p[k], w) else p[k]
  }

  lemma StepExtends<T(!new)>(o: Algebra<T>, g: seq<T>, p: seq<T>, q: seq<T>, d: nat, w: T, i: nat)
    requires Good(o) && Extends(o, p, q, d, w) && i < d && i + |g| <= |p|
    ensures Extends(o, Step(o, g, p, i), Step(o, g, q, i), d, w)
  {
    if d < i + |g| { Swap(o, p[d], w, o.mul(g[d - i], p[i])); }
  }

  /** What every step keeps of two divisions side by side. */
  lemma {:induction false} ReducedExtends<T(!new)>(o: Algebra<T>, g: seq<T>, p: seq<T>, q: seq<T>, d: nat, w: T, m: nat)
    requires Good(o) && Extends(o, p, q, d, w) && m <= d && d + |g| <= |p| + 1
    ensures Extends(o, Reduced(o, g, p, m), Reduced(o, g, q, m), d, w)
    decreases m
  {
    if m > 0 {
      ReducedExtends(o, g, p, q, d, w, m - 1);
      StepExtends(o, g, Reduced(o, g, p, m - 1), Reduced(o, g, q, m - 1), d, w, m - 1);
    }
  }

  lemma PaddedExtends<T(!new)>(o: Algebra<T>, data: seq<T>, w: T, n: nat)
    requires Good(o) && n > 0
    ensures Extends(o, data + Zeros(o, n), data + [w] + Zeros(o, n), |data|, w)
  {
  }

  lemma LastStep<T(!new)>(o: Algebra<T>, g: seq<T>, p: seq<T>, q: seq<T>, d: nat, w: T)
    requires Extends(o, p, q, d, w) && |g| > 1 && |p| == d + |g| - 1
    ensures var e, r := p[d..], Step(o, g, q, d)[d + 1..];
            && |e| == |r| == |g| - 1
            && forall k :: 0 <= k < |g| - 1 ==>
                 r[k] == o.add(if k + 1 < |g| - 1 then e[k + 1] else o.zero, o.mul(g[k + 1], o.add(e[0], w)))
  {
  }

  /** Without data there are only zeros. */
  lemma EcOfNothing<T(!new)>(o: Algebra<T>, g: seq<T>)
    requires |g| > 0
    ensures EcWords(o, g, []) == Zeros(o, |g| - 1)
  {
    assert [] + Zeros(o, |g| - 1) == Zeros(o, |g| - 1);
  }

  /** One more data word moves every word one place down and adds the generator times the word
      that leaves, which is the first one plus the new data. */
  lemma EcNext<T(!new)>(o: Algebra<T>, g: seq<T>, data: seq<T>, w: T)
    requires Good(o) && |g| > 1
    ensures var e, n := EcWords(o, g, data), |g| - 1;
            forall k :: 0 <= k < n ==>
              EcWords(o, g, data + [w])[k]
              == o.add(if k + 1 < n then e[k + 1] else o.zero, o.mul(g[k + 1], o.add(e[0], w)))
  {
    var n, d := |g| - 1, |data|;
    var p, q := data + Zeros(o, n), data + [w] + Zeros(o, n);
    PaddedExtends(o, data, w, n);
    ReducedExtends(o, g, p, q, d, w, d);
    LastStep(o, g, Reduced(o, g, p, d), Reduced(o, g, q, d), d, w);
  }

  /* ---- what follows ---- */

  lemma {:induction false} EcOfZeros<T(!new)>(o: Algebra<T>, g: seq<T>, m: nat)
    requires Good(o) && |g| > 1
    ensures EcWords(o, g, Zeros(o, m)) == Zeros(o, |g| - 1)
    decreases m
  {
    if m == 0 {
      EcOfNothing(o, g);
      assert Zeros(o, 0) == [];
    } else {
      EcOfZeros(o, g, m - 1);
      EcNext(o, g, Zeros(o, m - 1), o.zero);
      assert Zeros(o, m) == Zeros(o, m - 1) + [o.zero];
    }
  }

  /** A single one in the last place gives the generator itself, but for its first coefficient. */
  lemma EcOfLastOne<T(!new)>(o: Algebra<T>, g: seq<T>, m: nat)
    requires Good(o) && |g| > 1
    ensures EcWords(o, g, Zeros(o, m) + [o.one]) == g[1..]
  {
    EcOfZeros(o, g, m);
    EcNext(o, g, Zeros(o, m), o.one);
  }

  /** With a generator whose last coefficient is not zero, the words tell what went in last ... */
  lemma LastWordShows<T(!new)>(o: Algebra<T>, g: seq<T>, data: seq<T>, v: T, w: T)
    requires Good(o) && |g| > 1 && g[|g| - 1] != o.zero
    requires EcWords(o, g, data + [v]) == EcWords(o, g, data + [w])
    ensures v == w
  {
    var e, n := EcWords(o, g, data), |g| - 1;
    EcNext(o, g, data, v);
    EcNext(o, g, data, w);
    assert EcWords(o, g, data + [v])[n - 1] == EcWords(o, g, data + [w])[n - 1];
    MulCancels(o, g[n], o.add(e[0], v), o.add(e[0], w));
    AddCommutes(o, e[0], v);
    AddCommutes(o, e[0], w);
    AddCancels(o, v, w, e[0]);
  }

  /** ... and what was there before. */
  lemma EarlierWordsShow<T(!new)>(o: Algebra<T>, g: seq<T>, a: seq<T>, b: seq<T>, w: T)
    requires Good(o) && |g| > 1 && g[|g| - 1] != o.zero
    requires EcWords(o, g, a + [w]) == EcWords(o, g, b + [w])
    ensures EcWords(o, g, a) == EcWords(o, g, b)
  {
    var d, e, n := EcWords(o, g, a), EcWords(o, g, b), |g| - 1;
    EcNext(o, g, a, w);
    EcNext(o, g, b, w);
    assert EcWords(o, g, a + [w])[n - 1] == EcWords(o, g, b + [w])[n - 1];
    MulCancels(o, g[n], o.add(d[0], w), o.add(e[0], w));
    AddCancels(o, d[0], e[0], w);
    forall k | 0 < k < n ensures d[k] == e[k] {
      assert EcWords(o, g, a + [w])[k - 1] == EcWords(o, g, b + [w])[k - 1];
      AddCancels(o, d[k], e[k], o.mul(g[k], o.add(d[0], w)));
    }
  }

  /** One wrong data word, wherever it is, gives other error-correction words. */
  lemma {:induction false} OneWrongWord<T(!new)>(o: Algebra<T>, g: seq<T>, a: seq<T>, b: seq<T>, at: nat)
    requires Good(o) && |g| > 1 && g[|g| - 1] != o.zero
    requires at < |a| == |b| && a[at] != b[at] && forall i :: 0 <= i < |a| && i != at ==> a[i] == b[i]
    ensures EcWords(o, g, a) != EcWords(o, g, b)
    decreases |a|
  {
    var m := |a| - 1;
    assert a == a[..m] + [a[m]] && b == b[..m] + [b[m]];
    if EcWords(o, g, a) == EcWords(o, g, b) {
      if at == m {
        assert a[..m] == b[..m];
        LastWordShows(o, g, a[..m], a[m], b[m]);
      } else {
        OneWrongWord(o, g, a[..m], b[..m], at);
        EarlierWordsShow(o, g, a[..m], b[..m], a[m]);
      }
    }
  }
}
