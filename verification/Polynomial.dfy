/** Polynomials as the QR encoder's loops hold them, lowest coefficient first: the
    generator by repeated multiplication, and the loop that subtracts its multiples. */
module Polynomial {
  import opened Algebras

  /** The value at `x`. */
  function Eval<T>(o: Algebra<T>, p: seq<T>, x: T): T
    decreases |p|
  {
    if p == [] then o.zero else o.add(p[0], o.mul(x, Eval(o, p[1..], x)))
  }

  function Plus<T>(o: Algebra<T>, a: seq<T>, b: seq<T>): (r: seq<T>)
    requires |a| == |b|
  {
    seq(|a|, i requires 0 <= i < |a| => o.add(a[i], b[i]))
  }

  function Scale<T>(o: Algebra<T>, p: seq<T>, f: T): seq<T> {
    seq(|p|, i requires 0 <= i < |p| => o.mul(p[i], f))
  }

  function Zeros<T>(o: Algebra<T>, n: nat): seq<T> { seq(n, _ => o.zero) }

  /** One round: times (x + e), coefficients lowest first. */
  function NextGenerator<T>(o: Algebra<T>, g: seq<T>, e: T): seq<T> {
    seq(|g| + 1, j requires 0 <= j <= |g| =>
      o.add(if j > 0 then g[j - 1] else o.zero, if j < |g| then o.mul(g[j], e) else o.zero))
  }

  function Generator<T>(o: Algebra<T>, n: nat): (g: seq<T>)
    ensures |g| == n + 1
  {
    if n == 0 then [o.one] else NextGenerator(o, Generator(o, n - 1), o.power(n - 1))
  }

  /** Position `i` of the division: the generator times the word there is added from there on. */
  function Step<T>(o: Algebra<T>, g: seq<T>, r: seq<T>, i: nat): seq<T>
    requires i < |r|
  {
    seq(|r|, k requires 0 <= k < |r| => if i <= k < i + |g| then o.add(r[k], o.mul(g[k - i], r[i])) else r[k])
  }

  function Reduced<T>(o: Algebra<T>, g: seq<T>, r: seq<T>, n: nat): (q: seq<T>)
    requires n <= |r|
    ensures |q| == |r|
    decreases n
  {
    if n == 0 then r else Step(o, g, Reduced(o, g, r, n - 1), n - 1)
  }

  function EcWords<T>(o: Algebra<T>, g: seq<T>, data: seq<T>): (ec: seq<T>)
    requires |g| > 0
    ensures |ec| == |g| - 1
  {
    Reduced(o, g, data + Zeros(o, |g| - 1), |data|)[|data|..]
  }

  /* ---- values ---- */

  lemma {:induction false} EvalPlus<T(!new)>(o: Algebra<T>, a: seq<T>, b: seq<T>, x: T)
    requires Good(o) && |a| == |b|
    ensures Eval(o, Plus(o, a, b), x) == o.add(Eval(o, a, x), Eval(o, b, x))
    decreases |a|
  {
    if a == [] {
      assert o.add(o.zero, o.zero) == o.zero;
    } else {
      EvalPlus(o, a[1..], b[1..], x);
      assert Plus(o, a, b)[1..] == Plus(o, a[1..], b[1..]);
      var va, vb := Eval(o, a[1..], x), Eval(o, b[1..], x);
      assert Distributes(o, va, vb, x);
      assert Regroups(o, a[0], b[0], o.mul(x, va), o.mul(x, vb));
    }
  }

  lemma {:induction false} EvalScale<T(!new)>(o: Algebra<T>, p: seq<T>, f: T, x: T)
    requires Good(o)
    ensures Eval(o, Scale(o, p, f), x) == o.mul(Eval(o, p, x), f)
    decreases |p|
  {
    if p == [] {
    } else {
      EvalScale(o, p[1..], f, x);
      assert Scale(o, p, f)[1..] == Scale(o, p[1..], f);
      ScaleStep(o, p[0], x, Eval(o, p[1..], x), f);
    }
  }

  lemma ScaleStep<T(!new)>(o: Algebra<T>, c: T, x: T, rest: T, f: T)
    requires Good(o)
    ensures o.add(o.mul(c, f), o.mul(x, o.mul(rest, f))) == o.mul(o.add(c, o.mul(x, rest)), f)
  {
    assert Associates(o, x, rest, f);
    assert Distributes(o, c, o.mul(x, rest), f);
  }

  lemma {:induction false} EvalZeros<T(!new)>(o: Algebra<T>, n: nat, x: T)
    requires Good(o)
    ensures Eval(o, Zeros(o, n), x) == o.zero
    decreases n
  {
    if n > 0 {
      EvalZeros(o, n - 1, x);
      assert Zeros(o, n)[1..] == Zeros(o, n - 1);
    }
  }

  lemma {:induction false} EvalPadded<T(!new)>(o: Algebra<T>, p: seq<T>, n: nat, x: T)
    requires Good(o)
    ensures Eval(o, p + Zeros(o, n), x) == Eval(o, p, x)
    decreases |p|
  {
    if p == [] {
      EvalZeros(o, n, x);
      assert p + Zeros(o, n) == Zeros(o, n);
    } else {
      EvalPadded(o, p[1..], n, x);
      assert (p + Zeros(o, n))[1..] == p[1..] + Zeros(o, n);
    }
  }

  lemma {:induction false} EvalShifted<T(!new)>(o: Algebra<T>, p: seq<T>, n: nat, x: T)
    requires Good(o) && Eval(o, p, x) == o.zero
    ensures Eval(o, Zeros(o, n) + p, x) == o.zero
    decreases n
  {
    if n == 0 {
      assert Zeros(o, n) + p == p;
    } else {
      EvalShifted(o, p, n - 1, x);
      assert Zeros(o, n) + p == [o.zero] + (Zeros(o, n - 1) + p);
      ShiftOne(o, Zeros(o, n - 1) + p, x);
    }
  }

  lemma ShiftOne<T(!new)>(o: Algebra<T>, p: seq<T>, x: T)
    requires Good(o) && Eval(o, p, x) == o.zero
    ensures Eval(o, [o.zero] + p, x) == o.zero
  {
    assert ([o.zero] + p)[1..] == p;
  }

  /* ---- the generator ---- */

  lemma NextIsSum<T(!new)>(o: Algebra<T>, g: seq<T>, e: T)
    ensures NextGenerator(o, g, e) == Plus(o, [o.zero] + g, Scale(o, g, e) + Zeros(o, 1))
  {
  }

  lemma EvalNext<T(!new)>(o: Algebra<T>, g: seq<T>, e: T, x: T)
    requires Good(o)
    ensures Eval(o, NextGenerator(o, g, e), x) == o.mul(o.add(x, e), Eval(o, g, x))
  {
    NextIsSum(o, g, e);
    EvalPlus(o, [o.zero] + g, Scale(o, g, e) + Zeros(o, 1), x);
    EvalPadded(o, Scale(o, g, e), 1, x);
    EvalScale(o, g, e, x);
    assert ([o.zero] + g)[1..] == g;
    assert Commutes(o, Eval(o, g, x), e);
    assert Distributes(o, x, e, Eval(o, g, x));
  }

  /** One round adds one root. */
  lemma NextRoots<T(!new)>(o: Algebra<T>, g: seq<T>, e: T, x: T)
    requires Good(o)
    ensures Eval(o, NextGenerator(o, g, e), x) == o.zero <==> e == x || Eval(o, g, x) == o.zero
  {
    EvalNext(o, g, e, x);
    assert Domain(o, o.add(x, e), Eval(o, g, x));
    assert Cancels(o, x, e);
  }

  /** What one round keeps, every generator has. */
  lemma {:induction false} EveryRound<T(!new)>(o: Algebra<T>, inv: (nat, seq<T>) -> bool, n: nat)
    requires inv(0, [o.one])
    requires forall k: nat, g :: inv(k, g) ==> inv(k + 1, NextGenerator(o, g, o.power(k)))
    ensures inv(n, Generator(o, n))
    decreases n
  {
    if n > 0 { EveryRound(o, inv, n - 1); }
  }

  ghost predicate RootsAre<T(!new)>(o: Algebra<T>, x: T, n: nat, g: seq<T>) {
    Eval(o, g, x) == o.zero <==> exists i :: 0 <= i < n && o.power(i) == x
  }

  lemma OneMoreRoot<T(!new)>(o: Algebra<T>, x: T, n: nat, g: seq<T>, e: T)
    requires Good(o) && RootsAre(o, x, n, g) && e == o.power(n)
    ensures RootsAre(o, x, n + 1, NextGenerator(o, g, e))
  {
    NextRoots(o, g, e, x);
    AmongPowers(o, x, n);
  }

  lemma AmongPowers<T(!new)>(o: Algebra<T>, x: T, n: nat)
    ensures (exists i :: 0 <= i < n + 1 && o.power(i) == x)
       <==> o.power(n) == x || exists i :: 0 <= i < n && o.power(i) == x
  {
  }

  lemma NoRootYet<T(!new)>(o: Algebra<T>, x: T)
    requires Good(o)
    ensures RootsAre(o, x, 0, [o.one])
  {
    assert Eval(o, [o.one], x) == o.add(o.one, o.mul(x, o.zero));
  }

  /** The generator of degree `n` vanishes at the first `n` powers and nowhere else. */
  lemma GeneratorRoots<T(!new)>(o: Algebra<T>, n: nat, x: T)
    requires Good(o)
    ensures RootsAre(o, x, n, Generator(o, n))
  {
    NoRootYet(o, x);
    forall k: nat, g | RootsAre(o, x, k, g) ensures RootsAre(o, x, k + 1, NextGenerator(o, g, o.power(k))) {
      OneMoreRoot(o, x, k, g, o.power(k));
    }
    EveryRound(o, (k: nat, g) => RootsAre(o, x, k, g), n);
  }

  function Below(n: nat): nat { if n == 0 then 0 else Below(n - 1) + n - 1 }

  lemma NextEnds<T(!new)>(o: Algebra<T>, g: seq<T>, e: T)
    requires Good(o) && |g| > 0
    ensures NextGenerator(o, g, e)[|g|] == g[|g| - 1] && NextGenerator(o, g, e)[0] == o.mul(g[0], e)
  {
  }

  ghost predicate EndsAre<T>(o: Algebra<T>, n: nat, g: seq<T>) {
    |g| == n + 1 && g[n] == o.one && g[0] == o.power(Below(n))
  }

  lemma NextEndsAre<T(!new)>(o: Algebra<T>, n: nat, g: seq<T>, h: seq<T>, k: nat)
    requires EndsAre(o, n, g) && |h| == n + 2 && h[n + 1] == g[n] && h[0] == o.power(k) && k == Below(n) + n
    ensures EndsAre(o, n + 1, h)
  {
  }

  /** It is monic, and its constant term is the product of its roots. */
  lemma GeneratorEnds<T(!new)>(o: Algebra<T>, n: nat)
    requires Good(o)
    ensures EndsAre(o, n, Generator(o, n))
  {
    forall k: nat, g | EndsAre(o, k, g) ensures EndsAre(o, k + 1, NextGenerator(o, g, o.power(k))) {
      NextEnds(o, g, o.power(k));
      assert PowersAdd(o, Below(k), k);
      NextEndsAre(o, k, g, NextGenerator(o, g, o.power(k)), Below(k) + k);
    }
    EveryRound(o, (k: nat, g) => EndsAre(o, k, g), n);
  }

  /* ---- the division loop ---- */

  lemma StepPlus<T(!new)>(o: Algebra<T>, g: seq<T>, a: seq<T>, b: seq<T>, i: nat)
    requires Good(o) && |a| == |b| && i < |a|
    ensures Step(o, g, Plus(o, a, b), i) == Plus(o, Step(o, g, a, i), Step(o, g, b, i))
  {
    forall k | i <= k < |a| && k < i + |g|
      ensures Step(o, g, Plus(o, a, b), i)[k] == o.add(Step(o, g, a, i)[k], Step(o, g, b, i)[k])
    {
      WordPlus(o, g[k - i], a[k], b[k], a[i], b[i]);
    }
  }

  lemma WordPlus<T(!new)>(o: Algebra<T>, g: T, a: T, b: T, f: T, h: T)
    requires Good(o)
    ensures o.add(o.add(a, b), o.mul(g, o.add(f, h))) == o.add(o.add(a, o.mul(g, f)), o.add(b, o.mul(g, h)))
  {
    assert Distributes(o, f, h, g);
    assert Regroups(o, a, b, o.mul(g, f), o.mul(g, h));
  }

  ghost predicate StepsAdd<T(!new)>(o: Algebra<T>, g: seq<T>) {
    forall a, b, i {:trigger Step(o, g, Plus(o, a, b), i)} :: |a| == |b| && 0 <= i < |a| ==>
      Step(o, g, Plus(o, a, b), i) == Plus(o, Step(o, g, a, i), Step(o, g, b, i))
  }

  lemma {:induction false} ReducedPlus<T(!new)>(o: Algebra<T>, g: seq<T>, a: seq<T>, b: seq<T>, n: nat)
    requires StepsAdd(o, g) && |a| == |b| && n <= |a|
    ensures Reduced(o, g, Plus(o, a, b), n) == Plus(o, Reduced(o, g, a, n), Reduced(o, g, b, n))
    decreases n
  {
    if n > 0 { ReducedPlus(o, g, a, b, n - 1); }
  }

  /** The error-correction words of a sum are the sum of the error-correction words. */
  lemma EcIsLinear<T(!new)>(o: Algebra<T>, g: seq<T>, a: seq<T>, b: seq<T>)
    requires Good(o) && |g| > 0 && |a| == |b|
    ensures EcWords(o, g, Plus(o, a, b)) == Plus(o, EcWords(o, g, a), EcWords(o, g, b))
  {
    var z := Zeros(o, |g| - 1);
    assert Plus(o, a, b) + z == Plus(o, a + z, b + z) by {
      assert o.add(o.zero, o.zero) == o.zero;
    }
    forall p, q, i {:trigger Step(o, g, Plus(o, p, q), i)} | |p| == |q| && 0 <= i < |p|
      ensures Step(o, g, Plus(o, p, q), i) == Plus(o, Step(o, g, p, i), Step(o, g, q, i))
    {
      StepPlus(o, g, p, q, i);
    }
    ReducedPlus(o, g, a + z, b + z, |a|);
  }

  lemma StepIsSum<T(!new)>(o: Algebra<T>, g: seq<T>, r: seq<T>, i: nat)
    requires Good(o) && i < |r| && i + |g| <= |r|
    ensures Step(o, g, r, i) == Plus(o, r, Zeros(o, i) + (Scale(o, g, r[i]) + Zeros(o, |r| - i - |g|)))
  {
  }

  lemma MultipleVanishes<T(!new)>(o: Algebra<T>, g: seq<T>, f: T, i: nat, rest: nat, x: T)
    requires Good(o) && Eval(o, g, x) == o.zero
    ensures Eval(o, Zeros(o, i) + (Scale(o, g, f) + Zeros(o, rest)), x) == o.zero
  {
    EvalScale(o, g, f, x);
    EvalPadded(o, Scale(o, g, f), rest, x);
    EvalShifted(o, Scale(o, g, f) + Zeros(o, rest), i, x);
  }

  lemma StepKeepsValue<T(!new)>(o: Algebra<T>, g: seq<T>, r: seq<T>, i: nat, x: T)
    requires Good(o) && i < |r| && i + |g| <= |r| && Eval(o, g, x) == o.zero
    ensures Eval(o, Step(o, g, r, i), x) == Eval(o, r, x)
  {
    var rest := |r| - i - |g|;
    StepIsSum(o, g, r, i);
    MultipleVanishes(o, g, r[i], i, rest, x);
    EvalPlus(o, r, Zeros(o, i) + (Scale(o, g, r[i]) + Zeros(o, rest)), x);
  }

  /** What one step keeps, the whole division keeps. */
  lemma {:induction false} EveryStep<T(!new)>(o: Algebra<T>, g: seq<T>, inv: seq<T> -> bool, r: seq<T>, n: nat)
    requires |g| > 0 && n + |g| <= |r| + 1 && inv(r)
    requires forall q, i {:trigger Step(o, g, q, i)} ::
      |q| == |r| && 0 <= i < |q| && i + |g| <= |q| && inv(q) ==> inv(Step(o, g, q, i))
    ensures inv(Reduced(o, g, r, n))
    decreases n
  {
    if n > 0 { EveryStep(o, g, inv, r, n - 1); }
  }

  /** Reading lowest word first, the loop only ever adds multiples of the generator, so
      at the generator's roots the value is what it was. */
  lemma RootsKeepValue<T(!new)>(o: Algebra<T>, g: seq<T>, r: seq<T>, n: nat, x: T)
    requires Good(o) && |g| > 0 && n + |g| <= |r| + 1 && Eval(o, g, x) == o.zero
    ensures Eval(o, Reduced(o, g, r, n), x) == Eval(o, r, x)
  {
    var inv := (q: seq<T>) => Eval(o, q, x) == Eval(o, r, x);
    forall q, i {:trigger Step(o, g, q, i)} | |q| == |r| && 0 <= i < |q| && i + |g| <= |q| && inv(q)
      ensures inv(Step(o, g, q, i))
    {
      StepKeepsValue(o, g, q, i, x);
    }
    EveryStep(o, g, inv, r, n);
  }

  /** A step clears the word it starts from exactly when that word is zero already or the
      generator starts with one. */
  lemma StepClearsIff<T(!new)>(o: Algebra<T>, g: seq<T>, r: seq<T>, i: nat)
    requires Good(o) && |g| > 0 && i < |r|
    ensures Step(o, g, r, i)[i] == o.zero <==> r[i] == o.zero || g[0] == o.one
  {
    MultipleCancelsIff(o, g[0], r[i]);
  }

  lemma MultipleCancelsIff<T(!new)>(o: Algebra<T>, a: T, b: T)
    requires Good(o)
    ensures o.add(b, o.mul(a, b)) == o.zero <==> b == o.zero || a == o.one
  {
    assert Cancels(o, o.one, a);
    assert Distributes(o, o.one, a, b);
    assert Domain(o, o.add(o.one, a), b);
  }
}
