/** The loops of `qrMatrix` that build the tables, the generator polynomial and the
    error-correction words, over any field of `Field`. */
module ReedSolomon {
  import opened Field
  import opened Algebras
  import opened Polynomial

  /* ---- tables ---- */

  ghost predicate Tables<T(!new)>(o: Ops<T>, exp: seq<T>, log: seq<nat>) {
    && |exp| == 2 * o.order + 2 && |log| == o.order + 1
    && (forall i :: 0 <= i < |exp| ==> exp[i] == Power(o, i))
    && (forall a {:trigger o.index(a)} :: a != o.zero ==>
          o.index(a) < |log| && log[o.index(a)] < o.order && exp[log[o.index(a)]] == a)
  }

  /** The first `order` powers have different numbers, all of them table indices. */
  ghost predicate Numbered<T>(o: Ops<T>) {
    && (forall i, j :: 0 <= i < j < o.order ==> o.index(Power(o, i)) != o.index(Power(o, j)))
    && (forall i :: 0 <= i < o.order ==> o.index(Power(o, i)) <= o.order)
  }

  lemma PowersAreNumbered<T(!new)>(o: Ops<T>)
    requires Laws(o)
    ensures Numbered(o)
  {
    forall i, j | 0 <= i < j < o.order ensures o.index(Power(o, i)) != o.index(Power(o, j)) {
      PowersDiffer(o, i, j);
    }
  }

  method BuildTables<T(==, 0, !new)>(o: Ops<T>) returns (exp: array<T>, log: array<nat>)
    requires Laws(o)
    ensures fresh(exp) && fresh(log) && Tables(o, exp[..], log[..])
  {
    PowersAreNumbered(o);
    exp := new T[2 * o.order + 2];
    log := new nat[o.order + 1];
    FillTables(o, exp, log);
    RepeatPowers(o, exp);
    TablesInvert(o, exp[..], log[..]);
  }

  /** The first `n` powers are in the tables. */
  ghost predicate Filled<T>(o: Ops<T>, exp: seq<T>, log: seq<nat>, n: nat) {
    && |exp| >= n && (forall j :: 0 <= j < n ==> exp[j] == Power(o, j))
    && (forall j :: 0 <= j < n ==> o.index(Power(o, j)) < |log| && log[o.index(Power(o, j))] == j)
  }

  lemma FillOne<T>(o: Ops<T>, exp: seq<T>, log: seq<nat>, n: nat)
    requires Filled(o, exp, log, n) && Numbered(o) && n < o.order && |exp| > n && |log| > o.order
    ensures o.index(Power(o, n)) < |log|
    ensures Filled(o, exp[n := Power(o, n)], log[o.index(Power(o, n)) := n], n + 1)
  {
  }

  method FillTables<T(==, !new)>(o: Ops<T>, exp: array<T>, log: array<nat>)
    requires Numbered(o) && exp.Length >= o.order && log.Length > o.order && exp as object != log
    modifies exp, log
    ensures Filled(o, exp[..], log[..], o.order)
  {
    var x := o.one;
    for i := 0 to o.order
      invariant x == Power(o, i) && Filled(o, exp[..], log[..], i)
    {
      FillOne(o, exp[..], log[..], i);
      exp[i] := x;
      log[o.index(x)] := i;
      x := o.dbl(x);
    }
  }

  ghost predicate Powers<T>(o: Ops<T>, exp: seq<T>, n: nat) {
    n <= |exp| && forall j :: 0 <= j < n ==> exp[j] == Power(o, j)
  }

  lemma OnePowerMore<T(!new)>(o: Ops<T>, exp: seq<T>, i: nat)
    requires Cyclic(o) && Powers(o, exp, i) && o.order <= i < |exp|
    ensures Powers(o, exp[i := exp[i - o.order]], i + 1)
  {
    PowerPeriod(o, i - o.order);
  }

  method RepeatPowers<T(==, !new)>(o: Ops<T>, exp: array<T>)
    requires Cyclic(o) && exp.Length >= o.order
    requires forall i :: 0 <= i < o.order ==> exp[i] == Power(o, i)
    modifies exp
    ensures forall i :: 0 <= i < exp.Length ==> exp[i] == Power(o, i)
  {
    for i := o.order to exp.Length
      invariant Powers(o, exp[..], i)
    {
      OnePowerMore(o, exp[..], i);
      exp[i] := exp[i - o.order];
    }
  }

  lemma TablesInvert<T(!new)>(o: Ops<T>, exp: seq<T>, log: seq<nat>)
    requires Laws(o) && |exp| == 2 * o.order + 2 && |log| == o.order + 1
    requires forall i :: 0 <= i < |exp| ==> exp[i] == Power(o, i)
    requires forall j :: 0 <= j < o.order ==> log[o.index(Power(o, j))] == j
    ensures Tables(o, exp, log)
  {
    forall a {:trigger o.index(a)} | a != o.zero
      ensures o.index(a) < |log| && log[o.index(a)] < o.order && exp[log[o.index(a)]] == a
    {
      EveryNonzeroIsAPower(o, a);
    }
  }

  /** `mul`; outside the tables, where JavaScript reads `undefined`, zero. */
  function Mul<T(==)>(o: Ops<T>, exp: seq<T>, log: seq<nat>, a: T, b: T): T {
    if a == o.zero || b == o.zero then o.zero
    else if o.index(a) < |log| && o.index(b) < |log| && log[o.index(a)] + log[o.index(b)] < |exp|
    then exp[log[o.index(a)] + log[o.index(b)]]
    else o.zero
  }

  /** The table multiplication is the reference multiplication. */
  lemma MulIsTimes<T(!new)>(o: Ops<T>, exp: seq<T>, log: seq<nat>, a: T, b: T)
    requires Laws(o) && Tables(o, exp, log)
    ensures Mul(o, exp, log, a, b) == Times(o, a, b)
  {
    TimesZero(o, a);
    TimesZero(o, b);
    if a != o.zero && b != o.zero {
      PowersMultiply(o, log[o.index(a)], log[o.index(b)]);
    }
  }

  /* ---- the generator polynomial ---- */

  /** The closure `mul` over the tables computes the algebra's multiplication. */
  ghost predicate Computes<T(!new)>(mul: (T, T) -> T, r: Algebra<T>) {
    forall a, b {:trigger mul(a, b)} :: mul(a, b) == r.mul(a, b)
  }

  lemma TablesMultiply<T(!new)>(o: Ops<T>, exp: seq<T>, log: seq<nat>)
    requires Laws(o) && Tables(o, exp, log)
    ensures Computes((a, b) => Mul(o, exp, log, a, b), AlgebraOf(o))
  {
    forall a, b ensures Mul(o, exp, log, a, b) == Times(o, a, b) {
      MulIsTimes(o, exp, log, a, b);
    }
  }

  method MakeGenerator<T(==, 0, !new)>(r: Algebra<T>, mul: (T, T) -> T, exp: seq<T>, ecCount: nat) returns (g: seq<T>)
    requires Units(r) && Computes(mul, r)
    requires ecCount <= |exp| && forall i :: 0 <= i < |exp| ==> exp[i] == r.power(i)
    ensures g == Generator(r, ecCount)
  {
    g := [r.one];
    for i := 0 to ecCount
      invariant g == Generator(r, i)
    {
      g := MultiplyOut(r, mul, g, exp[i]);
    }
  }

  method MultiplyOut<T(==, 0, !new)>(r: Algebra<T>, mul: (T, T) -> T, g: seq<T>, e: T) returns (p: seq<T>)
    requires Units(r) && Computes(mul, r)
    ensures p == NextGenerator(r, g, e)
  {
    var next := new T[|g| + 1](_ => r.zero);
    ghost var goal := NextGenerator(r, g, e);
    for j := 0 to |g|
      invariant forall k :: 0 <= k < j ==> next[k] == goal[k]
      invariant next[j] == if j > 0 then g[j - 1] else r.zero
      invariant forall k :: j < k <= |g| ==> next[k] == r.zero
    {
      next[j] := r.add(next[j], mul(g[j], e));
      next[j + 1] := r.add(next[j + 1], g[j]);
    }
    p := next[..];
    assert p[|g|] == goal[|g|];
  }

  /* ---- the error-correction words ---- */

  /** The division loop, in place; a zero factor is skipped. */
  method ErrorCorrection<T(==, 0, !new)>(r: Algebra<T>, mul: (T, T) -> T, g: seq<T>, data: seq<T>)
      returns (ec: seq<T>)
    requires Units(r) && Computes(mul, r) && |g| > 0
    ensures ec == EcWords(r, g, data)
  {
    var all := data + Zeros(r, |g| - 1);
    var rem := new T[|all|](k requires 0 <= k < |all| => all[k]);
    assert rem[..] == all;
    for i := 0 to |data|
      invariant rem[..] == Reduced(r, g, all, i)
    {
      if rem[i] != r.zero {
        Cancel(r, mul, g, rem, i);
      } else {
        ZeroFactor(r, g, rem[..], i);
      }
    }
    ec := rem[|data|..];
  }

  lemma ZeroFactor<T(!new)>(r: Algebra<T>, g: seq<T>, words: seq<T>, i: nat)
    requires Units(r) && i + |g| <= |words| && i < |words| && words[i] == r.zero
    ensures Step(r, g, words, i) == words
  {
  }

  method Cancel<T(==, !new)>(r: Algebra<T>, mul: (T, T) -> T, g: seq<T>, rem: array<T>, i: nat)
    requires Computes(mul, r) && |g| > 0 && i + |g| <= rem.Length
    modifies rem
    ensures rem[..] == Step(r, g, old(rem[..]), i)
  {
    var factor := rem[i];
    ghost var goal := Step(r, g, rem[..], i);
    for j := 0 to |g|
      invariant forall k :: 0 <= k < i + j ==> rem[k] == goal[k]
      invariant forall k :: i + j <= k < rem.Length ==> rem[k] == old(rem[k])
    {
      rem[i + j] := r.add(rem[i + j], mul(g[j], factor));
    }
  }

  /** The tables, the generator and the division, one after the other. */
  method TableWords<T(==, 0, !new)>(o: Ops<T>, data: seq<T>, n: nat) returns (ec: seq<T>)
    requires Laws(o) && n <= 2 * o.order + 2
    ensures ec == EcWords(AlgebraOf(o), Generator(AlgebraOf(o), n), data)
  {
    var exp, log := BuildTables(o);
    var e, l := exp[..], log[..];
    FieldUnits(o);
    TablesMultiply(o, e, l);
    ec := Words(AlgebraOf(o), (a, b) => Mul(o, e, l, a, b), e, data, n);
  }

  method Words<T(==, 0, !new)>(r: Algebra<T>, mul: (T, T) -> T, exp: seq<T>, data: seq<T>, n: nat) returns (ec: seq<T>)
    requires Units(r) && Computes(mul, r) && n <= |exp| && forall i :: 0 <= i < |exp| ==> exp[i] == r.power(i)
    ensures ec == EcWords(r, Generator(r, n), data)
  {
    var generator := MakeGenerator(r, mul, exp, n);
    ec := ErrorCorrection(r, mul, generator, data);
  }
}
