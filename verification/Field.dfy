/** A field given by its addition and its doubling, with multiplication by repeated doubling:
    when the laws hold, it is a commutative and associative multiplication that distributes
    over addition, and the powers of two are all the nonzero elements. */
module Field {

  /** `dbl` is multiplication by the generator of the field, `bits` the coefficients of
      an element, lowest first, `width` many, `index` its number as a table index, and
      `order` the number of nonzero elements. */
  datatype Ops<!T> = Ops(zero: T, one: T, add: (T, T) -> T, dbl: T -> T, bits: T -> seq<bool>, index: T -> nat,
                         order: nat, width: nat)

  ghost predicate Swaps<T>(o: Ops<T>, a: T, b: T, c: T, d: T) {
    o.add(o.add(a, b), o.add(c, d)) == o.add(o.add(a, c), o.add(b, d))
  }

  ghost predicate Additive<T(!new)>(o: Ops<T>) {
    && (forall a, b, c, d :: Swaps(o, a, b, c, d))
    && (forall a {:trigger o.add(a, o.zero)} :: o.add(a, o.zero) == a)
    && (forall a {:trigger o.add(o.zero, a)} :: o.add(o.zero, a) == a)
    && (forall a {:trigger o.add(a, a)} :: o.add(a, a) == o.zero)
    && (forall a, b {:trigger o.dbl(o.add(a, b))} :: o.dbl(o.add(a, b)) == o.add(o.dbl(a), o.dbl(b)))
    && o.dbl(o.zero) == o.zero
  }

  /** The sum of the doublings of `a` that the bits select. */
  function Select<T>(o: Ops<T>, a: T, bits: seq<bool>): T
    decreases |bits|
  {
    if bits == [] then o.zero
    else o.add(if bits[0] then a else o.zero, Select(o, o.dbl(a), bits[1..]))
  }

  /** The reference multiplication. */
  function Times<T>(o: Ops<T>, a: T, b: T): T { Select(o, a, o.bits(b)) }

  function Power<T>(o: Ops<T>, i: nat): T { if i == 0 then o.one else o.dbl(Power(o, i - 1)) }

  ghost predicate Bitwise<T(!new)>(o: Ops<T>) {
    && (forall a :: |o.bits(a)| == o.width) && o.width > 0
    && (forall a, b, i {:trigger o.bits(o.add(a, b))[i]} ::
          0 <= i < o.width ==> (o.bits(o.add(a, b))[i] <==> o.bits(a)[i] != o.bits(b)[i]))
    && (forall a {:trigger Select(o, o.one, o.bits(a))} :: Select(o, o.one, o.bits(a)) == a)
    && (forall i :: 0 <= i < o.width ==> (o.bits(o.one)[i] <==> i == 0))
    && (forall a, b :: o.index(a) == o.index(b) ==> a == b)
    && (forall a :: o.index(a) <= o.order)
    && (forall a :: o.index(a) == 0 <==> a == o.zero)
  }

  /** The doublings of one return to one after `order` steps and not before. */
  ghost predicate Cyclic<T(!new)>(o: Ops<T>) {
    && Power(o, o.order) == o.one && o.order > 0
    && (forall d :: 0 < d < o.order ==> Power(o, d) != o.one)
    && (forall a, b {:trigger o.dbl(a), o.dbl(b)} :: o.dbl(a) == o.dbl(b) ==> a == b)
    && o.one != o.zero
  }

  ghost predicate Ring<T(!new)>(o: Ops<T>) { Additive(o) && Bitwise(o) }

  ghost predicate Laws<T(!new)>(o: Ops<T>) { Ring(o) && Cyclic(o) }

  /* ---- the reference multiplication is linear on both sides ---- */

  lemma {:induction false} SelectAddLeft<T(!new)>(o: Ops<T>, a: T, b: T, bits: seq<bool>)
    requires Additive(o)
    ensures Select(o, o.add(a, b), bits) == o.add(Select(o, a, bits), Select(o, b, bits))
    decreases |bits|
  {
    if bits == [] {
      assert o.add(o.zero, o.zero) == o.zero;
    } else {
      SelectAddLeft(o, o.dbl(a), o.dbl(b), bits[1..]);
      var z := o.zero;
      assert Swaps(o, if bits[0] then a else z, if bits[0] then b else z,
                   Select(o, o.dbl(a), bits[1..]), Select(o, o.dbl(b), bits[1..]));
    }
  }

  lemma {:induction false} SelectAddRight<T(!new)>(o: Ops<T>, a: T, b: seq<bool>, c: seq<bool>, sum: seq<bool>)
    requires Additive(o) && |b| == |c| == |sum| && forall i :: 0 <= i < |b| ==> sum[i] == (b[i] != c[i])
    ensures Select(o, a, sum) == o.add(Select(o, a, b), Select(o, a, c))
    decreases |b|
  {
    if b == [] {
      assert o.add(o.zero, o.zero) == o.zero;
    } else {
      SelectAddRight(o, o.dbl(a), b[1..], c[1..], sum[1..]);
      var z := o.zero;
      assert Swaps(o, if b[0] then a else z, if c[0] then a else z,
                   Select(o, o.dbl(a), b[1..]), Select(o, o.dbl(a), c[1..]));
    }
  }

  lemma {:induction false} SelectDouble<T(!new)>(o: Ops<T>, a: T, bits: seq<bool>)
    requires Additive(o)
    ensures Select(o, o.dbl(a), bits) == o.dbl(Select(o, a, bits))
    decreases |bits|
  {
    if bits != [] {
      SelectDouble(o, o.dbl(a), bits[1..]);
    }
  }

  lemma {:induction false} SelectNothing<T(!new)>(o: Ops<T>, a: T, bits: seq<bool>)
    requires Additive(o) && (a == o.zero || forall i :: 0 <= i < |bits| ==> !bits[i])
    ensures Select(o, a, bits) == o.zero
    decreases |bits|
  {
    if bits != [] {
      SelectNothing(o, o.dbl(a), bits[1..]);
    }
  }

  lemma TimesAdd<T(!new)>(o: Ops<T>, a: T, b: T, c: T)
    requires Ring(o)
    ensures Times(o, o.add(a, b), c) == o.add(Times(o, a, c), Times(o, b, c))
    ensures Times(o, c, o.add(a, b)) == o.add(Times(o, c, a), Times(o, c, b))
  {
    SelectAddLeft(o, a, b, o.bits(c));
    SelectAddRight(o, c, o.bits(a), o.bits(b), o.bits(o.add(a, b)));
  }

  lemma ZeroHasNoBits<T(!new)>(o: Ops<T>)
    requires Ring(o)
    ensures forall i :: 0 <= i < o.width ==> !o.bits(o.zero)[i]
  {
    assert o.add(o.zero, o.zero) == o.zero;
    forall i | 0 <= i < o.width ensures !o.bits(o.zero)[i] {
      assert o.bits(o.add(o.zero, o.zero))[i] <==> o.bits(o.zero)[i] != o.bits(o.zero)[i];
    }
  }

  lemma TimesZero<T(!new)>(o: Ops<T>, a: T)
    requires Ring(o)
    ensures Times(o, a, o.zero) == o.zero && Times(o, o.zero, a) == o.zero
  {
    ZeroHasNoBits(o);
    SelectNothing(o, o.zero, o.bits(a));
    SelectNothing(o, a, o.bits(o.zero));
  }

  lemma TimesOne<T(!new)>(o: Ops<T>, a: T)
    requires Ring(o)
    ensures Times(o, o.one, a) == a && Times(o, a, o.one) == a
  {
    assert Select(o, o.one, o.bits(a)) == a;
    SelectNothing(o, o.dbl(a), o.bits(o.one)[1..]);
  }

  lemma {:induction false} PowersMultiply<T(!new)>(o: Ops<T>, i: nat, j: nat)
    requires Ring(o)
    ensures Times(o, Power(o, i), Power(o, j)) == Power(o, i + j)
    decreases i
  {
    if i == 0 {
      TimesOne(o, Power(o, j));
    } else {
      PowersMultiply(o, i - 1, j);
      SelectDouble(o, Power(o, i - 1), o.bits(Power(o, j)));
    }
  }

  lemma PowerProduct<T(!new)>(o: Ops<T>, i: nat, j: nat, a: T, b: T, c: T)
    requires Ring(o) && Power(o, i) == a && Power(o, j) == b && Times(o, a, b) == c
    ensures Power(o, i + j) == c
  {
    PowersMultiply(o, i, j);
  }

  /** If x^d = 1 then x^(i + k d) = x^i. */
  lemma {:induction false} Periodic<T(!new)>(o: Ops<T>, d: nat, i: nat, k: nat)
    requires Ring(o) && Power(o, d) == o.one
    ensures Power(o, i + k * d) == Power(o, i)
    decreases k
  {
    if k > 0 {
      Periodic(o, d, i, k - 1);
      PowersMultiply(o, d, i + (k - 1) * d);
      TimesOne(o, Power(o, i));
      assert d + (i + (k - 1) * d) == i + k * d;
    }
  }

  lemma OneAtMultiples<T(!new)>(o: Ops<T>, d: nat, m: nat)
    requires Ring(o) && d > 0 && Power(o, d) == o.one && m % d == 0
    ensures Power(o, m) == o.one
  {
    assert 0 + (m / d) * d == m;
    Periodic(o, d, 0, m / d);
  }

  /** Every proper divisor of `n` divides one of `ds`. */
  ghost predicate Covers(n: nat, ds: set<nat>) {
    n > 0 && forall d: nat {:trigger n % d} :: 1 <= d < n && n % d == 0 ==> exists m :: m in ds && m % d == 0
  }

  /** An order smaller than `n` would divide `n`, and so one of its largest divisors. */
  lemma {:induction false} OrderIsFull<T(!new)>(o: Ops<T>, n: nat, ds: set<nat>, d: nat)
    requires Ring(o) && Covers(n, ds) && Power(o, n) == o.one && forall m :: m in ds ==> Power(o, m) != o.one
    requires 0 < d < n
    ensures Power(o, d) != o.one
    decreases d
  {
    if Power(o, d) == o.one {
      var r := n % d;
      assert r + (n / d) * d == n;
      Periodic(o, d, r, n / d);
      if r > 0 {
        OrderIsFull(o, n, ds, r);
      } else {
        var m :| m in ds && m % d == 0;
        OneAtMultiples(o, d, m);
      }
    }
  }

  /* ---- the powers run through every nonzero element ---- */

  lemma {:induction false} PowerPeriod<T(!new)>(o: Ops<T>, i: nat)
    requires Cyclic(o)
    ensures Power(o, i + o.order) == Power(o, i)
    decreases i
  {
    if i > 0 { PowerPeriod(o, i - 1); }
  }

  lemma {:induction false} PowersDiffer<T(!new)>(o: Ops<T>, i: nat, j: nat)
    requires Cyclic(o) && i < j < o.order
    ensures Power(o, i) != Power(o, j)
    decreases i
  {
    if i > 0 { PowersDiffer(o, i - 1, j - 1); }
  }

  lemma {:induction false} PowerNotZero<T(!new)>(o: Ops<T>, i: nat)
    requires Cyclic(o) && o.dbl(o.zero) == o.zero
    ensures Power(o, i) != o.zero
    decreases i
  {
    if i > 0 {
      PowerNotZero(o, i - 1);
      assert o.dbl(o.zero) == o.zero;
    }
  }

  function Reached<T>(o: Ops<T>, n: nat): set<nat> {
    if n == 0 then {} else Reached(o, n - 1) + {o.index(Power(o, n - 1))}
  }

  lemma {:induction false} ReachedBy<T(!new)>(o: Ops<T>, n: nat, k: nat)
    requires k in Reached(o, n)
    ensures exists i :: 0 <= i < n && o.index(Power(o, i)) == k
    decreases n
  {
    if k != o.index(Power(o, n - 1)) { ReachedBy(o, n - 1, k); }
  }

  lemma {:induction false} ReachedSize<T(!new)>(o: Ops<T>, n: nat)
    requires Cyclic(o) && (forall a, b :: o.index(a) == o.index(b) ==> a == b) && n <= o.order
    ensures |Reached(o, n)| == n
    decreases n
  {
    if n > 0 {
      ReachedSize(o, n - 1);
      NewlyReached(o, n - 1);
    }
  }

  lemma NewlyReached<T(!new)>(o: Ops<T>, n: nat)
    requires Cyclic(o) && (forall a, b :: o.index(a) == o.index(b) ==> a == b) && n < o.order
    ensures o.index(Power(o, n)) !in Reached(o, n)
  {
    if o.index(Power(o, n)) in Reached(o, n) {
      ReachedBy(o, n, o.index(Power(o, n)));
      var i :| 0 <= i < n && o.index(Power(o, i)) == o.index(Power(o, n));
      PowersDiffer(o, i, n);
    }
  }

  function UpTo(n: nat): (s: set<nat>)
    ensures |s| == n && forall k :: k in s <==> 1 <= k <= n
  {
    if n == 0 then {} else UpTo(n - 1) + {n}
  }

  /** Pigeonhole: as many different nonzero powers as nonzero elements. */
  lemma EveryNonzeroIsAPower<T(!new)>(o: Ops<T>, a: T)
    requires Laws(o) && a != o.zero
    ensures exists i :: 0 <= i < o.order && Power(o, i) == a
  {
    ReachedSize(o, o.order);
    forall k | k in Reached(o, o.order) ensures k in UpTo(o.order) {
      ReachedBy(o, o.order, k);
      var i :| 0 <= i < o.order && o.index(Power(o, i)) == k;
      PowerNotZero(o, i);
    }
    var rest := UpTo(o.order) - Reached(o, o.order);
    assert |rest| == |UpTo(o.order)| - |Reached(o, o.order)|;
    assert o.index(a) in UpTo(o.order) && o.index(a) !in rest;
    ReachedBy(o, o.order, o.index(a));
  }

  lemma TimesComm<T(!new)>(o: Ops<T>, a: T, b: T)
    requires Laws(o)
    ensures Times(o, a, b) == Times(o, b, a)
  {
    TimesZero(o, a);
    TimesZero(o, b);
    if a != o.zero && b != o.zero {
      EveryNonzeroIsAPower(o, a);
      EveryNonzeroIsAPower(o, b);
      var i :| 0 <= i < o.order && Power(o, i) == a;
      var j :| 0 <= j < o.order && Power(o, j) == b;
      PowersMultiply(o, i, j);
      PowersMultiply(o, j, i);
    }
  }

  lemma PowersAssoc<T(!new)>(o: Ops<T>, i: nat, j: nat, k: nat)
    requires forall m: nat, n: nat :: Times(o, Power(o, m), Power(o, n)) == Power(o, m + n)
    ensures var a, b, c := Power(o, i), Power(o, j), Power(o, k);
            Times(o, Times(o, a, b), c) == Times(o, a, Times(o, b, c))
  {
    assert Times(o, Power(o, i + j), Power(o, k)) == Power(o, i + j + k);
    assert Times(o, Power(o, i), Power(o, j + k)) == Power(o, i + j + k);
  }

  lemma TimesAssoc<T(!new)>(o: Ops<T>, a: T, b: T, c: T)
    requires Laws(o)
    ensures Times(o, Times(o, a, b), c) == Times(o, a, Times(o, b, c))
  {
    if a == o.zero || b == o.zero || c == o.zero {
      TimesZero(o, a);
      TimesZero(o, b);
      TimesZero(o, c);
      TimesZero(o, Times(o, a, b));
      TimesZero(o, Times(o, b, c));
    } else {
      EveryNonzeroIsAPower(o, a);
      EveryNonzeroIsAPower(o, b);
      EveryNonzeroIsAPower(o, c);
      var i :| 0 <= i < o.order && Power(o, i) == a;
      var j :| 0 <= j < o.order && Power(o, j) == b;
      var k :| 0 <= k < o.order && Power(o, k) == c;
      forall m: nat, n: nat ensures Times(o, Power(o, m), Power(o, n)) == Power(o, m + n) {
        PowersMultiply(o, m, n);
      }
      PowersAssoc(o, i, j, k);
    }
  }
}
