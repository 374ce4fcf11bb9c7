/** What the polynomial loops need of the bytes' arithmetic, with no trace of how it is
    computed: addition, multiplication and the powers of one element. */
module Algebras {
  import opened Field

  datatype Algebra<!T> = Algebra(zero: T, one: T, add: (T, T) -> T, mul: (T, T) -> T, power: nat -> T)

  ghost predicate Regroups<T>(o: Algebra<T>, a: T, b: T, c: T, d: T) {
    o.add(o.add(a, b), o.add(c, d)) == o.add(o.add(a, c), o.add(b, d))
  }

  ghost predicate Distributes<T>(o: Algebra<T>, a: T, b: T, c: T) {
    o.mul(o.add(a, b), c) == o.add(o.mul(a, c), o.mul(b, c)) && o.mul(c, o.add(a, b)) == o.add(o.mul(c, a), o.mul(c, b))
  }

  ghost predicate Associates<T>(o: Algebra<T>, a: T, b: T, c: T) { o.mul(o.mul(a, b), c) == o.mul(a, o.mul(b, c)) }

  ghost predicate Commutes<T>(o: Algebra<T>, a: T, b: T) { o.mul(a, b) == o.mul(b, a) }

  /** Every element is its own negative, and the only one. */
  ghost predicate Cancels<T>(o: Algebra<T>, a: T, b: T) { o.add(a, b) == o.zero <==> a == b }

  ghost predicate Domain<T>(o: Algebra<T>, a: T, b: T) { o.mul(a, b) == o.zero <==> a == o.zero || b == o.zero }

  ghost predicate PowersAdd<T>(o: Algebra<T>, i: nat, j: nat) { o.mul(o.power(i), o.power(j)) == o.power(i + j) }

  ghost predicate Units<T(!new)>(o: Algebra<T>) {
    && (forall a {:trigger o.add(a, o.zero)} :: o.add(a, o.zero) == a)
    && (forall a {:trigger o.add(o.zero, a)} :: o.add(o.zero, a) == a)
    && (forall a {:trigger o.mul(a, o.zero)} :: o.mul(a, o.zero) == o.zero)
    && (forall a {:trigger o.mul(o.zero, a)} :: o.mul(o.zero, a) == o.zero)
    && (forall a {:trigger o.mul(a, o.one)} :: o.mul(a, o.one) == a)
    && (forall a {:trigger o.mul(o.one, a)} :: o.mul(o.one, a) == a)
    && o.power(0) == o.one && o.one != o.zero
  }

  /** A commutative domain in which every element is its own negative. */
  ghost predicate Good<T(!new)>(o: Algebra<T>) {
    && Units(o)
    && (forall a, b, c, d :: Regroups(o, a, b, c, d))
    && (forall a, b, c :: Distributes(o, a, b, c))
    && (forall a, b, c :: Associates(o, a, b, c))
    && (forall a, b :: Commutes(o, a, b))
    && (forall a, b :: Cancels(o, a, b))
    && (forall a, b :: Domain(o, a, b))
    && (forall i: nat, j: nat :: PowersAdd(o, i, j))
  }

  /* ---- fields are good algebras ---- */

  function AlgebraOf<T>(o: Ops<T>): Algebra<T> {
    Algebra(o.zero, o.one, o.add, (a, b) => Times(o, a, b), (i: nat) => Power(o, i))
  }

  lemma NonzeroProduct<T(!new)>(o: Ops<T>, i: nat, j: nat)
    requires Laws(o)
    ensures Times(o, Power(o, i), Power(o, j)) != o.zero
  {
    PowersMultiply(o, i, j);
    PowerNotZero(o, i + j);
  }

  lemma NoZeroDivisors<T(!new)>(o: Ops<T>, a: T, b: T)
    requires Laws(o)
    ensures Times(o, a, b) == o.zero <==> a == o.zero || b == o.zero
  {
    if a == o.zero {
      TimesZero(o, b);
    } else if b == o.zero {
      TimesZero(o, a);
    } else {
      EveryNonzeroIsAPower(o, a);
      EveryNonzeroIsAPower(o, b);
      var i :| 0 <= i < o.order && Power(o, i) == a;
      var j :| 0 <= j < o.order && Power(o, j) == b;
      NonzeroProduct(o, i, j);
    }
  }

  lemma SumIsZero<T(!new)>(o: Ops<T>, a: T, b: T)
    requires Additive(o)
    ensures o.add(a, b) == o.zero <==> a == b
  {
    if o.add(a, b) == o.zero {
      assert Swaps(o, a, b, o.zero, b);
    }
  }

  lemma FieldUnits<T(!new)>(o: Ops<T>)
    requires Laws(o)
    ensures Units(AlgebraOf(o))
  {
    forall a ensures Times(o, a, o.zero) == o.zero && Times(o, o.zero, a) == o.zero { TimesZero(o, a); }
    forall a ensures Times(o, o.one, a) == a && Times(o, a, o.one) == a { TimesOne(o, a); }
  }

  lemma FieldAddition<T(!new)>(o: Ops<T>)
    requires Laws(o)
    ensures var r := AlgebraOf(o);
            && (forall a, b, c, d :: Regroups(r, a, b, c, d)) && (forall a, b, c :: Distributes(r, a, b, c))
            && (forall a, b :: Cancels(r, a, b))
  {
    var r := AlgebraOf(o);
    forall a, b, c, d ensures Regroups(r, a, b, c, d) { assert Swaps(o, a, b, c, d); }
    forall a, b, c ensures Distributes(r, a, b, c) { TimesAdd(o, a, b, c); }
    forall a, b ensures Cancels(r, a, b) { SumIsZero(o, a, b); }
  }

  lemma FieldMultiplication<T(!new)>(o: Ops<T>)
    requires Laws(o)
    ensures var r := AlgebraOf(o);
            && (forall a, b, c :: Associates(r, a, b, c)) && (forall a, b :: Commutes(r, a, b))
            && (forall a, b :: Domain(r, a, b)) && (forall i: nat, j: nat :: PowersAdd(r, i, j))
  {
    var r := AlgebraOf(o);
    forall a, b, c ensures Associates(r, a, b, c) { TimesAssoc(o, a, b, c); }
    forall a, b ensures Commutes(r, a, b) { TimesComm(o, a, b); }
    forall a, b ensures Domain(r, a, b) { NoZeroDivisors(o, a, b); }
    forall i: nat, j: nat ensures PowersAdd(r, i, j) { PowersMultiply(o, i, j); }
  }

  lemma FieldIsGood<T(!new)>(o: Ops<T>)
    requires Laws(o)
    ensures Good(AlgebraOf(o))
  {
    FieldUnits(o);
    FieldAddition(o);
    FieldMultiplication(o);
  }
}
