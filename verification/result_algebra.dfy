/** The symbolic result algebra: a Result is either a final lattice value or
    a pending sum (join) of products, each product being a value met with the
    still unknown values of a set of ids. ResultUtil.join combines two results
    while guarding against equations that grow too large. */
module ResultAlgebra {
  import opened Lattice

  /** A conjunctive term: `value` met with the eventual values of `ids`. */
  datatype Product<Id(==), T(==)> = Product(value: T, ids: set<Id>)

  datatype Result<Id(==), T(==)> = Final(value: T) | Pending(sum: set<Product<Id, T>>)

  /** One equation `id = rhs` as produced by the analysis. */
  datatype Equation<Id(==), T(==)> = Equation(id: Id, rhs: Result<Id, T>)

  /** The source raises AnalyzerException("Equation size is too big"). */
  datatype AnalyzerError = EquationTooBig

  datatype Outcome = Pass | Fail(error: AnalyzerError)

  datatype Fallible<R> = Success(value: R) | Failure(error: AnalyzerError)

  /** The number of ids over all products of a sum; the quantity that the
      size circuit-breaker bounds. */
  ghost function TotalIds<Id, T>(sum: set<Product<Id, T>>): nat
  {
    if sum == {} then 0
    else
      var p :| p in sum;
      |p.ids| + TotalIds(sum - {p})
  }

  /** TotalIds does not depend on the product picked first. */
  lemma {:induction false} TotalIdsRemove<Id, T>(sum: set<Product<Id, T>>, p: Product<Id, T>)
    requires p in sum
    ensures TotalIds(sum) == |p.ids| + TotalIds(sum - {p})
    decreases |sum|
  {
    var q :| q in sum && TotalIds(sum) == |q.ids| + TotalIds(sum - {q});
    if q != p {
      TotalIdsRemove(sum - {q}, p);
      TotalIdsRemove(sum - {p}, q);
      assert sum - {q} - {p} == sum - {p} - {q};
    }
  }

  /** Counting over a union counts the shared products once. */
  lemma {:induction false} TotalIdsUnion<Id, T>(a: set<Product<Id, T>>, b: set<Product<Id, T>>)
    ensures TotalIds(a + b) + TotalIds(a * b) == TotalIds(a) + TotalIds(b)
    decreases |a|
  {
    if a != {} {
      var p :| p in a;
      var a' := a - {p};
      TotalIdsUnion(a', b);
      TotalIdsRemove(a, p);
      if p in b {
        assert a + b == a' + b;
        assert a * b == a' * b + {p};
        TotalIdsRemove(a * b, p);
        assert a * b - {p} == a' * b;
      } else {
        assert a * b == a' * b;
        TotalIdsRemove(a + b, p);
        assert a + b - {p} == a' + b;
      }
    } else {
      assert a + b == b;
      assert a * b == {};
    }
  }

  /** Adding a constant (a product without ids) leaves the size unchanged. */
  lemma ConstantAddsNoIds<Id, T>(sum: set<Product<Id, T>>, v: T)
    ensures TotalIds(sum + {Product(v, {})}) == TotalIds(sum)
  {
    var c: Product<Id, T> := Product(v, {});
    if c !in sum {
      TotalIdsRemove(sum + {c}, c);
      assert sum + {c} - {c} == sum;
    } else {
      assert sum + {c} == sum;
    }
  }

  /** ResultUtil: the lattice and the equation size limit
      (Analysis.EQUATION_SIZE_LIMIT, a parameter here). */
  datatype ResultUtil<T(==)> = ResultUtil(lattice: ELattice<T>, sizeLimit: int) {

    function Top(): T {
      lattice.top
    }

    /** What joining two results yields, as a value. */
    ghost function Combine<Id>(r1: Result<Id, T>, r2: Result<Id, T>): Fallible<Result<Id, T>>
    {
      if r1.Final? && r1.value == Top() then Success(r1)
      else if r2.Final? && r2.value == Top() then Success(r2)
      else match (r1, r2)
        case (Final(v1), Final(v2)) => Success(Final(lattice.Join(v1, v2)))
        case (Final(v1), Pending(s2)) => Success(Pending(s2 + {Product(v1, {})}))
        case (Pending(s1), Final(v2)) => Success(Pending(s1 + {Product(v2, {})}))
        case (Pending(s1), Pending(s2)) =>
          if TotalIds(s1 + s2) > sizeLimit then Failure(EquationTooBig)
          else Success(Pending(s1 + s2))
    }

    /** ResultUtil.checkLimit: sums the id counts of the products and fails
        when the sum exceeds the limit. */
    method CheckLimit<Id(==)>(sum: set<Product<Id, T>>) returns (o: Outcome)
      ensures o == if TotalIds(sum) > sizeLimit then Fail(EquationTooBig) else Pass
    {
      var size := 0;
      var rest := sum;
      while rest != {}
        invariant rest <= sum
        invariant size + TotalIds(rest) == TotalIds(sum)
        decreases rest
      {
        var prod :| prod in rest;
        TotalIdsRemove(rest, prod);
        size := size + |prod.ids|;
        rest := rest - {prod};
      }
      if size > sizeLimit {
        return Fail(EquationTooBig);
      }
      return Pass;
    }

    /** ResultUtil.join. The result sets are fresh values, so the operands
        are never changed. */
    method Join<Id(==)>(r1: Result<Id, T>, r2: Result<Id, T>) returns (o: Fallible<Result<Id, T>>)
      ensures o == Combine(r1, r2)
    {
      if r1.Final? && r1.value == Top() {
        return Success(r1);
      }
      if r2.Final? && r2.value == Top() {
        return Success(r2);
      }
      if r1.Final? && r2.Final? {
        return Success(Final(lattice.Join(r1.value, r2.value)));
      }
      if r1.Final? && r2.Pending? {
        var sum1 := r2.sum + {Product(r1.value, {})};
        return Success(Pending(sum1));
      }
      if r1.Pending? && r2.Final? {
        var sum1 := r1.sum + {Product(r2.value, {})};
        return Success(Pending(sum1));
      }
      var sum := r1.sum + r2.sum;
      var check := CheckLimit(sum);
      if check.Fail? {
        return Failure(check.error);
      }
      return Success(Pending(sum));
    }
  }

  /** A Final(top) operand is returned as it is, whichever side it is on. */
  lemma JoinTopAbsorbs<Id, T>(u: ResultUtil<T>, r: Result<Id, T>)
    ensures u.Combine(Final(u.Top()), r) == Success(Final(u.Top()))
    ensures u.Combine(r, Final(u.Top())) == Success(Final(u.Top()))
  {
  }

  /** Two final operands join in the lattice. */
  lemma JoinFinals<Id, T>(u: ResultUtil<T>, v1: T, v2: T)
    requires u.lattice.WellFormed()
    ensures u.Combine<Id>(Final(v1), Final(v2)) == Success(Final(u.lattice.Join(v1, v2)))
  {
  }

  /** A final operand joins a pending one as a product without ids, in either
      order, and this leaves the size of the sum unchanged (which is why no
      limit is checked in this case). */
  lemma JoinFinalPending<Id, T>(u: ResultUtil<T>, v: T, s: set<Product<Id, T>>)
    ensures v != u.Top() ==>
      u.Combine(Final(v), Pending(s)) == Success(Pending(s + {Product(v, {})})) &&
      u.Combine(Pending(s), Final(v)) == Success(Pending(s + {Product(v, {})}))
    ensures TotalIds(s + {Product(v, {})}) == TotalIds(s)
  {
    ConstantAddsNoIds(s, v);
  }

  /** Two pending operands give the union of their sums, or the size error
      exactly when the union holds more ids than the limit; when the sums
      share no product, that is when their sizes add up to more than the
      limit. */
  lemma JoinPendings<Id, T>(u: ResultUtil<T>, s1: set<Product<Id, T>>, s2: set<Product<Id, T>>)
    ensures u.Combine(Pending(s1), Pending(s2)).Failure? <==> TotalIds(s1 + s2) > u.sizeLimit
    ensures u.Combine(Pending(s1), Pending(s2)).Success? ==>
      u.Combine(Pending(s1), Pending(s2)).value == Pending(s1 + s2)
    ensures s1 !! s2 ==>
      (u.Combine(Pending(s1), Pending(s2)).Failure? <==> TotalIds(s1) + TotalIds(s2) > u.sizeLimit)
  {
    TotalIdsUnion(s1, s2);
    if s1 !! s2 {
      assert s1 * s2 == {};
    }
  }

  /** Joining results is commutative. */
  lemma JoinCommutes<Id, T>(u: ResultUtil<T>, r1: Result<Id, T>, r2: Result<Id, T>)
    ensures u.Combine(r1, r2) == u.Combine(r2, r1)
  {
    if r1.Final? && r2.Final? {
      JoinCommutative(u.lattice, r1.value, r2.value);
    } else if r1.Pending? && r2.Pending? {
      assert r1.sum + r2.sum == r2.sum + r1.sum;
    }
  }
}
