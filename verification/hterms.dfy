/** The terms the solver works on. A pending right-hand side is a sequence
    of components; a component is a lattice value met with the unknown values of
    a set of keys, and the term is the join of its components. This module
    gives the value-level meaning of normalize and substitute, and the facts
    about them that the solver relies on. */
module HTerms {
  import opened Lattice

  /** A component: `value` met with the values of the keys in `ids`. When a
      key is resolved the solver replaces both fields. */
  datatype HComponent<K(==), V(==)> = HComponent(value: V, ids: set<K>) {
    predicate IsEmpty() {
      ids == {}
    }
  }

  /** HFinal(value) or HPending(delta), the pending term being the sequence
      of its components. */
  datatype HResult<K(==), V(==)> = HFinal(value: V) | HPending(delta: seq<HComponent<K, V>>)

  /** One equation `key = result`. */
  datatype HEquation<K(==), V(==)> = HEquation(key: K, result: HResult<K, V>)

  /** A component normalize folds into its accumulator: it has no key left,
      or its value is already bottom. */
  predicate Foldable<K, V>(l: ELattice<V>, c: HComponent<K, V>) {
    c.IsEmpty() || c.value == l.bot
  }

  /** The accumulator of normalize after scanning `sum` from left to right:
      the join, starting from bottom, of the values of the foldable
      components. */
  function Acc<K, V>(l: ELattice<V>, sum: seq<HComponent<K, V>>): V
    decreases |sum|
  {
    if sum == [] then l.bot
    else
      var acc := Acc(l, sum[..|sum| - 1]);
      var last := sum[|sum| - 1];
      if Foldable(l, last) then l.Join(acc, last.value) else acc
  }

  predicate AllFoldable<K, V>(l: ELattice<V>, sum: seq<HComponent<K, V>>) {
    forall i :: 0 <= i < |sum| ==> Foldable(l, sum[i])
  }

  /** normalize answers Final exactly when this holds: the accumulator has
      reached top, or every component was folded. */
  predicate Resolves<K, V>(l: ELattice<V>, sum: seq<HComponent<K, V>>) {
    Acc(l, sum) == l.top || AllFoldable(l, sum)
  }

  /** The keys a term still depends on. */
  ghost function Mentioned<K, V>(sum: seq<HComponent<K, V>>): set<K> {
    set i, k | 0 <= i < |sum| && k in sum[i].ids :: k
  }

  /** One component after `id` has been resolved to `v`. */
  function SubstComponent<K, V>(l: ELattice<V>, c: HComponent<K, V>, id: K, v: V): HComponent<K, V> {
    if id in c.ids then HComponent(l.Meet(c.value, v), c.ids - {id}) else c
  }

  /** A term after `id` has been resolved to `v`. */
  function Subst<K, V>(l: ELattice<V>, sum: seq<HComponent<K, V>>, id: K, v: V): seq<HComponent<K, V>> {
    seq(|sum|, i requires 0 <= i < |sum| => SubstComponent(l, sum[i], id, v))
  }

  /** The values the foldable components contribute (bottom contributes
      nothing to a join). */
  ghost function FoldedValues<K, V>(l: ELattice<V>, sum: seq<HComponent<K, V>>): set<V> {
    set i | 0 <= i < |sum| && Foldable(l, sum[i]) && sum[i].value != l.bot :: sum[i].value
  }

  /** The join of a set of values in a flat lattice: bottom for none, the
      value itself for one, top for two or more. */
  ghost function FlatJoin<V>(l: ELattice<V>, vs: set<V>): V {
    if vs == {} then l.bot
    else if |vs| == 1 then var v :| v in vs; v
    else l.top
  }

  lemma FoldedValuesStep<K, V>(l: ELattice<V>, sum: seq<HComponent<K, V>>)
    requires sum != []
    ensures var last := sum[|sum| - 1];
      FoldedValues(l, sum) ==
        FoldedValues(l, sum[..|sum| - 1]) +
        (if Foldable(l, last) && last.value != l.bot then {last.value} else {})
  {
    var p := sum[..|sum| - 1];
    var last := sum[|sum| - 1];
    forall x | x in FoldedValues(l, sum)
      ensures x in FoldedValues(l, p) || (Foldable(l, last) && last.value != l.bot && x == last.value)
    {
      var i :| 0 <= i < |sum| && Foldable(l, sum[i]) && sum[i].value != l.bot && sum[i].value == x;
      if i < |sum| - 1 {
        assert p[i] == sum[i];
      }
    }
    forall x | x in FoldedValues(l, p) ensures x in FoldedValues(l, sum) {
      var i :| 0 <= i < |p| && Foldable(l, p[i]) && p[i].value != l.bot && p[i].value == x;
      assert sum[i] == p[i];
    }
    if Foldable(l, last) && last.value != l.bot {
      assert sum[|sum| - 1] == last;
    }
  }

  /** The accumulator is the flat join of the folded values, whatever the
      order of the components: bottom when nothing non-bottom was folded,
      the one value when all folded values agree, top otherwise. */
  lemma {:induction false} AccIsFlatJoin<K, V>(l: ELattice<V>, sum: seq<HComponent<K, V>>)
    requires l.WellFormed()
    ensures Acc(l, sum) == FlatJoin(l, FoldedValues(l, sum))
    decreases |sum|
  {
    if sum == [] {
      assert FoldedValues(l, sum) == {};
    } else {
      var p := sum[..|sum| - 1];
      var last := sum[|sum| - 1];
      AccIsFlatJoin(l, p);
      FoldedValuesStep(l, sum);
      var fp := FoldedValues(l, p);
      if Foldable(l, last) && last.value != l.bot {
        var w := last.value;
        assert FoldedValues(l, sum) == fp + {w};
        if fp == {} {
          assert fp + {w} == {w};
        } else if |fp| == 1 {
          var u :| u in fp;
          Singleton(fp, u);
          if u == w {
            assert fp + {w} == {w};
          } else {
            assert fp + {w} == {u, w};
          }
        } else {
          SubsetCard(fp, fp + {w});
        }
      }
    }
  }

  /** The flat join grows with the set it is taken over. */
  lemma FlatJoinMonotone<V>(l: ELattice<V>, a: set<V>, b: set<V>)
    requires l.WellFormed()
    requires a <= b
    ensures l.Leq(FlatJoin(l, a), FlatJoin(l, b))
  {
    if a != {} && |a| == 1 && |b| == 1 {
      var u :| u in a;
      var w :| w in b;
      Singleton(a, u);
      Singleton(b, w);
    } else if a != {} && |a| > 1 {
      assert |a| <= |b| by { SubsetCard(a, b); }
    }
  }

  lemma Singleton<V>(s: set<V>, u: V)
    requires u in s && |s| == 1
    ensures s == {u}
  {
    if x :| x in s && x != u {
      SubsetCard({x, u}, s);
    }
  }

  lemma SubsetCard<V>(a: set<V>, b: set<V>)
    requires a <= b
    ensures |a| <= |b|
  {
    assert b == a + (b - a);
  }

  /** The normalize accumulator, and whether the term resolves, do not
      depend on the order of the components. */
  lemma AccOrderIndependent<K, V>(l: ELattice<V>, s1: seq<HComponent<K, V>>, s2: seq<HComponent<K, V>>)
    requires l.WellFormed()
    requires multiset(s1) == multiset(s2)
    ensures Acc(l, s1) == Acc(l, s2)
    ensures Resolves(l, s1) == Resolves(l, s2)
  {
    forall x | x in FoldedValues(l, s1) ensures x in FoldedValues(l, s2) {
      var i :| 0 <= i < |s1| && Foldable(l, s1[i]) && s1[i].value != l.bot && s1[i].value == x;
      assert s1[i] in multiset(s2);
      var j :| 0 <= j < |s2| && s2[j] == s1[i];
    }
    forall x | x in FoldedValues(l, s2) ensures x in FoldedValues(l, s1) {
      var j :| 0 <= j < |s2| && Foldable(l, s2[j]) && s2[j].value != l.bot && s2[j].value == x;
      assert s2[j] in multiset(s1);
      var i :| 0 <= i < |s1| && s1[i] == s2[j];
    }
    assert FoldedValues(l, s1) == FoldedValues(l, s2);
    AccIsFlatJoin(l, s1);
    AccIsFlatJoin(l, s2);
    if !AllFoldable(l, s1) {
      var i :| 0 <= i < |s1| && !Foldable(l, s1[i]);
      assert s1[i] in multiset(s2);
      var j :| 0 <= j < |s2| && s2[j] == s1[i];
    }
    if !AllFoldable(l, s2) {
      var j :| 0 <= j < |s2| && !Foldable(l, s2[j]);
      assert s2[j] in multiset(s1);
      var i :| 0 <= i < |s1| && s1[i] == s2[j];
    }
  }

  /** Substitution removes `id` from exactly the components that held it and
      lowers their value by a meet; the other components are unchanged, so no
      component value ever increases. The term then depends on exactly the
      keys it depended on except `id`. */
  lemma SubstLowers<K, V>(l: ELattice<V>, sum: seq<HComponent<K, V>>, id: K, v: V)
    requires l.WellFormed()
    ensures |Subst(l, sum, id, v)| == |sum|
    ensures forall i :: 0 <= i < |sum| ==>
      var c, c' := sum[i], Subst(l, sum, id, v)[i];
      c'.ids == c.ids - {id} &&
      l.Leq(c'.value, c.value) &&
      (id in c.ids ==> c'.value == l.Meet(c.value, v)) &&
      (id !in c.ids ==> c' == c)
    ensures Mentioned(Subst(l, sum, id, v)) == Mentioned(sum) - {id}
  {
    var s' := Subst(l, sum, id, v);
    forall i | 0 <= i < |sum| ensures l.Leq(s'[i].value, sum[i].value) {
      Bounds(l, sum[i].value, v, sum[i].value);
    }
    forall k | k in Mentioned(s') ensures k in Mentioned(sum) - {id} {
      var i :| 0 <= i < |s'| && k in s'[i].ids;
    }
    forall k | k in Mentioned(sum) - {id} ensures k in Mentioned(s') {
      var i :| 0 <= i < |sum| && k in sum[i].ids;
      assert k in s'[i].ids;
    }
  }

  /** Substitution never lowers what normalize has folded so far: foldable
      components stay foldable with the same value, so the accumulator can
      only grow, and a term that resolved still resolves. */
  lemma AccGrowsUnderSubst<K, V>(l: ELattice<V>, sum: seq<HComponent<K, V>>, id: K, v: V)
    requires l.WellFormed()
    ensures l.Leq(Acc(l, sum), Acc(l, Subst(l, sum, id, v)))
    ensures Resolves(l, sum) ==> Resolves(l, Subst(l, sum, id, v))
  {
    var s' := Subst(l, sum, id, v);
    forall x | x in FoldedValues(l, sum) ensures x in FoldedValues(l, s') {
      var i :| 0 <= i < |sum| && Foldable(l, sum[i]) && sum[i].value != l.bot && sum[i].value == x;
      assert s'[i] == sum[i];
    }
    forall i | 0 <= i < |sum| && Foldable(l, sum[i]) ensures Foldable(l, s'[i]) {
      Absorbing(l, v);
    }
    AccIsFlatJoin(l, sum);
    AccIsFlatJoin(l, s');
    FlatJoinMonotone(l, FoldedValues(l, sum), FoldedValues(l, s'));
    if Acc(l, sum) == l.top {
      LeqPartialOrder(l, Acc(l, s'), l.top, l.top);
    }
  }
}
