/** The worklist solver for equations over the flat lattice. Equations whose
    right-hand side is known are recorded in `solved` and pushed on `moving`;
    the others wait in `pending`, indexed in reverse by the keys they mention.
    `Solve` pops resolved keys and substitutes their value into every pending
    term that mentions them until nothing moves any more. */
module EquationSolver {
  import opened Lattice
  import opened HTerms

  /** `deps` after `key` has been added as a dependent of every key in
      `triggers`. */
  ghost function Register<K>(deps: map<K, set<K>>, triggers: set<K>, key: K): map<K, set<K>> {
    map id | id in deps.Keys + triggers ::
      (if id in deps then deps[id] else {}) + (if id in triggers then {key} else {})
  }

  /** The reverse index is complete: a key that a pending term still mentions
      leads back to that term. */
  ghost predicate Indexed<K, V>(terms: map<K, seq<HComponent<K, V>>>, deps: map<K, set<K>>) {
    forall k, i, id :: k in terms && 0 <= i < |terms[k]| && id in terms[k][i].ids ==>
      id in deps && k in deps[id]
  }

  /** No pending term mentions any key of `keys`. */
  ghost predicate Avoids<K, V>(terms: map<K, seq<HComponent<K, V>>>, keys: set<K>) {
    forall k, i :: k in terms && 0 <= i < |terms[k]| ==> terms[k][i].ids !! keys
  }

  /** `terms` arose from `before` by dropping terms and dropping keys from
      components. */
  ghost predicate Shrunk<K, V>(terms: map<K, seq<HComponent<K, V>>>, before: map<K, seq<HComponent<K, V>>>) {
    && terms.Keys <= before.Keys
    && (forall k :: k in terms ==> |terms[k]| == |before[k]|)
    && (forall k, i :: k in terms && 0 <= i < |terms[k]| ==> terms[k][i].ids <= before[k][i].ids)
  }

  /** Whether the term of `k` is settled once `t` became its new value:
      recorded as solved when `t` resolves, still pending as `t` otherwise. */
  ghost predicate Settled<K, V>(l: ELattice<V>, pending: map<K, seq<HComponent<K, V>>>, solved: map<K, V>, k: K, t: seq<HComponent<K, V>>) {
    if Resolves(l, t) then k !in pending && k in solved && solved[k] == Acc(l, t)
    else k in pending && pending[k] == t
  }

  /** The terms `P0` after the pair `a` and then the pair `b` were
      propagated: a term that resolves once `a` is substituted is recorded
      as solved with that value and `b` leaves it alone; any other term is
      settled with both substituted. */
  ghost predicate SettledPair<K, V>(l: ELattice<V>, P0: map<K, seq<HComponent<K, V>>>,
    pending: map<K, seq<HComponent<K, V>>>, solved: map<K, V>, a: (K, V), b: (K, V))
  {
    forall k :: k in P0 ==>
      var t := Subst(l, P0[k], a.0, a.1);
      if Resolves(l, t) then k !in pending && k in solved && solved[k] == Acc(l, t)
      else Settled(l, pending, solved, k, Subst(l, t, b.0, b.1))
  }

  /** The invariant of the solver's state. */
  ghost predicate Consistent<K, V>(l: ELattice<V>, size: int, queued: set<K>, duplicates: nat,
    dependencies: map<K, set<K>>, pending: map<K, seq<HComponent<K, V>>>, solved: map<K, V>, moving: seq<K>)
  {
    // every registration was counted, a duplicate key too
    && size == |queued| + duplicates
    && solved.Keys <= queued && pending.Keys <= queued
    // every key on the stack already has its value
    && (forall k :: k in moving ==> k in solved)
    && |moving| + |pending.Keys| <= size
    && Indexed(pending, dependencies)
    // a pending term is one that normalize could not resolve
    && (forall k {:trigger Resolves(l, pending[k])} :: k in pending ==> !Resolves(l, pending[k]))
  }

  /** Dropping a term keeps the reverse index complete. */
  lemma IndexedRemove<K, V>(terms: map<K, seq<HComponent<K, V>>>, deps: map<K, set<K>>, d: K)
    requires Indexed(terms, deps)
    ensures Indexed(terms - {d}, deps)
  {
    var terms': map<K, seq<HComponent<K, V>>> := terms - {d};
    forall k, i, id | k in terms' && 0 <= i < |terms'[k]| && id in terms'[k][i].ids
      ensures id in deps && k in deps[id]
    {
      assert id in terms[k][i].ids;
    }
  }

  /** Substituting into a term keeps the reverse index complete: it only
      removes keys from components. */
  lemma IndexedSubst<K, V>(l: ELattice<V>, terms: map<K, seq<HComponent<K, V>>>, deps: map<K, set<K>>, d: K, id: K, v: V)
    requires Indexed(terms, deps) && d in terms
    ensures Indexed(terms[d := Subst(l, terms[d], id, v)], deps)
  {
    var terms': map<K, seq<HComponent<K, V>>> := terms[d := Subst(l, terms[d], id, v)];
    forall k, i, x | k in terms' && 0 <= i < |terms'[k]| && x in terms'[k][i].ids
      ensures x in deps && k in deps[x]
    {
      assert x in terms[k][i].ids;
    }
  }

  lemma IndexedShrunk<K, V>(terms: map<K, seq<HComponent<K, V>>>, before: map<K, seq<HComponent<K, V>>>, deps: map<K, set<K>>)
    requires Indexed(before, deps) && Shrunk(terms, before)
    ensures Indexed(terms, deps)
  {
    forall k, i, id | k in terms && 0 <= i < |terms[k]| && id in terms[k][i].ids
      ensures id in deps && k in deps[id]
    {
      assert id in before[k][i].ids;
    }
  }

  lemma AvoidsShrunk<K, V>(terms: map<K, seq<HComponent<K, V>>>, before: map<K, seq<HComponent<K, V>>>, keys: set<K>)
    requires Avoids(before, keys) && Shrunk(terms, before)
    ensures Avoids(terms, keys)
  {
    forall k, i | k in terms && 0 <= i < |terms[k]| ensures terms[k][i].ids !! keys {
      assert terms[k][i].ids <= before[k][i].ids;
    }
  }

  /** Substituting a key a term does not mention changes nothing. */
  lemma SubstUnmentioned<K, V>(l: ELattice<V>, t: seq<HComponent<K, V>>, id: K, v: V)
    requires forall i :: 0 <= i < |t| ==> id !in t[i].ids
    ensures Subst(l, t, id, v) == t
  {
  }

  lemma MentionedStep<K, V>(t: seq<HComponent<K, V>>, i: nat)
    requires i < |t|
    ensures Mentioned(t[..i + 1]) == Mentioned(t[..i]) + t[i].ids
  {
    var a, b := t[..i + 1], t[..i];
    forall k | k in Mentioned(a) ensures k in Mentioned(b) + t[i].ids {
      var j :| 0 <= j < |a| && k in a[j].ids;
      if j < i {
        assert a[j] == b[j];
      }
    }
    forall k | k in Mentioned(b) + t[i].ids ensures k in Mentioned(a) {
      if k in t[i].ids {
        assert a[i] == t[i];
      } else {
        var j :| 0 <= j < |b| && k in b[j].ids;
        assert a[j] == b[j];
      }
    }
  }

  lemma RegisterNone<K, V>(deps: map<K, set<K>>, t: seq<HComponent<K, V>>, key: K)
    requires t == []
    ensures Register(deps, Mentioned(t), key) == deps
  {
    assert Mentioned(t) == {};
    var r := Register(deps, Mentioned(t), key);
    assert r.Keys == deps.Keys;
    forall id | id in r ensures r[id] == deps[id] {
    }
  }

  lemma RegisterStep<K>(deps: map<K, set<K>>, triggers: set<K>, t: K, key: K)
    ensures var r := Register(deps, triggers, key);
      Register(deps, triggers + {t}, key) == r[t := (if t in r then r[t] else {}) + {key}]
  {
    var r := Register(deps, triggers, key);
    var lhs := Register(deps, triggers + {t}, key);
    var rhs := r[t := (if t in r then r[t] else {}) + {key}];
    assert lhs.Keys == rhs.Keys;
    forall id | id in lhs ensures lhs[id] == rhs[id] {
    }
  }

  /** Registering a new term keeps the reverse index complete. */
  lemma RegisterIndexed<K, V>(terms: map<K, seq<HComponent<K, V>>>, deps: map<K, set<K>>, key: K, t: seq<HComponent<K, V>>)
    requires Indexed(terms, deps)
    ensures Indexed(terms[key := t], Register(deps, Mentioned(t), key))
  {
    var terms': map<K, seq<HComponent<K, V>>> := terms[key := t];
    var deps' := Register(deps, Mentioned(t), key);
    forall k, i, id | k in terms' && 0 <= i < |terms'[k]| && id in terms'[k][i].ids
      ensures id in deps' && k in deps'[id]
    {
      if k == key {
        assert id in Mentioned(t);
      } else {
        assert id in terms[k][i].ids;
      }
    }
  }

  /** Counting one more registration of `key`: either `queued` grows or the
      duplicate counter does. */
  lemma CountRegistration<K>(queued: set<K>, duplicates: nat, key: K)
    ensures |queued + {key}| + (if key in queued then duplicates + 1 else duplicates) == |queued| + duplicates + 1
  {
    if key !in queued {
      assert |queued + {key}| == |queued| + 1;
    } else {
      assert queued + {key} == queued;
    }
  }

  /** Registering an equation whose value is already known keeps the
      invariant of the solver's state. */
  lemma ConsistentAddSolved<K, V>(l: ELattice<V>, size: int, queued: set<K>, duplicates: nat,
    dependencies: map<K, set<K>>, pending: map<K, seq<HComponent<K, V>>>, solved: map<K, V>, moving: seq<K>,
    key: K, v: V)
    requires Consistent(l, size, queued, duplicates, dependencies, pending, solved, moving)
    ensures Consistent(l, size + 1, queued + {key}, if key in queued then duplicates + 1 else duplicates,
      dependencies, pending, solved[key := v], moving + [key])
  {
    CountRegistration(queued, duplicates, key);
  }

  /** Registering an equation whose term normalize could not resolve keeps
      the invariant of the solver's state, the term being indexed under every
      key it mentions. */
  lemma ConsistentAddPending<K, V>(l: ELattice<V>, size: int, queued: set<K>, duplicates: nat,
    dependencies: map<K, set<K>>, pending: map<K, seq<HComponent<K, V>>>, solved: map<K, V>, moving: seq<K>,
    key: K, t: seq<HComponent<K, V>>)
    requires Consistent(l, size, queued, duplicates, dependencies, pending, solved, moving)
    requires !Resolves(l, t)
    ensures Consistent(l, size + 1, queued + {key}, if key in queued then duplicates + 1 else duplicates,
      Register(dependencies, Mentioned(t), key), pending[key := t], solved, moving)
  {
    RegisterIndexed(pending, dependencies, key, t);
    CountRegistration(queued, duplicates, key);
    StoreCard(pending, key, t);
    StoreUnresolved(l, pending, key, t);
  }

  lemma StoreCard<K, V>(pending: map<K, seq<HComponent<K, V>>>, key: K, t: seq<HComponent<K, V>>)
    ensures |pending[key := t].Keys| <= |pending.Keys| + 1
  {
    assert pending[key := t].Keys == pending.Keys + {key};
    if key !in pending {
      assert |pending.Keys + {key}| == |pending.Keys| + 1;
    } else {
      assert pending.Keys + {key} == pending.Keys;
    }
  }

  lemma StoreUnresolved<K, V>(l: ELattice<V>, pending: map<K, seq<HComponent<K, V>>>, key: K, t: seq<HComponent<K, V>>)
    requires forall k {:trigger Resolves(l, pending[k])} :: k in pending ==> !Resolves(l, pending[k])
    requires !Resolves(l, t)
    ensures forall k {:trigger Resolves(l, pending[key := t][k])} :: k in pending[key := t] ==> !Resolves(l, pending[key := t][k])
  {
    var pending' := pending[key := t];
    forall k | k in pending' ensures !Resolves(l, pending'[k]) {
      if k != key {
        assert pending'[k] == pending[k];
      }
    }
  }

  /** The registration loop of addEquation for a term that does not
      resolve: `key` becomes a dependent of every key of every component. */
  method IndexDependents<K, V>(dependencies: map<K, set<K>>, delta: seq<HComponent<K, V>>, key: K)
    returns (deps: map<K, set<K>>)
    ensures deps == Register(dependencies, Mentioned(delta), key)
  {
    deps := dependencies;
    RegisterNone(dependencies, delta[..0], key);
    for i := 0 to |delta|
      invariant deps == Register(dependencies, Mentioned(delta[..i]), key)
    {
      var component := delta[i];
      deps := IndexComponent(deps, component.ids, key, dependencies, Mentioned(delta[..i]));
      MentionedStep(delta, i);
    }
    assert delta[..|delta|] == delta;
  }

  /** The inner loop of the registration: `key` becomes a dependent of every
      key of one component. `deps` has registered `key` under `before`
      already, and afterwards has under `before + triggers`. */
  method IndexComponent<K>(deps: map<K, set<K>>, triggers: set<K>, key: K,
    ghost dependencies: map<K, set<K>>, ghost before: set<K>)
    returns (deps': map<K, set<K>>)
    requires deps == Register(dependencies, before, key)
    ensures deps' == Register(dependencies, before + triggers, key)
  {
    deps' := deps;
    var rest := triggers;
    ghost var seen: set<K> := {};
    assert before + seen == before;
    while rest != {}
      invariant rest <= triggers && seen == triggers - rest
      invariant deps' == Register(dependencies, before + seen, key)
      decreases rest
    {
      var trigger :| trigger in rest;
      var dependents := if trigger in deps' then deps'[trigger] else {};
      RegisterStep(dependencies, before + seen, trigger, key);
      assert before + seen + {trigger} == before + (seen + {trigger});
      deps' := deps'[trigger := dependents + {key}];
      rest := rest - {trigger};
      seen := seen + {trigger};
    }
  }

  /** What revisiting the dependent `d` with `v` for `id` does to the
      pending terms, the values and the stack. */
  ghost predicate Revisited<K, V>(l: ELattice<V>, id: K, v: V, d: K,
    pending: map<K, seq<HComponent<K, V>>>, solved: map<K, V>, moving: seq<K>,
    pending': map<K, seq<HComponent<K, V>>>, solved': map<K, V>, moving': seq<K>)
  {
    if d !in pending then pending' == pending && solved' == solved && moving' == moving
    else
      var t := Subst(l, pending[d], id, v);
      if Resolves(l, t) then
        pending' == pending - {d} && solved' == solved[d := Acc(l, t)] && moving' == moving + [d]
      else
        pending' == pending[d := t] && solved' == solved && moving' == moving
  }

  /** The pending terms and the values in the inner loop of solve after the
      dependents in `done` were revisited, starting from `P0` and `S0`. */
  ghost predicate KeysProgress<K, V>(P0: map<K, seq<HComponent<K, V>>>, S0: map<K, V>, done: set<K>,
    pending: map<K, seq<HComponent<K, V>>>, solved: map<K, V>)
  {
    && pending.Keys <= P0.Keys
    && (forall k :: k in P0 && k !in done ==> k in pending && pending[k] == P0[k])
    && solved.Keys == S0.Keys + (P0.Keys - pending.Keys)
    && (forall k :: k in S0 && (k !in P0 || k in pending) ==> solved[k] == S0[k])
  }

  /** Every dependent visited so far is settled. */
  ghost predicate SettledProgress<K, V>(l: ELattice<V>, id: K, v: V,
    P0: map<K, seq<HComponent<K, V>>>, done: set<K>,
    pending: map<K, seq<HComponent<K, V>>>, solved: map<K, V>)
  {
    forall k :: k in P0 && k in done ==> Settled(l, pending, solved, k, Subst(l, P0[k], id, v))
  }

  /** The stack grew, starting from `M0`, by exactly the keys that left the
      pending terms. */
  ghost predicate StackProgress<K, V>(P0: map<K, seq<HComponent<K, V>>>, M0: seq<K>,
    pending: map<K, seq<HComponent<K, V>>>, moving: seq<K>)
  {
    && pending.Keys <= P0.Keys
    && M0 <= moving
    && (forall k :: k in moving[|M0|..] ==> k in P0.Keys - pending.Keys)
    && (forall k :: k in P0.Keys - pending.Keys ==> k in moving[|M0|..])
    && |moving| == |M0| + |P0.Keys - pending.Keys|
  }

  lemma KeysStep<K, V>(l: ELattice<V>, id: K, v: V,
    P0: map<K, seq<HComponent<K, V>>>, S0: map<K, V>, done: set<K>,
    pending: map<K, seq<HComponent<K, V>>>, solved: map<K, V>, moving: seq<K>,
    d: K, pending': map<K, seq<HComponent<K, V>>>, solved': map<K, V>, moving': seq<K>)
    requires KeysProgress(P0, S0, done, pending, solved)
    requires Revisited(l, id, v, d, pending, solved, moving, pending', solved', moving')
    ensures KeysProgress(P0, S0, done + {d}, pending', solved')
  {
    if d in pending && d !in pending' {
      RemovedStep(P0.Keys, pending.Keys, d);
    }
  }

  lemma SettledStep<K, V>(l: ELattice<V>, id: K, v: V,
    P0: map<K, seq<HComponent<K, V>>>, done: set<K>,
    pending: map<K, seq<HComponent<K, V>>>, solved: map<K, V>, moving: seq<K>,
    d: K, pending': map<K, seq<HComponent<K, V>>>, solved': map<K, V>, moving': seq<K>)
    requires SettledProgress(l, id, v, P0, done, pending, solved)
    requires d !in done
    requires d in P0 ==> d in pending && pending[d] == P0[d]
    requires Revisited(l, id, v, d, pending, solved, moving, pending', solved', moving')
    ensures SettledProgress(l, id, v, P0, done + {d}, pending', solved')
  {
    forall k | k in P0 && k in done
      ensures Settled(l, pending', solved', k, Subst(l, P0[k], id, v))
    {
      assert Settled(l, pending, solved, k, Subst(l, P0[k], id, v));
    }
  }

  lemma StackStep<K, V>(l: ELattice<V>, id: K, v: V,
    P0: map<K, seq<HComponent<K, V>>>, M0: seq<K>,
    pending: map<K, seq<HComponent<K, V>>>, solved: map<K, V>, moving: seq<K>,
    d: K, pending': map<K, seq<HComponent<K, V>>>, solved': map<K, V>, moving': seq<K>)
    requires StackProgress(P0, M0, pending, moving)
    requires Revisited(l, id, v, d, pending, solved, moving, pending', solved', moving')
    ensures StackProgress(P0, M0, pending', moving')
  {
    if d in pending && d !in pending' {
      RemovedStep(P0.Keys, pending.Keys, d);
      PushedStep(moving, |M0|, d);
    } else {
      assert pending'.Keys == pending.Keys;
    }
  }

  /** Once every dependent of `id` was revisited, every term that was pending
      is settled. */
  lemma ProgressComplete<K, V>(l: ELattice<V>, id: K, v: V,
    P0: map<K, seq<HComponent<K, V>>>, S0: map<K, V>, done: set<K>,
    pending: map<K, seq<HComponent<K, V>>>, solved: map<K, V>, deps: map<K, set<K>>)
    requires Indexed(P0, deps)
    requires done == if id in deps then deps[id] else {}
    requires forall k {:trigger Resolves(l, P0[k])} :: k in P0 ==> !Resolves(l, P0[k])
    requires KeysProgress(P0, S0, done, pending, solved)
    requires SettledProgress(l, id, v, P0, done, pending, solved)
    ensures forall k :: k in P0 ==> Settled(l, pending, solved, k, Subst(l, P0[k], id, v))
  {
    forall k | k in P0 ensures Settled(l, pending, solved, k, Subst(l, P0[k], id, v)) {
      if k !in done {
        IndexedUnmentioned(P0, deps, k, id);
        SubstUnmentioned(l, P0[k], id, v);
        assert !Resolves(l, P0[k]);
      }
    }
  }

  /** After a key was propagated, the pending terms shrank and none of them
      mentions the key. */
  lemma SettledShrunk<K, V>(l: ELattice<V>, id: K, v: V,
    P0: map<K, seq<HComponent<K, V>>>, pending: map<K, seq<HComponent<K, V>>>, solved: map<K, V>)
    requires pending.Keys <= P0.Keys
    requires forall k :: k in P0 ==> Settled(l, pending, solved, k, Subst(l, P0[k], id, v))
    ensures Shrunk(pending, P0)
    ensures Avoids(pending, {id})
  {
    forall k | k in pending ensures pending[k] == Subst(l, P0[k], id, v) {
      assert Settled(l, pending, solved, k, Subst(l, P0[k], id, v));
    }
  }

  /** A term the reverse index does not lead to from `id` does not mention
      `id`. */
  lemma IndexedUnmentioned<K, V>(terms: map<K, seq<HComponent<K, V>>>, deps: map<K, set<K>>, k: K, id: K)
    requires Indexed(terms, deps)
    requires k in terms && (id in deps ==> k !in deps[id])
    ensures forall i :: 0 <= i < |terms[k]| ==> id !in terms[k][i].ids
  {
  }

  /** Between the start of the loop of solve's body and its `j`-th step:
      the terms and the stack changed as by propagation, and no pending term
      mentions a key propagated so far. */
  ghost predicate KeyProgress<K, V>(P1: map<K, seq<HComponent<K, V>>>, S1: map<K, V>, M1: seq<K>, targets: set<K>,
    pending: map<K, seq<HComponent<K, V>>>, solved: map<K, V>, moving: seq<K>)
  {
    && Grew(P1, S1, pending, solved)
    && Pushed(P1, M1, pending, moving)
    && Shrunk(pending, P1)
    && Avoids(pending, targets)
  }

  lemma KeyStart<K, V>(P1: map<K, seq<HComponent<K, V>>>, S1: map<K, V>, M1: seq<K>)
    ensures KeyProgress(P1, S1, M1, {}, P1, S1, M1)
  {
    assert S1.Keys + (P1.Keys - P1.Keys) == S1.Keys;
  }

  /** Propagating one more key `pId` keeps KeyProgress. */
  lemma KeyStep<K, V>(P1: map<K, seq<HComponent<K, V>>>, S1: map<K, V>, M1: seq<K>, targets: set<K>,
    P2: map<K, seq<HComponent<K, V>>>, S2: map<K, V>, M2: seq<K>, pId: K,
    pending: map<K, seq<HComponent<K, V>>>, solved: map<K, V>, moving: seq<K>)
    requires KeyProgress(P1, S1, M1, targets, P2, S2, M2)
    requires pending.Keys <= P2.Keys
    requires solved.Keys == S2.Keys + (P2.Keys - pending.Keys)
    requires forall k :: k in S2 && (k !in P2 || k in pending) ==> solved[k] == S2[k]
    requires M2 <= moving
    requires forall k :: k in moving[|M2|..] <==> k in P2.Keys - pending.Keys
    requires |moving| + |pending.Keys| == |M2| + |P2.Keys|
    requires Shrunk(pending, P2) && Avoids(pending, {pId})
    ensures KeyProgress(P1, S1, M1, targets + {pId}, pending, solved, moving)
  {
    GrewTrans(P1, S1, P2, S2, pending, solved);
    PushedTrans(P1, M1, P2, M2, pending, moving);
    ShrunkTrans(P1, P2, pending);
    AvoidsShrunk(pending, P2, targets);
    AvoidsUnion(pending, targets, {pId}, targets + {pId});
  }

  /** Two propagations in a row, the first settling the terms `P0` with
      `a` and the second the terms `P1` left by it with `b`, settle the
      terms `P0` with the pair. */
  lemma SettledTwice<K, V>(l: ELattice<V>, a: (K, V), b: (K, V),
    P0: map<K, seq<HComponent<K, V>>>, P1: map<K, seq<HComponent<K, V>>>, S1: map<K, V>,
    pending: map<K, seq<HComponent<K, V>>>, solved: map<K, V>)
    requires forall k :: k in P0 ==> Settled(l, P1, S1, k, Subst(l, P0[k], a.0, a.1))
    requires forall k :: k in P1 ==> Settled(l, pending, solved, k, Subst(l, P1[k], b.0, b.1))
    requires Grew(P1, S1, pending, solved)
    ensures SettledPair(l, P0, pending, solved, a, b)
  {
    forall k | k in P0
      ensures var t := Subst(l, P0[k], a.0, a.1);
        if Resolves(l, t) then k !in pending && k in solved && solved[k] == Acc(l, t)
        else Settled(l, pending, solved, k, Subst(l, t, b.0, b.1))
    {
      assert Settled(l, P1, S1, k, Subst(l, P0[k], a.0, a.1));
      if k in P1 {
        assert Settled(l, pending, solved, k, Subst(l, P1[k], b.0, b.1));
      }
    }
  }

  /** Between the start of the loop of solve's body and its `j`-th step,
      for the pairs `a` and `b`: `Pmid` and `Smid` are the terms and values
      after the first propagation, which settled the terms `P1`; after the
      second, the terms `Pmid` are settled with `b`. */
  ghost predicate PairProgress<K, V>(l: ELattice<V>, a: (K, V), b: (K, V), j: int,
    P1: map<K, seq<HComponent<K, V>>>, Pmid: map<K, seq<HComponent<K, V>>>, Smid: map<K, V>,
    pending: map<K, seq<HComponent<K, V>>>, solved: map<K, V>)
  {
    && (j == 0 ==> pending == P1)
    && (j >= 1 ==> forall k :: k in P1 ==> Settled(l, Pmid, Smid, k, Subst(l, P1[k], a.0, a.1)))
    && (j == 1 ==> pending == Pmid && solved == Smid)
    && (j == 2 ==> Grew(Pmid, Smid, pending, solved))
    && (j == 2 ==> forall k :: k in Pmid ==> Settled(l, pending, solved, k, Subst(l, Pmid[k], b.0, b.1)))
  }

  /** Propagating the `j`-th pair, which settles the terms `P2` it started
      from, keeps PairProgress. */
  lemma PairStep<K, V>(l: ELattice<V>, a: (K, V), b: (K, V), j: int,
    P1: map<K, seq<HComponent<K, V>>>, Pmid: map<K, seq<HComponent<K, V>>>, Smid: map<K, V>,
    P2: map<K, seq<HComponent<K, V>>>, S2: map<K, V>,
    pending: map<K, seq<HComponent<K, V>>>, solved: map<K, V>, pId: K, pVal: V)
    requires 0 <= j < 2 && (pId, pVal) == (if j == 0 then a else b)
    requires PairProgress(l, a, b, j, P1, Pmid, Smid, P2, S2)
    requires forall k :: k in P2 ==> Settled(l, pending, solved, k, Subst(l, P2[k], pId, pVal))
    requires Grew(P2, S2, pending, solved)
    ensures PairProgress(l, a, b, j + 1, P1, if j == 0 then pending else Pmid, if j == 0 then solved else Smid, pending, solved)
  {
  }

  /** At the end of the loop of solve's body the terms are settled with
      the pair. */
  lemma PairEnd<K, V>(l: ELattice<V>, a: (K, V), b: (K, V),
    P1: map<K, seq<HComponent<K, V>>>, Pmid: map<K, seq<HComponent<K, V>>>, Smid: map<K, V>,
    pending: map<K, seq<HComponent<K, V>>>, solved: map<K, V>)
    requires PairProgress(l, a, b, 2, P1, Pmid, Smid, pending, solved)
    ensures SettledPair(l, P1, pending, solved, a, b)
  {
    SettledTwice(l, a, b, P1, Pmid, Smid, pending, solved);
  }

  /** The keys and their other polarities. */
  ghost function Polarities<K>(negate: K -> K, keys: set<K>): set<K> {
    keys + set p | p in keys :: negate(p)
  }

  lemma PolaritiesStep<K>(negate: K -> K, keys: set<K>, id: K)
    ensures Polarities(negate, keys + {id}) == Polarities(negate, keys) + {id, negate(id)}
  {
  }

  /** Between two states of solve: terms only left `pending`, each one that
      left it got a value, and the other values are untouched. */
  ghost predicate Grew<K, V>(P0: map<K, seq<HComponent<K, V>>>, S0: map<K, V>,
    pending: map<K, seq<HComponent<K, V>>>, solved: map<K, V>)
  {
    && pending.Keys <= P0.Keys
    && solved.Keys == S0.Keys + (P0.Keys - pending.Keys)
    && (forall k :: k in S0 && (k !in P0 || k in pending) ==> solved[k] == S0[k])
  }

  lemma GrewTrans<K, V>(P0: map<K, seq<HComponent<K, V>>>, S0: map<K, V>,
    P1: map<K, seq<HComponent<K, V>>>, S1: map<K, V>,
    pending: map<K, seq<HComponent<K, V>>>, solved: map<K, V>)
    requires Grew(P0, S0, P1, S1) && Grew(P1, S1, pending, solved)
    ensures Grew(P0, S0, pending, solved)
  {
  }

  /** Between two states of solve: every term that left `pending` was pushed
      on top of the stack `M0`, which was kept. */
  ghost predicate Pushed<K, V>(P0: map<K, seq<HComponent<K, V>>>, M0: seq<K>,
    pending: map<K, seq<HComponent<K, V>>>, moving: seq<K>)
  {
    && pending.Keys <= P0.Keys
    && M0 <= moving
    && (forall k :: k in P0.Keys - pending.Keys ==> k in moving[|M0|..])
    && |moving| + |pending.Keys| == |M0| + |P0.Keys|
  }

  lemma PushedTrans<K, V>(P0: map<K, seq<HComponent<K, V>>>, M0: seq<K>,
    P1: map<K, seq<HComponent<K, V>>>, M1: seq<K>,
    pending: map<K, seq<HComponent<K, V>>>, moving: seq<K>)
    requires Pushed(P0, M0, P1, M1) && Pushed(P1, M1, pending, moving)
    ensures Pushed(P0, M0, pending, moving)
  {
    forall k | k in P0.Keys - pending.Keys ensures k in moving[|M0|..] {
      if k in P1 {
        assert k in moving[|M1|..];
        var i :| 0 <= i < |moving| - |M1| && moving[|M1|..][i] == k;
        assert moving[|M0|..][i + |M1| - |M0|] == k;
      } else {
        assert k in M1[|M0|..];
        var i :| 0 <= i < |M1| - |M0| && M1[|M0|..][i] == k;
        assert moving[|M0|..][i] == k;
      }
    }
  }

  lemma ShrunkTrans<K, V>(P0: map<K, seq<HComponent<K, V>>>, P1: map<K, seq<HComponent<K, V>>>,
    pending: map<K, seq<HComponent<K, V>>>)
    requires Shrunk(P1, P0) && Shrunk(pending, P1)
    ensures Shrunk(pending, P0)
  {
    forall k, i | k in pending && 0 <= i < |pending[k]|
      ensures pending[k][i].ids <= P0[k][i].ids
    {
      assert pending[k][i].ids <= P1[k][i].ids;
    }
  }

  lemma AvoidsUnion<K, V>(terms: map<K, seq<HComponent<K, V>>>, a: set<K>, b: set<K>, c: set<K>)
    requires Avoids(terms, a) && Avoids(terms, b) && c <= a + b
    ensures Avoids(terms, c)
  {
    forall k, i | k in terms && 0 <= i < |terms[k]| ensures terms[k][i].ids !! c {
      assert terms[k][i].ids !! a && terms[k][i].ids !! b;
    }
  }

  /** What solve knows about the keys of the stack `M0` and of the terms
      `P0` it started from: each one was popped, or is still on the stack,
      or (for a term) is still pending. */
  ghost predicate Tracked<K, V>(P0: map<K, seq<HComponent<K, V>>>, M0: seq<K>, popped: set<K>,
    pending: map<K, seq<HComponent<K, V>>>, moving: seq<K>)
  {
    && (forall k :: k in M0 ==> k in popped || k in moving)
    && (forall k :: k in P0.Keys - pending.Keys ==> k in popped || k in moving)
  }

  /** Popping `id` and propagating it keeps track of every key. */
  lemma TrackedStep<K, V>(P0: map<K, seq<HComponent<K, V>>>, M0: seq<K>, popped: set<K>,
    pending: map<K, seq<HComponent<K, V>>>, moving: seq<K>,
    pending': map<K, seq<HComponent<K, V>>>, moving': seq<K>)
    requires Tracked(P0, M0, popped, pending, moving)
    requires moving != [] && pending.Keys <= P0.Keys
    requires Pushed(pending, moving[..|moving| - 1], pending', moving')
    ensures Tracked(P0, M0, popped + {moving[|moving| - 1]}, pending', moving')
  {
    var rest := moving[..|moving| - 1];
    forall k | k in moving ensures k == moving[|moving| - 1] || k in moving' {
      var i :| 0 <= i < |moving| && moving[i] == k;
      if i < |moving| - 1 {
        assert rest[i] == k && moving'[i] == k;
      }
    }
    forall k | k in pending.Keys - pending'.Keys ensures k in moving' {
      var i :| |rest| <= i < |moving'| && moving'[i] == k;
    }
  }

  /** The keys of the first `n` propagated pairs. */
  ghost function Targets<K, V>(props: seq<(K, V)>, n: nat): set<K>
    requires n <= |props|
  {
    if n == 0 then {} else Targets(props, n - 1) + {props[n - 1].0}
  }

  lemma TargetsPair<K, V>(props: seq<(K, V)>)
    requires |props| == 2
    ensures Targets(props, 2) == {props[0].0, props[1].0}
  {
    assert Targets(props, 1) == {} + {props[0].0};
  }

  /** What solve knows after popping and propagating the keys `popped`, in
      `iterations` iterations, starting from the terms `P0`, the values `S0`
      and the stack `M0`. */
  ghost predicate SolveProgress<K, V>(negate: K -> K,
    P0: map<K, seq<HComponent<K, V>>>, S0: map<K, V>, M0: seq<K>, popped: set<K>, iterations: nat,
    pending: map<K, seq<HComponent<K, V>>>, solved: map<K, V>, moving: seq<K>)
  {
    && Grew(P0, S0, pending, solved)
    && Shrunk(pending, P0)
    && Tracked(P0, M0, popped, pending, moving)
    && popped <= solved.Keys
    && Avoids(pending, Polarities(negate, popped))
    && iterations + |moving| + |pending.Keys| <= |M0| + |P0.Keys|
  }

  lemma SolveStart<K, V>(negate: K -> K, P0: map<K, seq<HComponent<K, V>>>, S0: map<K, V>, M0: seq<K>)
    ensures SolveProgress(negate, P0, S0, M0, {}, 0, P0, S0, M0)
  {
    assert S0.Keys + (P0.Keys - P0.Keys) == S0.Keys;
  }

  /** One iteration of solve, the top key of `M1` popped and propagated,
      keeps what solve knows. */
  lemma SolveStep<K, V>(negate: K -> K,
    P0: map<K, seq<HComponent<K, V>>>, S0: map<K, V>, M0: seq<K>, popped: set<K>, iterations: nat,
    P1: map<K, seq<HComponent<K, V>>>, S1: map<K, V>, M1: seq<K>,
    pending: map<K, seq<HComponent<K, V>>>, solved: map<K, V>, moving: seq<K>)
    requires SolveProgress(negate, P0, S0, M0, popped, iterations, P1, S1, M1)
    requires M1 != [] && M1[|M1| - 1] in S1
    requires Grew(P1, S1, pending, solved) && Pushed(P1, M1[..|M1| - 1], pending, moving)
    requires Shrunk(pending, P1) && Avoids(pending, {M1[|M1| - 1], negate(M1[|M1| - 1])})
    ensures SolveProgress(negate, P0, S0, M0, popped + {M1[|M1| - 1]}, iterations + 1, pending, solved, moving)
    ensures |moving| + |pending.Keys| < |M1| + |P1.Keys|
  {
    var id := M1[|M1| - 1];
    PolaritiesStep(negate, popped, id);
    AvoidsShrunk(pending, P1, Polarities(negate, popped));
    AvoidsUnion(pending, Polarities(negate, popped), {id, negate(id)}, Polarities(negate, popped + {id}));
    TrackedStep(P0, M0, popped, P1, M1, pending, moving);
    GrewTrans(P0, S0, P1, S1, pending, solved);
    ShrunkTrans(P0, P1, pending);
  }

  /** When the stack is empty, every key of `M0` and every term that left
      `P0` was popped, and the terms left avoid every popped key. */
  lemma SolveEnd<K, V>(negate: K -> K,
    P0: map<K, seq<HComponent<K, V>>>, S0: map<K, V>, M0: seq<K>, popped: set<K>, iterations: nat,
    pending: map<K, seq<HComponent<K, V>>>, solved: map<K, V>)
    requires SolveProgress(negate, P0, S0, M0, popped, iterations, pending, solved, [])
    ensures solved.Keys == S0.Keys + (P0.Keys - pending.Keys)
    ensures forall k :: k in S0 && k !in P0 ==> solved[k] == S0[k]
    ensures forall k :: k in M0 ==> k in popped
    ensures P0.Keys - pending.Keys <= popped <= solved.Keys
    ensures pending.Keys <= P0.Keys
    ensures Avoids(pending, Polarities(negate, popped))
    ensures Shrunk(pending, P0)
    ensures iterations <= |M0| + |P0.Keys|
  {
  }

  lemma RemovedStep<K>(all: set<K>, left: set<K>, d: K)
    requires d in left && left <= all
    ensures all - (left - {d}) == (all - left) + {d}
    ensures d !in all - left
  {
  }

  lemma PushedStep<K>(s: seq<K>, n: nat, d: K)
    requires n <= |s|
    ensures (s + [d])[n..] == s[n..] + [d]
  {
  }

  lemma CardSplit<K>(a: set<K>, b: set<K>)
    requires a <= b
    ensures |b| == |a| + |b - a|
  {
    assert b == a + (b - a);
  }

  class Solver<K(==,!new), V(==,!new)> {
    const lattice: ELattice<V>
    /** HKey.negate(): the other polarity of a key. */
    const negate: K -> K
    /** HKey.stable: whether a key's fact is exact. */
    const stable: K -> bool

    /** Number of equations registered, duplicates included. */
    var size: int
    /** Reverse index: for a key, the pending equations that mention it. */
    var dependencies: map<K, set<K>>
    /** The terms of the equations not yet resolved. */
    var pending: map<K, seq<HComponent<K, V>>>
    var solved: map<K, V>
    /** The stack of resolved keys not yet propagated; its top is the last
        element. */
    var moving: seq<K>
    /** Every key registered so far. */
    var queued: set<K>
    /** How many times "duplicate" was logged. */
    var duplicates: nat

    ghost predicate Valid()
      reads this
    {
      Consistent(lattice, size, queued, duplicates, dependencies, pending, solved, moving)
    }

    constructor (lattice: ELattice<V>, negate: K -> K, stable: K -> bool)
      ensures Valid()
      ensures this.lattice == lattice && this.negate == negate && this.stable == stable
      ensures size == 0 && duplicates == 0 && queued == {}
      ensures dependencies == map[] && pending == map[] && solved == map[] && moving == []
    {
      this.lattice := lattice;
      this.negate := negate;
      this.stable := stable;
      size := 0;
      dependencies := map[];
      pending := map[];
      solved := map[];
      moving := [];
      queued := {};
      duplicates := 0;
    }

    /** getSize(): every registration counts, a duplicate key too. */
    function GetSize(): (n: int)
      reads this
      requires Valid()
      ensures n == |queued| + duplicates
      ensures n >= |pending.Keys| + |moving|
    {
      size
    }

    /** addEquation: counts the registration (a key registered before is
        only reported as a duplicate), then records a known value, or a term
        that normalize resolves, as solved and pushes its key; a term that
        does not resolve is stored as it was given and indexed under every
        key it mentions. */
    method AddEquation(equation: HEquation<K, V>)
      requires Valid()
      modifies this
      ensures Valid()
      ensures size == old(size) + 1
      ensures queued == old(queued) + {equation.key}
      ensures duplicates == if equation.key in old(queued) then old(duplicates) + 1 else old(duplicates)
      ensures equation.result.HFinal? ==>
        && solved == old(solved)[equation.key := equation.result.value]
        && moving == old(moving) + [equation.key]
        && pending == old(pending) && dependencies == old(dependencies)
      ensures equation.result.HPending? && Resolves(lattice, equation.result.delta) ==>
        && solved == old(solved)[equation.key := Acc(lattice, equation.result.delta)]
        && moving == old(moving) + [equation.key]
        && pending == old(pending) && dependencies == old(dependencies)
      ensures equation.result.HPending? && !Resolves(lattice, equation.result.delta) ==>
        && pending == old(pending)[equation.key := equation.result.delta]
        && dependencies == Register(old(dependencies), Mentioned(equation.result.delta), equation.key)
        && solved == old(solved) && moving == old(moving)
    {
      var key := equation.key;
      ghost var queued0, duplicates0 := queued, duplicates;
      size := size + 1;
      if key in queued {
        // the source logs the duplicate and carries on
        duplicates := duplicates + 1;
      }
      queued := queued + {key};
      match equation.result
      case HFinal(value) =>
        Record(key, value, queued0, duplicates0);
      case HPending(delta) =>
        var norm := Normalize(delta);
        if norm.HFinal? {
          Record(key, norm.value, queued0, duplicates0);
        } else {
          Enqueue(key, delta, queued0, duplicates0);
        }
    }

    /** The end of addEquation for a key whose value is known: it is
        recorded as solved and pushed. `queued0` and `duplicates0` are the
        counters before the registration was counted. */
    method Record(key: K, value: V, ghost queued0: set<K>, ghost duplicates0: nat)
      requires Consistent(lattice, size - 1, queued0, duplicates0, dependencies, pending, solved, moving)
      requires queued == queued0 + {key}
      requires duplicates == if key in queued0 then duplicates0 + 1 else duplicates0
      modifies this
      ensures Valid()
      ensures size == old(size) && queued == old(queued) && duplicates == old(duplicates)
      ensures solved == old(solved)[key := value] && moving == old(moving) + [key]
      ensures pending == old(pending) && dependencies == old(dependencies)
    {
      ConsistentAddSolved(lattice, size - 1, queued0, duplicates0, dependencies, pending, solved, moving, key, value);
      solved := solved[key := value];
      moving := moving + [key];
    }

    /** The end of addEquation for a term that does not resolve: the term
        is indexed under every key it mentions and stored. */
    method Enqueue(key: K, delta: seq<HComponent<K, V>>, ghost queued0: set<K>, ghost duplicates0: nat)
      requires Consistent(lattice, size - 1, queued0, duplicates0, dependencies, pending, solved, moving)
      requires queued == queued0 + {key}
      requires duplicates == if key in queued0 then duplicates0 + 1 else duplicates0
      requires !Resolves(lattice, delta)
      modifies this
      ensures Valid()
      ensures size == old(size) && queued == old(queued) && duplicates == old(duplicates)
      ensures pending == old(pending)[key := delta]
      ensures dependencies == Register(old(dependencies), Mentioned(delta), key)
      ensures solved == old(solved) && moving == old(moving)
    {
      ConsistentAddPending(lattice, size - 1, queued0, duplicates0, dependencies, pending, solved, moving, key, delta);
      dependencies := IndexDependents(dependencies, delta, key);
      // the source stores the term once per component, always the same
      pending := pending[key := delta];
    }

    /** normalize: folds the components that have no key left or whose value
        is bottom; Final when the accumulator is top or everything folded,
        otherwise Pending over the same components. */
    method Normalize(sum: seq<HComponent<K, V>>) returns (r: HResult<K, V>)
      ensures Resolves(lattice, sum) ==> r == HFinal(Acc(lattice, sum))
      ensures !Resolves(lattice, sum) ==> r == HPending(sum)
      ensures sum == [] ==> r == HFinal(lattice.bot)
      ensures r.HPending? ==> exists i :: 0 <= i < |sum| && !Foldable(lattice, sum[i])
    {
      var acc := lattice.bot;
      var computableNow := true;
      for i := 0 to |sum|
        invariant acc == Acc(lattice, sum[..i])
        invariant computableNow == AllFoldable(lattice, sum[..i])
      {
        assert sum[..i + 1][..i] == sum[..i];
        var prod := sum[i];
        if prod.IsEmpty() || prod.value == lattice.bot {
          acc := lattice.Join(acc, prod.value);
        } else {
          computableNow := false;
        }
      }
      assert sum[..|sum|] == sum;
      if acc == lattice.top || computableNow {
        r := HFinal(acc);
      } else {
        r := HPending(sum);
      }
    }

    /** substitute: every component that held `id` loses it and has its value
        met with `value`; the others are untouched. The result is the
        substituted term, normalized. */
    method Substitute(sum: seq<HComponent<K, V>>, id: K, value: V) returns (r: HResult<K, V>)
      ensures var t := Subst(lattice, sum, id, value);
        && (Resolves(lattice, t) ==> r == HFinal(Acc(lattice, t)))
        && (!Resolves(lattice, t) ==> r == HPending(t))
    {
      var delta := sum;
      for i := 0 to |delta|
        invariant |delta| == |sum|
        invariant forall j :: 0 <= j < i ==> delta[j] == SubstComponent(lattice, sum[j], id, value)
        invariant forall j :: i <= j < |delta| ==> delta[j] == sum[j]
      {
        var component := delta[i];
        // HComponent.remove(id) answers whether id was present
        if id in component.ids {
          delta := delta[i := HComponent(lattice.Meet(component.value, value), component.ids - {id})];
        }
      }
      assert delta == Subst(lattice, sum, id, value);
      r := Normalize(delta);
    }

    /** The polarity rule: a stable key sends its value to itself and to its
        negation; an unstable key sends its value to its negation and top to
        itself, in that order. */
    function Propagations(id: K, value: V): (r: seq<(K, V)>)
      ensures |r| == 2
      ensures {r[0].0, r[1].0} == {id, negate(id)}
      ensures (negate(id), value) in r
      ensures (id, if stable(id) then value else lattice.top) in r
      ensures !stable(id) ==> r[1] == (id, lattice.top)
    {
      if stable(id) then [(id, value), (negate(id), value)]
      else [(negate(id), value), (id, lattice.top)]
    }

    /** The inner step of solve for one dependent: its term is removed from
        pending, `pVal` is substituted for `pId`, and the term is either
        recorded as solved and pushed, or put back. */
    method Revisit(dId: K, pId: K, pVal: V)
      requires Valid()
      modifies this
      ensures Valid()
      ensures size == old(size) && queued == old(queued) && duplicates == old(duplicates)
      ensures dependencies == old(dependencies)
      ensures dId !in old(pending) ==>
        pending == old(pending) && solved == old(solved) && moving == old(moving)
      ensures dId in old(pending) ==>
        var t := Subst(lattice, old(pending)[dId], pId, pVal);
        if Resolves(lattice, t) then
          && pending == old(pending) - {dId}
          && solved == old(solved)[dId := Acc(lattice, t)]
          && moving == old(moving) + [dId]
        else
          && pending == old(pending)[dId := t]
          && solved == old(solved) && moving == old(moving)
    {
      if dId in pending {
        var pend := pending[dId];
        var pend1 := Substitute(pend, pId, pVal);
        if pend1.HFinal? {
          IndexedRemove(pending, dependencies, dId);
          pending := pending - {dId};
          solved := solved[dId := pend1.value];
          moving := moving + [dId];
        } else {
          IndexedSubst(lattice, pending, dependencies, dId, pId, pVal);
          pending := pending[dId := pend1.delta];
        }
      }
    }

    /** The inner loop of solve for one propagated pair: every dependent of
        `pId` is revisited once. Afterwards every term that was pending is
        settled with `pVal` substituted for `pId`, and no pending term
        mentions `pId` any more. */
    method Propagate(pId: K, pVal: V)
      requires Valid()
      modifies this
      ensures Valid()
      ensures size == old(size) && queued == old(queued) && duplicates == old(duplicates)
      ensures dependencies == old(dependencies)
      ensures forall k :: k in old(pending) ==> Settled(lattice, pending, solved, k, Subst(lattice, old(pending)[k], pId, pVal))
      ensures pending.Keys <= old(pending.Keys)
      ensures solved.Keys == old(solved.Keys) + (old(pending.Keys) - pending.Keys)
      ensures forall k :: k in old(solved) && (k !in old(pending) || k in pending) ==> solved[k] == old(solved)[k]
      ensures old(moving) <= moving
      ensures forall k :: k in moving[|old(moving)|..] <==> k in old(pending.Keys) - pending.Keys
      ensures |moving| + |pending.Keys| == old(|moving| + |pending.Keys|)
      ensures Shrunk(pending, old(pending))
      ensures Avoids(pending, {pId})
    {
      ghost var P0, S0, M0 := pending, solved, moving;
      var dIds := if pId in dependencies then dependencies[pId] else {};
      var rest := dIds;
      ghost var done := {};
      while rest != {}
        invariant Valid()
        invariant size == old(size) && queued == old(queued) && duplicates == old(duplicates)
        invariant dependencies == old(dependencies)
        invariant done == dIds - rest && rest <= dIds
        invariant KeysProgress(P0, S0, done, pending, solved)
        invariant SettledProgress(lattice, pId, pVal, P0, done, pending, solved)
        invariant StackProgress(P0, M0, pending, moving)
        decreases rest
      {
        var dId :| dId in rest;
        RemovedStep(dIds, rest, dId);
        rest := rest - {dId};
        ghost var before, solvedBefore, movingBefore := pending, solved, moving;
        Revisit(dId, pId, pVal);
        assert Revisited(lattice, pId, pVal, dId, before, solvedBefore, movingBefore, pending, solved, moving);
        KeysStep(lattice, pId, pVal, P0, S0, done, before, solvedBefore, movingBefore, dId, pending, solved, moving);
        SettledStep(lattice, pId, pVal, P0, done, before, solvedBefore, movingBefore, dId, pending, solved, moving);
        StackStep(lattice, pId, pVal, P0, M0, before, solvedBefore, movingBefore, dId, pending, solved, moving);
        done := done + {dId};
      }
      ProgressComplete(lattice, pId, pVal, P0, S0, dIds, pending, solved, dependencies);
      SettledShrunk(lattice, pId, pVal, P0, pending, solved);
      CardSplit(pending.Keys, P0.Keys);
    }

    /** The body of the loop of solve for a popped key `id` of value
        `value`: both of its polarities are propagated as Propagations
        orders them. Afterwards no pending term mentions `id` or its
        negation. */
    method PropagateKey(id: K, value: V)
      requires Valid()
      modifies this
      ensures Valid()
      ensures size == old(size) && queued == old(queued) && duplicates == old(duplicates)
      ensures dependencies == old(dependencies)
      ensures Grew(old(pending), old(solved), pending, solved)
      ensures Pushed(old(pending), old(moving), pending, moving)
      ensures Shrunk(pending, old(pending))
      ensures Avoids(pending, {id, negate(id)})
      ensures var props := Propagations(id, value);
        SettledPair(lattice, old(pending), pending, solved, props[0], props[1])
    {
      ghost var P1, S1, M1 := pending, solved, moving;
      var props := Propagations(id, value);
      // the terms and values after the first pair
      ghost var Pmid, Smid := pending, solved;
      KeyStart(P1, S1, M1);
      for j := 0 to |props|
        invariant Valid()
        invariant size == old(size) && queued == old(queued) && duplicates == old(duplicates)
        invariant dependencies == old(dependencies)
        invariant KeyProgress(P1, S1, M1, Targets(props, j), pending, solved, moving)
        invariant PairProgress(lattice, props[0], props[1], j, P1, Pmid, Smid, pending, solved)
      {
        Pmid, Smid := PropagateNth(props, j, P1, S1, M1, Pmid, Smid);
      }
      TargetsPair(props);
      PairEnd(lattice, props[0], props[1], P1, Pmid, Smid, pending, solved);
    }

    /** The body of the loop of PropagateKey: the `j`-th pair of `props` is
        propagated. `Pmid` and `Smid` are the terms and values after the
        first pair. */
    method PropagateNth(props: seq<(K, V)>, j: nat,
      ghost P1: map<K, seq<HComponent<K, V>>>, ghost S1: map<K, V>, ghost M1: seq<K>,
      ghost Pmid: map<K, seq<HComponent<K, V>>>, ghost Smid: map<K, V>)
      returns (ghost Pmid': map<K, seq<HComponent<K, V>>>, ghost Smid': map<K, V>)
      requires Valid() && |props| == 2 && j < 2
      requires KeyProgress(P1, S1, M1, Targets(props, j), pending, solved, moving)
      requires PairProgress(lattice, props[0], props[1], j, P1, Pmid, Smid, pending, solved)
      modifies this
      ensures Valid()
      ensures size == old(size) && queued == old(queued) && duplicates == old(duplicates)
      ensures dependencies == old(dependencies)
      ensures KeyProgress(P1, S1, M1, Targets(props, j + 1), pending, solved, moving)
      ensures PairProgress(lattice, props[0], props[1], j + 1, P1, Pmid', Smid', pending, solved)
    {
      var (pId, pVal) := props[j];
      ghost var P2, S2, M2 := pending, solved, moving;
      Propagate(pId, pVal);
      KeyStep(P1, S1, M1, Targets(props, j), P2, S2, M2, pId, pending, solved, moving);
      PairStep(lattice, props[0], props[1], j, P1, Pmid, Smid, P2, S2, pending, solved, pId, pVal);
      Pmid', Smid' := if j == 0 then pending else Pmid, if j == 0 then solved else Smid;
    }

    /** One iteration of the loop of solve: the key on top of the stack is
        popped and its value propagated by the polarity rule. */
    method Pop() returns (id: K)
      requires Valid() && moving != []
      modifies this
      ensures Valid()
      ensures size == old(size) && queued == old(queued) && duplicates == old(duplicates)
      ensures dependencies == old(dependencies)
      ensures id == old(moving)[|old(moving)| - 1] && id in old(solved)
      ensures Grew(old(pending), old(solved), pending, solved)
      ensures Pushed(old(pending), old(moving)[..|old(moving)| - 1], pending, moving)
      ensures Shrunk(pending, old(pending))
      ensures Avoids(pending, {id, negate(id)})
      ensures var props := Propagations(id, old(solved)[id]);
        SettledPair(lattice, old(pending), pending, solved, props[0], props[1])
    {
      id := moving[|moving| - 1];
      moving := moving[..|moving| - 1];
      var value := solved[id];
      PropagateKey(id, value);
    }

    /** The loop of solve: pops and propagates until the stack is empty.
        `popped` and `iterations` are ghost records the loop keeps: the keys
        popped and the number of passes. What each pass does to the terms
        and values is Pop's contract. The loop terminates because each pass
        decreases `|moving| + |pending.Keys|`, and the bound on `iterations`
        is that measure. */
    method Drain() returns (ghost popped: set<K>, ghost iterations: nat)
      requires Valid()
      modifies this
      ensures Valid()
      ensures size == old(size) && queued == old(queued) && duplicates == old(duplicates)
      ensures dependencies == old(dependencies)
      ensures moving == []
      ensures SolveProgress(negate, old(pending), old(solved), old(moving), popped, iterations, pending, solved, moving)
    {
      ghost var P0, S0, M0 := pending, solved, moving;
      popped, iterations := {}, 0;
      SolveStart(negate, P0, S0, M0);
      while moving != []
        invariant Valid()
        invariant size == old(size) && queued == old(queued) && duplicates == old(duplicates)
        invariant dependencies == old(dependencies)
        invariant SolveProgress(negate, P0, S0, M0, popped, iterations, pending, solved, moving)
        decreases |moving| + |pending.Keys|
      {
        ghost var P1, S1, M1 := pending, solved, moving;
        var id := Pop();
        SolveStep(negate, P0, S0, M0, popped, iterations, P1, S1, M1, pending, solved, moving);
        popped := popped + {id};
        iterations := iterations + 1;
      }
    }

    /** solve: pops resolved keys until the stack is empty and propagates
        each one by the polarity rule; the terms still pending at the end are
        dropped and the values returned. `popped`, `stuck` and `iterations`
        are ghost records of the run: the keys propagated, the terms dropped
        and the passes of Drain's loop, whose bound comes from that loop's
        termination measure. */
    method Solve() returns (r: map<K, V>, ghost popped: set<K>, ghost stuck: map<K, seq<HComponent<K, V>>>, ghost iterations: nat)
      requires Valid()
      modifies this
      ensures Valid()
      ensures size == old(size) && queued == old(queued) && duplicates == old(duplicates)
      ensures dependencies == old(dependencies)
      ensures moving == [] && pending == map[] && r == solved
      // values are only added, for keys whose term was pending
      ensures solved.Keys == old(solved.Keys) + (old(pending.Keys) - stuck.Keys)
      ensures forall k :: k in old(solved) && k !in old(pending) ==> solved[k] == old(solved)[k]
      // every key on the stack, and every term that resolved, was propagated
      ensures forall k :: k in old(moving) ==> k in popped
      ensures old(pending.Keys) - stuck.Keys <= popped <= solved.Keys
      // the terms left do not resolve and mention no propagated key, in
      // either polarity, so no further propagation of those keys would
      // change them
      ensures stuck.Keys <= old(pending.Keys)
      ensures forall k :: k in stuck ==> !Resolves(lattice, stuck[k])
      ensures Avoids(stuck, Polarities(negate, popped))
      ensures Shrunk(stuck, old(pending))
      ensures iterations <= |old(moving)| + |old(pending.Keys)| <= size
    {
      ghost var P0, S0, M0 := pending, solved, moving;
      popped, iterations := Drain();
      SolveEnd(negate, P0, S0, M0, popped, iterations, pending, solved);
      stuck := pending;
      pending := map[];
      r := solved;
    }
  }
}
