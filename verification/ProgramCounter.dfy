/** Encoding an automaton in one decision diagram, with the state of a packet in
    a header field, the program counter. */
module ProgramCounter {

  import opened Prefixes
  import opened Wrappers
  import opened Actions
  import opened Fdds
  import opened Sequencing
  import opened LeafActs
  import opened Automata
  import opened Minimization
  import opened Determinization
  import opened FieldUse

  /** The next state becomes an assignment.  Steps always have a next state. */
  function SetPcAct(pc: Field, a: Act): Act {
    if a.cont.Some? then Act(a.mods[pc := a.cont.value], None) else a
  }

  function SetPc(pc: Field): Par -> Par {
    (par: Par) => set a | a in par :: SetPcAct(pc, a)
  }

  function Guard(pc: Field, source: int, id: int): Fdd {
    if id == source then ID else Atom(pc, Full(id), ONE, ZERO)
  }

  ghost function StateFdd(pc: Field, source: int, id: int, s: State): Fdd {
    SeqFdd(Guard(pc, source, id), Plus(s.0, MapR(SetPc(pc), s.1)))
  }

  /** What state `s` does to `p`. */
  function StateActs(pc: Field, s: State, p: Packet): Par {
    Lookup(s.0, p) + SetPc(pc)(Lookup(s.1, p))
  }

  /** The source acts on all packets, other states on those that carry them. */
  predicate Active(pc: Field, source: int, id: int, p: Packet) {
    id == source || Get(p, pc) == id
  }

  lemma StateFddMeaning(pc: Field, source: int, id: int, s: State, p: Packet)
    requires Canonical(s.0) && Canonical(s.1)
    ensures Canonical(StateFdd(pc, source, id, s))
    ensures Lookup(StateFdd(pc, source, id, s), p) == if Active(pc, source, id, p) then StateActs(pc, s, p) else {}
  {
    hide Apply, SeqFdd, MapR, Lookup, SetPc;
    var g, d := Guard(pc, source, id), MapR(SetPc(pc), s.1);
    var u := Plus(s.0, d);
    CanonicalMapR(SetPc(pc), s.1);
    CanonicalApply(SumOp, s.0, d);
    GuardMeaning(pc, source, id, p);
    CanonicalSeq(g, u);
    SeqMeaning(g, u, p);
    PlusMeaning(s.0, d, p);
    MapRMeaning(SetPc(pc), s.1, p);
    ThenGuard(Lookup(g, p), u, p);
  }

  lemma GuardMeaning(pc: Field, source: int, id: int, p: Packet)
    ensures Canonical(Guard(pc, source, id))
    ensures Lookup(Guard(pc, source, id), p) == if Active(pc, source, id, p) then ONE else ZERO
  {
    OrderFacts();
  }

  lemma ThenGuard(par: Par, u: Fdd, p: Packet)
    requires par == ONE || par == ZERO
    ensures Then(par, u, p) == if par == ONE then Lookup(u, p) else {}
  {
    hide Lookup;
    if par == ONE {
      assert Run(SKIP, p) == p;
      forall r ensures r in Then(par, u, p) <==> r in Lookup(u, p) {
        MergeSkip(r);
        if r in Lookup(u, p) { assert SKIP in par && Merge(SKIP, r) == r; }
        if r in Then(par, u, p) {
          var s, r' :| s in par && r' in Lookup(u, Run(s, p)) && r == Merge(s, r');
          MergeSkip(r');
        }
      }
    }
  }

  /** `l` uses no field but those of the states and the program counter. */
  ghost predicate LocalFields(pc: Field, st: States, ids: set<int>, l: Fdd) {
    forall f: Field :: f != pc && (forall id :: id in ids && id in st ==> Free(f, st[id])) ==> Unused(f, l)
  }

  /** The union of the diagrams of the states `ids`, one for each packet. */
  ghost predicate IsLocal(pc: Field, st: States, source: int, ids: set<int>, l: Fdd) {
    && Canonical(l) && LocalFields(pc, st, ids, l)
    && forall p, a :: a in Lookup(l, p) <==>
         exists id :: id in ids && id in st && Active(pc, source, id, p) && a in StateActs(pc, st[id], p)
  }

  lemma LocalNone(pc: Field, st: States, source: int)
    ensures IsLocal(pc, st, source, {}, DROP)
  {
  }

  lemma StateFddUnused(pc: Field, source: int, id: int, s: State, f: Field)
    requires f != pc && Free(f, s)
    ensures Unused(f, StateFdd(pc, source, id, s))
  {
    hide SeqFdd, Apply;
    UnusedMapR(f, SetPc(pc), s.1);
    UnusedApply(f, SumOp, s.0, MapR(SetPc(pc), s.1));
    assert Unused(f, Guard(pc, source, id));
    UnusedSeq(f, Guard(pc, source, id), Plus(s.0, MapR(SetPc(pc), s.1)));
  }

  lemma LocalFieldsPlus(pc: Field, st: States, source: int, ids: set<int>, l: Fdd, id: int)
    requires LocalFields(pc, st, ids, l) && id in st
    ensures LocalFields(pc, st, ids + {id}, Plus(l, StateFdd(pc, source, id, st[id])))
  {
    hide Apply, StateFdd, Unused, Free;
    forall f: Field | f != pc && forall k :: k in ids + {id} && k in st ==> Free(f, st[k])
      ensures Unused(f, Plus(l, StateFdd(pc, source, id, st[id])))
    {
      assert id in ids + {id};
      StateFddUnused(pc, source, id, st[id], f);
      UnusedApply(f, SumOp, l, StateFdd(pc, source, id, st[id]));
    }
  }

  lemma LocalPlus(pc: Field, st: States, source: int, ids: set<int>, l: Fdd, id: int)
    requires IsLocal(pc, st, source, ids, l) && id in st && StateOk(st[id], st.Keys)
    ensures IsLocal(pc, st, source, ids + {id}, Plus(l, StateFdd(pc, source, id, st[id])))
  {
    hide Apply, StateFdd, Lookup, StateActs, Active, Canonical, AllConts, NoConts, LocalFields;
    LocalFieldsPlus(pc, st, source, ids, l, id);
    var x := StateFdd(pc, source, id, st[id]);
    StateFddMeaning(pc, source, id, st[id], map[]);
    CanonicalApply(SumOp, l, x);
    forall p, a ensures a in Lookup(Plus(l, x), p) <==>
        exists k :: k in ids + {id} && k in st && Active(pc, source, k, p) && a in StateActs(pc, st[k], p)
    {
      StateFddMeaning(pc, source, id, st[id], p);
      PlusMeaning(l, x, p);
      if a in Lookup(l, p) {
        var k :| k in ids && k in st && Active(pc, source, k, p) && a in StateActs(pc, st[k], p);
        assert k in ids + {id};
      }
      if a in Lookup(x, p) { assert id in ids + {id}; }
    }
  }

  // Reachable states

  ghost predicate ReachIn(st: States, source: int, n: nat, id: int) {
    if n == 0 then id == source
    else exists k :: ReachIn(st, source, n - 1, k) && k in st && id in Conts(st[k].1)
  }

  ghost predicate Reachable(st: States, source: int, id: int) {
    exists n: nat :: ReachIn(st, source, n, id)
  }

  lemma ReachableStep(st: States, source: int, k: int, id: int)
    requires Reachable(st, source, k) && k in st && id in Conts(st[k].1)
    ensures Reachable(st, source, id)
  {
    hide Conts;
    var n: nat :| ReachIn(st, source, n, k);
    assert ReachIn(st, source, n + 1, id);
  }

  lemma {:induction false} ReachableClosed(st: States, source: int, n: nat, id: int, ids: set<int>)
    requires source in ids && Closed(st, ids, ids) && ReachIn(st, source, n, id)
    ensures id in ids
  {
    hide Conts;
    if n > 0 {
      var k :| ReachIn(st, source, n - 1, k) && k in st && id in Conts(st[k].1);
      ReachableClosed(st, source, n - 1, k, ids);
    }
  }

  ghost predicate AllReachable(st: States, source: int, ids: set<int>) {
    forall id :: id in ids ==> Reachable(st, source, id)
  }

  ghost predicate AllFree(pc: Field, st: States, ids: set<int>) {
    forall id :: id in ids ==> id in st && Free(pc, st[id])
  }

  /** Some reachable state uses the field. */
  ghost predicate Clash(pc: Field, st: States, source: int) {
    exists id :: Reachable(st, source, id) && id in st && !Free(pc, st[id])
  }

  /** Adds the diagrams of `id` and of the states reached from it that have not
      been seen; fails at the first state that uses the field itself. */
  method FoldReachable(t: Automaton, pc: Field, seen0: set<int>, ghost acc0: Fdd, id: int)
    returns (ok: bool, seen: set<int>, ghost acc: Fdd)
    requires StatesOk(t.states) && id in t.states && Reachable(t.states, t.source, id)
    requires IsLocal(pc, t.states, t.source, seen0, acc0)
    requires seen0 <= t.states.Keys && AllFree(pc, t.states, seen0) && AllReachable(t.states, t.source, seen0)
    ensures !ok ==> Clash(pc, t.states, t.source)
    ensures ok ==> seen0 + {id} <= seen <= t.states.Keys && IsLocal(pc, t.states, t.source, seen, acc)
    ensures ok ==> AllFree(pc, t.states, seen) && AllReachable(t.states, t.source, seen)
    ensures ok ==> Closed(t.states, seen - seen0, seen)
    decreases t.states.Keys - seen0
  {
    hide IsLocal, Reachable, Free, StateOk, Plus, StateFdd, Conts;
    seen, acc := seen0, acc0;
    if id in seen0 {
      return true, seen, acc;
    }
    seen := seen0 + {id};
    var s := t.states[id];
    if !Free(pc, s) {
      return false, seen, acc;
    }
    assert StateOk(s, t.states.Keys);
    LocalPlus(pc, t.states, t.source, seen0, acc0, id);
    acc := Plus(acc0, StateFdd(pc, t.source, id, s));
    var todo := Conts(s.1);
    OkConts(s, t.states.Keys);
    while todo != {}
      invariant todo <= Conts(s.1) && Conts(s.1) - todo <= seen && seen0 + {id} <= seen <= t.states.Keys
      invariant IsLocal(pc, t.states, t.source, seen, acc) && AllFree(pc, t.states, seen) &&
                AllReachable(t.states, t.source, seen)
      invariant Closed(t.states, seen - seen0 - {id}, seen)
    {
      var c := Choose(todo);
      ghost var seen1 := seen;
      ReachableStep(t.states, t.source, id, c);
      assert id in t.states.Keys - seen0 && id !in t.states.Keys - seen;
      ok, seen, acc := FoldReachable(t, pc, seen, acc, c);
      if !ok {
        return;
      }
      ClosedGrows(t.states, seen0 + {id}, seen1, seen);
      assert seen - seen0 - {id} == seen - (seen0 + {id});
      todo := todo - {c};
    }
    ok := true;
    assert Closed(t.states, seen - seen0, seen);
  }

  lemma OkConts(s: State, ids: set<int>)
    requires StateOk(s, ids)
    ensures Conts(s.1) <= ids
  {
    ContsIn(s.1, ids);
  }

  lemma ClosedGrows(st: States, a: set<int>, b: set<int>, c: set<int>)
    requires a <= b <= c && Closed(st, b - a, b) && Closed(st, c - b, c)
    ensures Closed(st, c - a, c)
  {
    hide Conts;
    forall x | x in c - a ensures x in st && Conts(st[x].1) <= c {
      assert x in b - a || x in c - b;
    }
  }

  /** `to_local`: succeeds exactly when no reachable state uses the field, and
      gives the union of the diagrams of the reachable states. */
  method ToLocal(t: Automaton, pc: Field) returns (ok: bool, ids: set<int>, ghost l: Fdd)
    requires StatesOk(t.states) && t.source in t.states
    ensures ok <==> !Clash(pc, t.states, t.source)
    ensures ok ==> IsLocal(pc, t.states, t.source, ids, l)
    ensures ok ==> t.source in ids && Closed(t.states, ids, ids) && AllFree(pc, t.states, ids)
    ensures ok ==> forall id :: id in ids <==> Reachable(t.states, t.source, id)
  {
    hide IsLocal, Free, Conts, StateOk;
    LocalNone(pc, t.states, t.source);
    assert ReachIn(t.states, t.source, 0, t.source);
    ok, ids, l := FoldReachable(t, pc, {}, DROP, t.source);
    if ok {
      assert ids - {} == ids;
      forall id | Reachable(t.states, t.source, id) ensures id in ids {
        var n: nat :| ReachIn(t.states, t.source, n, id);
        ReachableClosed(t.states, t.source, n, id, ids);
      }
    }
  }
}
