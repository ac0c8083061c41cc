/** The powerset construction on the tables of an automaton.

    States are rewritten while the automaton is traversed, and merged states are
    added to it.  Every state stands for a set of the initial states. */
module Determinization {

  import opened Prefixes
  import opened Wrappers
  import opened Actions
  import opened Fdds
  import opened LeafActs
  import opened Traces
  import opened Splitting
  import opened Automata
  import opened Minimization
  import opened FieldUse

  /** A run to accept or to refuse. */
  datatype Trace = Trace(w: Wire, p: Packet, h: seq<Packet>, q: Packet)

  ghost function Rest(t: Trace): Trace
    requires t.h != []
  {
    Trace(t.w, t.w(t.h[0]), t.h[1..], t.q)
  }

  /** Some state of `ids` accepts `t`. */
  ghost predicate Accepts(st: States, ids: set<int>, t: Trace) {
    exists b :: b in ids && Accept(t.w, st, b, t.p, t.h, t.q)
  }

  ghost predicate SameTraces(st: States, a: set<int>, b: set<int>) {
    forall t :: Accepts(st, a, t) <==> Accepts(st, b, t)
  }

  /** The state accepts `t` when each id stands for the initial states `base[id]`. */
  ghost predicate Steps(st: States, base: map<int, set<int>>, s: State, t: Trace) {
    if t.h == [] then EStep(s.0, t.p, t.q)
    else exists id :: id in base && DStep(s.1, t.p, t.h[0], id) && Accepts(st, base[id], Rest(t))
  }

  /** `s` accepts what the initial states `ids` accept. */
  ghost predicate Denotes(st: States, base: map<int, set<int>>, s: State, ids: set<int>) {
    forall t :: Accepts(st, ids, t) <==> Steps(st, base, s, t)
  }

  predicate Extends(base': map<int, set<int>>, base: map<int, set<int>>) {
    forall id :: id in base ==> id in base' && base'[id] == base[id]
  }

  lemma DenotesExtends(st: States, base: map<int, set<int>>, base': map<int, set<int>>, s: State, ids: set<int>)
    requires Denotes(st, base, s, ids) && Extends(base', base) && AllConts(s.1, base.Keys)
    ensures Denotes(st, base', s, ids)
  {
    hide Accepts, EStep, DStep, AllConts;
    forall t ensures Accepts(st, ids, t) <==> Steps(st, base', s, t) {
      assert Accepts(st, ids, t) <==> Steps(st, base, s, t);
      if t.h != [] && Steps(st, base', s, t) {
        var id :| id in base' && DStep(s.1, t.p, t.h[0], id) && Accepts(st, base'[id], Rest(t));
        DStepIn(s.1, base.Keys, t.p, t.h[0], id);
      }
    }
  }

  lemma DStepIn(d: Fdd, ids: set<int>, p: Packet, x: Packet, id: int)
    requires AllConts(d, ids) && DStep(d, p, x, id)
    ensures id in ids
  {
    ActsLookup(d, ContIn(ids), p);
  }

  lemma DenotesNone(st: States, base: map<int, set<int>>)
    ensures Denotes(st, base, (DROP, DROP), {})
  {
  }

  lemma DenotesPlus(st: States, base: map<int, set<int>>, s: State, a: set<int>, r: State, b: set<int>)
    requires Denotes(st, base, s, a) && Denotes(st, base, r, b)
    requires Canonical(s.0) && Canonical(s.1) && Canonical(r.0) && Canonical(r.1)
    ensures Denotes(st, base, (Plus(s.0, r.0), Plus(s.1, r.1)), a + b)
  {
    hide EStep, DStep, Canonical, Plus, Accept;
    var u := (Plus(s.0, r.0), Plus(s.1, r.1));
    forall t ensures Accepts(st, a + b, t) <==> Steps(st, base, u, t) {
      AcceptsUnion(st, a, b, t);
      assert Accepts(st, a, t) <==> Steps(st, base, s, t);
      assert Accepts(st, b, t) <==> Steps(st, base, r, t);
      StepsPlus(st, base, s, r, t);
    }
  }

  lemma AcceptsUnion(st: States, a: set<int>, b: set<int>, t: Trace)
    ensures Accepts(st, a + b, t) <==> Accepts(st, a, t) || Accepts(st, b, t)
  {
  }

  lemma StepsPlus(st: States, base: map<int, set<int>>, s: State, r: State, t: Trace)
    requires Canonical(s.0) && Canonical(s.1) && Canonical(r.0) && Canonical(r.1)
    ensures Steps(st, base, (Plus(s.0, r.0), Plus(s.1, r.1)), t) <==> Steps(st, base, s, t) || Steps(st, base, r, t)
  {
    hide EStep, DStep, Canonical, Plus, Accepts;
    if t.h == [] {
      EStepPlus(s.0, r.0, t.p, t.q);
    } else {
      forall id
        ensures DStep(Plus(s.1, r.1), t.p, t.h[0], id) <==> DStep(s.1, t.p, t.h[0], id) || DStep(r.1, t.p, t.h[0], id)
      {
        DStepPlus(s.1, r.1, t.p, t.h[0], id);
      }
    }
  }

  // Actions and diagrams with equal steps

  /** Some action of `par` that assigns `mods` goes on with `t`. */
  ghost predicate ParAccepts(st: States, base: map<int, set<int>>, par: Par, mods: map<Field, int>, t: Trace) {
    exists a :: a in par && a.mods == mods && ContIn(base.Keys)(a) && Accepts(st, base[a.cont.value], t)
  }

  ghost predicate SamePar(st: States, base: map<int, set<int>>, par: Par, par': Par) {
    forall mods, t :: ParAccepts(st, base, par, mods, t) <==> ParAccepts(st, base, par', mods, t)
  }

  /** Different actions make different assignments. */
  predicate Apart(par: Par) {
    forall a, b :: a in par && b in par && a.mods == b.mods ==> a == b
  }

  predicate AllApart(d: Fdd) {
    match d
    case Leaf(par) => Apart(par)
    case Branch(_, _, t, e) => AllApart(t) && AllApart(e)
  }

  /** The diagrams go on in the same way on every packet. */
  ghost predicate SameFdd(st: States, base: map<int, set<int>>, d: Fdd, d': Fdd) {
    forall p :: SamePar(st, base, Lookup(d, p), Lookup(d', p))
  }

  lemma ParAcceptsExtends(st: States, base: map<int, set<int>>, base': map<int, set<int>>, par: Par,
                          mods: map<Field, int>, t: Trace)
    requires Extends(base', base) && forall a :: a in par ==> ContIn(base.Keys)(a)
    ensures ParAccepts(st, base', par, mods, t) <==> ParAccepts(st, base, par, mods, t)
  {
    hide Accepts;
    forall a | a in par ensures ContIn(base'.Keys)(a) && base'[a.cont.value] == base[a.cont.value] {
      assert ContIn(base.Keys)(a);
      var id := a.cont.value;
      assert id in base && id in base' && base'[id] == base[id];
    }
  }

  lemma SameParExtends(st: States, base: map<int, set<int>>, base': map<int, set<int>>, par: Par, par': Par)
    requires SamePar(st, base, par, par') && Extends(base', base)
    requires (forall a :: a in par ==> ContIn(base.Keys)(a)) && forall a :: a in par' ==> ContIn(base.Keys)(a)
    ensures SamePar(st, base', par, par')
  {
    hide Extends, ParAccepts;
    forall mods, t ensures ParAccepts(st, base', par, mods, t) <==> ParAccepts(st, base', par', mods, t) {
      ParAcceptsExtends(st, base, base', par, mods, t);
      ParAcceptsExtends(st, base, base', par', mods, t);
    }
  }

  lemma SameFddExtends(st: States, base: map<int, set<int>>, base': map<int, set<int>>, d: Fdd, d': Fdd)
    requires SameFdd(st, base, d, d') && Extends(base', base) && AllConts(d, base.Keys) && AllConts(d', base.Keys)
    ensures SameFdd(st, base', d, d')
  {
    hide SamePar, Extends, Lookup;
    forall p ensures SamePar(st, base', Lookup(d, p), Lookup(d', p)) {
      ActsLookup(d, ContIn(base.Keys), p);
      ActsLookup(d', ContIn(base.Keys), p);
      SameParExtends(st, base, base', Lookup(d, p), Lookup(d', p));
    }
  }

  /** A step is an action of the leaf; which packet it makes depends on its
      assignments only. */
  lemma StepsActs(st: States, base: map<int, set<int>>, e: Fdd, d: Fdd, t: Trace)
    requires t.h != []
    ensures Steps(st, base, (e, d), t) <==>
              exists mods :: ParAccepts(st, base, Lookup(d, t.p), mods, Rest(t)) && t.p + mods == t.h[0]
  {
    hide Accepts, Lookup, Rest;
    if Steps(st, base, (e, d), t) {
      var id :| id in base && DStep(d, t.p, t.h[0], id) && Accepts(st, base[id], Rest(t));
      var a :| a in Lookup(d, t.p) && a.cont == Some(id) && Run(a, t.p) == t.h[0];
      assert ParAccepts(st, base, Lookup(d, t.p), a.mods, Rest(t)) && t.p + a.mods == t.h[0];
    }
    if mods :| ParAccepts(st, base, Lookup(d, t.p), mods, Rest(t)) && t.p + mods == t.h[0] {
      var a :| a in Lookup(d, t.p) && a.mods == mods && ContIn(base.Keys)(a) &&
        Accepts(st, base[a.cont.value], Rest(t));
      var id := a.cont.value;
      assert Run(a, t.p) == t.h[0];
      assert DStep(d, t.p, t.h[0], id);
    }
  }

  lemma DenotesSameFdd(st: States, base: map<int, set<int>>, e: Fdd, d: Fdd, d': Fdd, ids: set<int>)
    requires Denotes(st, base, (e, d), ids) && SameFdd(st, base, d, d')
    ensures Denotes(st, base, (e, d'), ids)
  {
    hide Accepts, ParAccepts, Lookup, EStep;
    forall t ensures Accepts(st, ids, t) <==> Steps(st, base, (e, d'), t) {
      assert Accepts(st, ids, t) <==> Steps(st, base, (e, d), t);
      if t.h != [] {
        hide Steps;
        StepsActs(st, base, e, d, t);
        StepsActs(st, base, e, d', t);
        assert SamePar(st, base, Lookup(d, t.p), Lookup(d', t.p));
      }
    }
  }

  // Where steps come from

  /** Some state of `st` takes `p` to `x`. */
  ghost predicate SomeStep(st: States, p: Packet, x: Packet) {
    exists id, k :: id in st && DStep(st[id].1, p, x, k)
  }

  /** Each step of `d` is a step of some state of `st`, to whichever state. */
  ghost predicate FromSteps(st: States, d: Fdd) {
    forall p, x, k :: DStep(d, p, x, k) ==> SomeStep(st, p, x)
  }

  /** Each action of `r` assigns what some action of `par` does. */
  predicate CoveredBy(r: Par, par: Par) {
    forall c :: c in r ==> exists a :: a in par && a.mods == c.mods
  }

  ghost predicate Covers(d: Fdd, r: Fdd) {
    forall p :: CoveredBy(Lookup(r, p), Lookup(d, p))
  }

  lemma FromStepsCovers(st: States, d: Fdd, r: Fdd, ids: set<int>)
    requires FromSteps(st, d) && Covers(d, r) && AllConts(d, ids)
    ensures FromSteps(st, r)
  {
    hide SomeStep, Lookup;
    forall p, x, k | DStep(r, p, x, k) ensures SomeStep(st, p, x) {
      var c :| c in Lookup(r, p) && c.cont == Some(k) && Run(c, p) == x;
      assert CoveredBy(Lookup(r, p), Lookup(d, p));
      var a :| a in Lookup(d, p) && a.mods == c.mods;
      ActsLookup(d, ContIn(ids), p);
      var k' := a.cont.value;
      assert a.cont == Some(k') && Run(a, p) == x;
      assert DStep(d, p, x, k');
    }
  }

  lemma FromStepsPlus(st: States, x: Fdd, y: Fdd)
    requires FromSteps(st, x) && FromSteps(st, y) && Canonical(x) && Canonical(y)
    ensures FromSteps(st, Plus(x, y))
  {
    hide SomeStep, DStep, Canonical, Plus;
    forall p, q, k | DStep(Plus(x, y), p, q, k) ensures SomeStep(st, p, q) {
      DStepPlus(x, y, p, q, k);
    }
  }

  /** A field that no initial state uses is not used by `s`. */
  ghost predicate NoNewFields(st: States, s: State) {
    forall f: Field :: (forall id :: id in st ==> Free(f, st[id])) ==> Free(f, s)
  }

  /** A state in order whose steps and fields are those of initial states. */
  ghost predicate Fine(st: States, s: State, ids: set<int>) {
    StateOk(s, ids) && FromSteps(st, s.1) && NoNewFields(st, s)
  }

  /** `r` uses no field that `d` does not use. */
  ghost predicate UsesLess(d: Fdd, r: Fdd) {
    forall f: Field :: Unused(f, d) ==> Unused(f, r)
  }

  lemma NoNewFieldsPlus(st: States, s: State, r: State)
    requires NoNewFields(st, s) && NoNewFields(st, r)
    ensures NoNewFields(st, (Plus(s.0, r.0), Plus(s.1, r.1)))
  {
    hide Apply, Unused;
    forall f: Field | forall id :: id in st ==> Free(f, st[id]) ensures Free(f, (Plus(s.0, r.0), Plus(s.1, r.1))) {
      assert Free(f, s) && Free(f, r);
      UnusedApply(f, SumOp, s.0, r.0);
      UnusedApply(f, SumOp, s.1, r.1);
    }
  }

  lemma NoNewFieldsLess(st: States, s: State, d: Fdd)
    requires NoNewFields(st, s) && UsesLess(s.1, d)
    ensures NoNewFields(st, (s.0, d))
  {
    hide Unused;
    forall f: Field | forall id :: id in st ==> Free(f, st[id]) ensures Free(f, (s.0, d)) {
      assert Free(f, s);
    }
  }

  // The tables

  /** The tables of the automaton and of the construction; `base` says which
      initial states each state stands for. */
  datatype View = View(states: States, hasState: map<State, int>, next: int,
                       tbl: map<set<int>, int>, untbl: map<int, set<int>>, base: map<int, set<int>>)

  ghost predicate Named(st: States, v: View) {
    && v.base.Keys == v.states.Keys && st.Keys <= v.states.Keys
    && (forall id :: id in v.base ==> v.base[id] <= st.Keys)
    && (forall id :: id in st ==> v.base[id] == {id})
    && (forall k :: k in v.states ==> k < v.next)
  }

  ghost predicate Meant(st: States, v: View) {
    forall id :: id in v.states ==>
      id in v.base && Fine(st, v.states[id], v.base.Keys) && Denotes(st, v.base, v.states[id], v.base[id])
  }

  /** The index may hold diagrams that a state had before it was rewritten. */
  ghost predicate IndexMeant(st: States, v: View) {
    forall s :: s in v.hasState ==>
      v.hasState[s] in v.base && Fine(st, s, v.base.Keys) && Denotes(st, v.base, s, v.base[v.hasState[s]])
  }

  ghost predicate Merged(st: States, v: View) {
    && (forall k :: k in v.untbl ==> k in v.base && v.untbl[k] <= st.Keys && SameTraces(st, v.untbl[k], v.base[k]))
    && (forall k :: k in v.states && k !in st ==> k in v.untbl)
    && (forall ks :: ks in v.tbl ==> ks <= st.Keys && v.tbl[ks] in v.base && SameTraces(st, ks, v.base[v.tbl[ks]]))
  }

  ghost predicate Inv(st: States, v: View) {
    Named(st, v) && Meant(st, v) && IndexMeant(st, v) && Merged(st, v)
  }

  function Unmerge(v: View, k: int): set<int> {
    if k in v.untbl then v.untbl[k] else {k}
  }

  lemma UnmergeSame(st: States, v: View, k: int)
    requires Inv(st, v) && k in v.states
    ensures Unmerge(v, k) <= st.Keys && k in v.base && SameTraces(st, Unmerge(v, k), v.base[k])
  {
    hide SameTraces, Meant, IndexMeant;
    if k !in v.untbl {
      assert k in st && v.base[k] == {k};
      SameRefl(st, {k});
    }
  }

  lemma SameRefl(st: States, a: set<int>)
    ensures SameTraces(st, a, a)
  {
  }

  lemma OkExtends(st: States, s: State, ids: set<int>, ids': set<int>)
    requires Fine(st, s, ids) && ids <= ids'
    ensures Fine(st, s, ids')
  {
    ContsWider(s.1, ids, ids');
  }

  /** What a merge that makes a new state does to the tables. */
  function Added(v: View, s: State, ks: set<int>): View {
    View(v.states[v.next := s], v.hasState[s := v.next], v.next + 1,
         v.tbl[ks := v.next], v.untbl[v.next := ks], v.base[v.next := ks])
  }

  lemma InvAdded(st: States, v: View, s: State, ks: set<int>)
    requires Inv(st, v) && ks <= st.Keys && Fine(st, s, v.base.Keys) && Denotes(st, v.base, s, ks)
    ensures Inv(st, Added(v, s, ks)) && Extends(Added(v, s, ks).base, v.base) && v.next !in v.states
  {
    hide Fine, Denotes, SameTraces;
    NamedAdded(st, v, s, ks);
    hide Named;
    MeantAdded(st, v, s, ks);
    IndexMeantAdded(st, v, s, ks);
    MergedAdded(st, v, s, ks);
  }

  lemma NamedAdded(st: States, v: View, s: State, ks: set<int>)
    requires Named(st, v) && ks <= st.Keys
    ensures Named(st, Added(v, s, ks)) && Extends(Added(v, s, ks).base, v.base) && v.next !in v.states &&
            v.next !in st && v.next !in v.base
  {
    var v' := Added(v, s, ks);
    assert v.next !in v.states;
    assert v'.base.Keys == v'.states.Keys;
    assert forall id :: id in st ==> id in v.states;
  }

  lemma MeantAdded(st: States, v: View, s: State, ks: set<int>)
    requires Meant(st, v) && Fine(st, s, v.base.Keys) && Denotes(st, v.base, s, ks)
    requires Extends(Added(v, s, ks).base, v.base)
    ensures Meant(st, Added(v, s, ks))
  {
    hide Fine, Denotes;
    var v' := Added(v, s, ks);
    forall id | id in v'.states
      ensures id in v'.base && Fine(st, v'.states[id], v'.base.Keys) && Denotes(st, v'.base, v'.states[id], v'.base[id])
    {
      if id == v.next {
        MeantExtends(st, v.base, v'.base, s, ks);
      } else {
        assert id in v.states;
        MeantExtends(st, v.base, v'.base, v.states[id], v.base[id]);
      }
    }
  }

  lemma IndexMeantAdded(st: States, v: View, s: State, ks: set<int>)
    requires IndexMeant(st, v) && Fine(st, s, v.base.Keys) && Denotes(st, v.base, s, ks)
    requires Extends(Added(v, s, ks).base, v.base)
    ensures IndexMeant(st, Added(v, s, ks))
  {
    hide Fine, Denotes;
    var v' := Added(v, s, ks);
    forall r | r in v'.hasState
      ensures v'.hasState[r] in v'.base && Fine(st, r, v'.base.Keys) && Denotes(st, v'.base, r, v'.base[v'.hasState[r]])
    {
      if r == s {
        MeantExtends(st, v.base, v'.base, s, ks);
      } else {
        assert r in v.hasState;
        assert v.hasState[r] in v.base;
        MeantExtends(st, v.base, v'.base, r, v.base[v.hasState[r]]);
      }
    }
  }

  lemma MergedAdded(st: States, v: View, s: State, ks: set<int>)
    requires Merged(st, v) && ks <= st.Keys && v.next !in v.base
    ensures Merged(st, Added(v, s, ks))
  {
    SameRefl(st, ks);
    hide SameTraces;
  }

  lemma MeantExtends(st: States, base: map<int, set<int>>, base': map<int, set<int>>, s: State, ids: set<int>)
    requires Fine(st, s, base.Keys) && Denotes(st, base, s, ids) && Extends(base', base)
    ensures Fine(st, s, base'.Keys) && Denotes(st, base', s, ids)
  {
    hide Denotes;
    DenotesExtends(st, base, base', s, ids);
    forall id | id in base.Keys ensures id in base'.Keys { assert id in base; }
    OkExtends(st, s, base.Keys, base'.Keys);
  }

  /** What a merge that finds a state with the same diagrams does. */
  function Reused(v: View, k: int, ks: set<int>): View {
    v.(tbl := v.tbl[ks := k], untbl := if k in v.untbl then v.untbl else v.untbl[k := ks])
  }

  lemma InvReused(st: States, v: View, s: State, ks: set<int>)
    requires Inv(st, v) && ks <= st.Keys && Denotes(st, v.base, s, ks) && s in v.hasState
    ensures Inv(st, Reused(v, v.hasState[s], ks))
  {
    hide Fine, Named, Meant, Merged;
    var k := v.hasState[s];
    SameDenoted(st, v.base, s, ks, v.base[k]);
    hide Denotes, SameTraces, IndexMeant;
    NamedReused(st, v, k, ks);
    MergedReused(st, v, k, ks);
    MeantReused(st, v, k, ks);
  }

  lemma MeantReused(st: States, v: View, k: int, ks: set<int>)
    requires Meant(st, v) && IndexMeant(st, v)
    ensures Meant(st, Reused(v, k, ks)) && IndexMeant(st, Reused(v, k, ks))
  {
    hide Fine, Denotes;
  }

  lemma SameDenoted(st: States, base: map<int, set<int>>, s: State, a: set<int>, b: set<int>)
    requires Denotes(st, base, s, a) && Denotes(st, base, s, b)
    ensures SameTraces(st, a, b)
  {
    hide Accepts, Steps;
  }

  lemma NamedReused(st: States, v: View, k: int, ks: set<int>)
    requires Named(st, v)
    ensures Named(st, Reused(v, k, ks))
  {
  }

  lemma MergedReused(st: States, v: View, k: int, ks: set<int>)
    requires Merged(st, v) && ks <= st.Keys && k in v.base && SameTraces(st, ks, v.base[k])
    ensures Merged(st, Reused(v, k, ks))
  {
    hide SameTraces;
  }

  lemma InvRewritten(st: States, v: View, id: int, d': Fdd)
    requires Inv(st, v) && id in v.states && SameFdd(st, v.base, v.states[id].1, d')
    requires Canonical(d') && AllConts(d', v.base.Keys) && FromSteps(st, d') && UsesLess(v.states[id].1, d')
    ensures Inv(st, v.(states := v.states[id := (v.states[id].0, d')]))
  {
    hide Denotes, SameTraces, SameFdd, AllConts, Canonical, NoConts, FromSteps, NoNewFields, UsesLess;
    var s := v.states[id];
    assert Fine(st, s, v.base.Keys) && Denotes(st, v.base, s, v.base[id]);
    NoNewFieldsLess(st, s, d');
    DenotesSameFdd(st, v.base, s.0, s.1, d', v.base[id]);
  }

  // Termination

  ghost function Subsets(s: set<int>): (r: set<set<int>>)
    ensures forall x :: x <= s ==> x in r
  {
    if s == {} then
      assert forall x :: x <= s ==> x == {};
      {{}}
    else
      var a := Pick(s);
      var r := Subsets(s - {a});
      var all := r + set x | x in r :: x + {a};
      assert forall x :: x <= s ==> x in all by {
        forall x | x <= s ensures x in all {
          assert x - {a} in r;
          assert x == if a in x then (x - {a}) + {a} else x - {a};
        }
      }
      all
  }

  // Growing tables

  /** The tables only grow, and states that are there stay as they are. */
  ghost predicate Grown(v': View, v: View) {
    && Extends(v'.base, v.base)
    && (forall id :: id in v.states ==> id in v'.states && v'.states[id] == v.states[id])
    && v.tbl.Keys <= v'.tbl.Keys
    && (v.tbl.Keys == v'.tbl.Keys ==> v.states.Keys == v'.states.Keys)
  }

  lemma GrownTrans(v'': View, v': View, v: View)
    requires Grown(v'', v') && Grown(v', v)
    ensures Grown(v'', v)
  {
  }

  lemma GrownAdded(v: View, s: State, ks: set<int>)
    requires v.next !in v.states && v.next !in v.base && ks !in v.tbl
    ensures Grown(Added(v, s, ks), v)
  {
    assert ks in Added(v, s, ks).tbl.Keys && ks !in v.tbl.Keys;
  }

  lemma GrownReused(v: View, k: int, ks: set<int>)
    ensures Grown(Reused(v, k, ks), v)
  {
  }

  /** Some initial state that one of `ids` stands for accepts `t`. */
  ghost predicate OneAccepts(st: States, base: map<int, set<int>>, ids: set<int>, t: Trace) {
    exists c :: c in ids && c in base && Accepts(st, base[c], t)
  }

  lemma ContsOfSubset(par: Par, group: Par, base: map<int, set<int>>)
    requires ContsOf(par, base) && group <= par
    ensures ContsOf(group, base)
  {
  }

  ghost predicate ContsOf(par: Par, base: map<int, set<int>>) {
    forall a :: a in par ==> ContIn(base.Keys)(a)
  }

  predicate ApartFrom(done: Par, todo: Par) {
    forall a, b :: a in done && b in todo ==> a.mods != b.mods
  }

  lemma GrownExtends(v': View, v: View)
    requires Grown(v', v)
    ensures Extends(v'.base, v.base)
  {
  }

  lemma ContInSome(a: Act, ids: set<int>)
    requires ContIn(ids)(a)
    ensures a.cont.Some? && a.cont.value in ids
  {
  }

  lemma BaseStates(st: States, v: View)
    requires Inv(st, v)
    ensures v.base.Keys == v.states.Keys
  {
  }

  lemma SameParRefl(st: States, base: map<int, set<int>>, par: Par)
    ensures SamePar(st, base, par, par)
  {
  }

  lemma GroupConts(group: Par, base: map<int, set<int>>)
    requires ContsOf(group, base)
    ensures forall b :: b in group ==> b.cont.Some? && b.cont.value in base.Keys
  {
  }

  /** A group of several actions has several states. */
  lemma GroupIds(group: Par, a: Act, base: map<int, set<int>>, ids: set<int>)
    requires a in group && group != {a} && (forall b :: b in group ==> b.mods == a.mods) && ContsOf(group, base)
    requires ids == set b | b in group && b.cont.Some? :: b.cont.value
    ensures ids <= base.Keys && |ids| > 1
  {
    GroupConts(group, base);
    var b :| b in group && b != a;
    assert {a.cont.value, b.cont.value} <= ids && a.cont.value != b.cont.value;
    SubsetSize({a.cont.value, b.cont.value}, ids);
  }

  lemma GroupMerged(st: States, base: map<int, set<int>>, base': map<int, set<int>>, group: Par, a: Act, ids: set<int>,
                    k: int)
    requires ContsOf(group, base) && Extends(base', base) && k in base'
    requires a in group && forall b :: b in group ==> b.mods == a.mods
    requires ids == set b | b in group && b.cont.Some? :: b.cont.value
    requires forall x :: Accepts(st, base'[k], x) <==> OneAccepts(st, base, ids, x)
    ensures SamePar(st, base', group, {Act(a.mods, Some(k))}) && ContIn(base'.Keys)(Act(a.mods, Some(k)))
  {
    hide Accepts;
    GroupConts(group, base);
    var c := Act(a.mods, Some(k));
    assert ContIn(base'.Keys)(c);
    forall mods, t ensures ParAccepts(st, base', group, mods, t) <==> ParAccepts(st, base', {c}, mods, t) {
      ParAcceptsExtends(st, base, base', group, mods, t);
      if ParAccepts(st, base, group, mods, t) {
        var b :| b in group && b.mods == mods && ContIn(base.Keys)(b) && Accepts(st, base[b.cont.value], t);
        var id := b.cont.value;
        assert id in ids && id in base && Accepts(st, base[id], t);
        assert OneAccepts(st, base, ids, t);
        assert c in {c};
      }
      if ParAccepts(st, base', {c}, mods, t) {
        assert OneAccepts(st, base, ids, t);
        var id :| id in ids && id in base && Accepts(st, base[id], t);
        var b :| b in group && b.cont == Some(id);
        assert ContIn(base.Keys)(b);
      }
    }
  }

  lemma GroupStep(st: States, base: map<int, set<int>>, base': map<int, set<int>>, par: Par, done: Par, r: Par,
                  group: Par, c: Act)
    requires SamePar(st, base, done, r) && Extends(base', base)
    requires ContsOf(par, base) && done + group <= par && ContsOf(r, base)
    requires Apart(r) && CoveredBy(r, done)
    requires group != {} && (forall b :: b in group ==> b.mods == c.mods) && ApartFrom(done, group)
    requires SamePar(st, base', group, {c}) && ContIn(base'.Keys)(c)
    ensures SamePar(st, base', done + group, r + {c})
    ensures ContsOf(par, base') && ContsOf(r + {c}, base') && Apart(r + {c}) && CoveredBy(r + {c}, done + group)
  {
    hide Accepts;
    ContsOfExtends(par, base, base');
    ContsOfExtends(r, base, base');
    SameParExtends(st, base, base', done, r);
    var b0 := Pick(group);
    assert b0 in group;
    forall x | x in r ensures x.mods != c.mods {
      var a :| a in done && a.mods == x.mods;
    }
    hide ContIn;
    forall mods, t ensures ParAccepts(st, base', done + group, mods, t) <==> ParAccepts(st, base', r + {c}, mods, t) {
      ParAcceptsUnion(st, base', done, group, mods, t);
      ParAcceptsUnion(st, base', r, {c}, mods, t);
    }
  }

  lemma ContsOfExtends(par: Par, base: map<int, set<int>>, base': map<int, set<int>>)
    requires ContsOf(par, base) && Extends(base', base)
    ensures ContsOf(par, base')
  {
    forall a | a in par ensures ContIn(base'.Keys)(a) {
      assert ContIn(base.Keys)(a);
      var id := a.cont.value;
      assert id in base && id in base';
    }
  }

  lemma ParAcceptsUnion(st: States, base: map<int, set<int>>, a: Par, b: Par, mods: map<Field, int>, t: Trace)
    ensures ParAccepts(st, base, a + b, mods, t) <==>
            ParAccepts(st, base, a, mods, t) || ParAccepts(st, base, b, mods, t)
  {
    hide Accepts, ContIn;
  }

  lemma GrownRefl(v: View)
    ensures Grown(v, v)
  {
  }

  lemma MergedKnown(st: States, v: View, ks: set<int>)
    requires Inv(st, v) && ks in v.tbl
    ensures v.tbl[ks] in v.base && forall x :: Accepts(st, ks, x) <==> Accepts(st, v.base[v.tbl[ks]], x)
  {
    hide Accepts;
    assert SameTraces(st, ks, v.base[v.tbl[ks]]);
  }

  lemma InvNext(st: States, v: View)
    requires Inv(st, v)
    ensures v.next !in v.states && v.next !in v.base
  {
    hide Meant, IndexMeant, Merged;
    assert v.next !in v.states;
    assert v.next !in v.states.Keys;
  }

  lemma UntblOld(st: States, v: View)
    requires Inv(st, v)
    ensures v.next !in v.untbl
  {
    hide Meant, IndexMeant, SameTraces;
    InvNext(st, v);
  }

  lemma AcceptsNone(st: States)
    ensures forall x :: !Accepts(st, {}, x)
  {
  }

  lemma OkNone(st: States, ids: set<int>)
    ensures Fine(st, (DROP, DROP), ids)
  {
    hide Free;
    forall f: Field ensures Free(f, (DROP, DROP)) { NothingUsed(f); }
  }

  lemma NothingUsed(f: Field)
    ensures Free(f, (DROP, DROP))
  {
  }

  lemma OkPlus(st: States, s: State, r: State, ids: set<int>)
    requires Fine(st, s, ids) && Fine(st, r, ids)
    ensures Fine(st, (Plus(s.0, r.0), Plus(s.1, r.1)), ids)
    ensures Canonical(s.0) && Canonical(s.1) && Canonical(r.0) && Canonical(r.1)
  {
    hide Apply, Canonical, NoConts, AllConts, FromSteps, NoNewFields;
    NoNewFieldsPlus(st, s, r);
    CanonicalApply(SumOp, s.0, r.0);
    CanonicalApply(SumOp, s.1, r.1);
    ContsPlus(s.0, r.0, ids);
    ContsPlus(s.1, r.1, ids);
    FromStepsPlus(st, s.1, r.1);
  }

  lemma InvInitial(v: View)
    requires StatesOk(v.states) && Indexed(v.states, v.hasState) && forall k :: k in v.states ==> k < v.next
    requires v.tbl == map[] && v.untbl == map[] && v.base == map id | id in v.states :: {id}
    ensures Inv(v.states, v)
  {
    hide Fine, Denotes;
    assert v.base.Keys == v.states.Keys;
    forall id | id in v.states
      ensures Denotes(v.states, v.base, v.states[id], {id}) && Fine(v.states, v.states[id], v.base.Keys)
    {
      DenotesInitial(v.states, v.base, id);
      FineInitial(v.states, id);
    }
  }

  lemma FineInitial(st: States, id: int)
    requires StatesOk(st) && id in st
    ensures Fine(st, st[id], st.Keys)
  {
    hide StateOk, DStep, Free;
  }

  lemma DenotesInitial(st: States, base: map<int, set<int>>, id: int)
    requires StatesOk(st) && id in st && base == map x | x in st :: {x}
    ensures Denotes(st, base, st[id], {id})
  {
    hide EStep, DStep, AllConts, NoConts, Canonical;
    assert StateOk(st[id], st.Keys);
    forall t ensures Accepts(st, {id}, t) <==> Steps(st, base, st[id], t) {
      if t.h != [] {
        if Accepts(st, {id}, t) {
          var k :| DStep(st[id].1, t.p, t.h[0], k) && Accept(t.w, st, k, t.w(t.h[0]), t.h[1..], t.q);
          DStepIn(st[id].1, st.Keys, t.p, t.h[0], k);
          assert k in base && k in base[k];
          assert Accepts(st, base[k], Rest(t));
        }
        if Steps(st, base, st[id], t) {
          var k :| k in base && DStep(st[id].1, t.p, t.h[0], k) && Accepts(st, base[k], Rest(t));
          assert Accept(t.w, st, k, t.w(t.h[0]), t.h[1..], t.q);
        }
      }
    }
  }

  // Diagrams

  /** No test of `r` comes before those of `d`. */
  ghost predicate NotBefore(r: Fdd, d: Fdd) {
    (forall f :: Below(d, f) ==> Below(r, f)) && (forall f, v :: After(d, f, v) ==> After(r, f, v))
  }

  lemma LeafConts(par: Par, base: map<int, set<int>>)
    ensures AllConts(Leaf(par), base.Keys) <==> ContsOf(par, base)
  {
  }

  lemma LeafSame(st: States, base: map<int, set<int>>, par: Par, par': Par)
    requires SamePar(st, base, par, par')
    ensures SameFdd(st, base, Leaf(par), Leaf(par')) && NotBefore(Leaf(par'), Leaf(par))
  {
    hide SamePar;
  }

  lemma AllContsBranch(f: Field, v: Prefix, x: Fdd, y: Fdd, ids: set<int>)
    requires AllConts(Branch(f, v, x, y), ids)
    ensures AllConts(x, ids) && AllConts(y, ids)
  {
  }

  lemma GrowsConts(d: Fdd, base: map<int, set<int>>, base': map<int, set<int>>)
    requires AllConts(d, base.Keys) && Extends(base', base)
    ensures AllConts(d, base'.Keys)
  {
    forall id | id in base.Keys ensures id in base'.Keys { assert id in base; }
    ContsWider(d, base.Keys, base'.Keys);
  }

  lemma BranchSame(st: States, base: map<int, set<int>>, d: Fdd, x: Fdd, y: Fdd)
    requires d.Branch? && SameFdd(st, base, d.tru, x) && SameFdd(st, base, d.fls, y)
    ensures SameFdd(st, base, d, MkBranch(d.field, d.value, x, y))
  {
    hide SamePar;
    var r := MkBranch(d.field, d.value, x, y);
    forall p ensures SamePar(st, base, Lookup(d, p), Lookup(r, p)) {
      assert Lookup(r, p) == if Matches(Get(p, d.field), d.value) then Lookup(x, p) else Lookup(y, p);
      assert SamePar(st, base, Lookup(d.tru, p), Lookup(x, p)) && SamePar(st, base, Lookup(d.fls, p), Lookup(y, p));
    }
  }

  lemma BranchCovers(d: Fdd, x: Fdd, y: Fdd)
    requires d.Branch? && Covers(d.tru, x) && Covers(d.fls, y)
    ensures Covers(d, MkBranch(d.field, d.value, x, y))
  {
    hide CoveredBy;
    var r := MkBranch(d.field, d.value, x, y);
    forall p ensures CoveredBy(Lookup(r, p), Lookup(d, p)) {
      assert Lookup(r, p) == if Matches(Get(p, d.field), d.value) then Lookup(x, p) else Lookup(y, p);
      assert CoveredBy(Lookup(x, p), Lookup(d.tru, p)) && CoveredBy(Lookup(y, p), Lookup(d.fls, p));
    }
  }

  lemma LeafUses(par: Par, par': Par)
    requires CoveredBy(par', par)
    ensures UsesLess(Leaf(par), Leaf(par'))
  {
  }

  lemma BranchUses(d: Fdd, x: Fdd, y: Fdd)
    requires d.Branch? && UsesLess(d.tru, x) && UsesLess(d.fls, y)
    ensures UsesLess(d, MkBranch(d.field, d.value, x, y))
  {
  }

  lemma BranchShape(d: Fdd, x: Fdd, y: Fdd, ids: set<int>)
    requires d.Branch? && Canonical(d) && NotBefore(x, d.tru) && NotBefore(y, d.fls)
    requires Canonical(x) && Canonical(y) && AllConts(x, ids) && AllConts(y, ids) && AllApart(x) && AllApart(y)
    ensures var r := MkBranch(d.field, d.value, x, y);
            Canonical(r) && NotBefore(r, d) && AllConts(r, ids) && AllApart(r)
  {
    OrderFacts();
  }

  // Traversal

  /** The leaves of all seen states are merged. */
  ghost predicate Done(st: States, seen: set<int>) {
    forall x :: x in seen ==> x in st && AllApart(st[x].1)
  }

  /** The states of `a` go on in states of `b` only. */
  ghost predicate Closed(st: States, a: set<int>, b: set<int>) {
    forall x :: x in a ==> x in st && Conts(st[x].1) <= b
  }

  /** The tables grow; seen states stay as they are, and others keep their
      diagram for final packets. */
  ghost predicate Kept(v': View, v: View, seen: set<int>) {
    && Extends(v'.base, v.base)
    && (forall id :: id in v.states ==> id in v'.states && v'.states[id].0 == v.states[id].0)
    && (forall id :: id in v.states && id in seen ==> v'.states[id] == v.states[id])
    && v.tbl.Keys <= v'.tbl.Keys
    && (v.tbl.Keys == v'.tbl.Keys ==> v.states.Keys == v'.states.Keys)
  }

  lemma KeptRefl(v: View, seen: set<int>)
    ensures Kept(v, v, seen)
  {
  }

  lemma KeptTrans(v'': View, v': View, v: View, seen': set<int>, seen: set<int>)
    requires Kept(v'', v', seen') && Kept(v', v, seen) && seen <= seen'
    ensures Kept(v'', v, seen)
  {
  }

  lemma KeptRewritten(v': View, v: View, seen: set<int>, id: int, d: Fdd)
    requires Grown(v', v) && id in v.states && id !in seen && Done(v.states, seen) && AllApart(d)
    ensures var v'' := v'.(states := v'.states[id := (v'.states[id].0, d)]);
            && Kept(v'', v, seen) && Done(v''.states, seen + {id}) && v''.states[id].1 == d
            && v''.states.Keys == v'.states.Keys
  {
    hide AllApart;
    var v'' := v'.(states := v'.states[id := (v'.states[id].0, d)]);
    assert id in v'.states;
    assert v''.states.Keys == v'.states.Keys;
  }

  lemma StateFacts(st: States, v: View, id: int)
    requires Inv(st, v) && id in v.states
    ensures Canonical(v.states[id].1) && AllConts(v.states[id].1, v.base.Keys) && v.base.Keys == v.states.Keys
    ensures FromSteps(st, v.states[id].1)
    ensures Conts(v.states[id].1) <= v.states.Keys
  {
    hide Denotes, IndexMeant, Merged, Canonical, AllConts, NoConts, Conts, FromSteps;
    assert Fine(st, v.states[id], v.base.Keys);
    ContsIn(v.states[id].1, v.base.Keys);
  }

  lemma StateGrown(v': View, v: View, id: int)
    requires Grown(v', v) && id in v.states
    ensures id in v'.states && v'.states[id] == v.states[id]
  {
  }

  lemma ClosedKept(v': View, v: View, s: set<int>, s': set<int>, seen: set<int>, id: int)
    requires Kept(v', v, s) && seen + {id} <= s <= s' && Done(v.states, s)
    requires Closed(v.states, s - seen - {id}, s) && Closed(v'.states, s' - s, s')
    ensures Closed(v'.states, s' - seen - {id}, s') && v'.states[id] == v.states[id]
    ensures v.states.Keys <= v'.states.Keys
  {
    hide Conts, AllApart;
    assert id in s;
    forall k | k in v.states.Keys ensures k in v'.states.Keys { assert k in v.states; }
    forall x | x in s' - seen - {id} ensures x in v'.states && Conts(v'.states[x].1) <= s' {
      if x in s {
        assert x in s - seen - {id};
      } else {
        assert x in s' - s;
      }
    }
  }

  /** Each merge that is new adds one of finitely many sets of states. */
  lemma VisitDecreases(st: States, v': View, v: View, seen: set<int>, s: set<int>, id: int)
    requires Inv(st, v') && Kept(v', v, seen)
    requires seen + {id} <= s && id !in seen && id in v.states
    ensures || Subsets(st.Keys) - v'.tbl.Keys < Subsets(st.Keys) - v.tbl.Keys
            || (Subsets(st.Keys) - v'.tbl.Keys == Subsets(st.Keys) - v.tbl.Keys &&
               v'.states.Keys - s < v.states.Keys - seen)
  {
    hide Meant, IndexMeant, SameTraces;
    if v'.tbl.Keys == v.tbl.Keys {
      assert id in v.states.Keys - seen && id !in v'.states.Keys - s;
    } else {
      var ks :| ks in v'.tbl.Keys && ks !in v.tbl.Keys;
      assert ks in v'.tbl && ks <= st.Keys;
      assert ks in Subsets(st.Keys) - v.tbl.Keys && ks !in Subsets(st.Keys) - v'.tbl.Keys;
    }
  }

  // The construction

  class Determinizer {
    const t: Automaton
    var tbl: map<set<int>, int>
    var untbl: map<int, set<int>>
    ghost const st0: States
    ghost var base: map<int, set<int>>

    ghost function V(): View
      reads this, t
    {
      View(t.states, t.hasState, t.nextState, tbl, untbl, base)
    }

    constructor (t: Automaton)
      requires StatesOk(t.states) && Indexed(t.states, t.hasState) && forall k :: k in t.states ==> k < t.nextState
      ensures this.t == t && st0 == t.states && Inv(st0, V())
    {
      this.t := t;
      tbl, untbl := map[], map[];
      st0 := t.states;
      base := map id | id in t.states :: {id};
      new;
      InvInitial(V());
    }

    /** The initial states that the states of `ks` were merged from. */
    method UnmergeAll(ks: set<int>) returns (r: set<int>)
      requires Inv(st0, V()) && ks <= t.states.Keys
      ensures r <= st0.Keys
      ensures forall x :: Accepts(st0, r, x) <==> OneAccepts(st0, base, ks, x)
    {
      hide Inv, Accepts, Accept;
      r := {};
      var todo := ks;
      assert forall x :: !Accepts(st0, r, x) by { AcceptsNone(st0); }
      while todo != {}
        invariant todo <= ks && r <= st0.Keys
        invariant forall x :: Accepts(st0, r, x) <==> OneAccepts(st0, base, ks - todo, x)
      {
        var c := Choose(todo);
        var u := if c in untbl then untbl[c] else {c};
        UnmergeSame(st0, V(), c);
        ghost var r0, done := r, ks - todo;
        r := r + u;
        todo := todo - {c};
        assert ks - todo == done + {c};
        forall x ensures Accepts(st0, r, x) <==> OneAccepts(st0, base, ks - todo, x) {
          AcceptsUnion(st0, r0, u, x);
          assert Accepts(st0, u, x) <==> Accepts(st0, base[c], x);
        }
      }
      assert ks - todo == ks;
    }

    /** The sums of the diagrams of the states of `ks`. */
    method Sums(ks: set<int>) returns (s: State)
      requires Inv(st0, V()) && ks <= st0.Keys
      ensures Fine(st0, s, base.Keys) && Denotes(st0, base, s, ks)
    {
      hide Denotes, Fine;
      s := (DROP, DROP);
      DenotesNone(st0, base);
      OkNone(st0, base.Keys);
      var todo := ks;
      assert ks - todo == {};
      while todo != {}
        invariant todo <= ks
        invariant Fine(st0, s, base.Keys) && Denotes(st0, base, s, ks - todo)
      {
        var c := Choose(todo);
        assert c in t.states && base[c] == {c};
        var r := t.states[c];
        OkPlus(st0, s, r, base.Keys);
        DenotesPlus(st0, base, s, ks - todo, r, {c});
        s := (Plus(s.0, r.0), Plus(s.1, r.1));
        assert ks - (todo - {c}) == (ks - todo) + {c};
        todo := todo - {c};
      }
      assert ks - todo == ks;
    }

    /** One state for all of `ks`. */
    method Merge(ks0: set<int>) returns (k: int)
      requires Inv(st0, V()) && ks0 <= t.states.Keys && |ks0| > 1
      modifies this, t
      ensures Inv(st0, V()) && Grown(V(), old(V())) && t.source == old(t.source)
      ensures k in base && forall x :: Accepts(st0, base[k], x) <==> OneAccepts(st0, old(base), ks0, x)
    {
      hide Inv, Grown, Accepts, OneAccepts, Fine, Denotes;
      ghost var v := V();
      var ks := UnmergeAll(ks0);
      if ks in tbl {
        k := tbl[ks];
        MergedKnown(st0, v, ks);
        assert Grown(v, v) by { GrownRefl(v); }
      } else {
        var s := Sums(ks);
        InvNext(st0, v);
        ghost var known := s in t.hasState;
        k := t.AddTo(s);
        tbl := tbl[ks := k];
        if k !in untbl {
          untbl := untbl[k := ks];
        }
        if known {
          InvReused(st0, v, s, ks);
          GrownReused(v, k, ks);
          assert V() == Reused(v, k, ks);
        } else {
          InvAdded(st0, v, s, ks);
          UntblOld(st0, v);
          GrownAdded(v, s, ks);
          base := base[k := ks];
          assert V() == Added(v, s, ks);
        }
        MergedKnown(st0, V(), ks);
      }
    }

    /** One action for a group that assigns the same. */
    method MergeGroup(group: Par, a: Act) returns (c: Act)
      requires Inv(st0, V()) && ContsOf(group, base)
      requires a in group && forall b :: b in group ==> b.mods == a.mods
      modifies this, t
      ensures Inv(st0, V()) && Grown(V(), old(V())) && t.source == old(t.source)
      ensures c.mods == a.mods && ContIn(base.Keys)(c) && SamePar(st0, base, group, {c})
    {
      hide Inv, SamePar, Grown, OneAccepts, Accepts, ContIn;
      ghost var v := V();
      GroupConts(group, base);
      if group == {a} {
        c := a;
        SameParRefl(st0, base, {a});
        GrownRefl(v);
      } else {
        var ids := set b | b in group && b.cont.Some? :: b.cont.value;
        GroupIds(group, a, base, ids);
        BaseStates(st0, v);
        var k := Merge(ids);
        c := Act(a.mods, Some(k));
        GrownExtends(V(), v);
        GroupMerged(st0, v.base, base, group, a, ids, k);
      }
    }

    /** Merges the states of actions that assign the same. */
    method DedupPar(par: Par) returns (r: Par)
      requires Inv(st0, V()) && ContsOf(par, base)
      modifies this, t
      ensures Inv(st0, V()) && Grown(V(), old(V())) && t.source == old(t.source)
      ensures ContsOf(r, base) && Apart(r) && CoveredBy(r, par) && SamePar(st0, base, par, r)
    {
      hide Inv, SamePar, Grown, Extends, ContIn;
      r := {};
      var todo := par;
      ghost var done: Par := {};
      SameParRefl(st0, base, {});
      GrownRefl(V());
      while todo != {}
        invariant todo <= par && done == par - todo && ApartFrom(done, todo)
        invariant Inv(st0, V()) && Grown(V(), old(V())) && t.source == old(t.source)
        invariant ContsOf(par, base) && ContsOf(r, base) && Apart(r) && CoveredBy(r, done)
        invariant SamePar(st0, base, done, r)
      {
        hide ContsOf, Apart, CoveredBy;
        ghost var v, v0 := V(), old(V());
        var a := Choose(todo);
        var group := set b | b in todo && b.mods == a.mods;
        ContsOfSubset(par, group, base);
        var c := MergeGroup(group, a);
        GrownTrans(V(), v, v0);
        GrownExtends(V(), v);
        GroupStep(st0, v.base, base, par, done, r, group, c);
        done := done + group;
        todo := todo - group;
        r := r + {c};
      }
      assert done == par;
    }

    /** The diagram with each leaf merged. */
    method DedupFdd(d: Fdd) returns (r: Fdd)
      requires Inv(st0, V()) && Canonical(d) && AllConts(d, base.Keys)
      modifies this, t
      ensures Inv(st0, V()) && Grown(V(), old(V())) && t.source == old(t.source)
      ensures Canonical(r) && NotBefore(r, d) && AllConts(r, base.Keys) && AllApart(r) && Covers(d, r) &&
              SameFdd(st0, base, d, r)
      ensures UsesLess(d, r)
      decreases d
    {
      hide Inv, Grown, SamePar, Extends, Apart, After, Below, NotBefore, CoveredBy, UsesLess;
      match d
      case Leaf(par) =>
        LeafConts(par, base);
        var par' := DedupPar(par);
        LeafConts(par', base);
        r := Leaf(par');
        LeafUses(par, par');
        LeafSame(st0, base, par, par');
      case Branch(f, v, x, y) =>
        hide SameFdd, AllConts, Covers;
        AllContsBranch(f, v, x, y, base.Keys);
        ghost var v0 := V();
        var x' := DedupFdd(x);
        ghost var v1 := V();
        GrownExtends(v1, v0);
        GrowsConts(y, v0.base, v1.base);
        var y' := DedupFdd(y);
        GrownTrans(V(), v1, v0);
        GrownExtends(V(), v1);
        GrowsConts(x, v0.base, v1.base);
        SameFddExtends(st0, v1.base, base, x, x');
        GrowsConts(x', v1.base, base);
        r := MkBranch(f, v, x', y');
        BranchSame(st0, base, d, x', y');
        BranchShape(d, x', y', base.Keys);
        BranchCovers(d, x', y');
        BranchUses(d, x', y');
    }

    /** Merges the leaves of state `id` and of all the states reached from it
        that have not been seen. */
    method Visit(seen: set<int>, id: int) returns (s: set<int>)
      requires Inv(st0, V()) && id in t.states && Done(t.states, seen)
      modifies this, t
      ensures Inv(st0, V()) && Kept(V(), old(V()), seen) && t.source == old(t.source)
      ensures seen + {id} <= s && Done(t.states, s) && Closed(t.states, s - seen, s)
      decreases Subsets(st0.Keys) - tbl.Keys, t.states.Keys - seen
    {
      hide Inv, SameFdd, Subsets, AllApart, Grown, Canonical, AllConts, Covers, FromSteps, UsesLess;
      if id in seen {
        KeptRefl(V(), seen);
        return seen;
      }
      ghost var v0 := V();
      StateFacts(st0, v0, id);
      var d := DedupFdd(t.states[id].1);
      ghost var v1 := V();
      StateGrown(v1, v0, id);
      FromStepsCovers(st0, v0.states[id].1, d, v0.base.Keys);
      InvRewritten(st0, v1, id, d);
      t.states := t.states[id := (t.states[id].0, d)];
      KeptRewritten(v1, v0, seen, id, d);
      assert V() == v1.(states := v1.states[id := (v1.states[id].0, d)]);
      s := seen + {id};
      var todo := Conts(d);
      StateFacts(st0, V(), id);
      while todo != {}
        invariant todo <= Conts(d) && Conts(d) - todo <= s && seen + {id} <= s
        invariant Inv(st0, V()) && Kept(V(), v0, seen) && t.source == old(t.source)
        invariant Done(t.states, s) && Closed(t.states, s - seen - {id}, s) && t.states[id].1 == d
        invariant Conts(d) <= t.states.Keys
      {
        hide Conts;
        var c := Choose(todo);
        ghost var v2, s2 := V(), s;
        VisitDecreases(st0, v2, v0, seen, s, id);
        s := Visit(s, c);
        KeptTrans(V(), v2, v0, s2, seen);
        ClosedKept(V(), v2, s2, s, seen, id);
        todo := todo - {c};
      }
      assert Closed(t.states, s - seen, s);
    }
  }

  // The result

  lemma {:induction false} MeantAccepts(st: States, v: View, id: int, t: Trace)
    requires Inv(st, v) && id in v.states
    ensures id in v.base && (Accept(t.w, v.states, id, t.p, t.h, t.q) <==> Accepts(st, v.base[id], t))
    decreases |t.h|
  {
    hide Accepts, EStep, DStep, IndexMeant, Merged, Fine;
    assert Denotes(st, v.base, v.states[id], v.base[id]);
    assert Accepts(st, v.base[id], t) <==> Steps(st, v.base, v.states[id], t);
    if t.h != [] {
      forall k | k in v.base
        ensures Accept(t.w, v.states, k, t.w(t.h[0]), t.h[1..], t.q) <==> Accepts(st, v.base[k], Rest(t))
      {
        assert k in v.states;
        MeantAccepts(st, v, k, Rest(t));
      }
    }
  }

  lemma AcceptsOriginal(st: States, v: View, id: int, t: Trace)
    requires Inv(st, v) && id in st
    ensures id in v.states && id in v.base && (Accepts(st, v.base[id], t) <==> Accept(t.w, st, id, t.p, t.h, t.q))
  {
    hide Accept, Meant, IndexMeant, Merged;
    assert id in v.states.Keys;
    assert v.base[id] == {id};
  }

  lemma InvOk(st: States, v: View)
    requires Inv(st, v)
    ensures StatesOk(v.states)
    ensures forall id :: id in v.states ==> FromSteps(st, v.states[id].1) && NoNewFields(st, v.states[id])
  {
    hide Denotes, IndexMeant, Merged, StateOk, FromSteps, NoNewFields;
    assert v.base.Keys == v.states.Keys;
    forall id | id in v.states
      ensures StateOk(v.states[id], v.states.Keys) && FromSteps(st, v.states[id].1) && NoNewFields(st, v.states[id])
    {
      assert Fine(st, v.states[id], v.base.Keys);
    }
  }

  /** Determinisation: every initial state accepts the same traces as before, and
      no leaf of a reachable state has two actions that assign the same. */
  method Determinize(t: Automaton) returns (ghost reached: set<int>)
    requires StatesOk(t.states) && Indexed(t.states, t.hasState) && t.source in t.states
    requires forall k :: k in t.states ==> k < t.nextState
    modifies t
    ensures StatesOk(t.states) && t.source == old(t.source) && old(t.states).Keys <= t.states.Keys
    ensures forall w, id, p, h, q :: id in old(t.states) ==>
              (Accept(w, t.states, id, p, h, q) <==> Accept(w, old(t.states), id, p, h, q))
    ensures forall id :: id in old(t.states) ==> t.states[id].0 == old(t.states)[id].0
    ensures forall id :: id in t.states ==>
            FromSteps(old(t.states), t.states[id].1) && NoNewFields(old(t.states), t.states[id])
    ensures t.source in reached && Closed(t.states, reached, reached) && Done(t.states, reached)
  {
    hide Inv, Accept, AllApart, Conts, FromSteps, NoNewFields;
    var z := new Determinizer(t);
    ghost var v0 := z.V();
    var seen := z.Visit({}, t.source);
    reached := seen;
    InvOk(z.st0, z.V());
    forall w, id, p, h, q | id in v0.states
      ensures Accept(w, t.states, id, p, h, q) <==> Accept(w, v0.states, id, p, h, q)
    {
      var x := Trace(w, p, h, q);
      MeantAccepts(z.st0, z.V(), id, x);
      AcceptsOriginal(z.st0, z.V(), id, x);
    }
    assert seen - {} == seen;
  }
}
