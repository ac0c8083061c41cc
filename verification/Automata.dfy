/** Symbolic automata: states with a diagram for final packets and a diagram for
    steps to other states. */
module Automata {

  import opened Prefixes
  import opened Actions
  import opened Fdds
  import opened LeafActs
  import opened Traces
  import opened Splitting
  import opened SplitCorrectness
  import opened SplitStates

  type State = (Fdd, Fdd)
  type States = map<int, State>

  /** The automaton in state `id` takes `p` to `q` with trace `h`. */
  ghost predicate Accept(w: Wire, st: States, id: int, p: Packet, h: seq<Packet>, q: Packet)
    decreases |h|
  {
    && id in st
    && if h == [] then EStep(st[id].0, p, q)
       else exists k :: DStep(st[id].1, p, h[0], k) && Accept(w, st, k, w(h[0]), h[1..], q)
  }

  /** The diagrams are in order, final packets have no continuation, and every
      continuation is a state of `ids`. */
  predicate StateOk(s: State, ids: set<int>) {
    Canonical(s.0) && Canonical(s.1) && NoConts(s.0) && AllConts(s.1, ids)
  }

  predicate StatesOk(st: States) {
    forall id :: id in st ==> StateOk(st[id], st.Keys)
  }

  /** The numbers below `n`. */
  function Range(n: nat): (r: set<int>)
    ensures forall i :: i in r <==> 0 <= i < n
    ensures |r| == n
  {
    if n == 0 then {} else Range(n - 1) + {n - 1}
  }

  /** The diagrams of state `id`: those of the policy itself for 0, and of the
      policy of one new state otherwise. */
  ghost function StateAt(s: Split, id: int): State
    requires 0 <= id <= |s.ks| && forall k :: k in s.ks ==> Shaped(k.1)
  {
    if id == 0 then (s.e, s.d)
    else
      assert s.ks[id - 1] in s.ks;
      var r := SplitPol(s.next, s.ks[id - 1].1);
      (r.e, r.d)
  }

  /** All states of a policy: the policy itself is state 0. */
  ghost function StatesOf(pol: Pol): States
    requires Plain(pol)
  {
    PlainShaped(pol);
    var s := SplitPol(1, pol);
    var ids := Range(|s.ks| + 1);
    map id | id in ids :: StateAt(s, id)
  }

  /** There is one state for each `Dup`, and the source. */
  lemma StatesCount(pol: Pol)
    requires Plain(pol)
    ensures StatesOf(pol).Keys == Range(Dups(pol) + 1)
    ensures |StatesOf(pol)| == Dups(pol) + 1
  {
    hide SplitPol, Numbered, Range, StateAt, Shaped;
    PlainShaped(pol);
    SplitIds(1, pol);
    NumberedLength(SplitPol(1, pol).ks, 1, Dups(pol));
    assert |StatesOf(pol)| == |StatesOf(pol).Keys|;
  }

  lemma NumberedLength(ks: seq<(int, Pol)>, next: int, n: nat)
    requires Numbered(ks, next, n)
    ensures |ks| == n && forall i :: 0 <= i < n ==> ks[i].0 == next + i
  {
  }

  /** State `id` of the automaton is one step of what the state means. */
  lemma StateOneStep(w: Wire, pol: Pol, id: int)
    requires Plain(pol) && id in StatesOf(pol)
    ensures var kn := Nominal(1, pol)[0 := pol];
            id in kn && OneStep(w, kn, StatesOf(pol)[id].0, StatesOf(pol)[id].1, kn[id])
  {
    hide SplitPol, OneStep, Nominal, Numbered, Shaped, Range, Extends;
    PlainShaped(pol);
    SplitIds(1, pol);
    NumberedLength(SplitPol(1, pol).ks, 1, Dups(pol));
    NominalKeys(1, pol);
    var n := Nominal(1, pol);
    var kn := n[0 := pol];
    ExtendsUpdate(n, 0, pol);
    if id == 0 {
      SplitOneStep(w, 1, pol);
      OneStepExtends(w, n, kn, StatesOf(pol)[0].0, StatesOf(pol)[0].1, pol);
    } else {
      SplitStateSteps(w, 1, pol);
      var s := SplitPol(1, pol);
      var k := s.ks[id - 1];
      assert k.0 in n && StateStep(w, n, k.1, n[k.0]);
      DupFreeSplit(s.next, 0, k.1);
      OneStepExtends(w, n, kn, StatesOf(pol)[id].0, StatesOf(pol)[id].1, n[id]);
    }
  }

  lemma ExtendsUpdate(n: map<int, Pol>, id: int, pol: Pol)
    requires id !in n
    ensures Extends(n[id := pol], n)
  {
  }

  lemma StatesOfOk(pol: Pol)
    requires Plain(pol)
    ensures StatesOk(StatesOf(pol))
  {
    hide StatesOf, OneStep, Nominal, Canonical, NoConts, AllConts;
    StatesCount(pol);
    forall id | id in StatesOf(pol) ensures StateOk(StatesOf(pol)[id], StatesOf(pol).Keys) {
      var w: Wire := p => p;
      StateOneStep(w, pol, id);
      NominalKeys(1, pol);
      var kn := Nominal(1, pol)[0 := pol];
      OneStepShape(w, kn, StatesOf(pol)[id].0, StatesOf(pol)[id].1, kn[id]);
      forall k ensures k in kn.Keys <==> k in StatesOf(pol).Keys { assert k in kn <==> k in StatesOf(pol); }
      assert kn.Keys == StatesOf(pol).Keys;
    }
  }

  lemma {:induction false} AcceptNominal(w: Wire, pol: Pol, id: int, p: Packet, h: seq<Packet>, q: Packet)
    requires Plain(pol) && id in StatesOf(pol) && id in Nominal(1, pol)[0 := pol]
    ensures Accept(w, StatesOf(pol), id, p, h, q) <==> Tr(w, Nominal(1, pol)[0 := pol][id], p, h, q)
    decreases |h|
  {
    hide StatesOf, OneStep, Nominal, Tr, EStep, DStep;
    var st, kn := StatesOf(pol), Nominal(1, pol)[0 := pol];
    StatesCount(pol);
    NominalKeys(1, pol);
    StateOneStep(w, pol, id);
    OneStepUse(w, kn, st[id].0, st[id].1, kn[id], p, h, q);
    if h != [] {
      forall k | k in st
        ensures k in kn && (Accept(w, st, k, w(h[0]), h[1..], q) <==> Tr(w, kn[k], w(h[0]), h[1..], q))
      {
        AcceptNominal(w, pol, k, w(h[0]), h[1..], q);
      }
    }
  }

  /** Splitting is exact: from state 0 the automaton has the traces of the policy. */
  lemma SplitExact(w: Wire, pol: Pol, p: Packet, h: seq<Packet>, q: Packet)
    requires Plain(pol)
    ensures Accept(w, StatesOf(pol), 0, p, h, q) <==> Tr(w, pol, p, h, q)
  {
    hide StatesOf, Nominal, Accept, Tr;
    StatesCount(pol);
    AcceptNominal(w, pol, 0, p, h, q);
  }

  // Continuations of a diagram

  /** The states that some action of `d` goes on in. */
  function Conts(d: Fdd): set<int> {
    match d
    case Leaf(par) => set a | a in par && a.cont.Some? :: a.cont.value
    case Branch(_, _, t, e) => Conts(t) + Conts(e)
  }

  lemma {:induction false} ContsIn(d: Fdd, ids: set<int>)
    requires AllConts(d, ids)
    ensures Conts(d) <= ids && AllConts(d, Conts(d))
  {
    if d.Branch? {
      ContsIn(d.tru, ids);
      ContsIn(d.fls, ids);
      ContsWider(d.tru, Conts(d.tru), Conts(d));
      ContsWider(d.fls, Conts(d.fls), Conts(d));
    }
  }

  lemma {:induction false} DStepConts(d: Fdd, p: Packet, x: Packet, id: int)
    requires DStep(d, p, x, id)
    ensures id in Conts(d)
  {
    if d.Branch? {
      if Matches(Get(p, d.field), d.value) {
        DStepConts(d.tru, p, x, id);
      } else {
        DStepConts(d.fls, p, x, id);
      }
    }
  }
}
