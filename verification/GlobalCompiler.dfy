/** Compilation of policies with links to one program for all switches. */
module GlobalCompiler {

  import opened Actions
  import opened Fdds
  import opened Sequencing
  import opened StarLoop
  import opened LeafActs
  import opened LocalCompiler
  import opened Traces
  import opened Splitting
  import opened SplitStates
  import opened Automata
  import opened Minimization
  import opened Determinization
  import opened FieldUse
  import opened StateFields
  import opened ProgramCounter
  import opened NetworkRuns
  import opened NetworkPolicies
  import S = Semantics

  // Steps lead to links

  /** Each `Dup` is guarded by a test of `here`. */
  ghost predicate Guarded(pol: Pol, here: Linked) {
    match pol
    case Union(a, b) => Guarded(a, here) && Guarded(b, here)
    case Seq(a, b) =>
      || (b == Dup && a.Filter? && forall x :: Holds(x, a.pred) ==> here(x))
      || (Guarded(a, here) && Guarded(b, here))
    case Star(a) => Guarded(a, here)
    case Dup => false
    case Inject(e, d) => NoConts(e) && StepsTo(d, here)
    case _ => true
  }

  ghost predicate AllGuarded(ks: seq<(int, Pol)>, here: Linked) {
    forall k :: k in ks ==> Guarded(k.1, here)
  }

  lemma StepsToPlus(x: Fdd, y: Fdd, here: Linked)
    requires Canonical(x) && Canonical(y) && StepsTo(x, here) && StepsTo(y, here)
    ensures StepsTo(Plus(x, y), here)
  {
    hide DStep, Plus, Canonical;
    forall p, q, k | DStep(Plus(x, y), p, q, k) ensures here(q) { DStepPlus(x, y, p, q, k); }
  }

  lemma StepsToSeq(x: Fdd, y: Fdd, here: Linked)
    requires Canonical(x) && Canonical(y) && NoConts(x) && StepsTo(y, here)
    ensures StepsTo(SeqFdd(x, y), here)
  {
    hide EStep, DStep, SeqFdd, Canonical, NoConts;
    forall p, q, k | DStep(SeqFdd(x, y), p, q, k) ensures here(q) { DStepSeq(x, y, p, q, k); }
  }

  lemma AppendGuarded(ks: seq<(int, Pol)>, e: Fdd, d: Fdd, here: Linked)
    requires AllGuarded(ks, here) && NoConts(e) && StepsTo(d, here)
    ensures AllGuarded(Append(ks, MkInject(e, d)), here)
  {
    hide StepsTo, NoConts, Holds;
    var r := Append(ks, MkInject(e, d));
    forall k | k in r ensures Guarded(k.1, here) {
      var i :| 0 <= i < |r| && r[i] == k;
      assert ks[i] in ks;
    }
  }

  lemma FilterGuarded(a: S.Pred, here: Linked)
    ensures Canonical(OfPred(a)) && NoConts(OfPred(a)) && StepsTo(DROP, here)
  {
    CanonicalPred(a);
    PredActs(a);
    hide OfPred;
    ActsWeaken(OfPred(a), IsSkip, NoCont);
  }

  /** A `Dup` right after a test makes steps that pass the test. */
  lemma DupGuarded(a: S.Pred, next: int, here: Linked)
    requires forall x :: Holds(x, a) ==> here(x)
    ensures StepsTo(SeqFdd(OfPred(a), MkCont(next)), here)
  {
    FilterGuarded(a, here);
    PredActs(a);
    assert Canonical(MkCont(next));
    hide OfPred, SeqFdd, NoConts, Canonical;
    var d := SeqFdd(OfPred(a), MkCont(next));
    forall p, x, k | DStep(d, p, x, k) ensures here(x) {
      DStepSeq(OfPred(a), MkCont(next), p, x, k);
      var m :| EStep(OfPred(a), p, m) && DStep(MkCont(next), m, x, k);
      var c :| c in Lookup(OfPred(a), p) && Run(c, p) == m;
      ActsLookup(OfPred(a), IsSkip, p);
      assert Run(SKIP, p) == p && Run(SKIP, m) == m;
      assert Lookup(OfPred(a), p) == ONE;
    }
  }

  lemma SplitGuardedDup(next: int, a: S.Pred, here: Linked)
    requires forall x :: Holds(x, a) ==> here(x)
    ensures var s := SplitPol(next, Seq(Filter(a), Dup));
            Canonical(s.e) && Canonical(s.d) && NoConts(s.e) && StepsTo(s.d, here) && AllGuarded(s.ks, here)
  {
    FilterGuarded(a, here);
    DupGuarded(a, next, here);
    assert Canonical(MkCont(next)) && Canonical(DROP) && NoConts(DROP);
    SplitSeq(next, Filter(a), Dup);
    SplitParts(next, a);
    hide OfPred, SeqFdd, Apply, NoConts, Canonical, SplitPol, StepsTo;
    CanonicalSeq(OfPred(a), DROP);
    CanonicalSeq(OfPred(a), MkCont(next));
    ContsSeq(OfPred(a), DROP, {});
    StepsToPlus(DROP, SeqFdd(OfPred(a), MkCont(next)), here);
    CanonicalApply(SumOp, DROP, SeqFdd(OfPred(a), MkCont(next)));
  }

  lemma SplitParts(next: int, a: S.Pred)
    ensures SplitPol(next, Filter(a)) == Split(OfPred(a), DROP, [], next)
    ensures SplitPol(next, Dup) == Split(DROP, MkCont(next), [(next, YES)], next + 1)
    ensures SplitPol(next, Seq(Filter(a), Dup)).ks == [(next, YES)]
  {
    hide OfPred, SeqFdd, Apply, Canonical;
    assert Append([], MkInject(DROP, MkCont(next))) == [];
  }

  /** All steps of a split policy lead to packets of `here`. */
  lemma {:induction false} SplitGuarded(next: int, pol: Pol, here: Linked)
    requires Shaped(pol) && Guarded(pol, here)
    ensures var s := SplitPol(next, pol);
            Canonical(s.e) && Canonical(s.d) && NoConts(s.e) && StepsTo(s.d, here) && AllGuarded(s.ks, here)
    decreases pol
  {
    hide OfPred, SeqFdd, StarFdd, Apply, NoConts, Canonical, StepsTo, Holds, Append, MkInject;
    match pol
    case Filter(a) => FilterGuarded(a, here);
    case Mod(hv) => ModGuarded(hv, here);
    case Union(a, b) =>
      SplitUnion(next, a, b);
      SplitGuarded(next, a, here);
      SplitGuarded(next + Dups(a), b, here);
      var p, q := SplitPol(next, a), SplitPol(next + Dups(a), b);
      ContsPlus(p.e, q.e, {});
      StepsToPlus(p.d, q.d, here);
    case Seq(a, b) =>
      SplitSeq(next, a, b);
      if Guarded(a, here) && Guarded(b, here) {
        SplitGuarded(next, a, here);
        SplitGuarded(next + Dups(a), b, here);
        SeqGuarded(SplitPol(next, a), SplitPol(next + Dups(a), b), here);
      } else {
        SplitGuardedDup(next, a.pred, here);
      }
    case Star(a) =>
      SplitStar(next, a);
      SplitGuarded(next, a, here);
      var p, s := SplitPol(next, a), SplitPol(next, pol);
      NoContsStar(p.e);
      StepsToSeq(s.e, p.d, here);
      AppendGuarded(p.ks, s.e, s.d, here);
    case Inject(e, d) =>
  }

  lemma ModGuarded(hv: S.HeaderVal, here: Linked)
    ensures Canonical(OfMod(hv)) && NoConts(OfMod(hv)) && Canonical(DROP) && StepsTo(DROP, here)
  {
  }

  lemma SeqGuarded(p: Split, q: Split, here: Linked)
    requires Canonical(p.e) && Canonical(p.d) && NoConts(p.e) && StepsTo(p.d, here) && AllGuarded(p.ks, here)
    requires Canonical(q.e) && Canonical(q.d) && NoConts(q.e) && StepsTo(q.d, here) && AllGuarded(q.ks, here)
    ensures NoConts(SeqFdd(p.e, q.e)) && StepsTo(Plus(p.d, SeqFdd(p.e, q.d)), here)
    ensures AllGuarded(Append(p.ks, MkInject(q.e, q.d)) + q.ks, here)
  {
    hide SeqFdd, Apply, NoConts, Canonical, StepsTo, Guarded, Append, MkInject;
    ContsSeq(p.e, q.e, {});
    CanonicalSeq(p.e, q.d);
    StepsToSeq(p.e, q.d, here);
    StepsToPlus(p.d, SeqFdd(p.e, q.d), here);
    AppendGuarded(p.ks, q.e, q.d, here);
  }

  lemma StatesGuarded(pol: Pol, here: Linked, id: int)
    requires Plain(pol) && Guarded(pol, here) && id in StatesOf(pol)
    ensures StepsTo(StatesOf(pol)[id].1, here)
  {
    hide SplitPol, Numbered, Shaped, Guarded, StepsTo, Canonical, NoConts;
    PlainShaped(pol);
    SplitIds(1, pol);
    NumberedLength(SplitPol(1, pol).ks, 1, Dups(pol));
    SplitGuarded(1, pol, here);
    var s := SplitPol(1, pol);
    if id != 0 {
      assert s.ks[id - 1] in s.ks;
      SplitGuarded(s.next, s.ks[id - 1].1, here);
    }
  }

  /** `x` is at the source of a link of the policy. */
  ghost predicate AtLink(loc: Location, pol: S.Policy, x: Packet) {
    match pol
    case Union(a, b) => AtLink(loc, a, x) || AtLink(loc, b, x)
    case Seq(a, b) => AtLink(loc, a, x) || AtLink(loc, b, x)
    case Star(a) => AtLink(loc, a, x)
    case Link(s1, p1, _, _) => At(loc, x, s1, p1)
    case _ => false
  }

  lemma {:induction false} OfPolGuarded(loc: Location, pol: S.Policy, here: Linked)
    requires forall x :: AtLink(loc, pol, x) ==> here(x)
    ensures Guarded(OfPol(loc, pol), here)
  {
    hide Holds, At, MatchLoc;
    match pol
    case Union(a, b) =>
      assert forall x :: AtLink(loc, pol, x) <==> AtLink(loc, a, x) || AtLink(loc, b, x);
      OfPolGuarded(loc, a, here);
      OfPolGuarded(loc, b, here);
    case Seq(a, b) =>
      assert forall x :: AtLink(loc, pol, x) <==> AtLink(loc, a, x) || AtLink(loc, b, x);
      OfPolGuarded(loc, a, here);
      OfPolGuarded(loc, b, here);
    case Star(a) =>
      assert forall x :: AtLink(loc, pol, x) <==> AtLink(loc, a, x);
      OfPolGuarded(loc, a, here);
    case Link(s1, p1, s2, p2) =>
      LinkShape(loc, s1, p1, s2, p2);
      forall x | Holds(x, MatchLoc(loc, s1, p1)) ensures here(x) {
        HoldsLoc(loc, x, s1, p1);
        assert AtLink(loc, pol, x);
      }
    case _ =>
  }

  // The pipeline

  lemma MinimizeSteps(st: States, st': States, newId: map<int, int>, reached: set<int>, k: int)
    requires Renamed(st, st', newId, reached) && k in st'
    ensures FromSteps(st, st'[k].1)
  {
    hide MapConts, Conts, DStep;
    var x :| x in reached && newId[x] == k;
    assert st'[k] == (st[x].0, MapConts(st[x].1, newId));
    forall p, q, j | DStep(st'[k].1, p, q, j) ensures SomeStep(st, p, q) {
      DStepMapConts(st[x].1, newId, p, q, j);
    }
  }

  lemma FromStepsTo(st: States, d: Fdd, here: Linked)
    requires FromSteps(st, d) && forall id :: id in st ==> StepsTo(st[id].1, here)
    ensures StepsTo(d, here)
  {
    hide DStep;
  }

  /** Every state steps onto links, wherever the links of the policy are. */
  ghost predicate LinkSteps(loc: Location, pol: S.Policy, st: States) {
    forall linked: Linked, id :: (forall x :: AtLink(loc, pol, x) ==> linked(x)) && id in st ==>
      StepsTo(st[id].1, linked)
  }

  /** The automaton that accepts the traces of the policy. */
  ghost predicate Implements(loc: Location, pol: S.Policy, st: States, source: int) {
    forall w, p, h, q :: Accept(w, st, source, p, h, q) <==> Tr(w, OfPol(loc, pol), p, h, q)
  }

  /** The program uses no field that the policy leaves alone, but the program counter
      and the location. */
  ghost predicate LeavesFields(pc: Field, loc: Location, pol: S.Policy, l: Fdd) {
    forall f: Field :: Leaves(f, pol) && f !in {pc, loc.sw, loc.pt} ==> Unused(f, l)
  }

  /** `compile_global`, from the states that splitting makes: minimises,
      determinises and encodes them.  It succeeds on every policy that leaves the
      field of the program counter alone. */
  method CompileGlobal(ghost loc: Location, ghost pol: S.Policy, st: States, pc: Field)
    returns (t: Automaton, ok: bool, ids: set<int>, ghost l: Fdd)
    requires st == StatesOf(OfPol(loc, pol))
    ensures ok <==> !Clash(pc, t.states, t.source)
    ensures Leaves(pc, pol) && pc != loc.sw && pc != loc.pt ==> ok
    ensures ok ==> Encoded(pc, t.states, t.source, ids, l) && Done(t.states, ids)
    ensures ok ==> LeavesFields(pc, loc, pol, l)
    ensures Implements(loc, pol, t.states, t.source) && LinkSteps(loc, pol, t.states)
  {
    hide StatesOf, Accept, Tr, StatesOk, Closed, Done, IsLocal, AllFree, Clash, Renamed, Indexed, LinkSteps, FromSteps,
      Conts, NoNewFields, Leaves, LeavesFields, LocalFields;
    StatesOfOk(OfPol(loc, pol));
    StatesCount(OfPol(loc, pol));
    ghost var newId: map<int, int>;
    ghost var reached: set<int>;
    ghost var order;
    t, newId, reached, order := Minimize(st, 0);
    MinimizeOk(st, t.states, newId, reached);
    ghost var st1, source := t.states, t.source;
    forall k | k in st1 ensures FromSteps(st, st1[k].1) { MinimizeSteps(st, st1, newId, reached, k); }
    SourceStored(st, st1, newId, reached, 0);
    ghost var seen := Determinize(t);
    ok, ids, l := ToLocal(t, pc);
    forall w, p, h, q ensures Accept(w, t.states, t.source, p, h, q) <==> Tr(w, OfPol(loc, pol), p, h, q) {
      MinimizeExact(w, st, st1, newId, reached, 0, p, h, q);
      SplitExact(w, OfPol(loc, pol), p, h, q);
    }
    PipelineSteps(loc, pol, st, st1, t.states);
    NoClash(pc, loc, pol, st, st1, newId, reached, t.states, t.source);
    if ok {
      ProgramFields(pc, loc, pol, st, st1, newId, reached, t.states, t.source, ids, l);
      IdsDone(t.states, t.source, ids, seen);
    }
  }

  lemma SourceStored(st: States, st': States, newId: map<int, int>, reached: set<int>, x: int)
    requires Renamed(st, st', newId, reached) && x in reached
    ensures x in newId && newId[x] in st'
  {
  }

  /** No state uses a field that the policy leaves alone. */
  lemma StatesLeave(f: Field, loc: Location, pol: S.Policy, st: States, st1: States, newId: map<int, int>,
                    reached: set<int>, st2: States)
    requires st == StatesOf(OfPol(loc, pol)) && Leaves(f, pol) && f != loc.sw && f != loc.pt
    requires Renamed(st, st1, newId, reached) && forall id :: id in st2 ==> NoNewFields(st1, st2[id])
    ensures forall id :: id in st2 ==> Free(f, st2[id])
  {
    hide StatesOf, Renamed, Free;
    OfPolLeaves(f, loc, pol);
    StatesFree(f, OfPol(loc, pol));
    RenamedFree(f, st, st1, newId, reached);
  }

  lemma ProgramFields(pc: Field, loc: Location, pol: S.Policy, st: States, st1: States, newId: map<int, int>,
                      reached: set<int>, st2: States, source: int, ids: set<int>, l: Fdd)
    requires st == StatesOf(OfPol(loc, pol)) && IsLocal(pc, st2, source, ids, l)
    requires Renamed(st, st1, newId, reached) && forall id :: id in st2 ==> NoNewFields(st1, st2[id])
    ensures LeavesFields(pc, loc, pol, l)
  {
    hide StatesOf, Renamed, Free, Unused, NoNewFields, Canonical, Leaves, StateActs, Lookup;
    forall f: Field | Leaves(f, pol) && f !in {pc, loc.sw, loc.pt} ensures Unused(f, l) {
      StatesLeave(f, loc, pol, st, st1, newId, reached, st2);
    }
  }

  lemma NoClash(pc: Field, loc: Location, pol: S.Policy, st: States, st1: States, newId: map<int, int>,
                reached: set<int>, st2: States, source: int)
    requires st == StatesOf(OfPol(loc, pol))
    requires Renamed(st, st1, newId, reached) && forall id :: id in st2 ==> NoNewFields(st1, st2[id])
    ensures Leaves(pc, pol) && pc != loc.sw && pc != loc.pt ==> !Clash(pc, st2, source)
  {
    hide StatesOf, Renamed, Reachable, Free, NoNewFields;
    if Leaves(pc, pol) && pc != loc.sw && pc != loc.pt {
      StatesLeave(pc, loc, pol, st, st1, newId, reached, st2);
    }
  }

  lemma PipelineSteps(loc: Location, pol: S.Policy, st: States, st1: States, st2: States)
    requires st == StatesOf(OfPol(loc, pol))
    requires forall k :: k in st1 ==> FromSteps(st, st1[k].1)
    requires forall k :: k in st2 ==> FromSteps(st1, st2[k].1)
    ensures LinkSteps(loc, pol, st2)
  {
    hide StatesOf, FromSteps, StepsTo;
    forall linked: Linked, id | (forall x :: AtLink(loc, pol, x) ==> linked(x)) && id in st2
      ensures StepsTo(st2[id].1, linked)
    {
      OfPolGuarded(loc, pol, linked);
      forall k | k in st ensures StepsTo(st[k].1, linked) { StatesGuarded(OfPol(loc, pol), linked, k); }
      forall k | k in st1 ensures StepsTo(st1[k].1, linked) { FromStepsTo(st, st1[k].1, linked); }
      FromStepsTo(st1, st2[id].1, linked);
    }
  }

  /** The encoded states are reachable, so their leaves are merged. */
  lemma IdsDone(st: States, source: int, ids: set<int>, seen: set<int>)
    requires source in seen && Closed(st, seen, seen) && Done(st, seen)
    requires forall id :: id in ids ==> Reachable(st, source, id)
    ensures Done(st, ids)
  {
    hide Conts, AllApart, ReachIn;
    forall id | id in ids ensures id in seen {
      var n: nat :| ReachIn(st, source, n, id);
      ReachableClosed(st, source, n, id, seen);
    }
  }
}
