/** The symbolic automaton of a policy. */
module SplitStates {

  import opened Wrappers
  import opened Actions
  import opened Fdds
  import opened Sequencing
  import opened StarLoop
  import opened LeafActs
  import opened LocalCompiler
  import opened Traces
  import opened Splitting
  import opened SplitCorrectness
  import S = Semantics

  /** A policy without injected diagrams. */
  predicate Plain(pol: Pol) {
    match pol
    case Union(a, b) => Plain(a) && Plain(b)
    case Seq(a, b) => Plain(a) && Plain(b)
    case Star(a) => Plain(a)
    case Inject(_, _) => false
    case _ => true
  }

  lemma {:induction false} PlainShaped(pol: Pol)
    requires Plain(pol)
    ensures Shaped(pol)
  {
    match pol
    case Union(a, b) => PlainShaped(a); PlainShaped(b);
    case Seq(a, b) => PlainShaped(a); PlainShaped(b);
    case Star(a) => PlainShaped(a);
    case _ =>
  }

  function Dups(pol: Pol): nat {
    match pol
    case Union(a, b) => Dups(a) + Dups(b)
    case Seq(a, b) => Dups(a) + Dups(b)
    case Star(a) => Dups(a)
    case Dup => 1
    case _ => 0
  }

  /** The `n` new states have the ids from `next` on, and policies without `Dup`. */
  predicate Numbered(ks: seq<(int, Pol)>, next: int, n: nat) {
    |ks| == n && forall i :: 0 <= i < |ks| ==> ks[i].0 == next + i && Dups(ks[i].1) == 0
  }

  lemma NumberedConcat(ks: seq<(int, Pol)>, ks': seq<(int, Pol)>, next: int, m: nat, n: nat)
    requires Numbered(ks, next, m) && Numbered(ks', next + m, n)
    ensures Numbered(ks + ks', next, m + n)
  {
  }

  lemma NumberedAppend(ks: seq<(int, Pol)>, next: int, n: nat, e: Fdd, d: Fdd)
    requires Numbered(ks, next, n)
    ensures Numbered(Append(ks, MkInject(e, d)), next, n)
  {
  }

  /** Splitting makes one state for each `Dup`, numbered from `next` on. */
  lemma {:induction false} SplitIds(next: int, pol: Pol)
    requires Shaped(pol)
    ensures SplitPol(next, pol).next == next + Dups(pol) && Numbered(SplitPol(next, pol).ks, next, Dups(pol))
    decreases pol
  {
    hide Apply, SeqFdd, StarFdd, OfPred, Canonical, Append, MkInject, Numbered;
    match pol
    case Union(a, b) =>
      SplitIds(next, a);
      SplitIds(next + Dups(a), b);
      NumberedConcat(SplitPol(next, a).ks, SplitPol(next + Dups(a), b).ks, next, Dups(a), Dups(b));
    case Seq(a, b) =>
      SplitIds(next, a);
      SplitIds(next + Dups(a), b);
      var p, q := SplitPol(next, a), SplitPol(next + Dups(a), b);
      NumberedAppend(p.ks, next, Dups(a), q.e, q.d);
      NumberedConcat(Append(p.ks, MkInject(q.e, q.d)), q.ks, next, Dups(a), Dups(b));
    case Star(a) =>
      SplitIds(next, a);
      NumberedAppend(SplitPol(next, a).ks, next, Dups(a), SplitPol(next, pol).e, SplitPol(next, pol).d);
    case _ =>
      NumberedLeaf(next, pol);
  }

  lemma NumberedLeaf(next: int, pol: Pol)
    requires Shaped(pol) && !pol.Union? && !pol.Seq? && !pol.Star?
    ensures SplitPol(next, pol).next == next + Dups(pol) && Numbered(SplitPol(next, pol).ks, next, Dups(pol))
  {
    hide OfPred, Canonical;
  }

  /** What the continuation of each state means, with the policy itself where
      the state has its diagrams. */
  ghost function Nominal(next: int, pol: Pol): map<int, Pol>
    decreases pol
  {
    match pol
    case Union(a, b) => Nominal(next, a) + Nominal(next + Dups(a), b)
    case Seq(a, b) =>
      var na := Nominal(next, a);
      (map id | id in na :: Seq(na[id], b)) + Nominal(next + Dups(a), b)
    case Star(a) =>
      var na := Nominal(next, a);
      map id | id in na :: Seq(na[id], Star(a))
    case Dup => map[next := YES]
    case _ => map[]
  }

  lemma {:induction false} NominalKeys(next: int, pol: Pol)
    ensures forall id :: id in Nominal(next, pol) <==> next <= id < next + Dups(pol)
    decreases pol
  {
    match pol
    case Union(a, b) =>
      NominalKeys(next, a);
      NominalKeys(next + Dups(a), b);
    case Seq(a, b) =>
      NominalKeys(next, a);
      NominalKeys(next + Dups(a), b);
    case Star(a) =>
      NominalKeys(next, a);
    case _ =>
  }

  lemma NominalApart(next: int, a: Pol, b: Pol)
    ensures forall id :: id in Nominal(next, a) ==> id !in Nominal(next + Dups(a), b)
  {
    hide Nominal, Dups;
    NominalKeys(next, a);
    NominalKeys(next + Dups(a), b);
  }

  /** The parts of a union or sequence have their own ids. */
  lemma NominalUnion(next: int, a: Pol, b: Pol)
    ensures Extends(Nominal(next, Union(a, b)), Nominal(next, a))
    ensures Extends(Nominal(next, Union(a, b)), Nominal(next + Dups(a), b))
  {
    NominalApart(next, a, b);
    MapParts(Nominal(next, a), Nominal(next + Dups(a), b));
  }

  lemma NominalSeq(next: int, a: Pol, b: Pol)
    ensures ContinuesWith(Nominal(next, Seq(a, b)), Nominal(next, a), b)
    ensures Extends(Nominal(next, Seq(a, b)), Nominal(next + Dups(a), b))
  {
    NominalApart(next, a, b);
    SeqParts(Nominal(next, a), b, Nominal(next + Dups(a), b));
  }

  lemma SeqParts(na: map<int, Pol>, b: Pol, nb: map<int, Pol>)
    requires forall id :: id in na ==> id !in nb
    ensures var m := map id | id in na :: Seq(na[id], b);
            ContinuesWith(m + nb, na, b) && Extends(m + nb, nb)
  {
  }

  lemma MapParts(m: map<int, Pol>, n: map<int, Pol>)
    requires forall id :: id in m ==> id !in n
    ensures Extends(m + n, m) && Extends(m + n, n)
  {
  }

  // Every policy splits into one step

  lemma {:induction false} PredActs(a: S.Pred)
    ensures ActsAll(OfPred(a), IsSkip)
  {
    hide Apply;
    MergeSkip(SKIP);
    match a
    case And(p, q) =>
      PredActs(p);
      PredActs(q);
      ActsApply(ProdOp, OfPred(p), OfPred(q), IsSkip, IsSkip, IsSkip);
    case Or(p, q) =>
      PredActs(p);
      PredActs(q);
      ActsApply(SumOp, OfPred(p), OfPred(q), IsSkip, IsSkip, IsSkip);
    case Neg(q) =>
      PredActs(q);
      ActsMapR(Negate, OfPred(q), IsSkip, IsSkip);
    case _ =>
  }

  lemma OneStepFilter(w: Wire, a: S.Pred)
    ensures OneStep(w, map[], OfPred(a), DROP, Filter(a))
  {
    hide OfPred, Lookup;
    CanonicalPred(a);
    PredActs(a);
    ActsWeaken(OfPred(a), IsSkip, NoCont);
    forall p, h, q ensures Tr(w, Filter(a), p, h, q) <==> Stepped(w, map[], OfPred(a), DROP, p, h, q) {
      ActsLookup(OfPred(a), IsSkip, p);
      ActsLookup(DROP, ContIn({}), p);
      assert Run(SKIP, p) == p;
      if SKIP in Lookup(OfPred(a), p) {
        assert Lookup(OfPred(a), p) == ONE;
      }
      assert SKIP in ONE;
    }
  }

  lemma OneStepMod(w: Wire, hv: S.HeaderVal)
    ensures OneStep(w, map[], OfMod(hv), DROP, Mod(hv))
  {
    var act := Act(map[S.Assigned(hv).0 := S.Assigned(hv).1], None);
    forall p, h, q ensures Tr(w, Mod(hv), p, h, q) <==> Stepped(w, map[], OfMod(hv), DROP, p, h, q) {
      assert Run(act, p) == p[S.Assigned(hv).0 := S.Assigned(hv).1];
      assert Lookup(OfMod(hv), p) == {act};
    }
  }

  lemma OneStepDup(w: Wire, id: int)
    ensures OneStep(w, map[id := YES], DROP, MkCont(id), Dup)
  {
    var act := Act(map[], Some(id));
    var kn := map[id := YES];
    forall p, h, q ensures Tr(w, Dup, p, h, q) <==> Stepped(w, kn, DROP, MkCont(id), p, h, q) {
      assert Run(act, p) == p;
      assert Lookup(MkCont(id), p) == {act};
      forall g ensures Tr(w, YES, w(p), g, q) <==> g == [] && q == w(p) { HoldsTrue(w(p)); }
      if h != [] {
        assert h == [h[0]] + h[1..];
        if h[0] == p && h[1..] == [] && q == w(p) {
          assert DStep(MkCont(id), p, h[0], id);
          assert Tr(w, kn[id], w(h[0]), h[1..], q);
        }
      }
    }
  }

  lemma HoldsTrue(p: Packet)
    ensures Holds(p, S.True) && !Holds(p, S.False)
  {
    assert SKIP in ONE;
  }

  lemma SplitUnion(n: int, a: Pol, b: Pol)
    requires Shaped(a) && Shaped(b)
    ensures var p, q := SplitPol(n, a), SplitPol(n + Dups(a), b);
            SplitPol(n, Union(a, b)) == Split(Plus(p.e, q.e), Plus(p.d, q.d), p.ks + q.ks, q.next)
  {
    hide Apply, Canonical, SeqFdd, StarFdd, OfPred, OfMod, Append, MkInject, MkCont, Numbered;
    SplitIds(n, a);
  }

  lemma SplitSeq(n: int, a: Pol, b: Pol)
    requires Shaped(a) && Shaped(b)
    ensures var p, q := SplitPol(n, a), SplitPol(n + Dups(a), b);
            SplitPol(n, Seq(a, b)) ==
              Split(SeqFdd(p.e, q.e), Plus(p.d, SeqFdd(p.e, q.d)), Append(p.ks, MkInject(q.e, q.d)) + q.ks, q.next)
  {
    hide Apply, SeqFdd, Canonical, Append;
    SplitIds(n, a);
  }

  lemma SplitStar(n: int, a: Pol)
    requires Shaped(a)
    ensures var p, s := SplitPol(n, a), SplitPol(n, Star(a));
            Canonical(p.e) && s.e == StarFdd(p.e) && s.d == SeqFdd(StarFdd(p.e), p.d) &&
            s.ks == Append(p.ks, MkInject(s.e, s.d))
  {
    hide Apply, SeqFdd, StarFdd, Canonical, Append;
  }

  lemma SplitAtom(w: Wire, next: int, pol: Pol)
    requires pol.Filter? || pol.Mod? || pol.Dup?
    ensures var s := SplitPol(next, pol); OneStep(w, Nominal(next, pol), s.e, s.d, pol)
  {
    hide Apply, OfPred, Canonical, OneStep;
    match pol
    case Filter(a) => OneStepFilter(w, a);
    case Mod(hv) => OneStepMod(w, hv);
    case Dup => OneStepDup(w, next);
  }

  lemma {:induction false} SplitOneStep(w: Wire, next: int, pol: Pol)
    requires Plain(pol) && Shaped(pol)
    ensures var s := SplitPol(next, pol); OneStep(w, Nominal(next, pol), s.e, s.d, pol)
    decreases pol
  {
    hide SplitPol, Nominal, Apply, SeqFdd, StarFdd, OfPred, Canonical, OneStep, Extends, ContinuesWith, Append;
    match pol
    case Union(a, b) =>
      SplitUnion(next, a, b);
      SplitOneStep(w, next, a);
      SplitOneStep(w, next + Dups(a), b);
      NominalUnion(next, a, b);
      var p, q := SplitPol(next, a), SplitPol(next + Dups(a), b);
      OneStepUnion(w, Nominal(next, a), p.e, p.d, a, Nominal(next + Dups(a), b), q.e, q.d, b, Nominal(next, pol));
    case Seq(a, b) =>
      SplitSeq(next, a, b);
      SplitOneStep(w, next, a);
      SplitOneStep(w, next + Dups(a), b);
      NominalSeq(next, a, b);
      var p, q := SplitPol(next, a), SplitPol(next + Dups(a), b);
      OneStepSeq(w, Nominal(next, a), p.e, p.d, a, Nominal(next + Dups(a), b), q.e, q.d, b, Nominal(next, pol));
    case Star(a) =>
      SplitStar(next, a);
      SplitOneStep(w, next, a);
      NominalStar(next, a);
      var p := SplitPol(next, a);
      OneStepStar(w, Nominal(next, a), p.e, p.d, a, Nominal(next, pol));
    case _ => SplitAtom(w, next, pol);
  }

  lemma NominalStar(next: int, a: Pol)
    ensures ContinuesWith(Nominal(next, Star(a)), Nominal(next, a), Star(a))
  {
  }

  // And so do the policies of the new states

  /** The split of a policy without `Dup`, whatever the next id is. */
  lemma {:induction false} DupFreeSplit(m: int, n: int, k: Pol)
    requires Shaped(k) && Dups(k) == 0
    ensures SplitPol(m, k).e == SplitPol(n, k).e && SplitPol(m, k).d == SplitPol(n, k).d && SplitPol(m, k).ks == []
    decreases k
  {
    hide Apply, SeqFdd, StarFdd, OfPred, Canonical;
    SplitIds(m, k);
    match k
    case Union(a, b) =>
      SplitIds(m, a);
      SplitIds(n, a);
      DupFreeSplit(m, n, a);
      DupFreeSplit(m, n, b);
    case Seq(a, b) =>
      SplitIds(m, a);
      SplitIds(n, a);
      DupFreeSplit(m, n, a);
      DupFreeSplit(m, n, b);
    case Star(a) =>
      DupFreeSplit(m, n, a);
    case _ =>
  }

  /** The state with policy `k` is one step of `pol`. */
  ghost predicate StateStep(w: Wire, kn: map<int, Pol>, k: Pol, pol: Pol) {
    && Shaped(k) && Dups(k) == 0
    && OneStep(w, kn, SplitPol(0, k).e, SplitPol(0, k).d, pol)
  }

  /** A step that ends at once does nothing before `b`. */
  lemma OneStepSkip(w: Wire, k1: map<int, Pol>, a: Pol, kn: map<int, Pol>, e2: Fdd, d2: Fdd, b: Pol)
    requires OneStep(w, k1, ID, DROP, a) && OneStep(w, kn, e2, d2, b)
    ensures OneStep(w, kn, e2, d2, Seq(a, b))
  {
    hide Canonical, NoConts, AllConts, Tr, Continues;
    forall p, h, q ensures Tr(w, Seq(a, b), p, h, q) <==> Tr(w, b, p, h, q) {
      if Tr(w, Seq(a, b), p, h, q) {
        var g, m, g' := TrSeqSplit(w, a, b, p, h, q);
        OneStepUse(w, k1, ID, DROP, a, p, g, m);
        DropStops(w, k1, p, g, m);
        assert h == g';
      }
      if Tr(w, b, p, h, q) {
        OneStepUse(w, k1, ID, DROP, a, p, [], p);
        assert SKIP in Lookup(ID, p) && Run(SKIP, p) == p;
        TrSeq(w, a, b, p, [], p, h, q);
        assert [] + h == h;
      }
    }
    forall p, h, q ensures Tr(w, Seq(a, b), p, h, q) <==> Stepped(w, kn, e2, d2, p, h, q) {
      assert Tr(w, b, p, h, q) <==> Stepped(w, kn, e2, d2, p, h, q);
    }
  }

  lemma DropStops(w: Wire, k: map<int, Pol>, p: Packet, h: seq<Packet>, q: Packet)
    ensures h != [] ==> !Continues(w, k, DROP, p, h, q)
    ensures !EStep(DROP, p, q)
    ensures EStep(ID, p, q) ==> q == p
  {
    assert Run(SKIP, p) == p;
  }

  lemma OneStepNever(w: Wire, k: map<int, Pol>, kn: map<int, Pol>, a: Pol, b: Pol)
    requires OneStep(w, k, DROP, DROP, a) || OneStep(w, k, DROP, DROP, b)
    ensures OneStep(w, kn, DROP, DROP, Seq(a, b))
  {
    hide OneStep, Tr, Continues, EStep;
    forall p, h, q ensures !Tr(w, Seq(a, b), p, h, q) && !Stepped(w, kn, DROP, DROP, p, h, q) {
      DropStops(w, kn, p, h, q);
      if Tr(w, Seq(a, b), p, h, q) {
        var g, m, g' := TrSeqSplit(w, a, b, p, h, q);
        if OneStep(w, k, DROP, DROP, a) {
          OneStepUse(w, k, DROP, DROP, a, p, g, m);
          DropStops(w, k, p, g, m);
        } else {
          OneStepUse(w, k, DROP, DROP, b, m, g', q);
          DropStops(w, k, m, g', q);
        }
      }
    }
    OneStepDrop(w, kn, Seq(a, b));
  }

  lemma OneStepDrop(w: Wire, kn: map<int, Pol>, pol: Pol)
    requires forall p, h, q :: !Tr(w, pol, p, h, q) && !Stepped(w, kn, DROP, DROP, p, h, q)
    ensures OneStep(w, kn, DROP, DROP, pol)
  {
    hide Tr, Stepped;
  }

  lemma SplitConstants()
    ensures SplitPol(0, YES).e == ID && SplitPol(0, YES).d == DROP && SplitPol(0, NO).e == DROP &&
            SplitPol(0, NO).d == DROP
  {
  }

  /** `mk_seq` with injected diagrams goes on with what they stand for. */
  lemma StateStepSeq(w: Wire, k1: map<int, Pol>, k: Pol, a: Pol, k2: map<int, Pol>, e2: Fdd, d2: Fdd, b: Pol,
                     kn: map<int, Pol>)
    requires StateStep(w, k1, k, a) && OneStep(w, k2, e2, d2, b) && ContinuesWith(kn, k1, b) && Extends(kn, k2)
    ensures StateStep(w, kn, MkSeq(k, MkInject(e2, d2)), Seq(a, b))
  {
    hide Tr, ContinuesWith, Extends, Apply, SeqFdd, OfPred;
    var (e1, d1) := (SplitPol(0, k).e, SplitPol(0, k).d);
    var inj := MkInject(e2, d2);
    SplitConstants();
    OneStepShape(w, k2, e2, d2, b);
    SplitIds(0, k);
    hide OneStep, Canonical;
    if k == YES {
      OneStepExtends(w, k2, kn, e2, d2, b);
      OneStepSkip(w, k1, a, kn, e2, d2, b);
    } else if k == NO {
      OneStepNever(w, k1, kn, a, b);
    } else if inj == NO {
      OneStepNever(w, k2, kn, a, b);
    } else {
      SplitSeqInject(k, e2, d2);
      OneStepSeq(w, k1, e1, d1, a, k2, e2, d2, b, kn);
    }
  }

  lemma SplitInject(n: int, e: Fdd, d: Fdd)
    requires Canonical(e) && Canonical(d)
    ensures Shaped(Inject(e, d)) && SplitPol(n, Inject(e, d)).e == e && SplitPol(n, Inject(e, d)).d == d
  {
  }

  lemma SplitSeqInject(k: Pol, e2: Fdd, d2: Fdd)
    requires Shaped(k) && Dups(k) == 0 && Canonical(e2) && Canonical(d2)
    ensures var s := SplitPol(0, k);
            && Shaped(Seq(k, Inject(e2, d2))) && Dups(Seq(k, Inject(e2, d2))) == 0
            && SplitPol(0, Seq(k, Inject(e2, d2))).e == SeqFdd(s.e, e2)
            && SplitPol(0, Seq(k, Inject(e2, d2))).d == Plus(s.d, SeqFdd(s.e, d2))
  {
    hide SplitPol, Apply, SeqFdd, Canonical;
    SplitInject(0, e2, d2);
    SplitSeq(0, k, Inject(e2, d2));
  }

  lemma OneStepShape(w: Wire, kn: map<int, Pol>, e: Fdd, d: Fdd, pol: Pol)
    requires OneStep(w, kn, e, d, pol)
    ensures Canonical(e) && Canonical(d) && NoConts(e) && AllConts(d, kn.Keys)
  {
  }

  ghost predicate AllStateSteps(w: Wire, kn: map<int, Pol>, ks: seq<(int, Pol)>, nominal: map<int, Pol>) {
    forall i :: 0 <= i < |ks| ==> ks[i].0 in nominal && StateStep(w, kn, ks[i].1, nominal[ks[i].0])
  }

  lemma StepsWiden(w: Wire, ks: seq<(int, Pol)>, k: map<int, Pol>, kn: map<int, Pol>)
    requires AllStateSteps(w, k, ks, k) && Extends(kn, k)
    ensures AllStateSteps(w, kn, ks, kn)
  {
    hide OneStep, SplitPol, Shaped, Dups;
    forall i | 0 <= i < |ks| ensures ks[i].0 in kn && StateStep(w, kn, ks[i].1, kn[ks[i].0]) {
      assert ks[i].0 in k && StateStep(w, k, ks[i].1, k[ks[i].0]);
      assert forall id :: id in k ==> id in kn && kn[id] == k[id];
      assert ks[i].0 in kn;
      OneStepExtends(w, k, kn, SplitPol(0, ks[i].1).e, SplitPol(0, ks[i].1).d, k[ks[i].0]);
    }
  }

  lemma StepsAppend(w: Wire, ks: seq<(int, Pol)>, k1: map<int, Pol>, k2: map<int, Pol>, e2: Fdd, d2: Fdd, b: Pol,
                    kn: map<int, Pol>)
    requires AllStateSteps(w, k1, ks, k1) && OneStep(w, k2, e2, d2, b) && ContinuesWith(kn, k1, b) && Extends(kn, k2)
    ensures AllStateSteps(w, kn, Append(ks, MkInject(e2, d2)), kn)
  {
    hide OneStep, StateStep, Extends;
    var ks' := Append(ks, MkInject(e2, d2));
    forall i | 0 <= i < |ks'| ensures ks'[i].0 in kn && StateStep(w, kn, ks'[i].1, kn[ks'[i].0]) {
      assert ks[i].0 in k1 && StateStep(w, k1, ks[i].1, k1[ks[i].0]);
      assert forall id :: id in k1 ==> id in kn && kn[id] == Seq(k1[id], b);
      StateStepSeq(w, k1, ks[i].1, k1[ks[i].0], k2, e2, d2, b, kn);
    }
  }

  lemma StepsConcat(w: Wire, ks: seq<(int, Pol)>, ks': seq<(int, Pol)>, kn: map<int, Pol>)
    requires AllStateSteps(w, kn, ks, kn) && AllStateSteps(w, kn, ks', kn)
    ensures AllStateSteps(w, kn, ks + ks', kn)
  {
    hide StateStep;
  }

  lemma {:induction false} SplitStateSteps(w: Wire, next: int, pol: Pol)
    requires Plain(pol) && Shaped(pol)
    ensures AllStateSteps(w, Nominal(next, pol), SplitPol(next, pol).ks, Nominal(next, pol))
    decreases pol
  {
    hide Apply, SeqFdd, StarFdd, OfPred, Canonical, OneStep, Extends, ContinuesWith, Append, Nominal, AllStateSteps,
      StateStep;
    var kn := Nominal(next, pol);
    match pol
    case Union(a, b) =>
      hide SplitPol;
      SplitUnion(next, a, b);
      SplitStateSteps(w, next, a);
      SplitStateSteps(w, next + Dups(a), b);
      NominalUnion(next, a, b);
      var p, q := SplitPol(next, a), SplitPol(next + Dups(a), b);
      StepsWiden(w, p.ks, Nominal(next, a), kn);
      StepsWiden(w, q.ks, Nominal(next + Dups(a), b), kn);
      StepsConcat(w, p.ks, q.ks, kn);
    case Seq(a, b) =>
      hide SplitPol;
      SplitSeq(next, a, b);
      SplitStateSteps(w, next, a);
      SplitStateSteps(w, next + Dups(a), b);
      SplitOneStep(w, next + Dups(a), b);
      NominalSeq(next, a, b);
      var p, q := SplitPol(next, a), SplitPol(next + Dups(a), b);
      StepsAppend(w, p.ks, Nominal(next, a), Nominal(next + Dups(a), b), q.e, q.d, b, kn);
      StepsWiden(w, q.ks, Nominal(next + Dups(a), b), kn);
      StepsConcat(w, Append(p.ks, MkInject(q.e, q.d)), q.ks, kn);
    case Star(a) =>
      hide SplitPol;
      SplitStar(next, a);
      SplitStateSteps(w, next, a);
      SplitOneStep(w, next, pol);
      NominalStar(next, a);
      ExtendsSelf(kn);
      var p, s := SplitPol(next, a), SplitPol(next, pol);
      StepsAppend(w, p.ks, Nominal(next, a), kn, s.e, s.d, pol, kn);
    case Dup =>
      StepsOfDup(w, next);
    case _ =>
      NoSteps(w, kn);
  }

  lemma NoSteps(w: Wire, kn: map<int, Pol>)
    ensures AllStateSteps(w, kn, [], kn)
  {
  }

  lemma StepsOfDup(w: Wire, next: int)
    ensures AllStateSteps(w, Nominal(next, Dup), SplitPol(next, Dup).ks, Nominal(next, Dup))
  {
    hide StateStep;
    StateStepDup(w, next);
  }

  lemma ExtendsSelf(kn: map<int, Pol>)
    ensures Extends(kn, kn)
  {
  }

  lemma StateStepDup(w: Wire, next: int)
    ensures next in Nominal(next, Dup) && StateStep(w, Nominal(next, Dup), YES, Nominal(next, Dup)[next])
  {
    hide OneStep;
    SplitConstants();
    OneStepFilter(w, S.True);
    ExtendsEmpty(map[next := YES]);
    OneStepExtends(w, map[], map[next := YES], ID, DROP, YES);
  }

  lemma ExtendsEmpty(kn: map<int, Pol>)
    ensures Extends(kn, map[])
  {
  }
}
