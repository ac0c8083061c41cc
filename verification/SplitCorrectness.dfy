/** Splitting is exact: the states it makes accept the traces of the policy. */
module SplitCorrectness {

  import opened Actions
  import opened Fdds
  import opened Sequencing
  import opened StarLoop
  import opened LeafActs
  import opened Traces
  import opened Splitting

  predicate Extends(kn: map<int, Pol>, k: map<int, Pol>) {
    forall id :: id in k ==> id in kn && kn[id] == k[id]
  }

  lemma ExtendsKeys(kn: map<int, Pol>, k: map<int, Pol>)
    requires Extends(kn, k)
    ensures k.Keys <= kn.Keys
  {
    forall id | id in k.Keys ensures id in kn.Keys { assert id in k; }
  }

  lemma OneStepUse(w: Wire, k: map<int, Pol>, e: Fdd, d: Fdd, pol: Pol, p: Packet, h: seq<Packet>, q: Packet)
    requires OneStep(w, k, e, d, pol)
    ensures Tr(w, pol, p, h, q) <==> if h == [] then EStep(e, p, q) else Continues(w, k, d, p, h, q)
  {
    hide Lookup, EStep, DStep, NoConts, AllConts, Canonical, Tr;
    assert Tr(w, pol, p, h, q) <==> Stepped(w, k, e, d, p, h, q);
  }

  lemma OneStepExtends(w: Wire, k: map<int, Pol>, kn: map<int, Pol>, e: Fdd, d: Fdd, pol: Pol)
    requires OneStep(w, k, e, d, pol) && Extends(kn, k)
    ensures OneStep(w, kn, e, d, pol)
  {
    hide Lookup, EStep, Canonical, Tr;
    ExtendsKeys(kn, k);
    ContsWider(d, k.Keys, kn.Keys);
    forall p, h, q ensures Tr(w, pol, p, h, q) <==> Stepped(w, kn, e, d, p, h, q) {
      ContinuesExtends(w, k, kn, d, p, h, q);
      assert Tr(w, pol, p, h, q) <==> Stepped(w, k, e, d, p, h, q);
    }
  }

  lemma ContinuesExtends(w: Wire, k: map<int, Pol>, kn: map<int, Pol>, d: Fdd, p: Packet, h: seq<Packet>, q: Packet)
    requires AllConts(d, k.Keys) && Extends(kn, k)
    ensures h != [] ==> (Continues(w, k, d, p, h, q) <==> Continues(w, kn, d, p, h, q))
  {
    hide Lookup, Tr;
    if h != [] && Continues(w, kn, d, p, h, q) {
      ActsLookup(d, ContIn(k.Keys), p);
      var id :| id in kn && DStep(d, p, h[0], id) && Tr(w, kn[id], w(h[0]), h[1..], q);
      assert id in k;
    }
  }

  lemma OneStepUnion(w: Wire, k1: map<int, Pol>, e1: Fdd, d1: Fdd, a: Pol, k2: map<int, Pol>, e2: Fdd, d2: Fdd, b: Pol,
                     kn: map<int, Pol>)
    requires OneStep(w, k1, e1, d1, a) && OneStep(w, k2, e2, d2, b) && Extends(kn, k1) && Extends(kn, k2)
    ensures OneStep(w, kn, Plus(e1, e2), Plus(d1, d2), Union(a, b))
  {
    hide Lookup, EStep, DStep, NoConts, AllConts, Canonical, Apply, Extends, Stepped;
    OneStepExtends(w, k1, kn, e1, d1, a);
    OneStepExtends(w, k2, kn, e2, d2, b);
    CanonicalApply(SumOp, e1, e2);
    CanonicalApply(SumOp, d1, d2);
    ContsPlus(e1, e2, {});
    ContsPlus(d1, d2, kn.Keys);
    forall p, h, q ensures Tr(w, Union(a, b), p, h, q) <==> Stepped(w, kn, Plus(e1, e2), Plus(d1, d2), p, h, q) {
      SteppedUnion(w, kn, e1, d1, e2, d2, p, h, q);
      assert Tr(w, Union(a, b), p, h, q) <==> Tr(w, a, p, h, q) || Tr(w, b, p, h, q);
    }
  }

  lemma SteppedUnion(w: Wire, kn: map<int, Pol>, e1: Fdd, d1: Fdd, e2: Fdd, d2: Fdd, p: Packet, h: seq<Packet>,
                     q: Packet)
    requires Canonical(e1) && Canonical(d1) && Canonical(e2) && Canonical(d2)
    ensures Stepped(w, kn, Plus(e1, e2), Plus(d1, d2), p, h, q) <==>
            Stepped(w, kn, e1, d1, p, h, q) || Stepped(w, kn, e2, d2, p, h, q)
  {
    hide Lookup, EStep, DStep, Canonical, Apply, Tr;
    EStepPlus(e1, e2, p, q);
    if h != [] {
      forall id ensures DStep(Plus(d1, d2), p, h[0], id) <==> DStep(d1, p, h[0], id) || DStep(d2, p, h[0], id) {
        DStepPlus(d1, d2, p, h[0], id);
      }
    }
  }

  /** Steps of `e1`, then a state of `d2`, or a state of `d1`. */
  lemma ContinuesSeq(w: Wire, kn: map<int, Pol>, d1: Fdd, e1: Fdd, d2: Fdd, p: Packet, h: seq<Packet>, q: Packet)
    requires h != [] && Canonical(d1) && Canonical(e1) && Canonical(d2) && NoConts(e1)
    ensures Continues(w, kn, Plus(d1, SeqFdd(e1, d2)), p, h, q) <==>
              Continues(w, kn, d1, p, h, q) || Continues(w, kn, SeqFdd(e1, d2), p, h, q)
    ensures Continues(w, kn, SeqFdd(e1, d2), p, h, q) <==> exists m :: EStep(e1, p, m) && Continues(w, kn, d2, m, h, q)
  {
    hide Lookup, EStep, DStep, Canonical, Apply, Tr, NoConts, SeqFdd;
    CanonicalSeq(e1, d2);
    forall id
      ensures DStep(Plus(d1, SeqFdd(e1, d2)), p, h[0], id) <==>
              DStep(d1, p, h[0], id) || DStep(SeqFdd(e1, d2), p, h[0], id)
    {
      DStepPlus(d1, SeqFdd(e1, d2), p, h[0], id);
    }
    if Continues(w, kn, SeqFdd(e1, d2), p, h, q) {
      var id :| id in kn && DStep(SeqFdd(e1, d2), p, h[0], id) && Tr(w, kn[id], w(h[0]), h[1..], q);
      DStepSeq(e1, d2, p, h[0], id);
    }
    if m :| EStep(e1, p, m) && Continues(w, kn, d2, m, h, q) {
      var id :| id in kn && DStep(d2, m, h[0], id) && Tr(w, kn[id], w(h[0]), h[1..], q);
      DStepSeq(e1, d2, p, h[0], id);
    }
  }

  lemma OneStepSeq(w: Wire, k1: map<int, Pol>, e1: Fdd, d1: Fdd, a: Pol, k2: map<int, Pol>, e2: Fdd, d2: Fdd, b: Pol,
                   kn: map<int, Pol>)
    requires OneStep(w, k1, e1, d1, a) && OneStep(w, k2, e2, d2, b) && ContinuesWith(kn, k1, b) && Extends(kn, k2)
    ensures OneStep(w, kn, SeqFdd(e1, e2), Plus(d1, SeqFdd(e1, d2)), Seq(a, b))
  {
    hide Lookup, EStep, DStep, NoConts, AllConts, Canonical, Apply, SeqFdd, Extends, Tr, Continues, ContinuesWith;
    OneStepExtends(w, k2, kn, e2, d2, b);
    CanonicalSeq(e1, e2);
    CanonicalSeq(e1, d2);
    CanonicalApply(SumOp, d1, SeqFdd(e1, d2));
    ContsSeq(e1, e2, {});
    ContinuesKeys(kn, k1, b);
    ContsWider(d1, k1.Keys, kn.Keys);
    ContsSeq(e1, d2, kn.Keys);
    ContsPlus(d1, SeqFdd(e1, d2), kn.Keys);
    forall p, h, q
      ensures Tr(w, Seq(a, b), p, h, q) <==> Stepped(w, kn, SeqFdd(e1, e2), Plus(d1, SeqFdd(e1, d2)), p, h, q)
    {
      TrSeqCases(w, a, b, k1, e1, d1, kn, p, h, q);
      SeqStepped(w, e1, d1, e2, d2, b, kn, p, h, q);
    }
  }

  lemma SeqStepped(w: Wire, e1: Fdd, d1: Fdd, e2: Fdd, d2: Fdd, b: Pol, kn: map<int, Pol>, p: Packet, h: seq<Packet>,
                   q: Packet)
    requires Canonical(e1) && Canonical(d1) && NoConts(e1) && OneStep(w, kn, e2, d2, b)
    ensures Stepped(w, kn, SeqFdd(e1, e2), Plus(d1, SeqFdd(e1, d2)), p, h, q) <==>
              (exists m :: EStep(e1, p, m) && Tr(w, b, m, h, q)) || (h != [] && Continues(w, kn, d1, p, h, q))
  {
    hide Lookup, EStep, DStep, NoConts, AllConts, Canonical, Apply, SeqFdd, Tr, Continues;
    if h == [] {
      EStepSeq(e1, e2, p, q);
    } else {
      ContinuesSeq(w, kn, d1, e1, d2, p, h, q);
    }
    forall m ensures Tr(w, b, m, h, q) <==> Stepped(w, kn, e2, d2, m, h, q) {
    }
  }

  lemma ContinuesKeys(kn: map<int, Pol>, k1: map<int, Pol>, b: Pol)
    requires ContinuesWith(kn, k1, b)
    ensures k1.Keys <= kn.Keys
  {
    forall id | id in k1.Keys ensures id in kn.Keys { assert id in k1; }
  }

  // Iteration

  /** A power whose trace is empty is a power of final steps. */
  lemma {:induction false} PowerSilent(w: Wire, a: Pol, k1: map<int, Pol>, e1: Fdd, d1: Fdd, n: nat, p: Packet,
                                       q: Packet)
    requires OneStep(w, k1, e1, d1, a)
    ensures TrPower(w, a, n, p, [], q) <==> EFront(e1, n, p, q)
    decreases n
  {
    hide OneStep, EStep, Tr;
    if n > 0 {
      if TrPower(w, a, n, p, [], q) {
        hide TrPower;
        var g, m, g' := TrPowerSplit(w, a, n - 1, p, [], q);
        assert g == [] && g' == [];
        OneStepUse(w, k1, e1, d1, a, p, [], m);
        PowerSilent(w, a, k1, e1, d1, n - 1, m, q);
      }
      if m :| EStep(e1, p, m) && EFront(e1, n - 1, m, q) {
        hide TrPower;
        PowerSilent(w, a, k1, e1, d1, n - 1, m, q);
        OneStepUse(w, k1, e1, d1, a, p, [], m);
        TrPowerStep(w, a, n - 1, p, [], m, [], q);
        var none: seq<Packet> := [];
        assert none + none == none;
      }
    }
  }

  /** `EPower`, counted from the front. */
  ghost predicate EFront(e: Fdd, n: nat, p: Packet, q: Packet) {
    if n == 0 then q == p else exists m :: EStep(e, p, m) && EFront(e, n - 1, m, q)
  }

  lemma {:induction false} EFrontBack(e: Fdd, n: nat, p: Packet, m: Packet, q: Packet)
    requires EFront(e, n, p, m) && EStep(e, m, q)
    ensures EFront(e, n + 1, p, q)
  {
    hide EStep;
    if n == 0 {
      assert EFront(e, 0, q, q);
    } else {
      var m' :| EStep(e, p, m') && EFront(e, n - 1, m', m);
      EFrontBack(e, n - 1, m', m, q);
    }
  }

  lemma {:induction false} EFrontIsEPower(e: Fdd, n: nat, p: Packet, q: Packet)
    ensures EFront(e, n, p, q) <==> EPower(e, n, p, q)
  {
    hide EStep;
    if n > 0 {
      if EFront(e, n, p, q) {
        var m :| EStep(e, p, m) && EFront(e, n - 1, m, q);
        EFrontIsEPower(e, n - 1, m, q);
        EPowerFront(e, n - 1, p, m, q);
      }
      if EPower(e, n, p, q) {
        var m :| EPower(e, n - 1, p, m) && EStep(e, m, q);
        EFrontIsEPower(e, n - 1, p, m);
        EFrontBack(e, n - 1, p, m, q);
      }
    }
  }

  ghost predicate EFronts(e: Fdd, p: Packet, q: Packet) {
    exists n: nat :: EFront(e, n, p, q)
  }

  lemma EStepStarFronts(e: Fdd, p: Packet, q: Packet)
    requires Canonical(e)
    ensures EStep(StarFdd(e), p, q) <==> EFronts(e, p, q)
  {
    hide EStep, EPower, EFront, StarFdd;
    EStepStar(e, p, q);
    if n: nat :| EFront(e, n, p, q) { EFrontIsEPower(e, n, p, q); }
    if n: nat :| EPower(e, n, p, q) { EFrontIsEPower(e, n, p, q); }
  }

  /** A power with a trace makes some final steps, then a step to a state. */
  lemma {:induction false} PowerContinues(w: Wire, a: Pol, k1: map<int, Pol>, e1: Fdd, d1: Fdd, kn: map<int, Pol>,
                                          n: nat, p: Packet, h: seq<Packet>, q: Packet) returns (m: Packet)
    requires OneStep(w, k1, e1, d1, a) && ContinuesWith(kn, k1, Star(a))
    requires h != [] && TrPower(w, a, n, p, h, q)
    ensures EFronts(e1, p, m) && Continues(w, kn, d1, m, h, q)
    decreases n
  {
    hide OneStep, EStep, DStep, Tr, EFronts;
    assert n > 0;
    hide TrPower;
    var g, m', g' := TrPowerSplit(w, a, n - 1, p, h, q);
    OneStepUse(w, k1, e1, d1, a, p, g, m');
    if g == [] {
      assert h == g';
      m := PowerContinues(w, a, k1, e1, d1, kn, n - 1, m', h, q);
      EFrontsStep(e1, p, m', m);
    } else {
      m := p;
      EFrontsSelf(e1, p);
      var id :| id in k1 && DStep(d1, p, g[0], id) && Tr(w, k1[id], w(g[0]), g[1..], m');
      TrStarOfPower(w, a, n - 1, m', g', q);
      TrSeq(w, k1[id], Star(a), w(h[0]), g[1..], m', g', q);
      assert g[1..] + g' == h[1..];
    }
  }

  lemma EFrontsSelf(e: Fdd, p: Packet)
    ensures EFronts(e, p, p)
  {
    assert EFront(e, 0, p, p);
  }

  lemma EFrontsStep(e: Fdd, p: Packet, m: Packet, q: Packet)
    requires EStep(e, p, m) && EFronts(e, m, q)
    ensures EFronts(e, p, q)
  {
    hide EStep;
    var j: nat :| EFront(e, j, m, q);
    assert EFront(e, j + 1, p, q);
  }

  lemma TrStarOfPower(w: Wire, a: Pol, n: nat, p: Packet, h: seq<Packet>, q: Packet)
    requires TrPower(w, a, n, p, h, q)
    ensures Tr(w, Star(a), p, h, q)
  {
  }

  lemma TrStarPower(w: Wire, a: Pol, p: Packet, h: seq<Packet>, q: Packet) returns (n: nat)
    requires Tr(w, Star(a), p, h, q)
    ensures TrPower(w, a, n, p, h, q)
  {
    n :| TrPower(w, a, n, p, h, q);
  }

  lemma StarContinuesBack(w: Wire, a: Pol, k1: map<int, Pol>, e1: Fdd, d1: Fdd, kn: map<int, Pol>, p: Packet, m: Packet,
                          h: seq<Packet>, q: Packet)
    requires OneStep(w, k1, e1, d1, a) && ContinuesWith(kn, k1, Star(a))
    requires h != [] && EFronts(e1, p, m) && Continues(w, kn, d1, m, h, q)
    ensures Tr(w, Star(a), p, h, q)
  {
    hide EFront, OneStep, Continues, ContinuesWith, Tr, TrPower;
    var n: nat :| EFront(e1, n, p, m);
    PowerSilent(w, a, k1, e1, d1, n, p, m);
    ContinuesBack(w, a, Star(a), k1, e1, d1, kn, m, h, q);
    var g, m', g' := TrSeqSplit(w, a, Star(a), m, h, q);
    var j := TrStarPower(w, a, m', g', q);
    TrPowerStep(w, a, j, m, g, m', g', q);
    TrPowerAdd(w, a, n, j + 1, p, [], m, h, q);
    assert [] + h == h;
    TrStarOfPower(w, a, n + (j + 1), p, h, q);
  }

  lemma OneStepStar(w: Wire, k1: map<int, Pol>, e1: Fdd, d1: Fdd, a: Pol, kn: map<int, Pol>)
    requires OneStep(w, k1, e1, d1, a) && ContinuesWith(kn, k1, Star(a))
    ensures OneStep(w, kn, StarFdd(e1), SeqFdd(StarFdd(e1), d1), Star(a))
  {
    hide Lookup, EStep, DStep, NoConts, AllConts, Apply, SeqFdd, StarFdd, Tr, TrPower, Continues, ContinuesWith, EFront;
    StarMeaning(e1, map[], SKIP);
    NoContsStar(e1);
    CanonicalSeq(StarFdd(e1), d1);
    ContinuesKeys(kn, k1, Star(a));
    ContsWider(d1, k1.Keys, kn.Keys);
    ContsSeq(StarFdd(e1), d1, kn.Keys);
    forall p, h, q ensures Tr(w, Star(a), p, h, q) <==> Stepped(w, kn, StarFdd(e1), SeqFdd(StarFdd(e1), d1), p, h, q) {
      StarCases(w, k1, e1, d1, a, kn, p, h, q);
    }
  }

  lemma StarCases(w: Wire, k1: map<int, Pol>, e1: Fdd, d1: Fdd, a: Pol, kn: map<int, Pol>, p: Packet, h: seq<Packet>,
                  q: Packet)
    requires OneStep(w, k1, e1, d1, a) && ContinuesWith(kn, k1, Star(a))
    requires Canonical(StarFdd(e1)) && NoConts(StarFdd(e1))
    ensures Tr(w, Star(a), p, h, q) <==> Stepped(w, kn, StarFdd(e1), SeqFdd(StarFdd(e1), d1), p, h, q)
  {
    hide Lookup, EStep, DStep, NoConts, AllConts, Apply, SeqFdd, StarFdd, Tr, TrPower, Continues, ContinuesWith, EFront;
    var star := StarFdd(e1);
    if h == [] {
      EStepStarFronts(e1, p, q);
      if Tr(w, Star(a), p, h, q) {
        var n := TrStarPower(w, a, p, h, q);
        PowerSilent(w, a, k1, e1, d1, n, p, q);
      }
      if n: nat :| EFront(e1, n, p, q) {
        PowerSilent(w, a, k1, e1, d1, n, p, q);
        TrStarOfPower(w, a, n, p, h, q);
      }
    } else {
      ContinuesSeq(w, kn, DROP, star, d1, p, h, q);
      if Tr(w, Star(a), p, h, q) {
        var n := TrStarPower(w, a, p, h, q);
        var m := PowerContinues(w, a, k1, e1, d1, kn, n, p, h, q);
        EStepStarFronts(e1, p, m);
      }
      if m :| EStep(star, p, m) && Continues(w, kn, d1, m, h, q) {
        EStepStarFronts(e1, p, m);
        StarContinuesBack(w, a, k1, e1, d1, kn, p, m, h, q);
      }
    }
  }
}
