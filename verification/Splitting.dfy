/** Splitting a policy into what it does before its first `Dup` and the policies
    that go on after one. */
module Splitting {

  import opened Wrappers
  import opened Actions
  import opened Fdds
  import opened Sequencing
  import opened StarLoop
  import opened LeafActs
  import opened LocalCompiler
  import opened Traces

  function MkCont(id: int): Fdd {
    Leaf({Act(map[], Some(id))})
  }

  /** The diagrams of a state, the policies of the new states, and the next free
      state id. */
  datatype Split = Split(e: Fdd, d: Fdd, ks: seq<(int, Pol)>, next: int)

  function Append(ks: seq<(int, Pol)>, b: Pol): seq<(int, Pol)> {
    seq(|ks|, i requires 0 <= i < |ks| => (ks[i].0, MkSeq(ks[i].1, b)))
  }

  ghost function SplitPol(next: int, pol: Pol): (r: Split)
    requires Shaped(pol)
    ensures Canonical(r.e) && Canonical(r.d)
    ensures forall k :: k in r.ks ==> Shaped(k.1)
    decreases pol
  {
    match pol
    case Filter(a) => CanonicalPred(a); Split(OfPred(a), DROP, [], next)
    case Mod(hv) => Split(OfMod(hv), DROP, [], next)
    case Union(a, b) =>
      var p := SplitPol(next, a);
      var q := SplitPol(p.next, b);
      CanonicalApply(SumOp, p.e, q.e);
      CanonicalApply(SumOp, p.d, q.d);
      Split(Plus(p.e, q.e), Plus(p.d, q.d), p.ks + q.ks, q.next)
    case Seq(a, b) =>
      var p := SplitPol(next, a);
      var q := SplitPol(p.next, b);
      CanonicalSeq(p.e, q.e);
      CanonicalSeq(p.e, q.d);
      CanonicalApply(SumOp, p.d, SeqFdd(p.e, q.d));
      AppendShaped(p.ks, q.e, q.d);
      Split(SeqFdd(p.e, q.e), Plus(p.d, SeqFdd(p.e, q.d)), Append(p.ks, MkInject(q.e, q.d)) + q.ks, q.next)
    case Star(a) =>
      var p := SplitPol(next, a);
      StarMeaning(p.e, map[], SKIP);
      var e := StarFdd(p.e);
      CanonicalSeq(e, p.d);
      AppendShaped(p.ks, e, SeqFdd(e, p.d));
      Split(e, SeqFdd(e, p.d), Append(p.ks, MkInject(e, SeqFdd(e, p.d))), p.next)
    case Dup => Split(DROP, MkCont(next), [(next, YES)], next + 1)
    case Inject(e, d) => Split(e, d, [], next)
  }

  /** Injected diagrams are in order. */
  predicate Shaped(pol: Pol) {
    match pol
    case Union(a, b) => Shaped(a) && Shaped(b)
    case Seq(a, b) => Shaped(a) && Shaped(b)
    case Star(a) => Shaped(a)
    case Inject(e, d) => Canonical(e) && Canonical(d)
    case _ => true
  }

  lemma AppendShaped(ks: seq<(int, Pol)>, e: Fdd, d: Fdd)
    requires Canonical(e) && Canonical(d) && forall k :: k in ks ==> Shaped(k.1)
    ensures forall k :: k in Append(ks, MkInject(e, d)) ==> Shaped(k.1)
  {
    var r := Append(ks, MkInject(e, d));
    forall k | k in r ensures Shaped(k.1) {
      var i :| 0 <= i < |r| && r[i] == k;
      assert ks[i] in ks;
    }
  }

  // One step of a diagram

  ghost predicate EStep(e: Fdd, p: Packet, q: Packet) {
    exists a :: a in Lookup(e, p) && Run(a, p) == q
  }

  ghost predicate DStep(d: Fdd, p: Packet, x: Packet, id: int) {
    exists a :: a in Lookup(d, p) && a.cont == Some(id) && Run(a, p) == x
  }

  lemma EStepPlus(x: Fdd, y: Fdd, p: Packet, q: Packet)
    requires Canonical(x) && Canonical(y)
    ensures EStep(Plus(x, y), p, q) <==> EStep(x, p, q) || EStep(y, p, q)
  {
    hide Apply, Lookup, Canonical;
    PlusMeaning(x, y, p);
  }

  lemma DStepPlus(x: Fdd, y: Fdd, p: Packet, q: Packet, id: int)
    requires Canonical(x) && Canonical(y)
    ensures DStep(Plus(x, y), p, q, id) <==> DStep(x, p, q, id) || DStep(y, p, q, id)
  {
    hide Apply, Lookup, Canonical;
    PlusMeaning(x, y, p);
  }

  lemma EStepSeq(x: Fdd, y: Fdd, p: Packet, q: Packet)
    requires Canonical(x) && Canonical(y)
    ensures EStep(SeqFdd(x, y), p, q) <==> exists m :: EStep(x, p, m) && EStep(y, m, q)
  {
    hide SeqFdd, Lookup, Canonical, Run, Merge;
    SeqMeaning(x, y, p);
    if EStep(SeqFdd(x, y), p, q) {
      var c :| c in Lookup(SeqFdd(x, y), p) && Run(c, p) == q;
      var a, b :| a in Lookup(x, p) && b in Lookup(y, Run(a, p)) && c == Merge(a, b);
      MergeRuns(a, b, p);
      assert EStep(x, p, Run(a, p)) && EStep(y, Run(a, p), q);
    }
    if m :| EStep(x, p, m) && EStep(y, m, q) {
      var a :| a in Lookup(x, p) && Run(a, p) == m;
      var b :| b in Lookup(y, m) && Run(b, m) == q;
      MergeRuns(a, b, p);
      assert Merge(a, b) in Lookup(SeqFdd(x, y), p);
    }
  }

  lemma DStepSeq(x: Fdd, y: Fdd, p: Packet, q: Packet, id: int)
    requires Canonical(x) && Canonical(y) && NoConts(x)
    ensures DStep(SeqFdd(x, y), p, q, id) <==> exists m :: EStep(x, p, m) && DStep(y, m, q, id)
  {
    hide SeqFdd, Lookup, Canonical, Run, Merge;
    SeqMeaning(x, y, p);
    if DStep(SeqFdd(x, y), p, q, id) {
      var m := DStepSplit(x, y, p, q, id);
    }
    if m :| EStep(x, p, m) && DStep(y, m, q, id) {
      var a :| a in Lookup(x, p) && Run(a, p) == m;
      var b :| b in Lookup(y, m) && b.cont == Some(id) && Run(b, m) == q;
      MergeRuns(a, b, p);
      assert Merge(a, b) in Lookup(SeqFdd(x, y), p);
    }
  }

  lemma DStepSplit(x: Fdd, y: Fdd, p: Packet, q: Packet, id: int) returns (m: Packet)
    requires Canonical(x) && Canonical(y) && NoConts(x) && DStep(SeqFdd(x, y), p, q, id)
    ensures EStep(x, p, m) && DStep(y, m, q, id)
  {
    hide SeqFdd, Lookup, Canonical, Run, Merge;
    SeqMeaning(x, y, p);
    var c :| c in Lookup(SeqFdd(x, y), p) && c.cont == Some(id) && Run(c, p) == q;
    var a, b :| a in Lookup(x, p) && b in Lookup(y, Run(a, p)) && c == Merge(a, b);
    MergeRuns(a, b, p);
    ActsLookup(x, NoCont, p);
    assert a.cont == None;
    m := Run(a, p);
  }

  // Iteration of final steps

  ghost predicate EPower(e: Fdd, n: nat, p: Packet, q: Packet) {
    if n == 0 then q == p else exists m :: EPower(e, n - 1, p, m) && EStep(e, m, q)
  }

  lemma {:induction false} EPowerIsPower(e: Fdd, n: nat, p: Packet, q: Packet)
    requires Canonical(e)
    ensures EStep(Power(ID, e, n), p, q) <==> EPower(e, n, p, q)
  {
    hide SeqFdd;
    CanonicalPower(ID, e, n);
    if n == 0 {
      assert SKIP in Lookup(ID, p) && Run(SKIP, p) == p;
    } else {
      CanonicalPower(ID, e, n - 1);
      EStepSeq(Power(ID, e, n - 1), e, p, q);
      if m :| EStep(Power(ID, e, n - 1), p, m) && EStep(e, m, q) {
        EPowerIsPower(e, n - 1, p, m);
      }
      if m :| EPower(e, n - 1, p, m) && EStep(e, m, q) {
        EPowerIsPower(e, n - 1, p, m);
      }
    }
  }

  lemma EStepStar(e: Fdd, p: Packet, q: Packet)
    requires Canonical(e)
    ensures EStep(StarFdd(e), p, q) <==> exists n: nat :: EPower(e, n, p, q)
  {
    hide StarFdd, Power, EPower;
    if EStep(StarFdd(e), p, q) {
      var a :| a in Lookup(StarFdd(e), p) && Run(a, p) == q;
      StarMeaning(e, p, a);
      var n: nat :| InPower(ID, e, p, a, n);
      EPowerIsPower(e, n, p, q);
    }
    if n: nat :| EPower(e, n, p, q) {
      EPowerIsPower(e, n, p, q);
      var a :| a in Lookup(Power(ID, e, n), p) && Run(a, p) == q;
      assert InPower(ID, e, p, a, n);
      StarMeaning(e, p, a);
    }
  }

  lemma {:induction false} EPowerFront(e: Fdd, n: nat, p: Packet, m: Packet, q: Packet)
    requires EStep(e, p, m) && EPower(e, n, m, q)
    ensures EPower(e, n + 1, p, q)
  {
    hide EStep;
    if n == 0 {
      assert EPower(e, 0, p, p);
    } else {
      var m' :| EPower(e, n - 1, m, m') && EStep(e, m', q);
      EPowerFront(e, n - 1, p, m, m');
    }
  }

  // The derivative of a policy

  /** `(e, d)` is one step of `pol`: `e` makes the final packets of the empty
      trace, and `d` goes to states whose policies in `kn` make the rest. */
  ghost predicate OneStep(w: Wire, kn: map<int, Pol>, e: Fdd, d: Fdd, pol: Pol) {
    && Canonical(e) && Canonical(d) && NoConts(e) && AllConts(d, kn.Keys)
    && forall p, h, q :: Tr(w, pol, p, h, q) <==> Stepped(w, kn, e, d, p, h, q)
  }

  ghost predicate Stepped(w: Wire, kn: map<int, Pol>, e: Fdd, d: Fdd, p: Packet, h: seq<Packet>, q: Packet) {
    if h == [] then EStep(e, p, q) else Continues(w, kn, d, p, h, q)
  }

  ghost predicate Continues(w: Wire, kn: map<int, Pol>, d: Fdd, p: Packet, h: seq<Packet>, q: Packet)
    requires h != []
  {
    exists id :: id in kn && DStep(d, p, h[0], id) && Tr(w, kn[id], w(h[0]), h[1..], q)
  }

  /** `kn` continues each state of `k1` with `b`. */
  predicate ContinuesWith(kn: map<int, Pol>, k1: map<int, Pol>, b: Pol) {
    forall id :: id in k1 ==> id in kn && kn[id] == Seq(k1[id], b)
  }

  lemma TrSeqCases(w: Wire, a: Pol, b: Pol, k1: map<int, Pol>, e1: Fdd, d1: Fdd, kn: map<int, Pol>, p: Packet,
                   h: seq<Packet>, q: Packet)
    requires OneStep(w, k1, e1, d1, a) && ContinuesWith(kn, k1, b)
    ensures Tr(w, Seq(a, b), p, h, q) <==>
              (exists m :: EStep(e1, p, m) && Tr(w, b, m, h, q)) || (h != [] && Continues(w, kn, d1, p, h, q))
  {
    hide EStep, DStep, NoConts, AllConts, Canonical, Tr;
    if Tr(w, Seq(a, b), p, h, q) {
      var g, m, g' := TrSeqSplit(w, a, b, p, h, q);
      assert Stepped(w, k1, e1, d1, p, g, m);
      if g == [] {
        assert h == g';
      } else {
        var id :| id in k1 && DStep(d1, p, g[0], id) && Tr(w, k1[id], w(g[0]), g[1..], m);
        TrSeq(w, k1[id], b, w(h[0]), g[1..], m, g', q);
        assert g[1..] + g' == h[1..];
      }
    }
    if m :| EStep(e1, p, m) && Tr(w, b, m, h, q) {
      assert Stepped(w, k1, e1, d1, p, [], m);
      TrSeq(w, a, b, p, [], m, h, q);
      assert [] + h == h;
    }
    if h != [] && Continues(w, kn, d1, p, h, q) {
      ContinuesBack(w, a, b, k1, e1, d1, kn, p, h, q);
    }
  }

  lemma ContinuesBack(w: Wire, a: Pol, b: Pol, k1: map<int, Pol>, e1: Fdd, d1: Fdd, kn: map<int, Pol>, p: Packet,
                      h: seq<Packet>, q: Packet)
    requires OneStep(w, k1, e1, d1, a) && ContinuesWith(kn, k1, b)
    requires h != [] && Continues(w, kn, d1, p, h, q)
    ensures Tr(w, Seq(a, b), p, h, q)
  {
    hide EStep, NoConts, Canonical, Lookup, Tr;
    var id :| id in kn && DStep(d1, p, h[0], id) && Tr(w, kn[id], w(h[0]), h[1..], q);
    ActsLookup(d1, ContIn(k1.Keys), p);
    assert id in k1;
    var g, m, g' := TrSeqSplit(w, k1[id], b, w(h[0]), h[1..], q);
    var hg := [h[0]] + g;
    assert hg[1..] == g;
    assert Continues(w, k1, d1, p, hg, m);
    assert Stepped(w, k1, e1, d1, p, hg, m);
    TrSeq(w, a, b, p, hg, m, g', q);
    assert hg + g' == h;
  }
}
