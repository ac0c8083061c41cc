/** Policies with links, and their meaning over a network. */
module NetworkPolicies {

  import opened Actions
  import opened LocalCompiler
  import opened Traces
  import opened SplitStates
  import S = Semantics

  /** The fields that hold the location of a packet. */
  datatype Location = Location(sw: Field, pt: Field)

  predicate At(loc: Location, p: Packet, sw: int, pt: int) {
    Get(p, loc.sw) == sw && Get(p, loc.pt) == pt
  }

  function MatchLoc(loc: Location, sw: int, pt: int): S.Pred {
    S.And(S.Test(S.Exact(loc.sw, sw)), S.Test(S.Exact(loc.pt, pt)))
  }

  /** `Pol.of_pol`: a link becomes a test, a `Dup` and a test at the other end. */
  function OfPol(loc: Location, pol: S.Policy): (r: Pol)
    ensures Plain(r)
  {
    match pol
    case Filter(a) => Filter(a)
    case Mod(hv) => Mod(hv)
    case Union(p, q) => Union(OfPol(loc, p), OfPol(loc, q))
    case Seq(p, q) => Seq(OfPol(loc, p), OfPol(loc, q))
    case Star(p) => Star(OfPol(loc, p))
    case Link(s1, p1, s2, p2) =>
      MkSeq(MkSeq(MkSeq(YES, Filter(MatchLoc(loc, s1, p1))), Dup), Filter(MatchLoc(loc, s2, p2)))
  }

  /** The policy takes `p` to `q`, and `h` holds the packets that went onto links.
      A link moves a packet from its source to its destination. */
  ghost predicate Means(loc: Location, pol: S.Policy, p: Packet, h: seq<Packet>, q: Packet)
    decreases |h|, pol, 0
  {
    match pol
    case Filter(a) => h == [] && q == p && S.EvalPred(p, a)
    case Mod(hv) => h == [] && q == p[S.Assigned(hv).0 := S.Assigned(hv).1]
    case Union(a, b) => Means(loc, a, p, h, q) || Means(loc, b, p, h, q)
    case Seq(a, b) => exists m, i: nat :: i <= |h| && Means(loc, a, p, h[..i], m) && Means(loc, b, m, h[i..], q)
    case Star(a) => exists n: nat :: MeansPower(loc, a, n, p, h, q)
    case Link(s1, p1, s2, p2) => At(loc, p, s1, p1) && h == [p] && q == p[loc.sw := s2][loc.pt := p2]
  }

  ghost predicate MeansPower(loc: Location, a: S.Policy, n: nat, p: Packet, h: seq<Packet>, q: Packet)
    decreases |h|, a, n + 1
  {
    if n == 0 then h == [] && q == p
    else exists m, i: nat :: i <= |h| && Means(loc, a, p, h[..i], m) && MeansPower(loc, a, n - 1, m, h[i..], q)
  }

  // Policies without links mean what the interpreter says

  lemma {:induction false} StepsFront(p: Packet, a: S.Policy, n: nat, m: Packet, q: Packet)
    requires m in S.Eval(p, a) && q in S.Steps(m, a, n)
    ensures q in S.Steps(p, a, n + 1)
  {
    hide S.Eval;
    if n == 0 {
      assert p in S.Steps(p, a, 0);
    } else {
      var r :| r in S.Steps(m, a, n - 1) && q in S.Eval(r, a);
      StepsFront(p, a, n - 1, m, r);
    }
  }

  lemma {:induction false} StepsFrontBack(p: Packet, a: S.Policy, n: nat, q: Packet)
    requires q in S.Steps(p, a, n + 1)
    ensures exists m :: m in S.Eval(p, a) && q in S.Steps(m, a, n)
  {
    hide S.Eval;
    var r :| r in S.Steps(p, a, n) && q in S.Eval(r, a);
    if n == 0 {
      assert q in S.Steps(q, a, 0);
    } else {
      StepsFrontBack(p, a, n - 1, r);
      var m :| m in S.Eval(p, a) && r in S.Steps(m, a, n - 1);
      assert q in S.Steps(m, a, n);
    }
  }

  lemma MeansSeqSplit(loc: Location, a: S.Policy, b: S.Policy, p: Packet, h: seq<Packet>, q: Packet)
    returns (g: seq<Packet>, m: Packet, g': seq<Packet>)
    requires Means(loc, S.Seq(a, b), p, h, q)
    ensures h == g + g' && Means(loc, a, p, g, m) && Means(loc, b, m, g', q)
  {
    var m', i: nat :| i <= |h| && Means(loc, a, p, h[..i], m') && Means(loc, b, m', h[i..], q);
    g, m, g' := h[..i], m', h[i..];
  }

  lemma MeansSeq(loc: Location, a: S.Policy, b: S.Policy, p: Packet, m: Packet, q: Packet)
    requires Means(loc, a, p, [], m) && Means(loc, b, m, [], q)
    ensures Means(loc, S.Seq(a, b), p, [], q)
  {
    var h: seq<Packet> := [];
    assert h[..0] == [] && h[0..] == [];
  }

  lemma MeansPowerSplit(loc: Location, a: S.Policy, n: nat, p: Packet, h: seq<Packet>, q: Packet)
    returns (g: seq<Packet>, m: Packet, g': seq<Packet>)
    requires MeansPower(loc, a, n + 1, p, h, q)
    ensures h == g + g' && Means(loc, a, p, g, m) && MeansPower(loc, a, n, m, g', q)
  {
    hide Means;
    var m', i: nat :| i <= |h| && Means(loc, a, p, h[..i], m') && MeansPower(loc, a, n, m', h[i..], q);
    g, m, g' := h[..i], m', h[i..];
  }

  lemma MeansPowerStep(loc: Location, a: S.Policy, n: nat, p: Packet, m: Packet, q: Packet)
    requires Means(loc, a, p, [], m) && MeansPower(loc, a, n, m, [], q)
    ensures MeansPower(loc, a, n + 1, p, [], q)
  {
    hide Means;
    var h: seq<Packet> := [];
    assert h[..0] == [] && h[0..] == [];
  }

  /** Without links there are no traces, and the final packets are those of the
      interpreter. */
  lemma {:induction false} MeansIsEval(loc: Location, pol: S.Policy, p: Packet, h: seq<Packet>, q: Packet)
    requires LinkFree(pol)
    ensures Means(loc, pol, p, h, q) <==> h == [] && q in S.Eval(p, pol)
    decreases |h|, pol, 0
  {
    hide S.Universe, S.EvalPred, S.Assigned, S.EvalStar;
    match pol
    case Union(a, b) =>
      MeansIsEval(loc, a, p, h, q);
      MeansIsEval(loc, b, p, h, q);
    case Seq(a, b) =>
      hide Means;
      if Means(loc, pol, p, h, q) {
        var g, m, g' := MeansSeqSplit(loc, a, b, p, h, q);
        MeansIsEval(loc, a, p, g, m);
        MeansIsEval(loc, b, m, g', q);
      }
      if h == [] && q in S.Eval(p, pol) {
        var m :| m in S.Eval(p, a) && q in S.Eval(m, b);
        MeansIsEval(loc, a, p, [], m);
        MeansIsEval(loc, b, m, [], q);
        MeansSeq(loc, a, b, p, m, q);
      }
    case Star(a) =>
      S.StarIsSteps(p, a, q);
      forall n: nat ensures MeansPower(loc, a, n, p, h, q) <==> h == [] && q in S.Steps(p, a, n) {
        PowerIsSteps(loc, a, n, p, h, q);
      }
    case _ =>
  }

  lemma {:induction false} PowerIsSteps(loc: Location, a: S.Policy, n: nat, p: Packet, h: seq<Packet>, q: Packet)
    requires LinkFree(a)
    ensures MeansPower(loc, a, n, p, h, q) <==> h == [] && q in S.Steps(p, a, n)
    decreases |h|, a, n + 1, 1
  {
    hide S.Eval, Means, LinkFree;
    if n > 0 {
      hide S.Steps, MeansPower;
      if MeansPower(loc, a, n, p, h, q) { PowerToSteps(loc, a, n, p, h, q); }
      if h == [] && q in S.Steps(p, a, n) { StepsToPower(loc, a, n, p, q); }
    }
  }

  lemma {:induction false} PowerToSteps(loc: Location, a: S.Policy, n: nat, p: Packet, h: seq<Packet>, q: Packet)
    requires LinkFree(a) && n > 0 && MeansPower(loc, a, n, p, h, q)
    ensures h == [] && q in S.Steps(p, a, n)
    decreases |h|, a, n + 1, 0
  {
    hide S.Eval, Means, LinkFree, S.Steps, MeansPower;
    var g, m, g' := MeansPowerSplit(loc, a, n - 1, p, h, q);
    MeansIsEval(loc, a, p, g, m);
    PowerIsSteps(loc, a, n - 1, m, g', q);
    StepsFront(p, a, n - 1, m, q);
  }

  lemma {:induction false} StepsToPower(loc: Location, a: S.Policy, n: nat, p: Packet, q: Packet)
    requires LinkFree(a) && n > 0 && q in S.Steps(p, a, n)
    ensures MeansPower(loc, a, n, p, [], q)
    decreases 0, a, n + 1, 0
  {
    hide S.Eval, Means, LinkFree, S.Steps, MeansPower;
    StepsFrontBack(p, a, n - 1, q);
    var m :| m in S.Eval(p, a) && q in S.Steps(m, a, n - 1);
    MeansIsEval(loc, a, p, [], m);
    PowerIsSteps(loc, a, n - 1, m, [], q);
    MeansPowerStep(loc, a, n - 1, p, m, q);
  }

  // The translation keeps the meaning

  /** The network has the links of the policy. */
  ghost predicate WireFollows(w: Wire, loc: Location, pol: S.Policy) {
    match pol
    case Union(a, b) => WireFollows(w, loc, a) && WireFollows(w, loc, b)
    case Seq(a, b) => WireFollows(w, loc, a) && WireFollows(w, loc, b)
    case Star(a) => WireFollows(w, loc, a)
    case Link(s1, p1, s2, p2) => forall p: Packet :: At(loc, p, s1, p1) ==> w(p) == p[loc.sw := s2][loc.pt := p2]
    case _ => true
  }

  predicate LocOk(loc: Location, ips: Ips) {
    loc.sw != loc.pt && loc.sw !in ips && loc.pt !in ips
  }

  lemma HoldsIsEval(p: Packet, a: S.Pred, ips: Ips)
    requires PredSupported(a, ips) && PacketTyped(p, ips)
    ensures Holds(p, a) <==> S.EvalPred(p, a)
  {
    hide OfPred, S.EvalPred;
    PredMeaning(a, p, ips);
    assert SKIP in ONE;
  }

  lemma HoldsLoc(loc: Location, p: Packet, sw: int, pt: int)
    ensures Holds(p, MatchLoc(loc, sw, pt)) <==> At(loc, p, sw, pt)
  {
    HoldsIsEval(p, MatchLoc(loc, sw, pt), map[]);
  }

  lemma LinkTr(w: Wire, loc: Location, s1: int, p1: int, s2: int, p2: int, p: Packet, h: seq<Packet>, q: Packet)
    requires loc.sw != loc.pt && WireFollows(w, loc, S.Link(s1, p1, s2, p2))
    ensures Tr(w, OfPol(loc, S.Link(s1, p1, s2, p2)), p, h, q) <==> Means(loc, S.Link(s1, p1, s2, p2), p, h, q)
  {
    hide Holds, MatchLoc, At;
    var a, c := Filter(MatchLoc(loc, s1, p1)), Filter(MatchLoc(loc, s2, p2));
    LinkShape(loc, s1, p1, s2, p2);
    HoldsLoc(loc, p, s1, p1);
    if At(loc, p, s1, p1) {
      ArrivesAt(loc, p, s2, p2);
      HoldsLoc(loc, w(p), s2, p2);
    }
    if Tr(w, Seq(Seq(a, Dup), c), p, h, q) {
      var g, m, g' := TrSeqSplit(w, Seq(a, Dup), c, p, h, q);
      var k, n, k' := TrSeqSplit(w, a, Dup, p, g, m);
      assert h == [p];
    }
    if Means(loc, S.Link(s1, p1, s2, p2), p, h, q) {
      assert w(p) == q;
      TrSeq(w, a, Dup, p, [], p, [p], q);
      assert [] + [p] == [p];
      TrSeq(w, Seq(a, Dup), c, p, [p], q, [], q);
      assert [p] + [] == [p];
    }
  }

  lemma LinkShape(loc: Location, s1: int, p1: int, s2: int, p2: int)
    ensures OfPol(loc, S.Link(s1, p1, s2, p2)) ==
            Seq(Seq(Filter(MatchLoc(loc, s1, p1)), Dup), Filter(MatchLoc(loc, s2, p2)))
  {
  }

  lemma ArrivesAt(loc: Location, p: Packet, sw: int, pt: int)
    requires loc.sw != loc.pt
    ensures At(loc, p[loc.sw := sw][loc.pt := pt], sw, pt)
  {
  }

  lemma {:induction false} MeansTyped(loc: Location, pol: S.Policy, p: Packet, h: seq<Packet>, q: Packet, ips: Ips)
    requires Supported(pol, ips) && PacketTyped(p, ips) && LocOk(loc, ips) && Means(loc, pol, p, h, q)
    ensures PacketTyped(q, ips)
    decreases |h|, pol, 0
  {
    hide S.EvalPred, PredSupported;
    match pol
    case Union(a, b) =>
      if Means(loc, a, p, h, q) { MeansTyped(loc, a, p, h, q, ips); } else { MeansTyped(loc, b, p, h, q, ips); }
    case Seq(a, b) =>
      var m, i: nat :| i <= |h| && Means(loc, a, p, h[..i], m) && Means(loc, b, m, h[i..], q);
      MeansTyped(loc, a, p, h[..i], m, ips);
      MeansTyped(loc, b, m, h[i..], q, ips);
    case Star(a) =>
      var n: nat :| MeansPower(loc, a, n, p, h, q);
      PowerTyped(loc, a, n, p, h, q, ips);
    case _ =>
  }

  lemma {:induction false} PowerTyped(loc: Location, a: S.Policy, n: nat, p: Packet, h: seq<Packet>, q: Packet,
                                      ips: Ips)
    requires Supported(a, ips) && PacketTyped(p, ips) && LocOk(loc, ips) && MeansPower(loc, a, n, p, h, q)
    ensures PacketTyped(q, ips)
    decreases |h|, a, n + 1
  {
    hide Means, Supported, PacketTyped;
    if n > 0 {
      var m, i: nat :| i <= |h| && Means(loc, a, p, h[..i], m) && MeansPower(loc, a, n - 1, m, h[i..], q);
      MeansTyped(loc, a, p, h[..i], m, ips);
      PowerTyped(loc, a, n - 1, m, h[i..], q, ips);
    }
  }

  /** On a network with its links, a policy means what its translation does. */
  lemma {:induction false} TrMeans(w: Wire, loc: Location, pol: S.Policy, p: Packet, h: seq<Packet>, q: Packet,
                                   ips: Ips)
    requires Supported(pol, ips) && PacketTyped(p, ips) && LocOk(loc, ips) && WireFollows(w, loc, pol)
    ensures Tr(w, OfPol(loc, pol), p, h, q) <==> Means(loc, pol, p, h, q)
    decreases |h|, pol, 0
  {
    hide S.EvalPred, PredSupported, Holds, PacketTyped;
    match pol
    case Filter(a) => HoldsIsEval(p, a, ips);
    case Mod(hv) =>
    case Union(a, b) =>
      TrMeans(w, loc, a, p, h, q, ips);
      TrMeans(w, loc, b, p, h, q, ips);
    case Seq(a, b) =>
      forall m, i: nat | i <= |h|
        ensures Tr(w, OfPol(loc, a), p, h[..i], m) && Tr(w, OfPol(loc, b), m, h[i..], q) <==>
                Means(loc, a, p, h[..i], m) && Means(loc, b, m, h[i..], q)
      {
        TrMeans(w, loc, a, p, h[..i], m, ips);
        if Means(loc, a, p, h[..i], m) {
          MeansTyped(loc, a, p, h[..i], m, ips);
          TrMeans(w, loc, b, m, h[i..], q, ips);
        }
      }
    case Star(a) =>
      forall n: nat ensures TrPower(w, OfPol(loc, a), n, p, h, q) <==> MeansPower(loc, a, n, p, h, q) {
        PowerMeans(w, loc, a, n, p, h, q, ips);
      }
    case Link(s1, p1, s2, p2) => LinkTr(w, loc, s1, p1, s2, p2, p, h, q);
  }

  lemma {:induction false} PowerMeans(w: Wire, loc: Location, a: S.Policy, n: nat, p: Packet, h: seq<Packet>, q: Packet,
                                      ips: Ips)
    requires Supported(a, ips) && PacketTyped(p, ips) && LocOk(loc, ips) && WireFollows(w, loc, a)
    ensures TrPower(w, OfPol(loc, a), n, p, h, q) <==> MeansPower(loc, a, n, p, h, q)
    decreases |h|, a, n + 1
  {
    hide Means, Tr, OfPol, Supported, PacketTyped, WireFollows;
    if n > 0 {
      forall m, i: nat | i <= |h|
        ensures Tr(w, OfPol(loc, a), p, h[..i], m) && TrPower(w, OfPol(loc, a), n - 1, m, h[i..], q) <==>
                Means(loc, a, p, h[..i], m) && MeansPower(loc, a, n - 1, m, h[i..], q)
      {
        TrMeans(w, loc, a, p, h[..i], m, ips);
        if Means(loc, a, p, h[..i], m) {
          MeansTyped(loc, a, p, h[..i], m, ips);
          PowerMeans(w, loc, a, n - 1, m, h[i..], q, ips);
        }
      }
    }
  }
}
