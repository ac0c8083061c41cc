/** The compiled program and the policy allow the same runs over the network. */
module GlobalCorrectness {

  import opened Actions
  import opened Fdds
  import opened LocalCompiler
  import opened Traces
  import opened Splitting
  import opened Automata
  import opened Minimization
  import opened Determinization
  import opened FieldUse
  import opened ProgramCounter
  import opened NetworkRuns
  import opened NetworkPolicies
  import opened GlobalCompiler
  import S = Semantics

  /** The network has the links of the policy, and packets leave it off the links. */
  ghost predicate Deployed(pc: Field, w: Wire, linked: Linked, loc: Location, pol: S.Policy) {
    && PcBlind(pc, w, linked) && WireFollows(w, loc, pol)
    && (forall x :: AtLink(loc, pol, x) ==> linked(x))
    && (forall p, h, q :: Tr(w, OfPol(loc, pol), p, h, q) ==> !linked(q))
  }

  /** The policy starts with packets from outside the network only. */
  ghost predicate StartsAtEdge(w: Wire, linked: Linked, loc: Location, pol: S.Policy) {
    forall x, h, q :: linked(x) ==> !Tr(w, OfPol(loc, pol), w(x), h, q)
  }

  lemma DeployedOnNetwork(pc: Field, w: Wire, linked: Linked, loc: Location, pol: S.Policy, st: States, source: int,
                          ids: set<int>)
    requires Deployed(pc, w, linked, loc, pol) && Implements(loc, pol, st, source) && LinkSteps(loc, pol, st)
    ensures OnNetwork(pc, w, linked, st, source, ids)
  {
    hide Accept, Tr, StepsTo, PcBlind, AtLink, WireFollows;
    forall p ensures EndsOff(w, linked, st, source, p) {
      forall h, q | Accept(w, st, source, p, h, q) ensures !linked(q) {
        assert Tr(w, OfPol(loc, pol), p, h, q);
      }
    }
  }

  /** A path of links ends where a link ends. */
  lemma {:induction false} PathEnds(w: Wire, linked: Linked, st: States, ids: set<int>, id: int, p: Packet,
                                    h: seq<Packet>, k: int, y: Packet) returns (x: Packet)
    requires Closed(st, ids, ids) && id in ids && h != [] && Path(w, st, id, p, h, k, y)
    requires forall j :: j in ids && j in st ==> StepsTo(st[j].1, linked)
    ensures linked(x) && y == w(x)
    decreases |h|
  {
    hide DStep, Conts;
    var j :| id in st && DStep(st[id].1, p, h[0], j) && Path(w, st, j, w(h[0]), h[1..], k, y);
    DStepConts(st[id].1, p, h[0], j);
    if h[1..] == [] {
      x := h[0];
    } else {
      x := PathEnds(w, linked, st, ids, j, w(h[0]), h[1..], k, y);
    }
  }

  lemma EdgeSilent(w: Wire, linked: Linked, loc: Location, pol: S.Policy, st: States, source: int, x: Packet,
                   h: seq<Packet>, q: Packet)
    requires Implements(loc, pol, st, source) && StartsAtEdge(w, linked, loc, pol) && linked(x)
    ensures !Accept(w, st, source, w(x), h, q)
  {
    hide Accept, Tr;
    assert !Tr(w, OfPol(loc, pol), w(x), h, q);
  }

  lemma EdgeAddsNothing(pc: Field, w: Wire, linked: Linked, loc: Location, pol: S.Policy, st: States, source: int,
                        ids: set<int>, l: Fdd)
    requires Encoded(pc, st, source, ids, l) && OnNetwork(pc, w, linked, st, source, ids)
    requires Implements(loc, pol, st, source) && StartsAtEdge(w, linked, loc, pol)
    ensures RestartsAddNothing(pc, w, st, source)
  {
    hide Accept, Path, StepsTo, PcBlind, EndsOff, IsLocal, StatesOk, Closed, AllFree, Erase, Implements, StartsAtEdge;
    forall p, h, q, g, j, y, g' ensures g != [] ==> !Restarted(w, st, source, source, p, h, q, g, j, y, g') {
      if g != [] && Path(w, st, source, p, g, j, y) {
        var x := PathEnds(w, linked, st, ids, source, p, g, j, y);
        EdgeSilent(w, linked, loc, pol, st, source, x, g', q);
      }
    }
  }

  /** The compiled program moves a packet from outside over the network exactly
      as the policy says, when the policy starts at the edge. */
  lemma CompileGlobalExact(pc: Field, w: Wire, linked: Linked, loc: Location, pol: S.Policy, ips: Ips,
                           st: States, source: int, ids: set<int>, l: Fdd, p: Packet, h: seq<Packet>, q: Packet)
    requires Encoded(pc, st, source, ids, l) && Implements(loc, pol, st, source) && LinkSteps(loc, pol, st)
    requires Deployed(pc, w, linked, loc, pol) && StartsAtEdge(w, linked, loc, pol)
    requires Supported(pol, ips) && LocOk(loc, ips) && PacketTyped(Erase(pc, p), ips) && Get(p, pc) !in ids
    ensures NetRun(pc, w, linked, l, p, h, q) <==> Means(loc, pol, Erase(pc, p), h, q)
  {
    hide Encoded, LinkSteps, StartsAtEdge, OnNetwork, RestartsAddNothing, Accept, Tr, NetRun, PcBlind, AtLink,
      WireFollows, Supported, PacketTyped, Erase, Means;
    DeployedOnNetwork(pc, w, linked, loc, pol, st, source, ids);
    EdgeAddsNothing(pc, w, linked, loc, pol, st, source, ids, l);
    RunsExactIff(pc, w, linked, st, source, ids, l);
    assert NetRun(pc, w, linked, l, p, h, q) <==> Accept(w, st, source, Erase(pc, p), h, q);
    assert Accept(w, st, source, Erase(pc, p), h, q) <==> Tr(w, OfPol(loc, pol), Erase(pc, p), h, q);
    TrMeans(w, loc, pol, Erase(pc, p), h, q, ips);
  }

  // A policy that does not start at the edge

  /** One link, and a rule for the packets at its end. */
  function Leaky(loc: Location, f: Field): S.Policy {
    S.Union(S.Link(1, 1, 2, 1), S.Seq(S.Filter(MatchLoc(loc, 2, 1)), S.Mod(S.Exact(f, 7))))
  }

  function OneLink(loc: Location): Wire {
    (x: Packet) => if At(loc, x, 1, 1) then x[loc.sw := 2][loc.pt := 1] else x
  }

  function AtOneLink(loc: Location): Linked {
    (x: Packet) => At(loc, x, 1, 1)
  }

  lemma LeakySeqTr(w: Wire, loc: Location, f: Field, p: Packet, h: seq<Packet>, q: Packet)
    ensures Tr(w, Seq(Filter(MatchLoc(loc, 2, 1)), Mod(S.Exact(f, 7))), p, h, q) <==>
            At(loc, p, 2, 1) && h == [] && q == p[f := 7]
  {
    hide Holds, MatchLoc, At;
    HoldsLoc(loc, p, 2, 1);
    var a, b := Filter(MatchLoc(loc, 2, 1)), Mod(S.Exact(f, 7));
    if Tr(w, Seq(a, b), p, h, q) {
      var g, m, g' := TrSeqSplit(w, a, b, p, h, q);
    }
    if At(loc, p, 2, 1) {
      var none: seq<Packet> := [];
      TrSeq(w, a, b, p, none, p, none, p[f := 7]);
      assert none + none == none;
    }
  }

  lemma LeakyShape(w: Wire, loc: Location, f: Field)
    ensures OfPol(loc, Leaky(loc, f)) ==
              Union(OfPol(loc, S.Link(1, 1, 2, 1)), Seq(Filter(MatchLoc(loc, 2, 1)), Mod(S.Exact(f, 7))))
    ensures WireFollows(w, loc, Leaky(loc, f)) <==> WireFollows(w, loc, S.Link(1, 1, 2, 1))
    ensures forall x :: AtLink(loc, Leaky(loc, f), x) <==> At(loc, x, 1, 1)
  {
    hide MatchLoc, At;
    var m := MatchLoc(loc, 2, 1);
    assert OfPol(loc, S.Filter(m)) == Filter(m) && OfPol(loc, S.Mod(S.Exact(f, 7))) == Mod(S.Exact(f, 7));
    assert OfPol(loc, S.Seq(S.Filter(m), S.Mod(S.Exact(f, 7)))) == Seq(Filter(m), Mod(S.Exact(f, 7)));
    assert WireFollows(w, loc, S.Filter(m)) && WireFollows(w, loc, S.Mod(S.Exact(f, 7)));
    assert WireFollows(w, loc, S.Seq(S.Filter(m), S.Mod(S.Exact(f, 7))));
    forall x ensures AtLink(loc, Leaky(loc, f), x) <==> At(loc, x, 1, 1) {
      assert !AtLink(loc, S.Seq(S.Filter(MatchLoc(loc, 2, 1)), S.Mod(S.Exact(f, 7))), x);
      assert AtLink(loc, S.Link(1, 1, 2, 1), x) <==> At(loc, x, 1, 1);
    }
  }

  lemma LeakyTr(loc: Location, f: Field, p: Packet, h: seq<Packet>, q: Packet)
    requires loc.sw != loc.pt
    ensures Tr(OneLink(loc), OfPol(loc, Leaky(loc, f)), p, h, q) <==>
              || (At(loc, p, 1, 1) && h == [p] && q == p[loc.sw := 2][loc.pt := 1])
              || (At(loc, p, 2, 1) && h == [] && q == p[f := 7])
  {
    var w := OneLink(loc);
    assert WireFollows(w, loc, S.Link(1, 1, 2, 1));
    hide Holds, MatchLoc, At, Means, OneLink, OfPol, Leaky;
    LeakyShape(w, loc, f);
    var a, b := OfPol(loc, S.Link(1, 1, 2, 1)), Seq(Filter(MatchLoc(loc, 2, 1)), Mod(S.Exact(f, 7)));
    assert Tr(w, Union(a, b), p, h, q) <==> Tr(w, a, p, h, q) || Tr(w, b, p, h, q);
    hide Tr;
    LinkTr(w, loc, 1, 1, 2, 1, p, h, q);
    MeansLink(loc, p, h, q);
    LeakySeqTr(w, loc, f, p, h, q);
  }

  lemma MeansLink(loc: Location, p: Packet, h: seq<Packet>, q: Packet)
    ensures Means(loc, S.Link(1, 1, 2, 1), p, h, q) <==>
            At(loc, p, 1, 1) && h == [p] && q == p[loc.sw := 2][loc.pt := 1]
  {
  }

  lemma LeakyDeployed(pc: Field, loc: Location, f: Field)
    requires loc.sw != loc.pt && f != loc.sw && f != loc.pt && pc != loc.sw && pc != loc.pt
    ensures Deployed(pc, OneLink(loc), AtOneLink(loc), loc, Leaky(loc, f))
  {
    var w, linked := OneLink(loc), AtOneLink(loc);
    assert PcBlind(pc, w, linked) by {
      forall x: Packet, v: int {:trigger x[pc := v]}
        ensures w(x[pc := v]) == w(x)[pc := v] && linked(x[pc := v]) == linked(x)
      {
      }
    }
    LeakyShape(w, loc, f);
    assert WireFollows(w, loc, S.Link(1, 1, 2, 1));
    hide Tr, PcBlind, MatchLoc, OfPol, Leaky;
    forall p, h, q | Tr(w, OfPol(loc, Leaky(loc, f)), p, h, q) ensures !linked(q) {
      LeakyTr(loc, f, p, h, q);
    }
  }

  /** The source acts on every packet, so it acts again at the end of the link. */
  lemma LeakyIsNotExact(pc: Field, loc: Location, f: Field, st: States, source: int, ids: set<int>, l: Fdd)
    requires loc.sw != loc.pt && f != loc.sw && f != loc.pt && pc != loc.sw && pc != loc.pt && f != pc
    requires Encoded(pc, st, source, ids, l) && Implements(loc, Leaky(loc, f), st, source) &&
             LinkSteps(loc, Leaky(loc, f), st)
    ensures !RunsExact(pc, OneLink(loc), AtOneLink(loc), st, source, ids, l)
  {
    hide Encoded, LinkSteps, OnNetwork, Tr, NetRun, PcBlind, AtLink, WireFollows, RunsExact, OfPol, EStep, DStep,
      Deployed, Leaky, OneLink;
    var w := OneLink(loc);
    LeakyDeployed(pc, loc, f);
    DeployedOnNetwork(pc, w, AtOneLink(loc), loc, Leaky(loc, f), st, source, ids);
    RunsExactIff(pc, w, AtOneLink(loc), st, source, ids, l);
    var p: Packet := map[loc.sw := 1, loc.pt := 1, pc := 0];
    var y := p[loc.sw := 2][loc.pt := 1];
    var q := y[f := 7];
    LeakyTr(loc, f, p, [p], y);
    LeakyTr(loc, f, y, [], q);
    LeakyTr(loc, f, p, [p], q);
    assert w(p) == y by { LeakyWire(loc, p); }
    assert q != y by { assert f in q && f !in y; }
    assert Accept(w, st, source, p, [p], y);
    assert Accept(w, st, source, y, [], q);
    assert !Accept(w, st, source, p, [p], q);
    var j :| DStep(st[source].1, p, p, j) && Accept(w, st, j, y, [], y);
    assert Path(w, st, source, p, [p], j, y);
    assert Restarted(w, st, source, source, p, [p], q, [p], j, y, []);
  }

  lemma LeakyLeaves(pc: Field, loc: Location, f: Field)
    requires pc != loc.sw && pc != loc.pt && pc != f
    ensures Leaves(pc, Leaky(loc, f))
  {
    var (sw, pt) := (S.Test(S.Exact(loc.sw, 2)), S.Test(S.Exact(loc.pt, 1)));
    assert PredLeaves(pc, sw) && PredLeaves(pc, pt);
    assert MatchLoc(loc, 2, 1) == S.And(sw, pt) && PredLeaves(pc, MatchLoc(loc, 2, 1));
  }

  /** The compiler accepts the policy, and its program allows other runs. */
  method CompileLeaky(ghost loc: Location, ghost f: Field, st: States, pc: Field)
    returns (t: Automaton, ids: set<int>, ghost l: Fdd)
    requires loc.sw != loc.pt && f != loc.sw && f != loc.pt && pc != loc.sw && pc != loc.pt && f != pc
    requires st == StatesOf(OfPol(loc, Leaky(loc, f)))
    ensures Encoded(pc, t.states, t.source, ids, l) && Implements(loc, Leaky(loc, f), t.states, t.source)
    ensures !RunsExact(pc, OneLink(loc), AtOneLink(loc), t.states, t.source, ids, l)
  {
    hide StatesOf, Encoded, Implements, LinkSteps, RunsExact, Leaves, OfPol, Leaky, Clash, Done;
    LeakyLeaves(pc, loc, f);
    var ok;
    t, ok, ids, l := CompileGlobal(loc, Leaky(loc, f), st, pc);
    LeakyIsNotExact(pc, loc, f, t.states, t.source, ids, l);
  }

  lemma LeakyWire(loc: Location, p: Packet)
    requires At(loc, p, 1, 1)
    ensures OneLink(loc)(p) == p[loc.sw := 2][loc.pt := 1]
  {
  }

  // A policy that starts at the edge

  lemma OneLinkDeployed(pc: Field, loc: Location)
    requires loc.sw != loc.pt && pc != loc.sw && pc != loc.pt
    ensures Deployed(pc, OneLink(loc), AtOneLink(loc), loc, S.Link(1, 1, 2, 1))
    ensures StartsAtEdge(OneLink(loc), AtOneLink(loc), loc, S.Link(1, 1, 2, 1))
  {
    var w, linked, pol := OneLink(loc), AtOneLink(loc), S.Link(1, 1, 2, 1);
    assert PcBlind(pc, w, linked) by {
      forall x: Packet, v: int {:trigger x[pc := v]}
        ensures w(x[pc := v]) == w(x)[pc := v] && linked(x[pc := v]) == linked(x)
      {
      }
    }
    assert WireFollows(w, loc, pol) && forall x :: AtLink(loc, pol, x) ==> linked(x);
    hide Tr, PcBlind, OfPol;
    forall p, h, q ensures Tr(w, OfPol(loc, pol), p, h, q) <==> Means(loc, pol, p, h, q) {
      LinkTr(w, loc, 1, 1, 2, 1, p, h, q);
    }
    forall p: Packet, h, q
      ensures Means(loc, pol, p, h, q) <==> At(loc, p, 1, 1) && h == [p] && q == p[loc.sw := 2][loc.pt := 1]
    {
      MeansLink(loc, p, h, q);
    }
  }

  /** Every condition of `CompileGlobalExact` is met: the compiler accepts the policy of a
      single link, and its program moves exactly the packets at the link. */
  method CompileOneLink(ghost loc: Location, st: States, pc: Field)
    returns (t: Automaton, ids: set<int>, ghost l: Fdd)
    requires loc.sw != loc.pt && pc != loc.sw && pc != loc.pt && st == StatesOf(OfPol(loc, S.Link(1, 1, 2, 1)))
    ensures Encoded(pc, t.states, t.source, ids, l) && Implements(loc, S.Link(1, 1, 2, 1), t.states, t.source)
    ensures forall p: Packet, h, q :: Get(p, pc) !in ids ==>
              (NetRun(pc, OneLink(loc), AtOneLink(loc), l, p, h, q) <==>
               At(loc, p, 1, 1) && h == [Erase(pc, p)] && q == Erase(pc, p)[loc.sw := 2][loc.pt := 1])
  {
    hide StatesOf, Encoded, Implements, LinkSteps, OfPol, Clash, Done, Deployed, StartsAtEdge, NetRun, Means, OneLink;
    var ok;
    ghost var pol := S.Link(1, 1, 2, 1);
    t, ok, ids, l := CompileGlobal(loc, pol, st, pc);
    OneLinkDeployed(pc, loc);
    forall p: Packet, h, q | Get(p, pc) !in ids
      ensures NetRun(pc, OneLink(loc), AtOneLink(loc), l, p, h, q) <==>
              At(loc, p, 1, 1) && h == [Erase(pc, p)] && q == Erase(pc, p)[loc.sw := 2][loc.pt := 1]
    {
      CompileGlobalExact(pc, OneLink(loc), AtOneLink(loc), loc, pol, map[], t.states, t.source, ids, l, p, h, q);
      MeansLink(loc, Erase(pc, p), h, q);
    }
  }
}
