/** Policies with `Dup`, and the traces they allow.

    A trace records the packet at every `Dup`.  After a `Dup` the policy goes on
    with the packet that the network delivers: `wire` says which one that is, and
    is the identity for the plain meaning of `Dup`. */
module Traces {

  import opened Actions
  import opened Fdds
  import opened LocalCompiler
  import S = Semantics

  /** `Inject(e, d)` puts diagrams into a policy: `e` makes final packets and `d`
      goes on in other states. */
  datatype Pol =
    | Filter(pred: S.Pred)
    | Mod(hv: S.HeaderVal)
    | Union(pol1: Pol, pol2: Pol)
    | Seq(pol1: Pol, pol2: Pol)
    | Star(pol: Pol)
    | Dup
    | Inject(e: Fdd, d: Fdd)

  const NO: Pol := Filter(S.False)
  const YES: Pol := Filter(S.True)

  function MkSeq(a: Pol, b: Pol): Pol {
    if a == YES then b
    else if b == YES then a
    else if a == NO || b == NO then NO
    else Seq(a, b)
  }

  function MkInject(e: Fdd, d: Fdd): Pol {
    if e == DROP && d == DROP then NO else Inject(e, d)
  }

  type Wire = Packet -> Packet

  /** `p` passes the compiled predicate; for supported predicates and typed
      packets that is `EvalPred`, by `LocalCompiler.PredMeaning`. */
  predicate Holds(p: Packet, a: S.Pred) {
    Lookup(OfPred(a), p) == ONE
  }

  /** The policy takes `p` to `q` with trace `h`.  Injected diagrams refer to
      states and have no traces of their own. */
  ghost predicate Tr(w: Wire, pol: Pol, p: Packet, h: seq<Packet>, q: Packet)
    decreases |h|, pol, 0
  {
    match pol
    case Filter(a) => h == [] && q == p && Holds(p, a)
    case Mod(hv) => h == [] && q == p[S.Assigned(hv).0 := S.Assigned(hv).1]
    case Union(a, b) => Tr(w, a, p, h, q) || Tr(w, b, p, h, q)
    case Seq(a, b) => exists m, i: nat :: i <= |h| && Tr(w, a, p, h[..i], m) && Tr(w, b, m, h[i..], q)
    case Star(a) => exists n: nat :: TrPower(w, a, n, p, h, q)
    case Dup => h == [p] && q == w(p)
    case Inject(_, _) => false
  }

  ghost predicate TrPower(w: Wire, a: Pol, n: nat, p: Packet, h: seq<Packet>, q: Packet)
    decreases |h|, a, n + 1
  {
    if n == 0 then h == [] && q == p
    else exists m, i: nat :: i <= |h| && Tr(w, a, p, h[..i], m) && TrPower(w, a, n - 1, m, h[i..], q)
  }

  lemma TrSeq(w: Wire, a: Pol, b: Pol, p: Packet, g: seq<Packet>, m: Packet, h: seq<Packet>, q: Packet)
    requires Tr(w, a, p, g, m) && Tr(w, b, m, h, q)
    ensures Tr(w, Seq(a, b), p, g + h, q)
  {
    var gh := g + h;
    assert gh[..|g|] == g && gh[|g|..] == h;
  }

  lemma TrSeqSplit(w: Wire, a: Pol, b: Pol, p: Packet, h: seq<Packet>, q: Packet)
    returns (g: seq<Packet>, m: Packet, g': seq<Packet>)
    requires Tr(w, Seq(a, b), p, h, q)
    ensures h == g + g' && Tr(w, a, p, g, m) && Tr(w, b, m, g', q)
  {
    var m', i: nat :| i <= |h| && Tr(w, a, p, h[..i], m') && Tr(w, b, m', h[i..], q);
    g, m, g' := h[..i], m', h[i..];
  }

  lemma TrPowerSplit(w: Wire, a: Pol, n: nat, p: Packet, h: seq<Packet>, q: Packet)
    returns (g: seq<Packet>, m: Packet, g': seq<Packet>)
    requires TrPower(w, a, n + 1, p, h, q)
    ensures h == g + g' && Tr(w, a, p, g, m) && TrPower(w, a, n, m, g', q)
  {
    hide Tr;
    var m', i: nat :| i <= |h| && Tr(w, a, p, h[..i], m') && TrPower(w, a, n, m', h[i..], q);
    g, m, g' := h[..i], m', h[i..];
  }

  lemma TrPowerStep(w: Wire, a: Pol, n: nat, p: Packet, g: seq<Packet>, m: Packet, h: seq<Packet>, q: Packet)
    requires Tr(w, a, p, g, m) && TrPower(w, a, n, m, h, q)
    ensures TrPower(w, a, n + 1, p, g + h, q)
  {
    hide Tr;
    var gh := g + h;
    assert gh[..|g|] == g && gh[|g|..] == h;
  }

  lemma {:induction false} TrPowerAdd(w: Wire, a: Pol, j: nat, k: nat, p: Packet, g: seq<Packet>, m: Packet,
                                      h: seq<Packet>, q: Packet)
    requires TrPower(w, a, j, p, g, m) && TrPower(w, a, k, m, h, q)
    ensures TrPower(w, a, j + k, p, g + h, q)
    decreases j
  {
    hide Tr;
    if j == 0 {
      assert g + h == h;
    } else {
      var g1, m', g2 := TrPowerSplit(w, a, j - 1, p, g, m);
      TrPowerAdd(w, a, j - 1, k, m', g2, m, h, q);
      TrPowerStep(w, a, j - 1 + k, p, g1, m', g2 + h, q);
      assert g1 + (g2 + h) == g + h;
    }
  }
}
