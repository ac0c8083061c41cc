/** Compilation of link-free policies to decision diagrams. */
module LocalCompiler {

  import opened Prefixes
  import opened Wrappers
  import opened Values
  import opened Actions
  import opened Fdds
  import opened Sequencing
  import opened StarLoop
  import opened Semantics

  /** The test of a header value; IPv4 addresses become 64-bit masks. */
  function PatternOf(hv: HeaderVal): (Field, Prefix) {
    match hv
    case Exact(f, v) => (f, Canon(Const(v)))
    case Ip(f, addr, mask) => (f, Canon(Mask(addr, 32 + mask)))
  }

  function OfTest(hv: HeaderVal): Fdd {
    Atom(PatternOf(hv).0, PatternOf(hv).1, ONE, ZERO)
  }

  /** An assigned address has mask 32: the source rejects all others when it
      emits the action. */
  function OfMod(hv: HeaderVal): Fdd {
    Leaf({Act(map[Assigned(hv).0 := Assigned(hv).1], None)})
  }

  function OfPred(a: Pred): Fdd {
    match a
    case True => ID
    case False => DROP
    case Test(hv) => OfTest(hv)
    case And(p, q) => Times(OfPred(p), OfPred(q))
    case Or(p, q) => Plus(OfPred(p), OfPred(q))
    case Neg(q) => MapR(Negate, OfPred(q))
  }

  /** `None` stands for the exception `Non_local`. */
  ghost function OfLocalPol(pol: Policy): (r: Option<Fdd>)
    ensures r.Some? ==> Canonical(r.value)
  {
    match pol
    case Filter(a) => CanonicalPred(a); Some(OfPred(a))
    case Mod(hv) => Some(OfMod(hv))
    case Union(p, q) =>
      var p' := OfLocalPol(p);
      if p'.None? then None else
      var q' := OfLocalPol(q);
      if q'.None? then None else
      CanonicalApply(SumOp, p'.value, q'.value);
      Some(Plus(p'.value, q'.value))
    case Seq(p, q) =>
      var p' := OfLocalPol(p);
      if p'.None? then None
      else if p'.value == DROP then Some(DROP)
      else
      var q' := OfLocalPol(q);
      if q'.None? then None else
      CanonicalSeq(p'.value, q'.value);
      Some(SeqFdd(p'.value, q'.value))
    case Star(p) =>
      var p' := OfLocalPol(p);
      if p'.None? then None else
      StarMeaning(p'.value, map[], SKIP);
      Some(StarFdd(p'.value))
    case Link(_, _, _, _) => None
  }

  lemma {:induction false} CanonicalPred(a: Pred)
    ensures Canonical(OfPred(a))
  {
    hide Apply;
    match a
    case And(p, q) =>
      CanonicalPred(p);
      CanonicalPred(q);
      CanonicalApply(ProdOp, OfPred(p), OfPred(q));
    case Or(p, q) =>
      CanonicalPred(p);
      CanonicalPred(q);
      CanonicalApply(SumOp, OfPred(p), OfPred(q));
    case Neg(q) =>
      CanonicalPred(q);
      CanonicalMapR(Negate, OfPred(q));
    case _ =>
  }

  // Header values

  /** The address fields, and how the addresses in each are written. */
  type Ips = map<Field, Naming>

  /** IPv4 addresses are 32-bit words in the fields `ips`, and nowhere else; the
      integers of the source are those that packets are written with. */
  predicate HvTyped(hv: HeaderVal, ips: Ips) {
    match hv
    case Exact(f, _) => f !in ips
    case Ip(f, addr, _) => f in ips && IsWord(32, addr) && Named(ips[f], addr)
  }

  predicate PacketTyped(p: Packet, ips: Ips) {
    forall f :: f in ips ==> Named(ips[f], Get(p, f))
  }

  /** A compiled test agrees with the interpreter on all packets exactly when its
      mask is not empty, or no address is written with another sign: an empty mask
      compares the sign. */
  lemma TestAgreesIff(n: Naming, f: Field, addr: int, mask: MaskLen)
    requires IsWord(32, addr) && Named(n, addr)
    ensures (forall x :: Named(n, x) ==> (IpLessEq(x, addr, mask) <==> Matches(x, PatternOf(Ip(f, addr, mask)).1)))
            <==> mask >= 1 || n != Signed
  {
    if mask >= 1 || n != Signed {
      forall x | Named(n, x) ensures IpLessEq(x, addr, mask) <==> Matches(x, PatternOf(Ip(f, addr, mask)).1) {
        TestAgrees(n, x, f, addr, mask);
      }
    } else {
      var x := if addr < 0 then 0 else -1;
      assert Pow2(31) >= 1;
      ShrRange(x, 0, 32);
      ShrRange(addr, 0, 32) by { assert Pow2(32) >= Pow2(31); }
      assert Named(n, x) && IpLessEq(x, addr, mask) && !Matches(x, PatternOf(Ip(f, addr, mask)).1);
    }
  }

  lemma TestAgrees(n: Naming, x: int, f: Field, addr: int, mask: MaskLen)
    requires Named(n, addr) && Named(n, x) && (mask >= 1 || n != Signed)
    ensures IpLessEq(x, addr, mask) <==> Matches(x, PatternOf(Ip(f, addr, mask)).1)
  {
    NamedShift(n, x, addr, 32 - mask);
    if mask == 0 {
      EmptyMask(n, x);
      EmptyMask(n, addr);
    }
  }

  /** All words written with one sign share their first 32 bits. */
  lemma EmptyMask(n: Naming, x: int)
    requires Named(n, x) && n != Signed
    ensures Shr(x, 32) == if n == Low then 0 else -1
  {
    ShrRange(x, 0, 32);
  }

  predicate PredSupported(a: Pred, ips: Ips) {
    match a
    case Test(hv) => HvTyped(hv, ips) && (hv.Ip? ==> hv.mask >= 1 || ips[hv.field] != Signed)
    case And(p, q) => PredSupported(p, ips) && PredSupported(q, ips)
    case Or(p, q) => PredSupported(p, ips) && PredSupported(q, ips)
    case Neg(q) => PredSupported(q, ips)
    case _ => true
  }

  /** Well typed, with no empty mask in a test unless all addresses of the field
      have one sign, and no partial mask in a modification. */
  predicate Supported(pol: Policy, ips: Ips) {
    match pol
    case Filter(a) => PredSupported(a, ips)
    case Mod(hv) => HvTyped(hv, ips) && (hv.Ip? ==> hv.mask == 32)
    case Union(a, b) => Supported(a, ips) && Supported(b, ips)
    case Seq(a, b) => Supported(a, ips) && Supported(b, ips)
    case Star(a) => Supported(a, ips)
    case Link(_, _, _, _) => true
  }

  lemma TestMeaning(hv: HeaderVal, p: Packet, ips: Ips)
    requires PredSupported(Test(hv), ips) && PacketTyped(p, ips)
    ensures Lookup(OfTest(hv), p) == if EvalPred(p, Test(hv)) then ONE else ZERO
  {
    if hv.Ip? {
      TestAgrees(ips[hv.field], Get(p, hv.field), hv.field, hv.addr, hv.mask);
    }
  }

  lemma {:induction false} PredMeaning(a: Pred, p: Packet, ips: Ips)
    requires PredSupported(a, ips) && PacketTyped(p, ips)
    ensures Lookup(OfPred(a), p) == if EvalPred(p, a) then ONE else ZERO
  {
    hide Apply, OfTest, Products, PacketTyped, IpLessEq;
    match a
    case Test(hv) => TestMeaning(hv, p, ips);
    case And(a1, a2) =>
      PredMeaning(a1, p, ips);
      PredMeaning(a2, p, ips);
      CanonicalPred(a1);
      CanonicalPred(a2);
      TimesMeaning(OfPred(a1), OfPred(a2), p);
      ProductsOne(Lookup(OfPred(a2), p));
      ProductsOne(Lookup(OfPred(a1), p));
      ProductsZero(Lookup(OfPred(a2), p));
    case Or(a1, a2) =>
      PredMeaning(a1, p, ips);
      PredMeaning(a2, p, ips);
      CanonicalPred(a1);
      CanonicalPred(a2);
      PlusMeaning(OfPred(a1), OfPred(a2), p);
    case Neg(q) =>
      PredMeaning(q, p, ips);
      MapRMeaning(Negate, OfPred(q), p);
    case _ =>
  }

  lemma ProductsZero(a: Par)
    ensures Products(ZERO, a) == ZERO
  {
  }

  /** An empty mask next to an address of the other sign: everything is dropped,
      although the interpreter lets the packets of that address pass. */
  lemma EmptyMaskDropsAll(f: Field, addr: int, mask: MaskLen, p: Packet)
    requires IsWord(32, addr) && addr < 0 && mask >= 1 && Get(p, f) == addr
    ensures var a := And(Test(Ip(f, 0, 0)), Test(Ip(f, addr, mask)));
            OfPred(a) == DROP && EvalPred(p, a)
  {
    assert Pow2(32) >= Pow2(31) >= 1;
    ShrRange(0, 0, 32);
    ShrRange(addr, 0, 32);
    ShrAdd(addr, 32 - mask, mask);
    var v, w := PatternOf(Ip(f, 0, 0)).1, PatternOf(Ip(f, addr, mask)).1;
    assert Same(v, Prefix(0, 32, None)) && w.len == 32 + mask && Shr(w.bits, mask) == -1;
    assert !Within(w, v) && Before(w, v) && !Before(v, w) && !Same(v, w);
    EmptyMaskProduct(f, v, w);
  }

  lemma EmptyMaskProduct(f: Field, v: Prefix, w: Prefix)
    requires !Within(w, v) && Before(w, v) && !Before(v, w) && !Same(v, w)
    ensures Times(Atom(f, v, ONE, ZERO), Atom(f, w, ONE, ZERO)) == DROP
  {
    assert SKIP in ONE;
    assert ID != DROP;
    var x, y := Branch(f, v, ID, DROP), Branch(f, w, ID, DROP);
    assert Atom(f, v, ONE, ZERO) == x && Atom(f, w, ONE, ZERO) == y;
    assert Restrict([(f, w)], x) == DROP;
    assert Apply(ProdOp, DROP, ID) == DROP;
    forall g: Par -> Par ensures MapR(g, x) == MkBranch(f, v, Leaf(g(ONE)), Leaf(g(ZERO))) {
      assert MapR(g, ID) == Leaf(g(ONE)) && MapR(g, DROP) == Leaf(g(ZERO));
    }
    assert Combine(ProdOp, ONE, ZERO) == ZERO && Combine(ProdOp, ZERO, ZERO) == ZERO;
    assert Apply(ProdOp, x, DROP) == DROP;
  }

  /** 192.168.0.1/24 and 192.168.0.5/24 are one test written twice: a conditional on
      the two keeps a node that decides nothing. */
  lemma HostBitsExtraNode(f: Field, g: Field, v: Prefix, p: Packet)
    requires g < f
    ensures var (t, e) := (OfTest(Ip(f, -1062731775, 24)), OfTest(Ip(f, -1062731771, 24)));
            && Cond(g, v, t, e) == Branch(g, v, t, e)
            && Lookup(Cond(g, v, t, e), p) == Lookup(t, p) == Lookup(e, p)
  {
    assert Shr(-1062731775, 8) == -4151296 && Shr(-1062731771, 8) == -4151296;
    assert SKIP in ONE;
  }

  // Correctness

  ghost predicate AllTyped(s: set<Packet>, ips: Ips) {
    forall q :: q in s ==> PacketTyped(q, ips)
  }

  lemma {:induction false} EvalTyped(pol: Policy, p: Packet, ips: Ips)
    requires Supported(pol, ips) && PacketTyped(p, ips)
    ensures AllTyped(Eval(p, pol), ips)
    decreases pol, 0
  {
    hide Universe;
    match pol
    case Union(a, b) =>
      EvalTyped(a, p, ips);
      EvalTyped(b, p, ips);
    case Seq(a, b) =>
      EvalTyped(a, p, ips);
      forall q | q in Eval(p, a) ensures AllTyped(Eval(q, b), ips) { EvalTyped(b, q, ips); }
    case Star(a) =>
      StarTyped(a, p, ips);
    case _ =>
  }

  lemma {:induction false} StarTyped(a: Policy, p: Packet, ips: Ips)
    requires Supported(a, ips) && PacketTyped(p, ips)
    ensures AllTyped(Eval(p, Star(a)), ips)
    decreases a, 1
  {
    hide Eval, Universe;
    var s := iset q | PacketTyped(q, ips);
    forall q, r | q in s && r in Eval(q, a) ensures r in s { EvalTyped(a, q, ips); }
    StarIsLeastClosed(p, a, s);
  }

  lemma {:induction false} StepsTyped(a: Policy, p: Packet, n: nat, ips: Ips)
    requires Supported(a, ips) && PacketTyped(p, ips)
    ensures AllTyped(Steps(p, a, n), ips)
  {
    hide Eval, Universe;
    if n > 0 {
      StepsTyped(a, p, n - 1, ips);
      forall q | q in Steps(p, a, n - 1) ensures AllTyped(Eval(q, a), ips) { EvalTyped(a, q, ips); }
    }
  }

  /** The diagram sends `p` to exactly the packets of `s`. */
  ghost predicate Sends(x: Fdd, p: Packet, s: set<Packet>) {
    && (forall a :: a in Lookup(x, p) ==> a.cont == None && Run(a, p) in s)
    && (forall q :: q in s ==> exists a :: a in Lookup(x, p) && Run(a, p) == q)
  }

  lemma SendsPlus(x: Fdd, y: Fdd, p: Packet, s: set<Packet>, t: set<Packet>)
    requires Canonical(x) && Canonical(y) && Sends(x, p, s) && Sends(y, p, t)
    ensures Sends(Plus(x, y), p, s + t)
  {
    hide Apply;
    PlusMeaning(x, y, p);
  }

  lemma MergeRuns(a: Act, b: Act, p: Packet)
    ensures Run(Merge(a, b), p) == Run(b, Run(a, p))
    ensures Merge(a, b).cont == if b.cont.Some? then b.cont else a.cont
  {
    RunMerge(a, b, p);
  }

  lemma SendsSeq(x: Fdd, y: Fdd, p: Packet, s: set<Packet>, t: set<Packet>, next: map<Packet, set<Packet>>)
    requires Canonical(x) && Canonical(y) && Sends(x, p, s) && next.Keys == s
    requires forall q :: q in s ==> Sends(y, q, next[q])
    requires forall r :: r in t <==> exists q :: q in s && r in next[q]
    ensures Sends(SeqFdd(x, y), p, t)
  {
    hide SeqFdd, Lookup, Canonical, Run, Merge;
    SeqMeaning(x, y, p);
    forall c | c in Lookup(SeqFdd(x, y), p) ensures c.cont == None && Run(c, p) in t {
      var a, b :| a in Lookup(x, p) && b in Lookup(y, Run(a, p)) && c == Merge(a, b);
      MergeRuns(a, b, p);
      assert Run(a, p) in s && Sends(y, Run(a, p), next[Run(a, p)]);
    }
    forall r | r in t ensures exists c :: c in Lookup(SeqFdd(x, y), p) && Run(c, p) == r {
      var q :| q in s && r in next[q];
      var a :| a in Lookup(x, p) && Run(a, p) == q;
      assert Sends(y, q, next[q]);
      var b :| b in Lookup(y, q) && Run(b, q) == r;
      MergeRuns(a, b, p);
      assert Merge(a, b) in Lookup(SeqFdd(x, y), p);
    }
  }

  lemma StepsUnfold(p: Packet, a: Policy, n: nat, next: map<Packet, set<Packet>>)
    requires n > 0 && next.Keys == Steps(p, a, n - 1) && forall q :: q in next ==> next[q] == Eval(q, a)
    ensures forall r :: r in Steps(p, a, n) <==> exists q :: q in Steps(p, a, n - 1) && r in next[q]
  {
    hide Eval;
  }

  lemma CompilePowerStep(a: Policy, t: Fdd, p: Packet, n: nat, next: map<Packet, set<Packet>>)
    requires n > 0 && Canonical(t) && Canonical(Power(ID, t, n - 1)) &&
             Sends(Power(ID, t, n - 1), p, Steps(p, a, n - 1))
    requires next.Keys == Steps(p, a, n - 1) && forall q :: q in next ==> next[q] == Eval(q, a) && Sends(t, q, next[q])
    ensures Sends(Power(ID, t, n), p, Steps(p, a, n))
  {
    StepsUnfold(p, a, n, next);
    hide Eval, Sends, Steps, Canonical, SeqFdd;
    SendsSeq(Power(ID, t, n - 1), t, p, next.Keys, Steps(p, a, n), next);
  }

  lemma {:induction false} CompilePower(a: Policy, t: Fdd, p: Packet, n: nat, ips: Ips)
    requires Supported(a, ips) && OfLocalPol(a) == Some(t) && PacketTyped(p, ips)
    ensures Sends(Power(ID, t, n), p, Steps(p, a, n))
    decreases a, 1, n
  {
    hide Eval, Universe, OfLocalPol, SeqFdd, Supported, PacketTyped, Sends, Steps, Power, Canonical;
    if n > 0 {
      CompilePower(a, t, p, n - 1, ips);
      StepsTyped(a, p, n - 1, ips);
      CanonicalOf(a);
      CompileZero(a, t, p);
      CanonicalPower(ID, t, n - 1);
      var next := map q | q in Steps(p, a, n - 1) :: Eval(q, a);
      forall q | q in next ensures Sends(t, q, next[q]) { CompileCorrect(a, q, ips); }
      CompilePowerStep(a, t, p, n, next);
    } else {
      CompileZero(a, t, p);
    }
  }

  lemma CompileZero(a: Policy, t: Fdd, p: Packet)
    ensures Sends(Power(ID, t, 0), p, Steps(p, a, 0)) && Canonical(ID)
  {
    assert Run(SKIP, p) == p;
  }

  lemma CanonicalOf(a: Policy)
    ensures OfLocalPol(a).Some? ==> Canonical(OfLocalPol(a).value)
  {
    hide OfLocalPol;
  }

  lemma {:induction false} CompileStar(a: Policy, t: Fdd, p: Packet, ips: Ips)
    requires Supported(a, ips) && OfLocalPol(a) == Some(t) && PacketTyped(p, ips)
    ensures Canonical(t) && Sends(StarFdd(t), p, Eval(p, Star(a)))
    decreases a, 2
  {
    hide Eval, Universe, OfLocalPol, StarFdd, Power;
    forall b | b in Lookup(StarFdd(t), p) ensures b.cont == None && Run(b, p) in Eval(p, Star(a)) {
      StarMeaning(t, p, b);
      var n: nat :| InPower(ID, t, p, b, n);
      CompilePower(a, t, p, n, ips);
      StarIsSteps(p, a, Run(b, p));
    }
    forall q | q in Eval(p, Star(a)) ensures exists b :: b in Lookup(StarFdd(t), p) && Run(b, p) == q {
      StarIsSteps(p, a, q);
      var n: nat :| q in Steps(p, a, n);
      CompilePower(a, t, p, n, ips);
      var b :| b in Lookup(Power(ID, t, n), p) && Run(b, p) == q;
      StarMeaning(t, p, b);
      assert InPower(ID, t, p, b, n);
    }
  }

  /** Local compilation preserves the meaning of every policy it accepts. */
  lemma {:induction false} CompileCorrect(pol: Policy, p: Packet, ips: Ips)
    requires Supported(pol, ips) && OfLocalPol(pol).Some? && PacketTyped(p, ips)
    ensures Sends(OfLocalPol(pol).value, p, Eval(p, pol))
    decreases pol, 0
  {
    hide Apply, Universe, StarFdd, SeqFdd;
    match pol
    case Filter(a) =>
      PredMeaning(a, p, ips);
      assert Run(SKIP, p) == p;
    case Mod(hv) =>
      var act := Act(map[Assigned(hv).0 := Assigned(hv).1], None);
      assert Run(act, p) == p[Assigned(hv).0 := Assigned(hv).1];
      assert act in Lookup(OfLocalPol(pol).value, p);
    case Union(a, b) =>
      CompileCorrect(a, p, ips);
      CompileCorrect(b, p, ips);
      SendsPlus(OfLocalPol(a).value, OfLocalPol(b).value, p, Eval(p, a), Eval(p, b));
    case Seq(a, b) =>
      CompileCorrect(a, p, ips);
      if OfLocalPol(a).value != DROP {
        EvalTyped(a, p, ips);
        var next := map q | q in Eval(p, a) :: Eval(q, b);
        forall q | q in Eval(p, a) ensures Sends(OfLocalPol(b).value, q, next[q]) { CompileCorrect(b, q, ips); }
        SendsSeq(OfLocalPol(a).value, OfLocalPol(b).value, p, Eval(p, a), Eval(p, pol), next);
      }
    case Star(a) =>
      CompileStar(a, OfLocalPol(a).value, p, ips);
  }

  predicate LinkFree(pol: Policy) {
    match pol
    case Union(a, b) => LinkFree(a) && LinkFree(b)
    case Seq(a, b) => LinkFree(a) && LinkFree(b)
    case Star(a) => LinkFree(a)
    case Link(_, _, _, _) => false
    case _ => true
  }

  lemma {:induction false} CompileTotal(pol: Policy)
    requires LinkFree(pol)
    ensures OfLocalPol(pol).Some?
  {
    match pol
    case Union(a, b) => CompileTotal(a); CompileTotal(b);
    case Seq(a, b) => CompileTotal(a); CompileTotal(b);
    case Star(a) => CompileTotal(a);
    case _ =>
  }
}
