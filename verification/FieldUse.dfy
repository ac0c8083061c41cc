/** Fields that diagrams leave alone: no operation brings in a field that its
    arguments neither test nor assign. */
module FieldUse {

  import opened Prefixes
  import opened Actions
  import opened Fdds
  import opened Sequencing
  import opened Stabilization
  import opened StarLoop
  import opened Semantics
  import opened LocalCompiler

  /** The diagram neither tests nor assigns the field (`pc_unused`). */
  predicate Unused(f: Field, x: Fdd) {
    match x
    case Leaf(par) => forall a :: a in par ==> f !in a.mods
    case Branch(g, _, t, e) => Unused(f, t) && Unused(f, e) && g != f
  }

  predicate Free(f: Field, s: (Fdd, Fdd)) {
    Unused(f, s.0) && Unused(f, s.1)
  }

  /** Tests and actions without the field. */
  predicate Without(f: Field, ts: set<Test>, acts: set<Act>) {
    (forall t :: t in ts ==> t.0 != f) && forall a :: a in acts ==> f !in a.mods
  }

  lemma {:induction false} UnusedOver(f: Field, x: Fdd)
    requires Unused(f, x)
    ensures Without(f, TestsOf(x), ActsOf(x))
  {
    if x.Branch? {
      UnusedOver(f, x.tru);
      UnusedOver(f, x.fls);
    }
  }

  lemma {:induction false} OverUnused(f: Field, x: Fdd, ts: set<Test>, acts: set<Act>)
    requires Over(x, ts, acts) && Without(f, ts, acts)
    ensures Unused(f, x)
  {
    if x.Branch? {
      OverUnused(f, x.tru, ts, acts);
      OverUnused(f, x.fls, ts, acts);
    }
  }

  lemma UnusedCover(f: Field, x: Fdd, y: Fdd) returns (ts: set<Test>, acts: set<Act>)
    requires Unused(f, x) && Unused(f, y)
    ensures Over(x, ts, acts) && Over(y, ts, acts) && Closed(acts) && Without(f, ts, acts)
  {
    UnusedOver(f, x);
    UnusedOver(f, y);
    ts := TestsOf(x) + TestsOf(y);
    acts := Closure(ActsOf(x) + ActsOf(y));
    OverSelf(x, ts, acts);
    OverSelf(y, ts, acts);
  }

  lemma UnusedApply(f: Field, op: Op, x: Fdd, y: Fdd)
    requires Unused(f, x) && Unused(f, y)
    ensures Unused(f, Apply(op, x, y))
  {
    hide Apply;
    var ts, acts := UnusedCover(f, x, y);
    OverApply(op, x, y, ts, acts);
    OverUnused(f, Apply(op, x, y), ts, acts);
  }

  lemma UnusedSeq(f: Field, x: Fdd, y: Fdd)
    requires Unused(f, x) && Unused(f, y)
    ensures Unused(f, SeqFdd(x, y))
  {
    hide Apply, SeqMap;
    var ts, acts := UnusedCover(f, x, y);
    if y.Leaf? {
      OverApply(ProdOp, x, y, ts, acts);
    } else {
      OverSeqMap(x, y, ts, acts);
    }
    OverUnused(f, SeqFdd(x, y), ts, acts);
  }

  lemma {:induction false} UnusedPower(f: Field, t: Fdd, n: nat)
    requires Unused(f, t)
    ensures Unused(f, Power(ID, t, n)) && Unused(f, Sums(ID, t, n))
  {
    hide Apply, SeqFdd;
    if n > 0 {
      UnusedPower(f, t, n - 1);
      UnusedSeq(f, Power(ID, t, n - 1), t);
      UnusedApply(f, SumOp, Sums(ID, t, n - 1), Power(ID, t, n));
    }
  }

  lemma UnusedStar(f: Field, t: Fdd)
    requires Unused(f, t) && Canonical(t)
    ensures Unused(f, StarFdd(t))
  {
    hide StarFdd;
    var m := StarIsSums(t);
    UnusedPower(f, t, m);
  }

  lemma {:induction false} UnusedMapR(f: Field, g: Par -> Par, x: Fdd)
    requires Unused(f, x)
    requires forall par: Par :: (forall a :: a in par ==> f !in a.mods) ==> forall a :: a in g(par) ==> f !in a.mods
    ensures Unused(f, MapR(g, x))
  {
    if x.Branch? {
      UnusedMapR(f, g, x.tru);
      UnusedMapR(f, g, x.fls);
    }
  }

  lemma UnusedRestrict(f: Field, lst: seq<Test>, x: Fdd)
    requires Unused(f, x)
    ensures Unused(f, Restrict(lst, x))
  {
    hide Restrict;
    var ts, acts := UnusedCover(f, x, x);
    OverRestrict(lst, x, ts, acts);
    OverUnused(f, Restrict(lst, x), ts, acts);
  }

  lemma UnusedCond(f: Field, g: Field, v: Prefix, t: Fdd, e: Fdd)
    requires Unused(f, t) && Unused(f, e) && g != f
    ensures Unused(f, Cond(g, v, t, e))
  {
    hide Apply;
    var a, b := Atom(g, v, ONE, ZERO), Atom(g, v, ZERO, ONE);
    assert Unused(f, a) && Unused(f, b);
    UnusedApply(f, ProdOp, a, t);
    UnusedApply(f, ProdOp, b, e);
    UnusedApply(f, SumOp, Times(a, t), Times(b, e));
  }

  /** No test of the field in the predicate. */
  predicate PredLeaves(f: Field, a: Pred) {
    match a
    case Test(hv) => hv.field != f
    case And(p, q) => PredLeaves(f, p) && PredLeaves(f, q)
    case Or(p, q) => PredLeaves(f, p) && PredLeaves(f, q)
    case Neg(q) => PredLeaves(f, q)
    case _ => true
  }

  /** The policy neither tests nor assigns the field; links use the location. */
  predicate Leaves(f: Field, pol: Policy) {
    match pol
    case Filter(a) => PredLeaves(f, a)
    case Mod(hv) => hv.field != f
    case Union(a, b) => Leaves(f, a) && Leaves(f, b)
    case Seq(a, b) => Leaves(f, a) && Leaves(f, b)
    case Star(a) => Leaves(f, a)
    case Link(_, _, _, _) => true
  }

  lemma {:induction false} UnusedPred(f: Field, a: Pred)
    requires PredLeaves(f, a)
    ensures Unused(f, OfPred(a))
  {
    hide Apply;
    match a
    case And(p, q) =>
      UnusedPred(f, p);
      UnusedPred(f, q);
      UnusedApply(f, ProdOp, OfPred(p), OfPred(q));
    case Or(p, q) =>
      UnusedPred(f, p);
      UnusedPred(f, q);
      UnusedApply(f, SumOp, OfPred(p), OfPred(q));
    case Neg(q) =>
      UnusedPred(f, q);
      UnusedMapR(f, Negate, OfPred(q));
    case _ =>
  }
}
