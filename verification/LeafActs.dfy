/** Properties of all the actions of a diagram. */
module LeafActs {

  import opened Prefixes
  import opened Wrappers
  import opened Actions
  import opened Fdds
  import opened Sequencing
  import opened StarLoop

  predicate ActsAll(x: Fdd, ok: Act -> bool) {
    match x
    case Leaf(par) => forall a :: a in par ==> ok(a)
    case Branch(_, _, t, e) => ActsAll(t, ok) && ActsAll(e, ok)
  }

  lemma {:induction false} ActsLookup(x: Fdd, ok: Act -> bool, p: Packet)
    requires ActsAll(x, ok)
    ensures forall a :: a in Lookup(x, p) ==> ok(a)
  {
    if x.Branch? {
      ActsLookup(x.tru, ok, p);
      ActsLookup(x.fls, ok, p);
    }
  }

  lemma {:induction false} ActsWeaken(x: Fdd, ok: Act -> bool, ok': Act -> bool)
    requires ActsAll(x, ok) && forall a :: ok(a) ==> ok'(a)
    ensures ActsAll(x, ok')
  {
    if x.Branch? {
      ActsWeaken(x.tru, ok, ok');
      ActsWeaken(x.fls, ok, ok');
    }
  }

  lemma {:induction false} ActsRestrict(lst: seq<(Field, Prefix)>, u: Fdd, ok: Act -> bool)
    requires ActsAll(u, ok)
    ensures ActsAll(Restrict(lst, u), ok)
    decreases u, |lst|
  {
    if lst == [] || u.Leaf? {
    } else if lst[0].0 < u.field {
      ActsRestrict(lst[1..], u, ok);
    } else {
      ActsRestrict(if lst[0].0 == u.field then lst[1..] else lst, u.tru, ok);
      ActsRestrict(lst, u.fls, ok);
    }
  }

  /** `MapR` by a function on sets that keeps the property. */
  lemma {:induction false} ActsMapR(g: Par -> Par, x: Fdd, ok: Act -> bool, ok': Act -> bool)
    requires ActsAll(x, ok)
    requires forall par: Par :: (forall a :: a in par ==> ok(a)) ==> forall a :: a in g(par) ==> ok'(a)
    ensures ActsAll(MapR(g, x), ok')
  {
    if x.Branch? {
      ActsMapR(g, x.tru, ok, ok');
      ActsMapR(g, x.fls, ok, ok');
    }
  }

  /** What `op` makes of actions with `ok1` and `ok2` has `ok3`. */
  ghost predicate Composes(op: Op, ok1: Act -> bool, ok2: Act -> bool, ok3: Act -> bool) {
    if op == SumOp then (forall a :: ok1(a) || ok2(a) ==> ok3(a))
    else forall a, b {:trigger Merge(a, b)} :: ok1(a) && ok2(b) ==> ok3(Merge(a, b))
  }

  lemma CombineActs(op: Op, a: Par, b: Par, ok1: Act -> bool, ok2: Act -> bool, ok3: Act -> bool)
    requires Composes(op, ok1, ok2, ok3)
    requires (forall s :: s in a ==> ok1(s)) && forall s :: s in b ==> ok2(s)
    ensures forall s :: s in Combine(op, a, b) ==> ok3(s)
  {
  }

  lemma {:induction false} ActsApply(op: Op, x: Fdd, y: Fdd, ok1: Act -> bool, ok2: Act -> bool, ok3: Act -> bool)
    requires ActsAll(x, ok1) && ActsAll(y, ok2) && Composes(op, ok1, ok2, ok3)
    ensures ActsAll(Apply(op, x, y), ok3)
    decreases Size(x) + Size(y)
  {
    hide Combine, Composes;
    if x.Leaf? {
      forall b: Par | forall s :: s in b ==> ok2(s) ensures forall s :: s in Combine(op, x.par, b) ==> ok3(s) {
        CombineActs(op, x.par, b, ok1, ok2, ok3);
      }
      ActsMapR(b => Combine(op, x.par, b), y, ok2, ok3);
      if x.par == Neutral(op) { NeutralActs(op, x, y, ok1, ok2, ok3); }
    } else if y.Leaf? {
      forall a: Par | forall s :: s in a ==> ok1(s) ensures forall s :: s in Combine(op, a, y.par) ==> ok3(s) {
        CombineActs(op, a, y.par, ok1, ok2, ok3);
      }
      ActsMapR(a => Combine(op, a, y.par), x, ok1, ok3);
      if y.par == Neutral(op) { NeutralActs(op, x, y, ok1, ok2, ok3); }
    } else if x.field == y.field && Same(x.value, y.value) {
      ActsApply(op, x.tru, y.tru, ok1, ok2, ok3);
      ActsApply(op, x.fls, y.fls, ok1, ok2, ok3);
    } else if x.field == y.field && Before(x.value, y.value) {
      ActsRestrict([(x.field, x.value)], y, ok2);
      RestrictSize([(x.field, x.value)], y);
      ActsApply(op, x.tru, Restrict([(x.field, x.value)], y), ok1, ok2, ok3);
      ActsApply(op, x.fls, y, ok1, ok2, ok3);
    } else if x.field == y.field {
      ActsRestrict([(y.field, y.value)], x, ok1);
      RestrictSize([(y.field, y.value)], x);
      ActsApply(op, Restrict([(y.field, y.value)], x), y.tru, ok1, ok2, ok3);
      ActsApply(op, x, y.fls, ok1, ok2, ok3);
    } else if x.field < y.field {
      ActsApply(op, x.tru, y, ok1, ok2, ok3);
      ActsApply(op, x.fls, y, ok1, ok2, ok3);
    } else {
      ActsApply(op, x, y.tru, ok1, ok2, ok3);
      ActsApply(op, x, y.fls, ok1, ok2, ok3);
    }
  }

  lemma NeutralActs(op: Op, x: Fdd, y: Fdd, ok1: Act -> bool, ok2: Act -> bool, ok3: Act -> bool)
    requires ActsAll(x, ok1) && ActsAll(y, ok2) && Composes(op, ok1, ok2, ok3)
    ensures x == Leaf(Neutral(op)) ==> ActsAll(y, ok3)
    ensures y == Leaf(Neutral(op)) ==> ActsAll(x, ok3)
  {
    if x == Leaf(Neutral(op)) {
      forall a | ok2(a) ensures ok3(a) { MergeSkip(a); assert op == ProdOp ==> ok1(SKIP); }
      ActsWeaken(y, ok2, ok3);
    }
    if y == Leaf(Neutral(op)) {
      forall a | ok1(a) ensures ok3(a) { MergeSkip(a); assert op == ProdOp ==> ok2(SKIP); }
      ActsWeaken(x, ok1, ok3);
    }
  }

  predicate IsSkip(a: Act) {
    a == SKIP
  }

  lemma ActsCond(f: Field, v: Prefix, t: Fdd, e: Fdd, ok: Act -> bool)
    requires ActsAll(t, ok) && ActsAll(e, ok)
    ensures ActsAll(Cond(f, v, t, e), ok)
  {
    hide Apply;
    var a, b := Atom(f, v, ONE, ZERO), Atom(f, v, ZERO, ONE);
    forall s | ok(s) ensures Merge(SKIP, s) == s { MergeSkip(s); }
    ActsApply(ProdOp, a, t, IsSkip, ok, ok);
    ActsApply(ProdOp, b, e, IsSkip, ok, ok);
    ActsApply(SumOp, Times(a, t), Times(b, e), ok, ok, ok);
  }

  lemma {:induction false} ActsSeqLeaf(par: Par, u: Fdd, ok1: Act -> bool, ok2: Act -> bool, ok3: Act -> bool)
    requires (forall s :: s in par ==> ok1(s)) && ActsAll(u, ok2) && Composes(ProdOp, ok1, ok2, ok3)
    ensures ActsAll(SeqLeaf(par, u), ok3)
  {
    hide Apply, Restrict, Composes;
    if par != {} {
      var s := Pick(par);
      ActsRestrict(Hvs(s.mods), u, ok2);
      ActsApply(ProdOp, Leaf({s}), Restrict(Hvs(s.mods), u), ok1, ok2, ok3);
      ActsSeqLeaf(par - {s}, u, ok1, ok2, ok3);
      SumComposes(ok3);
      ActsApply(SumOp, Times(Leaf({s}), Restrict(Hvs(s.mods), u)), SeqLeaf(par - {s}, u), ok3, ok3, ok3);
    }
  }

  lemma SumComposes(ok: Act -> bool)
    ensures Composes(SumOp, ok, ok, ok)
  {
  }

  lemma {:induction false} ActsSeqMap(t: Fdd, u: Fdd, ok1: Act -> bool, ok2: Act -> bool, ok3: Act -> bool)
    requires ActsAll(t, ok1) && ActsAll(u, ok2) && Composes(ProdOp, ok1, ok2, ok3)
    ensures ActsAll(SeqMap(t, u), ok3)
  {
    hide Apply, Cond, Composes;
    match t
    case Leaf(par) => ActsSeqLeaf(par, u, ok1, ok2, ok3);
    case Branch(f, v, tru, fls) =>
      ActsSeqMap(tru, u, ok1, ok2, ok3);
      ActsSeqMap(fls, u, ok1, ok2, ok3);
      ActsCond(f, v, SeqMap(tru, u), SeqMap(fls, u), ok3);
  }

  lemma ActsSeq(t: Fdd, u: Fdd, ok1: Act -> bool, ok2: Act -> bool, ok3: Act -> bool)
    requires ActsAll(t, ok1) && ActsAll(u, ok2) && Composes(ProdOp, ok1, ok2, ok3)
    ensures ActsAll(SeqFdd(t, u), ok3)
  {
    hide Apply, SeqMap, Composes;
    if u.Leaf? {
      ActsApply(ProdOp, t, u, ok1, ok2, ok3);
    } else {
      ActsSeqMap(t, u, ok1, ok2, ok3);
    }
  }

  // Continuations

  predicate NoCont(a: Act) {
    a.cont == None
  }

  /** No action of `e` goes on in a state. */
  predicate NoConts(e: Fdd) {
    ActsAll(e, NoCont)
  }

  function ContIn(ids: set<int>): Act -> bool {
    (a: Act) => a.cont.Some? && a.cont.value in ids
  }

  /** Each action of `d` goes on in a state of `ids`. */
  predicate AllConts(d: Fdd, ids: set<int>) {
    ActsAll(d, ContIn(ids))
  }

  lemma ContsWider(d: Fdd, ids: set<int>, ids': set<int>)
    requires AllConts(d, ids) && ids <= ids'
    ensures AllConts(d, ids')
  {
    ActsWeaken(d, ContIn(ids), ContIn(ids'));
  }

  lemma ContsPlus(x: Fdd, y: Fdd, ids: set<int>)
    ensures NoConts(x) && NoConts(y) ==> NoConts(Plus(x, y))
    ensures AllConts(x, ids) && AllConts(y, ids) ==> AllConts(Plus(x, y), ids)
  {
    hide Apply;
    if NoConts(x) && NoConts(y) { ActsApply(SumOp, x, y, NoCont, NoCont, NoCont); }
    if AllConts(x, ids) && AllConts(y, ids) { ActsApply(SumOp, x, y, ContIn(ids), ContIn(ids), ContIn(ids)); }
  }

  /** `seq` never composes an action after one that goes on in a state. */
  lemma ContsSeq(x: Fdd, y: Fdd, ids: set<int>)
    requires NoConts(x)
    ensures NoConts(y) ==> NoConts(SeqFdd(x, y))
    ensures AllConts(y, ids) ==> AllConts(SeqFdd(x, y), ids)
  {
    hide SeqFdd;
    if NoConts(y) { ActsSeq(x, y, NoCont, NoCont, NoCont); }
    if AllConts(y, ids) { ActsSeq(x, y, NoCont, ContIn(ids), ContIn(ids)); }
  }

  lemma {:induction false} NoContsPower(e: Fdd, n: nat)
    requires NoConts(e)
    ensures NoConts(Power(ID, e, n)) && NoConts(Sums(ID, e, n))
  {
    hide SeqFdd, Apply;
    if n > 0 {
      NoContsPower(e, n - 1);
      ContsSeq(Power(ID, e, n - 1), e, {});
      ContsPlus(Sums(ID, e, n - 1), Power(ID, e, n), {});
    }
  }

  lemma NoContsStar(e: Fdd)
    requires Canonical(e) && NoConts(e)
    ensures NoConts(StarFdd(e))
  {
    hide Power, Loop, EndsWithin, Sums;
    var m := StarIsSums(e);
    NoContsPower(e, m);
  }
}
