/** Forwarding decision diagrams: ordered, reduced trees of field tests with
    sets of actions at the leaves. */
module Fdds {

  import opened Prefixes
  import opened Actions

  type Test = (Field, Prefix)

  datatype Fdd = Leaf(par: Par) | Branch(field: Field, value: Prefix, tru: Fdd, fls: Fdd)

  const DROP: Fdd := Leaf(ZERO)
  const ID: Fdd := Leaf(ONE)

  /** The actions of the leaf that `p` reaches. */
  function Lookup(x: Fdd, p: Packet): Par {
    match x
    case Leaf(par) => par
    case Branch(f, v, t, e) => if Matches(Get(p, f), v) then Lookup(t, p) else Lookup(e, p)
  }

  function Size(x: Fdd): nat {
    match x
    case Leaf(_) => 1
    case Branch(_, _, t, e) => 1 + Size(t) + Size(e)
  }

  /** No test of `f` or of an earlier field. */
  predicate Below(x: Fdd, f: Field) {
    x.Leaf? || f < x.field
  }

  /** The root comes after the test `(f, v)`. */
  predicate After(x: Fdd, f: Field, v: Prefix) {
    x.Leaf? || f < x.field || (f == x.field && Before(v, x.value))
  }

  /** Tests in increasing order, at most one passed test for each field, and no
      node with equal branches. */
  predicate Canonical(x: Fdd) {
    match x
    case Leaf(_) => true
    case Branch(f, v, t, e) =>
      && t != e
      && v.len <= WIDTH
      && Below(t, f) && After(e, f, v)
      && Canonical(t) && Canonical(e)
  }

  predicate Tests(x: Fdd, f: Field) {
    x.Branch? && (x.field == f || Tests(x.tru, f) || Tests(x.fls, f))
  }

  function MkBranch(f: Field, v: Prefix, t: Fdd, e: Fdd): Fdd {
    if t == e then t else Branch(f, v, t, e)
  }

  function Atom(f: Field, v: Prefix, t: Par, e: Par): Fdd {
    MkBranch(f, v, Leaf(t), Leaf(e))
  }

  function MapR(g: Par -> Par, x: Fdd): Fdd {
    match x
    case Leaf(par) => Leaf(g(par))
    case Branch(f, v, t, e) => MkBranch(f, v, MapR(g, t), MapR(g, e))
  }

  /** The part of `u` that applies when all the tests of `lst` pass. */
  function Restrict(lst: seq<(Field, Prefix)>, u: Fdd): Fdd
    decreases u, |lst|
  {
    if lst == [] || u.Leaf? then u
    else if lst[0].0 == u.field then
      if Within(lst[0].1, u.value) then Restrict(lst[1..], u.tru) else Restrict(lst, u.fls)
    else if lst[0].0 < u.field then Restrict(lst[1..], u)
    else MkBranch(u.field, u.value, Restrict(lst, u.tru), Restrict(lst, u.fls))
  }

  lemma {:induction false} RestrictSize(lst: seq<(Field, Prefix)>, u: Fdd)
    ensures Size(Restrict(lst, u)) <= Size(u)
    decreases u, |lst|
  {
    if lst == [] || u.Leaf? {
    } else if lst[0].0 == u.field {
      RestrictSize(lst[1..], u.tru);
      RestrictSize(lst, u.fls);
    } else if lst[0].0 < u.field {
      RestrictSize(lst[1..], u);
    } else {
      RestrictSize(lst, u.tru);
      RestrictSize(lst, u.fls);
    }
  }

  datatype Op = SumOp | ProdOp

  function Neutral(op: Op): Par {
    if op == SumOp then ZERO else ONE
  }

  function Combine(op: Op, a: Par, b: Par): Par {
    if op == SumOp then Sum(a, b) else Prod(a, b)
  }

  /** The pointwise sum or product of two diagrams. */
  function Apply(op: Op, x: Fdd, y: Fdd): Fdd
    decreases Size(x) + Size(y)
  {
    if x.Leaf? then
      if x.par == Neutral(op) then y else MapR(b => Combine(op, x.par, b), y)
    else if y.Leaf? then
      if y.par == Neutral(op) then x else MapR(a => Combine(op, a, y.par), x)
    else if x.field == y.field then
      if Same(x.value, y.value) then
        MkBranch(x.field, x.value, Apply(op, x.tru, y.tru), Apply(op, x.fls, y.fls))
      else if Before(x.value, y.value) then
        RestrictSize([(x.field, x.value)], y);
        MkBranch(x.field, x.value,
                 Apply(op, x.tru, Restrict([(x.field, x.value)], y)), Apply(op, x.fls, y))
      else
        RestrictSize([(y.field, y.value)], x);
        MkBranch(y.field, y.value,
                 Apply(op, Restrict([(y.field, y.value)], x), y.tru), Apply(op, x, y.fls))
    else if x.field < y.field then
      MkBranch(x.field, x.value, Apply(op, x.tru, y), Apply(op, x.fls, y))
    else
      MkBranch(y.field, y.value, Apply(op, x, y.tru), Apply(op, x, y.fls))
  }

  function Plus(x: Fdd, y: Fdd): Fdd {
    Apply(SumOp, x, y)
  }

  function Times(x: Fdd, y: Fdd): Fdd {
    Apply(ProdOp, x, y)
  }

  /** If-then-else on any diagrams, kept in order. */
  function Cond(f: Field, v: Prefix, t: Fdd, e: Fdd): Fdd {
    if t == e then t
    else if Below(t, f) && Below(e, f) then MkBranch(f, v, t, e)
    else Plus(Times(Atom(f, v, ONE, ZERO), t), Times(Atom(f, v, ZERO, ONE), e))
  }

  // Shape

  lemma {:induction false} CanonicalMapR(g: Par -> Par, x: Fdd)
    requires Canonical(x)
    ensures Canonical(MapR(g, x))
    ensures forall f :: Below(x, f) ==> Below(MapR(g, x), f)
    ensures forall f, v :: After(x, f, v) ==> After(MapR(g, x), f, v)
  {
    if x.Branch? {
      CanonicalMapR(g, x.tru);
      CanonicalMapR(g, x.fls);
      OrderFacts();
    }
  }

  lemma {:induction false} CanonicalRestrict(lst: seq<(Field, Prefix)>, u: Fdd)
    requires Canonical(u)
    ensures Canonical(Restrict(lst, u))
    ensures forall f :: Below(u, f) ==> Below(Restrict(lst, u), f)
    ensures forall f, v :: After(u, f, v) ==> After(Restrict(lst, u), f, v)
    decreases u, |lst|
  {
    if lst == [] || u.Leaf? {
    } else if lst[0].0 < u.field {
      CanonicalRestrict(lst[1..], u);
    } else {
      OrderFacts();
      CanonicalRestrict(if lst[0].0 == u.field then lst[1..] else lst, u.tru);
      CanonicalRestrict(lst, u.fls);
    }
  }

  lemma {:induction false} BelowTests(x: Fdd, f: Field)
    requires Canonical(x) && Below(x, f)
    ensures !Tests(x, f)
  {
    if x.Branch? {
      BelowTests(x.tru, f);
      BelowTests(x.fls, f);
    }
  }

  lemma {:induction false} RestrictRemoves(lst: seq<(Field, Prefix)>, u: Fdd, i: nat)
    requires Canonical(u) && Sorted(lst) && i < |lst|
    ensures !Tests(Restrict(lst, u), lst[i].0)
    decreases u, |lst|
  {
    if u.Leaf? {
    } else if lst[0].0 == u.field {
      if Within(lst[0].1, u.value) {
        if i > 0 {
          RestrictRemoves(lst[1..], u.tru, i - 1);
        } else {
          CanonicalRestrict(lst[1..], u.tru);
          BelowTests(Restrict(lst[1..], u.tru), lst[0].0);
        }
      } else {
        RestrictRemoves(lst, u.fls, i);
      }
    } else if lst[0].0 < u.field {
      if i > 0 {
        RestrictRemoves(lst[1..], u, i - 1);
      } else {
        CanonicalRestrict(lst[1..], u);
        BelowTests(Restrict(lst[1..], u), lst[0].0);
      }
    } else {
      RestrictRemoves(lst, u.tru, i);
      RestrictRemoves(lst, u.fls, i);
    }
  }

  lemma {:induction false} CanonicalApply(op: Op, x: Fdd, y: Fdd)
    requires Canonical(x) && Canonical(y)
    ensures Canonical(Apply(op, x, y))
    ensures forall f :: Below(x, f) && Below(y, f) ==> Below(Apply(op, x, y), f)
    ensures forall f, v :: After(x, f, v) && After(y, f, v) ==> After(Apply(op, x, y), f, v)
    decreases Size(x) + Size(y)
  {
    hide Combine, Before, Within;
    OrderFacts();
    if x.Leaf? {
      CanonicalMapR(b => Combine(op, x.par, b), y);
    } else if y.Leaf? {
      CanonicalMapR(a => Combine(op, a, y.par), x);
    } else if x.field == y.field && Same(x.value, y.value) {
      CanonicalApply(op, x.tru, y.tru);
      CanonicalApply(op, x.fls, y.fls);
    } else if x.field == y.field && Before(x.value, y.value) {
      RestrictBelow(y, x.field, x.value);
      CanonicalApply(op, x.tru, Restrict([(x.field, x.value)], y));
      CanonicalApply(op, x.fls, y);
    } else if x.field == y.field {
      RestrictBelow(x, y.field, y.value);
      CanonicalApply(op, Restrict([(y.field, y.value)], x), y.tru);
      CanonicalApply(op, x, y.fls);
    } else if x.field < y.field {
      CanonicalApply(op, x.tru, y);
      CanonicalApply(op, x.fls, y);
    } else {
      CanonicalApply(op, x, y.tru);
      CanonicalApply(op, x, y.fls);
    }
  }

  lemma RestrictBelow(u: Fdd, f: Field, v: Prefix)
    requires Canonical(u) && After(u, f, v)
    ensures Size(Restrict([(f, v)], u)) <= Size(u)
    ensures Canonical(Restrict([(f, v)], u)) && Below(Restrict([(f, v)], u), f)
  {
    RestrictSize([(f, v)], u);
    CanonicalRestrict([(f, v)], u);
    RestrictRemoves([(f, v)], u, 0);
  }

  lemma CanonicalCond(f: Field, v: Prefix, t: Fdd, e: Fdd)
    requires Canonical(t) && Canonical(e) && v.len <= WIDTH
    ensures Canonical(Cond(f, v, t, e))
  {
    if t != e && !(Below(t, f) && Below(e, f)) {
      var a, b := Atom(f, v, ONE, ZERO), Atom(f, v, ZERO, ONE);
      CanonicalApply(ProdOp, a, t);
      CanonicalApply(ProdOp, b, e);
      CanonicalApply(SumOp, Times(a, t), Times(b, e));
    }
  }

  // Meaning

  lemma {:induction false} MapRMeaning(g: Par -> Par, x: Fdd, p: Packet)
    ensures Lookup(MapR(g, x), p) == g(Lookup(x, p))
  {
    if x.Branch? {
      MapRMeaning(g, x.tru, p);
      MapRMeaning(g, x.fls, p);
    }
  }

  /** Each test of a restricted field is implied or refuted by the list. */
  predicate Decides(lst: seq<(Field, Prefix)>, u: Fdd) {
    u.Branch? ==>
      && (forall h :: h in lst && h.0 == u.field ==> Within(h.1, u.value) || !Within(u.value, h.1))
      && Decides(lst, u.tru) && Decides(lst, u.fls)
  }

  /** The packet passes every test of the list. */
  predicate Passes(p: Packet, lst: seq<(Field, Prefix)>) {
    forall h :: h in lst ==> Matches(Get(p, h.0), h.1)
  }

  lemma {:induction false} DecidesTail(lst: seq<(Field, Prefix)>, u: Fdd)
    requires lst != [] && Decides(lst, u)
    ensures Decides(lst[1..], u)
  {
    if u.Branch? {
      DecidesTail(lst, u.tru);
      DecidesTail(lst, u.fls);
    }
  }

  lemma {:induction false} RestrictMeaning(lst: seq<(Field, Prefix)>, u: Fdd, p: Packet)
    requires Decides(lst, u) && Passes(p, lst)
    ensures Lookup(Restrict(lst, u), p) == Lookup(u, p)
    decreases u, |lst|
  {
    if lst == [] || u.Leaf? {
    } else if lst[0].0 == u.field {
      assert lst[0] in lst;
      OrderFacts();
      DecidesTail(lst, u.tru);
      RestrictMeaning(lst[1..], u.tru, p);
      RestrictMeaning(lst, u.fls, p);
    } else if lst[0].0 < u.field {
      DecidesTail(lst, u);
      RestrictMeaning(lst[1..], u, p);
    } else {
      RestrictMeaning(lst, u.tru, p);
      RestrictMeaning(lst, u.fls, p);
    }
  }

  lemma {:induction false} DecidesAfter(u: Fdd, f: Field, v: Prefix)
    requires Canonical(u) && After(u, f, v)
    ensures Decides([(f, v)], u)
  {
    if u.Branch? {
      OrderFacts();
      DecidesAfter(u.tru, f, v);
      DecidesAfter(u.fls, f, v);
    }
  }

  lemma {:induction false} DecidesFull(lst: seq<(Field, Prefix)>, u: Fdd)
    requires Canonical(u)
    requires forall h :: h in lst ==> h.1.len == WIDTH
    ensures Decides(lst, u)
  {
    if u.Branch? {
      DecidesFull(lst, u.tru);
      DecidesFull(lst, u.fls);
    }
  }

  lemma {:induction false} LookupAgrees(x: Fdd, p: Packet, q: Packet)
    requires forall f :: Tests(x, f) ==> Get(p, f) == Get(q, f)
    ensures Lookup(x, p) == Lookup(x, q)
  {
    if x.Branch? {
      assert Tests(x, x.field);
      LookupAgrees(x.tru, p, q);
      LookupAgrees(x.fls, p, q);
    }
  }

  /** Restricting by an action's assignments gives the diagram as seen by the
      packet after the action. */
  lemma RestrictRun(mods: map<Field, int>, u: Fdd, p: Packet)
    requires Canonical(u)
    ensures Lookup(Restrict(Hvs(mods), u), p) == Lookup(u, p + mods)
  {
    var lst := Hvs(mods);
    var r := Restrict(lst, u);
    forall f | Tests(r, f) ensures Get(p, f) == Get(p + mods, f) {
      if f in mods {
        var i :| 0 <= i < |lst| && lst[i] == (f, Full(mods[f]));
        RestrictRemoves(lst, u, i);
      }
    }
    LookupAgrees(r, p, p + mods);
    DecidesFull(lst, u);
    OrderFacts();
    RestrictMeaning(lst, u, p + mods);
  }

  lemma {:induction false} ApplyMeaning(op: Op, x: Fdd, y: Fdd, p: Packet)
    requires Canonical(x) && Canonical(y)
    ensures Lookup(Apply(op, x, y), p) == Combine(op, Lookup(x, p), Lookup(y, p))
    decreases Size(x) + Size(y)
  {
    hide Combine, Before, Within;
    if x.Leaf? {
      MapRMeaning(b => Combine(op, x.par, b), y, p);
      CombineNeutral(op, Lookup(y, p));
    } else if y.Leaf? {
      MapRMeaning(a => Combine(op, a, y.par), x, p);
      CombineNeutral(op, Lookup(x, p));
    } else if x.field == y.field && Same(x.value, y.value) {
      OrderFacts();
      ApplyMeaning(op, x.tru, y.tru, p);
      ApplyMeaning(op, x.fls, y.fls, p);
    } else if x.field == y.field && Before(x.value, y.value) {
      var h := [(x.field, x.value)];
      RestrictBelow(y, x.field, x.value);
      ApplyMeaning(op, x.tru, Restrict(h, y), p);
      ApplyMeaning(op, x.fls, y, p);
      DecidesAfter(y, x.field, x.value);
      if Matches(Get(p, x.field), x.value) { RestrictMeaning(h, y, p); }
    } else if x.field == y.field {
      OrderFacts();
      var h := [(y.field, y.value)];
      RestrictBelow(x, y.field, y.value);
      ApplyMeaning(op, Restrict(h, x), y.tru, p);
      ApplyMeaning(op, x, y.fls, p);
      DecidesAfter(x, y.field, y.value);
      if Matches(Get(p, y.field), y.value) { RestrictMeaning(h, x, p); }
    } else if x.field < y.field {
      ApplyMeaning(op, x.tru, y, p);
      ApplyMeaning(op, x.fls, y, p);
    } else {
      ApplyMeaning(op, x, y.tru, p);
      ApplyMeaning(op, x, y.fls, p);
    }
  }

  lemma CombineNeutral(op: Op, a: Par)
    ensures Combine(op, Neutral(op), a) == a && Combine(op, a, Neutral(op)) == a
  {
    ProductsOne(a);
  }

  lemma PlusMeaning(x: Fdd, y: Fdd, p: Packet)
    requires Canonical(x) && Canonical(y)
    ensures Lookup(Plus(x, y), p) == Lookup(x, p) + Lookup(y, p)
  {
    ApplyMeaning(SumOp, x, y, p);
  }

  lemma TimesMeaning(x: Fdd, y: Fdd, p: Packet)
    requires Canonical(x) && Canonical(y)
    ensures Lookup(Times(x, y), p) == Products(Lookup(x, p), Lookup(y, p))
  {
    ApplyMeaning(ProdOp, x, y, p);
  }

  lemma CondMeaning(f: Field, v: Prefix, t: Fdd, e: Fdd, p: Packet)
    requires Canonical(t) && Canonical(e) && v.len <= WIDTH
    ensures Lookup(Cond(f, v, t, e), p) == if Matches(Get(p, f), v) then Lookup(t, p) else Lookup(e, p)
  {
    if t != e && !(Below(t, f) && Below(e, f)) {
      var a, b := Atom(f, v, ONE, ZERO), Atom(f, v, ZERO, ONE);
      CanonicalApply(ProdOp, a, t);
      CanonicalApply(ProdOp, b, e);
      TimesMeaning(a, t, p);
      TimesMeaning(b, e, p);
      PlusMeaning(Times(a, t), Times(b, e), p);
      ProductsOne(Lookup(t, p));
      ProductsOne(Lookup(e, p));
    }
  }
}
