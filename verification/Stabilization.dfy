/** Adding diagrams one after another stops changing the sum.

    A sum of diagrams is not canonical for its meaning: it can keep a test that
    no longer matters, or lose it again when two branches become equal.  Over
    finitely many tests and actions it still settles. */
module Stabilization {

  import opened Prefixes
  import opened Wrappers
  import opened Actions
  import opened Fdds

  /** All tests of `x` are in `ts` and all its actions in `acts`. */
  predicate Over(x: Fdd, ts: set<Test>, acts: set<Act>) {
    match x
    case Leaf(par) => par <= acts
    case Branch(f, v, t, e) => (f, v) in ts && Over(t, ts, acts) && Over(e, ts, acts)
  }

  ghost function Acc(a: Fdd, p: nat -> Fdd, n: nat): Fdd {
    if n == 0 then a else Plus(Acc(a, p, n - 1), p(n - 1))
  }

  ghost predicate Stable(a: Fdd, p: nat -> Fdd, n: nat) {
    forall k: nat :: n <= k ==> Acc(a, p, k) == Acc(a, p, n)
  }

  // Growing sets

  lemma {:induction false} GrowingSetsSettle<X>(s: nat -> set<X>, u: set<X>, from: nat) returns (n: nat)
    requires forall k: nat :: from <= k ==> s(k) <= s(k + 1) && s(k) <= u
    ensures from <= n && forall k: nat :: n <= k ==> s(k) == s(n)
    decreases u - s(from)
  {
    if k: nat :| from <= k && s(k) != s(from) {
      GrowingSetsGrow(s, from, k);
      assert s(from) < s(k) <= u;
      n := GrowingSetsSettle(s, u, k);
    } else {
      n := from;
    }
  }

  lemma {:induction false} GrowingSetsGrow<X>(s: nat -> set<X>, j: nat, k: nat)
    requires forall i: nat :: j <= i ==> s(i) <= s(i + 1)
    requires j <= k
    ensures s(j) <= s(k)
    decreases k - j
  {
    if j < k {
      GrowingSetsGrow(s, j + 1, k);
    }
  }

  // The chain of tests of the first field

  /** No test of a field before `f`. */
  predicate From(x: Fdd, f: Field) {
    x.Leaf? || f <= x.field
  }

  function Cof(x: Fdd, f: Field, v: Prefix): Fdd {
    Restrict([(f, v)], x)
  }

  /** What is left when all tests of `f` fail. */
  function Rest(x: Fdd, f: Field): Fdd {
    if x.Branch? && x.field == f then Rest(x.fls, f) else x
  }

  function Chain(x: Fdd, f: Field): set<Prefix> {
    if x.Branch? && x.field == f then {x.value} + Chain(x.fls, f) else {}
  }

  lemma {:induction false} CofBelow(x: Fdd, f: Field, v: Prefix)
    requires Canonical(x) && Below(x, f)
    ensures Cof(x, f, v) == x
  {
    var lst := [(f, v)];
    assert lst[1..] == [];
    assert Restrict(lst[1..], x) == x;
  }

  lemma CofRoot(x: Fdd, v: Prefix)
    requires x.Branch?
    ensures Cof(x, x.field, v) == if Within(v, x.value) then x.tru else Cof(x.fls, x.field, v)
  {
    var lst := [(x.field, v)];
    assert lst[1..] == [];
    assert Restrict(lst[1..], x.tru) == x.tru;
  }

  lemma {:induction false} ChainAfter(x: Fdd, f: Field, v: Prefix, w: Prefix)
    requires Canonical(x) && After(x, f, v) && w in Chain(x, f)
    ensures Before(v, w)
  {
    OrderFacts();
    if w != x.value {
      ChainAfter(x.fls, f, x.value, w);
    }
  }

  lemma {:induction false} RestShape(x: Fdd, f: Field)
    requires Canonical(x) && From(x, f)
    ensures Canonical(Rest(x, f)) && Below(Rest(x, f), f)
  {
    if x.Branch? && x.field == f {
      RestShape(x.fls, f);
    }
  }

  lemma {:induction false} OverRest(x: Fdd, f: Field, ts: set<Test>, acts: set<Act>)
    requires Over(x, ts, acts)
    ensures Over(Rest(x, f), ts, acts)
  {
    if x.Branch? && x.field == f {
      OverRest(x.fls, f, ts, acts);
    }
  }

  lemma {:induction false} OverChain(x: Fdd, f: Field, ts: set<Test>, acts: set<Act>)
    requires Over(x, ts, acts)
    ensures forall v :: v in Chain(x, f) ==> (f, v) in ts
  {
    if x.Branch? && x.field == f {
      OverChain(x.fls, f, ts, acts);
    }
  }

  // Operations stay over the same tests and actions

  lemma {:induction false} OverRestrict(lst: seq<Test>, u: Fdd, ts: set<Test>, acts: set<Act>)
    requires Over(u, ts, acts)
    ensures Over(Restrict(lst, u), ts, acts)
    decreases u, |lst|
  {
    if lst == [] || u.Leaf? {
    } else if lst[0].0 < u.field {
      OverRestrict(lst[1..], u, ts, acts);
    } else {
      OverRestrict(if lst[0].0 == u.field then lst[1..] else lst, u.tru, ts, acts);
      OverRestrict(lst, u.fls, ts, acts);
    }
  }

  lemma {:induction false} OverMapR(g: Par -> Par, x: Fdd, ts: set<Test>, acts: set<Act>)
    requires Over(x, ts, acts)
    requires forall a: Par :: a <= acts ==> g(a) <= acts
    ensures Over(MapR(g, x), ts, acts)
  {
    if x.Branch? {
      OverMapR(g, x.tru, ts, acts);
      OverMapR(g, x.fls, ts, acts);
    }
  }

  predicate Closed(acts: set<Act>) {
    SKIP in acts && forall s, t :: s in acts && t in acts ==> Merge(s, t) in acts
  }

  lemma CombineCloses(op: Op, a: Par, b: Par, acts: set<Act>)
    requires a <= acts && b <= acts && (op == SumOp || Closed(acts))
    ensures Combine(op, a, b) <= acts
  {
  }

  lemma {:induction false} OverApply(op: Op, x: Fdd, y: Fdd, ts: set<Test>, acts: set<Act>)
    requires Over(x, ts, acts) && Over(y, ts, acts)
    requires op == SumOp || Closed(acts)
    ensures Over(Apply(op, x, y), ts, acts)
    decreases Size(x) + Size(y)
  {
    hide Combine;
    if x.Leaf? {
      forall a: Par | a <= acts ensures Combine(op, x.par, a) <= acts { CombineCloses(op, x.par, a, acts); }
      OverMapR(b => Combine(op, x.par, b), y, ts, acts);
    } else if y.Leaf? {
      forall a: Par | a <= acts ensures Combine(op, a, y.par) <= acts { CombineCloses(op, a, y.par, acts); }
      OverMapR(a => Combine(op, a, y.par), x, ts, acts);
    } else if x.field == y.field && Same(x.value, y.value) {
      OverApply(op, x.tru, y.tru, ts, acts);
      OverApply(op, x.fls, y.fls, ts, acts);
    } else if x.field == y.field && Before(x.value, y.value) {
      OverRestrict([(x.field, x.value)], y, ts, acts);
      RestrictSize([(x.field, x.value)], y);
      OverApply(op, x.tru, Restrict([(x.field, x.value)], y), ts, acts);
      OverApply(op, x.fls, y, ts, acts);
    } else if x.field == y.field {
      OverRestrict([(y.field, y.value)], x, ts, acts);
      RestrictSize([(y.field, y.value)], x);
      OverApply(op, Restrict([(y.field, y.value)], x), y.tru, ts, acts);
      OverApply(op, x, y.fls, ts, acts);
    } else if x.field < y.field {
      OverApply(op, x.tru, y, ts, acts);
      OverApply(op, x.fls, y, ts, acts);
    } else {
      OverApply(op, x, y.tru, ts, acts);
      OverApply(op, x, y.fls, ts, acts);
    }
  }

  // Sums, branch by branch

  lemma {:induction false} CofMapR(g: Par -> Par, x: Fdd, f: Field, v: Prefix)
    requires Canonical(x) && From(x, f)
    ensures Cof(MapR(g, x), f, v) == MapR(g, Cof(x, f, v))
    ensures Rest(MapR(g, x), f) == MapR(g, Rest(x, f))
  {
    CanonicalMapR(g, x);
    if x.Branch? && x.field == f {
      CanonicalMapR(g, x.tru);
      CofMapR(g, x.fls, f, v);
      assert Below(MapR(g, x.tru), f);
      CofBelow(MapR(g, x.tru), f, v);
      CofRoot(x, v);
      CofRoot(Branch(f, x.value, MapR(g, x.tru), MapR(g, x.fls)), v);
    } else {
      CofBelow(MapR(g, x), f, v);
      CofBelow(x, f, v);
    }
  }

  /** Restricting by a finer test than one already decided changes nothing. */
  lemma {:induction false} CofFiner(y: Fdd, f: Field, v: Prefix, w: Prefix)
    requires Canonical(y) && From(y, f) && After(y, f, v) && Within(w, v)
    ensures Cof(y, f, w) == Cof(y, f, v)
  {
    OrderFacts();
    if y.Branch? && y.field == f {
      CofRoot(y, v);
      CofRoot(y, w);
      CofFiner(y.fls, f, v, w);
    } else {
      CofBelow(y, f, v);
      CofBelow(y, f, w);
    }
  }

  lemma {:induction false} CofPlus(x: Fdd, y: Fdd, f: Field, v: Prefix)
    requires Canonical(x) && Canonical(y) && From(x, f) && From(y, f)
    ensures Cof(Plus(x, y), f, v) == Plus(Cof(x, f, v), Cof(y, f, v))
    ensures Rest(Plus(x, y), f) == Plus(Rest(x, f), Rest(y, f))
    decreases Size(x) + Size(y), 0
  {
    OrderFacts();
    if x.Branch? && x.field == f { CofRoot(x, v); }
    if y.Branch? && y.field == f { CofRoot(y, v); }
    if x.Leaf? {
      CofMapR(b => Combine(SumOp, x.par, b), y, f, v);
    } else if y.Leaf? {
      CofMapR(a => Combine(SumOp, a, y.par), x, f, v);
    } else if x.field > f && y.field > f {
      CanonicalApply(SumOp, x, y);
      CofBelow(x, f, v);
      CofBelow(y, f, v);
      CofBelow(Plus(x, y), f, v);
    } else if x.field == y.field && Same(x.value, y.value) {
      CofNode(x.value, x.tru, y.tru, x.fls, y.fls, f, v);
    } else if x.field == y.field && Before(x.value, y.value) {
      RestrictBelow(y, f, x.value);
      CofNode(x.value, x.tru, Cof(y, f, x.value), x.fls, y, f, v);
      if Within(v, x.value) { CofFiner(y, f, x.value, v); }
    } else if x.field == y.field {
      RestrictBelow(x, f, y.value);
      CofNode(y.value, Cof(x, f, y.value), y.tru, x, y.fls, f, v);
      if Within(v, y.value) { CofFiner(x, f, y.value, v); }
    } else if x.field < y.field {
      CofNode(x.value, x.tru, y, x.fls, y, f, v);
      CofBelow(y, f, v);
    } else {
      CofNode(y.value, x, y.tru, x, y.fls, f, v);
      CofBelow(x, f, v);
    }
  }

  /** The node that a sum makes at a test of `f`. */
  lemma {:induction false} CofNode(l: Prefix, tx: Fdd, ty: Fdd, ex: Fdd, ey: Fdd, f: Field, v: Prefix)
    requires Canonical(tx) && Canonical(ty) && Below(tx, f) && Below(ty, f)
    requires Canonical(ex) && Canonical(ey) && From(ex, f) && From(ey, f)
    ensures var z := MkBranch(f, l, Plus(tx, ty), Plus(ex, ey));
            && Cof(z, f, v) == (if Within(v, l) then Plus(tx, ty) else Plus(Cof(ex, f, v), Cof(ey, f, v)))
            && Rest(z, f) == Plus(Rest(ex, f), Rest(ey, f))
    decreases Size(ex) + Size(ey), 1
  {
    CanonicalApply(SumOp, tx, ty);
    CofBelow(Plus(tx, ty), f, v);
    CofPlus(ex, ey, f, v);
    CofRoot(Branch(f, l, Plus(tx, ty), Plus(ex, ey)), v);
  }

  // A test stays in the chain while a later one still matters

  ghost predicate Matters(z: Fdd, f: Field, w: Prefix) {
    Cof(z, f, w) != Rest(z, f)
  }

  /** `w` is `l` or a later test. */
  predicate AtOrAfter(l: Prefix, w: Prefix) {
    l == w || Before(l, w)
  }

  lemma KeptNode(r: Prefix, t: Fdd, e: Fdd, f: Field, l: Prefix, w: Prefix)
    requires Canonical(t) && Below(t, f) && AtOrAfter(r, l) && AtOrAfter(l, w)
    requires Matters(MkBranch(f, r, t, e), f, w)
    ensures t != e
    ensures l == r ==> l in Chain(MkBranch(f, r, t, e), f)
    ensures l != r ==> Matters(e, f, w)
    ensures Chain(e, f) <= Chain(MkBranch(f, r, t, e), f)
  {
    OrderFacts();
    CofBelow(t, f, w);
    if t != e {
      CofRoot(Branch(f, r, t, e), w);
    }
  }

  lemma {:induction false} KeptMapR(g: Par -> Par, x: Fdd, f: Field, l: Prefix, w: Prefix)
    requires Canonical(x) && l in Chain(x, f) && w in Chain(x, f) && AtOrAfter(l, w)
    requires Matters(MapR(g, x), f, w)
    ensures l in Chain(MapR(g, x), f)
  {
    OrderFacts();
    CanonicalMapR(g, x);
    CanonicalMapR(g, x.tru);
    if l != x.value { ChainAfter(x.fls, f, x.value, l); }
    KeptNode(x.value, MapR(g, x.tru), MapR(g, x.fls), f, l, w);
    if l != x.value {
      KeptMapR(g, x.fls, f, l, w);
    }
  }

  lemma {:induction false} KeptPlus(x: Fdd, y: Fdd, f: Field, l: Prefix, w: Prefix)
    requires Canonical(x) && Canonical(y) && From(x, f) && From(y, f)
    requires l in Chain(x, f) && w in Chain(x, f) && AtOrAfter(l, w)
    requires Matters(Plus(x, y), f, w)
    ensures l in Chain(Plus(x, y), f)
    decreases Size(x) + Size(y)
  {
    hide Combine, Within, Before, Restrict;
    OrderFacts();
    if y.Leaf? {
      if y.par != Neutral(SumOp) { KeptMapR(a => Combine(SumOp, a, y.par), x, f, l, w); }
    } else if y.field > f || (x.field == f && Before(x.value, y.value)) {
      var y' := if y.field > f then y else Cof(y, f, x.value);
      if y.field == f { RestrictBelow(y, f, x.value); }
      CanonicalApply(SumOp, x.tru, y');
      ChainBounds(x, x, f, l, w);
      KeptNode(x.value, Plus(x.tru, y'), Plus(x.fls, y), f, l, w);
      if l != x.value { KeptPlus(x.fls, y, f, l, w); }
    } else if x.field > f || Before(y.value, x.value) {
      var x' := if x.field > f then x else Cof(x, f, y.value);
      if x.field == f { RestrictBelow(x, f, y.value); }
      CanonicalApply(SumOp, x', y.tru);
      ChainBounds(y, x, f, l, w);
      KeptNode(y.value, Plus(x', y.tru), Plus(x, y.fls), f, l, w);
      if l != y.value { KeptPlus(x, y.fls, f, l, w); }
    } else {
      CanonicalApply(SumOp, x.tru, y.tru);
      ChainBounds(x, x, f, l, w);
      KeptNode(x.value, Plus(x.tru, y.tru), Plus(x.fls, y.fls), f, l, w);
      if l != x.value { KeptPlus(x.fls, y.fls, f, l, w); }
    }
  }

  /** Tests of `y`'s chain come no earlier than the root of `x`. */
  lemma ChainBounds(x: Fdd, y: Fdd, f: Field, l: Prefix, w: Prefix)
    requires Canonical(x) && Canonical(y) && x.Branch? && x.field == f
    requires y.Leaf? || y.field > f || (y.field == f && AtOrAfter(x.value, y.value))
    ensures l in Chain(y, f) ==> AtOrAfter(x.value, l)
    ensures w in Chain(y, f) ==> AtOrAfter(x.value, w)
  {
    OrderFacts();
    if y.Branch? && y.field == f {
      if l in Chain(y.fls, f) { ChainAfter(y.fls, f, y.value, l); }
      if w in Chain(y.fls, f) { ChainAfter(y.fls, f, y.value, w); }
    }
  }

  /** In a reduced diagram some test at or after each test of the chain matters. */
  lemma {:induction false} LastMatters(x: Fdd, f: Field, l: Prefix) returns (w: Prefix)
    requires Canonical(x) && From(x, f) && l in Chain(x, f)
    ensures w in Chain(x, f) && AtOrAfter(l, w) && Matters(x, f, w)
  {
    OrderFacts();
    var rest := x.fls;
    if Chain(rest, f) == {} {
      w := x.value;
      CofRoot(x, w);
    } else {
      var k := if l in Chain(rest, f) then l else rest.value;
      ChainAfter(rest, f, x.value, k);
      w := LastMatters(rest, f, k);
      ChainAfter(rest, f, x.value, w);
      CofRoot(x, w);
    }
  }

  /** A sum that agrees with `x` branch by branch keeps all of its tests. */
  lemma ChainGrows(x: Fdd, y: Fdd, f: Field)
    requires Canonical(x) && Canonical(y) && From(x, f) && From(y, f)
    requires forall v :: v in Chain(x, f) ==> Cof(Plus(x, y), f, v) == Cof(x, f, v)
    requires Rest(Plus(x, y), f) == Rest(x, f)
    ensures Chain(x, f) <= Chain(Plus(x, y), f)
  {
    forall l | l in Chain(x, f) ensures l in Chain(Plus(x, y), f) {
      var w := LastMatters(x, f, l);
      KeptPlus(x, y, f, l, w);
    }
  }

  /** A diagram is made of its chain, the branches and the rest. */
  lemma {:induction false} Rebuild(x: Fdd, y: Fdd, f: Field)
    requires Canonical(x) && Canonical(y) && From(x, f) && From(y, f)
    requires Chain(x, f) == Chain(y, f) && Rest(x, f) == Rest(y, f)
    requires forall v :: v in Chain(x, f) ==> Cof(x, f, v) == Cof(y, f, v)
    ensures x == y
  {
    OrderFacts();
    if Chain(x, f) != {} {
      assert x.value in Chain(x, f) && y.value in Chain(y, f);
      if x.value != y.value {
        ChainAfter(y.fls, f, y.value, x.value);
        ChainAfter(x.fls, f, x.value, y.value);
      }
      CofRoot(x, x.value);
      CofRoot(y, x.value);
      forall v | v in Chain(x.fls, f) ensures v in Chain(y.fls, f) && Cof(x.fls, f, v) == Cof(y.fls, f, v) {
        ChainAfter(x.fls, f, x.value, v);
        CofRoot(x, v);
        CofRoot(y, v);
      }
      forall v | v in Chain(y.fls, f) ensures v in Chain(x.fls, f) {
        ChainAfter(y.fls, f, y.value, v);
      }
      Rebuild(x.fls, y.fls, f);
    }
  }

  // Settling

  /** The sequence of summands is canonical and over the given tests and actions. */
  ghost predicate Summands(a: Fdd, p: nat -> Fdd, ts: set<Test>, acts: set<Act>) {
    && Canonical(a) && Over(a, ts, acts)
    && forall n: nat :: Canonical(p(n)) && Over(p(n), ts, acts)
  }

  lemma {:induction false} AccShape(a: Fdd, p: nat -> Fdd, n: nat, ts: set<Test>, acts: set<Act>)
    requires Summands(a, p, ts, acts)
    ensures Canonical(Acc(a, p, n)) && Over(Acc(a, p, n), ts, acts)
  {
    if n > 0 {
      AccShape(a, p, n - 1, ts, acts);
      CanonicalApply(SumOp, Acc(a, p, n - 1), p(n - 1));
      OverApply(SumOp, Acc(a, p, n - 1), p(n - 1), ts, acts);
    }
  }

  lemma {:induction false} OverFrom(x: Fdd, f: Field, ts: set<Test>, acts: set<Act>)
    requires Over(x, ts, acts) && forall t :: t in ts ==> f <= t.0
    ensures From(x, f)
  {
  }

  function Without(ts: set<Test>, f: Field): set<Test> {
    set t | t in ts && t.0 != f
  }

  /** Without tests of `f`, only the other tests are left. */
  lemma {:induction false} OverWithout(x: Fdd, f: Field, ts: set<Test>, acts: set<Act>)
    requires Over(x, ts, acts) && !Tests(x, f)
    ensures Over(x, Without(ts, f), acts)
  {
    if x.Branch? {
      OverWithout(x.tru, f, ts, acts);
      OverWithout(x.fls, f, ts, acts);
    }
  }

  ghost function CofSeq(p: nat -> Fdd, f: Field, v: Prefix): nat -> Fdd {
    (n: nat) => Cof(p(n), f, v)
  }

  ghost function RestSeq(p: nat -> Fdd, f: Field): nat -> Fdd {
    (n: nat) => Rest(p(n), f)
  }

  lemma {:induction false} AccCof(a: Fdd, p: nat -> Fdd, n: nat, f: Field, v: Prefix, ts: set<Test>, acts: set<Act>)
    requires Summands(a, p, ts, acts) && forall t :: t in ts ==> f <= t.0
    ensures Cof(Acc(a, p, n), f, v) == Acc(Cof(a, f, v), CofSeq(p, f, v), n)
    ensures Rest(Acc(a, p, n), f) == Acc(Rest(a, f), RestSeq(p, f), n)
  {
    if n > 0 {
      AccCof(a, p, n - 1, f, v, ts, acts);
      AccShape(a, p, n - 1, ts, acts);
      OverFrom(Acc(a, p, n - 1), f, ts, acts);
      OverFrom(p(n - 1), f, ts, acts);
      CofPlus(Acc(a, p, n - 1), p(n - 1), f, v);
    }
  }

  lemma CofSummands(a: Fdd, p: nat -> Fdd, f: Field, v: Prefix, ts: set<Test>, acts: set<Act>)
    requires Summands(a, p, ts, acts)
    ensures Summands(Cof(a, f, v), CofSeq(p, f, v), Without(ts, f), acts)
  {
    CofShape(a, f, v, ts, acts);
    forall n: nat { CofShape(p(n), f, v, ts, acts); }
  }

  lemma CofShape(x: Fdd, f: Field, v: Prefix, ts: set<Test>, acts: set<Act>)
    requires Canonical(x) && Over(x, ts, acts)
    ensures Canonical(Cof(x, f, v)) && Over(Cof(x, f, v), Without(ts, f), acts)
  {
    CanonicalRestrict([(f, v)], x);
    RestrictRemoves([(f, v)], x, 0);
    OverRestrict([(f, v)], x, ts, acts);
    OverWithout(Cof(x, f, v), f, ts, acts);
  }

  lemma RestSummands(a: Fdd, p: nat -> Fdd, f: Field, ts: set<Test>, acts: set<Act>)
    requires Summands(a, p, ts, acts) && forall t :: t in ts ==> f <= t.0
    ensures Summands(Rest(a, f), RestSeq(p, f), Without(ts, f), acts)
  {
    RestOver(a, f, ts, acts);
    forall n: nat { RestOver(p(n), f, ts, acts); }
  }

  lemma RestOver(x: Fdd, f: Field, ts: set<Test>, acts: set<Act>)
    requires Canonical(x) && Over(x, ts, acts) && forall t :: t in ts ==> f <= t.0
    ensures Canonical(Rest(x, f)) && Over(Rest(x, f), Without(ts, f), acts)
  {
    OverFrom(x, f, ts, acts);
    RestShape(x, f);
    OverRest(x, f, ts, acts);
    BelowTests(Rest(x, f), f);
    OverWithout(Rest(x, f), f, ts, acts);
  }

  lemma StableLater(a: Fdd, p: nat -> Fdd, m: nat, n: nat)
    requires Stable(a, p, m) && m <= n
    ensures Stable(a, p, n)
  {
  }

  /** Every sum of diagrams over finitely many tests and actions settles. */
  lemma {:induction false} Settles(a: Fdd, p: nat -> Fdd, ts: set<Test>, acts: set<Act>) returns (n: nat)
    requires Summands(a, p, ts, acts)
    ensures Stable(a, p, n)
    decreases |ts|, 0
  {
    hide Acc;
    if ts == {} {
      n := LeavesSettle(a, p, acts);
    } else {
      var fields := set t | t in ts :: t.0;
      assert forall t :: t in ts ==> t.0 in fields;
      assert Pick(ts).0 in fields;
      var f := LeastField(fields);
      var fewer := Without(ts, f);
      assert |fewer| < |ts| by {
        var t :| t in ts && t.0 == f;
        assert fewer <= ts - {t};
        SubsetSize(fewer, ts - {t});
      }
      var vs := set t | t in ts && t.0 == f :: t.1;
      var m := BranchesSettle(a, p, f, vs, ts, acts);
      RestSummands(a, p, f, ts, acts);
      var m' := Settles(Rest(a, f), RestSeq(p, f), fewer, acts);
      var k := if m < m' then m' else m;
      forall v | v in vs ensures Stable(Cof(a, f, v), CofSeq(p, f, v), k) {
        StableLater(Cof(a, f, v), CofSeq(p, f, v), m, k);
      }
      StableLater(Rest(a, f), RestSeq(p, f), m', k);
      n := ChainsSettle(a, p, f, vs, ts, acts, k);
    }
  }

  lemma {:induction false} LeavesSettle(a: Fdd, p: nat -> Fdd, acts: set<Act>) returns (n: nat)
    requires Summands(a, p, {}, acts)
    ensures Stable(a, p, n)
  {
    forall k: nat ensures Acc(a, p, k).Leaf? && Acc(a, p, k).par <= acts { AccShape(a, p, k, {}, acts); }
    var s := (k: nat) => if Acc(a, p, k).Leaf? then Acc(a, p, k).par else {};
    forall k: nat ensures s(k) <= s(k + 1) && s(k) <= acts {
      assert Acc(a, p, k + 1) == Plus(Acc(a, p, k), p(k)) && p(k).Leaf?;
    }
    n := GrowingSetsSettle(s, acts, 0);
    forall k: nat | n <= k ensures Acc(a, p, k) == Acc(a, p, n) {
      assert s(k) == s(n);
    }
  }

  lemma {:induction false} BranchesSettle(a: Fdd, p: nat -> Fdd, f: Field, vs: set<Prefix>, ts: set<Test>,
                                          acts: set<Act>) returns (n: nat)
    requires Summands(a, p, ts, acts) && |Without(ts, f)| < |ts|
    ensures forall v :: v in vs ==> Stable(Cof(a, f, v), CofSeq(p, f, v), n)
    decreases |Without(ts, f)|, 1 + |vs|
  {
    hide Acc;
    n := 0;
    if v :| v in vs {
      var m := BranchesSettle(a, p, f, vs - {v}, ts, acts);
      CofSummands(a, p, f, v, ts, acts);
      var m' := Settles(Cof(a, f, v), CofSeq(p, f, v), Without(ts, f), acts);
      n := if m < m' then m' else m;
      forall w | w in vs ensures Stable(Cof(a, f, w), CofSeq(p, f, w), n) {
        StableLater(Cof(a, f, w), CofSeq(p, f, w), if w == v then m' else m, n);
      }
    }
  }

  /** All branches at tests of `f`, and the rest, are stable from `m` on. */
  ghost predicate BranchesStable(a: Fdd, p: nat -> Fdd, f: Field, vs: set<Prefix>, ts: set<Test>, m: nat) {
    && (forall t :: t in ts ==> f <= t.0)
    && vs == (set t | t in ts && t.0 == f :: t.1)
    && (forall v :: v in vs ==> Stable(Cof(a, f, v), CofSeq(p, f, v), m))
    && Stable(Rest(a, f), RestSeq(p, f), m)
  }

  lemma AccBranches(a: Fdd, p: nat -> Fdd, f: Field, vs: set<Prefix>, ts: set<Test>, acts: set<Act>, m: nat, k: nat)
    requires Summands(a, p, ts, acts) && BranchesStable(a, p, f, vs, ts, m) && m <= k
    ensures Canonical(Acc(a, p, k)) && From(Acc(a, p, k), f) && Chain(Acc(a, p, k), f) <= vs
    ensures forall v :: v in vs ==> Cof(Acc(a, p, k), f, v) == Cof(Acc(a, p, m), f, v)
    ensures Rest(Acc(a, p, k), f) == Rest(Acc(a, p, m), f)
  {
    AccShape(a, p, k, ts, acts);
    OverFrom(Acc(a, p, k), f, ts, acts);
    OverChain(Acc(a, p, k), f, ts, acts);
    forall v | v in Chain(Acc(a, p, k), f) ensures v in vs { assert (f, v) in ts; }
    forall v | v in vs ensures Cof(Acc(a, p, k), f, v) == Cof(Acc(a, p, m), f, v) {
      AccCof(a, p, k, f, v, ts, acts);
      AccCof(a, p, m, f, v, ts, acts);
    }
    AccCof(a, p, k, f, Full(0), ts, acts);
    AccCof(a, p, m, f, Full(0), ts, acts);
  }

  /** Once all branches are stable, the chain only grows. */
  lemma ChainStep(a: Fdd, p: nat -> Fdd, f: Field, vs: set<Prefix>, ts: set<Test>, acts: set<Act>, m: nat, k: nat)
    requires Summands(a, p, ts, acts) && BranchesStable(a, p, f, vs, ts, m) && m <= k
    ensures Chain(Acc(a, p, k), f) <= Chain(Acc(a, p, k + 1), f)
  {
    AccBranches(a, p, f, vs, ts, acts, m, k);
    AccBranches(a, p, f, vs, ts, acts, m, k + 1);
    OverFrom(p(k), f, ts, acts);
    assert Acc(a, p, k + 1) == Plus(Acc(a, p, k), p(k));
    ChainGrows(Acc(a, p, k), p(k), f);
  }

  lemma SameChainSame(a: Fdd, p: nat -> Fdd, f: Field, vs: set<Prefix>, ts: set<Test>, acts: set<Act>, m: nat, j: nat,
                      k: nat)
    requires Summands(a, p, ts, acts) && BranchesStable(a, p, f, vs, ts, m) && m <= j && m <= k
    requires Chain(Acc(a, p, j), f) == Chain(Acc(a, p, k), f)
    ensures Acc(a, p, j) == Acc(a, p, k)
  {
    AccBranches(a, p, f, vs, ts, acts, m, j);
    AccBranches(a, p, f, vs, ts, acts, m, k);
    Rebuild(Acc(a, p, j), Acc(a, p, k), f);
  }

  ghost function Chains(a: Fdd, p: nat -> Fdd, f: Field): nat -> set<Prefix> {
    (k: nat) => Chain(Acc(a, p, k), f)
  }

  lemma {:induction false} ChainsSettle(a: Fdd, p: nat -> Fdd, f: Field, vs: set<Prefix>, ts: set<Test>, acts: set<Act>,
                                        m: nat) returns (n: nat)
    requires Summands(a, p, ts, acts) && BranchesStable(a, p, f, vs, ts, m)
    ensures Stable(a, p, n)
  {
    hide Acc, Chain;
    var s := Chains(a, p, f);
    forall k: nat | m <= k ensures s(k) <= s(k + 1) && s(k) <= vs {
      AccBranches(a, p, f, vs, ts, acts, m, k);
      ChainStep(a, p, f, vs, ts, acts, m, k);
    }
    n := GrowingSetsSettle(s, vs, m);
    forall k: nat | n <= k ensures Acc(a, p, k) == Acc(a, p, n) {
      assert s(k) == s(n);
      SameChainSame(a, p, f, vs, ts, acts, m, k, n);
    }
  }
}
