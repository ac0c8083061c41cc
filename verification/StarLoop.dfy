/** The fixpoint loop that compiles iteration. */
module StarLoop {

  import opened Prefixes
  import opened Wrappers
  import opened Actions
  import opened Fdds
  import opened Sequencing
  import opened Stabilization
  import Semantics

  /** The loop started with `acc` and `power` ends after at most `n` rounds. */
  ghost predicate EndsWithin(acc: Fdd, power: Fdd, t: Fdd, n: nat)
    decreases n
  {
    var power' := SeqFdd(power, t);
    var acc' := Plus(acc, power');
    acc == acc' || (n > 0 && EndsWithin(acc', power', t, n - 1))
  }

  ghost function Loop(acc: Fdd, power: Fdd, t: Fdd, n: nat): Fdd
    requires EndsWithin(acc, power, t, n)
    decreases n
  {
    var power' := SeqFdd(power, t);
    var acc' := Plus(acc, power');
    if acc == acc' then acc else Loop(acc', power', t, n - 1)
  }

  /** `star' lhs t` */
  ghost function StarFrom(lhs: Fdd, t: Fdd): Fdd
    requires Canonical(lhs) && Canonical(t)
  {
    StarEnds(lhs, t);
    var n: nat :| EndsWithin(ID, lhs, t, n);
    Loop(ID, lhs, t, n)
  }

  ghost function StarFdd(t: Fdd): Fdd
    requires Canonical(t)
  {
    StarFrom(ID, t)
  }

  ghost function Power(lhs: Fdd, t: Fdd, n: nat): Fdd {
    if n == 0 then lhs else SeqFdd(Power(lhs, t, n - 1), t)
  }

  ghost function Powers(lhs: Fdd, t: Fdd): nat -> Fdd {
    (n: nat) => Power(lhs, t, n + 1)
  }

  // The loop ends

  function TestsOf(x: Fdd): set<Test> {
    match x
    case Leaf(_) => {}
    case Branch(f, v, t, e) => {(f, v)} + TestsOf(t) + TestsOf(e)
  }

  function ActsOf(x: Fdd): set<Act> {
    match x
    case Leaf(par) => par
    case Branch(_, _, t, e) => ActsOf(t) + ActsOf(e)
  }

  lemma {:induction false} OverSelf(x: Fdd, ts: set<Test>, acts: set<Act>)
    requires TestsOf(x) <= ts && ActsOf(x) <= acts
    ensures Over(x, ts, acts)
  {
    if x.Branch? {
      OverSelf(x.tru, ts, acts);
      OverSelf(x.fls, ts, acts);
    }
  }

  /** A finite set of actions that holds `base` and all its compositions. */
  lemma Closure(base: set<Act>) returns (acts: set<Act>)
    ensures base <= acts && Closed(acts)
    ensures forall s, f :: s in acts && f in s.mods ==> exists r :: r in base && f in r.mods
  {
    var items := set s, f | s in base && f in s.mods :: (f, s.mods[f]);
    var conts := (set s | s in base :: s.cont) + {None};
    var maps := Semantics.PartialMaps(items);
    acts := set m, c | m in maps && c in conts :: Act(m, c);
    Semantics.InPartialMaps(map[], items);
    assert SKIP in acts by { assert SKIP == Act(map[], None); }
    forall s | s in base ensures s in acts {
      Semantics.InPartialMaps(s.mods, items);
      assert s == Act(s.mods, s.cont);
    }
    forall s, f | s in acts && f in s.mods ensures exists r :: r in base && f in r.mods {
      Semantics.OfPartialMaps(s.mods, items);
      assert (f, s.mods[f]) in items;
    }
    forall s, t | s in acts && t in acts ensures Merge(s, t) in acts {
      Semantics.OfPartialMaps(s.mods, items);
      Semantics.OfPartialMaps(t.mods, items);
      Semantics.InPartialMaps(s.mods + t.mods, items);
    }
  }

  lemma {:induction false} OverSeqLeaf(par: Par, u: Fdd, ts: set<Test>, acts: set<Act>)
    requires par <= acts && Over(u, ts, acts) && Closed(acts)
    ensures Over(SeqLeaf(par, u), ts, acts)
  {
    if par != {} {
      var s := Pick(par);
      OverRestrict(Hvs(s.mods), u, ts, acts);
      OverApply(ProdOp, Leaf({s}), Restrict(Hvs(s.mods), u), ts, acts);
      OverSeqLeaf(par - {s}, u, ts, acts);
      OverApply(SumOp, Times(Leaf({s}), Restrict(Hvs(s.mods), u)), SeqLeaf(par - {s}, u), ts, acts);
    }
  }

  lemma OverCond(f: Field, v: Prefix, t: Fdd, e: Fdd, ts: set<Test>, acts: set<Act>)
    requires (f, v) in ts && Over(t, ts, acts) && Over(e, ts, acts) && Closed(acts)
    ensures Over(Cond(f, v, t, e), ts, acts)
  {
    var a, b := Atom(f, v, ONE, ZERO), Atom(f, v, ZERO, ONE);
    OverApply(ProdOp, a, t, ts, acts);
    OverApply(ProdOp, b, e, ts, acts);
    OverApply(SumOp, Times(a, t), Times(b, e), ts, acts);
  }

  lemma {:induction false} OverSeqMap(t: Fdd, u: Fdd, ts: set<Test>, acts: set<Act>)
    requires Over(t, ts, acts) && Over(u, ts, acts) && Closed(acts)
    ensures Over(SeqMap(t, u), ts, acts)
  {
    match t
    case Leaf(par) => OverSeqLeaf(par, u, ts, acts);
    case Branch(f, v, tru, fls) =>
      OverSeqMap(tru, u, ts, acts);
      OverSeqMap(fls, u, ts, acts);
      OverCond(f, v, SeqMap(tru, u), SeqMap(fls, u), ts, acts);
  }

  lemma {:induction false} PowerShape(lhs: Fdd, t: Fdd, n: nat, ts: set<Test>, acts: set<Act>)
    requires Canonical(lhs) && Canonical(t)
    requires Over(lhs, ts, acts) && Over(t, ts, acts) && Closed(acts)
    ensures Canonical(Power(lhs, t, n)) && Over(Power(lhs, t, n), ts, acts)
  {
    if n > 0 {
      PowerShape(lhs, t, n - 1, ts, acts);
      CanonicalSeq(Power(lhs, t, n - 1), t);
      if t.Leaf? {
        OverApply(ProdOp, Power(lhs, t, n - 1), t, ts, acts);
      } else {
        OverSeqMap(Power(lhs, t, n - 1), t, ts, acts);
      }
    }
  }

  /** The accumulator after `n` rounds. */
  ghost function Sums(lhs: Fdd, t: Fdd, n: nat): Fdd {
    if n == 0 then ID else Plus(Sums(lhs, t, n - 1), Power(lhs, t, n))
  }

  lemma {:induction false} SumsIsAcc(lhs: Fdd, t: Fdd, n: nat)
    ensures Sums(lhs, t, n) == Acc(ID, Powers(lhs, t), n)
  {
    hide Apply;
    if n > 0 {
      SumsIsAcc(lhs, t, n - 1);
    }
  }

  lemma {:induction false} EndsWhenStable(lhs: Fdd, t: Fdd, k: nat, n: nat)
    requires k <= n && Sums(lhs, t, n) == Sums(lhs, t, n + 1)
    ensures EndsWithin(Sums(lhs, t, k), Power(lhs, t, k), t, n - k)
    decreases n - k
  {
    hide Apply, SeqFdd;
    if k < n {
      EndsWhenStable(lhs, t, k + 1, n);
    }
  }

  lemma SumsSettle(lhs: Fdd, t: Fdd) returns (n: nat)
    requires Canonical(lhs) && Canonical(t)
    ensures Sums(lhs, t, n) == Sums(lhs, t, n + 1)
  {
    hide Apply, SeqFdd;
    var ts := TestsOf(lhs) + TestsOf(t);
    var acts := Closure(ActsOf(lhs) + ActsOf(t));
    OverSelf(lhs, ts, acts);
    OverSelf(t, ts, acts);
    forall n: nat ensures Canonical(Powers(lhs, t)(n)) && Over(Powers(lhs, t)(n), ts, acts) {
      PowerShape(lhs, t, n + 1, ts, acts);
    }
    n := Settles(ID, Powers(lhs, t), ts, acts);
    SumsIsAcc(lhs, t, n);
    SumsIsAcc(lhs, t, n + 1);
  }

  /** The loop of `star'` ends, whatever diagrams it is given. */
  lemma StarEnds(lhs: Fdd, t: Fdd)
    requires Canonical(lhs) && Canonical(t)
    ensures exists n: nat :: EndsWithin(ID, lhs, t, n)
  {
    hide Apply, SeqFdd;
    var n := SumsSettle(lhs, t);
    EndsWhenStable(lhs, t, 0, n);
  }

  // What it computes

  lemma {:induction false} LoopIsSums(lhs: Fdd, t: Fdd, k: nat, n: nat) returns (m: nat)
    requires EndsWithin(Sums(lhs, t, k), Power(lhs, t, k), t, n)
    ensures Loop(Sums(lhs, t, k), Power(lhs, t, k), t, n) == Sums(lhs, t, m) == Sums(lhs, t, m + 1)
    decreases n
  {
    hide Apply, SeqFdd;
    if Sums(lhs, t, k) == Sums(lhs, t, k + 1) {
      m := k;
    } else {
      m := LoopIsSums(lhs, t, k + 1, n - 1);
    }
  }

  lemma {:induction false} CanonicalPower(lhs: Fdd, t: Fdd, n: nat)
    requires Canonical(lhs) && Canonical(t)
    ensures Canonical(Power(lhs, t, n))
  {
    hide Apply, SeqFdd;
    if n > 0 {
      CanonicalPower(lhs, t, n - 1);
      CanonicalSeq(Power(lhs, t, n - 1), t);
    }
  }

  lemma {:induction false} CanonicalSums(lhs: Fdd, t: Fdd, n: nat)
    requires Canonical(lhs) && Canonical(t)
    ensures Canonical(Sums(lhs, t, n))
  {
    hide Apply, SeqFdd;
    if n > 0 {
      CanonicalSums(lhs, t, n - 1);
      CanonicalPower(lhs, t, n);
      CanonicalApply(SumOp, Sums(lhs, t, n - 1), Power(lhs, t, n));
    }
  }

  ghost predicate InPower(lhs: Fdd, t: Fdd, p: Packet, s: Act, n: nat) {
    s in Lookup(Power(lhs, t, n), p)
  }

  ghost predicate InPowers(lhs: Fdd, t: Fdd, p: Packet, s: Act, hi: nat) {
    exists k: nat :: 1 <= k <= hi && InPower(lhs, t, p, s, k)
  }

  lemma {:induction false} SumsMeaning(lhs: Fdd, t: Fdd, n: nat, p: Packet, s: Act)
    requires Canonical(lhs) && Canonical(t)
    ensures s in Lookup(Sums(lhs, t, n), p) <==> s == SKIP || InPowers(lhs, t, p, s, n)
  {
    hide Apply, SeqFdd;
    if n > 0 {
      SumsMeaning(lhs, t, n - 1, p, s);
      CanonicalSums(lhs, t, n - 1);
      CanonicalPower(lhs, t, n);
      PlusMeaning(Sums(lhs, t, n - 1), Power(lhs, t, n), p);
      assert s in Lookup(Power(lhs, t, n), p) <==> InPower(lhs, t, p, s, n);
      assert InPowers(lhs, t, p, s, n - 1) ==> InPowers(lhs, t, p, s, n);
      if InPowers(lhs, t, p, s, n) {
        var k: nat :| 1 <= k <= n && InPower(lhs, t, p, s, k);
        assert k < n ==> InPowers(lhs, t, p, s, n - 1);
        assert k == n ==> s in Lookup(Power(lhs, t, n), p);
      }
    }
  }

  lemma PowerSplit(lhs: Fdd, t: Fdd, n: nat, p: Packet, s: Act) returns (a: Act, r: Act)
    requires Canonical(lhs) && Canonical(t) && InPower(lhs, t, p, s, n + 1)
    ensures InPower(lhs, t, p, a, n) && r in Lookup(t, Run(a, p)) && s == Merge(a, r)
  {
    hide Apply, SeqFdd;
    CanonicalPower(lhs, t, n);
    SeqMeaning(Power(lhs, t, n), t, p);
    a, r :| a in Lookup(Power(lhs, t, n), p) && r in Lookup(t, Run(a, p)) && s == Merge(a, r);
  }

  lemma PowerExtend(lhs: Fdd, t: Fdd, n: nat, p: Packet, a: Act, r: Act)
    requires Canonical(lhs) && Canonical(t) && InPower(lhs, t, p, a, n) && r in Lookup(t, Run(a, p))
    ensures InPower(lhs, t, p, Merge(a, r), n + 1)
  {
    hide Apply, SeqFdd;
    CanonicalPower(lhs, t, n);
    SeqMeaning(Power(lhs, t, n), t, p);
  }

  /** Doing nothing is a power only if it is already in the first factor. */
  lemma {:induction false} SkipInPower(lhs: Fdd, t: Fdd, n: nat, p: Packet)
    requires Canonical(lhs) && Canonical(t) && InPower(lhs, t, p, SKIP, n)
    ensures InPower(lhs, t, p, SKIP, 0)
  {
    hide Apply, SeqFdd;
    if n > 0 {
      var a, r := PowerSplit(lhs, t, n - 1, p, SKIP);
      assert a.mods == map[] by { assert forall f :: f in a.mods ==> f in SKIP.mods; }
      SkipInPower(lhs, t, n - 1, p);
    }
  }

  /** When a round adds nothing, no later round does. */
  lemma {:induction false} PowersCovered(lhs: Fdd, t: Fdd, m: nat, n: nat, p: Packet, s: Act)
    requires Canonical(lhs) && Canonical(t) && n >= 1
    requires Sums(lhs, t, m) == Sums(lhs, t, m + 1)
    requires InPower(lhs, t, p, s, n)
    ensures s == SKIP || InPowers(lhs, t, p, s, m)
    decreases n
  {
    hide Apply, SeqFdd;
    SumsMeaning(lhs, t, m, p, s);
    SumsMeaning(lhs, t, m + 1, p, s);
    if n > m + 1 {
      var a, r := PowerSplit(lhs, t, n - 1, p, s);
      PowersCovered(lhs, t, m, n - 1, p, a);
      var k: nat := 0;
      if a == SKIP {
        SkipInPower(lhs, t, n - 1, p);
      } else {
        k :| 1 <= k <= m && InPower(lhs, t, p, a, k);
      }
      PowerExtend(lhs, t, k, p, a, r);
      assert InPowers(lhs, t, p, s, m + 1);
    }
  }

  /** `star' lhs t` is the identity and all of `lhs; t`, `lhs; t; t`, ... */
  lemma StarFromMeaning(lhs: Fdd, t: Fdd, p: Packet, s: Act)
    requires Canonical(lhs) && Canonical(t)
    ensures Canonical(StarFrom(lhs, t))
    ensures s in Lookup(StarFrom(lhs, t), p) <==> s == SKIP || exists n: nat :: n >= 1 && InPower(lhs, t, p, s, n)
  {
    hide Apply, SeqFdd;
    StarEnds(lhs, t);
    var k: nat :| EndsWithin(ID, lhs, t, k) && StarFrom(lhs, t) == Loop(ID, lhs, t, k);
    var m := LoopIsSums(lhs, t, 0, k);
    CanonicalSums(lhs, t, m);
    SumsMeaning(lhs, t, m, p, s);
    if n: nat :| n >= 1 && InPower(lhs, t, p, s, n) {
      PowersCovered(lhs, t, m, n, p, s);
    }
  }

  /** Iteration is all the powers of `t`. */
  lemma StarMeaning(t: Fdd, p: Packet, s: Act)
    requires Canonical(t)
    ensures Canonical(StarFdd(t))
    ensures s in Lookup(StarFdd(t), p) <==> exists n: nat :: InPower(ID, t, p, s, n)
  {
    hide Apply, SeqFdd;
    StarFromMeaning(ID, t, p, s);
    assert InPower(ID, t, p, SKIP, 0);
    if InPower(ID, t, p, s, 0) { assert s == SKIP; }
  }

  /** The result is one of the accumulators. */
  lemma StarIsSums(t: Fdd) returns (m: nat)
    requires Canonical(t)
    ensures StarFdd(t) == Sums(ID, t, m)
  {
    hide Loop, EndsWithin, Apply, SeqFdd;
    StarEnds(ID, t);
    var k: nat :| EndsWithin(ID, ID, t, k) && StarFdd(t) == Loop(ID, ID, t, k);
    assert Sums(ID, t, 0) == ID && Power(ID, t, 0) == ID;
    m := LoopIsSums(ID, t, 0, k);
  }
}
