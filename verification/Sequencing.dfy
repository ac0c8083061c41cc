/** Sequential composition of decision diagrams. */
module Sequencing {

  import opened Wrappers
  import opened Actions
  import opened Fdds

  /** Each action of the leaf, followed by `u` as its result sees it.  The
      source folds over the set in some order; the meaning is the same in all. */
  ghost function SeqLeaf(par: Par, u: Fdd): Fdd {
    if par == {} then DROP
    else
      var s := Pick(par);
      Plus(Times(Leaf({s}), Restrict(Hvs(s.mods), u)), SeqLeaf(par - {s}, u))
  }

  ghost function SeqMap(t: Fdd, u: Fdd): Fdd {
    match t
    case Leaf(par) => SeqLeaf(par, u)
    case Branch(f, v, tru, fls) => Cond(f, v, SeqMap(tru, u), SeqMap(fls, u))
  }

  ghost function SeqFdd(t: Fdd, u: Fdd): Fdd {
    if u.Leaf? then Times(t, u) else SeqMap(t, u)
  }

  lemma {:induction false} CanonicalSeqLeaf(par: Par, u: Fdd)
    requires Canonical(u)
    ensures Canonical(SeqLeaf(par, u))
  {
    hide Apply, Restrict;
    if par != {} {
      var s := Pick(par);
      CanonicalRestrict(Hvs(s.mods), u);
      CanonicalApply(ProdOp, Leaf({s}), Restrict(Hvs(s.mods), u));
      CanonicalSeqLeaf(par - {s}, u);
      CanonicalApply(SumOp, Times(Leaf({s}), Restrict(Hvs(s.mods), u)), SeqLeaf(par - {s}, u));
    }
  }

  lemma {:induction false} CanonicalSeqMap(t: Fdd, u: Fdd)
    requires Canonical(t) && Canonical(u)
    ensures Canonical(SeqMap(t, u))
  {
    hide Apply, Cond;
    match t
    case Leaf(par) => CanonicalSeqLeaf(par, u);
    case Branch(f, v, tru, fls) =>
      CanonicalSeqMap(tru, u);
      CanonicalSeqMap(fls, u);
      CanonicalCond(f, v, SeqMap(tru, u), SeqMap(fls, u));
  }

  lemma CanonicalSeq(t: Fdd, u: Fdd)
    requires Canonical(t) && Canonical(u)
    ensures Canonical(SeqFdd(t, u))
  {
    if u.Leaf? {
      CanonicalApply(ProdOp, t, u);
    } else {
      CanonicalSeqMap(t, u);
    }
  }

  /** The actions of `par`, each followed by an action `u` takes on its result. */
  function Then(par: Par, u: Fdd, p: Packet): Par {
    set s, r | s in par && r in Lookup(u, Run(s, p)) :: Merge(s, r)
  }

  lemma {:induction false} SeqLeafMeaning(par: Par, u: Fdd, p: Packet)
    requires Canonical(u)
    ensures Lookup(SeqLeaf(par, u), p) == Then(par, u, p)
  {
    hide Apply, Restrict;
    if par != {} {
      var s := Pick(par);
      var r := Restrict(Hvs(s.mods), u);
      CanonicalRestrict(Hvs(s.mods), u);
      CanonicalApply(ProdOp, Leaf({s}), r);
      CanonicalSeqLeaf(par - {s}, u);
      PlusMeaning(Times(Leaf({s}), r), SeqLeaf(par - {s}, u), p);
      TimesMeaning(Leaf({s}), r, p);
      RestrictRun(s.mods, u, p);
      SeqLeafMeaning(par - {s}, u, p);
      assert Products({s}, Lookup(r, p)) == Then({s}, u, p);
      ThenSplits(par, s, u, p);
    }
  }

  lemma ThenSplits(par: Par, s: Act, u: Fdd, p: Packet)
    requires s in par
    ensures Then(par, u, p) == Then({s}, u, p) + Then(par - {s}, u, p)
  {
  }

  lemma {:induction false} SeqMapMeaning(t: Fdd, u: Fdd, p: Packet)
    requires Canonical(t) && Canonical(u)
    ensures Lookup(SeqMap(t, u), p) == Then(Lookup(t, p), u, p)
  {
    hide Apply, Cond;
    match t
    case Leaf(par) => SeqLeafMeaning(par, u, p);
    case Branch(f, v, tru, fls) =>
      CanonicalSeqMap(tru, u);
      CanonicalSeqMap(fls, u);
      CondMeaning(f, v, SeqMap(tru, u), SeqMap(fls, u), p);
      SeqMapMeaning(tru, u, p);
      SeqMapMeaning(fls, u, p);
  }

  /** `seq` takes an action of `t` and then an action `u` takes on its result. */
  lemma SeqMeaning(t: Fdd, u: Fdd, p: Packet)
    requires Canonical(t) && Canonical(u)
    ensures Lookup(SeqFdd(t, u), p) == Then(Lookup(t, p), u, p)
  {
    hide Apply;
    if u.Leaf? {
      TimesMeaning(t, u, p);
      assert Products(Lookup(t, p), u.par) == Then(Lookup(t, p), u, p);
    } else {
      SeqMapMeaning(t, u, p);
    }
  }
}
