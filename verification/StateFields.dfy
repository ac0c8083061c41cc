/** The states of a policy use only fields that the policy uses. */
module StateFields {

  import opened Actions
  import opened Fdds
  import opened Sequencing
  import opened StarLoop
  import opened LocalCompiler
  import opened FieldUse
  import opened Traces
  import opened Splitting
  import opened SplitStates
  import opened Automata
  import opened Minimization
  import opened NetworkPolicies
  import S = Semantics

  predicate PolLeaves(f: Field, pol: Pol) {
    match pol
    case Filter(a) => PredLeaves(f, a)
    case Mod(hv) => hv.field != f
    case Union(a, b) => PolLeaves(f, a) && PolLeaves(f, b)
    case Seq(a, b) => PolLeaves(f, a) && PolLeaves(f, b)
    case Star(a) => PolLeaves(f, a)
    case Dup => true
    case Inject(e, d) => Free(f, (e, d))
  }

  predicate AllLeave(f: Field, ks: seq<(int, Pol)>) {
    forall k :: k in ks ==> PolLeaves(f, k.1)
  }

  lemma AppendLeaves(f: Field, ks: seq<(int, Pol)>, e: Fdd, d: Fdd)
    requires AllLeave(f, ks) && Free(f, (e, d))
    ensures AllLeave(f, Append(ks, MkInject(e, d)))
  {
    hide Free;
    var r := Append(ks, MkInject(e, d));
    forall k | k in r ensures PolLeaves(f, k.1) {
      var i :| 0 <= i < |r| && r[i] == k;
      assert ks[i] in ks;
    }
  }

  lemma {:induction false} SplitFree(f: Field, next: int, pol: Pol)
    requires Shaped(pol) && PolLeaves(f, pol)
    ensures var s := SplitPol(next, pol);
            Canonical(s.e) && Free(f, (s.e, s.d)) && AllLeave(f, s.ks)
    decreases pol
  {
    hide OfPred, SeqFdd, StarFdd, Apply, Canonical, Unused, Append, MkInject;
    match pol
    case Filter(a) =>
      UnusedPred(f, a);
      NothingUsed(f, next);
    case Mod(hv) =>
      ModUnused(f, hv);
      NothingUsed(f, next);
    case Union(a, b) =>
      SplitUnion(next, a, b);
      SplitFree(f, next, a);
      SplitFree(f, next + Dups(a), b);
      var p, q := SplitPol(next, a), SplitPol(next + Dups(a), b);
      UnusedApply(f, SumOp, p.e, q.e);
      UnusedApply(f, SumOp, p.d, q.d);
    case Seq(a, b) =>
      SplitSeq(next, a, b);
      SplitFree(f, next, a);
      SplitFree(f, next + Dups(a), b);
      var p, q := SplitPol(next, a), SplitPol(next + Dups(a), b);
      UnusedSeq(f, p.e, q.e);
      UnusedSeq(f, p.e, q.d);
      UnusedApply(f, SumOp, p.d, SeqFdd(p.e, q.d));
      AppendLeaves(f, p.ks, q.e, q.d);
    case Star(a) =>
      SplitStar(next, a);
      SplitFree(f, next, a);
      var p := SplitPol(next, a);
      UnusedStar(f, p.e);
      UnusedSeq(f, StarFdd(p.e), p.d);
      AppendLeaves(f, p.ks, StarFdd(p.e), SeqFdd(StarFdd(p.e), p.d));
    case Dup => NothingUsed(f, next);
    case Inject(e, d) =>
  }

  lemma NothingUsed(f: Field, next: int)
    ensures Unused(f, DROP) && Unused(f, MkCont(next)) && PolLeaves(f, YES)
  {
  }

  lemma ModUnused(f: Field, hv: S.HeaderVal)
    requires hv.field != f
    ensures Unused(f, OfMod(hv))
  {
  }

  lemma StatesFree(f: Field, pol: Pol)
    requires Plain(pol) && PolLeaves(f, pol)
    ensures forall id :: id in StatesOf(pol) ==> Free(f, StatesOf(pol)[id])
  {
    hide SplitPol, Numbered, Shaped, PolLeaves, Free;
    PlainShaped(pol);
    SplitIds(1, pol);
    NumberedLength(SplitPol(1, pol).ks, 1, Dups(pol));
    SplitFree(f, 1, pol);
    var s := SplitPol(1, pol);
    forall id | id in StatesOf(pol) ensures Free(f, StatesOf(pol)[id]) {
      if id != 0 {
        assert s.ks[id - 1] in s.ks;
        SplitFree(f, s.next, s.ks[id - 1].1);
      }
    }
  }

  lemma LocLeaves(f: Field, loc: Location, sw: int, pt: int)
    requires f != loc.sw && f != loc.pt
    ensures PolLeaves(f, Filter(MatchLoc(loc, sw, pt))) && PolLeaves(f, Seq(Filter(MatchLoc(loc, sw, pt)), Dup))
  {
    assert PredLeaves(f, S.Test(S.Exact(loc.sw, sw))) && PredLeaves(f, S.Test(S.Exact(loc.pt, pt)));
    assert PredLeaves(f, MatchLoc(loc, sw, pt));
  }

  lemma {:induction false} OfPolLeaves(f: Field, loc: Location, pol: S.Policy)
    requires Leaves(f, pol) && f != loc.sw && f != loc.pt
    ensures PolLeaves(f, OfPol(loc, pol))
  {
    match pol
    case Union(a, b) =>
      OfPolLeaves(f, loc, a);
      OfPolLeaves(f, loc, b);
    case Seq(a, b) =>
      OfPolLeaves(f, loc, a);
      OfPolLeaves(f, loc, b);
    case Star(a) => OfPolLeaves(f, loc, a);
    case Link(s1, p1, s2, p2) =>
      LinkShape(loc, s1, p1, s2, p2);
      LocLeaves(f, loc, s1, p1);
      LocLeaves(f, loc, s2, p2);
    case _ =>
  }

  lemma RenamedFree(f: Field, st: States, st': States, newId: map<int, int>, done: set<int>)
    requires Renamed(st, st', newId, done) && forall id :: id in st ==> Free(f, st[id])
    ensures forall k :: k in st' ==> Free(f, st'[k])
  {
    hide Unused, MapR, RenamePar, Conts;
    forall k | k in st' ensures Free(f, st'[k]) {
      var x :| x in done && newId[x] == k;
      RenameFree(f, st[x].1, newId);
    }
  }

  lemma RenameFree(f: Field, d: Fdd, newId: map<int, int>)
    requires Unused(f, d)
    ensures Unused(f, MapConts(d, newId))
  {
    UnusedMapR(f, RenamePar(newId), d);
  }
}
