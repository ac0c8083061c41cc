/** From policy to table: the semantics agrees with the flow table. */
module EndToEnd {

  import opened Prefixes
  import opened Actions
  import opened Fdds
  import opened Sequencing
  import opened Stabilization
  import opened StarLoop
  import opened Semantics
  import opened LocalCompiler
  import opened FlowTables
  import opened TableCorrectness

  // No operation makes a test that was not there

  lemma {:induction false} MaskTests(ly: Layout, x: Fdd)
    requires MasksOk(ly, x)
    ensures forall t :: t in TestsOf(x) ==> TestOk(ly, t)
  {
    if x.Branch? {
      MaskTests(ly, x.tru);
      MaskTests(ly, x.fls);
    }
  }

  lemma {:induction false} MaskOver(ly: Layout, x: Fdd, ts: set<Test>, acts: set<Act>)
    requires Over(x, ts, acts) && forall t :: t in ts ==> TestOk(ly, t)
    ensures MasksOk(ly, x)
  {
    if x.Branch? {
      MaskOver(ly, x.tru, ts, acts);
      MaskOver(ly, x.fls, ts, acts);
    }
  }

  /** Tests and actions that cover both diagrams. */
  lemma Cover(ly: Layout, x: Fdd, y: Fdd) returns (ts: set<Test>, acts: set<Act>)
    requires MasksOk(ly, x) && MasksOk(ly, y)
    ensures Over(x, ts, acts) && Over(y, ts, acts) && Closed(acts)
    ensures forall t :: t in ts ==> TestOk(ly, t)
  {
    ts := TestsOf(x) + TestsOf(y);
    acts := Closure(ActsOf(x) + ActsOf(y));
    OverSelf(x, ts, acts);
    OverSelf(y, ts, acts);
    MaskTests(ly, x);
    MaskTests(ly, y);
  }

  lemma MaskApply(ly: Layout, op: Op, x: Fdd, y: Fdd)
    requires MasksOk(ly, x) && MasksOk(ly, y)
    ensures MasksOk(ly, Apply(op, x, y))
  {
    hide Apply;
    var ts, acts := Cover(ly, x, y);
    OverApply(op, x, y, ts, acts);
    MaskOver(ly, Apply(op, x, y), ts, acts);
  }

  lemma MaskSeq(ly: Layout, x: Fdd, y: Fdd)
    requires MasksOk(ly, x) && MasksOk(ly, y)
    ensures MasksOk(ly, SeqFdd(x, y))
  {
    hide Apply, SeqMap;
    var ts, acts := Cover(ly, x, y);
    if y.Leaf? {
      OverApply(ProdOp, x, y, ts, acts);
    } else {
      OverSeqMap(x, y, ts, acts);
    }
    MaskOver(ly, SeqFdd(x, y), ts, acts);
  }

  lemma {:induction false} MaskPower(ly: Layout, t: Fdd, n: nat)
    requires MasksOk(ly, t)
    ensures MasksOk(ly, Power(ID, t, n)) && MasksOk(ly, Sums(ID, t, n))
  {
    hide Apply, SeqFdd;
    if n > 0 {
      MaskPower(ly, t, n - 1);
      MaskSeq(ly, Power(ID, t, n - 1), t);
      MaskApply(ly, SumOp, Sums(ID, t, n - 1), Power(ID, t, n));
    }
  }

  lemma MaskStar(ly: Layout, t: Fdd)
    requires MasksOk(ly, t) && Canonical(t)
    ensures MasksOk(ly, StarFdd(t))
  {
    hide StarFdd;
    var m := StarIsSums(t);
    MaskPower(ly, t, m);
  }

  lemma {:induction false} MaskMapR(ly: Layout, g: Par -> Par, x: Fdd)
    requires MasksOk(ly, x)
    ensures MasksOk(ly, MapR(g, x))
  {
    if x.Branch? {
      MaskMapR(ly, g, x.tru);
      MaskMapR(ly, g, x.fls);
    }
  }

  lemma MaskRestrict(ly: Layout, lst: seq<Test>, x: Fdd)
    requires MasksOk(ly, x)
    ensures MasksOk(ly, Restrict(lst, x))
  {
    hide Restrict;
    var ts, acts := Cover(ly, x, x);
    OverRestrict(lst, x, ts, acts);
    MaskOver(ly, Restrict(lst, x), ts, acts);
  }

  lemma MaskCond(ly: Layout, f: Field, v: Prefix, t: Fdd, e: Fdd)
    requires MasksOk(ly, t) && MasksOk(ly, e) && TestOk(ly, (f, v))
    ensures MasksOk(ly, Cond(f, v, t, e))
  {
    hide Apply;
    var a, b := Atom(f, v, ONE, ZERO), Atom(f, v, ZERO, ONE);
    MaskApply(ly, ProdOp, a, t);
    MaskApply(ly, ProdOp, b, e);
    MaskApply(ly, SumOp, Times(a, t), Times(b, e));
  }

  lemma {:induction false} MaskDedupTests(ly: Layout, lst: seq<(Field, int)>, x: Fdd)
    requires MasksOk(ly, x)
    ensures MasksOk(ly, DedupTests(lst, x))
    decreases |lst|
  {
    hide Cond;
    if lst != [] {
      var (f, v) := (lst[0].0, Full(lst[0].1));
      MaskMapR(ly, a => Demod(f, v, a), x);
      MaskCond(ly, f, v, MapR(a => Demod(f, v, a), x), x);
      MaskDedupTests(ly, lst[1..], Cond(f, v, MapR(a => Demod(f, v, a), x), x));
    }
  }

  lemma {:induction false} MaskDedup(ly: Layout, toHvs: Par -> seq<(Field, int)>, x: Fdd)
    requires MasksOk(ly, x)
    ensures MasksOk(ly, Dedup(toHvs, x))
  {
    hide Cond;
    match x
    case Leaf(par) => MaskDedupTests(ly, Filtered(toHvs(par), Harmful(par)), x);
    case Branch(f, v, t, e) =>
      MaskDedup(ly, toHvs, t);
      MaskDedup(ly, toHvs, e);
      MaskCond(ly, f, v, Dedup(toHvs, t), Dedup(toHvs, e));
  }

  lemma {:induction false} MaskPred(ly: Layout, a: Pred)
    requires PredSupported(a, AddressFields(ly))
    ensures MasksOk(ly, OfPred(a))
  {
    hide Apply;
    match a
    case Test(hv) =>
      if hv.Ip? && hv.mask == 0 { EmptyMask(AddressFields(ly)[hv.field], hv.addr); }
    case And(p, q) =>
      MaskPred(ly, p);
      MaskPred(ly, q);
      MaskApply(ly, ProdOp, OfPred(p), OfPred(q));
    case Or(p, q) =>
      MaskPred(ly, p);
      MaskPred(ly, q);
      MaskApply(ly, SumOp, OfPred(p), OfPred(q));
    case Neg(q) =>
      MaskPred(ly, q);
      MaskMapR(ly, Negate, OfPred(q));
    case _ =>
  }

  lemma {:induction false} MaskPolicy(ly: Layout, pol: Policy)
    requires Supported(pol, AddressFields(ly)) && OfLocalPol(pol).Some?
    ensures MasksOk(ly, OfLocalPol(pol).value)
  {
    hide Apply, SeqFdd, StarFdd;
    match pol
    case Filter(a) => MaskPred(ly, a);
    case Mod(_) =>
    case Union(a, b) =>
      MaskPolicy(ly, a);
      MaskPolicy(ly, b);
      MaskApply(ly, SumOp, OfLocalPol(a).value, OfLocalPol(b).value);
    case Seq(a, b) =>
      MaskPolicy(ly, a);
      if OfLocalPol(a).value != DROP {
        MaskPolicy(ly, b);
        MaskSeq(ly, OfLocalPol(a).value, OfLocalPol(b).value);
      }
    case Star(a) =>
      MaskPolicy(ly, a);
      MaskStar(ly, OfLocalPol(a).value);
  }

  /** The table compiled for a switch forwards a packet there as the interpreter
      does, under every combination of options, if it has a row for the path that
      the packet takes. */
  lemma SemanticsAgreesWithTable(ly: Layout, opts: Options, toHvs: Par -> seq<(Field, int)>, sw: int, pol: Policy,
                                 p: Packet)
    requires Supported(pol, AddressFields(ly)) && OfLocalPol(pol).Some?
    requires Arrives(ly, p) && AtSwitch(ly, opts, sw, p)
    requires HasRow(ly, opts, Prepared(ly, opts, toHvs, sw, OfLocalPol(pol).value), p)
    ensures EvalTable(ly, ToTable(ly, opts, toHvs, sw, OfLocalPol(pol).value), p) == Eval(p, pol)
  {
    hide EvalTable, ToTable, OfLocalPol, Eval, Dedup, Restrict, HasRow;
    var t := OfLocalPol(pol).value;
    MaskPrepared(ly, opts, toHvs, sw, pol);
    TableMeaning(ly, opts, toHvs, sw, t, p);
    CompileCorrect(pol, p, AddressFields(ly));
  }

  lemma MaskPrepared(ly: Layout, opts: Options, toHvs: Par -> seq<(Field, int)>, sw: int, pol: Policy)
    requires Supported(pol, AddressFields(ly)) && OfLocalPol(pol).Some?
    ensures MasksOk(ly, Prepared(ly, opts, toHvs, sw, OfLocalPol(pol).value))
  {
    hide OfLocalPol, Dedup, Restrict;
    var t := OfLocalPol(pol).value;
    MaskPolicy(ly, pol);
    MaskDedup(ly, toHvs, t);
    MaskRestrict(ly, SwitchTests(ly, sw, opts.optimize), if opts.dedupFlows then Dedup(toHvs, t) else t);
  }

  /** So it does for all packets, if every path of the diagram is valid. */
  lemma SemanticsAgreesWithValidTable(ly: Layout, opts: Options, toHvs: Par -> seq<(Field, int)>, sw: int, pol: Policy)
    requires Supported(pol, AddressFields(ly)) && OfLocalPol(pol).Some?
    requires PathsValid(ly, [], Prepared(ly, opts, toHvs, sw, OfLocalPol(pol).value))
    ensures forall p :: Arrives(ly, p) && AtSwitch(ly, opts, sw, p) ==>
                          EvalTable(ly, ToTable(ly, opts, toHvs, sw, OfLocalPol(pol).value), p) == Eval(p, pol)
  {
    hide EvalTable, ToTable, OfLocalPol, Eval, Prepared, HasRow, PathsValid, Arrives, AtSwitch;
    var t := OfLocalPol(pol).value;
    var t2 := Prepared(ly, opts, toHvs, sw, t);
    MaskPrepared(ly, opts, toHvs, sw, pol);
    forall p | Arrives(ly, p) && AtSwitch(ly, opts, sw, p)
      ensures EvalTable(ly, ToTable(ly, opts, toHvs, sw, t), p) == Eval(p, pol)
    {
      CompleteArrives(ly, p);
      PreparedMeaning(ly, opts, toHvs, sw, t, p);
      ValidHasRow(ly, opts, t2, p);
      SemanticsAgreesWithTable(ly, opts, toHvs, sw, pol, p);
    }
  }

  lemma CompleteArrives(ly: Layout, p: Packet)
    requires Arrives(ly, p)
    ensures Complete(p)
  {
  }
}
