/** The table of a switch tests neither the switch nor the fabric. */
module SwitchTables {

  import opened Actions
  import opened Fdds
  import opened FlowTables
  import opened TableCorrectness
  import opened RowCoverage

  /** Rows test fields of their path, the Ethernet type and the protocol. */
  lemma FlowFields(ly: Layout, tests: seq<Test>, seen: set<Test>, acts: set<seq<Sdn>>, f: Field)
    requires Open(f, tests) && f != ly.dlTyp && f != ly.nwProto
    ensures forall r :: r in MkFlows(ly, tests, seen, acts) ==> f !in r.pattern
  {
    PatternOpen(f, tests);
    forall q | q in FillInDependencies(ly, seen, ToPattern(tests)) ensures f !in q {
    }
  }

  lemma {:induction false} PatternOpen(f: Field, tests: seq<Test>)
    requires Open(f, tests)
    ensures f !in ToPattern(tests)
  {
    if tests != [] {
      assert tests[0] in tests;
      PatternOpen(f, tests[1..]);
    }
  }

  lemma {:induction false} PathOpen(t: Fdd, f: Field)
    requires !Tests(t, f)
    ensures Open(f, PathTests(t))
  {
    if t.Branch? {
      PathOpen(t.tru, f);
    }
  }

  lemma {:induction false} RestOpen(t: Fdd, f: Field)
    requires !Tests(t, f) && RestOf(t).Some?
    ensures !Tests(RestOf(t).value, f)
  {
    if RestOf(t.tru).Some? {
      RestOpen(t.tru, f);
    }
  }

  lemma {:induction false} OptRowFields(ly: Layout, t: Fdd, seen: set<Test>, f: Field)
    requires !Tests(t, f) && f != ly.dlTyp && f != ly.nwProto
    ensures forall r :: r in OptRows(ly, t, seen) ==> f !in r.pattern
    decreases LeafCount(t)
  {
    hide MkFlows, ToAction, Tests;
    var tests := PathTests(t);
    var now := seen + TestSet(tests);
    PathOpen(t, f);
    FlowFields(ly, tests, now, ToAction(ly, PathLeaf(t), tests), f);
    if RestOf(t).Some? {
      RestSmaller(t);
      RestOpen(t, f);
      OptRowFields(ly, RestOf(t).value, now, f);
    }
  }

  lemma {:induction false} NaiveRowFields(ly: Layout, trueTests: seq<Test>, seen: set<Test>, t: Fdd, f: Field)
    requires Open(f, trueTests) && !Tests(t, f) && f != ly.dlTyp && f != ly.nwProto
    ensures forall r :: r in NaiveRows(ly, trueTests, seen, t) ==> f !in r.pattern
    decreases t
  {
    hide MkFlows, ToAction;
    match t
    case Leaf(par) => FlowFields(ly, trueTests, seen, ToAction(ly, par, trueTests), f);
    case Branch(g, v, tru, fls) =>
      NaiveRowFields(ly, [(g, v)] + trueTests, seen + {(g, v)}, tru, f);
      NaiveRowFields(ly, trueTests, seen + {(g, v)}, fls, f);
  }

  function Zeros(n: nat): (p: Packet)
    requires n <= NUM_FIELDS
    ensures forall f: Field :: f < n ==> f in p
  {
    if n == 0 then map[] else Zeros(n - 1)[n - 1 := 0]
  }

  lemma PreparedOpen(ly: Layout, opts: Options, toHvs: Par -> seq<(Field, int)>, sw: int, t: Fdd)
    requires Canonical(t) && ly.switch != ly.vfabric
    ensures var t' := Prepared(ly, opts, toHvs, sw, t);
            !Tests(t', ly.switch) && (opts.optimize ==> !Tests(t', ly.vfabric))
  {
    if opts.dedupFlows { DedupMeaning(toHvs, t, Zeros(NUM_FIELDS)); }
    var lst := SwitchTests(ly, sw, opts.optimize);
    var t1 := if opts.dedupFlows then Dedup(toHvs, t) else t;
    hide Dedup;
    RestrictRemoves(lst, t1, 0);
    if opts.optimize { RestrictRemoves(lst, t1, 1); }
  }

  /** No row of the table of a switch tests the switch, and no row of an optimised table
      tests the fabric: neither is a field of an OpenFlow pattern. */
  lemma TableIsOfSwitch(ly: Layout, opts: Options, toHvs: Par -> seq<(Field, int)>, sw: int, t: Fdd, r: Row)
    requires Canonical(t) && ly.switch != ly.vfabric
    requires ly.dlTyp !in {ly.switch, ly.vfabric} && ly.nwProto !in {ly.switch, ly.vfabric}
    requires r in ToTable(ly, opts, toHvs, sw, t)
    ensures ly.switch !in r.pattern && (opts.optimize ==> ly.vfabric !in r.pattern)
  {
    hide Dedup, Restrict, OptRows, NaiveRows, Tests;
    PreparedOpen(ly, opts, toHvs, sw, t);
    var t' := Prepared(ly, opts, toHvs, sw, t);
    var rows := if opts.optimize then OptRows(ly, t', {}) else NaiveRows(ly, [], {}, t');
    TailExact(rows);
    if opts.optimize {
      OptRowFields(ly, t', {}, ly.switch);
      OptRowFields(ly, t', {}, ly.vfabric);
    } else {
      NaiveRowFields(ly, [], {}, t', ly.switch);
    }
  }
}
