/** Prioritised flow tables, and their generation from decision diagrams. */
module FlowTables {

  import opened Prefixes
  import opened Wrappers
  import opened Values
  import opened Actions
  import opened Fdds

  /** The places in the field order of the fields that tables treat specially, and
      how addresses are written. */
  datatype Layout = Layout(
    switch: Field, vfabric: Field, location: Field,
    dlTyp: Field, nwProto: Field, nwSrc: Field, nwDst: Field, tpSrc: Field, tpDst: Field,
    srcNaming: Naming, dstNaming: Naming)

  /** The fields an OpenFlow pattern fixes; the others are wildcards. */
  type Pattern = map<Field, Prefix>

  datatype Sdn = Modify(field: Field, value: int) | OutputInPort | OutputPhysical(port: int)

  datatype Row = Row(pattern: Pattern, actions: set<seq<Sdn>>)

  // Switches

  /** An address prefix of length 0 (64-bit length 32) matches every address. */
  predicate FieldMatches(ly: Layout, f: Field, v: Prefix, x: int) {
    ((f == ly.nwSrc || f == ly.nwDst) && v.len == 32) || Matches(x, v)
  }

  predicate PatternMatches(ly: Layout, pat: Pattern, p: Packet) {
    forall f :: f in pat ==> FieldMatches(ly, f, pat[f], Get(p, f))
  }

  function EvalSdn(ly: Layout, a: Sdn, port: int, p: Packet): Packet {
    match a
    case Modify(f, v) => p[f := v]
    case OutputInPort => p[ly.location := port]
    case OutputPhysical(q) => p[ly.location := q]
  }

  function EvalSdns(ly: Layout, acts: seq<Sdn>, port: int, p: Packet): Packet {
    if acts == [] then p else EvalSdns(ly, acts[1..], port, EvalSdn(ly, acts[0], port, p))
  }

  function EvalRow(ly: Layout, row: Row, p: Packet): set<Packet> {
    set a | a in row.actions :: EvalSdns(ly, a, Get(p, ly.location), p)
  }

  /** The first row that matches decides; a miss drops the packet. */
  function EvalTable(ly: Layout, rows: seq<Row>, p: Packet): set<Packet> {
    if rows == [] then {}
    else if PatternMatches(ly, rows[0].pattern, p) then EvalRow(ly, rows[0], p)
    else EvalTable(ly, rows[1..], p)
  }

  // Rows

  function ToPattern(tests: seq<Test>): Pattern {
    if tests == [] then map[] else ToPattern(tests[1..])[tests[0].0 := tests[0].1]
  }

  predicate IsValidPattern(ly: Layout, pat: Pattern) {
    && (ly.dlTyp !in pat ==> ly.nwProto !in pat && ly.nwSrc !in pat && ly.nwDst !in pat)
    && (ly.nwProto !in pat ==> ly.tpSrc !in pat && ly.tpDst !in pat)
  }

  predicate Seen(allTests: set<Test>, dep: Test) {
    exists t :: t in allTests && t.0 == dep.0 && Same(t.1, dep.1)
  }

  function AddDependencyIfUnseen(allTests: set<Test>, pat: Pattern, dep: Test): seq<Pattern> {
    if Seen(allTests, dep) then [] else [pat[dep.0 := dep.1]]
  }

  function FillInDependencies(ly: Layout, allTests: set<Test>, pat: Pattern): seq<Pattern> {
    var transport := (ly.tpSrc in pat || ly.tpDst in pat) && ly.nwProto !in pat;
    var deps :=
      if (ly.nwSrc in pat || ly.nwDst in pat) && ly.dlTyp !in pat then
        [(ly.dlTyp, Full(0x800)), (ly.dlTyp, Full(0x806))]
      else if ly.nwProto in pat && ly.dlTyp !in pat then [(ly.dlTyp, Full(0x800))]
      else if transport then [(ly.nwProto, Full(6)), (ly.nwProto, Full(17))]
      else [];
    var withTyp := AddDependencyIfUnseen(allTests, pat, (ly.dlTyp, Full(0x800)));
    var pat' := if transport && ly.dlTyp !in pat && withTyp != [] then withTyp[0] else pat;
    if deps == [] then [pat']
    else if |deps| == 1 then AddDependencyIfUnseen(allTests, pat', deps[0])
    else AddDependencyIfUnseen(allTests, pat', deps[0]) + AddDependencyIfUnseen(allTests, pat', deps[1])
  }

  function RowsFor(pats: seq<Pattern>, actions: set<seq<Sdn>>): seq<Row> {
    seq(|pats|, i requires 0 <= i < |pats| => Row(pats[i], actions))
  }

  function MkFlows(ly: Layout, trueTests: seq<Test>, allTests: set<Test>, actions: set<seq<Sdn>>): seq<Row> {
    RowsFor(FillInDependencies(ly, allTests, ToPattern(trueTests)), actions)
  }

  function GetInPort(ly: Layout, tests: seq<Test>): Option<int> {
    if tests == [] then None
    else
      var rest := GetInPort(ly, tests[1..]);
      if rest == None && tests[0].0 == ly.location && tests[0].1.len == WIDTH then Some(tests[0].1.bits) else rest
  }

  function DemodAll(tests: seq<Test>, par: Par): Par {
    if tests == [] then par else DemodAll(tests[1..], Demod(tests[0].0, tests[0].1, par))
  }

  /** The modifications in some order, then `last`.  A modification of the
      switch field stands for the exception `Non_local`. */
  ghost function Modifies(mods: map<Field, int>, last: Sdn): seq<Sdn>
    decreases |mods.Keys|
  {
    if mods.Keys == {} then [last]
    else
      var f := Pick(mods.Keys);
      assert (mods - {f}).Keys == mods.Keys - {f};
      [Modify(f, mods[f])] + Modifies(mods - {f}, last)
  }

  function OutputOf(ly: Layout, inPort: Option<int>, s: Act): Sdn {
    if ly.location !in s.mods || inPort == Some(s.mods[ly.location]) then OutputInPort
    else OutputPhysical(s.mods[ly.location])
  }

  ghost function SdnOf(ly: Layout, inPort: Option<int>, s: Act): seq<Sdn> {
    Modifies(s.mods - {ly.location}, OutputOf(ly, inPort, s))
  }

  ghost function ToAction(ly: Layout, par: Par, tests: seq<Test>): set<seq<Sdn>> {
    set s | s in DemodAll(tests, par) :: SdnOf(ly, GetInPort(ly, tests), s)
  }

  // Table generation

  /** The tests on the all-true path, the last one first. */
  function PathTests(t: Fdd): seq<Test> {
    if t.Leaf? then [] else PathTests(t.tru) + [(t.field, t.value)]
  }

  function PathLeaf(t: Fdd): Par {
    if t.Leaf? then t.par else PathLeaf(t.tru)
  }

  /** The diagram without its all-true path. */
  function RestOf(t: Fdd): Option<Fdd> {
    if t.Leaf? then None
    else
      match RestOf(t.tru)
      case None => Some(t.fls)
      case Some(t') => Some(MkBranch(t.field, t.value, t', t.fls))
  }

  function LeafCount(t: Fdd): nat {
    if t.Leaf? then 1 else LeafCount(t.tru) + LeafCount(t.fls)
  }

  lemma {:induction false} RestSmaller(t: Fdd)
    ensures RestOf(t).Some? ==> LeafCount(RestOf(t).value) < LeafCount(t)
  {
    if t.Branch? {
      RestSmaller(t.tru);
      LeafCountPositive(t.tru);
    }
  }

  lemma {:induction false} LeafCountPositive(t: Fdd)
    ensures LeafCount(t) >= 1
  {
    if t.Branch? {
      LeafCountPositive(t.tru);
    }
  }

  function TestSet(tests: seq<Test>): set<Test> {
    set x | x in tests
  }

  /** One row for the all-true path, then the table of the rest. */
  ghost function OptRows(ly: Layout, t: Fdd, allTests: set<Test>): seq<Row>
    decreases LeafCount(t)
  {
    var tests := PathTests(t);
    var seen := allTests + TestSet(tests);
    var row := MkFlows(ly, tests, seen, ToAction(ly, PathLeaf(t), tests));
    match RestOf(t)
    case None => row
    case Some(rest) =>
      RestSmaller(t);
      row + OptRows(ly, rest, seen)
  }

  ghost function NaiveRows(ly: Layout, trueTests: seq<Test>, allTests: set<Test>, t: Fdd): seq<Row>
    decreases t
  {
    match t
    case Leaf(par) => MkFlows(ly, trueTests, allTests, ToAction(ly, par, trueTests))
    case Branch(f, v, tru, fls) =>
      NaiveRows(ly, [(f, v)] + trueTests, allTests + {(f, v)}, tru) +
      NaiveRows(ly, trueTests, allTests + {(f, v)}, fls)
  }

  predicate IsDrop(row: Row) {
    forall a :: a in row.actions ==> a == []
  }

  function RemoveTailDrops(rows: seq<Row>): seq<Row> {
    if rows != [] && IsDrop(rows[|rows| - 1]) then RemoveTailDrops(rows[..|rows| - 1]) else rows
  }

  /** The association list `lst`, sorted by field. */
  function SwitchTests(ly: Layout, sw: int, fabric: bool): seq<Test> {
    if !fabric then [(ly.switch, Full(sw))]
    else if ly.switch < ly.vfabric then [(ly.switch, Full(sw)), (ly.vfabric, Full(1))]
    else [(ly.vfabric, Full(1)), (ly.switch, Full(sw))]
  }

  // Removal of redundant assignments

  function ModFields(par: Par): set<Field> {
    set s, f | s in par && f in s.mods :: f
  }

  /** The fields that some actions assign and others do not. */
  function Harmful(par: Par): set<Field> {
    set s, f | s in par && f in ModFields(par) && f !in s.mods :: f
  }

  function DedupTests(lst: seq<(Field, int)>, x: Fdd): Fdd {
    if lst == [] then x
    else
      var (f, v) := (lst[0].0, Full(lst[0].1));
      DedupTests(lst[1..], Cond(f, v, MapR(a => Demod(f, v, a), x), x))
  }

  function Filtered(lst: seq<(Field, int)>, fields: set<Field>): seq<(Field, int)> {
    if lst == [] then []
    else (if lst[0].0 in fields then [lst[0]] else []) + Filtered(lst[1..], fields)
  }

  /** `toHvs` lists the assignments of a leaf, in any order. */
  function Dedup(toHvs: Par -> seq<(Field, int)>, x: Fdd): Fdd {
    match x
    case Leaf(par) => DedupTests(Filtered(toHvs(par), Harmful(par)), x)
    case Branch(f, v, t, e) => Cond(f, v, Dedup(toHvs, t), Dedup(toHvs, e))
  }

  datatype Options = Options(removeTailDrops: bool, dedupFlows: bool, optimize: bool)

  ghost function ToTable(ly: Layout, opts: Options, toHvs: Par -> seq<(Field, int)>, sw: int, t: Fdd): seq<Row> {
    var t1 := if opts.dedupFlows then Dedup(toHvs, t) else t;
    var t2 := Restrict(SwitchTests(ly, sw, opts.optimize), t1);
    var rows := if opts.optimize then OptRows(ly, t2, {}) else NaiveRows(ly, [], {}, t2);
    if opts.removeTailDrops then RemoveTailDrops(rows) else rows
  }

  // Correctness of a row

  lemma {:induction false} DemodAllMeaning(tests: seq<Test>, par: Par, p: Packet)
    requires Passes(p, tests) && Complete(p)
    ensures RunPar(DemodAll(tests, par), p) == RunPar(par, p)
  {
    if tests != [] {
      DemodMeaning(tests[0].0, tests[0].1, par, p);
      DemodAllMeaning(tests[1..], Demod(tests[0].0, tests[0].1, par), p);
    }
  }

  lemma EvalCons(ly: Layout, a: Sdn, acts: seq<Sdn>, port: int, p: Packet)
    ensures EvalSdns(ly, [a] + acts, port, p) == EvalSdns(ly, acts, port, EvalSdn(ly, a, port, p))
  {
    assert ([a] + acts)[1..] == acts;
  }

  lemma ModifiesCons(mods: map<Field, int>, last: Sdn)
    requires mods.Keys != {}
    ensures var f := Pick(mods.Keys);
            Modifies(mods, last) == [Modify(f, mods[f])] + Modifies(mods - {f}, last)
  {
  }

  lemma {:induction false} ModifiesMeaning(ly: Layout, mods: map<Field, int>, last: Sdn, port: int, p: Packet)
    ensures EvalSdns(ly, Modifies(mods, last), port, p) == EvalSdn(ly, last, port, p + mods)
    decreases |mods.Keys|
  {
    hide EvalSdns;
    if mods.Keys == {} {
      assert p + mods == p;
      EvalCons(ly, last, [], port, p);
      assert [last] + [] == [last];
      EvalNil(ly, port, EvalSdn(ly, last, port, p));
    } else {
      hide Modifies;
      var f := Pick(mods.Keys);
      var rest := mods - {f};
      assert rest.Keys == mods.Keys - {f};
      ModifiesCons(mods, last);
      EvalCons(ly, Modify(f, mods[f]), Modifies(rest, last), port, p);
      ModifiesMeaning(ly, rest, last, port, p[f := mods[f]]);
      MapStep(p, mods, f);
    }
  }

  lemma MapStep(p: Packet, mods: map<Field, int>, f: Field)
    requires f in mods
    ensures p[f := mods[f]] + (mods - {f}) == p + mods
  {
  }

  lemma EvalNil(ly: Layout, port: int, p: Packet)
    ensures EvalSdns(ly, [], port, p) == p
  {
  }

  lemma {:induction false} InPortMeaning(ly: Layout, tests: seq<Test>, p: Packet)
    requires Passes(p, tests) && GetInPort(ly, tests).Some?
    ensures Get(p, ly.location) == GetInPort(ly, tests).value
  {
    if GetInPort(ly, tests[1..]).Some? {
      InPortMeaning(ly, tests[1..], p);
    } else {
      assert tests[0] in tests;
    }
  }

  lemma SdnMeaning(ly: Layout, tests: seq<Test>, s: Act, p: Packet)
    requires Passes(p, tests) && Complete(p)
    ensures EvalSdns(ly, SdnOf(ly, GetInPort(ly, tests), s), Get(p, ly.location), p) == Run(s, p)
  {
    var rest := s.mods - {ly.location};
    var out := OutputOf(ly, GetInPort(ly, tests), s);
    ModifiesMeaning(ly, rest, out, Get(p, ly.location), p);
    if GetInPort(ly, tests).Some? {
      InPortMeaning(ly, tests, p);
    }
    if ly.location in s.mods {
      assert (p + rest)[ly.location := s.mods[ly.location]] == p + s.mods;
    } else {
      assert rest == s.mods;
      assert (p + s.mods)[ly.location := p[ly.location]] == p + s.mods;
    }
  }

  /** The packets a diagram leaf makes of `p`. */
  function Pkts(par: Par, p: Packet): set<Packet> {
    set s | s in par :: Run(s, p)
  }

  lemma PktsOfRunPar(a: Par, b: Par, p: Packet)
    requires RunPar(a, p) == RunPar(b, p)
    ensures Pkts(a, p) <= Pkts(b, p)
  {
    forall x | x in Pkts(a, p) ensures x in Pkts(b, p) {
      var s :| s in a && x == Run(s, p);
      assert Out(x, s.cont) in RunPar(b, p);
    }
  }

  lemma ActionMeaning(ly: Layout, par: Par, tests: seq<Test>, pat: Pattern, p: Packet)
    requires Passes(p, tests) && Complete(p)
    ensures EvalRow(ly, Row(pat, ToAction(ly, par, tests)), p) == Pkts(par, p)
  {
    var par' := DemodAll(tests, par);
    var row := Row(pat, ToAction(ly, par, tests));
    DemodAllMeaning(tests, par, p);
    PktsOfRunPar(par, par', p);
    PktsOfRunPar(par', par, p);
    forall s | s in par' ensures EvalSdns(ly, SdnOf(ly, GetInPort(ly, tests), s), Get(p, ly.location), p) == Run(s, p) {
      SdnMeaning(ly, tests, s, p);
    }
    forall x ensures x in EvalRow(ly, row, p) <==> x in Pkts(par', p) {
      if x in Pkts(par', p) {
        var s :| s in par' && x == Run(s, p);
        assert SdnOf(ly, GetInPort(ly, tests), s) in row.actions;
      }
    }
  }
}
