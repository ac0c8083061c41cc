/** Generated tables forward as their diagrams, and so as their policies. */
module TableCorrectness {

  import opened Prefixes
  import opened Wrappers
  import opened Values
  import opened Actions
  import opened Fdds
  import opened FlowTables
  import LocalCompiler

  // Patterns

  /** The address fields, and how their addresses are written. */
  function AddressFields(ly: Layout): LocalCompiler.Ips {
    map[ly.nwSrc := ly.srcNaming, ly.nwDst := ly.dstNaming]
  }

  /** The prefix of no bits at all, as it is written. */
  predicate IsEmptyMask(n: Naming, v: Prefix) {
    v.len == 32 && ((n == Low && v.bits == 0) || (n == High && v.bits == -1))
  }

  /** An address test on which pattern and diagram agree. */
  predicate TestOk(ly: Layout, t: Test) {
    t.0 in AddressFields(ly) ==> t.1.len != 32 || IsEmptyMask(AddressFields(ly)[t.0], t.1)
  }

  predicate MasksOk(ly: Layout, x: Fdd) {
    x.Branch? ==> TestOk(ly, (x.field, x.value)) && MasksOk(ly, x.tru) && MasksOk(ly, x.fls)
  }

  /** Later tests come first, and each field is tested once. */
  predicate Descending(tests: seq<Test>) {
    forall i, j :: 0 <= i < j < |tests| ==> tests[i].0 > tests[j].0
  }

  predicate TestsOk(ly: Layout, tests: seq<Test>) {
    forall t :: t in tests ==> TestOk(ly, t)
  }

  lemma {:induction false} PatternFields(tests: seq<Test>)
    requires Descending(tests)
    ensures forall f: Field :: f in ToPattern(tests) ==> (f, ToPattern(tests)[f]) in tests
    ensures forall t :: t in tests ==> t.0 in ToPattern(tests) && ToPattern(tests)[t.0] == t.1
  {
    if tests != [] {
      PatternFields(tests[1..]);
      forall t | t in tests ensures t.0 in ToPattern(tests) && ToPattern(tests)[t.0] == t.1 {
        var i :| 0 <= i < |tests| && tests[i] == t;
        if i > 0 { assert t in tests[1..] && tests[0].0 > t.0; }
      }
    }
  }

  lemma PatternMeaning(ly: Layout, tests: seq<Test>, p: Packet)
    requires Descending(tests) && TestsOk(ly, tests) && LocalCompiler.PacketTyped(p, AddressFields(ly))
    ensures PatternMatches(ly, ToPattern(tests), p) <==> Passes(p, tests)
  {
    var pat := ToPattern(tests);
    PatternFields(tests);
    forall t | t in tests ensures FieldMatches(ly, t.0, t.1, Get(p, t.0)) <==> Matches(Get(p, t.0), t.1) {
      FieldMeaning(ly, t, p);
    }
    if PatternMatches(ly, pat, p) {
      forall t | t in tests ensures Matches(Get(p, t.0), t.1) { assert FieldMatches(ly, t.0, pat[t.0], Get(p, t.0)); }
    }
  }

  lemma FieldMeaning(ly: Layout, t: Test, p: Packet)
    requires TestOk(ly, t) && LocalCompiler.PacketTyped(p, AddressFields(ly))
    ensures FieldMatches(ly, t.0, t.1, Get(p, t.0)) <==> Matches(Get(p, t.0), t.1)
  {
    if t.0 in AddressFields(ly) && t.1.len == 32 {
      LocalCompiler.EmptyMask(AddressFields(ly)[t.0], Get(p, t.0));
    }
  }

  /** A packet with all its fields, and addresses where they belong. */
  ghost predicate Arrives(ly: Layout, p: Packet) {
    Complete(p) && LocalCompiler.PacketTyped(p, AddressFields(ly))
  }

  /** A valid pattern needs no dependencies. */
  lemma ValidNeedsNothing(ly: Layout, allTests: set<Test>, pat: Pattern)
    requires IsValidPattern(ly, pat)
    ensures FillInDependencies(ly, allTests, pat) == [pat]
  {
  }

  predicate FieldsDiffer(ly: Layout) {
    && ly.dlTyp !in {ly.nwProto, ly.nwSrc, ly.nwDst, ly.tpSrc, ly.tpDst}
    && ly.nwProto !in {ly.nwSrc, ly.nwDst, ly.tpSrc, ly.tpDst}
  }

  /** Exactly the valid patterns are left alone, whatever tests have been seen. */
  lemma ValidIffNeedsNothing(ly: Layout, allTests: set<Test>, pat: Pattern)
    requires FieldsDiffer(ly)
    ensures FillInDependencies(ly, allTests, pat) == [pat] <==> IsValidPattern(ly, pat)
  {
    if !IsValidPattern(ly, pat) {
      forall q | q in FillInDependencies(ly, allTests, pat) ensures q != pat { FilledIn(ly, allTests, pat, q); }
      assert pat in [pat];
    }
  }

  /** A pattern made for an invalid one fixes a field that was open, the Ethernet type
      or the protocol. */
  lemma FilledIn(ly: Layout, allTests: set<Test>, pat: Pattern, q: Pattern)
    requires FieldsDiffer(ly) && !IsValidPattern(ly, pat) && q in FillInDependencies(ly, allTests, pat)
    ensures || (ly.dlTyp !in pat && ly.dlTyp in q && q[ly.dlTyp] in {Full(0x800), Full(0x806)})
            || (ly.nwProto !in pat && ly.nwProto in q && q[ly.nwProto] in {Full(6), Full(17)})
  {
  }

  /** A packet of another Ethernet type and protocol, where the pattern leaves these
      open. */
  predicate OtherKind(ly: Layout, pat: Pattern, p: Packet) {
    && (ly.dlTyp in pat || Get(p, ly.dlTyp) !in {0x800, 0x806})
    && (ly.nwProto in pat || Get(p, ly.nwProto) !in {6, 17})
  }

  lemma InvalidMisses(ly: Layout, allTests: set<Test>, pat: Pattern, q: Pattern, p: Packet)
    requires FieldsDiffer(ly) && !IsValidPattern(ly, pat) && q in FillInDependencies(ly, allTests, pat)
    requires OtherKind(ly, pat, p)
    ensures !PatternMatches(ly, q, p)
  {
    FilledIn(ly, allTests, pat, q);
    hide FillInDependencies, IsValidPattern;
    var f := if ly.dlTyp !in pat && ly.dlTyp in q then ly.dlTyp else ly.nwProto;
    assert !FieldMatches(ly, f, q[f], Get(p, f));
  }

  /** Some row that is made for the path matches. */
  ghost predicate FlowsMatch(ly: Layout, tests: seq<Test>, allTests: set<Test>, p: Packet) {
    exists q :: q in FillInDependencies(ly, allTests, ToPattern(tests)) && PatternMatches(ly, q, p)
  }

  /** The rows of a path that some packet passes are hit by exactly the packets that
      pass it if and only if its pattern is valid: a test of addresses or protocol
      comes with one of the Ethernet type, and a test of ports with one of the
      protocol. */
  lemma RowsExactIff(ly: Layout, tests: seq<Test>, allTests: set<Test>, p: Packet)
    requires FieldsDiffer(ly) && Descending(tests) && TestsOk(ly, tests) && Arrives(ly, p) && Passes(p, tests)
    ensures (forall q :: Arrives(ly, q) ==> (FlowsMatch(ly, tests, allTests, q) <==> Passes(q, tests)))
            <==> IsValidPattern(ly, ToPattern(tests))
  {
    var pat := ToPattern(tests);
    hide Arrives, TestsOk;
    if IsValidPattern(ly, pat) {
      forall q | Arrives(ly, q) ensures FlowsMatch(ly, tests, allTests, q) <==> Passes(q, tests) {
        MatchMeaning(ly, tests, allTests, q);
      }
    } else {
      var q := Retyped(ly, tests, p);
      if FlowsMatch(ly, tests, allTests, q) {
        var r :| r in FillInDependencies(ly, allTests, pat) && PatternMatches(ly, r, q);
        InvalidMisses(ly, allTests, pat, r, q);
      }
      assert Arrives(ly, q);
    }
  }

  /** Only packets that pass the path hit its rows, and all of them do if its pattern
      is valid. */
  lemma MatchMeaning(ly: Layout, tests: seq<Test>, allTests: set<Test>, p: Packet)
    requires Descending(tests) && TestsOk(ly, tests) && Arrives(ly, p)
    ensures FlowsMatch(ly, tests, allTests, p) ==> Passes(p, tests)
    ensures IsValidPattern(ly, ToPattern(tests)) && Passes(p, tests) ==> FlowsMatch(ly, tests, allTests, p)
  {
    var pat := ToPattern(tests);
    PatternMeaning(ly, tests, p);
    hide TestsOk, Arrives, Descending;
    if FlowsMatch(ly, tests, allTests, p) {
      var q :| q in FillInDependencies(ly, allTests, pat) && PatternMatches(ly, q, p);
      OnlyAdds(ly, allTests, pat, q);
      hide FillInDependencies;
      forall f | f in pat ensures FieldMatches(ly, f, pat[f], Get(p, f)) {
        assert f in q && FieldMatches(ly, f, q[f], Get(p, f));
      }
    }
    if IsValidPattern(ly, pat) && Passes(p, tests) {
      ValidNeedsNothing(ly, allTests, pat);
      assert pat in [pat];
    }
  }

  lemma OnlyAdds(ly: Layout, allTests: set<Test>, pat: Pattern, q: Pattern)
    requires q in FillInDependencies(ly, allTests, pat)
    ensures forall f :: f in pat ==> f in q && q[f] == pat[f]
  {
  }

  /** A packet on the same path, of another kind. */
  lemma Retyped(ly: Layout, tests: seq<Test>, p: Packet) returns (q: Packet)
    requires FieldsDiffer(ly) && Descending(tests) && Arrives(ly, p) && Passes(p, tests)
    ensures Arrives(ly, q) && Passes(q, tests) && OtherKind(ly, ToPattern(tests), q)
  {
    var pat := ToPattern(tests);
    PatternFields(tests);
    q := if ly.dlTyp in pat then p else p[ly.dlTyp := 0];
    q := if ly.nwProto in pat then q else q[ly.nwProto := 0];
    forall t | t in tests ensures Get(q, t.0) == Get(p, t.0) {
      assert t.0 in pat;
    }
    forall f | f in AddressFields(ly) ensures Get(q, f) == Get(p, f) {
    }
  }

  /** A packet that hits a row of the path is treated as the leaf says, and one that
      hits none goes on with the other rows. */
  lemma FlowsMeaning(ly: Layout, tests: seq<Test>, allTests: set<Test>, par: Par, p: Packet, tail: seq<Row>)
    requires Descending(tests) && TestsOk(ly, tests) && Arrives(ly, p)
    ensures EvalTable(ly, MkFlows(ly, tests, allTests, ToAction(ly, par, tests)) + tail, p) ==
              if FlowsMatch(ly, tests, allTests, p) then Pkts(par, p) else EvalTable(ly, tail, p)
  {
    MatchMeaning(ly, tests, allTests, p);
    var pats := FillInDependencies(ly, allTests, ToPattern(tests));
    hide ToAction, FillInDependencies, TestsOk, Descending;
    RowsMeaning(ly, pats, par, tests, p, tail);
  }

  lemma {:induction false} RowsMeaning(ly: Layout, pats: seq<Pattern>, par: Par, tests: seq<Test>, p: Packet,
                                       tail: seq<Row>)
    requires Complete(p) && ((exists q :: q in pats && PatternMatches(ly, q, p)) ==> Passes(p, tests))
    ensures EvalTable(ly, RowsFor(pats, ToAction(ly, par, tests)) + tail, p) ==
              if exists q :: q in pats && PatternMatches(ly, q, p) then Pkts(par, p) else EvalTable(ly, tail, p)
    decreases |pats|
  {
    hide ToAction, EvalRow, Pkts, PatternMatches, EvalTable;
    var acts := ToAction(ly, par, tests);
    if pats == [] {
      assert RowsFor(pats, acts) + tail == tail;
    } else {
      RowsMeaning(ly, pats[1..], par, tests, p, tail);
      assert RowsFor(pats, acts) + tail == [Row(pats[0], acts)] + (RowsFor(pats[1..], acts) + tail);
      EvalCons(ly, Row(pats[0], acts), RowsFor(pats[1..], acts) + tail, p);
      assert forall q :: q in pats <==> q == pats[0] || q in pats[1..];
      if PatternMatches(ly, pats[0], p) { ActionMeaning(ly, par, tests, pats[0], p); }
    }
  }

  // The optimised table

  /** Every row's pattern satisfies the dependencies between fields. */
  predicate PathsValid(ly: Layout, trueTests: seq<Test>, t: Fdd)
    decreases t
  {
    match t
    case Leaf(_) => IsValidPattern(ly, ToPattern(trueTests))
    case Branch(f, v, tru, fls) => PathsValid(ly, [(f, v)] + trueTests, tru) && PathsValid(ly, trueTests, fls)
  }

  predicate OnPath(t: Fdd, p: Packet) {
    t.Branch? ==> Matches(Get(p, t.field), t.value) && OnPath(t.tru, p)
  }

  lemma {:induction false} PathShape(ly: Layout, t: Fdd, p: Packet)
    requires Canonical(t) && MasksOk(ly, t)
    ensures Descending(PathTests(t)) && TestsOk(ly, PathTests(t))
    ensures forall h, f: Field :: h in PathTests(t) && Below(t, f) ==> f < h.0
    ensures OnPath(t, p) <==> Passes(p, PathTests(t))
  {
    if t.Branch? {
      PathShape(ly, t.tru, p);
      var tests := PathTests(t);
      forall i, j | 0 <= i < j < |tests| ensures tests[i].0 > tests[j].0 {
        assert tests[i] == PathTests(t.tru)[i];
        assert PathTests(t.tru)[i] in PathTests(t.tru);
      }
      assert tests[|tests| - 1] == (t.field, t.value);
    }
  }

  lemma {:induction false} PathValid(ly: Layout, trueTests: seq<Test>, t: Fdd)
    requires PathsValid(ly, trueTests, t)
    ensures IsValidPattern(ly, ToPattern(PathTests(t) + trueTests))
    decreases t
  {
    if t.Branch? {
      PathValid(ly, [(t.field, t.value)] + trueTests, t.tru);
      assert PathTests(t) + trueTests == PathTests(t.tru) + ([(t.field, t.value)] + trueTests);
    } else {
      assert PathTests(t) + trueTests == trueTests;
    }
  }

  /** Peeling off a path keeps the diagram in order. */
  lemma {:induction false} RestShape(ly: Layout, t: Fdd)
    requires Canonical(t) && MasksOk(ly, t) && RestOf(t).Some?
    ensures var r := RestOf(t).value;
            && Canonical(r) && MasksOk(ly, r)
            && (forall f :: Below(t, f) ==> Below(r, f))
            && (forall f, v :: After(t, f, v) ==> After(r, f, v))
  {
    OrderFacts();
    hide Before, Within;
    if RestOf(t.tru).Some? {
      RestShape(ly, t.tru);
    }
  }

  lemma {:induction false} RestValid(ly: Layout, trueTests: seq<Test>, t: Fdd)
    requires PathsValid(ly, trueTests, t) && RestOf(t).Some?
    ensures PathsValid(ly, trueTests, RestOf(t).value)
    decreases t
  {
    hide IsValidPattern, ToPattern;
    if RestOf(t.tru).Some? {
      RestValid(ly, [(t.field, t.value)] + trueTests, t.tru);
    }
  }

  lemma {:induction false} RestMeaning(t: Fdd, p: Packet)
    ensures OnPath(t, p) ==> Lookup(t, p) == PathLeaf(t)
    ensures !OnPath(t, p) ==> RestOf(t).Some? && Lookup(t, p) == Lookup(RestOf(t).value, p)
  {
    if t.Branch? {
      RestMeaning(t.tru, p);
    }
  }

  lemma EvalCons(ly: Layout, row: Row, rows: seq<Row>, p: Packet)
    ensures EvalTable(ly, [row] + rows, p) ==
              if PatternMatches(ly, row.pattern, p) then EvalRow(ly, row, p) else EvalTable(ly, rows, p)
  {
    assert ([row] + rows)[1..] == rows;
  }

  /** The packet hits a row that was made for the path it takes. */
  ghost predicate OwnRow(ly: Layout, t: Fdd, allTests: set<Test>, p: Packet)
    decreases LeafCount(t)
  {
    var seen := allTests + TestSet(PathTests(t));
    if OnPath(t, p) then FlowsMatch(ly, PathTests(t), seen, p)
    else
      RestMeaning(t, p);
      RestSmaller(t);
      OwnRow(ly, RestOf(t).value, seen, p)
  }

  /** The optimised table acts as the leaf that the packet reaches, if it has a row
      for the packet's path; the rows of other paths do not matter. */
  lemma {:induction false} OptMeaning(ly: Layout, t: Fdd, allTests: set<Test>, p: Packet)
    requires Canonical(t) && MasksOk(ly, t) && Arrives(ly, p) && OwnRow(ly, t, allTests, p)
    ensures EvalTable(ly, OptRows(ly, t, allTests), p) == Pkts(Lookup(t, p), p)
    decreases LeafCount(t)
  {
    hide EvalRow, Pkts, MkFlows, ToAction, EvalTable, Arrives, FlowsMatch;
    var tests := PathTests(t);
    var seen := allTests + TestSet(tests);
    PathShape(ly, t, p);
    RestMeaning(t, p);
    MatchMeaning(ly, tests, seen, p);
    var row := MkFlows(ly, tests, seen, ToAction(ly, PathLeaf(t), tests));
    if RestOf(t).Some? {
      RestSmaller(t);
      RestShape(ly, t);
      FlowsMeaning(ly, tests, seen, PathLeaf(t), p, OptRows(ly, RestOf(t).value, seen));
      if !OnPath(t, p) { OptMeaning(ly, RestOf(t).value, seen, p); }
    } else {
      FlowsMeaning(ly, tests, seen, PathLeaf(t), p, []);
      assert row + [] == row;
    }
  }

  /** In a diagram of valid paths all packets have such a row. */
  lemma {:induction false} ValidOwnRow(ly: Layout, t: Fdd, allTests: set<Test>, p: Packet)
    requires Canonical(t) && MasksOk(ly, t) && Arrives(ly, p) && PathsValid(ly, [], t)
    ensures OwnRow(ly, t, allTests, p)
    decreases LeafCount(t)
  {
    hide Arrives, FlowsMatch, PathsValid, IsValidPattern;
    var tests := PathTests(t);
    var seen := allTests + TestSet(tests);
    PathShape(ly, t, p);
    RestMeaning(t, p);
    if OnPath(t, p) {
      PathValid(ly, [], t);
      assert tests + [] == tests;
      MatchMeaning(ly, tests, seen, p);
    } else {
      RestSmaller(t);
      RestShape(ly, t);
      RestValid(ly, [], t);
      ValidOwnRow(ly, RestOf(t).value, seen, p);
    }
  }

  /** A diagram with a path that needs a dependency which an earlier path tests. */
  function LateDependency(ly: Layout): Fdd {
    Branch(ly.dlTyp, Full(0x800), DROP, Branch(ly.nwProto, Full(6), ID, DROP))
  }

  lemma OptRowsLeaf(ly: Layout, seen: set<Test>)
    ensures OptRows(ly, DROP, seen) == [Row(map[], {})]
  {
    var none: seq<Test> := [];
    assert PathTests(DROP) == none && ToPattern(none) == map[] && RestOf(DROP) == None;
    assert ToAction(ly, ZERO, none) == {};
    assert FillInDependencies(ly, seen + TestSet(none), map[]) == [map[]];
  }

  /** The dependency of a protocol test has been seen: no pattern is left. */
  lemma ProtocolRows(ly: Layout, seen: set<Test>, pat: Pattern)
    requires pat == map[ly.nwProto := Full(6)] && (ly.dlTyp, Full(0x800)) in seen
    requires ly.nwProto !in {ly.dlTyp, ly.nwSrc, ly.nwDst, ly.tpSrc, ly.tpDst}
    ensures FillInDependencies(ly, seen, pat) == []
  {
  }

  lemma OptRowsUnfold(ly: Layout, t: Fdd, seen: set<Test>, rest: Fdd)
    requires RestOf(t) == Some(rest)
    ensures var now := seen + TestSet(PathTests(t));
            OptRows(ly, t, seen) ==
              MkFlows(ly, PathTests(t), now, ToAction(ly, PathLeaf(t), PathTests(t))) + OptRows(ly, rest, now)
  {
  }

  /** Without valid rows the table can be wrong: the dependency counts as seen, so
      the second path gets no row, and its packets are dropped. */
  lemma SeenDependencyDropsRow(ly: Layout, p: Packet)
    requires ly.dlTyp < ly.nwProto && ly.nwProto !in {ly.nwSrc, ly.nwDst, ly.tpSrc, ly.tpDst}
    requires ly.dlTyp !in {ly.nwSrc, ly.nwDst, ly.tpSrc, ly.tpDst}
    requires Complete(p) && Get(p, ly.dlTyp) != 0x800 && Get(p, ly.nwProto) == 6
    ensures Canonical(LateDependency(ly)) && !PathsValid(ly, [], LateDependency(ly))
    ensures Pkts(Lookup(LateDependency(ly), p), p) == {p}
    ensures EvalTable(ly, OptRows(ly, LateDependency(ly), {}), p) == {}
  {
    var t, u := LateDependency(ly), Branch(ly.nwProto, Full(6), ID, DROP);
    var one: seq<Test> := [(ly.dlTyp, Full(0x800))];
    var two: seq<Test> := [(ly.nwProto, Full(6))];
    LateShape(ly);
    LateMeaning(ly, p);
    assert two + [] == two;
    assert !PathsValid(ly, [], u) by { assert !IsValidPattern(ly, ToPattern(two)); }
    hide OptRows, ToAction, PathTests, RestOf, PathLeaf;
    var seen1: set<Test> := {} + TestSet(one);
    var seen2 := seen1 + TestSet(two);
    OptRowsUnfold(ly, t, {}, u);
    OptRowsUnfold(ly, u, seen1, DROP);
    OptRowsLeaf(ly, seen2);
    ProtocolRows(ly, seen2, ToPattern(two));
    var last := [Row(map[], {})];
    var row := Row(ToPattern(one), ToAction(ly, ZERO, one));
    assert MkFlows(ly, one, seen1, ToAction(ly, ZERO, one)) == [row];
    assert MkFlows(ly, two, seen2, ToAction(ly, ONE, two)) == [];
    assert OptRows(ly, t, {}) == [row] + last;
    EvalCons(ly, row, last, p);
    EvalCons(ly, last[0], [], p);
    assert last + [] == last;
  }

  lemma LateMeaning(ly: Layout, p: Packet)
    requires ly.dlTyp < ly.nwProto && Get(p, ly.dlTyp) != 0x800 && Get(p, ly.nwProto) == 6
    ensures Canonical(LateDependency(ly)) && Pkts(Lookup(LateDependency(ly), p), p) == {p}
  {
    OrderFacts();
    assert SKIP in ONE && Run(SKIP, p) == p;
    assert ID != DROP;
    var u := Branch(ly.nwProto, Full(6), ID, DROP);
    assert Canonical(ID) && Canonical(DROP);
    assert Canonical(u);
    assert Matches(Get(p, ly.nwProto), Full(6)) && Lookup(u, p) == Lookup(ID, p) == ONE;
    assert Lookup(LateDependency(ly), p) == Lookup(u, p);
    assert Pkts(ONE, p) == {p};
  }

  lemma LateShape(ly: Layout)
    ensures var t, u := LateDependency(ly), Branch(ly.nwProto, Full(6), ID, DROP);
            && PathTests(t) == [(ly.dlTyp, Full(0x800))] && PathTests(u) == [(ly.nwProto, Full(6))]
            && PathLeaf(t) == ZERO && PathLeaf(u) == ONE && RestOf(t) == Some(u) && RestOf(u) == Some(DROP)
            && ToPattern(PathTests(t)) == map[ly.dlTyp := Full(0x800)] &&
               ToPattern(PathTests(u)) == map[ly.nwProto := Full(6)]
  {
    var none: seq<Test> := [];
    assert PathTests(DROP) == none && PathTests(ID) == none;
    var t, u := LateDependency(ly), Branch(ly.nwProto, Full(6), ID, DROP);
    assert PathTests(t)[1..] == none && PathTests(u)[1..] == none;
    assert ToPattern(none) == map[];
  }

  // The naive table

  ghost predicate OwnNaiveRow(ly: Layout, trueTests: seq<Test>, allTests: set<Test>, t: Fdd, p: Packet)
    decreases t
  {
    match t
    case Leaf(_) => FlowsMatch(ly, trueTests, allTests, p)
    case Branch(f, v, tru, fls) =>
      if Matches(Get(p, f), v) then OwnNaiveRow(ly, [(f, v)] + trueTests, allTests + {(f, v)}, tru, p)
      else OwnNaiveRow(ly, trueTests, allTests + {(f, v)}, fls, p)
  }

  /** The naive table, too, needs a row for the path of the packet only. */
  lemma {:induction false} NaiveMeaning(ly: Layout, trueTests: seq<Test>, allTests: set<Test>, t: Fdd, p: Packet,
                                        tail: seq<Row>)
    requires Canonical(t) && MasksOk(ly, t) && Arrives(ly, p)
    requires Descending(trueTests) && TestsOk(ly, trueTests) && forall h :: h in trueTests ==> Below(t, h.0)
    requires Passes(p, trueTests) ==> OwnNaiveRow(ly, trueTests, allTests, t, p)
    ensures EvalTable(ly, NaiveRows(ly, trueTests, allTests, t) + tail, p) ==
              if Passes(p, trueTests) then Pkts(Lookup(t, p), p) else EvalTable(ly, tail, p)
    decreases t
  {
    hide EvalRow, Pkts, MkFlows, ToAction, EvalTable, Arrives, FlowsMatch;
    match t
    case Leaf(par) =>
      FlowsMeaning(ly, trueTests, allTests, par, p, tail);
      MatchMeaning(ly, trueTests, allTests, p);
    case Branch(f, v, tru, fls) =>
      var more := [(f, v)] + trueTests;
      NaiveTests(ly, trueTests, t);
      NaiveBranch(ly, trueTests, allTests, t, p, tail);
      hide TestsOk, MasksOk, Descending, Lookup, Below, NaiveRows;
      var seen := allTests + {(f, v)};
      NaiveMeaning(ly, more, seen, tru, p, NaiveRows(ly, trueTests, seen, fls) + tail);
      if !Passes(p, more) { NaiveMeaning(ly, trueTests, seen, fls, p, tail); }
  }

  lemma {:induction false} ValidOwnNaiveRow(ly: Layout, trueTests: seq<Test>, allTests: set<Test>, t: Fdd, p: Packet)
    requires Canonical(t) && MasksOk(ly, t) && PathsValid(ly, trueTests, t) && Arrives(ly, p) && Passes(p, trueTests)
    requires Descending(trueTests) && TestsOk(ly, trueTests) && forall h :: h in trueTests ==> Below(t, h.0)
    ensures OwnNaiveRow(ly, trueTests, allTests, t, p)
    decreases t
  {
    hide Arrives, FlowsMatch, IsValidPattern;
    match t
    case Leaf(_) => MatchMeaning(ly, trueTests, allTests, p);
    case Branch(f, v, tru, fls) =>
      NaiveTests(ly, trueTests, t);
      PassesCons(p, f, v, trueTests);
      if Matches(Get(p, f), v) {
        ValidOwnNaiveRow(ly, [(f, v)] + trueTests, allTests + {(f, v)}, tru, p);
      } else {
        ValidOwnNaiveRow(ly, trueTests, allTests + {(f, v)}, fls, p);
      }
  }

  lemma NaiveBranch(ly: Layout, trueTests: seq<Test>, allTests: set<Test>, t: Fdd, p: Packet, tail: seq<Row>)
    requires t.Branch?
    ensures var (seen, more) := (allTests + {(t.field, t.value)}, [(t.field, t.value)] + trueTests);
            && NaiveRows(ly, trueTests, allTests, t) + tail ==
                 NaiveRows(ly, more, seen, t.tru) + (NaiveRows(ly, trueTests, seen, t.fls) + tail)
            && (Passes(p, more) <==> Matches(Get(p, t.field), t.value) && Passes(p, trueTests))
            && Lookup(t, p) == if Matches(Get(p, t.field), t.value) then Lookup(t.tru, p) else Lookup(t.fls, p)
  {
    var seen := allTests + {(t.field, t.value)};
    var more := [(t.field, t.value)] + trueTests;
    var onTrue, onFalse := NaiveRows(ly, more, seen, t.tru), NaiveRows(ly, trueTests, seen, t.fls);
    assert onTrue + onFalse + tail == onTrue + (onFalse + tail);
    PassesCons(p, t.field, t.value, trueTests);
  }

  /** The tests passed on the way to a true branch. */
  lemma NaiveTests(ly: Layout, trueTests: seq<Test>, t: Fdd)
    requires Canonical(t) && t.Branch? && MasksOk(ly, t)
    requires Descending(trueTests) && TestsOk(ly, trueTests) && forall h :: h in trueTests ==> Below(t, h.0)
    ensures var more := [(t.field, t.value)] + trueTests;
            Descending(more) && TestsOk(ly, more) && forall h :: h in more ==> Below(t.tru, h.0)
    ensures forall h :: h in trueTests ==> Below(t.fls, h.0)
    ensures MasksOk(ly, t.tru) && MasksOk(ly, t.fls)
  {
    var more := [(t.field, t.value)] + trueTests;
    forall i, j | 0 <= i < j < |more| ensures more[i].0 > more[j].0 {
      assert more[j] in trueTests;
      if i > 0 { assert more[i] == trueTests[i - 1] && more[j] == trueTests[j - 1]; }
    }
  }

  lemma PassesCons(p: Packet, f: Field, v: Prefix, tests: seq<Test>)
    ensures Passes(p, [(f, v)] + tests) <==> Matches(Get(p, f), v) && Passes(p, tests)
  {
    assert ([(f, v)] + tests)[0] == (f, v);
    assert forall t :: t in [(f, v)] + tests <==> t == (f, v) || t in tests;
  }

  // Options

  /** Exactly the drops at the end are gone. */
  lemma {:induction false} TailExact(rows: seq<Row>)
    ensures var r := RemoveTailDrops(rows);
            && r <= rows && (r != [] ==> !IsDrop(r[|r| - 1]))
            && forall i :: |r| <= i < |rows| ==> IsDrop(rows[i])
    decreases |rows|
  {
    if rows != [] && IsDrop(rows[|rows| - 1]) {
      TailExact(rows[..|rows| - 1]);
    }
  }

  lemma {:induction false} TailMeaning(ly: Layout, rows: seq<Row>, p: Packet)
    requires forall r, a :: r in rows && a in r.actions ==> a != []
    ensures EvalTable(ly, RemoveTailDrops(rows), p) == EvalTable(ly, rows, p)
    decreases |rows|
  {
    if rows != [] && IsDrop(rows[|rows| - 1]) {
      var init, last := rows[..|rows| - 1], rows[|rows| - 1];
      assert last.actions == {} by { assert forall a :: a in last.actions ==> a == [] && last in rows; }
      TailMeaning(ly, init, p);
      DropLast(ly, init, last, p);
      assert rows == init + [last];
    }
  }

  lemma {:induction false} DropLast(ly: Layout, rows: seq<Row>, last: Row, p: Packet)
    requires last.actions == {}
    ensures EvalTable(ly, rows + [last], p) == EvalTable(ly, rows, p)
  {
    if rows == [] {
      EvalCons(ly, last, [], p);
      assert rows + [last] == [last] + [];
    } else {
      DropLast(ly, rows[1..], last, p);
      assert rows + [last] == [rows[0]] + (rows[1..] + [last]);
      EvalCons(ly, rows[0], rows[1..] + [last], p);
    }
  }

  lemma {:induction false} DedupTestsMeaning(lst: seq<(Field, int)>, x: Fdd, p: Packet)
    requires Canonical(x) && Complete(p)
    ensures Canonical(DedupTests(lst, x))
    ensures RunPar(Lookup(DedupTests(lst, x), p), p) == RunPar(Lookup(x, p), p)
    decreases |lst|
  {
    hide Cond, RunPar, Demod;
    if lst != [] {
      var (f, v) := (lst[0].0, Full(lst[0].1));
      var y := MapR(a => Demod(f, v, a), x);
      CanonicalMapR(a => Demod(f, v, a), x);
      CanonicalCond(f, v, y, x);
      CondMeaning(f, v, y, x, p);
      MapRMeaning(a => Demod(f, v, a), x, p);
      if Matches(Get(p, f), v) { DemodMeaning(f, v, Lookup(x, p), p); }
      DedupTestsMeaning(lst[1..], Cond(f, v, y, x), p);
    }
  }

  /** `dedup` changes no forwarding, whichever assignments it considers. */
  lemma {:induction false} DedupMeaning(toHvs: Par -> seq<(Field, int)>, x: Fdd, p: Packet)
    requires Canonical(x) && Complete(p)
    ensures Canonical(Dedup(toHvs, x))
    ensures RunPar(Lookup(Dedup(toHvs, x), p), p) == RunPar(Lookup(x, p), p)
  {
    hide Cond, RunPar, DedupTests, Filtered, Harmful;
    match x
    case Leaf(par) => DedupTestsMeaning(Filtered(toHvs(par), Harmful(par)), x, p);
    case Branch(f, v, t, e) =>
      DedupMeaning(toHvs, t, p);
      DedupMeaning(toHvs, e, p);
      CanonicalCond(f, v, Dedup(toHvs, t), Dedup(toHvs, e));
      CondMeaning(f, v, Dedup(toHvs, t), Dedup(toHvs, e), p);
  }

  lemma {:induction false} RowsNotEmpty(ly: Layout, t: Fdd, trueTests: seq<Test>, allTests: set<Test>)
    ensures forall r, a :: r in NaiveRows(ly, trueTests, allTests, t) && a in r.actions ==> a != []
    decreases t
  {
    hide FillInDependencies, DemodAll, Modifies, ToPattern;
    if t.Branch? {
      RowsNotEmpty(ly, t.tru, [(t.field, t.value)] + trueTests, allTests + {(t.field, t.value)});
      RowsNotEmpty(ly, t.fls, trueTests, allTests + {(t.field, t.value)});
    } else {
      FlowsNotEmpty(ly, trueTests, allTests, t.par);
    }
  }

  lemma FlowsNotEmpty(ly: Layout, tests: seq<Test>, allTests: set<Test>, par: Par)
    ensures forall r, a :: r in MkFlows(ly, tests, allTests, ToAction(ly, par, tests)) && a in r.actions ==> a != []
  {
    hide FillInDependencies, DemodAll, ToPattern;
    forall s ensures SdnOf(ly, GetInPort(ly, tests), s) != [] {
      ModifiesNotEmpty(s.mods - {ly.location}, OutputOf(ly, GetInPort(ly, tests), s));
    }
  }

  lemma {:induction false} ModifiesNotEmpty(mods: map<Field, int>, last: Sdn)
    ensures Modifies(mods, last) != []
  {
  }

  lemma {:induction false} OptRowsNotEmpty(ly: Layout, t: Fdd, allTests: set<Test>)
    ensures forall r, a :: r in OptRows(ly, t, allTests) && a in r.actions ==> a != []
    decreases LeafCount(t)
  {
    hide MkFlows, ToAction;
    var tests := PathTests(t);
    var seen := allTests + TestSet(tests);
    FlowsNotEmpty(ly, tests, seen, PathLeaf(t));
    if RestOf(t).Some? {
      RestSmaller(t);
      OptRowsNotEmpty(ly, RestOf(t).value, seen);
    }
  }

  /** The diagram that the rows are made of. */
  function Prepared(ly: Layout, opts: Options, toHvs: Par -> seq<(Field, int)>, sw: int, t: Fdd): Fdd {
    Restrict(SwitchTests(ly, sw, opts.optimize), if opts.dedupFlows then Dedup(toHvs, t) else t)
  }

  /** The packet is at switch `sw`, in the fabric the optimised table is for. */
  predicate AtSwitch(ly: Layout, opts: Options, sw: int, p: Packet) {
    Get(p, ly.switch) == sw && (opts.optimize ==> Get(p, ly.vfabric) == 1)
  }

  lemma PreparedMeaning(ly: Layout, opts: Options, toHvs: Par -> seq<(Field, int)>, sw: int, t: Fdd, p: Packet)
    requires Canonical(t) && Complete(p) && AtSwitch(ly, opts, sw, p)
    ensures Canonical(Prepared(ly, opts, toHvs, sw, t))
    ensures RunPar(Lookup(Prepared(ly, opts, toHvs, sw, t), p), p) == RunPar(Lookup(t, p), p)
  {
    hide RunPar;
    var lst := SwitchTests(ly, sw, opts.optimize);
    var t1 := if opts.dedupFlows then Dedup(toHvs, t) else t;
    if opts.dedupFlows { DedupMeaning(toHvs, t, p); }
    CanonicalRestrict(lst, t1);
    DecidesFull(lst, t1);
    OrderFacts();
    RestrictMeaning(lst, t1, p);
  }

  /** The packet hits a row that was made for the path it takes. */
  ghost predicate HasRow(ly: Layout, opts: Options, t: Fdd, p: Packet) {
    if opts.optimize then OwnRow(ly, t, {}, p) else OwnNaiveRow(ly, [], {}, t, p)
  }

  /** With valid paths only, every packet that arrives has a row. */
  lemma ValidHasRow(ly: Layout, opts: Options, t: Fdd, p: Packet)
    requires Canonical(t) && MasksOk(ly, t) && PathsValid(ly, [], t) && Arrives(ly, p)
    ensures HasRow(ly, opts, t, p)
  {
    hide OwnRow, OwnNaiveRow, PathsValid;
    if opts.optimize { ValidOwnRow(ly, t, {}, p); } else { ValidOwnNaiveRow(ly, [], {}, t, p); }
  }

  /** All options give a table that forwards a packet as the diagram, if it has a row
      for the packet's path. */
  lemma TableMeaning(ly: Layout, opts: Options, toHvs: Par -> seq<(Field, int)>, sw: int, t: Fdd, p: Packet)
    requires Canonical(t) && Arrives(ly, p) && AtSwitch(ly, opts, sw, p)
    requires MasksOk(ly, Prepared(ly, opts, toHvs, sw, t)) && HasRow(ly, opts, Prepared(ly, opts, toHvs, sw, t), p)
    ensures EvalTable(ly, ToTable(ly, opts, toHvs, sw, t), p) == Pkts(Lookup(t, p), p)
  {
    hide EvalTable, OptRows, NaiveRows, RemoveTailDrops, RunPar, Pkts, Lookup, OwnRow, OwnNaiveRow;
    var t2 := Prepared(ly, opts, toHvs, sw, t);
    PreparedMeaning(ly, opts, toHvs, sw, t, p);
    PktsOfRunPar(Lookup(t2, p), Lookup(t, p), p);
    PktsOfRunPar(Lookup(t, p), Lookup(t2, p), p);
    var rows := if opts.optimize then OptRows(ly, t2, {}) else NaiveRows(ly, [], {}, t2);
    if opts.optimize {
      OptMeaning(ly, t2, {}, p);
      OptRowsNotEmpty(ly, t2, {});
    } else {
      NaiveMeaning(ly, [], {}, t2, p, []);
      assert rows + [] == rows;
      RowsNotEmpty(ly, t2, [], {});
    }
    TailMeaning(ly, rows, p);
  }
}
