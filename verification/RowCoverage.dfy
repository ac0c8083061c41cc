/** When a table has a row for every packet. */
module RowCoverage {

  import opened Prefixes
  import opened Values
  import opened Actions
  import opened Fdds
  import opened FlowTables
  import opened TableCorrectness
  import opened LocalCompiler
  import S = Semantics

  // The path that a packet takes through a table

  /** The tests of the row that the optimised table makes for the packet. */
  ghost function TakenPath(t: Fdd, p: Packet): seq<Test>
    decreases LeafCount(t)
  {
    if OnPath(t, p) then PathTests(t)
    else
      RestMeaning(t, p);
      RestSmaller(t);
      TakenPath(RestOf(t).value, p)
  }

  /** The tests that it has seen by then. */
  ghost function TakenSeen(t: Fdd, allTests: set<Test>, p: Packet): set<Test>
    decreases LeafCount(t)
  {
    var seen := allTests + TestSet(PathTests(t));
    if OnPath(t, p) then seen
    else
      RestMeaning(t, p);
      RestSmaller(t);
      TakenSeen(RestOf(t).value, seen, p)
  }

  lemma {:induction false} OwnRowPath(ly: Layout, t: Fdd, allTests: set<Test>, p: Packet)
    requires Canonical(t) && MasksOk(ly, t)
    ensures OwnRow(ly, t, allTests, p) <==> FlowsMatch(ly, TakenPath(t, p), TakenSeen(t, allTests, p), p)
    ensures Descending(TakenPath(t, p)) && TestsOk(ly, TakenPath(t, p)) && Passes(p, TakenPath(t, p))
    decreases LeafCount(t)
  {
    hide FlowsMatch;
    PathShape(ly, t, p);
    if !OnPath(t, p) {
      RestMeaning(t, p);
      RestSmaller(t);
      RestShape(ly, t);
      OwnRowPath(ly, RestOf(t).value, allTests + TestSet(PathTests(t)), p);
    }
  }

  ghost function NaivePath(trueTests: seq<Test>, t: Fdd, p: Packet): seq<Test>
    decreases t
  {
    match t
    case Leaf(_) => trueTests
    case Branch(f, v, tru, fls) =>
      if Matches(Get(p, f), v) then NaivePath([(f, v)] + trueTests, tru, p) else NaivePath(trueTests, fls, p)
  }

  ghost function NaiveSeen(allTests: set<Test>, t: Fdd, p: Packet): set<Test>
    decreases t
  {
    match t
    case Leaf(_) => allTests
    case Branch(f, v, tru, fls) => NaiveSeen(allTests + {(f, v)}, if Matches(Get(p, f), v) then tru else fls, p)
  }

  lemma {:induction false} OwnNaiveRowPath(ly: Layout, trueTests: seq<Test>, allTests: set<Test>, t: Fdd, p: Packet)
    requires Canonical(t) && MasksOk(ly, t) && Passes(p, trueTests)
    requires Descending(trueTests) && TestsOk(ly, trueTests) && forall h :: h in trueTests ==> Below(t, h.0)
    ensures var path := NaivePath(trueTests, t, p);
            && (OwnNaiveRow(ly, trueTests, allTests, t, p) <==> FlowsMatch(ly, path, NaiveSeen(allTests, t, p), p))
            && Descending(path) && TestsOk(ly, path) && Passes(p, path)
    decreases t
  {
    hide FlowsMatch;
    match t
    case Leaf(_) =>
    case Branch(f, v, tru, fls) =>
      NaiveTests(ly, trueTests, t);
      PassesCons(p, f, v, trueTests);
      if Matches(Get(p, f), v) {
        OwnNaiveRowPath(ly, [(f, v)] + trueTests, allTests + {(f, v)}, tru, p);
      } else {
        OwnNaiveRowPath(ly, trueTests, allTests + {(f, v)}, fls, p);
      }
  }

  /** The path that the packet takes through the table. */
  ghost function TablePath(opts: Options, t: Fdd, p: Packet): seq<Test> {
    if opts.optimize then TakenPath(t, p) else NaivePath([], t, p)
  }

  /** The tests of this path and of the paths before it. */
  ghost function SeenTests(opts: Options, t: Fdd, p: Packet): set<Test> {
    if opts.optimize then TakenSeen(t, {}, p) else NaiveSeen({}, t, p)
  }

  lemma HasRowPath(ly: Layout, opts: Options, t: Fdd, p: Packet)
    requires Canonical(t) && MasksOk(ly, t)
    ensures HasRow(ly, opts, t, p) <==> FlowsMatch(ly, TablePath(opts, t, p), SeenTests(opts, t, p), p)
    ensures var path := TablePath(opts, t, p); Descending(path) && TestsOk(ly, path) && Passes(p, path)
  {
    hide FlowsMatch, OwnRow, OwnNaiveRow;
    if opts.optimize { OwnRowPath(ly, t, {}, p); } else { OwnNaiveRowPath(ly, [], {}, t, p); }
  }

  // Values that no test of a field matches

  predicate FreshIn(f: Field, x: int, t: Fdd) {
    t.Branch? ==> (t.field == f ==> !Matches(x, t.value)) && FreshIn(f, x, t.tru) && FreshIn(f, x, t.fls)
  }

  lemma {:induction false} ShrTimes(c: int, k: nat)
    ensures Shr(Pow2(k) * c, k) == c
  {
    if k > 0 {
      assert Pow2(k) * c / 2 == Pow2(k - 1) * c;
      ShrTimes(c, k - 1);
    }
  }

  /** Greater than all that the prefix matches. */
  function Above(v: Prefix): int {
    if v.len > WIDTH then 0 else Pow2(WIDTH - v.len) * (v.bits + 1)
  }

  lemma AboveMisses(v: Prefix, x: int)
    requires x >= Above(v)
    ensures !Matches(x, v)
  {
    if v.len <= WIDTH {
      ShrTimes(v.bits + 1, WIDTH - v.len);
      ShrMonotone(Above(v), x, WIDTH - v.len);
    }
  }

  function Max(a: int, b: int): int {
    if a < b then b else a
  }

  /** Greater than all that tests of the field match, and than `least`. */
  function Top(f: Field, least: int, t: Fdd): (r: int)
    ensures r >= least
  {
    match t
    case Leaf(_) => least
    case Branch(g, v, tru, fls) => Max(if g == f then Above(v) else least, Max(Top(f, least, tru), Top(f, least, fls)))
  }

  lemma {:induction false} TopIsFresh(f: Field, least: int, t: Fdd, x: int)
    requires x >= Top(f, least, t)
    ensures FreshIn(f, x, t)
  {
    if t.Branch? {
      TopIsFresh(f, least, t.tru, x);
      TopIsFresh(f, least, t.fls, x);
      if t.field == f { AboveMisses(t.value, x); }
    }
  }

  lemma {:induction false} FreshRest(f: Field, x: int, t: Fdd)
    requires FreshIn(f, x, t) && RestOf(t).Some?
    ensures FreshIn(f, x, RestOf(t).value)
  {
    if RestOf(t.tru).Some? {
      FreshRest(f, x, t.tru);
    }
  }

  // A fresh value keeps the path, if the path leaves the field open

  predicate Open(f: Field, tests: seq<Test>) {
    forall t :: t in tests ==> t.0 != f
  }

  lemma {:induction false} OnPathFresh(t: Fdd, p: Packet, f: Field, x: int)
    requires FreshIn(f, x, t) && (OnPath(t, p) ==> Open(f, PathTests(t)))
    ensures OnPath(t, p[f := x]) <==> OnPath(t, p)
  {
    if t.Branch? {
      if OnPath(t, p) {
        assert PathTests(t)[|PathTests(t.tru)|] == (t.field, t.value);
        assert forall h :: h in PathTests(t.tru) ==> h in PathTests(t);
        OnPathFresh(t.tru, p, f, x);
      } else if t.field != f && Matches(Get(p, t.field), t.value) {
        OnPathFresh(t.tru, p, f, x);
      }
    }
  }

  lemma {:induction false} TakenFresh(t: Fdd, p: Packet, f: Field, x: int)
    requires FreshIn(f, x, t) && Open(f, TakenPath(t, p))
    ensures TakenPath(t, p[f := x]) == TakenPath(t, p)
    decreases LeafCount(t)
  {
    OnPathFresh(t, p, f, x);
    if !OnPath(t, p) {
      RestMeaning(t, p);
      RestSmaller(t);
      FreshRest(f, x, t);
      TakenFresh(RestOf(t).value, p, f, x);
    }
  }

  lemma {:induction false} NaiveKeeps(trueTests: seq<Test>, t: Fdd, p: Packet)
    ensures forall h :: h in trueTests ==> h in NaivePath(trueTests, t, p)
    decreases t
  {
    if t.Branch? {
      NaiveKeeps([(t.field, t.value)] + trueTests, t.tru, p);
      NaiveKeeps(trueTests, t.fls, p);
    }
  }

  lemma {:induction false} NaiveFresh(trueTests: seq<Test>, t: Fdd, p: Packet, f: Field, x: int)
    requires FreshIn(f, x, t) && Open(f, NaivePath(trueTests, t, p))
    ensures NaivePath(trueTests, t, p[f := x]) == NaivePath(trueTests, t, p)
    decreases t
  {
    if t.Branch? {
      var more := [(t.field, t.value)] + trueTests;
      if Matches(Get(p, t.field), t.value) {
        NaiveKeeps(more, t.tru, p);
        assert more[0] in more;
        NaiveFresh(more, t.tru, p, f, x);
      } else {
        NaiveFresh(trueTests, t.fls, p, f, x);
      }
    }
  }

  lemma PathFresh(opts: Options, t: Fdd, p: Packet, f: Field, x: int)
    requires FreshIn(f, x, t) && Open(f, TablePath(opts, t, p))
    ensures TablePath(opts, t, p[f := x]) == TablePath(opts, t, p)
  {
    if opts.optimize { TakenFresh(t, p, f, x); } else { NaiveFresh([], t, p, f, x); }
  }

  // Every packet has a row

  /** A packet of another kind that takes the same path. */
  lemma OtherOnPath(ly: Layout, opts: Options, t: Fdd, p: Packet) returns (q: Packet)
    requires FieldsDiffer(ly) && Arrives(ly, p) && Descending(TablePath(opts, t, p))
    ensures Arrives(ly, q) && TablePath(opts, t, q) == TablePath(opts, t, p)
    ensures OtherKind(ly, ToPattern(TablePath(opts, t, p)), q)
  {
    hide TablePath;
    var path := TablePath(opts, t, p);
    PatternFields(path);
    var x, y := Top(ly.dlTyp, 0x807, t), Top(ly.nwProto, 18, t);
    TopIsFresh(ly.dlTyp, 0x807, t, x);
    TopIsFresh(ly.nwProto, 18, t, y);
    q := p;
    if ly.dlTyp !in ToPattern(path) {
      PathFresh(opts, t, q, ly.dlTyp, x);
      q := q[ly.dlTyp := x];
    }
    if ly.nwProto !in ToPattern(path) {
      PathFresh(opts, t, q, ly.nwProto, y);
      q := q[ly.nwProto := y];
    }
    forall f | f in AddressFields(ly) ensures Get(q, f) == Get(p, f) {
    }
  }

  /** A table has a row for every packet that arrives if and only if every path that some
      packet takes has a valid pattern. */
  lemma HasRowIff(ly: Layout, opts: Options, t: Fdd)
    requires FieldsDiffer(ly) && Canonical(t) && MasksOk(ly, t)
    ensures (forall p :: Arrives(ly, p) ==> HasRow(ly, opts, t, p))
            <==> forall p :: Arrives(ly, p) ==> IsValidPattern(ly, ToPattern(TablePath(opts, t, p)))
  {
    hide Arrives, HasRow, TablePath, Canonical, MasksOk, IsValidPattern, FlowsMatch;
    forall p | Arrives(ly, p) && IsValidPattern(ly, ToPattern(TablePath(opts, t, p))) ensures HasRow(ly, opts, t, p) {
      HasRowPath(ly, opts, t, p);
      MatchMeaning(ly, TablePath(opts, t, p), SeenTests(opts, t, p), p);
    }
    if p :| Arrives(ly, p) && !IsValidPattern(ly, ToPattern(TablePath(opts, t, p))) {
      HasRowPath(ly, opts, t, p);
      var q := OtherOnPath(ly, opts, t, p);
      HasRowPath(ly, opts, t, q);
      NoFlowMatches(ly, TablePath(opts, t, q), SeenTests(opts, t, q), q);
    }
  }

  lemma NoFlowMatches(ly: Layout, tests: seq<Test>, seen: set<Test>, q: Packet)
    requires FieldsDiffer(ly) && !IsValidPattern(ly, ToPattern(tests)) && OtherKind(ly, ToPattern(tests), q)
    ensures !FlowsMatch(ly, tests, seen, q)
  {
    hide IsValidPattern, OtherKind, FillInDependencies, PatternMatches;
    forall r | r in FillInDependencies(ly, seen, ToPattern(tests)) ensures !PatternMatches(ly, r, q) {
      InvalidMisses(ly, seen, ToPattern(tests), r, q);
    }
  }

  // The packets that the rows of a path catch

  /** No test for the value has been seen, in any writing. */
  ghost predicate Unseen(seen: set<Test>, f: Field, x: int) {
    forall t :: t in seen && t.0 == f ==> t.1.bits != x || t.1.len != WIDTH
  }

  /** What the rows of a path ask of a packet beyond the tests of the path.  Where the
      type is open, tests of addresses ask for IP or ARP, and tests of the protocol for
      IP.  Where the protocol is open, tests of ports ask for TCP or UDP, and for IP if
      the type is open, too.  There is no row for what an earlier test has seen. */
  ghost predicate Asked(ly: Layout, tests: seq<Test>, seen: set<Test>, p: Packet) {
    var typ, proto := Get(p, ly.dlTyp), Get(p, ly.nwProto);
    if Open(ly.dlTyp, tests) && !(Open(ly.nwSrc, tests) && Open(ly.nwDst, tests)) then
      (typ == 0x800 || typ == 0x806) && Unseen(seen, ly.dlTyp, typ)
    else if Open(ly.dlTyp, tests) && !Open(ly.nwProto, tests) then
      typ == 0x800 && Unseen(seen, ly.dlTyp, typ)
    else if Open(ly.nwProto, tests) && !(Open(ly.tpSrc, tests) && Open(ly.tpDst, tests)) then
      && (proto == 6 || proto == 17) && Unseen(seen, ly.nwProto, proto)
      && (Open(ly.dlTyp, tests) && Unseen(seen, ly.dlTyp, 0x800) ==> typ == 0x800)
    else true
  }

  lemma OpenFields(tests: seq<Test>)
    requires Descending(tests)
    ensures forall f: Field :: Open(f, tests) <==> f !in ToPattern(tests)
  {
    PatternFields(tests);
  }

  lemma SeenMeaning(seen: set<Test>, f: Field, x: int)
    ensures Seen(seen, (f, Full(x))) <==> !Unseen(seen, f, x)
  {
  }

  /** A pattern with one more field. */
  lemma MoreMatches(ly: Layout, pat: Pattern, f: Field, x: int, p: Packet)
    requires f !in pat && f != ly.nwSrc && f != ly.nwDst
    ensures PatternMatches(ly, pat[f := Full(x)], p) <==> PatternMatches(ly, pat, p) && Get(p, f) == x
  {
    var more := pat[f := Full(x)];
    assert FieldMatches(ly, f, Full(x), Get(p, f)) <==> Get(p, f) == x;
    if PatternMatches(ly, more, p) {
      assert f in more;
      forall g | g in pat ensures FieldMatches(ly, g, pat[g], Get(p, g)) { assert g in more && more[g] == pat[g]; }
    }
  }

  ghost predicate Caught(ly: Layout, pats: seq<Pattern>, p: Packet) {
    exists q :: q in pats && PatternMatches(ly, q, p)
  }

  /** The rows of two dependencies. */
  lemma CaughtEither(ly: Layout, seen: set<Test>, pat: Pattern, f: Field, x: int, y: int, p: Packet)
    ensures var a := AddDependencyIfUnseen(seen, pat, (f, Full(x)));
            var b := AddDependencyIfUnseen(seen, pat, (f, Full(y)));
            Caught(ly, a + b, p)
            <==> (Unseen(seen, f, x) && PatternMatches(ly, pat[f := Full(x)], p)) ||
                 (Unseen(seen, f, y) && PatternMatches(ly, pat[f := Full(y)], p))
  {
    hide PatternMatches;
    SeenMeaning(seen, f, x);
    SeenMeaning(seen, f, y);
    var a, b := AddDependencyIfUnseen(seen, pat, (f, Full(x))), AddDependencyIfUnseen(seen, pat, (f, Full(y)));
    if Unseen(seen, f, x) { assert (a + b)[0] == pat[f := Full(x)]; }
    if Unseen(seen, f, y) { assert (a + b)[|a|] == pat[f := Full(y)]; }
  }

  lemma AddressRows(ly: Layout, seen: set<Test>, pat: Pattern, p: Packet)
    requires FieldsDiffer(ly) && (ly.nwSrc in pat || ly.nwDst in pat) && ly.dlTyp !in pat
    ensures var typ := Get(p, ly.dlTyp);
            Caught(ly, FillInDependencies(ly, seen, pat), p) <==>
            PatternMatches(ly, pat, p) && (typ == 0x800 || typ == 0x806) && Unseen(seen, ly.dlTyp, typ)
  {
    hide PatternMatches, Caught, Seen, Unseen;
    var (ip, arp) := ((ly.dlTyp, Full(0x800)), (ly.dlTyp, Full(0x806)));
    var ports := (ly.tpSrc in pat || ly.tpDst in pat) && ly.nwProto !in pat;
    var base := if ports && !Seen(seen, ip) then pat[ly.dlTyp := Full(0x800)] else pat;
    assert FillInDependencies(ly, seen, pat) ==
           AddDependencyIfUnseen(seen, base, ip) + AddDependencyIfUnseen(seen, base, arp);
    CaughtEither(ly, seen, base, ly.dlTyp, 0x800, 0x806, p);
    assert base[ly.dlTyp := Full(0x800)] == pat[ly.dlTyp := Full(0x800)];
    assert base[ly.dlTyp := Full(0x806)] == pat[ly.dlTyp := Full(0x806)];
    MoreMatches(ly, pat, ly.dlTyp, 0x800, p);
    MoreMatches(ly, pat, ly.dlTyp, 0x806, p);
  }

  lemma TypeRow(ly: Layout, seen: set<Test>, pat: Pattern, p: Packet)
    requires FieldsDiffer(ly) && ly.nwSrc !in pat && ly.nwDst !in pat && ly.nwProto in pat && ly.dlTyp !in pat
    ensures Caught(ly, FillInDependencies(ly, seen, pat), p) <==>
            PatternMatches(ly, pat, p) && Get(p, ly.dlTyp) == 0x800 && Unseen(seen, ly.dlTyp, 0x800)
  {
    hide PatternMatches;
    SeenMeaning(seen, ly.dlTyp, 0x800);
    var more := pat[ly.dlTyp := Full(0x800)];
    var rows: seq<Pattern> := if Unseen(seen, ly.dlTyp, 0x800) then [more] else [];
    assert FillInDependencies(ly, seen, pat) == rows;
    MoreMatches(ly, pat, ly.dlTyp, 0x800, p);
    assert Unseen(seen, ly.dlTyp, 0x800) ==> rows[0] == more;
  }

  lemma PortRows(ly: Layout, seen: set<Test>, pat: Pattern, p: Packet)
    requires FieldsDiffer(ly) && (ly.tpSrc in pat || ly.tpDst in pat) && ly.nwProto !in pat
    requires ly.dlTyp in pat || (ly.nwSrc !in pat && ly.nwDst !in pat)
    ensures var (typ, proto) := (Get(p, ly.dlTyp), Get(p, ly.nwProto));
            Caught(ly, FillInDependencies(ly, seen, pat), p) <==>
            && PatternMatches(ly, pat, p) && (proto == 6 || proto == 17) && Unseen(seen, ly.nwProto, proto)
            && (ly.dlTyp !in pat && Unseen(seen, ly.dlTyp, 0x800) ==> typ == 0x800)
  {
    hide PatternMatches, Caught, Seen, Unseen;
    var ip := (ly.dlTyp, Full(0x800));
    var base := if ly.dlTyp !in pat && !Seen(seen, ip) then pat[ly.dlTyp := Full(0x800)] else pat;
    assert FillInDependencies(ly, seen, pat) ==
           AddDependencyIfUnseen(seen, base, (ly.nwProto, Full(6))) +
           AddDependencyIfUnseen(seen, base, (ly.nwProto, Full(17)));
    SeenMeaning(seen, ly.dlTyp, 0x800);
    CaughtEither(ly, seen, base, ly.nwProto, 6, 17, p);
    MoreMatches(ly, base, ly.nwProto, 6, p);
    MoreMatches(ly, base, ly.nwProto, 17, p);
    if ly.dlTyp !in pat { MoreMatches(ly, pat, ly.dlTyp, 0x800, p); }
  }

  /** The rows of a path catch exactly the packets that pass its tests and are what the
      open fields ask for. */
  lemma PathCatches(ly: Layout, tests: seq<Test>, seen: set<Test>, p: Packet)
    requires FieldsDiffer(ly) && Descending(tests) && TestsOk(ly, tests) && Arrives(ly, p)
    ensures FlowsMatch(ly, tests, seen, p) <==> Passes(p, tests) && Asked(ly, tests, seen, p)
  {
    var pat := ToPattern(tests);
    PatternMeaning(ly, tests, p);
    OpenFields(tests);
    hide PatternMatches, Unseen, Passes, TestsOk, Descending, Arrives, Open, ToPattern;
    assert FlowsMatch(ly, tests, seen, p) <==> Caught(ly, FillInDependencies(ly, seen, pat), p);
    if ly.dlTyp !in pat && (ly.nwSrc in pat || ly.nwDst in pat) {
      AddressRows(ly, seen, pat, p);
    } else if ly.dlTyp !in pat && ly.nwProto in pat {
      TypeRow(ly, seen, pat, p);
    } else if ly.nwProto !in pat && (ly.tpSrc in pat || ly.tpDst in pat) {
      PortRows(ly, seen, pat, p);
    } else {
      ValidNeedsNothing(ly, seen, pat);
      assert pat in [pat];
    }
  }

  /** A policy for an address and no type, as the only path so far: IPv4 and ARP packets
      for the address get the row, and no others. */
  lemma AddressCatchesIpAndArp(ly: Layout, v: Prefix, p: Packet)
    requires FieldsDiffer(ly) && TestOk(ly, (ly.nwDst, v)) && Arrives(ly, p)
    ensures FlowsMatch(ly, [(ly.nwDst, v)], {(ly.nwDst, v)}, p) <==>
            Matches(Get(p, ly.nwDst), v) && (Get(p, ly.dlTyp) == 0x800 || Get(p, ly.dlTyp) == 0x806)
  {
    var tests := [(ly.nwDst, v)];
    PathCatches(ly, tests, {(ly.nwDst, v)}, p);
    assert tests[0] in tests && Open(ly.dlTyp, tests) && !Open(ly.nwDst, tests);
  }

  /** So the table has a row for a packet exactly if it is what the open fields of its
      path ask for, in view of the tests seen on the way. */
  lemma HasRowIffAsked(ly: Layout, opts: Options, t: Fdd, p: Packet)
    requires FieldsDiffer(ly) && Canonical(t) && MasksOk(ly, t) && Arrives(ly, p)
    ensures HasRow(ly, opts, t, p) <==> Asked(ly, TablePath(opts, t, p), SeenTests(opts, t, p), p)
  {
    hide FlowsMatch, Asked;
    HasRowPath(ly, opts, t, p);
    PathCatches(ly, TablePath(opts, t, p), SeenTests(opts, t, p), p);
  }

  // A policy whose table lacks a row

  /** Not of the Ethernet type of IP, and of the protocol of TCP. */
  function LatePolicy(ly: Layout): S.Pred {
    S.And(S.Neg(S.Test(S.Exact(ly.dlTyp, 0x800))), S.Test(S.Exact(ly.nwProto, 6)))
  }

  lemma LateCompiles(ly: Layout)
    requires ly.dlTyp < ly.nwProto
    ensures OfPred(LatePolicy(ly)) == LateDependency(ly)
  {
    assert SKIP in ONE && ID != DROP;
    var x, y := OfTest(S.Exact(ly.dlTyp, 0x800)), OfTest(S.Exact(ly.nwProto, 6));
    assert x == Branch(ly.dlTyp, Full(0x800), ID, DROP) && y == Branch(ly.nwProto, Full(6), ID, DROP);
    assert MapR(Negate, ID) == DROP && MapR(Negate, DROP) == ID;
    assert MapR(Negate, x) == Branch(ly.dlTyp, Full(0x800), DROP, ID);
    assert Apply(ProdOp, ID, y) == y;
    assert Combine(ProdOp, ZERO, ONE) == ZERO && Combine(ProdOp, ZERO, ZERO) == ZERO;
    var g := (b: Par) => Combine(ProdOp, ZERO, b);
    assert MapR(g, ID) == DROP && MapR(g, DROP) == DROP;
    assert MapR(g, y) == DROP;
    assert Apply(ProdOp, DROP, y) == DROP;
    var n := Branch(ly.dlTyp, Full(0x800), DROP, ID);
    assert Apply(ProdOp, n, y) == MkBranch(ly.dlTyp, Full(0x800), Apply(ProdOp, DROP, y), Apply(ProdOp, ID, y));
    assert OfPred(S.Test(S.Exact(ly.dlTyp, 0x800))) == x && OfPred(S.Test(S.Exact(ly.nwProto, 6))) == y;
    assert OfPred(S.Neg(S.Test(S.Exact(ly.dlTyp, 0x800)))) == n;
    assert OfPred(LatePolicy(ly)) == Times(n, y);
  }

  /** The interpreter lets the packet pass, and the table of the policy drops it. */
  lemma LatePolicyDrops(ly: Layout, p: Packet)
    requires FieldsDiffer(ly) && ly.dlTyp < ly.nwProto
    requires Complete(p) && Get(p, ly.dlTyp) != 0x800 && Get(p, ly.nwProto) == 6
    ensures S.Eval(p, S.Filter(LatePolicy(ly))) == {p}
    ensures EvalTable(ly, OptRows(ly, OfPred(LatePolicy(ly)), {}), p) == {}
  {
    LateCompiles(ly);
    SeenDependencyDropsRow(ly, p);
    hide OptRows, EvalTable, OfPred, LateDependency;
    assert !S.EvalPred(p, S.Test(S.Exact(ly.dlTyp, 0x800))) && S.EvalPred(p, S.Test(S.Exact(ly.nwProto, 6)));
    assert S.EvalPred(p, S.Neg(S.Test(S.Exact(ly.dlTyp, 0x800))));
    assert S.EvalPred(p, LatePolicy(ly));
  }
}
