/** A switch with a table made with `dedup` sends each packet once. */
module Duplicates {

  import opened Prefixes
  import opened Wrappers
  import opened Actions
  import opened Fdds
  import opened FlowTables
  import opened TableCorrectness
  import opened RowCoverage

  /** The action without the listed assignments that the packet has already. */
  function Strip(lst: seq<(Field, int)>, p: Packet, s: Act): Act {
    s.(mods := map f | f in s.mods && !((f, s.mods[f]) in lst && Get(p, f) == s.mods[f]) :: s.mods[f])
  }

  function Stripped(lst: seq<(Field, int)>, p: Packet, par: Par): Par {
    set s | s in par :: Strip(lst, p, s)
  }

  lemma StripTail(lst: seq<(Field, int)>, p: Packet, s: Act)
    requires lst != []
    ensures var (f, v) := lst[0];
            Strip(lst, p, s) == Strip(lst[1..], p, if Get(p, f) == v then DemodAct(f, Full(v), s) else s)
  {
    var (f, v) := lst[0];
    var t := if Get(p, f) == v then DemodAct(f, Full(v), s) else s;
    assert forall h :: h in lst <==> h == lst[0] || h in lst[1..];
    assert Strip(lst, p, s).mods == Strip(lst[1..], p, t).mods;
  }

  lemma StrippedTail(lst: seq<(Field, int)>, p: Packet, par: Par)
    requires lst != []
    ensures var (f, v) := lst[0];
            Stripped(lst, p, par) == Stripped(lst[1..], p, if Get(p, f) == v then Demod(f, Full(v), par) else par)
  {
    hide Strip, DemodAct;
    var (f, v) := lst[0];
    var now := if Get(p, f) == v then Demod(f, Full(v), par) else par;
    forall s | s in par ensures Strip(lst, p, s) in Stripped(lst[1..], p, now) {
      StripTail(lst, p, s);
      assert (if Get(p, f) == v then DemodAct(f, Full(v), s) else s) in now;
    }
    forall t | t in now ensures Strip(lst[1..], p, t) in Stripped(lst, p, par) {
      var s :| s in par && t == if Get(p, f) == v then DemodAct(f, Full(v), s) else s;
      StripTail(lst, p, s);
    }
  }

  lemma StrippedNone(p: Packet, par: Par)
    ensures Stripped([], p, par) == par
  {
    forall s: Act ensures Strip([], p, s) == s {
      assert Strip([], p, s).mods == s.mods;
    }
  }

  lemma {:induction false} DedupTestsExact(lst: seq<(Field, int)>, x: Fdd, p: Packet)
    requires Canonical(x)
    ensures Lookup(DedupTests(lst, x), p) == Stripped(lst, p, Lookup(x, p))
    decreases |lst|
  {
    hide Cond, Demod, Stripped, Canonical;
    if lst == [] {
      StrippedNone(p, Lookup(x, p));
    } else {
      var (f, v) := (lst[0].0, Full(lst[0].1));
      var y := MapR(a => Demod(f, v, a), x);
      CanonicalMapR(a => Demod(f, v, a), x);
      CanonicalCond(f, v, y, x);
      CondMeaning(f, v, y, x, p);
      MapRMeaning(a => Demod(f, v, a), x, p);
      DedupTestsExact(lst[1..], Cond(f, v, y, x), p);
      StrippedTail(lst, p, Lookup(x, p));
    }
  }

  /** What `dedup` makes of the leaf that a packet reaches. */
  lemma {:induction false} DedupExact(toHvs: Par -> seq<(Field, int)>, x: Fdd, p: Packet)
    requires Canonical(x) && Complete(p)
    ensures var par := Lookup(x, p);
            Lookup(Dedup(toHvs, x), p) == Stripped(Filtered(toHvs(par), Harmful(par)), p, par)
  {
    hide Cond, DedupTests, Filtered, Harmful, Stripped, RunPar;
    match x
    case Leaf(par) => DedupTestsExact(Filtered(toHvs(par), Harmful(par)), x, p);
    case Branch(f, v, t, e) =>
      DedupExact(toHvs, t, p);
      DedupExact(toHvs, e, p);
      DedupMeaning(toHvs, t, p);
      DedupMeaning(toHvs, e, p);
      CondMeaning(f, v, Dedup(toHvs, t), Dedup(toHvs, e), p);
  }

  /** Each assignment of a leaf is in its list. */
  ghost predicate ListsAll(toHvs: Par -> seq<(Field, int)>) {
    forall par: Par, s: Act, f: Field :: s in par && f in s.mods ==> (f, s.mods[f]) in toHvs(par)
  }

  lemma {:induction false} FilteredMeaning(lst: seq<(Field, int)>, fields: set<Field>, h: (Field, int))
    ensures h in Filtered(lst, fields) <==> h in lst && h.0 in fields
  {
    if lst != [] {
      FilteredMeaning(lst[1..], fields, h);
    }
  }

  /** Fields are tested exactly where some actions assign them and others do not. */
  lemma HarmfulIff(par: Par, f: Field)
    ensures f in Harmful(par) <==> exists s, t :: s in par && t in par && f in s.mods && f !in t.mods
  {
    if s, t :| s in par && t in par && f in s.mods && f !in t.mods {
      assert f in ModFields(par);
    }
  }

  /** A leaf whose actions all assign the same fields is left as it is. */
  lemma {:induction false} HarmlessLeaf(toHvs: Par -> seq<(Field, int)>, par: Par)
    requires forall s, t :: s in par && t in par ==> s.mods.Keys == t.mods.Keys
    ensures Dedup(toHvs, Leaf(par)) == Leaf(par)
  {
    hide Harmful, DedupTests;
    forall f ensures f !in Harmful(par) { HarmfulIff(par, f); }
    FilteredNone(toHvs(par), Harmful(par));
    assert DedupTests([], Leaf(par)) == Leaf(par) by { NoTests(Leaf(par)); }
  }

  lemma NoTests(x: Fdd)
    ensures DedupTests([], x) == x
  {
  }

  lemma {:induction false} FilteredNone(lst: seq<(Field, int)>, fields: set<Field>)
    requires fields == {}
    ensures Filtered(lst, fields) == []
  {
    if lst != [] {
      FilteredNone(lst[1..], fields);
    }
  }

  /** After stripping, an assignment that only some actions make changes the packet. */
  lemma StripMeaning(toHvs: Par -> seq<(Field, int)>, par: Par, s: Act, p: Packet, f: Field)
    requires ListsAll(toHvs) && s in par
    ensures var a := Strip(Filtered(toHvs(par), Harmful(par)), p, s);
            && a.cont == s.cont
            && (f in a.mods <==> f in s.mods && (f in Harmful(par) ==> s.mods[f] != Get(p, f)))
            && (f in a.mods ==> a.mods[f] == s.mods[f])
  {
    hide Filtered, Harmful;
    if f in s.mods {
      FilteredMeaning(toHvs(par), Harmful(par), (f, s.mods[f]));
    }
  }

  lemma StrippedDiffer(toHvs: Par -> seq<(Field, int)>, par: Par, s: Act, t: Act, p: Packet)
    requires ListsAll(toHvs) && s in par && t in par && Complete(p)
    ensures var lst := Filtered(toHvs(par), Harmful(par));
            var (a, b) := (Strip(lst, p, s), Strip(lst, p, t));
            Run(a, p) == Run(b, p) && a.cont == b.cont ==> a == b
  {
    hide Filtered, Harmful, Strip, ListsAll;
    var lst := Filtered(toHvs(par), Harmful(par));
    var a, b := Strip(lst, p, s), Strip(lst, p, t);
    if Run(a, p) == Run(b, p) && a.cont == b.cont {
      forall f: Field ensures (f in a.mods <==> f in b.mods) && (f in a.mods ==> a.mods[f] == b.mods[f]) {
        StripMeaning(toHvs, par, s, p, f);
        StripMeaning(toHvs, par, t, p, f);
        assert Run(a, p)[f] == Run(b, p)[f];
        HarmfulIff(par, f);
      }
      assert a.mods == b.mods;
    }
  }

  /** `dedup` leaves no two actions that do the same with a packet. */
  lemma DedupNoDuplicates(toHvs: Par -> seq<(Field, int)>, x: Fdd, p: Packet, a: Act, b: Act)
    requires ListsAll(toHvs) && Canonical(x) && Complete(p)
    requires a in Lookup(Dedup(toHvs, x), p) && b in Lookup(Dedup(toHvs, x), p) && a != b
    ensures Out(Run(a, p), a.cont) != Out(Run(b, p), b.cont)
  {
    hide Dedup, Strip, Filtered, Harmful, ListsAll, Canonical;
    DedupExact(toHvs, x, p);
    var par := Lookup(x, p);
    var lst := Filtered(toHvs(par), Harmful(par));
    var s :| s in par && a == Strip(lst, p, s);
    var t :| t in par && b == Strip(lst, p, t);
    StrippedDiffer(toHvs, par, s, t, p);
  }

  // The actions of the row that a packet hits

  function Acting(ly: Layout, rows: seq<Row>, p: Packet): set<seq<Sdn>> {
    if rows == [] then {}
    else if PatternMatches(ly, rows[0].pattern, p) then rows[0].actions
    else Acting(ly, rows[1..], p)
  }

  lemma ActingCons(ly: Layout, row: Row, rows: seq<Row>, p: Packet)
    ensures Acting(ly, [row] + rows, p) ==
              if PatternMatches(ly, row.pattern, p) then row.actions else Acting(ly, rows, p)
  {
    assert ([row] + rows)[1..] == rows;
  }

  lemma {:induction false} RowsActing(ly: Layout, pats: seq<Pattern>, acts: set<seq<Sdn>>, p: Packet, tail: seq<Row>)
    ensures Acting(ly, RowsFor(pats, acts) + tail, p) ==
              if exists q :: q in pats && PatternMatches(ly, q, p) then acts else Acting(ly, tail, p)
  {
    hide PatternMatches, Acting;
    if pats == [] {
      assert RowsFor(pats, acts) + tail == tail;
    } else {
      RowsActing(ly, pats[1..], acts, p, tail);
      assert RowsFor(pats, acts) + tail == [Row(pats[0], acts)] + (RowsFor(pats[1..], acts) + tail);
      ActingCons(ly, Row(pats[0], acts), RowsFor(pats[1..], acts) + tail, p);
      assert forall q :: q in pats <==> q == pats[0] || q in pats[1..];
    }
  }

  lemma FlowsActing(ly: Layout, tests: seq<Test>, seen: set<Test>, acts: set<seq<Sdn>>, p: Packet, tail: seq<Row>)
    ensures Acting(ly, MkFlows(ly, tests, seen, acts) + tail, p) ==
              if FlowsMatch(ly, tests, seen, p) then acts else Acting(ly, tail, p)
  {
    hide FillInDependencies, Acting, RowsFor;
    RowsActing(ly, FillInDependencies(ly, seen, ToPattern(tests)), acts, p, tail);
  }

  lemma {:induction false} OptActing(ly: Layout, t: Fdd, allTests: set<Test>, p: Packet)
    requires Canonical(t) && MasksOk(ly, t) && Arrives(ly, p) && OwnRow(ly, t, allTests, p)
    ensures Acting(ly, OptRows(ly, t, allTests), p) == ToAction(ly, Lookup(t, p), TakenPath(t, p))
    decreases LeafCount(t)
  {
    hide MkFlows, ToAction, Acting, Arrives, FlowsMatch;
    var tests := PathTests(t);
    var seen := allTests + TestSet(tests);
    PathShape(ly, t, p);
    RestMeaning(t, p);
    MatchMeaning(ly, tests, seen, p);
    var acts := ToAction(ly, PathLeaf(t), tests);
    if RestOf(t).Some? {
      RestSmaller(t);
      RestShape(ly, t);
      FlowsActing(ly, tests, seen, acts, p, OptRows(ly, RestOf(t).value, seen));
      if !OnPath(t, p) { OptActing(ly, RestOf(t).value, seen, p); }
    } else {
      FlowsActing(ly, tests, seen, acts, p, []);
      assert MkFlows(ly, tests, seen, acts) + [] == MkFlows(ly, tests, seen, acts);
    }
  }

  lemma {:induction false} NaiveActing(ly: Layout, trueTests: seq<Test>, allTests: set<Test>, t: Fdd, p: Packet,
                                       tail: seq<Row>)
    requires Canonical(t) && MasksOk(ly, t) && Arrives(ly, p)
    requires Descending(trueTests) && TestsOk(ly, trueTests) && forall h :: h in trueTests ==> Below(t, h.0)
    requires Passes(p, trueTests) ==> OwnNaiveRow(ly, trueTests, allTests, t, p)
    ensures Acting(ly, NaiveRows(ly, trueTests, allTests, t) + tail, p) ==
              if Passes(p, trueTests) then ToAction(ly, Lookup(t, p), NaivePath(trueTests, t, p))
              else Acting(ly, tail, p)
    decreases t
  {
    hide MkFlows, ToAction, Acting, Arrives, FlowsMatch;
    match t
    case Leaf(par) =>
      FlowsActing(ly, trueTests, allTests, ToAction(ly, par, trueTests), p, tail);
      MatchMeaning(ly, trueTests, allTests, p);
    case Branch(f, v, tru, fls) =>
      var more := [(f, v)] + trueTests;
      NaiveTests(ly, trueTests, t);
      NaiveBranch(ly, trueTests, allTests, t, p, tail);
      hide TestsOk, MasksOk, Descending, Lookup, Below, NaiveRows;
      var seen := allTests + {(f, v)};
      NaiveActing(ly, more, seen, tru, p, NaiveRows(ly, trueTests, seen, fls) + tail);
      if !Passes(p, more) { NaiveActing(ly, trueTests, seen, fls, p, tail); }
  }

  lemma {:induction false} TailActing(ly: Layout, rows: seq<Row>, p: Packet)
    requires forall r, a :: r in rows && a in r.actions ==> a != []
    ensures Acting(ly, RemoveTailDrops(rows), p) == Acting(ly, rows, p)
    decreases |rows|
  {
    hide Acting;
    if rows != [] && IsDrop(rows[|rows| - 1]) {
      var init, last := rows[..|rows| - 1], rows[|rows| - 1];
      assert last.actions == {} by { assert forall a :: a in last.actions ==> a == [] && last in rows; }
      TailActing(ly, init, p);
      DropLastActing(ly, init, last, p);
      assert rows == init + [last];
    }
  }

  lemma {:induction false} DropLastActing(ly: Layout, rows: seq<Row>, last: Row, p: Packet)
    requires last.actions == {}
    ensures Acting(ly, rows + [last], p) == Acting(ly, rows, p)
  {
    if rows == [] {
      ActingCons(ly, last, [], p);
      assert rows + [last] == [last] + [];
    } else {
      DropLastActing(ly, rows[1..], last, p);
      assert rows + [last] == [rows[0]] + (rows[1..] + [last]);
      ActingCons(ly, rows[0], rows[1..] + [last], p);
    }
  }

  /** A packet with a row of its own is given the actions of its leaf, made with the
      tests of its path. */
  lemma TableActing(ly: Layout, opts: Options, toHvs: Par -> seq<(Field, int)>, sw: int, t: Fdd, p: Packet)
    requires Canonical(t) && Arrives(ly, p) && AtSwitch(ly, opts, sw, p)
    requires MasksOk(ly, Prepared(ly, opts, toHvs, sw, t)) && HasRow(ly, opts, Prepared(ly, opts, toHvs, sw, t), p)
    ensures var t' := Prepared(ly, opts, toHvs, sw, t);
            Acting(ly, ToTable(ly, opts, toHvs, sw, t), p) == ToAction(ly, Lookup(t', p), TablePath(opts, t', p))
  {
    hide Acting, ToAction, OptRows, NaiveRows, RemoveTailDrops, RunPar, Lookup, OwnRow, OwnNaiveRow;
    var t2 := Prepared(ly, opts, toHvs, sw, t);
    PreparedMeaning(ly, opts, toHvs, sw, t, p);
    var rows := if opts.optimize then OptRows(ly, t2, {}) else NaiveRows(ly, [], {}, t2);
    if opts.optimize {
      OptActing(ly, t2, {}, p);
      OptRowsNotEmpty(ly, t2, {});
    } else {
      NaiveActing(ly, [], {}, t2, p, []);
      assert rows + [] == rows;
      RowsNotEmpty(ly, t2, [], {});
    }
    TailActing(ly, rows, p);
  }

  /** The leaf of the restricted diagram is that of the whole one. */
  lemma PreparedLeaf(ly: Layout, opts: Options, toHvs: Par -> seq<(Field, int)>, sw: int, t: Fdd, p: Packet)
    requires Canonical(t) && Complete(p) && AtSwitch(ly, opts, sw, p) && opts.dedupFlows
    ensures Lookup(Prepared(ly, opts, toHvs, sw, t), p) == Lookup(Dedup(toHvs, t), p)
  {
    hide RunPar, Dedup;
    var lst := SwitchTests(ly, sw, opts.optimize);
    DedupMeaning(toHvs, t, p);
    DecidesFull(lst, Dedup(toHvs, t));
    OrderFacts();
    RestrictMeaning(lst, Dedup(toHvs, t), p);
  }

  function DemodEach(tests: seq<Test>, s: Act): Act {
    if tests == [] then s else DemodEach(tests[1..], DemodAct(tests[0].0, tests[0].1, s))
  }

  /** Actions of a row come from actions of the leaf that do the same. */
  lemma {:induction false} DemodAllFrom(tests: seq<Test>, par: Par, s: Act, p: Packet) returns (r: Act)
    requires s in DemodAll(tests, par) && Passes(p, tests) && Complete(p)
    ensures r in par && s == DemodEach(tests, r) && Run(s, p) == Run(r, p) && s.cont == r.cont
  {
    if tests == [] {
      r := s;
    } else {
      var (f, v) := tests[0];
      var u := DemodAllFrom(tests[1..], Demod(f, v, par), s, p);
      r :| r in par && u == DemodAct(f, v, r);
      assert tests[0] in tests && Matches(p[f], v);
      assert p + (r.mods - {f}) == (p + (r.mods - {f}))[f := p[f]];
    }
  }

  /** An action of the row that a packet hits is that of an action of the leaf. */
  lemma ActingFrom(ly: Layout, opts: Options, toHvs: Par -> seq<(Field, int)>, sw: int, t: Fdd, p: Packet,
                   a: seq<Sdn>) returns (r: Act)
    requires opts.dedupFlows && Canonical(t) && Arrives(ly, p) && AtSwitch(ly, opts, sw, p)
    requires MasksOk(ly, Prepared(ly, opts, toHvs, sw, t)) && HasRow(ly, opts, Prepared(ly, opts, toHvs, sw, t), p)
    requires a in Acting(ly, ToTable(ly, opts, toHvs, sw, t), p)
    ensures r in Lookup(Dedup(toHvs, t), p) && EvalSdns(ly, a, Get(p, ly.location), p) == Run(r, p)
    ensures var tests := TablePath(opts, Prepared(ly, opts, toHvs, sw, t), p);
            a == SdnOf(ly, GetInPort(ly, tests), DemodEach(tests, r))
  {
    hide Prepared, ToTable, HasRow, Acting, Dedup, EvalSdns, SdnOf, DemodAll, TablePath, Canonical, MasksOk;
    hide Lookup, RunPar, AtSwitch, Run;
    var t' := Prepared(ly, opts, toHvs, sw, t);
    TableActing(ly, opts, toHvs, sw, t, p);
    PreparedLeaf(ly, opts, toHvs, sw, t, p);
    PreparedMeaning(ly, opts, toHvs, sw, t, p);
    HasRowPath(ly, opts, t', p);
    var tests := TablePath(opts, t', p);
    var s :| s in DemodAll(tests, Lookup(t', p)) && a == SdnOf(ly, GetInPort(ly, tests), s);
    SdnMeaning(ly, tests, s, p);
    r := DemodAllFrom(tests, Lookup(t', p), s, p);
  }

  lemma DedupConts(toHvs: Par -> seq<(Field, int)>, x: Fdd, p: Packet)
    requires Canonical(x) && Complete(p) && forall s :: s in Lookup(x, p) ==> s.cont.None?
    ensures forall a :: a in Lookup(Dedup(toHvs, x), p) ==> a.cont.None?
  {
    hide Dedup, Lookup, Filtered, Harmful;
    DedupExact(toHvs, x, p);
  }

  /** A table made with `dedup` sends no packet twice: different actions of the row that
      a packet hits make different packets. */
  lemma SentOnce(ly: Layout, opts: Options, toHvs: Par -> seq<(Field, int)>, sw: int, t: Fdd, p: Packet,
                 a: seq<Sdn>, b: seq<Sdn>)
    requires opts.dedupFlows && ListsAll(toHvs) && Canonical(t) && Arrives(ly, p) && AtSwitch(ly, opts, sw, p)
    requires MasksOk(ly, Prepared(ly, opts, toHvs, sw, t)) && HasRow(ly, opts, Prepared(ly, opts, toHvs, sw, t), p)
    requires forall s :: s in Lookup(t, p) ==> s.cont.None?
    requires a in Acting(ly, ToTable(ly, opts, toHvs, sw, t), p) && b in Acting(ly, ToTable(ly, opts, toHvs, sw, t), p)
    requires a != b
    ensures EvalSdns(ly, a, Get(p, ly.location), p) != EvalSdns(ly, b, Get(p, ly.location), p)
  {
    hide Prepared, ToTable, HasRow, Acting, Dedup, EvalSdns, SdnOf, TablePath, Canonical, MasksOk, ListsAll, Lookup;
    var s := ActingFrom(ly, opts, toHvs, sw, t, p, a);
    var u := ActingFrom(ly, opts, toHvs, sw, t, p, b);
    DedupConts(toHvs, t, p);
    DedupNoDuplicates(toHvs, t, p, s, u);
  }

  // Packets that go back

  lemma {:induction false} InPortFound(ly: Layout, tests: seq<Test>, v: Prefix)
    requires Descending(tests) && (ly.location, v) in tests && v.len == WIDTH
    ensures GetInPort(ly, tests) == Some(v.bits)
  {
    if tests[0] == (ly.location, v) {
      forall t | t in tests[1..] ensures t.0 != ly.location {
        var i :| 0 <= i < |tests[1..]| && tests[1..][i] == t;
        assert tests[0].0 > tests[i + 1].0;
      }
      InPortNone(ly, tests[1..]);
    } else {
      InPortFound(ly, tests[1..], v);
    }
  }

  lemma {:induction false} InPortNone(ly: Layout, tests: seq<Test>)
    requires Open(ly.location, tests)
    ensures GetInPort(ly, tests) == None
  {
    if tests != [] {
      assert tests[0] in tests;
      InPortNone(ly, tests[1..]);
    }
  }

  lemma {:induction false} ModifiesOutput(mods: map<Field, int>, last: Sdn, q: int)
    ensures OutputPhysical(q) in Modifies(mods, last) <==> last == OutputPhysical(q)
    decreases |mods.Keys|
  {
    if mods.Keys != {} {
      var f := Pick(mods.Keys);
      var rest := mods - {f};
      assert rest.Keys == mods.Keys - {f};
      ModifiesCons(mods, last);
      ModifiesOutput(rest, last, q);
    }
  }

  /** A row for one ingress port never names that port as an output, which a switch
      would ignore: packets that go back are sent to the ingress port. */
  lemma NoOutputToIngress(ly: Layout, tests: seq<Test>, par: Par, v: Prefix, a: seq<Sdn>)
    requires Descending(tests) && (ly.location, v) in tests && v.len == WIDTH && a in ToAction(ly, par, tests)
    ensures OutputPhysical(v.bits) !in a
  {
    hide DemodAll, Modifies;
    InPortFound(ly, tests, v);
    var s :| s in DemodAll(tests, par) && a == SdnOf(ly, GetInPort(ly, tests), s);
    ModifiesOutput(s.mods - {ly.location}, OutputOf(ly, GetInPort(ly, tests), s), v.bits);
  }
}
