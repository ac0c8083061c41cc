/** The compiled program on switches that run flow tables. */
module NetworkTables {

  import opened Prefixes
  import opened Actions
  import opened Fdds
  import opened FieldUse
  import opened FlowTables
  import opened TableCorrectness
  import opened Traces
  import opened Automata
  import opened NetworkRuns
  import opened NetworkPolicies
  import opened GlobalCompiler
  import opened GlobalCorrectness
  import opened LocalCompiler
  import S = Semantics

  type Hvs = Par -> seq<(Field, int)>

  /** The table of the switch that the packet is at. */
  ghost function TableAt(ly: Layout, opts: Options, toHvs: Hvs, l: Fdd, p: Packet): seq<Row> {
    ToTable(ly, opts, toHvs, Get(p, ly.switch), l)
  }

  /** As `NetRun`, where each switch has the flow table made of `l` for it. */
  ghost predicate TableRun(ly: Layout, opts: Options, toHvs: Hvs, pc: Field, w: Wire, linked: Linked, l: Fdd,
                           p: Packet, h: seq<Packet>, q: Packet)
    decreases |h|
  {
    if h == [] then
      exists x :: x in EvalTable(ly, TableAt(ly, opts, toHvs, l, p), p) && Erase(pc, x) == q && !linked(q)
    else
      exists x :: x in EvalTable(ly, TableAt(ly, opts, toHvs, l, p), p) && Erase(pc, x) == h[0] && linked(h[0])
                  && TableRun(ly, opts, toHvs, pc, w, linked, l, w(x), h[1..], q)
  }

  /** The packet arrives in order, and the table of its switch has a row for it. */
  ghost predicate Served(ly: Layout, opts: Options, toHvs: Hvs, l: Fdd, p: Packet) {
    var t := Prepared(ly, opts, toHvs, Get(p, ly.switch), l);
    Arrives(ly, p) && AtSwitch(ly, opts, Get(p, ly.switch), p) && MasksOk(ly, t) && HasRow(ly, opts, t, p)
  }

  /** So are all packets that the program sends on from there. */
  ghost predicate ServedOn(ly: Layout, opts: Options, toHvs: Hvs, pc: Field, w: Wire, linked: Linked, l: Fdd,
                           on: iset<Packet>) {
    && (forall p :: p in on ==> Served(ly, opts, toHvs, l, p))
    && (forall p, a :: p in on && a in Lookup(l, p) && linked(Erase(pc, Run(a, p))) ==> w(Run(a, p)) in on)
  }

  lemma {:induction false} TableRunIsNetRun(ly: Layout, opts: Options, toHvs: Hvs, pc: Field, w: Wire, linked: Linked,
                                            l: Fdd, on: iset<Packet>, p: Packet, h: seq<Packet>, q: Packet)
    requires Canonical(l) && ServedOn(ly, opts, toHvs, pc, w, linked, l, on) && p in on
    ensures TableRun(ly, opts, toHvs, pc, w, linked, l, p, h, q) <==> NetRun(pc, w, linked, l, p, h, q)
    decreases |h|
  {
    hide EvalTable, ToTable, Lookup, Canonical, Erase, Prepared, HasRow, Arrives, MasksOk;
    assert Served(ly, opts, toHvs, l, p);
    TableMeaning(ly, opts, toHvs, Get(p, ly.switch), l, p);
    var xs := EvalTable(ly, TableAt(ly, opts, toHvs, l, p), p);
    forall x ensures x in xs <==> exists a :: a in Lookup(l, p) && Run(a, p) == x {
    }
    if h == [] {
      if a :| a in Lookup(l, p) && Erase(pc, Run(a, p)) == q && !linked(q) { assert Run(a, p) in xs; }
    } else {
      forall a | a in Lookup(l, p) && Erase(pc, Run(a, p)) == h[0] && linked(h[0])
        ensures TableRun(ly, opts, toHvs, pc, w, linked, l, w(Run(a, p)), h[1..], q)
                <==> NetRun(pc, w, linked, l, w(Run(a, p)), h[1..], q)
      {
        TableRunIsNetRun(ly, opts, toHvs, pc, w, linked, l, on, w(Run(a, p)), h[1..], q);
      }
      if a :| a in Lookup(l, p) && Erase(pc, Run(a, p)) == h[0] && linked(h[0])
              && NetRun(pc, w, linked, l, w(Run(a, p)), h[1..], q) {
        assert Run(a, p) in xs;
      }
    }
  }

  /** A policy with links, compiled to flow tables, moves a packet from outside over the
      network exactly as the policy says. */
  lemma TablesExact(ly: Layout, opts: Options, toHvs: Hvs, pc: Field, w: Wire, linked: Linked, loc: Location,
                    pol: S.Policy, ips: Ips, st: States, source: int, ids: set<int>, l: Fdd, on: iset<Packet>,
                    p: Packet, h: seq<Packet>, q: Packet)
    requires Encoded(pc, st, source, ids, l) && Implements(loc, pol, st, source) && LinkSteps(loc, pol, st)
    requires Deployed(pc, w, linked, loc, pol) && StartsAtEdge(w, linked, loc, pol)
    requires Supported(pol, ips) && LocOk(loc, ips) && PacketTyped(Erase(pc, p), ips) && Get(p, pc) !in ids
    requires ServedOn(ly, opts, toHvs, pc, w, linked, l, on) && p in on
    ensures TableRun(ly, opts, toHvs, pc, w, linked, l, p, h, q) <==> Means(loc, pol, Erase(pc, p), h, q)
  {
    hide Implements, LinkSteps, Deployed, StartsAtEdge, Supported, ServedOn, TableRun, NetRun, Means, Erase,
      PacketTyped;
    EncodedCanonical(pc, st, source, ids, l);
    hide Encoded;
    TableRunIsNetRun(ly, opts, toHvs, pc, w, linked, l, on, p, h, q);
    CompileGlobalExact(pc, w, linked, loc, pol, ips, st, source, ids, l, p, h, q);
  }

  lemma EncodedCanonical(pc: Field, st: States, source: int, ids: set<int>, l: Fdd)
    requires Encoded(pc, st, source, ids, l)
    ensures Canonical(l)
  {
    hide StatesOk, Canonical;
  }

  // Programs without fields that depend on others

  /** The fields whose tests need a test of another field, and those that a packet must
      bring along. */
  function SpecialFields(ly: Layout): set<Field> {
    {ly.nwProto, ly.nwSrc, ly.nwDst, ly.tpSrc, ly.tpDst, ly.vfabric}
  }

  ghost predicate AllUnused(fs: set<Field>, x: Fdd) {
    forall f :: f in fs ==> Unused(f, x)
  }

  lemma {:induction false} UnusedDedupTests(f: Field, lst: seq<(Field, int)>, x: Fdd)
    requires Unused(f, x) && forall h :: h in lst ==> h.0 != f
    ensures Unused(f, DedupTests(lst, x))
    decreases |lst|
  {
    hide Cond;
    if lst != [] {
      var (g, v) := (lst[0].0, Full(lst[0].1));
      var y := MapR(a => Demod(g, v, a), x);
      UnusedMapR(f, a => Demod(g, v, a), x);
      assert lst[0] in lst;
      UnusedCond(f, g, v, y, x);
      UnusedDedupTests(f, lst[1..], Cond(g, v, y, x));
    }
  }

  lemma {:induction false} FilteredFields(lst: seq<(Field, int)>, fs: set<Field>)
    ensures forall h :: h in Filtered(lst, fs) ==> h.0 in fs
  {
    if lst != [] {
      FilteredFields(lst[1..], fs);
    }
  }

  lemma {:induction false} UnusedDedup(f: Field, toHvs: Hvs, x: Fdd)
    requires Unused(f, x)
    ensures Unused(f, Dedup(toHvs, x))
  {
    hide Cond;
    match x
    case Leaf(par) =>
      FilteredFields(toHvs(par), Harmful(par));
      UnusedDedupTests(f, Filtered(toHvs(par), Harmful(par)), x);
    case Branch(g, v, t, e) =>
      UnusedDedup(f, toHvs, t);
      UnusedDedup(f, toHvs, e);
      UnusedCond(f, g, v, Dedup(toHvs, t), Dedup(toHvs, e));
  }

  lemma PreparedUnused(ly: Layout, opts: Options, toHvs: Hvs, sw: int, x: Fdd)
    requires AllUnused(SpecialFields(ly), x)
    ensures AllUnused(SpecialFields(ly), Prepared(ly, opts, toHvs, sw, x))
  {
    hide Dedup, Restrict, SwitchTests, SpecialFields, Unused;
    forall f | f in SpecialFields(ly) ensures Unused(f, Prepared(ly, opts, toHvs, sw, x)) {
      UnusedDedup(f, toHvs, x);
      UnusedRestrict(f, SwitchTests(ly, sw, opts.optimize), if opts.dedupFlows then Dedup(toHvs, x) else x);
    }
  }

  lemma {:induction false} PlainMasks(ly: Layout, x: Fdd)
    requires AllUnused(SpecialFields(ly), x)
    ensures MasksOk(ly, x)
  {
    if x.Branch? {
      assert x.field !in SpecialFields(ly);
      PlainMasks(ly, x.tru);
      PlainMasks(ly, x.fls);
    }
  }

  lemma {:induction false} PatternDomain(tests: seq<Test>, f: Field)
    requires forall t :: t in tests ==> t.0 != f
    ensures f !in ToPattern(tests)
  {
    if tests != [] {
      assert tests[0] in tests;
      PatternDomain(tests[1..], f);
    }
  }

  /** No pattern of these programs needs a dependency. */
  lemma {:induction false} PlainPaths(ly: Layout, tests: seq<Test>, x: Fdd)
    requires AllUnused(SpecialFields(ly), x) && forall t :: t in tests ==> t.0 !in SpecialFields(ly)
    ensures PathsValid(ly, tests, x)
    decreases x
  {
    match x
    case Leaf(_) =>
      forall f | f in SpecialFields(ly) ensures f !in ToPattern(tests) { PatternDomain(tests, f); }
      hide ToPattern;
      assert forall f :: f in SpecialFields(ly) ==> f !in ToPattern(tests);
    case Branch(f, v, tru, fls) =>
      assert f !in SpecialFields(ly);
      hide SpecialFields;
      PlainPaths(ly, [(f, v)] + tests, tru);
      PlainPaths(ly, tests, fls);
  }

  /** Packets that bring all they need. */
  ghost function Fit(ly: Layout, opts: Options): iset<Packet> {
    iset p | Arrives(ly, p) && (opts.optimize ==> Get(p, ly.vfabric) == 1)
  }

  /** The network keeps the fields that nobody assigns. */
  ghost predicate WireKeeps(ly: Layout, w: Wire) {
    forall x {:trigger w(x)} :: Complete(x) ==>
      Complete(w(x)) && forall f :: f in {ly.nwSrc, ly.nwDst, ly.vfabric} ==> Get(w(x), f) == Get(x, f)
  }

  lemma PlainServed(ly: Layout, opts: Options, toHvs: Hvs, pc: Field, w: Wire, linked: Linked, l: Fdd)
    requires Canonical(l) && AllUnused(SpecialFields(ly), l) && WireKeeps(ly, w)
    ensures ServedOn(ly, opts, toHvs, pc, w, linked, l, Fit(ly, opts))
  {
    forall p | p in Fit(ly, opts) ensures Served(ly, opts, toHvs, l, p) {
      PlainServedAt(ly, opts, toHvs, l, p);
    }
    forall p, a | p in Fit(ly, opts) && a in Lookup(l, p) ensures w(Run(a, p)) in Fit(ly, opts) {
      forall f | f in SpecialFields(ly) ensures f !in a.mods { UnusedLookup(f, l, p); }
      var x := Run(a, p);
      assert Complete(x) && forall f: Field :: f in SpecialFields(ly) ==> Get(x, f) == Get(p, f);
      var y := w(x);
      assert Complete(y) && Get(y, ly.nwSrc) == Get(p, ly.nwSrc) && Get(y, ly.nwDst) == Get(p, ly.nwDst);
    }
  }

  lemma PlainServedAt(ly: Layout, opts: Options, toHvs: Hvs, l: Fdd, p: Packet)
    requires Canonical(l) && AllUnused(SpecialFields(ly), l) && p in Fit(ly, opts)
    ensures Served(ly, opts, toHvs, l, p)
  {
    hide Prepared, HasRow, PathsValid, MasksOk, Canonical, AllUnused;
    var sw := Get(p, ly.switch);
    var t := Prepared(ly, opts, toHvs, sw, l);
    PreparedUnused(ly, opts, toHvs, sw, l);
    PreparedMeaning(ly, opts, toHvs, sw, l, p);
    PlainMasks(ly, t);
    PlainPaths(ly, [], t);
    ValidHasRow(ly, opts, t, p);
  }

  lemma {:induction false} UnusedLookup(f: Field, x: Fdd, p: Packet)
    requires Unused(f, x)
    ensures forall a :: a in Lookup(x, p) ==> f !in a.mods
  {
    if x.Branch? {
      UnusedLookup(f, x.tru, p);
      UnusedLookup(f, x.fls, p);
    }
  }

  /** For policies that leave those fields alone, flow tables do just what the policy
      says, with no other condition on the program. */
  lemma PlainTablesExact(ly: Layout, opts: Options, toHvs: Hvs, pc: Field, w: Wire, linked: Linked, loc: Location,
                         pol: S.Policy, ips: Ips, st: States, source: int, ids: set<int>, l: Fdd,
                         p: Packet, h: seq<Packet>, q: Packet)
    requires Encoded(pc, st, source, ids, l) && Implements(loc, pol, st, source) && LinkSteps(loc, pol, st)
    requires Deployed(pc, w, linked, loc, pol) && StartsAtEdge(w, linked, loc, pol) && WireKeeps(ly, w)
    requires Supported(pol, ips) && LocOk(loc, ips) && PacketTyped(Erase(pc, p), ips) && Get(p, pc) !in ids
    requires LeavesFields(pc, loc, pol, l) && SpecialFields(ly) !! {pc, loc.sw, loc.pt} && p in Fit(ly, opts)
    requires forall f :: f in SpecialFields(ly) ==> Leaves(f, pol)
    ensures TableRun(ly, opts, toHvs, pc, w, linked, l, p, h, q) <==> Means(loc, pol, Erase(pc, p), h, q)
  {
    hide Encoded, Implements, LinkSteps, Deployed, StartsAtEdge, Supported, ServedOn, TableRun, NetRun, Means, Erase,
      PacketTyped, WireKeeps, Unused, Leaves, Canonical;
    EncodedCanonical(pc, st, source, ids, l);
    forall f | f in SpecialFields(ly) ensures Unused(f, l) {
      assert f !in {pc, loc.sw, loc.pt};
    }
    PlainServed(ly, opts, toHvs, pc, w, linked, l);
    TablesExact(ly, opts, toHvs, pc, w, linked, loc, pol, ips, st, source, ids, l, Fit(ly, opts), p, h, q);
  }
}
