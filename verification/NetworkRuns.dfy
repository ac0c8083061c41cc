/** Runs of a local program over the links of a network, and the automaton runs
    they stand for. */
module NetworkRuns {

  import opened Wrappers
  import opened Actions
  import opened Fdds
  import opened LeafActs
  import opened Traces
  import opened Splitting
  import opened Automata
  import opened Determinization
  import opened FieldUse
  import opened ProgramCounter

  /** The packet without its program counter. */
  function Erase(pc: Field, p: Packet): Packet {
    p[pc := 0]
  }

  /** Packets for which the network has a link to go on. */
  type Linked = Packet -> bool

  /** The network ignores the program counter. */
  ghost predicate PcBlind(pc: Field, w: Wire, linked: Linked) {
    forall x: Packet, v: int {:trigger x[pc := v]} :: w(x[pc := v]) == w(x)[pc := v] && linked(x[pc := v]) == linked(x)
  }

  /** The switches run `l` on every packet they get.  A packet that is at a link
      goes over it, and any other packet leaves the network.  The trace `h` holds
      the packets on the links and `q` the last one, without program counters. */
  ghost predicate NetRun(pc: Field, w: Wire, linked: Linked, l: Fdd, p: Packet, h: seq<Packet>, q: Packet)
    decreases |h|
  {
    if h == [] then
      exists a :: a in Lookup(l, p) && Erase(pc, Run(a, p)) == q && !linked(q)
    else
      exists a :: a in Lookup(l, p) && Erase(pc, Run(a, p)) == h[0] && linked(h[0])
                  && NetRun(pc, w, linked, l, w(Run(a, p)), h[1..], q)
  }

  /** One step of the local program is a step of the source or of the state that
      the packet carries. */
  lemma LocalStep(pc: Field, st: States, source: int, ids: set<int>, l: Fdd, k: int, p: Packet)
    requires IsLocal(pc, st, source, ids, l) && ids <= st.Keys && source in ids && k in ids && Get(p, pc) == k
    ensures Lookup(l, p) == StateActs(pc, st[source], p) + StateActs(pc, st[k], p)
  {
    hide StateActs, Lookup;
    forall a ensures a in Lookup(l, p) <==> a in StateActs(pc, st[source], p) + StateActs(pc, st[k], p) {
      if a in StateActs(pc, st[source], p) { assert Active(pc, source, source, p); }
      if a in StateActs(pc, st[k], p) { assert Active(pc, source, k, p); }
    }
  }

  /** On a packet that carries `k` the local program does what state `k` does,
      exactly when the source does nothing else on that packet. */
  lemma LocalStepExactIff(pc: Field, st: States, source: int, ids: set<int>, l: Fdd, k: int, p: Packet)
    requires IsLocal(pc, st, source, ids, l) && ids <= st.Keys && source in ids && k in ids && Get(p, pc) == k
    ensures Lookup(l, p) == StateActs(pc, st[k], p) <==> StateActs(pc, st[source], p) <= StateActs(pc, st[k], p)
  {
    hide StateActs, Lookup, IsLocal;
    LocalStep(pc, st, source, ids, l, k, p);
  }

  /** A packet with no state of the automaton is handled by the source. */
  lemma LocalStart(pc: Field, st: States, source: int, ids: set<int>, l: Fdd, p: Packet)
    requires IsLocal(pc, st, source, ids, l) && ids <= st.Keys && source in ids &&
             (Get(p, pc) == source || Get(p, pc) !in ids)
    ensures Lookup(l, p) == StateActs(pc, st[source], p)
  {
    hide StateActs, Lookup;
    forall a ensures a in Lookup(l, p) <==> a in StateActs(pc, st[source], p) {
      if a in StateActs(pc, st[source], p) { assert Active(pc, source, source, p); }
    }
  }

  // Diagrams that leave the program counter alone

  lemma {:induction false} UnusedLookup(pc: Field, x: Fdd, p: Packet)
    requires Unused(pc, x)
    ensures Lookup(x, Erase(pc, p)) == Lookup(x, p) && forall a :: a in Lookup(x, p) ==> pc !in a.mods
  {
    if x.Branch? {
      UnusedLookup(pc, x.tru, p);
      UnusedLookup(pc, x.fls, p);
    }
  }

  lemma EraseRun(pc: Field, a: Act, p: Packet)
    requires pc !in a.mods
    ensures Erase(pc, Run(a, p)) == Run(a, Erase(pc, p))
    ensures a.cont.Some? ==> Run(SetPcAct(pc, a), p) == Run(a, Erase(pc, p))[pc := a.cont.value]
  {
  }

  /** The actions of a state are its steps, up to the program counter. */
  lemma StateActsSteps(pc: Field, s: State, ids: set<int>, p: Packet, a: Act)
    requires Free(pc, s) && StateOk(s, ids) && a in StateActs(pc, s, p)
    ensures || EStep(s.0, Erase(pc, p), Erase(pc, Run(a, p)))
            || exists x, k :: DStep(s.1, Erase(pc, p), x, k) && Run(a, p) == x[pc := k] && x == Erase(pc, Run(a, p))
  {
    if a in Lookup(s.0, p) {
      hide Canonical, Lookup, NoConts, Unused, DStep;
      UnusedLookup(pc, s.0, p);
      EraseRun(pc, a, p);
    } else {
      hide Canonical, Lookup, NoConts, Unused, EStep, DStep, Run, Erase;
      var b :| b in Lookup(s.1, p) && a == SetPcAct(pc, b);
      StateActStep(pc, s, ids, p, b);
    }
  }

  lemma StateActStep(pc: Field, s: State, ids: set<int>, p: Packet, b: Act)
    requires Free(pc, s) && StateOk(s, ids) && b in Lookup(s.1, p)
    ensures b.cont.Some?
    ensures var x := Run(b, Erase(pc, p));
            && DStep(s.1, Erase(pc, p), x, b.cont.value) && Run(SetPcAct(pc, b), p) == x[pc := b.cont.value]
            && x == Erase(pc, Run(SetPcAct(pc, b), p))
  {
    hide Canonical, Lookup, NoConts, Unused;
    UnusedLookup(pc, s.1, p);
    ActsLookup(s.1, ContIn(ids), p);
    ContInSome(b, ids);
    EraseRun(pc, b, p);
    var x := Run(b, Erase(pc, p));
    assert x == Erase(pc, x[pc := b.cont.value]) by { assert x[pc := 0] == x; }
  }

  lemma EStepActs(pc: Field, s: State, p: Packet, q: Packet)
    requires Free(pc, s) && EStep(s.0, Erase(pc, p), q)
    ensures exists a :: a in StateActs(pc, s, p) && Erase(pc, Run(a, p)) == q
  {
    hide Lookup, Unused;
    UnusedLookup(pc, s.0, p);
    var a :| a in Lookup(s.0, Erase(pc, p)) && Run(a, Erase(pc, p)) == q;
    EraseRun(pc, a, p);
    assert a in StateActs(pc, s, p);
  }

  lemma EraseSet(pc: Field, p: Packet, b: Act, x: Packet, k: int)
    requires pc in p && p[pc] == 0 && pc !in b.mods && Run(b, p) == x
    ensures Erase(pc, x[pc := k]) == x
  {
    assert x[pc := 0] == x;
  }

  lemma DStepActs(pc: Field, s: State, p: Packet, x: Packet, k: int)
    requires Free(pc, s) && DStep(s.1, Erase(pc, p), x, k)
    ensures exists a :: a in StateActs(pc, s, p) && Run(a, p) == x[pc := k] && Erase(pc, Run(a, p)) == x
  {
    hide Lookup, Unused;
    UnusedLookup(pc, s.1, p);
    var b :| b in Lookup(s.1, Erase(pc, p)) && b.cont == Some(k) && Run(b, Erase(pc, p)) == x;
    EraseRun(pc, b, p);
    var a := SetPcAct(pc, b);
    assert a in StateActs(pc, s, p);
    hide Run, StateActs, SetPcAct;
    EraseSet(pc, Erase(pc, p), b, x, k);
  }

  // Runs

  /** State `k` ends with packets that are at no link. */
  ghost predicate EndsOff(w: Wire, linked: Linked, st: States, k: int, p: Packet) {
    forall h, q :: Accept(w, st, k, p, h, q) ==> !linked(q)
  }

  ghost predicate Encoded(pc: Field, st: States, source: int, ids: set<int>, l: Fdd) {
    IsLocal(pc, st, source, ids, l) && StatesOk(st) && source in ids && Closed(st, ids, ids) && AllFree(pc, st, ids)
  }

  ghost predicate StepsTo(d: Fdd, here: Linked) {
    forall p, x, k :: DStep(d, p, x, k) ==> here(x)
  }

  /** The encoded automaton and the network agree on the links: steps lead onto
      links, and what leaves the network is at no link. */
  ghost predicate OnNetwork(pc: Field, w: Wire, linked: Linked, st: States, source: int, ids: set<int>) {
    && PcBlind(pc, w, linked)
    && (forall id :: id in ids && id in st ==> StepsTo(st[id].1, linked))
    && (forall p :: EndsOff(w, linked, st, source, p))
  }

  /** The automaton goes from state `id` and packet `p` over the links of `h` to
      state `k` and packet `y`. */
  ghost predicate Path(w: Wire, st: States, id: int, p: Packet, h: seq<Packet>, k: int, y: Packet)
    decreases |h|
  {
    if h == [] then k == id && y == p
    else exists j :: id in st && DStep(st[id].1, p, h[0], j) && Path(w, st, j, w(h[0]), h[1..], k, y)
  }

  /** After the links of `g` the source accepts the rest of `h`, which is `g'`. */
  ghost predicate Restarted(w: Wire, st: States, source: int, k: int, p: Packet, h: seq<Packet>, q: Packet,
                            g: seq<Packet>, j: int, y: Packet, g': seq<Packet>) {
    h == g + g' && Path(w, st, k, p, g, j, y) && Accept(w, st, source, y, g', q)
  }

  /** Starting over after some links adds nothing to what the automaton accepts. */
  ghost predicate RestartsAddNothing(pc: Field, w: Wire, st: States, source: int) {
    forall p, h, q, g, j, y, g' ::
      Restarted(w, st, source, source, p, h, q, g, j, y, g') && p == Erase(pc, p) && g != [] ==>
        Accept(w, st, source, p, h, q)
  }

  lemma LocalActs(pc: Field, st: States, source: int, ids: set<int>, l: Fdd, p: Packet, a: Act)
    requires Encoded(pc, st, source, ids, l)
    ensures a in Lookup(l, p) <==>
            exists j :: j in ids && j in st && Active(pc, source, j, p) && a in StateActs(pc, st[j], p)
  {
    hide StateActs, Lookup, StatesOk, Closed, AllFree;
  }

  lemma StateFactsAt(pc: Field, st: States, source: int, ids: set<int>, l: Fdd, j: int)
    requires Encoded(pc, st, source, ids, l) && j in ids
    ensures source in ids && j in st && StateOk(st[j], st.Keys) && Free(pc, st[j]) && Conts(st[j].1) <= ids
  {
    hide IsLocal, StateOk, Free, Conts;
  }

  lemma PcStep(pc: Field, w: Wire, linked: Linked, x: Packet, k: int)
    requires PcBlind(pc, w, linked) && x == Erase(pc, x)
    ensures w(x[pc := k]) == w(x)[pc := k] && Erase(pc, w(x)[pc := k]) == w(x) && Get(w(x)[pc := k], pc) == k
  {
    assert w(x[pc := 0]) == w(x)[pc := 0];
    assert w(x)[pc := k][pc := 0] == w(x)[pc := 0];
  }

  lemma EndsNext(w: Wire, linked: Linked, st: States, j: int, p: Packet, x: Packet, k: int)
    requires j in st && DStep(st[j].1, p, x, k) && EndsOff(w, linked, st, j, p)
    ensures EndsOff(w, linked, st, k, w(x))
  {
    hide DStep, EStep;
    forall h, q | Accept(w, st, k, w(x), h, q) ensures !linked(q) {
      var g := [x] + h;
      assert g[0] == x && g[1..] == h;
      assert Accept(w, st, j, p, g, q);
    }
  }

  lemma EndsHere(w: Wire, linked: Linked, st: States, j: int, p: Packet, q: Packet)
    requires j in st && EStep(st[j].0, p, q) && EndsOff(w, linked, st, j, p)
    ensures !linked(q)
  {
    hide EStep;
    assert Accept(w, st, j, p, [], q);
  }

  /** A step leads onto a link and to another state of the encoding. */
  lemma NextState(pc: Field, w: Wire, linked: Linked, st: States, source: int, ids: set<int>, l: Fdd, j: int, p: Packet,
                  x: Packet, k: int)
    requires Encoded(pc, st, source, ids, l) && OnNetwork(pc, w, linked, st, source, ids)
    requires j in ids && j in st && DStep(st[j].1, p, x, k) && x == Erase(pc, x) && EndsOff(w, linked, st, j, p)
    ensures linked(x) && w(x[pc := k]) == w(x)[pc := k] && Erase(pc, w(x)[pc := k]) == w(x)
    ensures k in ids && Get(w(x)[pc := k], pc) == k && EndsOff(w, linked, st, k, w(x))
  {
    hide IsLocal, DStep, EStep, Conts, StatesOk, AllFree, EndsOff, PcBlind, Erase;
    StateFactsAt(pc, st, source, ids, l, j);
    DStepConts(st[j].1, p, x, k);
    PcStep(pc, w, linked, x, k);
    EndsNext(w, linked, st, j, p, x, k);
  }

  lemma EraseTwice(pc: Field, p: Packet)
    ensures Erase(pc, Erase(pc, p)) == Erase(pc, p)
  {
  }

  lemma SourceEndsOff(pc: Field, w: Wire, linked: Linked, st: States, source: int, ids: set<int>, p: Packet)
    requires OnNetwork(pc, w, linked, st, source, ids)
    ensures EndsOff(w, linked, st, source, p)
  {
    hide EndsOff, StepsTo, PcBlind;
  }

  /** What a state accepts is a run of every packet on which it is active. */
  lemma {:induction false} AcceptedIsRun(pc: Field, w: Wire, linked: Linked, st: States, source: int, ids: set<int>,
                                         l: Fdd, j: int, p: Packet, h: seq<Packet>, q: Packet)
    requires Encoded(pc, st, source, ids, l) && OnNetwork(pc, w, linked, st, source, ids)
    requires j in ids && Active(pc, source, j, p) && EndsOff(w, linked, st, j, Erase(pc, p))
    requires Accept(w, st, j, Erase(pc, p), h, q)
    ensures NetRun(pc, w, linked, l, p, h, q)
    decreases |h|
  {
    hide Encoded, OnNetwork, Active, DStep, EStep, Lookup, StateActs, StateOk, Free, Erase;
    StateFactsAt(pc, st, source, ids, l, j);
    if h == [] {
      EStepActs(pc, st[j], p, q);
      var a :| a in StateActs(pc, st[j], p) && Erase(pc, Run(a, p)) == q;
      LocalActs(pc, st, source, ids, l, p, a);
    } else {
      var k :| DStep(st[j].1, Erase(pc, p), h[0], k) && Accept(w, st, k, w(h[0]), h[1..], q);
      DStepActs(pc, st[j], p, h[0], k);
      var a :| a in StateActs(pc, st[j], p) && Run(a, p) == h[0][pc := k] && Erase(pc, Run(a, p)) == h[0];
      EraseTwice(pc, Run(a, p));
      NextState(pc, w, linked, st, source, ids, l, j, Erase(pc, p), h[0], k);
      LocalActs(pc, st, source, ids, l, p, a);
      CarrierActive(pc, source, k, w(Run(a, p)));
      AcceptedIsRun(pc, w, linked, st, source, ids, l, k, w(Run(a, p)), h[1..], q);
    }
  }

  lemma CarrierActive(pc: Field, source: int, k: int, p: Packet)
    requires Get(p, pc) == k
    ensures Active(pc, source, k, p)
  {
  }

  /** `h` is accepted from state `k`, or from the source after a part of it. */
  ghost predicate Resumes(w: Wire, st: States, source: int, k: int, p: Packet, h: seq<Packet>, q: Packet) {
    Accept(w, st, k, p, h, q) || exists g, j, y, g' :: Restarted(w, st, source, k, p, h, q, g, j, y, g')
  }

  lemma ResumesStep(pc: Field, w: Wire, st: States, source: int, k: int, p: Packet, x: Packet, k': int, h: seq<Packet>,
                    q: Packet)
    requires h != [] && h[0] == x && k in st && DStep(st[k].1, p, x, k') && Resumes(w, st, source, k', w(x), h[1..], q)
    ensures Resumes(w, st, source, k, p, h, q)
    ensures k == source && p == Erase(pc, p) && RestartsAddNothing(pc, w, st, source) ==> Accept(w, st, source, p, h, q)
  {
    hide DStep, EStep, Erase;
    if !Accept(w, st, k', w(x), h[1..], q) {
      var g, j, y, g' :| Restarted(w, st, source, k', w(x), h[1..], q, g, j, y, g');
      var xg := [x] + g;
      assert xg[0] == x && xg[1..] == g;
      assert h == xg + g';
      assert Path(w, st, k, p, xg, j, y);
      assert Restarted(w, st, source, k, p, h, q, xg, j, y, g');
    }
  }

  lemma ResumesSource(w: Wire, st: States, source: int, k: int, p: Packet, h: seq<Packet>, q: Packet)
    requires Accept(w, st, source, p, h, q)
    ensures Resumes(w, st, source, k, p, h, q)
  {
    hide Accept;
    assert h == [] + h;
    assert Restarted(w, st, source, k, p, h, q, [], k, p, h);
  }

  /** A run of a packet in state `k` follows the automaton from `k`, and may
      start over at some point. */
  lemma {:induction false} RunResumes(pc: Field, w: Wire, linked: Linked, st: States, source: int, ids: set<int>,
                                      l: Fdd, k: int, p: Packet, h: seq<Packet>, q: Packet)
    requires Encoded(pc, st, source, ids, l) && OnNetwork(pc, w, linked, st, source, ids) &&
             RestartsAddNothing(pc, w, st, source)
    requires k in ids && (Get(p, pc) == k || (k == source && Get(p, pc) !in ids)) &&
             EndsOff(w, linked, st, k, Erase(pc, p))
    requires NetRun(pc, w, linked, l, p, h, q)
    ensures Resumes(w, st, source, k, Erase(pc, p), h, q)
    decreases |h|
  {
    hide Encoded, OnNetwork, RestartsAddNothing, Resumes, DStep, EStep, Lookup, StateActs, StateOk, Free, Erase,
      EndsOff, PcBlind;
    var e := Erase(pc, p);
    var a :| a in Lookup(l, p) && if h == [] then Erase(pc, Run(a, p)) == q && !linked(q) else
      Erase(pc, Run(a, p)) == h[0] && linked(h[0]) && NetRun(pc, w, linked, l, w(Run(a, p)), h[1..], q);
    LocalActs(pc, st, source, ids, l, p, a);
    var j :| j in ids && j in st && Active(pc, source, j, p) && a in StateActs(pc, st[j], p);
    assert j == k || j == source;
    SourceEndsOff(pc, w, linked, st, source, ids, e);
    StateFactsAt(pc, st, source, ids, l, j);
    StateActsSteps(pc, st[j], st.Keys, p, a);
    EraseTwice(pc, p);
    EraseTwice(pc, Run(a, p));
    if h == [] {
      if !EStep(st[j].0, e, q) {
        var x, k' :| DStep(st[j].1, e, x, k') && Run(a, p) == x[pc := k'] && x == Erase(pc, Run(a, p));
        NextState(pc, w, linked, st, source, ids, l, j, e, x, k');
        assert false;
      }
      assert Accept(w, st, j, e, [], q);
    } else {
      if EStep(st[j].0, e, h[0]) {
        EndsHere(w, linked, st, j, e, h[0]);
        assert false;
      }
      var x, k' :| DStep(st[j].1, e, x, k') && Run(a, p) == x[pc := k'] && x == Erase(pc, Run(a, p));
      NextState(pc, w, linked, st, source, ids, l, j, e, x, k');
      RunResumes(pc, w, linked, st, source, ids, l, k', w(Run(a, p)), h[1..], q);
      ResumesStep(pc, w, st, source, j, e, x, k', h, q);
    }
    if j == source && Accept(w, st, source, e, h, q) {
      ResumesSource(w, st, source, k, e, h, q);
    } else {
      ResumesAccept(w, st, source, k, e, h, q);
    }
  }

  lemma ResumesAccept(w: Wire, st: States, source: int, k: int, p: Packet, h: seq<Packet>, q: Packet)
    ensures Accept(w, st, k, p, h, q) ==> Resumes(w, st, source, k, p, h, q)
  {
  }

  /** From the source, starting over adds nothing. */
  lemma SourceResumes(pc: Field, w: Wire, st: States, source: int, p: Packet, h: seq<Packet>, q: Packet)
    requires Resumes(w, st, source, source, p, h, q) && RestartsAddNothing(pc, w, st, source) && p == Erase(pc, p)
    ensures Accept(w, st, source, p, h, q)
  {
    hide Accept;
    if g, j, y, g' :| Restarted(w, st, source, source, p, h, q, g, j, y, g') {
      if g == [] {
        assert h == g';
      }
    }
  }

  /** An automaton path followed by a run is a run. */
  lemma {:induction false} PathRun(pc: Field, w: Wire, linked: Linked, st: States, source: int, ids: set<int>, l: Fdd,
                                   j: int, p: Packet, h: seq<Packet>, k: int, y: Packet, g: seq<Packet>, q: Packet)
    requires Encoded(pc, st, source, ids, l) && OnNetwork(pc, w, linked, st, source, ids)
    requires j in ids && Active(pc, source, j, p) && EndsOff(w, linked, st, j, Erase(pc, p))
    requires Path(w, st, j, Erase(pc, p), h, k, y) && Accept(w, st, source, y, g, q)
    ensures NetRun(pc, w, linked, l, p, h + g, q)
    decreases |h|
  {
    hide Encoded, OnNetwork, Active, DStep, EStep, Lookup, StateActs, StateOk, Free, Erase, EndsOff, Accept;
    StateFactsAt(pc, st, source, ids, l, j);
    if h == [] {
      assert h + g == g;
      SourceEndsOff(pc, w, linked, st, source, ids, y);
      SourceActive(pc, source, p);
      AcceptedIsRun(pc, w, linked, st, source, ids, l, source, p, g, q);
    } else {
      var k' :| DStep(st[j].1, Erase(pc, p), h[0], k') && Path(w, st, k', w(h[0]), h[1..], k, y);
      DStepActs(pc, st[j], p, h[0], k');
      var a :| a in StateActs(pc, st[j], p) && Run(a, p) == h[0][pc := k'] && Erase(pc, Run(a, p)) == h[0];
      EraseTwice(pc, Run(a, p));
      NextState(pc, w, linked, st, source, ids, l, j, Erase(pc, p), h[0], k');
      LocalActs(pc, st, source, ids, l, p, a);
      CarrierActive(pc, source, k', w(Run(a, p)));
      PathRun(pc, w, linked, st, source, ids, l, k', w(Run(a, p)), h[1..], k, y, g, q);
      assert (h + g)[0] == h[0] && (h + g)[1..] == h[1..] + g;
    }
  }

  lemma SourceActive(pc: Field, source: int, p: Packet)
    ensures Active(pc, source, source, p)
  {
  }

  /** Packets that come from outside carry no state of the automaton. */
  ghost predicate RunsExact(pc: Field, w: Wire, linked: Linked, st: States, source: int, ids: set<int>, l: Fdd) {
    forall p, h, q :: Get(p, pc) !in ids ==>
      (NetRun(pc, w, linked, l, p, h, q) <==> Accept(w, st, source, Erase(pc, p), h, q))
  }

  lemma FreshValue(ids: set<int>) returns (v: int)
    ensures v !in ids
  {
    var n := |ids|;
    if Range(n + 1) <= ids {
      SubsetSize(Range(n + 1), ids);
      assert false;
    }
    v :| v in Range(n + 1) && v !in ids;
  }

  /** The runs of the local program are exactly those of the automaton, if and
      only if starting over on the way adds nothing. */
  lemma RunsExactIff(pc: Field, w: Wire, linked: Linked, st: States, source: int, ids: set<int>, l: Fdd)
    requires Encoded(pc, st, source, ids, l) && OnNetwork(pc, w, linked, st, source, ids)
    ensures RunsExact(pc, w, linked, st, source, ids, l) <==> RestartsAddNothing(pc, w, st, source)
  {
    if RestartsAddNothing(pc, w, st, source) {
      hide Encoded, OnNetwork, RestartsAddNothing, Accept, NetRun, Resumes;
      forall p, h, q | Get(p, pc) !in ids
        ensures NetRun(pc, w, linked, l, p, h, q) <==> Accept(w, st, source, Erase(pc, p), h, q)
      {
        RunFromOutside(pc, w, linked, st, source, ids, l, p, h, q);
      }
    }
    if RunsExact(pc, w, linked, st, source, ids, l) {
      hide Encoded, OnNetwork, Accept, NetRun, Path, RunsExact, Erase;
      forall p, h, q, g, j, y, g'
        | Restarted(w, st, source, source, p, h, q, g, j, y, g') && p == Erase(pc, p) && g != []
        ensures Accept(w, st, source, p, h, q)
      {
        RestartIsRun(pc, w, linked, st, source, ids, l, p, g, j, y, g', q);
      }
    }
  }

  lemma RunFromOutside(pc: Field, w: Wire, linked: Linked, st: States, source: int, ids: set<int>, l: Fdd, p: Packet,
                       h: seq<Packet>, q: Packet)
    requires Encoded(pc, st, source, ids, l) && OnNetwork(pc, w, linked, st, source, ids) &&
             RestartsAddNothing(pc, w, st, source)
    requires Get(p, pc) !in ids
    ensures NetRun(pc, w, linked, l, p, h, q) <==> Accept(w, st, source, Erase(pc, p), h, q)
  {
    hide IsLocal, OnNetwork, RestartsAddNothing, Accept, NetRun, Resumes, Erase;
    SourceEndsOff(pc, w, linked, st, source, ids, Erase(pc, p));
    SourceActive(pc, source, p);
    EraseTwice(pc, p);
    if NetRun(pc, w, linked, l, p, h, q) {
      RunResumes(pc, w, linked, st, source, ids, l, source, p, h, q);
      SourceResumes(pc, w, st, source, Erase(pc, p), h, q);
    }
    if Accept(w, st, source, Erase(pc, p), h, q) {
      AcceptedIsRun(pc, w, linked, st, source, ids, l, source, p, h, q);
    }
  }

  lemma RestartIsRun(pc: Field, w: Wire, linked: Linked, st: States, source: int, ids: set<int>, l: Fdd,
                     p: Packet, h: seq<Packet>, k: int, y: Packet, g: seq<Packet>, q: Packet)
    requires Encoded(pc, st, source, ids, l) && OnNetwork(pc, w, linked, st, source, ids) &&
             RunsExact(pc, w, linked, st, source, ids, l)
    requires p == Erase(pc, p) && Path(w, st, source, p, h, k, y) && Accept(w, st, source, y, g, q)
    ensures Accept(w, st, source, p, h + g, q)
  {
    hide IsLocal, OnNetwork, Accept, NetRun, Path;
    var v := FreshValue(ids);
    var p' := p[pc := v];
    assert Get(p', pc) == v && Erase(pc, p') == p by { assert p[pc := v][pc := 0] == p[pc := 0]; }
    SourceEndsOff(pc, w, linked, st, source, ids, p);
    SourceActive(pc, source, p');
    PathRun(pc, w, linked, st, source, ids, l, source, p', h, k, y, g, q);
  }
}
