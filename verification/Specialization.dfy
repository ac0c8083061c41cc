/** The tables of a version are made of compiled tables: patterns get the tag of the
    version, and outputs are to leave the tag that fits their port. */
module Specialization {

  import opened Wrappers
  import opened Switches
  import opened VersionedUpdate
  import A = Actions
  import F = FlowTables

  predicate Sends(a: Action) {
    a.Output? || a.ToController? || a.OutputOther?
  }

  /** The packets that a list of actions sends, each with where it goes. */
  function Emit(acts: seq<Action>, h: Header): seq<(Action, Header)> {
    if acts == [] then []
    else
      match acts[0]
      case SetVlan(v) => Emit(acts[1..], h[VLAN := v])
      case StripVlan => Emit(acts[1..], h[VLAN := VLAN_NONE])
      case SetField(f, x) => Emit(acts[1..], h[f := x])
      case _ => [(acts[0], h)] + Emit(acts[1..], h)
  }

  /** `specialize_action`: what follows an action that is no output comes before it,
      too.  An output that names no port is an error. */
  function SpecializeAction(ver: int, ports: set<int>, acts: seq<Action>): Option<seq<Action>> {
    if acts == [] then Some([])
    else
      match SpecializeAction(ver, ports, acts[1..])
      case None => None
      case Some(acc) =>
        match acts[0]
        case Output(pt) => Some([if pt in ports then SetVlan(ver) else StripVlan] + ([acts[0]] + acc))
        case ToController => Some([StripVlan] + ([acts[0]] + acc))
        case OutputOther => None
        case _ => Some(acc + ([acts[0]] + acc))
  }

  lemma {:induction false} FailsIff(ver: int, ports: set<int>, acts: seq<Action>)
    ensures SpecializeAction(ver, ports, acts) == None <==> OutputOther in acts
  {
    if acts != [] {
      FailsIff(ver, ports, acts[1..]);
      assert acts == [acts[0]] + acts[1..];
    }
  }

  // Sequences of actions

  function After(acts: seq<Action>, h: Header): Header {
    if acts == [] then h
    else
      match acts[0]
      case SetVlan(v) => After(acts[1..], h[VLAN := v])
      case StripVlan => After(acts[1..], h[VLAN := VLAN_NONE])
      case SetField(f, x) => After(acts[1..], h[f := x])
      case _ => After(acts[1..], h)
  }

  lemma {:induction false} EmitConcat(a: seq<Action>, b: seq<Action>, h: Header)
    ensures Emit(a + b, h) == Emit(a, h) + Emit(b, After(a, h))
    decreases |a|
  {
    if a == [] {
      assert a + b == b;
    } else {
      var g := After([a[0]], h);
      assert a + b == [a[0]] + (a[1..] + b) && a == [a[0]] + a[1..] && [a[0]][1..] == [];
      EmitCons(a[0], a[1..] + b, h);
      EmitCons(a[0], a[1..], h);
      EmitConcat(a[1..], b, g);
      assert After(a, h) == After(a[1..], g);
      var first := if Sends(a[0]) then [(a[0], h)] else [];
      assert first + (Emit(a[1..], g) + Emit(b, After(a, h))) == first + Emit(a[1..], g) + Emit(b, After(a, h));
    }
  }

  lemma EmitCons(x: Action, acts: seq<Action>, h: Header)
    ensures Emit([x] + acts, h) == (if Sends(x) then [(x, h)] else []) + Emit(acts, After([x], h))
  {
    assert ([x] + acts)[1..] == acts && [x][1..] == [];
  }

  function Count(acts: seq<Action>): nat {
    if acts == [] then 0 else (if Sends(acts[0]) then 1 else 0) + Count(acts[1..])
  }

  lemma {:induction false} CountConcat(a: seq<Action>, b: seq<Action>)
    ensures Count(a + b) == Count(a) + Count(b)
    decreases |a|
  {
    if a == [] {
      assert a + b == b;
    } else {
      assert (a + b)[0] == a[0] && (a + b)[1..] == a[1..] + b;
      CountConcat(a[1..], b);
    }
  }

  lemma {:induction false} EmitCount(acts: seq<Action>, h: Header)
    ensures |Emit(acts, h)| == Count(acts)
  {
    if acts != [] {
      assert acts == [acts[0]] + acts[1..];
      EmitCons(acts[0], acts[1..], h);
      EmitCount(acts[1..], After([acts[0]], h));
    }
  }

  // Tags

  /** Packets for internal ports carry the version, and all others no tag. */
  predicate RightTag(ver: int, ports: set<int>, o: (Action, Header)) {
    VLAN in o.1 && o.1[VLAN] == if o.0.Output? && o.0.port in ports then ver else VLAN_NONE
  }

  /** Whatever the actions do, specialised ones send no packet with a wrong tag. */
  lemma {:induction false} TagsRight(ver: int, ports: set<int>, acts: seq<Action>, h: Header)
    requires SpecializeAction(ver, ports, acts).Some?
    ensures forall o :: o in Emit(SpecializeAction(ver, ports, acts).value, h) ==> RightTag(ver, ports, o)
  {
    hide Emit, After;
    if acts == [] {
      EmitNone(h);
    } else {
      var acc := SpecializeAction(ver, ports, acts[1..]).value;
      var a := acts[0];
      if Sends(a) {
        var tag := if a.Output? && a.port in ports then SetVlan(ver) else StripVlan;
        var h' := if tag.StripVlan? then h[VLAN := VLAN_NONE] else h[VLAN := ver];
        EmitTag(tag, h);
        EmitCons(tag, [a] + acc, h);
        EmitCons(a, acc, h');
        TagsRight(ver, ports, acts[1..], After([a], h'));
      } else {
        EmitConcat(acc, [a] + acc, h);
        EmitCons(a, acc, After(acc, h));
        TagsRight(ver, ports, acts[1..], h);
        TagsRight(ver, ports, acts[1..], After([a], After(acc, h)));
      }
    }
  }

  lemma EmitNone(h: Header)
    ensures Emit([], h) == []
  {
  }

  lemma EmitTag(tag: Action, h: Header)
    ensures tag.SetVlan? ==> After([tag], h) == h[VLAN := tag.ver]
    ensures tag.StripVlan? ==> After([tag], h) == h[VLAN := VLAN_NONE]
    ensures Sends(tag) ==> After([tag], h) == h
  {
    assert [tag][1..] == [];
  }

  // What is sent, apart from the tag

  function Untagged(os: seq<(Action, Header)>): seq<(Action, Header)> {
    seq(|os|, i requires 0 <= i < |os| => (os[i].0, os[i].1 - {VLAN}))
  }

  /** All outputs come before all other actions. */
  predicate OutputsFirst(acts: seq<Action>) {
    forall i, j :: 0 <= i < j < |acts| && Sends(acts[j]) ==> Sends(acts[i])
  }

  lemma {:induction false} NoneSent(acts: seq<Action>)
    ensures Count(acts) == 0 <==> forall i :: 0 <= i < |acts| ==> !Sends(acts[i])
  {
    if acts != [] {
      NoneSent(acts[1..]);
      assert acts == [acts[0]] + acts[1..];
    }
  }

  lemma FirstAndRest(acts: seq<Action>)
    requires acts != []
    ensures OutputsFirst(acts) <==> if Sends(acts[0]) then OutputsFirst(acts[1..]) else Count(acts[1..]) == 0
  {
    var rest := acts[1..];
    NoneSent(rest);
    assert forall i :: 0 <= i < |rest| ==> rest[i] == acts[i + 1];
    if OutputsFirst(acts) && !Sends(acts[0]) {
      forall i | 0 <= i < |rest| ensures !Sends(rest[i]) { assert rest[i] == acts[i + 1]; }
    }
    if OutputsFirst(rest) && Sends(acts[0]) {
      forall i, j | 0 <= i < j < |acts| && Sends(acts[j]) ensures Sends(acts[i]) {
        if i > 0 { assert rest[i - 1] == acts[i] && rest[j - 1] == acts[j]; }
      }
    }
    if !Sends(acts[0]) && Count(rest) == 0 {
      forall j | 0 < j < |acts| ensures !Sends(acts[j]) { assert rest[j - 1] == acts[j]; }
    }
  }

  /** Specialising loses no output, and copies some unless outputs come first. */
  lemma {:induction false} CountSpecialized(ver: int, ports: set<int>, acts: seq<Action>)
    requires SpecializeAction(ver, ports, acts).Some?
    ensures var n := Count(SpecializeAction(ver, ports, acts).value);
            n >= Count(acts) && (n == Count(acts) <==> OutputsFirst(acts))
  {
    if acts != [] {
      var acc := SpecializeAction(ver, ports, acts[1..]).value;
      var a := acts[0];
      CountSpecialized(ver, ports, acts[1..]);
      FirstAndRest(acts);
      hide Count, OutputsFirst;
      CountCons(a, acc);
      assert acts == [a] + acts[1..];
      CountCons(a, acts[1..]);
      if Sends(a) {
        CountCons(if a.Output? && a.port in ports then SetVlan(ver) else StripVlan, [a] + acc);
      } else {
        CountConcat(acc, [a] + acc);
      }
    }
  }

  lemma CountCons(x: Action, acts: seq<Action>)
    ensures Count([x] + acts) == (if Sends(x) then 1 else 0) + Count(acts)
  {
    assert ([x] + acts)[1..] == acts;
  }

  /** The tag that a packet has makes no other difference. */
  lemma {:induction false} TagOnly(acts: seq<Action>, h: Header, h': Header)
    requires h - {VLAN} == h' - {VLAN}
    ensures Untagged(Emit(acts, h)) == Untagged(Emit(acts, h'))
  {
    hide Untagged;
    if acts == [] {
    } else {
      var (g, g') := (After([acts[0]], h), After([acts[0]], h'));
      assert acts == [acts[0]] + acts[1..];
      EmitCons(acts[0], acts[1..], h);
      EmitCons(acts[0], acts[1..], h');
      AfterTag(acts[0], h, h');
      TagOnly(acts[1..], g, g');
      UntaggedCons(acts[0], h, Emit(acts[1..], g));
      UntaggedCons(acts[0], h', Emit(acts[1..], g'));
      assert [] + Emit(acts[1..], g) == Emit(acts[1..], g) && [] + Emit(acts[1..], g') == Emit(acts[1..], g');
    }
  }

  lemma AfterTag(a: Action, h: Header, h': Header)
    requires h - {VLAN} == h' - {VLAN}
    ensures After([a], h) - {VLAN} == After([a], h') - {VLAN}
  {
    assert [a][1..] == [];
    if a.SetField? {
      assert h[a.field := a.value] - {VLAN} == (h - {VLAN})[a.field := a.value];
      assert h'[a.field := a.value] - {VLAN} == (h' - {VLAN})[a.field := a.value];
    } else if a.SetVlan? {
      assert h[VLAN := a.ver] - {VLAN} == h - {VLAN} && h'[VLAN := a.ver] - {VLAN} == h' - {VLAN};
    } else if a.StripVlan? {
      assert h[VLAN := VLAN_NONE] - {VLAN} == h - {VLAN} && h'[VLAN := VLAN_NONE] - {VLAN} == h' - {VLAN};
    }
  }

  lemma UntaggedCons(a: Action, h: Header, os: seq<(Action, Header)>)
    ensures Untagged([(a, h)] + os) == [(a, h - {VLAN})] + Untagged(os)
  {
  }

  lemma {:induction false} OutputsFirstSame(ver: int, ports: set<int>, acts: seq<Action>, h: Header)
    requires SpecializeAction(ver, ports, acts).Some? && OutputsFirst(acts)
    ensures Untagged(Emit(SpecializeAction(ver, ports, acts).value, h)) == Untagged(Emit(acts, h))
  {
    if acts != [] {
      FirstAndRest(acts);
      hide Untagged, Emit, After, OutputsFirst;
      var r := SpecializeAction(ver, ports, acts).value;
      if Sends(acts[0]) {
        var acc := SpecializeAction(ver, ports, acts[1..]).value;
        var a := acts[0];
        var tag := if a.Output? && a.port in ports then SetVlan(ver) else StripVlan;
        var h' := if tag.StripVlan? then h[VLAN := VLAN_NONE] else h[VLAN := ver];
        EmitTag(tag, h);
        EmitTag(a, h');
        EmitTag(a, h);
        EmitCons(tag, [a] + acc, h);
        EmitCons(a, acc, h');
        assert acts == [a] + acts[1..];
        EmitCons(a, acts[1..], h);
        OutputsFirstSame(ver, ports, acts[1..], h');
        assert h' - {VLAN} == h - {VLAN};
        TagOnly(acts[1..], h, h');
        UntaggedCons(a, h', Emit(acc, h'));
        UntaggedCons(a, h, Emit(acts[1..], h));
      } else {
        CountSpecialized(ver, ports, acts);
        EmitCount(r, h);
        EmitCount(acts, h);
        NoneSent(acts);
      }
    }
  }

  /** Apart from the tag, specialised actions send what the given ones send if and only
      if all outputs come before all other actions. */
  lemma SameSentIff(ver: int, ports: set<int>, acts: seq<Action>, h: Header)
    requires OutputOther !in acts
    ensures SpecializeAction(ver, ports, acts).Some?
    ensures Untagged(Emit(SpecializeAction(ver, ports, acts).value, h)) == Untagged(Emit(acts, h))
            <==> OutputsFirst(acts)
  {
    FailsIff(ver, ports, acts);
    var r := SpecializeAction(ver, ports, acts).value;
    hide SpecializeAction, Emit, OutputsFirst;
    CountSpecialized(ver, ports, acts);
    EmitCount(r, h);
    EmitCount(acts, h);
    assert |Untagged(Emit(r, h))| == Count(r) && |Untagged(Emit(acts, h))| == Count(acts);
    if OutputsFirst(acts) { OutputsFirstSame(ver, ports, acts, h); }
  }

  // Compiled rows: assignments, and then one output

  function Power(n: nat): (r: nat)
    ensures r > 0
  {
    if n == 0 then 1 else 2 * Power(n - 1)
  }

  /** After `n` assignments, an output is made 2^n times, and the first packet is sent
      without any of them. */
  lemma {:induction false} AssignmentsRepeat(ver: int, ports: set<int>, mods: seq<Action>, q: int, h: Header)
    requires forall a :: a in mods ==> !Sends(a)
    ensures SpecializeAction(ver, ports, mods + [Output(q)]).Some?
    ensures var os := Emit(SpecializeAction(ver, ports, mods + [Output(q)]).value, h);
            |os| == Power(|mods|) && os[0] == (Output(q), h[VLAN := if q in ports then ver else VLAN_NONE])
  {
    hide Emit;
    var acts := mods + [Output(q)];
    if mods == [] {
      var tag := if q in ports then SetVlan(ver) else StripVlan;
      assert acts == [Output(q)] && acts[1..] == [];
      assert SpecializeAction(ver, ports, acts[1..]) == Some([]);
      assert SpecializeAction(ver, ports, acts).value == [tag] + ([Output(q)] + []);
      EmitTag(tag, h);
      EmitCons(tag, [Output(q)] + [], h);
      EmitCons(Output(q), [], After([tag], h));
      EmitTag(Output(q), After([tag], h));
      EmitNone(After([tag], h));
    } else {
      assert mods[0] in mods && forall a :: a in mods[1..] ==> a in mods;
      assert acts[1..] == mods[1..] + [Output(q)];
      var acc := SpecializeAction(ver, ports, acts[1..]);
      AssignmentsRepeat(ver, ports, mods[1..], q, h);
      EmitConcat(acc.value, [mods[0]] + acc.value, h);
      EmitCons(mods[0], acc.value, After(acc.value, h));
      AssignmentsRepeat(ver, ports, mods[1..], q, After([mods[0]], After(acc.value, h)));
    }
  }

  /** An action of a compiled row, in the words of the switch. */
  function Low(vlan: A.Field, a: F.Sdn): Action {
    match a
    case Modify(f, v) => if f == vlan then SetVlan(v) else SetField(f + 1, v)
    case OutputInPort => OutputOther
    case OutputPhysical(q) => Output(q)
  }

  function Lows(vlan: A.Field, acts: seq<F.Sdn>): seq<Action> {
    if acts == [] then [] else [Low(vlan, acts[0])] + Lows(vlan, acts[1..])
  }

  lemma {:induction false} LowModifies(vlan: A.Field, mods: map<A.Field, int>, last: F.Sdn)
    requires !last.Modify?
    ensures var acts := Lows(vlan, F.Modifies(mods, last));
            && (OutputOther in acts <==> last.OutputInPort?)
            && Count(acts) > 0 && (OutputsFirst(acts) <==> mods.Keys == {})
    decreases |mods.Keys|
  {
    if mods.Keys == {} {
      assert F.Modifies(mods, last) == [last] + [];
      LowsCons(vlan, last, []);
      LowStart(vlan, last, []);
    } else {
      var f := Pick(mods.Keys);
      var rest := mods - {f};
      assert rest.Keys == mods.Keys - {f};
      F.ModifiesCons(mods, last);
      LowModifies(vlan, rest, last);
      LowStart(vlan, F.Modify(f, mods[f]), F.Modifies(rest, last));
    }
  }

  lemma LowsCons(vlan: A.Field, a: F.Sdn, more: seq<F.Sdn>)
    ensures Lows(vlan, [a] + more) == [Low(vlan, a)] + Lows(vlan, more)
  {
    assert ([a] + more)[1..] == more;
  }

  lemma LowStart(vlan: A.Field, a: F.Sdn, more: seq<F.Sdn>)
    ensures var (acts, rest) := (Lows(vlan, [a] + more), Lows(vlan, more));
            && (OutputOther in acts <==> a.OutputInPort? || OutputOther in rest)
            && Count(acts) == (if a.Modify? then 0 else 1) + Count(rest)
            && (OutputsFirst(acts) <==> if a.Modify? then Count(rest) == 0 else OutputsFirst(rest))
  {
    var acts, rest := Lows(vlan, [a] + more), Lows(vlan, more);
    LowsCons(vlan, a, more);
    assert acts[0] == Low(vlan, a) && acts[1..] == rest;
    FirstAndRest(acts);
    hide Lows, OutputsFirst;
    CountCons(Low(vlan, a), rest);
  }

  /** The actions that a table has for `s` can be specialised if and only if they send
      to a port other than the ingress port, and then send the same packets, apart from
      the tag, if and only if `s` assigns the location only. */
  lemma CompiledSameIff(ver: int, ports: set<int>, vlan: A.Field, ly: F.Layout, inPort: Option<int>, s: A.Act,
                        h: Header)
    ensures var acts := Lows(vlan, F.SdnOf(ly, inPort, s));
            && (SpecializeAction(ver, ports, acts).Some? <==>
                ly.location in s.mods && inPort != Some(s.mods[ly.location]))
            && (SpecializeAction(ver, ports, acts).Some? ==>
                (Untagged(Emit(SpecializeAction(ver, ports, acts).value, h)) == Untagged(Emit(acts, h))
                 <==> s.mods.Keys <= {ly.location}))
  {
    var acts := Lows(vlan, F.SdnOf(ly, inPort, s));
    LowModifies(vlan, s.mods - {ly.location}, F.OutputOf(ly, inPort, s));
    hide SpecializeAction, Emit, OutputsFirst, Untagged, Lows;
    FailsIff(ver, ports, acts);
    if OutputOther !in acts { SameSentIff(ver, ports, acts, h); }
    assert (s.mods - {ly.location}).Keys == s.mods.Keys - {ly.location};
  }

  // The tables of a version

  const IN_PORT: int := -1

  function SpecializeInternal(ver: int, ports: set<int>, flows: seq<Flow>): Option<seq<Flow>> {
    if flows == [] then Some([])
    else
      match (SpecializeAction(ver, ports, flows[0].action), SpecializeInternal(ver, ports, flows[1..]))
      case (Some(a), Some(rest)) => Some([Flow(flows[0].pattern[VLAN := ver], a)] + rest)
      case _ => None
  }

  predicate FromInside(ports: set<int>, f: Flow) {
    IN_PORT in f.pattern && f.pattern[IN_PORT] in ports
  }

  function SpecializeEdge(ver: int, ports: set<int>, flows: seq<Flow>): Option<seq<Flow>> {
    if flows == [] then Some([])
    else if FromInside(ports, flows[0]) then SpecializeEdge(ver, ports, flows[1..])
    else
      match (SpecializeAction(ver, ports, flows[0].action), SpecializeEdge(ver, ports, flows[1..]))
      case (Some(a), Some(rest)) => Some([Flow(flows[0].pattern[VLAN := VLAN_NONE], a)] + rest)
      case _ => None
  }

  /** What the first row that matches does. */
  function FirstAction(flows: seq<Flow>, h: Header): Option<seq<Action>> {
    if flows == [] then None
    else if Hits(flows[0].pattern, h) then Some(flows[0].action)
    else FirstAction(flows[1..], h)
  }

  /** The tables without their own tests of the tag, which specialising overwrites. */
  function Bare(flows: seq<Flow>): seq<Flow> {
    if flows == [] then [] else [Flow(flows[0].pattern - {VLAN}, flows[0].action)] + Bare(flows[1..])
  }

  /** A packet with the tag of the version is treated by the internal table as by the
      compiled one, with specialised actions; a packet with any other misses. */
  lemma {:induction false} InternalMeaning(ver: int, ports: set<int>, flows: seq<Flow>, h: Header)
    requires SpecializeInternal(ver, ports, flows).Some? && VLAN in h
    ensures FirstAction(SpecializeInternal(ver, ports, flows).value, h) ==
              match FirstAction(Bare(flows), h)
              case None => None
              case Some(a) => if h[VLAN] == ver then SpecializeAction(ver, ports, a) else None
  {
    hide SpecializeAction, Hits;
    if flows != [] {
      InternalMeaning(ver, ports, flows[1..], h);
      HitsTagged(flows[0].pattern, ver, h);
      assert Bare(flows)[1..] == Bare(flows[1..]);
      var r := SpecializeInternal(ver, ports, flows).value;
      assert r[1..] == SpecializeInternal(ver, ports, flows[1..]).value;
    }
  }

  lemma HitsTagged(p: Switches.Pattern, tag: int, h: Header)
    requires VLAN in h
    ensures Hits(p[VLAN := tag], h) <==> h[VLAN] == tag && Hits(p - {VLAN}, h)
  {
    var q, bare := p[VLAN := tag], p - {VLAN};
    if Hits(q, h) {
      assert VLAN in q;
      forall f | f in bare ensures f in h && h[f] == bare[f] { assert f in q && q[f] == bare[f]; }
    }
    if h[VLAN] == tag && Hits(bare, h) {
      forall f | f in q ensures f in h && h[f] == q[f] {
        if f != VLAN { assert f in bare && bare[f] == q[f]; }
      }
    }
  }

  lemma InsideMisses(ports: set<int>, f: Flow, h: Header)
    requires FromInside(ports, f) && IN_PORT in h && h[IN_PORT] !in ports
    ensures !Hits(f.pattern - {VLAN}, h)
  {
    assert IN_PORT in f.pattern - {VLAN};
  }

  /** The edge table does the same for untagged packets that come in from outside. */
  lemma {:induction false} EdgeMeaning(ver: int, ports: set<int>, flows: seq<Flow>, h: Header)
    requires SpecializeEdge(ver, ports, flows).Some? && VLAN in h && IN_PORT in h && h[IN_PORT] !in ports
    ensures FirstAction(SpecializeEdge(ver, ports, flows).value, h) ==
              match FirstAction(Bare(flows), h)
              case None => None
              case Some(a) => if h[VLAN] == VLAN_NONE then SpecializeAction(ver, ports, a) else None
  {
    hide SpecializeAction, Hits;
    if flows != [] {
      EdgeMeaning(ver, ports, flows[1..], h);
      assert Bare(flows)[1..] == Bare(flows[1..]);
      if FromInside(ports, flows[0]) {
        InsideMisses(ports, flows[0], h);
      } else {
        HitsTagged(flows[0].pattern, VLAN_NONE, h);
        var r := SpecializeEdge(ver, ports, flows).value;
        assert r[1..] == SpecializeEdge(ver, ports, flows[1..]).value;
      }
    }
  }

  lemma {:induction false} InternalRows(ver: int, ports: set<int>, flows: seq<Flow>)
    requires SpecializeInternal(ver, ports, flows).Some?
    ensures forall f :: f in SpecializeInternal(ver, ports, flows).value ==> Tagged(f.pattern, ver)
  {
    hide SpecializeAction;
    if flows != [] {
      InternalRows(ver, ports, flows[1..]);
    }
  }

  /** Tags set by specialised actions: the version, and those set by the actions. */
  lemma {:induction false} TagsSet(ver: int, ports: set<int>, acts: seq<Action>, v: int)
    requires SpecializeAction(ver, ports, acts).Some? && v != ver
    ensures SetVlan(v) in SpecializeAction(ver, ports, acts).value <==> SetVlan(v) in acts
  {
    if acts != [] {
      TagsSet(ver, ports, acts[1..], v);
      assert acts == [acts[0]] + acts[1..];
    }
  }

  /** The row lets packets in from outside, with a tag of its own choice. */
  ghost predicate Strays(ver: int, ports: set<int>, f: Flow) {
    !FromInside(ports, f) && exists v :: v != ver && SetVlan(v) in f.action
  }

  lemma {:induction false} EdgeRows(ver: int, ports: set<int>, flows: seq<Flow>)
    requires SpecializeEdge(ver, ports, flows).Some?
    ensures var r := SpecializeEdge(ver, ports, flows).value;
            && (forall f :: f in r ==> Tagged(f.pattern, VLAN_NONE))
            && ((forall f, v :: f in r && SetVlan(v) in f.action ==> v == ver) <==>
                forall f :: f in flows ==> !Strays(ver, ports, f))
  {
    hide SpecializeAction, Strays;
    if flows != [] {
      EdgeRows(ver, ports, flows[1..]);
      assert forall f :: f in flows <==> f == flows[0] || f in flows[1..];
      EdgeRow(ver, ports, flows[0]);
      if !FromInside(ports, flows[0]) {
        var g := Flow(flows[0].pattern[VLAN := VLAN_NONE], SpecializeAction(ver, ports, flows[0].action).value);
        var r := SpecializeEdge(ver, ports, flows[1..]).value;
        assert forall f :: f in [g] + r <==> f == g || f in r;
      }
    }
  }

  lemma EdgeRow(ver: int, ports: set<int>, f: Flow)
    ensures FromInside(ports, f) ==> !Strays(ver, ports, f)
    ensures !FromInside(ports, f) && SpecializeAction(ver, ports, f.action).Some? ==>
              (Strays(ver, ports, f) <==>
               exists v :: v != ver && SetVlan(v) in SpecializeAction(ver, ports, f.action).value)
  {
    if SpecializeAction(ver, ports, f.action).Some? {
      forall v | v != ver
        ensures SetVlan(v) in SpecializeAction(ver, ports, f.action).value <==> SetVlan(v) in f.action
      {
        TagsSet(ver, ports, f.action, v);
      }
    }
  }

  /** The plan's tables are the specialised tables of each version. */
  ghost predicate Specializes(plan: Plan, tables: (int, int) -> seq<Flow>, ports: int -> set<int>) {
    forall ver, s ::
      && SpecializeInternal(ver, ports(s), tables(ver, s)) == Some(plan.internal(ver, s))
      && SpecializeEdge(ver, ports(s), tables(ver, s)) == Some(plan.edge(ver, s))
  }

  /** The tables of a plan are as the update needs them if and only if no row for packets
      from outside assigns a tag other than its version. */
  lemma SpecializedPlanOkIff(plan: Plan, tables: (int, int) -> seq<Flow>, ports: int -> set<int>)
    requires Specializes(plan, tables, ports)
    ensures PlanOk(plan) <==> forall ver, s, f :: f in tables(ver, s) ==> !Strays(ver, ports(s), f)
  {
    hide SpecializeInternal, SpecializeEdge, Strays;
    forall ver, s
      ensures forall f :: f in plan.internal(ver, s) ==> Tagged(f.pattern, ver)
      ensures forall f :: f in plan.edge(ver, s) ==> Tagged(f.pattern, VLAN_NONE)
      ensures (forall f, v :: f in plan.edge(ver, s) && SetVlan(v) in f.action ==> v == ver) <==>
              forall f :: f in tables(ver, s) ==> !Strays(ver, ports(s), f)
    {
      InternalRows(ver, ports(s), tables(ver, s));
      EdgeRows(ver, ports(s), tables(ver, s));
    }
  }
}
