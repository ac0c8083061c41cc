/** What an update leaves behind: the rules of the versions that it has replaced go,
    and in the end each switch has the rules of the current version and no others. */
module OldVersions {

  import opened Wrappers
  import opened Switches
  import opened TableSwap
  import opened VersionedUpdate
  import opened InFlight

  /** The switch has no rule of the version, or the delete is on its way to it. */
  ghost predicate Going(site: Site, v: int) {
    NoRules(site.rules, v) || Delete(map[VLAN := v]) in site.inbox
  }

  /** The update is clearing, and is through with the switch. */
  predicate ClearSent(ph: Phase, s: int) {
    ph.Clears? && s !in ph.todo
  }

  /** Rules for tagged packets are internal rules of versions from `first` to `last`. */
  ghost predicate Between(plan: Plan, t: Rules, s: int, first: int, last: int) {
    forall k :: k in t && !Tagged(k.pattern, VLAN_NONE) ==>
      exists v :: first <= v <= last && IsInternal(plan, t, v, s, k)
  }

  function Newest(n: Net): int {
    if n.phase.Idle? then n.ver else n.ver + 1
  }

  /** All versions since `first` that have been replaced are gone or going, and so is
      the one being replaced where its delete has been sent. */
  ghost predicate Clean(plan: Plan, first: int, n: Net) {
    && first <= n.ver
    && (forall s, u :: s in n.sites && first <= u && (u < n.ver || (u == n.ver && ClearSent(n.phase, s))) ==>
          Going(n.sites[s], u))
    && forall s :: s in n.sites ==> Between(plan, n.sites[s].rules, s, first, Newest(n))
  }

  // A switch handles a message

  lemma GoingReceive(plan: Plan, ver: int, s: int, site: Site, r: Role, v: int)
    requires PlanOk(plan) && site.inbox != [] && MsgOk(plan, ver, s, r, site.inbox[0]) && v <= ver < VLAN_NONE
    requires Going(site, v)
    ensures Going(Site(Receive(site.rules, site.inbox[0]), site.inbox[1..], site.edge), v)
  {
    var m := site.inbox[0];
    assert site.inbox == [m] + site.inbox[1..];
    if m == Delete(map[VLAN := v]) {
    } else if NoRules(site.rules, v) {
      StaysClear(plan, ver, s, r, site.rules, m, v);
    }
  }

  lemma BetweenReceive(plan: Plan, ver: int, s: int, r: Role, t: Rules, m: Msg, first: int, last: int)
    requires Between(plan, t, s, first, last) && MsgOk(plan, ver, s, r, m)
    requires first <= ver <= last && (r.pending ==> ver + 1 <= last && ver + 1 < VLAN_NONE)
    ensures Between(plan, Receive(t, m), s, first, last)
  {
    hide RulesOf, Internal;
    forall k | k in Receive(t, m) && !Tagged(k.pattern, VLAN_NONE)
      ensures exists v :: first <= v <= last && IsInternal(plan, Receive(t, m), v, s, k)
    {
      if m.Add? && k == m.key {
        assert IsInternal(plan, Receive(t, m), ver + 1, s, k);
      } else {
        var v :| first <= v <= last && IsInternal(plan, t, v, s, k);
        assert IsInternal(plan, Receive(t, m), v, s, k);
      }
    }
  }

  lemma HandleClean(plan: Plan, switches: seq<int>, first: int, n: Net, n': Net, x: int)
    requires PlanOk(plan) && Inv(plan, switches, n) && Clean(plan, first, n) && Handle(n, n', x)
    ensures Clean(plan, first, n')
  {
    hide PlanOk, SiteOk, Receive, Going, Between, MsgOk;
    var r := RoleOf(n.phase, x);
    assert SiteOk(plan, n.ver, x, n.sites[x], r);
    MessageOk(plan, n.ver, x, n.sites[x], r);
    BetweenReceive(plan, n.ver, x, r, n.sites[x].rules, n.sites[x].inbox[0], first, Newest(n));
    forall s, u | s in n'.sites && first <= u && (u < n'.ver || (u == n'.ver && ClearSent(n'.phase, s)))
      ensures Going(n'.sites[s], u)
    {
      if s == x { GoingReceive(plan, n.ver, x, n.sites[x], r, u); }
    }
  }

  // The controller takes a step

  lemma BetweenWider(plan: Plan, t: Rules, s: int, first: int, last: int, last': int)
    requires Between(plan, t, s, first, last) && last <= last'
    ensures Between(plan, t, s, first, last')
  {
    hide IsInternal;
  }

  lemma GoingMore(site: Site, site': Site, v: int)
    requires Going(site, v) && site'.rules == site.rules && site.inbox <= site'.inbox
    ensures Going(site', v)
  {
  }

  /** What a step of the controller does to a switch. */
  lemma ControlSite(plan: Plan, switches: seq<int>, n: Net, n': Net, s: int)
    requires Control(plan, switches, n, n') && s in n.sites
    ensures s in n'.sites && n'.sites[s].rules == n.sites[s].rules && n.sites[s].inbox <= n'.sites[s].inbox
    ensures Newest(n) <= Newest(n')
  {
    hide Adds, Edge, Internal, FlowtableDiff;
  }

  /** A switch that the controller is through with has been sent the delete. */
  lemma ControlClears(plan: Plan, switches: seq<int>, n: Net, n': Net, s: int, u: int)
    requires Control(plan, switches, n, n') && s in n.sites && s in switches
    requires u < n'.ver || (u == n'.ver && ClearSent(n'.phase, s))
    ensures s in n'.sites
    ensures u < n.ver || (u == n.ver && ClearSent(n.phase, s)) || Delete(map[VLAN := u]) in n'.sites[s].inbox
  {
    hide Adds, Edge, Internal, FlowtableDiff;
    if n.phase.Clears? && n.phase.todo != [] {
      var todo := n.phase.todo;
      assert todo == [todo[0]] + todo[1..];
      assert Delete(map[VLAN := n.ver]) in n'.sites[todo[0]].inbox;
    }
  }

  lemma ControlClean(plan: Plan, switches: seq<int>, first: int, n: Net, n': Net)
    requires Inv(plan, switches, n) && Clean(plan, first, n) && Control(plan, switches, n, n')
    ensures Clean(plan, first, n')
  {
    hide SiteOk, Control, Between, Going;
    ControlVersion(plan, switches, n, n');
    forall s | s in n'.sites ensures Between(plan, n'.sites[s].rules, s, first, Newest(n')) {
      ControlSite(plan, switches, n, n', s);
      BetweenWider(plan, n.sites[s].rules, s, first, Newest(n), Newest(n'));
    }
    forall s, u | s in n'.sites && first <= u && (u < n'.ver || (u == n'.ver && ClearSent(n'.phase, s)))
      ensures Going(n'.sites[s], u)
    {
      ControlSite(plan, switches, n, n', s);
      ControlClears(plan, switches, n, n', s, u);
      if Delete(map[VLAN := u]) in n'.sites[s].inbox {
        assert Going(n'.sites[s], u) by { GoingSent(n'.sites[s], u); }
      } else {
        GoingMore(n.sites[s], n'.sites[s], u);
      }
    }
  }

  lemma GoingSent(site: Site, v: int)
    requires Delete(map[VLAN := v]) in site.inbox
    ensures Going(site, v)
  {
  }

  lemma ControlVersion(plan: Plan, switches: seq<int>, n: Net, n': Net)
    requires Control(plan, switches, n, n')
    ensures n.ver <= n'.ver && n'.sites.Keys == n.sites.Keys
  {
    hide Adds, Edge, Internal, FlowtableDiff;
  }

  // Every run

  lemma InitClean(plan: Plan, switches: seq<int>, n: Net)
    requires PlanOk(plan) && Init(plan, switches, n)
    ensures Clean(plan, n.ver, n)
  {
    hide PlanOk, RulesOf, Prioritize;
    forall s | s in n.sites ensures Between(plan, n.sites[s].rules, s, n.ver, n.ver) {
      forall k | k in n.sites[s].rules && !Tagged(k.pattern, VLAN_NONE)
        ensures IsInternal(plan, n.sites[s].rules, n.ver, s, k)
      {
        if k in RulesOf(Edge(plan, n.ver, s)) { EdgeKey(plan, n.ver, s, k); }
      }
    }
  }

  lemma {:induction false} RunClean(plan: Plan, switches: seq<int>, ns: seq<Net>, i: nat)
    requires PlanOk(plan) && Distinct(switches) && Run(plan, switches, ns) && i < |ns|
    ensures Inv(plan, switches, ns[i]) && Clean(plan, ns[0].ver, ns[i])
  {
    hide PlanOk, Inv, Control, Handle, Init, Clean, Next;
    RunInv(plan, switches, ns, i);
    if i == 0 {
      InitClean(plan, switches, ns[0]);
    } else {
      RunClean(plan, switches, ns, i - 1);
      RunNext(plan, switches, ns, i);
      NextClean(plan, switches, ns[0].ver, ns[i - 1], ns[i]);
    }
  }

  lemma NextClean(plan: Plan, switches: seq<int>, first: int, n: Net, n': Net)
    requires PlanOk(plan) && Inv(plan, switches, n) && Clean(plan, first, n) && Next(plan, switches, n, n')
    ensures Clean(plan, first, n')
  {
    hide PlanOk, Inv, Control, Handle, Clean;
    if Control(plan, switches, n, n') {
      ControlClean(plan, switches, first, n, n');
    } else {
      var x :| Handle(n, n', x);
      HandleClean(plan, switches, first, n, n', x);
    }
  }

  /** At every moment of every run, a version that an update of this run has replaced
      has no rules left on a switch, or its delete is on the way there.  While the last
      one is being cleared, this holds of it on the switches already done. */
  lemma OldVersionsGo(plan: Plan, switches: seq<int>, ns: seq<Net>, i: nat, s: int, u: int)
    requires PlanOk(plan) && Distinct(switches) && Run(plan, switches, ns) && i < |ns| && s in switches
    requires ns[0].ver <= u && (u < ns[i].ver || (u == ns[i].ver && ClearSent(ns[i].phase, s)))
    ensures s in ns[i].sites && (NoRules(ns[i].sites[s].rules, u) || Delete(map[VLAN := u]) in ns[i].sites[s].inbox)
  {
    hide PlanOk, Run, NoRules, Between, Inv;
    RunClean(plan, switches, ns, i);
    InvSites(plan, switches, ns[i], s);
    assert Going(ns[i].sites[s], u);
  }

  /** A switch with no rules of older versions. */
  lemma OnlyCurrent(plan: Plan, first: int, ver: int, s: int, site: Site)
    requires PlanOk(plan) && Holds(plan, site.rules, ver, s) && Settled(plan, ver, s, site) && ver < VLAN_NONE
    requires Between(plan, site.rules, s, first, ver) && forall u :: first <= u < ver ==> NoRules(site.rules, u)
    ensures site.rules == RulesOf(Internal(plan, ver, s)) + RulesOf(Edge(plan, ver, s))
  {
    hide PlanOk, RulesOf, Prioritize;
    var t := site.rules;
    forall k | k in t && !Tagged(k.pattern, VLAN_NONE)
      ensures k in RulesOf(Internal(plan, ver, s)) && t[k] == RulesOf(Internal(plan, ver, s))[k]
    {
      var v :| first <= v <= ver && IsInternal(plan, t, v, s, k);
      InternalKey(plan, v, s, k);
      assert v < ver ==> NoRules(t, v);
    }
    forall k | k in RulesOf(Internal(plan, ver, s)) ensures !Tagged(k.pattern, VLAN_NONE) {
      InternalKey(plan, ver, s, k);
    }
    forall k | k in t && Tagged(k.pattern, VLAN_NONE) ensures k in EdgePart(t) {
    }
  }

  /** Between updates, a switch that has handled all its messages has exactly the rules
      of the current version. */
  lemma QuietIsCurrent(plan: Plan, switches: seq<int>, ns: seq<Net>, i: nat, s: int)
    requires PlanOk(plan) && Distinct(switches) && Run(plan, switches, ns) && i < |ns| && s in switches
    requires ns[i].phase.Idle? && s in ns[i].sites && ns[i].sites[s].inbox == []
    ensures var n := ns[i];
            n.sites[s].rules == RulesOf(Internal(plan, n.ver, s)) + RulesOf(Edge(plan, n.ver, s))
  {
    hide PlanOk, Run, Holds, Genuine, Settled, Swapping, MsgsOk, Coming, NoRules, Between, RulesOf, Prioritize;
    RunClean(plan, switches, ns, i);
    var n := ns[i];
    assert SiteOk(plan, n.ver, s, n.sites[s], RoleOf(n.phase, s));
    forall u | ns[0].ver <= u < n.ver ensures NoRules(n.sites[s].rules, u) {
      assert Going(n.sites[s], u);
    }
    OnlyCurrent(plan, ns[0].ver, n.ver, s, n.sites[s]);
  }

  // An update can always be finished

  ghost predicate Quiet(n: Net, switches: seq<int>) {
    forall s :: s in switches ==> s in n.sites && n.sites[s].inbox == []
  }

  function Last(ns: seq<Net>): Net
    requires ns != []
  {
    ns[|ns| - 1]
  }

  lemma Longer(plan: Plan, switches: seq<int>, ns: seq<Net>, n: Net)
    requires Run(plan, switches, ns) && Next(plan, switches, Last(ns), n)
    ensures Run(plan, switches, ns + [n]) && Last(ns + [n]) == n && ns <= ns + [n]
  {
    hide Next, Init;
    var more := ns + [n];
    forall i | 0 < i < |more| ensures Next(plan, switches, more[i - 1], more[i]) {
      if i < |ns| { assert more[i - 1] == ns[i - 1] && more[i] == ns[i]; }
    }
  }

  /** The switch handles all its messages. */
  lemma {:induction false} Drain(plan: Plan, switches: seq<int>, ns: seq<Net>, s: int) returns (more: seq<Net>)
    requires Run(plan, switches, ns) && s in Last(ns).sites
    ensures ns <= more && Run(plan, switches, more)
    ensures var (n, n') := (Last(ns), Last(more));
            && n'.phase == n.phase && n'.ver == n.ver && s in n'.sites && n'.sites[s].inbox == []
            && n'.sites == n.sites[s := n'.sites[s]]
    decreases |Last(ns).sites[s].inbox|
  {
    assert ns != [];
    hide Run, Receive;
    var n := Last(ns);
    var site := n.sites[s];
    if site.inbox == [] {
      more := ns;
    } else {
      var n' := n.(sites := n.sites[s := Site(Receive(site.rules, site.inbox[0]), site.inbox[1..], site.edge)]);
      assert Handle(n, n', s);
      Longer(plan, switches, ns, n');
      more := Drain(plan, switches, ns + [n'], s);
    }
  }

  lemma {:induction false} DrainAll(plan: Plan, switches: seq<int>, ns: seq<Net>, k: nat) returns (more: seq<Net>)
    requires Run(plan, switches, ns) && k <= |switches| && forall s :: s in switches ==> s in Last(ns).sites
    ensures ns <= more && Run(plan, switches, more)
    ensures Last(more).phase == Last(ns).phase && Last(more).ver == Last(ns).ver
    ensures (forall s :: s in switches ==> s in Last(more).sites) && Quiet(Last(more), switches[..k])
  {
    hide Run;
    if k == 0 {
      more := ns;
    } else {
      var most := DrainAll(plan, switches, ns, k - 1);
      more := Drain(plan, switches, most, switches[k - 1]);
      assert switches[..k] == switches[..k - 1] + [switches[k - 1]];
    }
  }

  /** How far the update is. */
  function Stage(ph: Phase): (int, int, int, int) {
    match ph
    case Idle => (0, 0, 0, 0)
    case Internals(todo, sent) => (3, |todo|, if sent then 0 else 1, 0)
    case Edges(todo, dels) => (2, |todo|, if dels.None? then 1 else 0, if dels.None? then 0 else |dels.value|)
    case Clears(todo) => (1, |todo|, 0, 0)
  }

  predicate Earlier(a: (int, int, int, int), b: (int, int, int, int)) {
    || a.0 < b.0
    || (a.0 == b.0 && (a.1 < b.1 || (a.1 == b.1 && (a.2 < b.2 || (a.2 == b.2 && a.3 < b.3)))))
  }

  lemma NextQuiet(plan: Plan, switches: seq<int>, n: Net)
    requires Inv(plan, switches, n) && Quiet(n, switches) && Todo(n.phase) != []
    ensures var s := Todo(n.phase)[0]; s in n.sites && n.sites[s].inbox == []
  {
    hide SiteOk;
    assert Todo(n.phase)[0] in Todo(n.phase);
  }

  /** Where no messages are left to handle, the controller has a next action, and it
      takes the update further. */
  lemma ControlGoesOn(plan: Plan, switches: seq<int>, n: Net) returns (n': Net)
    requires Inv(plan, switches, n) && !n.phase.Idle? && Quiet(n, switches)
    ensures Control(plan, switches, n, n') && Earlier(Stage(n'.phase), Stage(n.phase))
    ensures n'.ver == if n'.phase.Idle? then n.ver + 1 else n.ver
  {
    hide Inv, Quiet, Adds, Edge, Internal, FlowtableDiff;
    if Todo(n.phase) != [] { NextQuiet(plan, switches, n); }
    match n.phase
    case Internals(todo, sent) =>
      if todo == [] {
        n' := n.(phase := Edges(switches, None));
      } else if !sent {
        n' := n.(sites := Sent(n, todo[0], Adds(Internal(plan, n.ver + 1, todo[0]))), phase := Internals(todo, true));
      } else {
        n' := n.(phase := Internals(todo[1..], false));
      }
    case Edges(todo, dels) =>
      if todo == [] {
        n' := n.(phase := Clears(switches));
      } else {
        var s := todo[0];
        var now := Edge(plan, n.ver + 1, s);
        if dels.None? {
          n' := n.(sites := Sent(n, s, Adds(now)), phase := Edges(todo, Some(FlowtableDiff(n.sites[s].edge, now))));
        } else if dels.value != [] {
          var d := dels.value;
          n' := n.(sites := Sent(n, s, [DeleteStrict(KeyOf(d[|d| - 1]))]), phase := Edges(todo, Some(d[..|d| - 1])));
        } else {
          n' := n.(sites := n.sites[s := n.sites[s].(edge := now)], phase := Edges(todo[1..], None));
        }
      }
    case Clears(todo) =>
      if todo == [] {
        n' := n.(ver := n.ver + 1, phase := Idle);
      } else {
        n' := n.(sites := Sent(n, todo[0], [Delete(map[VLAN := n.ver])]), phase := Clears(todo[1..]));
      }
  }

  lemma AllThere(plan: Plan, switches: seq<int>, n: Net)
    requires Inv(plan, switches, n)
    ensures forall s :: s in switches ==> s in n.sites
  {
    hide SiteOk;
  }

  /** All messages are handled, and the controller takes its next action. */
  lemma Round(plan: Plan, switches: seq<int>, ns: seq<Net>) returns (more: seq<Net>)
    requires PlanOk(plan) && Distinct(switches) && Run(plan, switches, ns) && !Last(ns).phase.Idle?
    ensures ns <= more && Run(plan, switches, more)
    ensures Earlier(Stage(Last(more).phase), Stage(Last(ns).phase))
    ensures Last(more).ver == if Last(more).phase.Idle? then Last(ns).ver + 1 else Last(ns).ver
  {
    assert ns != [];
    hide PlanOk, Run, Inv, Control, Stage, Earlier;
    RunInv(plan, switches, ns, |ns| - 1);
    AllThere(plan, switches, Last(ns));
    var quiet := DrainAll(plan, switches, ns, |switches|);
    assert switches[..|switches|] == switches;
    RunInv(plan, switches, quiet, |quiet| - 1);
    var n := ControlGoesOn(plan, switches, Last(quiet));
    Longer(plan, switches, quiet, n);
    more := quiet + [n];
  }

  /** The update is over, and the last messages are handled. */
  lemma Settle(plan: Plan, switches: seq<int>, ns: seq<Net>) returns (more: seq<Net>)
    requires PlanOk(plan) && Distinct(switches) && Run(plan, switches, ns) && Last(ns).phase.Idle?
    ensures ns <= more && Run(plan, switches, more) && Last(more).phase.Idle? && Last(more).ver == Last(ns).ver
    ensures Quiet(Last(more), switches) && Current(plan, switches, Last(more))
  {
    assert ns != [];
    hide PlanOk, Run, Inv, RulesOf, Internal, Edge;
    RunInv(plan, switches, ns, |ns| - 1);
    AllThere(plan, switches, Last(ns));
    more := DrainAll(plan, switches, ns, |switches|);
    assert switches[..|switches|] == switches;
    forall s | s in switches
      ensures s in Last(more).sites
      ensures Last(more).sites[s].rules ==
              RulesOf(Internal(plan, Last(ns).ver, s)) + RulesOf(Edge(plan, Last(ns).ver, s))
    {
      QuietIsCurrent(plan, switches, more, |more| - 1, s);
    }
  }

  /** Each switch has exactly the rules of the current version. */
  ghost predicate Current(plan: Plan, switches: seq<int>, n: Net) {
    forall s :: s in switches ==>
      s in n.sites && n.sites[s].rules == RulesOf(Internal(plan, n.ver, s)) + RulesOf(Edge(plan, n.ver, s))
  }

  /** From every moment of an update the run can go on until each switch has exactly the
      rules of the new version. */
  lemma {:induction false} CanFinish(plan: Plan, switches: seq<int>, ns: seq<Net>) returns (more: seq<Net>)
    requires PlanOk(plan) && Distinct(switches) && Run(plan, switches, ns) && !Last(ns).phase.Idle?
    ensures ns <= more && Run(plan, switches, more)
    ensures Last(more).phase.Idle? && Last(more).ver == Last(ns).ver + 1
    ensures Quiet(Last(more), switches) && Current(plan, switches, Last(more))
    decreases Stage(Last(ns).phase).0, Stage(Last(ns).phase).1, Stage(Last(ns).phase).2, Stage(Last(ns).phase).3
  {
    assert ns != [];
    hide PlanOk, Run, Stage, Quiet, Current;
    var next := Round(plan, switches, ns);
    if Last(next).phase.Idle? {
      more := Settle(plan, switches, next);
    } else {
      StageNat(Last(next).phase);
      more := CanFinish(plan, switches, next);
    }
  }

  lemma StageNat(ph: Phase)
    ensures Stage(ph).0 >= 0 && Stage(ph).1 >= 0 && Stage(ph).2 >= 0 && Stage(ph).3 >= 0
  {
  }
}
