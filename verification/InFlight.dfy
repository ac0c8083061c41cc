/** Packets on their way while the policy is updated: which version handles them.

    A packet that an edge rule has stamped carries its version to every later switch.
    The controller clears the rules of a version without waiting for such packets. */
module InFlight {

  import opened Switches
  import opened TableSwap
  import opened VersionedUpdate

  /** Switch `s` handles the delete of version `v` in the step to moment `m`. */
  ghost predicate Drops(ns: seq<Net>, s: int, v: int, m: nat)
    requires 0 < m < |ns|
  {
    Handle(ns[m - 1], ns[m], s) && ns[m - 1].sites[s].inbox[0] == Delete(map[VLAN := v])
  }

  /** It does so after moment `i` and not after moment `j`. */
  ghost predicate Dropped(ns: seq<Net>, s: int, v: int, i: nat, j: nat)
    requires j < |ns|
  {
    exists m: nat :: i < m <= j && Drops(ns, s, v, m)
  }

  ghost predicate NoRules(t: Rules, v: int) {
    forall k :: k in t ==> !Tagged(k.pattern, v)
  }

  /** What the next step does to the rules of a switch. */
  lemma StepRules(plan: Plan, switches: seq<int>, ns: seq<Net>, m: nat, s: int)
    requires PlanOk(plan) && Distinct(switches) && Run(plan, switches, ns) && 0 < m < |ns| && s in switches
    ensures s in ns[m - 1].sites && s in ns[m].sites && ns[m - 1].ver <= ns[m].ver && ns[m - 1].ver < VLAN_NONE
    ensures ns[m].sites[s].rules == ns[m - 1].sites[s].rules || Handles(plan, ns[m - 1], ns[m], s)
  {
    hide *;
    RunInv(plan, switches, ns, m - 1);
    RunNext(plan, switches, ns, m);
    NextRules(plan, switches, ns[m - 1], ns[m], s);
  }

  lemma RunNext(plan: Plan, switches: seq<int>, ns: seq<Net>, m: nat)
    requires Run(plan, switches, ns) && 0 < m < |ns|
    ensures Next(plan, switches, ns[m - 1], ns[m])
  {
    hide Next, Init;
  }

  lemma NextRules(plan: Plan, switches: seq<int>, n: Net, n': Net, s: int)
    requires Inv(plan, switches, n) && Next(plan, switches, n, n') && s in switches
    ensures s in n.sites && s in n'.sites && n.ver <= n'.ver && n.ver < VLAN_NONE
    ensures n'.sites[s].rules == n.sites[s].rules || Handles(plan, n, n', s)
  {
    hide Inv, Control, Handle, Handles;
    InvSites(plan, switches, n, s);
    if Control(plan, switches, n, n') {
      ControlRules(plan, switches, n, n', s);
    } else {
      var x :| Handle(n, n', x);
      HandleRules(plan, switches, n, n', x, s);
    }
  }

  lemma InvSites(plan: Plan, switches: seq<int>, n: Net, s: int)
    requires Inv(plan, switches, n) && s in switches
    ensures s in n.sites && n.ver < VLAN_NONE
  {
    hide SiteOk;
  }

  lemma ControlRules(plan: Plan, switches: seq<int>, n: Net, n': Net, s: int)
    requires Control(plan, switches, n, n') && s in n.sites
    ensures s in n'.sites && n'.sites[s].rules == n.sites[s].rules && n.ver <= n'.ver
  {
    hide Adds, Edge, Internal, FlowtableDiff;
  }

  lemma HandleRules(plan: Plan, switches: seq<int>, n: Net, n': Net, x: int, s: int)
    requires Inv(plan, switches, n) && Handle(n, n', x) && s in n.sites
    ensures s in n'.sites && n.ver == n'.ver
    ensures n'.sites[s].rules == n.sites[s].rules || Handles(plan, n, n', s)
  {
    hide SiteOk, Receive, RoleOf;
    if x == s {
      assert SiteOk(plan, n.ver, s, n.sites[s], RoleOf(n.phase, s));
      MessageOk(plan, n.ver, s, n.sites[s], RoleOf(n.phase, s));
    }
  }

  /** The switch handles a message that the update allows. */
  ghost predicate Handles(plan: Plan, n: Net, n': Net, s: int) {
    && s in n.sites && s in n'.sites && n.sites[s].inbox != [] && Handle(n, n', s)
    && n'.sites[s].rules == Receive(n.sites[s].rules, n.sites[s].inbox[0])
    && exists r :: MsgOk(plan, n.ver, s, r, n.sites[s].inbox[0])
  }

  lemma MessageOk(plan: Plan, ver: int, s: int, site: Site, r: Role)
    requires SiteOk(plan, ver, s, site, r) && site.inbox != []
    ensures MsgOk(plan, ver, s, r, site.inbox[0])
  {
    hide MsgOk;
  }

  /** Every message but its delete spares a version. */
  lemma OthersSpare(plan: Plan, ver: int, s: int, r: Role, m: Msg, v: int)
    requires PlanOk(plan) && MsgOk(plan, ver, s, r, m) && v < VLAN_NONE && m != Delete(map[VLAN := v])
    ensures Spares(plan, v, s, m)
  {
    hide PlanOk, RulesOf, Prioritize;
    if m.Delete? {
      var u :| m.pattern == map[VLAN := u] && (u < ver || (r.cleared && u == ver));
      assert u != v && m.pattern == map[VLAN := u];
    } else if m.key in RulesOf(Internal(plan, v, s)) {
      InternalKey(plan, v, s, m.key);
      if !Tagged(m.key.pattern, VLAN_NONE) { InternalKey(plan, ver + 1, s, m.key); }
    }
  }

  lemma {:induction false} HoldsUntilDropped(plan: Plan, switches: seq<int>, ns: seq<Net>, i: nat, j: nat,
                                             s: int, v: int)
    requires PlanOk(plan) && Distinct(switches) && Run(plan, switches, ns) && i <= j < |ns| && s in switches
    requires s in ns[i].sites && Holds(plan, ns[i].sites[s].rules, v, s) && v < VLAN_NONE && !Dropped(ns, s, v, i, j)
    ensures s in ns[j].sites && Holds(plan, ns[j].sites[s].rules, v, s)
    decreases j
  {
    hide PlanOk, Run, Holds, MsgOk, Handle, Receive;
    if i < j {
      assert !Dropped(ns, s, v, i, j - 1);
      HoldsUntilDropped(plan, switches, ns, i, j - 1, s, v);
      StepRules(plan, switches, ns, j, s);
      var n := ns[j - 1];
      if Handles(plan, n, ns[j], s) {
        var msg := n.sites[s].inbox[0];
        var r :| MsgOk(plan, n.ver, s, r, msg);
        assert !Drops(ns, s, v, j);
        OthersSpare(plan, n.ver, s, r, msg, v);
        SparesHolds(plan, n.sites[s].rules, msg, v, s);
      }
    }
  }

  /** The delete is sent once the version is done with, and leaves none of its rules. */
  lemma DropClears(plan: Plan, n: Net, n': Net, s: int, v: int)
    requires Handles(plan, n, n', s) && n.sites[s].inbox[0] == Delete(map[VLAN := v])
    ensures NoRules(n'.sites[s].rules, v) && v <= n.ver
  {
    hide Handle;
    var r :| MsgOk(plan, n.ver, s, r, n.sites[s].inbox[0]);
    var u :| map[VLAN := v] == map[VLAN := u] && (u < n.ver || (r.cleared && u == n.ver));
    assert map[VLAN := v][VLAN] == map[VLAN := u][VLAN];
  }

  /** No later message brings them back. */
  lemma StaysClear(plan: Plan, ver: int, s: int, r: Role, t: Rules, m: Msg, v: int)
    requires PlanOk(plan) && MsgOk(plan, ver, s, r, m) && v <= ver < VLAN_NONE && NoRules(t, v)
    ensures NoRules(Receive(t, m), v)
  {
    hide PlanOk, RulesOf, Prioritize;
    if m.Add? && !Tagged(m.key.pattern, VLAN_NONE) { InternalKey(plan, ver + 1, s, m.key); }
  }

  lemma {:induction false} ClearAfterDrop(plan: Plan, switches: seq<int>, ns: seq<Net>, m: nat, j: nat, s: int, v: int)
    requires PlanOk(plan) && Distinct(switches) && Run(plan, switches, ns) && 0 < m <= j < |ns| && s in switches
    requires Drops(ns, s, v, m)
    ensures s in ns[j].sites && NoRules(ns[j].sites[s].rules, v) && v <= ns[j].ver
    decreases j
  {
    hide PlanOk, Run, MsgOk, Handle, Receive, NoRules;
    StepRules(plan, switches, ns, j, s);
    var n := ns[j - 1];
    if m == j {
      DropHandles(plan, switches, ns, j, s, v);
      DropClears(plan, n, ns[j], s, v);
    } else {
      ClearAfterDrop(plan, switches, ns, m, j - 1, s, v);
      if Handles(plan, n, ns[j], s) {
        var r :| MsgOk(plan, n.ver, s, r, n.sites[s].inbox[0]);
        StaysClear(plan, n.ver, s, r, n.sites[s].rules, n.sites[s].inbox[0], v);
      }
    }
  }

  lemma DropHandles(plan: Plan, switches: seq<int>, ns: seq<Net>, m: nat, s: int, v: int)
    requires PlanOk(plan) && Distinct(switches) && Run(plan, switches, ns) && 0 < m < |ns| && s in switches
    requires Drops(ns, s, v, m)
    ensures Handles(plan, ns[m - 1], ns[m], s)
  {
    hide PlanOk, SiteOk, Receive, RoleOf, Run;
    RunInv(plan, switches, ns, m - 1);
    var n := ns[m - 1];
    assert SiteOk(plan, n.ver, s, n.sites[s], RoleOf(n.phase, s));
    MessageOk(plan, n.ver, s, n.sites[s], RoleOf(n.phase, s));
  }

  /** A packet that is stamped with version `v` at moment `i` meets all the internal
      rules of `v` at a switch at moment `j` if and only if that switch has not handled
      the delete of `v` by then; otherwise it meets none of them. */
  lemma StampedPacketIff(plan: Plan, switches: seq<int>, ns: seq<Net>, i: nat, j: nat, s': int, s: int, v: int)
    requires PlanOk(plan) && Distinct(switches) && Run(plan, switches, ns) && i <= j < |ns|
    requires s' in ns[i].sites && Stamps(ns[i].sites[s'].rules, v) && s in switches && plan.internal(v, s) != []
    ensures s in ns[j].sites && v < VLAN_NONE
    ensures Holds(plan, ns[j].sites[s].rules, v, s) <==> !Dropped(ns, s, v, i, j)
    ensures Dropped(ns, s, v, i, j) ==> NoRules(ns[j].sites[s].rules, v)
  {
    hide PlanOk, Run, Holds, NoRules, Stamps, Inv;
    RunInv(plan, switches, ns, i);
    RunInv(plan, switches, ns, j);
    StampedBelow(plan, switches, ns[i], s', v);
    InvConsistent(plan, switches, ns[i]);
    InvSites(plan, switches, ns[i], s);
    InvSites(plan, switches, ns[j], s);
    if Dropped(ns, s, v, i, j) {
      var m: nat :| i < m <= j && Drops(ns, s, v, m);
      ClearAfterDrop(plan, switches, ns, m, j, s, v);
      NoRulesNotHeld(plan, ns[j].sites[s].rules, v, s);
    } else {
      HoldsUntilDropped(plan, switches, ns, i, j, s, v);
    }
  }

  lemma StampedBelow(plan: Plan, switches: seq<int>, n: Net, s: int, v: int)
    requires PlanOk(plan) && Inv(plan, switches, n) && s in n.sites && Stamps(n.sites[s].rules, v)
    ensures v < VLAN_NONE
  {
    hide PlanOk, Stamps, Holds, Genuine, Settled, Swapping, MsgsOk, Coming;
    var r := RoleOf(n.phase, s);
    assert SiteOk(plan, n.ver, s, n.sites[s], r);
    if r.swap.None? {
      SettledStamps(plan, if r.edgeNew then n.ver + 1 else n.ver, s, n.sites[s], v);
    } else {
      SwappingStamps(plan, n.ver, s, n.sites[s], r.swap.value, v);
    }
  }

  lemma NoRulesNotHeld(plan: Plan, t: Rules, v: int, s: int)
    requires PlanOk(plan) && NoRules(t, v) && plan.internal(v, s) != []
    ensures !Holds(plan, t, v, s)
  {
    PrioritizeRows(plan.internal(v, s), MAX_PRIORITY);
    var w := Internal(plan, v, s);
    hide PlanOk, RulesOf, Prioritize;
    assert w[0] in w;
    RowIsRule(w, w[0]);
    InternalKey(plan, v, s, KeyOf(w[0]));
  }

  /** One visit of a packet: a switch, a moment and the headers that it has there. */
  datatype Visit = Visit(s: int, at: nat, h: Header)

  /** Later visits come at later moments, and all carry the tag of the version. */
  ghost predicate Journey(switches: seq<int>, ns: seq<Net>, v: int, i: nat, way: seq<Visit>) {
    && (forall k :: 0 <= k < |way| ==>
          && way[k].s in switches && i <= way[k].at < |ns|
          && VLAN in way[k].h && way[k].h[VLAN] == v)
    && (forall k, l :: 0 <= k < l < |way| ==> way[k].at <= way[l].at)
  }

  /** The switch treats the packet as its internal table of version `v` does. */
  ghost predicate ByVersion(plan: Plan, n: Net, v: int, s: int, h: Header) {
    && s in n.sites
    && (forall k :: IsBest(n.sites[s].rules, h, k) ==> FirstOf(Internal(plan, v, s), h, k, n.sites[s].rules[k]))
    && (Misses(n.sites[s].rules, h) ==> NoRow(Internal(plan, v, s), h))
  }

  /** Per-packet consistency: every switch on the way of a packet treats it as the
      version does that it was stamped with, if none of them has handled the delete of
      that version before the packet comes. */
  lemma OneVersionAllTheWay(plan: Plan, switches: seq<int>, ns: seq<Net>, v: int, i: nat, s': int, way: seq<Visit>)
    requires PlanOk(plan) && Distinct(switches) && Run(plan, switches, ns) && i < |ns|
    requires s' in ns[i].sites && Stamps(ns[i].sites[s'].rules, v) && Journey(switches, ns, v, i, way)
    requires forall k :: 0 <= k < |way| ==> !Dropped(ns, way[k].s, v, i, way[k].at)
    ensures forall k :: 0 <= k < |way| ==> ByVersion(plan, ns[way[k].at], v, way[k].s, way[k].h)
  {
    hide PlanOk, Run, Holds, Genuine, NoRules, Stamps, Inv, IsBest, Misses, NoRow, FirstOf, Dropped;
    RunInv(plan, switches, ns, i);
    StampedBelow(plan, switches, ns[i], s', v);
    InvConsistent(plan, switches, ns[i]);
    forall k | 0 <= k < |way| ensures ByVersion(plan, ns[way[k].at], v, way[k].s, way[k].h) {
      var (s, j) := (way[k].s, way[k].at);
      RunInv(plan, switches, ns, j);
      InvSites(plan, switches, ns[i], s);
      InvSites(plan, switches, ns[j], s);
      HoldsUntilDropped(plan, switches, ns, i, j, s, v);
      SiteGenuine(plan, switches, ns[j], s);
      StampedHandled(plan, ns[j].sites[s].rules, v, s, way[k].h);
    }
  }

  lemma SiteGenuine(plan: Plan, switches: seq<int>, n: Net, s: int)
    requires Inv(plan, switches, n) && s in n.sites
    ensures Genuine(plan, n.sites[s].rules, s)
  {
    hide Genuine, Holds, Settled, Swapping, MsgsOk, Coming;
    assert SiteOk(plan, n.ver, s, n.sites[s], RoleOf(n.phase, s));
  }

  /** A packet that comes after the delete misses, whatever its version would do. */
  lemma LatePacketMisses(plan: Plan, switches: seq<int>, ns: seq<Net>, m: nat, j: nat, s: int, v: int, h: Header)
    requires PlanOk(plan) && Distinct(switches) && Run(plan, switches, ns) && 0 < m <= j < |ns| && s in switches
    requires Drops(ns, s, v, m) && VLAN in h && h[VLAN] == v && v < VLAN_NONE
    ensures s in ns[j].sites && Misses(ns[j].sites[s].rules, h)
  {
    hide PlanOk, Run, NoRules, Inv, Drops;
    RunInv(plan, switches, ns, j);
    ClearAfterDrop(plan, switches, ns, m, j, s, v);
    SiteGenuine(plan, switches, ns[j], s);
    NoRulesMiss(plan, ns[j].sites[s].rules, s, v, h);
  }

  lemma NoRulesMiss(plan: Plan, t: Rules, s: int, v: int, h: Header)
    requires PlanOk(plan) && Genuine(plan, t, s) && NoRules(t, v) && VLAN in h && h[VLAN] == v && v < VLAN_NONE
    ensures Misses(t, h)
  {
    hide PlanOk, RulesOf, Prioritize;
    forall k | k in t ensures !Hits(k.pattern, h) {
      if !Tagged(k.pattern, VLAN_NONE) {
        var u :| IsInternal(plan, t, u, s, k);
        InternalKey(plan, u, s, k);
      }
    }
  }

  /** The controller waits for no packet: once the edges are swapped, the next two steps
      can be that it sends the delete and that the switch handles it. */
  lemma ClearDoesNotWait(plan: Plan, switches: seq<int>, ns: seq<Net>) returns (more: seq<Net>)
    requires Run(plan, switches, ns) && ns[|ns| - 1].phase.Clears? && ns[|ns| - 1].phase.todo != []
    requires var n := ns[|ns| - 1]; n.phase.todo[0] in n.sites && n.sites[n.phase.todo[0]].inbox == []
    ensures var n := ns[|ns| - 1];
            ns <= more && |more| == |ns| + 2 && Run(plan, switches, more)
            && Drops(more, n.phase.todo[0], n.ver, |ns| + 1)
  {
    hide Receive, Init;
    var n := ns[|ns| - 1];
    var s := n.phase.todo[0];
    var m := Delete(map[VLAN := n.ver]);
    var a := n.(sites := Sent(n, s, [m]), phase := Clears(n.phase.todo[1..]));
    var site := a.sites[s];
    assert site.inbox == [m] && site.inbox[1..] == [];
    var b := a.(sites := a.sites[s := Site(Receive(site.rules, m), [], site.edge)]);
    assert Control(plan, switches, n, a) && Handle(a, b, s);
    more := ns + [a, b];
    forall i | 0 < i < |more| ensures Next(plan, switches, more[i - 1], more[i]) {
      if i < |ns| { assert more[i - 1] == ns[i - 1] && more[i] == ns[i]; }
    }
  }
}
