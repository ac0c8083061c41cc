/** Updating the policy of all switches in two phases, as a state machine.

    The controller sends messages and waits at barriers; each switch handles the
    messages sent to it in order, whenever it likes.  Internal rules match packets
    that carry the tag of a version, edge rules match packets without a tag and
    may stamp them with a version. */
module VersionedUpdate {

  import opened Wrappers
  import opened Switches
  import opened TableSwap

  /** The tables of each version on each switch. */
  datatype Plan = Plan(internal: (int, int) -> seq<Flow>, edge: (int, int) -> seq<Flow>)

  function Internal(plan: Plan, ver: int, s: int): Table {
    Prioritize(plan.internal(ver, s), MAX_PRIORITY)
  }

  function Edge(plan: Plan, ver: int, s: int): Table {
    Prioritize(plan.edge(ver, s), MAX_PRIORITY)
  }

  predicate Tagged(p: Pattern, tag: int) {
    VLAN in p && p[VLAN] == tag
  }

  /** Internal tables match the tag of their version, edge tables match untagged
      packets and stamp no other version. */
  ghost predicate PlanOk(plan: Plan) {
    && (forall ver, s, f :: f in plan.internal(ver, s) ==> Tagged(f.pattern, ver))
    && (forall ver, s, f :: f in plan.edge(ver, s) ==>
       Tagged(f.pattern, VLAN_NONE) && forall v :: SetVlan(v) in f.action ==> v == ver)
  }

  // The state machine

  /** What the controller is doing: what is left to do for the first switch of
      `todo`, and for the rest. */
  datatype Phase =
    | Idle
    | Internals(todo: seq<int>, sent: bool)
    | Edges(todo: seq<int>, dels: Option<Table>)
    | Clears(todo: seq<int>)

  /** A switch: its rules, the messages on their way to it, and the edge table
      that the controller has recorded for it. */
  datatype Site = Site(rules: Rules, inbox: seq<Msg>, edge: Table)

  datatype Net = Net(sites: map<int, Site>, ver: int, phase: Phase)

  /** The switch handles its next message. */
  ghost predicate Handle(n: Net, n': Net, s: int) {
    && s in n.sites && n.sites[s].inbox != []
    && var site := n.sites[s];
       n' == n.(sites := n.sites[s := Site(Receive(site.rules, site.inbox[0]), site.inbox[1..], site.edge)])
  }

  function Sent(n: Net, s: int, ms: seq<Msg>): map<int, Site>
    requires s in n.sites
  {
    n.sites[s := n.sites[s].(inbox := n.sites[s].inbox + ms)]
  }

  /** The next action of the controller. */
  ghost predicate Control(plan: Plan, switches: seq<int>, n: Net, n': Net) {
    match n.phase
    case Idle =>
      // a new policy; versions stay below the tag of untagged packets
      n.ver + 1 < VLAN_NONE && n' == n.(phase := Internals(switches, false))
    case Internals(todo, sent) =>
      if todo == [] then n' == n.(phase := Edges(switches, None))
      else if todo[0] !in n.sites then false
      else if !sent then
        n' == n.(sites := Sent(n, todo[0], Adds(Internal(plan, n.ver + 1, todo[0]))), phase := Internals(todo, true))
      else
        n.sites[todo[0]].inbox == [] && n' == n.(phase := Internals(todo[1..], false))
    case Edges(todo, dels) =>
      if todo == [] then n' == n.(phase := Clears(switches))
      else if todo[0] !in n.sites then false
      else
        var s := todo[0];
        var now := Edge(plan, n.ver + 1, s);
        if dels.None? then
          n' == n.(sites := Sent(n, s, Adds(now)), phase := Edges(todo, Some(FlowtableDiff(n.sites[s].edge, now))))
        else if dels.value != [] then
          var d := dels.value;
          n' == n.(sites := Sent(n, s, [DeleteStrict(KeyOf(d[|d| - 1]))]), phase := Edges(todo, Some(d[..|d| - 1])))
        else
          n.sites[s].inbox == []
          && n' == n.(sites := n.sites[s := n.sites[s].(edge := now)], phase := Edges(todo[1..], None))
    case Clears(todo) =>
      if todo == [] then n' == n.(ver := n.ver + 1, phase := Idle)
      else if todo[0] !in n.sites then false
      else n' == n.(sites := Sent(n, todo[0], [Delete(map[VLAN := n.ver])]), phase := Clears(todo[1..]))
  }

  ghost predicate Next(plan: Plan, switches: seq<int>, n: Net, n': Net) {
    Control(plan, switches, n, n') || exists s :: Handle(n, n', s)
  }

  /** All switches have come up with the tables of a first version. */
  ghost predicate Init(plan: Plan, switches: seq<int>, n: Net) {
    && n.phase == Idle && n.ver < VLAN_NONE && (forall s :: s in n.sites <==> s in switches)
    && forall s :: s in n.sites ==>
         n.sites[s] == Site(RulesOf(Internal(plan, n.ver, s)) + RulesOf(Edge(plan, n.ver, s)), [], Edge(plan, n.ver, s))
  }

  predicate Distinct(switches: seq<int>) {
    forall i, j :: 0 <= i < j < |switches| ==> switches[i] != switches[j]
  }

  /** A run of the network. */
  ghost predicate Run(plan: Plan, switches: seq<int>, ns: seq<Net>) {
    && ns != [] && Init(plan, switches, ns[0])
    && forall i :: 0 < i < |ns| ==> Next(plan, switches, ns[i - 1], ns[i])
  }

  // What we want

  /** Some rule for untagged packets stamps version `v`. */
  ghost predicate Stamps(t: Rules, v: int) {
    exists k :: k in t && Tagged(k.pattern, VLAN_NONE) && SetVlan(v) in t[k]
  }

  /** The table has all of the internal rules of the version. */
  ghost predicate Holds(plan: Plan, t: Rules, v: int, s: int) {
    forall k :: k in RulesOf(Internal(plan, v, s)) ==> k in t && t[k] == RulesOf(Internal(plan, v, s))[k]
  }

  /** Rules for tagged packets are internal rules of that version. */
  ghost predicate Genuine(plan: Plan, t: Rules, s: int) {
    forall k :: k in t ==> Tagged(k.pattern, VLAN_NONE) || exists v :: IsInternal(plan, t, v, s, k)
  }

  ghost predicate IsInternal(plan: Plan, t: Rules, v: int, s: int, k: Key) {
    k in t && v < VLAN_NONE && k in RulesOf(Internal(plan, v, s)) && t[k] == RulesOf(Internal(plan, v, s))[k]
  }

  /** No packet is stamped with a version that some switch does not hold. */
  ghost predicate Consistent(plan: Plan, n: Net) {
    forall s', v :: s' in n.sites && Stamps(n.sites[s'].rules, v) ==>
      forall s :: s in n.sites ==> Holds(plan, n.sites[s].rules, v, s) && Genuine(plan, n.sites[s].rules, s)
  }

  // Keys

  lemma InternalKey(plan: Plan, v: int, s: int, k: Key)
    requires PlanOk(plan) && k in RulesOf(Internal(plan, v, s))
    ensures Tagged(k.pattern, v)
  {
    var t := Internal(plan, v, s);
    PrioritizeRows(plan.internal(v, s), MAX_PRIORITY);
    var i := RowOf(t, k);
    assert t[i].0 in plan.internal(v, s);
  }

  lemma EdgeKey(plan: Plan, v: int, s: int, k: Key)
    requires PlanOk(plan) && k in RulesOf(Edge(plan, v, s))
    ensures Tagged(k.pattern, VLAN_NONE)
    ensures forall u :: SetVlan(u) in RulesOf(Edge(plan, v, s))[k] ==> u == v
  {
    hide RulesOf, Prioritize, Tagged;
    var t := Edge(plan, v, s);
    PrioritizeRows(plan.edge(v, s), MAX_PRIORITY);
    RulesAreRows(t, k, RulesOf(t)[k]);
    var i :| 0 <= i < |t| && KeyOf(t[i]) == k && t[i].0.action == RulesOf(t)[k];
    assert t[i].0 in plan.edge(v, s);
  }

  /** The rules for untagged packets. */
  ghost function EdgePart(t: Rules): Rules {
    map k | k in t && Tagged(k.pattern, VLAN_NONE) :: t[k]
  }

  predicate EdgeMsg(m: Msg) {
    !m.Delete? && Tagged(m.key.pattern, VLAN_NONE)
  }

  lemma EdgePartReceive(t: Rules, m: Msg)
    requires m.Delete? ==> exists u :: u != VLAN_NONE && m.pattern == map[VLAN := u]
    ensures EdgePart(Receive(t, m)) == if EdgeMsg(m) then Receive(EdgePart(t), m) else EdgePart(t)
  {
    if m.Delete? {
      var u :| u != VLAN_NONE && m.pattern == map[VLAN := u];
      forall k: Key | Tagged(k.pattern, VLAN_NONE) ensures !AsSpecific(k.pattern, m.pattern) {
        assert VLAN in m.pattern;
      }
    }
  }

  // The invariant

  /** Where the update is for one switch. */
  datatype Role = Role(pending: bool, hasNew: bool, edgeNew: bool, cleared: bool, swap: Option<Table>)

  function RoleOf(ph: Phase, s: int): Role {
    match ph
    case Idle => Role(false, false, false, false, None)
    case Internals(todo, sent) => Role(sent && todo != [] && s == todo[0], s !in todo, false, false, None)
    case Edges(todo, dels) => Role(false, true, s !in todo, false, if todo != [] && s == todo[0] then dels else None)
    case Clears(_) => Role(false, true, true, true, None)
  }

  /** Messages on their way. */
  ghost predicate MsgOk(plan: Plan, ver: int, s: int, r: Role, m: Msg) {
    match m
    case Add(k, a) =>
      if Tagged(k.pattern, VLAN_NONE) then r.swap.Some? && forall u :: SetVlan(u) in a ==> u == ver + 1
      else r.pending && k in RulesOf(Internal(plan, ver + 1, s)) && a == RulesOf(Internal(plan, ver + 1, s))[k]
    case DeleteStrict(k) => Tagged(k.pattern, VLAN_NONE) && r.swap.Some?
    case Delete(d) => exists u :: d == map[VLAN := u] && (u < ver || (r.cleared && u == ver))
  }

  ghost predicate MsgsOk(plan: Plan, ver: int, s: int, r: Role, ms: seq<Msg>) {
    forall m :: m in ms ==> MsgOk(plan, ver, s, r, m)
  }

  /** The new internal rules are in the table or on their way. */
  ghost predicate Coming(plan: Plan, ver: int, s: int, site: Site) {
    forall k :: k in RulesOf(Internal(plan, ver, s)) ==>
      var a := RulesOf(Internal(plan, ver, s))[k];
      (k in site.rules && site.rules[k] == a) || Add(k, a) in site.inbox
  }

  /** The edge messages among `ms`. */
  function EdgeMsgs(ms: seq<Msg>): seq<Msg> {
    if ms == [] then [] else (if EdgeMsg(ms[0]) then [ms[0]] else []) + EdgeMsgs(ms[1..])
  }

  /** Some messages of the swap have arrived, and the rest of those sent are on
      their way; the rows of `d` are still to be deleted. */
  ghost predicate Swapping(plan: Plan, ver: int, s: int, site: Site, d: Table) {
    && site.edge == Edge(plan, ver, s) && d <= FlowtableDiff(site.edge, Edge(plan, ver + 1, s))
    && SwapUnderWay(site, SwapMsgs(site.edge, Edge(plan, ver + 1, s)), |d|)
    && forall u :: Stamps(site.rules, u) ==> u == ver || u == ver + 1
  }

  ghost predicate SwapUnderWay(site: Site, ms: seq<Msg>, left: nat) {
    exists j :: SwapAt(site, ms, left, j)
  }

  ghost predicate SwapAt(site: Site, ms: seq<Msg>, left: nat, j: int) {
    && 0 <= j <= |ms| - left
    && EdgePart(site.rules) == ReceiveAll(RulesOf(site.edge), ms[..j])
    && EdgeMsgs(site.inbox) == ms[j..|ms| - left]
  }

  ghost predicate Settled(plan: Plan, ver: int, s: int, site: Site) {
    EdgePart(site.rules) == RulesOf(site.edge) && site.edge == Edge(plan, ver, s)
  }

  ghost predicate SiteOk(plan: Plan, ver: int, s: int, site: Site, r: Role) {
    && MsgsOk(plan, ver, s, r, site.inbox)
    && (!r.cleared ==> Holds(plan, site.rules, ver, s))
    && (r.hasNew ==> Holds(plan, site.rules, ver + 1, s))
    && (r.pending ==> Coming(plan, ver + 1, s, site))
    && Genuine(plan, site.rules, s)
    && (r.swap.None? ==> Settled(plan, if r.edgeNew then ver + 1 else ver, s, site))
    && (r.swap.Some? ==> Swapping(plan, ver, s, site, r.swap.value))
  }

  function Todo(ph: Phase): seq<int> {
    if ph.Idle? then [] else ph.todo
  }

  ghost predicate Inv(plan: Plan, switches: seq<int>, n: Net) {
    && n.ver < VLAN_NONE && (!n.phase.Idle? ==> n.ver + 1 < VLAN_NONE)
    && (forall s :: s in n.sites <==> s in switches)
    && Distinct(Todo(n.phase)) && (forall s :: s in Todo(n.phase) ==> s in switches)
    && (n.phase.Edges? && n.phase.todo == [] ==> n.phase.dels == None)
    && forall s :: s in n.sites ==> SiteOk(plan, n.ver, s, n.sites[s], RoleOf(n.phase, s))
  }

  // Rules for untagged packets in the invariant

  lemma SettledStamps(plan: Plan, ver: int, s: int, site: Site, v: int)
    requires PlanOk(plan) && Settled(plan, ver, s, site) && Stamps(site.rules, v)
    ensures v == ver
  {
    var k :| k in site.rules && Tagged(k.pattern, VLAN_NONE) && SetVlan(v) in site.rules[k];
    assert k in EdgePart(site.rules);
    EdgeKey(plan, ver, s, k);
  }

  lemma SwappingStamps(plan: Plan, ver: int, s: int, site: Site, d: Table, v: int)
    requires Swapping(plan, ver, s, site, d) && Stamps(site.rules, v)
    ensures v == ver || v == ver + 1
  {
    hide SwapUnderWay, Stamps, SwapMsgs, FlowtableDiff, Prioritize;
  }

  /** The invariant gives the safety property. */
  lemma InvConsistent(plan: Plan, switches: seq<int>, n: Net)
    requires PlanOk(plan) && Inv(plan, switches, n)
    ensures Consistent(plan, n)
  {
    hide PlanOk, Stamps, Holds, Genuine, Settled, Swapping, MsgsOk, Coming;
    forall s', v | s' in n.sites && Stamps(n.sites[s'].rules, v)
      ensures forall s :: s in n.sites ==> Holds(plan, n.sites[s].rules, v, s) && Genuine(plan, n.sites[s].rules, s)
    {
      var r := RoleOf(n.phase, s');
      assert SiteOk(plan, n.ver, s', n.sites[s'], r);
      if r.swap.None? {
        SettledStamps(plan, if r.edgeNew then n.ver + 1 else n.ver, s', n.sites[s'], v);
      } else {
        SwappingStamps(plan, n.ver, s', n.sites[s'], r.swap.value, v);
      }
      forall s | s in n.sites ensures Holds(plan, n.sites[s].rules, v, s) && Genuine(plan, n.sites[s].rules, s) {
        assert SiteOk(plan, n.ver, s, n.sites[s], RoleOf(n.phase, s));
      }
    }
  }

  // A switch handles a message

  /** The message leaves the internal rules of version `v` alone. */
  ghost predicate Spares(plan: Plan, v: int, s: int, m: Msg) {
    match m
    case Add(k, a) => k in RulesOf(Internal(plan, v, s)) ==> a == RulesOf(Internal(plan, v, s))[k]
    case DeleteStrict(k) => k !in RulesOf(Internal(plan, v, s))
    case Delete(d) => exists u :: u != v && d == map[VLAN := u]
  }

  lemma SparesHolds(plan: Plan, t: Rules, m: Msg, v: int, s: int)
    requires PlanOk(plan) && Spares(plan, v, s, m) && Holds(plan, t, v, s)
    ensures Holds(plan, Receive(t, m), v, s)
  {
    hide PlanOk, RulesOf, Prioritize;
    forall k | k in RulesOf(Internal(plan, v, s))
      ensures k in Receive(t, m) && Receive(t, m)[k] == RulesOf(Internal(plan, v, s))[k]
    {
      SparesKey(plan, t, m, v, s, k);
    }
  }

  lemma SparesKey(plan: Plan, t: Rules, m: Msg, v: int, s: int, k: Key)
    requires PlanOk(plan) && Spares(plan, v, s, m) && k in RulesOf(Internal(plan, v, s))
    requires (k in t && t[k] == RulesOf(Internal(plan, v, s))[k]) || m == Add(k, RulesOf(Internal(plan, v, s))[k])
    ensures k in Receive(t, m) && Receive(t, m)[k] == RulesOf(Internal(plan, v, s))[k]
  {
    InternalKey(plan, v, s, k);
    hide PlanOk, RulesOf, Prioritize;
    if m.Delete? {
      var u :| u != v && m.pattern == map[VLAN := u];
      assert VLAN in m.pattern && !AsSpecific(k.pattern, m.pattern);
    }
  }

  lemma MsgSpares(plan: Plan, ver: int, s: int, r: Role, m: Msg)
    requires PlanOk(plan) && MsgOk(plan, ver, s, r, m) && ver < VLAN_NONE
    ensures !r.cleared ==> Spares(plan, ver, s, m)
    ensures ver + 1 < VLAN_NONE ==> Spares(plan, ver + 1, s, m)
  {
    hide PlanOk, RulesOf, Prioritize;
    if !m.Delete? {
      var k := m.key;
      if k in RulesOf(Internal(plan, ver, s)) { InternalKey(plan, ver, s, k); }
      if k in RulesOf(Internal(plan, ver + 1, s)) { InternalKey(plan, ver + 1, s, k); }
    } else {
      var u :| m.pattern == map[VLAN := u] && (u < ver || (r.cleared && u == ver));
      assert u != ver + 1 && m.pattern == map[VLAN := u];
    }
  }

  lemma GenuineReceive(plan: Plan, ver: int, s: int, r: Role, t: Rules, m: Msg)
    requires Genuine(plan, t, s) && MsgOk(plan, ver, s, r, m) && (r.pending ==> ver + 1 < VLAN_NONE)
    ensures Genuine(plan, Receive(t, m), s)
  {
    hide RulesOf, Prioritize;
    forall k | k in Receive(t, m) && !Tagged(k.pattern, VLAN_NONE)
      ensures exists v :: IsInternal(plan, Receive(t, m), v, s, k)
    {
      if m.Add? && k == m.key {
        assert IsInternal(plan, Receive(t, m), ver + 1, s, k);
      } else {
        var v :| IsInternal(plan, t, v, s, k);
        assert IsInternal(plan, Receive(t, m), v, s, k);
      }
    }
  }

  lemma ComingReceive(plan: Plan, ver: int, s: int, site: Site)
    requires PlanOk(plan) && Coming(plan, ver, s, site) && site.inbox != [] && Spares(plan, ver, s, site.inbox[0])
    ensures Coming(plan, ver, s, Site(Receive(site.rules, site.inbox[0]), site.inbox[1..], site.edge))
  {
    hide PlanOk, RulesOf, Prioritize, Spares, Receive;
    var m := site.inbox[0];
    assert site.inbox == [m] + site.inbox[1..];
    forall k | k in RulesOf(Internal(plan, ver, s))
      ensures var a := RulesOf(Internal(plan, ver, s))[k];
              (k in Receive(site.rules, m) && Receive(site.rules, m)[k] == a) || Add(k, a) in site.inbox[1..]
    {
      var a := RulesOf(Internal(plan, ver, s))[k];
      if Add(k, a) !in site.inbox[1..] {
        SparesKey(plan, site.rules, m, ver, s, k);
      }
    }
  }

  lemma DeleteTag(plan: Plan, ver: int, s: int, r: Role, m: Msg)
    requires MsgOk(plan, ver, s, r, m) && ver < VLAN_NONE && m.Delete?
    ensures exists u :: u != VLAN_NONE && m.pattern == map[VLAN := u]
  {
    var u :| m.pattern == map[VLAN := u] && (u < ver || (r.cleared && u == ver));
    assert u != VLAN_NONE && m.pattern == map[VLAN := u];
  }

  lemma SettledReceive(plan: Plan, ver: int, v: int, s: int, site: Site, r: Role)
    requires site.inbox != [] && MsgOk(plan, ver, s, r, site.inbox[0]) && ver < VLAN_NONE && r.swap.None?
    requires Settled(plan, v, s, site)
    ensures Settled(plan, v, s, Site(Receive(site.rules, site.inbox[0]), site.inbox[1..], site.edge))
  {
    hide RulesOf, Prioritize, EdgePart, Receive;
    var m := site.inbox[0];
    if m.Delete? { DeleteTag(plan, ver, s, r, m); }
    EdgePartReceive(site.rules, m);
  }

  lemma StampsReceive(t: Rules, m: Msg, u: int)
    requires Stamps(Receive(t, m), u)
    ensures Stamps(t, u) || (m.Add? && Tagged(m.key.pattern, VLAN_NONE) && SetVlan(u) in m.action)
  {
    var k :| k in Receive(t, m) && Tagged(k.pattern, VLAN_NONE) && SetVlan(u) in Receive(t, m)[k];
    if !(m.Add? && k == m.key) {
      assert k in t && t[k] == Receive(t, m)[k];
    }
  }

  lemma {:induction false} EdgeMsgsConcat(a: seq<Msg>, b: seq<Msg>)
    ensures EdgeMsgs(a + b) == EdgeMsgs(a) + EdgeMsgs(b)
  {
    hide EdgeMsg;
    if a == [] {
      assert a + b == b;
    } else {
      assert (a + b)[0] == a[0] && (a + b)[1..] == a[1..] + b;
      EdgeMsgsConcat(a[1..], b);
    }
  }

  lemma {:induction false} EdgeMsgsAll(a: seq<Msg>)
    requires forall m :: m in a ==> EdgeMsg(m)
    ensures EdgeMsgs(a) == a
  {
    hide EdgeMsg;
    if a != [] {
      assert a[0] in a && forall m :: m in a[1..] ==> m in a;
      EdgeMsgsAll(a[1..]);
    }
  }

  lemma {:induction false} EdgeMsgsNone(a: seq<Msg>)
    requires forall m :: m in a ==> !EdgeMsg(m)
    ensures EdgeMsgs(a) == []
  {
    hide EdgeMsg;
    if a != [] {
      assert a[0] in a && forall m :: m in a[1..] ==> m in a;
      EdgeMsgsNone(a[1..]);
    }
  }

  /** The next message is the next one of the swap, or no edge message. */
  lemma SwapAtReceive(site: Site, ms: seq<Msg>, left: nat, j: int) returns (j': int)
    requires SwapAt(site, ms, left, j) && site.inbox != []
    requires site.inbox[0].Delete? ==> exists u :: u != VLAN_NONE && site.inbox[0].pattern == map[VLAN := u]
    ensures SwapAt(Site(Receive(site.rules, site.inbox[0]), site.inbox[1..], site.edge), ms, left, j')
  {
    hide RulesOf, EdgePart, Receive, EdgeMsg, ReceiveAll;
    var m := site.inbox[0];
    EdgePartReceive(site.rules, m);
    if EdgeMsg(m) {
      j' := j + 1;
      assert ms[j] == (ms[j..|ms| - left])[0] == m;
      assert ms[..j + 1] == ms[..j] + [m];
      ReceiveLast(RulesOf(site.edge), ms[..j], m);
    } else {
      j' := j;
    }
  }

  lemma SwappingReceive(plan: Plan, ver: int, s: int, site: Site, r: Role, d: Table)
    requires site.inbox != [] && MsgOk(plan, ver, s, r, site.inbox[0]) && Swapping(plan, ver, s, site, d) &&
             ver < VLAN_NONE
    ensures Swapping(plan, ver, s, Site(Receive(site.rules, site.inbox[0]), site.inbox[1..], site.edge), d)
  {
    hide RulesOf, Prioritize, EdgePart, Receive, Stamps, SwapMsgs, FlowtableDiff, SwapAt;
    var m := site.inbox[0];
    if m.Delete? { DeleteTag(plan, ver, s, r, m); }
    forall u | Stamps(Receive(site.rules, m), u) ensures u == ver || u == ver + 1 {
      StampsReceive(site.rules, m, u);
    }
    var ms := SwapMsgs(site.edge, Edge(plan, ver + 1, s));
    var j :| SwapAt(site, ms, |d|, j);
    var j' := SwapAtReceive(site, ms, |d|, j);
    assert SwapUnderWay(Site(Receive(site.rules, m), site.inbox[1..], site.edge), ms, |d|);
  }

  lemma HandleOk(plan: Plan, ver: int, s: int, site: Site, r: Role)
    requires PlanOk(plan) && SiteOk(plan, ver, s, site, r) && site.inbox != []
    requires ver < VLAN_NONE && (r.pending || r.hasNew ==> ver + 1 < VLAN_NONE)
    ensures SiteOk(plan, ver, s, Site(Receive(site.rules, site.inbox[0]), site.inbox[1..], site.edge), r)
  {
    hide PlanOk, Receive, Holds, Coming, Settled, Swapping, Genuine, Spares, MsgOk;
    var m := site.inbox[0];
    assert m in site.inbox && MsgOk(plan, ver, s, r, m);
    forall x | x in site.inbox[1..] ensures MsgOk(plan, ver, s, r, x) { assert x in site.inbox; }
    MsgSpares(plan, ver, s, r, m);
    if !r.cleared { SparesHolds(plan, site.rules, m, ver, s); }
    if r.hasNew { SparesHolds(plan, site.rules, m, ver + 1, s); }
    if r.pending { ComingReceive(plan, ver + 1, s, site); }
    GenuineReceive(plan, ver, s, r, site.rules, m);
    if r.swap.None? {
      SettledReceive(plan, ver, if r.edgeNew then ver + 1 else ver, s, site, r);
    } else {
      SwappingReceive(plan, ver, s, site, r, r.swap.value);
    }
  }

  // The controller acts

  /** A role that promises no more, and expects no message less. */
  lemma RoleChange(plan: Plan, ver: int, s: int, site: Site, r: Role, r': Role)
    requires SiteOk(plan, ver, s, site, r) && r.pending == r'.pending && r.swap == r'.swap && r.hasNew == r'.hasNew &&
             r.edgeNew == r'.edgeNew
    requires r.cleared ==> r'.cleared
    ensures SiteOk(plan, ver, s, site, r')
  {
    hide Holds, Coming, Settled, Swapping, Genuine;
    forall m | m in site.inbox ensures MsgOk(plan, ver, s, r', m) {
      assert MsgOk(plan, ver, s, r, m);
      MsgRole(plan, ver, s, r, r', m);
    }
  }

  lemma MsgRole(plan: Plan, ver: int, s: int, r: Role, r': Role, m: Msg)
    requires MsgOk(plan, ver, s, r, m) && (r.pending ==> r'.pending) && (r.swap.Some? ==> r'.swap.Some?) &&
             (r.cleared ==> r'.cleared)
    ensures MsgOk(plan, ver, s, r', m)
  {
    hide RulesOf, Prioritize;
    if m.Delete? {
      var u :| m.pattern == map[VLAN := u] && (u < ver || (r.cleared && u == ver));
      assert m.pattern == map[VLAN := u] && (u < ver || (r'.cleared && u == ver));
    }
  }

  /** New messages join those on their way. */
  lemma MsgsJoin(plan: Plan, ver: int, s: int, r: Role, r': Role, a: seq<Msg>, b: seq<Msg>)
    requires MsgsOk(plan, ver, s, r, a) && (forall m :: m in b ==> MsgOk(plan, ver, s, r', m))
    requires (r.pending ==> r'.pending) && (r.swap.Some? ==> r'.swap.Some?) && (r.cleared ==> r'.cleared)
    ensures MsgsOk(plan, ver, s, r', a + b)
  {
    hide MsgOk;
    forall m | m in a + b ensures MsgOk(plan, ver, s, r', m) {
      if m in a { assert MsgOk(plan, ver, s, r, m); MsgRole(plan, ver, s, r, r', m); }
    }
  }

  lemma AddsOf(t: Table, m: Msg)
    requires Descending(t)
    ensures m in Adds(t) ==> m.Add? && m.key in RulesOf(t) && m.action == RulesOf(t)[m.key]
    ensures m.Add? && m.key in RulesOf(t) && m.action == RulesOf(t)[m.key] ==> m in Adds(t)
  {
    if m in Adds(t) {
      var i :| 0 <= i < |t| && Adds(t)[i] == m;
      assert Row(t, m.key, m.action);
      RulesAreRows(t, m.key, m.action);
    }
    if m.Add? && m.key in RulesOf(t) && m.action == RulesOf(t)[m.key] {
      RulesAreRows(t, m.key, m.action);
      var i :| 0 <= i < |t| && KeyOf(t[i]) == m.key && t[i].0.action == m.action;
      assert Adds(t)[i] == m;
    }
  }

  lemma SendInternal(plan: Plan, ver: int, s: int, site: Site, r: Role, r': Role)
    requires PlanOk(plan) && SiteOk(plan, ver, s, site, r)
    requires r == Role(false, false, false, false, None) && r' == Role(true, false, false, false, None) &&
             ver + 1 < VLAN_NONE
    ensures SiteOk(plan, ver, s, site.(inbox := site.inbox + Adds(Internal(plan, ver + 1, s))), r')
  {
    hide PlanOk, Holds, Genuine, RulesOf, Prioritize, Adds, EdgePart, MsgsOk;
    var t := Internal(plan, ver + 1, s);
    PrioritizeRows(plan.internal(ver + 1, s), MAX_PRIORITY);
    forall m | m in Adds(t) ensures MsgOk(plan, ver, s, r', m) {
      AddsOf(t, m);
      InternalKey(plan, ver + 1, s, m.key);
    }
    MsgsJoin(plan, ver, s, r, r', site.inbox, Adds(t));
    forall k | k in RulesOf(t) ensures Add(k, RulesOf(t)[k]) in site.inbox + Adds(t) {
      AddsOf(t, Add(k, RulesOf(t)[k]));
    }
  }

  /** The barrier: what was on its way has arrived. */
  lemma InternalBarrier(plan: Plan, ver: int, s: int, site: Site, r: Role, r': Role)
    requires SiteOk(plan, ver, s, site, r) && site.inbox == []
    requires r == Role(true, false, false, false, None) && r' == Role(false, true, false, false, None)
    ensures SiteOk(plan, ver, s, site, r')
  {
    hide RulesOf, Prioritize, Genuine, EdgePart;
  }

  lemma SwapMsgsStart(was: Table, now: Table)
    ensures var ms := SwapMsgs(was, now); var d := FlowtableDiff(was, now);
            |ms| == |now| + |d| && ms[..|ms| - |d|] == Adds(now)
  {
  }

  lemma EdgeAddOk(plan: Plan, ver: int, s: int, r: Role, m: Msg)
    requires PlanOk(plan) && m in Adds(Edge(plan, ver + 1, s)) && r.swap.Some?
    ensures MsgOk(plan, ver, s, r, m) && EdgeMsg(m)
  {
    hide PlanOk, RulesOf, Prioritize, Adds;
    PrioritizeRows(plan.edge(ver + 1, s), MAX_PRIORITY);
    AddsOf(Edge(plan, ver + 1, s), m);
    EdgeKey(plan, ver + 1, s, m.key);
  }

  lemma NoEdgeMsgs(plan: Plan, ver: int, s: int, r: Role, ms: seq<Msg>)
    requires MsgsOk(plan, ver, s, r, ms) && r.swap.None?
    ensures forall m :: m in ms ==> !EdgeMsg(m)
  {
    hide RulesOf, Prioritize;
    forall m | m in ms ensures !EdgeMsg(m) { assert MsgOk(plan, ver, s, r, m); }
  }

  lemma SwapStarts(site: Site, now: Table)
    requires EdgePart(site.rules) == RulesOf(site.edge)
    requires (forall m :: m in site.inbox ==> !EdgeMsg(m)) && forall m :: m in Adds(now) ==> EdgeMsg(m)
    ensures SwapUnderWay(site.(inbox := site.inbox + Adds(now)), SwapMsgs(site.edge, now),
                         |FlowtableDiff(site.edge, now)|)
  {
    hide RulesOf, Adds, FlowtableDiff, SwapMsgs, EdgePart, EdgeMsg;
    SwapMsgsStart(site.edge, now);
    EdgeMsgsNone(site.inbox);
    EdgeMsgsAll(Adds(now));
    EdgeMsgsConcat(site.inbox, Adds(now));
    var ms, left := SwapMsgs(site.edge, now), |FlowtableDiff(site.edge, now)|;
    assert ms[..0] == [] && ms[0..|ms| - left] == Adds(now);
    assert SwapAt(site.(inbox := site.inbox + Adds(now)), ms, left, 0);
  }

  lemma SwapEnds(site: Site, was: Table, now: Table)
    requires SwapUnderWay(site, SwapMsgs(was, now), 0) && site.edge == was && site.inbox == [] && Descending(was) &&
             Descending(now)
    ensures EdgePart(site.rules) == RulesOf(now)
  {
    hide RulesOf, FlowtableDiff, SwapMsgs, EdgePart;
    var ms := SwapMsgs(was, now);
    var j :| SwapAt(site, ms, 0, j);
    assert |ms[j..|ms| - 0]| == 0;
    assert ms[..j] == ms;
    SwapAll(was, now);
  }

  lemma SwapAll(was: Table, now: Table)
    requires Descending(was) && Descending(now)
    ensures ReceiveAll(RulesOf(was), SwapMsgs(was, now)) == RulesOf(now)
  {
    hide RulesOf, SwapMsgs, ReceiveAll;
    var rest: Rules := map[];
    SwapFinal(was, now, rest);
    assert rest + RulesOf(was) == RulesOf(was) && rest + RulesOf(now) == RulesOf(now);
  }

  lemma SendEdge(plan: Plan, ver: int, s: int, site: Site, r: Role, r': Role)
    requires PlanOk(plan) && SiteOk(plan, ver, s, site, r)
    requires r == Role(false, true, false, false, None)
    requires r' == Role(false, true, false, false, Some(FlowtableDiff(site.edge, Edge(plan, ver + 1, s))))
    ensures SiteOk(plan, ver, s, site.(inbox := site.inbox + Adds(Edge(plan, ver + 1, s))), r')
  {
    hide PlanOk, Holds, Genuine, RulesOf, Prioritize, Adds, FlowtableDiff, SwapMsgs, Stamps, EdgePart, SwapUnderWay,
      EdgeMsg, MsgOk, MsgsOk;
    var now := Edge(plan, ver + 1, s);
    PrioritizeRows(plan.edge(ver + 1, s), MAX_PRIORITY);
    forall m | m in Adds(now) ensures MsgOk(plan, ver, s, r', m) && EdgeMsg(m) {
      EdgeAddOk(plan, ver, s, r', m);
    }
    MsgsJoin(plan, ver, s, r, r', site.inbox, Adds(now));
    NoEdgeMsgs(plan, ver, s, r, site.inbox);
    SwapStarts(site, now);
    forall u | Stamps(site.rules, u) ensures u == ver { SettledStamps(plan, ver, s, site, u); }
  }

  lemma SwapMsgsDelete(was: Table, now: Table, d: Table)
    requires d != [] && d <= FlowtableDiff(was, now)
    ensures var ms := SwapMsgs(was, now);
            |d| <= |ms| && ms[..|ms| - |d| + 1] == ms[..|ms| - |d|] + [DeleteStrict(KeyOf(d[|d| - 1]))]
  {
    var ms := SwapMsgs(was, now);
    assert ms[|ms| - |d|] == DeleteStrict(KeyOf(d[|d| - 1]));
  }

  lemma SendDelete(plan: Plan, ver: int, s: int, site: Site, r: Role, r': Role, d: Table)
    requires PlanOk(plan) && SiteOk(plan, ver, s, site, r) && d != []
    requires r == Role(false, true, false, false, Some(d)) && r' == r.(swap := Some(d[..|d| - 1]))
    ensures SiteOk(plan, ver, s, site.(inbox := site.inbox + [DeleteStrict(KeyOf(d[|d| - 1]))]), r')
  {
    hide PlanOk, Holds, Genuine, RulesOf, Prioritize, MsgsOk, FlowtableDiff, SwapMsgs, Stamps, EdgePart;
    var now := Edge(plan, ver + 1, s);
    var m := DeleteStrict(KeyOf(d[|d| - 1]));
    DiffKeys(plan, ver, s, now, d);
    SwapMsgsDelete(site.edge, now, d);
    MsgsJoin(plan, ver, s, r, r', site.inbox, [m]);
    EdgeMsgsAll([m]);
    EdgeMsgsConcat(site.inbox, [m]);
    var ms := SwapMsgs(site.edge, now);
    var j :| SwapAt(site, ms, |d|, j);
    assert ms[j..|ms| - |d| + 1] == ms[j..|ms| - |d|] + [m] by {
      assert ms[j..|ms| - |d| + 1] == ms[..|ms| - |d| + 1][j..];
    }
    assert SwapAt(site.(inbox := site.inbox + [m]), ms, |d| - 1, j);
  }

  lemma DiffKeys(plan: Plan, ver: int, s: int, now: Table, d: Table)
    requires PlanOk(plan) && d != [] && d <= FlowtableDiff(Edge(plan, ver, s), now) && now == Edge(plan, ver + 1, s)
    ensures Tagged(d[|d| - 1].0.pattern, VLAN_NONE)
  {
    hide PlanOk, RulesOf, Prioritize, FlowtableDiff, Absent;
    var was := Edge(plan, ver, s);
    PrioritizeRows(plan.edge(ver, s), MAX_PRIORITY);
    PrioritizeRows(plan.edge(ver + 1, s), MAX_PRIORITY);
    DiffExact(was, now);
    AbsentRows(was, now);
    assert d[|d| - 1] == Absent(was, now)[|d| - 1];
    RowIsRule(was, d[|d| - 1]);
    EdgeKey(plan, ver, s, KeyOf(d[|d| - 1]));
  }

  lemma EdgeBarrier(plan: Plan, ver: int, s: int, site: Site, r: Role, r': Role)
    requires PlanOk(plan) && SiteOk(plan, ver, s, site, r) && site.inbox == []
    requires r == Role(false, true, false, false, Some([])) && r' == Role(false, true, true, false, None)
    ensures SiteOk(plan, ver, s, site.(edge := Edge(plan, ver + 1, s)), r')
  {
    hide PlanOk, Holds, Genuine, RulesOf, Prioritize, FlowtableDiff, SwapMsgs, Stamps, EdgePart, SwapUnderWay;
    PrioritizeRows(plan.edge(ver, s), MAX_PRIORITY);
    PrioritizeRows(plan.edge(ver + 1, s), MAX_PRIORITY);
    SwapEnds(site, Edge(plan, ver, s), Edge(plan, ver + 1, s));
  }

  lemma SendClear(plan: Plan, ver: int, s: int, site: Site, r: Role)
    requires SiteOk(plan, ver, s, site, r) && r == Role(false, true, true, true, None)
    ensures SiteOk(plan, ver, s, site.(inbox := site.inbox + [Delete(map[VLAN := ver])]), r)
  {
    hide Holds, Genuine, EdgePart, RulesOf, Prioritize, MsgsOk;
    assert MsgOk(plan, ver, s, r, Delete(map[VLAN := ver]));
    MsgsJoin(plan, ver, s, r, r, site.inbox, [Delete(map[VLAN := ver])]);
  }

  /** The new version becomes the old one. */
  lemma VersionDone(plan: Plan, ver: int, s: int, site: Site, r: Role, r': Role)
    requires SiteOk(plan, ver, s, site, r)
    requires r == Role(false, true, true, true, None) && r' == Role(false, false, false, false, None)
    ensures SiteOk(plan, ver + 1, s, site, r')
  {
    hide Holds, Genuine, Settled;
    forall m | m in site.inbox ensures MsgOk(plan, ver + 1, s, r', m) {
      assert MsgOk(plan, ver, s, r, m);
      if m.Delete? {
        var u :| m.pattern == map[VLAN := u] && (u < ver || (r.cleared && u == ver));
        assert m.pattern == map[VLAN := u] && u < ver + 1;
      }
    }
  }

  // Every step keeps the invariant

  lemma TodoTail(todo: seq<int>)
    requires todo != [] && Distinct(todo)
    ensures Distinct(todo[1..]) && todo[0] !in todo[1..] && forall s :: s in todo <==> s == todo[0] || s in todo[1..]
  {
    assert todo == [todo[0]] + todo[1..];
  }

  lemma InitInv(plan: Plan, switches: seq<int>, n: Net)
    requires PlanOk(plan) && Distinct(switches) && Init(plan, switches, n)
    ensures Inv(plan, switches, n)
  {
    hide PlanOk;
    forall s | s in n.sites ensures SiteOk(plan, n.ver, s, n.sites[s], RoleOf(n.phase, s)) {
      InitSite(plan, n.ver, s, n.sites[s]);
    }
  }

  lemma InitSite(plan: Plan, ver: int, s: int, site: Site)
    requires PlanOk(plan) && ver < VLAN_NONE
    requires site == Site(RulesOf(Internal(plan, ver, s)) + RulesOf(Edge(plan, ver, s)), [], Edge(plan, ver, s))
    ensures SiteOk(plan, ver, s, site, RoleOf(Idle, s))
  {
    hide PlanOk, RulesOf, Prioritize;
    forall k | k in RulesOf(Internal(plan, ver, s)) ensures Tagged(k.pattern, ver) { InternalKey(plan, ver, s, k); }
    forall k | k in RulesOf(Edge(plan, ver, s)) ensures Tagged(k.pattern, VLAN_NONE) { EdgeKey(plan, ver, s, k); }
    assert EdgePart(site.rules) == RulesOf(site.edge);
    forall k | k in site.rules && !Tagged(k.pattern, VLAN_NONE) ensures IsInternal(plan, site.rules, ver, s, k) {
    }
  }

  lemma HandleInv(plan: Plan, switches: seq<int>, n: Net, n': Net, s: int)
    requires PlanOk(plan) && Inv(plan, switches, n) && Handle(n, n', s)
    ensures Inv(plan, switches, n')
  {
    hide PlanOk, SiteOk, Receive;
    HandleOk(plan, n.ver, s, n.sites[s], RoleOf(n.phase, s)) by {
      assert SiteOk(plan, n.ver, s, n.sites[s], RoleOf(n.phase, s));
    }
    forall x | x in n'.sites ensures SiteOk(plan, n'.ver, x, n'.sites[x], RoleOf(n'.phase, x)) {
      if x != s { assert SiteOk(plan, n.ver, x, n.sites[x], RoleOf(n.phase, x)); }
    }
  }

  /** A step that leaves switch `x` alone, up to its role. */
  ghost predicate SameRole(n: Net, n': Net, x: int) {
    x in n.sites && x in n'.sites && n'.sites[x] == n.sites[x] && n'.ver == n.ver
    && RoleOf(n'.phase, x).(cleared := false) == RoleOf(n.phase, x).(cleared := false)
    && (RoleOf(n.phase, x).cleared ==> RoleOf(n'.phase, x).cleared)
  }

  lemma SameRoleOk(plan: Plan, n: Net, n': Net, x: int)
    requires SameRole(n, n', x) && SiteOk(plan, n.ver, x, n.sites[x], RoleOf(n.phase, x))
    ensures SiteOk(plan, n'.ver, x, n'.sites[x], RoleOf(n'.phase, x))
  {
    hide SiteOk;
    RoleChange(plan, n.ver, x, n.sites[x], RoleOf(n.phase, x), RoleOf(n'.phase, x));
  }

  /** The switch that the controller turns to. */
  lemma HeadOk(plan: Plan, switches: seq<int>, n: Net, n': Net)
    requires PlanOk(plan) && Inv(plan, switches, n) && Control(plan, switches, n, n') && Todo(n.phase) != []
    ensures var s := Todo(n.phase)[0];
            s in n'.sites && SiteOk(plan, n'.ver, s, n'.sites[s], RoleOf(n'.phase, s))
  {
    hide PlanOk, SiteOk, Adds, Edge, Internal, FlowtableDiff;
    var s := n.phase.todo[0];
    var r, r' := RoleOf(n.phase, s), RoleOf(n'.phase, s);
    var site := n.sites[s];
    assert SiteOk(plan, n.ver, s, site, r);
    TodoTail(n.phase.todo);
    match n.phase
    case Internals(todo, sent) =>
      if sent {
        InternalBarrier(plan, n.ver, s, site, r, r');
      } else {
        SendInternal(plan, n.ver, s, site, r, r');
      }
    case Edges(todo, dels) =>
      if dels.None? {
        SendEdge(plan, n.ver, s, site, r, r');
      } else if dels.value != [] {
        SendDelete(plan, n.ver, s, site, r, r', dels.value);
      } else {
        EdgeBarrier(plan, n.ver, s, site, r, r');
      }
    case Clears(todo) => SendClear(plan, n.ver, s, site, r);
    case Idle =>
  }

  /** The other switches keep their roles, or the whole phase changes. */
  lemma OtherOk(plan: Plan, switches: seq<int>, n: Net, n': Net, x: int)
    requires PlanOk(plan) && Inv(plan, switches, n) && Control(plan, switches, n, n') && x in n.sites
    requires Todo(n.phase) != [] ==> x != Todo(n.phase)[0]
    ensures x in n'.sites && SiteOk(plan, n'.ver, x, n'.sites[x], RoleOf(n'.phase, x))
  {
    hide PlanOk, SiteOk, Adds, Edge, Internal, FlowtableDiff;
    assert SiteOk(plan, n.ver, x, n.sites[x], RoleOf(n.phase, x));
    if n.phase.Clears? && n.phase.todo == [] {
      VersionDone(plan, n.ver, x, n.sites[x], RoleOf(n.phase, x), RoleOf(n'.phase, x));
    } else {
      if Todo(n.phase) != [] { TodoTail(n.phase.todo); }
      assert SameRole(n, n', x);
      SameRoleOk(plan, n, n', x);
    }
  }

  lemma ControlInv(plan: Plan, switches: seq<int>, n: Net, n': Net)
    requires PlanOk(plan) && Distinct(switches) && Inv(plan, switches, n) && Control(plan, switches, n, n')
    ensures Inv(plan, switches, n')
  {
    hide PlanOk, SiteOk, Adds, Edge, Internal, FlowtableDiff, RoleOf;
    if Todo(n.phase) != [] {
      HeadOk(plan, switches, n, n');
      TodoTail(n.phase.todo);
    }
    forall x | x in n.sites ensures x in n'.sites && SiteOk(plan, n'.ver, x, n'.sites[x], RoleOf(n'.phase, x)) {
      if Todo(n.phase) == [] || x != Todo(n.phase)[0] {
        OtherOk(plan, switches, n, n', x);
      }
    }
  }

  lemma {:induction false} RunInv(plan: Plan, switches: seq<int>, ns: seq<Net>, i: nat)
    requires PlanOk(plan) && Distinct(switches) && Run(plan, switches, ns) && i < |ns|
    ensures Inv(plan, switches, ns[i])
  {
    hide PlanOk, Inv, Control, Handle, Init;
    if i == 0 {
      InitInv(plan, switches, ns[0]);
    } else {
      RunInv(plan, switches, ns, i - 1);
      if Control(plan, switches, ns[i - 1], ns[i]) {
        ControlInv(plan, switches, ns[i - 1], ns[i]);
      } else {
        var s :| Handle(ns[i - 1], ns[i], s);
        HandleInv(plan, switches, ns[i - 1], ns[i], s);
      }
    }
  }

  /** At every moment of every run, if some switch stamps version `v` then every
      switch holds all the internal rules of `v`. */
  lemma RunConsistent(plan: Plan, switches: seq<int>, ns: seq<Net>, i: nat)
    requires PlanOk(plan) && Distinct(switches) && Run(plan, switches, ns) && i < |ns|
    ensures Consistent(plan, ns[i])
  {
    hide PlanOk, Inv, Run, Consistent;
    RunInv(plan, switches, ns, i);
    InvConsistent(plan, switches, ns[i]);
  }

  /** A packet with the tag of a version that a switch holds is handled by the
      internal table of that version: the best rule is the first row that
      matches, and there is none only if no row matches. */
  lemma StampedHandled(plan: Plan, t: Rules, v: int, s: int, h: Header)
    requires PlanOk(plan) && Holds(plan, t, v, s) && Genuine(plan, t, s) && VLAN in h && h[VLAN] == v && v < VLAN_NONE
    ensures forall k :: IsBest(t, h, k) ==> FirstOf(Internal(plan, v, s), h, k, t[k])
    ensures Misses(t, h) ==> NoRow(Internal(plan, v, s), h)
  {
    var w := Internal(plan, v, s);
    PrioritizeRows(plan.internal(v, s), MAX_PRIORITY);
    hide PlanOk, RulesOf, Prioritize;
    forall i | 0 <= i < |w| ensures KeyOf(w[i]) in RulesOf(w) && KeyOf(w[i]) in t {
      assert w[i] in w;
      RowIsRule(w, w[i]);
    }
    forall k | IsBest(t, h, k) ensures FirstOf(w, h, k, t[k]) {
      var u :| IsInternal(plan, t, u, s, k);
      InternalKey(plan, u, s, k);
      assert u == v;
      RulesAreRows(w, k, t[k]);
      var i :| 0 <= i < |w| && KeyOf(w[i]) == k && w[i].0.action == t[k];
      assert IsFirst(w, h, i);
    }
  }

  /** The rules for untagged packets are those of some stage of the swap. */
  lemma EdgeStage(plan: Plan, ver: int, s: int, site: Site, r: Role) returns (n: nat)
    requires PlanOk(plan) && SiteOk(plan, ver, s, site, r)
    ensures var ms := SwapMsgs(Edge(plan, ver, s), Edge(plan, ver + 1, s));
            n <= |ms| && EdgePart(site.rules) == ReceiveAll(RulesOf(Edge(plan, ver, s)), ms[..n])
  {
    hide PlanOk, Holds, Genuine, RulesOf, Prioritize, FlowtableDiff, SwapMsgs, Stamps, EdgePart, MsgsOk;
    var was, now := Edge(plan, ver, s), Edge(plan, ver + 1, s);
    var ms := SwapMsgs(was, now);
    if r.swap.Some? {
      var j :| SwapAt(site, ms, |r.swap.value|, j);
      n := j;
    } else if r.edgeNew {
      n := |ms|;
      PrioritizeRows(plan.edge(ver, s), MAX_PRIORITY);
      PrioritizeRows(plan.edge(ver + 1, s), MAX_PRIORITY);
      SwapAll(was, now);
      assert ms[..n] == ms;
    } else {
      n := 0;
      assert ms[..0] == [];
    }
  }

  /** Untagged packets match rules for untagged packets only. */
  lemma UntaggedBest(plan: Plan, t: Rules, s: int, h: Header)
    requires PlanOk(plan) && Genuine(plan, t, s) && VLAN in h && h[VLAN] == VLAN_NONE
    ensures forall k :: IsBest(t, h, k) ==> IsBest(EdgePart(t), h, k) && EdgePart(t)[k] == t[k]
    ensures Misses(t, h) ==> Misses(EdgePart(t), h)
  {
    hide PlanOk, RulesOf, Prioritize;
    forall k | k in t && Hits(k.pattern, h) ensures Tagged(k.pattern, VLAN_NONE) {
      if !Tagged(k.pattern, VLAN_NONE) {
        var v :| IsInternal(plan, t, v, s, k);
        InternalKey(plan, v, s, k);
      }
    }
  }

  /** At every moment of every run each switch handles an untagged packet as its
      edge table of the current version does, or as that of the next one. */
  lemma RunOldOrNew(plan: Plan, switches: seq<int>, ns: seq<Net>, i: nat, s: int, h: Header)
    requires PlanOk(plan) && Distinct(switches) && Run(plan, switches, ns) && i < |ns|
    requires s in switches && VLAN in h && h[VLAN] == VLAN_NONE
    ensures s in ns[i].sites
    ensures OldOrNew(Edge(plan, ns[i].ver, s), Edge(plan, ns[i].ver + 1, s), ns[i].sites[s].rules, h)
  {
    hide PlanOk, Run, Genuine, RulesOf, Prioritize, SwapMsgs, EdgePart, IsBest, Misses, FirstOf;
    RunInv(plan, switches, ns, i);
    var ver, site := ns[i].ver, ns[i].sites[s];
    assert SiteOk(plan, ver, s, site, RoleOf(ns[i].phase, s));
    var n := EdgeStage(plan, ver, s, site, RoleOf(ns[i].phase, s));
    var was, now := Edge(plan, ver, s), Edge(plan, ver + 1, s);
    PrioritizeRows(plan.edge(ver, s), MAX_PRIORITY);
    PrioritizeRows(plan.edge(ver + 1, s), MAX_PRIORITY);
    var rest: Rules := map[];
    assert rest + RulesOf(was) == RulesOf(was);
    NoRestMisses(rest, h);
    SwapOldOrNew(was, now, rest, n, h);
    UntaggedBest(plan, site.rules, s, h);
  }

  lemma NoRestMisses(rest: Rules, h: Header)
    requires rest == map[]
    ensures Misses(rest, h)
  {
  }
}
