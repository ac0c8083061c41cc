/** The controller's swap of the edge table of one switch. */
module EdgeSwap {

  import opened Switches
  import opened TableSwap

  /** A switch that handles the messages it is sent in order, with all the
      tables it has had. */
  class Switch {
    var rules: Rules
    ghost var had: seq<Rules>

    constructor (rules: Rules)
      ensures this.rules == rules && had == [rules]
    {
      this.rules := rules;
      had := [rules];
    }

    method Send(m: Msg)
      modifies this
      ensures rules == Receive(old(rules), m) && had == old(had) + [rules]
    {
      rules := Receive(rules, m);
      had := had + [rules];
    }
  }

  /** The switch has got the first `n` messages, one after the other. */
  ghost predicate Sent(sw: Switch, base: Rules, ms: seq<Msg>, had0: seq<Rules>, n: nat)
    reads sw
  {
    && n <= |ms| && sw.rules == ReceiveAll(base, ms[..n])
    && had0 <= sw.had && |sw.had| == |had0| + n
    && forall i :: |had0| <= i < |sw.had| ==> sw.had[i] == ReceiveAll(base, ms[..i - |had0| + 1])
  }

  lemma Next(base: Rules, ms: seq<Msg>, n: nat)
    requires n < |ms|
    ensures ReceiveAll(base, ms[..n + 1]) == Receive(ReceiveAll(base, ms[..n]), ms[n])
  {
    assert ms[..n + 1] == ms[..n] + [ms[n]];
    ReceiveLast(base, ms[..n], ms[n]);
  }

  lemma NoneSent(sw: Switch, base: Rules, ms: seq<Msg>)
    requires sw.rules == base
    ensures Sent(sw, base, ms, sw.had, 0)
  {
  }

  lemma AddAt(was: Table, now: Table, i: nat)
    requires i < |now|
    ensures i < |SwapMsgs(was, now)| && SwapMsgs(was, now)[i] == Add(KeyOf(now[i]), now[i].0.action)
  {
  }

  lemma DeleteAt(was: Table, now: Table, del: Table)
    requires del != [] && del <= FlowtableDiff(was, now)
    ensures var ms := SwapMsgs(was, now);
            |now| <= |ms| - |del| && ms[|ms| - |del|] == DeleteStrict(KeyOf(del[|del| - 1]))
  {
  }

  lemma MsgCount(was: Table, now: Table)
    ensures |SwapMsgs(was, now)| == |now| + |FlowtableDiff(was, now)|
  {
  }

  lemma AllOldOrNew(sw: Switch, was: Table, now: Table, rest: Rules, base: Rules, had0: seq<Rules>)
    requires Apart(was, now, rest) && base == rest + RulesOf(was)
    requires Sent(sw, base, SwapMsgs(was, now), had0, |SwapMsgs(was, now)|)
    ensures sw.rules == ReceiveAll(base, SwapMsgs(was, now)) && had0 <= sw.had
    ensures forall i, h :: |had0| <= i < |sw.had| && Misses(rest, h) ==> OldOrNew(was, now, sw.had[i], h)
  {
    hide ReceiveAll, Apart, OldOrNew, Misses, RulesOf, SwapMsgs;
    var ms := SwapMsgs(was, now);
    assert ms[..|ms|] == ms;
    forall i, h | |had0| <= i < |sw.had| && Misses(rest, h) ensures OldOrNew(was, now, sw.had[i], h) {
      SwapOldOrNew(was, now, rest, i - |had0| + 1, h);
    }
  }

  method SendNext(sw: Switch, m: Msg, ghost base: Rules, ghost ms: seq<Msg>, ghost had0: seq<Rules>, ghost n: nat)
    requires Sent(sw, base, ms, had0, n) && n < |ms| && m == ms[n]
    modifies sw
    ensures Sent(sw, base, ms, had0, n + 1)
  {
    hide ReceiveAll, Receive;
    Next(base, ms, n);
    sw.Send(m);
  }

  class Controller {
    /** The edge table last installed on each switch. */
    var edge: map<int, Table>

    constructor ()
      ensures edge == map[]
    {
      edge := map[];
    }

    function Installed(id: int): Table
      reads this
    {
      if id in edge then edge[id] else []
    }

    /** `swap_update_for`: every table the switch has on the way handles each
        packet as the old or as the new table does, and the last one has the new
        rules and nothing of the old ones. */
    method SwapUpdateFor(id: int, sw: Switch, flows: seq<Flow>, ghost rest: Rules)
      requires Apart(Installed(id), Prioritize(flows, MAX_PRIORITY), rest)
      requires sw.rules == rest + RulesOf(Installed(id))
      modifies this, sw
      ensures edge == old(edge)[id := Prioritize(flows, MAX_PRIORITY)]
      ensures sw.rules == rest + RulesOf(edge[id])
      ensures old(sw.had) <= sw.had
      ensures forall i, h :: |old(sw.had)| <= i < |sw.had| && Misses(rest, h) ==>
                OldOrNew(old(Installed(id)), edge[id], sw.had[i], h)
    {
      hide ReceiveAll, Apart, OldOrNew, Misses, RulesOf, FlowtableDiff, Sent, SwapMsgs, Prioritize;
      var was := Installed(id);
      var now := Prioritize(flows, MAX_PRIORITY);
      ghost var base, ms, had0 := sw.rules, SwapMsgs(was, now), sw.had;
      SwapStage(was, now, rest, 0);
      NoneSent(sw, base, ms);
      MsgCount(was, now);
      ghost var n := 0;
      var i := 0;
      while i < |now|
        invariant 0 <= i <= |now| && n == i
        invariant Sent(sw, base, ms, had0, n) && edge == old(edge)
      {
        AddAt(was, now, i);
        SendNext(sw, Add(KeyOf(now[i]), now[i].0.action), base, ms, had0, n);
        i, n := i + 1, n + 1;
      }
      var del := FlowtableDiff(was, now);
      while del != []
        invariant del <= FlowtableDiff(was, now) && n == |ms| - |del| && n >= |now|
        invariant Sent(sw, base, ms, had0, n) && edge == old(edge)
      {
        DeleteAt(was, now, del);
        SendNext(sw, DeleteStrict(KeyOf(del[|del| - 1])), base, ms, had0, n);
        del, n := del[..|del| - 1], n + 1;
      }
      edge := edge[id := now];
      SwapFinal(was, now, rest);
      AllOldOrNew(sw, was, now, rest, base, had0);
    }
  }
}
