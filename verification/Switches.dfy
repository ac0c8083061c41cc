/** The flow table of a switch and the messages that change it, as section 4.6
    of the OpenFlow Switch Specification 1.0.0 describes them. */
module Switches {

  /** The value of each tested header field; a field that is not there is wild. */
  type Pattern = map<int, int>

  type Header = map<int, int>

  const VLAN: int := 0
  const VLAN_NONE: int := 65535

  type OtherField = f: int | f != VLAN witness 1

  /** `OutputOther` is an output that names no port: to the ingress port, or a flood. */
  datatype Action =
    | SetVlan(ver: int)
    | StripVlan
    | SetField(field: OtherField, value: int)
    | Output(port: int)
    | ToController
    | OutputOther

  datatype Flow = Flow(pattern: Pattern, action: seq<Action>)

  datatype Key = Key(prio: int, pattern: Pattern)

  type Rules = map<Key, seq<Action>>

  /** Rows with their priorities. */
  type Table = seq<(Flow, int)>

  function KeyOf(row: (Flow, int)): Key {
    Key(row.1, row.0.pattern)
  }

  predicate Hits(p: Pattern, h: Header) {
    forall f :: f in p ==> f in h && h[f] == p[f]
  }

  /** An add overwrites the rule with the same priority and pattern; a strict
      delete removes just that rule; a clear removes all rules that are as
      specific as the pattern. */
  datatype Msg = Add(key: Key, action: seq<Action>) | DeleteStrict(key: Key) | Delete(pattern: Pattern)

  predicate AsSpecific(p: Pattern, d: Pattern) {
    forall f :: f in d ==> f in p && p[f] == d[f]
  }

  function Receive(t: Rules, m: Msg): Rules {
    match m
    case Add(k, a) => t[k := a]
    case DeleteStrict(k) => t - {k}
    case Delete(d) => map k | k in t && !AsSpecific(k.pattern, d) :: t[k]
  }

  function ReceiveAll(t: Rules, ms: seq<Msg>): Rules
    decreases |ms|
  {
    if ms == [] then t else ReceiveAll(Receive(t, ms[0]), ms[1..])
  }

  lemma {:induction false} ReceiveConcat(t: Rules, a: seq<Msg>, b: seq<Msg>)
    ensures ReceiveAll(t, a + b) == ReceiveAll(ReceiveAll(t, a), b)
    decreases |a|
  {
    if a == [] {
      assert a + b == b;
    } else {
      assert (a + b)[0] == a[0] && (a + b)[1..] == a[1..] + b;
      ReceiveConcat(Receive(t, a[0]), a[1..], b);
    }
  }

  lemma ReceiveLast(t: Rules, ms: seq<Msg>, m: Msg)
    ensures ReceiveAll(t, ms + [m]) == Receive(ReceiveAll(t, ms), m)
  {
    ReceiveConcat(t, ms, [m]);
    assert ReceiveAll(ReceiveAll(t, ms), [m]) == ReceiveAll(Receive(ReceiveAll(t, ms), m), [m][1..]);
  }

  /** `k` is a matching rule of highest priority; of several the switch may take
      any. */
  ghost predicate IsBest(t: Rules, h: Header, k: Key) {
    k in t && Hits(k.pattern, h) && forall j :: j in t && Hits(j.pattern, h) ==> j.prio <= k.prio
  }

  ghost predicate Misses(t: Rules, h: Header) {
    forall k :: k in t ==> !Hits(k.pattern, h)
  }

  /** Row `i` is the first that matches. */
  ghost predicate IsFirst(t: Table, h: Header, i: int) {
    0 <= i < |t| && Hits(t[i].0.pattern, h) && forall j :: 0 <= j < i ==> !Hits(t[j].0.pattern, h)
  }

  ghost predicate NoRow(t: Table, h: Header) {
    forall i :: 0 <= i < |t| ==> !Hits(t[i].0.pattern, h)
  }

  /** Priorities descend, so no two rows have the same one. */
  predicate Descending(t: Table) {
    forall i, j :: 0 <= i < j < |t| ==> t[i].1 > t[j].1
  }

  /** The rules that a table installs. */
  function RulesOf(t: Table): Rules {
    if t == [] then map[] else RulesOf(t[1..])[KeyOf(t[0]) := t[0].0.action]
  }

  ghost predicate Row(t: Table, k: Key, a: seq<Action>) {
    exists i :: 0 <= i < |t| && KeyOf(t[i]) == k && t[i].0.action == a
  }

  lemma {:induction false} RulesAreRows(t: Table, k: Key, a: seq<Action>)
    requires Descending(t)
    ensures k in RulesOf(t) && RulesOf(t)[k] == a <==> Row(t, k, a)
  {
    if t != [] {
      RulesAreRows(t[1..], k, a);
      if Row(t[1..], k, a) {
        var i :| 0 <= i < |t[1..]| && KeyOf(t[1..][i]) == k && t[1..][i].0.action == a;
        assert t[i + 1] == t[1..][i];
      }
      if Row(t, k, a) {
        var i :| 0 <= i < |t| && KeyOf(t[i]) == k && t[i].0.action == a;
        if i > 0 { assert t[1..][i - 1] == t[i]; }
      }
    }
  }

  /** `install_flows_for`: priorities count down from 65535. */
  function Prioritize(flows: seq<Flow>, pri: int): Table
    decreases |flows|
  {
    if flows == [] then [] else [(flows[0], pri)] + Prioritize(flows[1..], pri - 1)
  }

  const MAX_PRIORITY: int := 65535

  lemma {:induction false} PrioritizeRows(flows: seq<Flow>, pri: int)
    ensures var t := Prioritize(flows, pri);
            && |t| == |flows| && Descending(t)
            && forall i :: 0 <= i < |t| ==> t[i] == (flows[i], pri - i)
    decreases |flows|
  {
    if flows != [] {
      PrioritizeRows(flows[1..], pri - 1);
      var t, r := Prioritize(flows, pri), Prioritize(flows[1..], pri - 1);
      forall i | 0 <= i < |t| ensures t[i] == (flows[i], pri - i) {
        if i > 0 { assert t[i] == r[i - 1]; }
      }
    }
  }
}
