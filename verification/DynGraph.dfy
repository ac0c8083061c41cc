/** The push dataflow graph: a node holds a value, and recomputes it from its
    producers when one of them tells it to. */
module DynGraph {

  import opened Wrappers

  class Node {
    var now: int
    var toList: seq<Node>
    var fromList: seq<Node>
    /** How the values of the producers combine; none for a source. */
    const f: Option<seq<int> -> int>

    constructor Create(init: int, f: seq<int> -> int)
      ensures now == init && toList == [] && fromList == [] && this.f == Some(f)
    {
      now, toList, fromList := init, [], [];
      this.f := Some(f);
    }

    constructor CreateSource(init: int)
      ensures now == init && toList == [] && fromList == [] && f == None
    {
      now, toList, fromList := init, [], [];
      f := None;
    }
  }

  /** The wiring of a graph, with a rank that rises along the edges. */
  datatype Wiring = Wiring(nodes: set<Node>, to: map<Node, seq<Node>>, from: map<Node, seq<Node>>,
                           rank: map<Node, nat>, top: nat)

  /** Edges are known at both ends, and sources have no producers. */
  ghost predicate NodeOk(g: Wiring, n: Node) {
    && n in g.to && n in g.from && n in g.rank && g.rank[n] <= g.top
    && (forall m :: m in g.to[n] ==>
       m in g.nodes && m in g.from && n in g.from[m] && m in g.rank && g.rank[n] < g.rank[m])
    && (forall m :: m in g.from[n] ==> m in g.nodes && m in g.to && n in g.to[m])
    && (g.from[n] != [] ==> n.f.Some?)
  }

  ghost predicate Acyclic(g: Wiring) {
    && g.to.Keys == g.nodes && g.from.Keys == g.nodes && g.rank.Keys == g.nodes
    && forall n {:trigger NodeOk(g, n)} :: n in g.nodes ==> NodeOk(g, n)
  }

  ghost predicate Wired(g: Wiring)
    reads g.nodes
  {
    forall n :: n in g.nodes ==> n in g.to && n in g.from && n.toList == g.to[n] && n.fromList == g.from[n]
  }

  type Vals = map<Node, int>

  ghost function Now(g: Wiring): Vals
    reads g.nodes
  {
    map n | n in g.nodes :: n.now
  }

  ghost function Inputs(vals: Vals, ns: seq<Node>): seq<int>
    requires forall n :: n in ns ==> n in vals
  {
    seq(|ns|, i requires 0 <= i < |ns| => vals[ns[i]])
  }

  /** The value of the node is its function of the values of its producers. */
  ghost predicate UpToDate(g: Wiring, vals: Vals, n: Node)
    requires n in g.from && n in vals && forall m :: m in g.from[n] ==> m in vals
  {
    n.f.Some? ==> vals[n] == n.f.value(Inputs(vals, g.from[n]))
  }

  ghost predicate Fine(g: Wiring, vals: Vals, n: Node)
    requires Acyclic(g) && vals.Keys == g.nodes && n in g.nodes
  {
    assert NodeOk(g, n);
    UpToDate(g, vals, n)
  }

  ghost predicate ReachIn(g: Wiring, k: nat, n: Node, m: Node) {
    if k == 0 then n == m else n in g.to && exists c :: c in g.to[n] && ReachIn(g, k - 1, c, m)
  }

  /** `m` is `n` or downstream of it. */
  ghost predicate Reach(g: Wiring, n: Node, m: Node) {
    exists k: nat :: ReachIn(g, k, n, m)
  }

  ghost predicate Downstream(g: Wiring, n: Node, m: Node) {
    n in g.to && exists c :: c in g.to[n] && Reach(g, c, m)
  }

  lemma {:induction false} ReachRank(g: Wiring, k: nat, n: Node, m: Node)
    requires Acyclic(g) && n in g.nodes && ReachIn(g, k, n, m)
    ensures m in g.nodes && g.rank[n] + k <= g.rank[m]
  {
    assert NodeOk(g, n);
    if k > 0 {
      var c :| c in g.to[n] && ReachIn(g, k - 1, c, m);
      ReachRank(g, k - 1, c, m);
    }
  }

  lemma {:induction false} ReachOn(g: Wiring, k: nat, n: Node, m: Node, x: Node)
    requires ReachIn(g, k, n, m) && m in g.to && x in g.to[m]
    ensures ReachIn(g, k + 1, n, x)
  {
    if k == 0 {
      assert ReachIn(g, 0, x, x);
    } else {
      var c :| c in g.to[n] && ReachIn(g, k - 1, c, m);
      ReachOn(g, k - 1, c, m, x);
    }
  }

  lemma ReachCases(g: Wiring, n: Node, m: Node)
    ensures Reach(g, n, m) <==> n == m || Downstream(g, n, m)
  {
    if Reach(g, n, m) {
      var k: nat :| ReachIn(g, k, n, m);
      if k > 0 {
        var c :| c in g.to[n] && ReachIn(g, k - 1, c, m);
        assert Reach(g, c, m);
      }
    }
    assert ReachIn(g, 0, n, n);
    if Downstream(g, n, m) {
      var c :| c in g.to[n] && Reach(g, c, m);
      var k: nat :| ReachIn(g, k, c, m);
      assert ReachIn(g, k + 1, n, m);
    }
  }

  lemma ReachStep(g: Wiring, n: Node, m: Node, x: Node)
    requires Reach(g, n, m) && m in g.to && x in g.to[m]
    ensures Reach(g, n, x)
  {
    var k: nat :| ReachIn(g, k, n, m);
    ReachOn(g, k, n, m, x);
  }

  /** Nothing is downstream of itself, nor are its producers. */
  lemma NotUpstream(g: Wiring, n: Node, m: Node)
    requires Acyclic(g) && n in g.nodes && (m == n || m in g.from[n])
    ensures !Downstream(g, n, m)
  {
    assert NodeOk(g, n);
    assert NodeOk(g, m);
    if Downstream(g, n, m) {
      var c :| c in g.to[n] && Reach(g, c, m);
      var k: nat :| ReachIn(g, k, c, m);
      ReachRank(g, k, c, m);
    }
  }

  lemma Producers(g: Wiring, n: Node)
    requires Acyclic(g) && n in g.nodes
    ensures NodeOk(g, n) && g.nodes == g.to.Keys && n !in g.from[n]
  {
    assert NodeOk(g, n);
  }

  lemma Consumers(g: Wiring, n: Node)
    requires Acyclic(g) && n in g.nodes
    ensures NodeOk(g, n) && forall m :: m in g.to[n] ==> m.f.Some? && g.rank[m] <= g.top
  {
    assert NodeOk(g, n);
    forall m | m in g.to[n] ensures m.f.Some? && g.rank[m] <= g.top {
      assert NodeOk(g, m);
    }
  }

  /** What a change at `c` does: everything reached is up to date, and nothing
      else has changed. */
  ghost predicate Pushed(g: Wiring, was: Vals, vals: Vals, reached: iset<Node>)
    requires Acyclic(g) && was.Keys == g.nodes && vals.Keys == g.nodes
  {
    && (forall m :: m in g.nodes && m in reached ==> Fine(g, vals, m))
    && (forall m :: m in g.nodes && m !in reached ==> vals[m] == was[m])
  }

  ghost function FromNode(g: Wiring, n: Node): iset<Node> {
    iset m | m in g.nodes && Reach(g, n, m)
  }

  ghost function BelowNode(g: Wiring, n: Node): iset<Node> {
    iset m | m in g.nodes && Downstream(g, n, m)
  }

  /** Downstream by one of the first `i` consumers. */
  ghost function FromConsumers(g: Wiring, cs: seq<Node>, i: nat): iset<Node>
    requires i <= |cs|
  {
    iset m, j | 0 <= j < i && m in FromNode(g, cs[j]) :: m
  }

  lemma SameInputs(vals: Vals, vals': Vals, ns: seq<Node>)
    requires forall m :: m in ns ==> m in vals && m in vals' && vals[m] == vals'[m]
    ensures Inputs(vals, ns) == Inputs(vals', ns)
  {
  }

  /** One consumer after the others: what is reached from an earlier one only
      stays up to date, since none of its producers has changed. */
  lemma PushedNext(g: Wiring, was: Vals, vals: Vals, vals': Vals, cs: seq<Node>, i: nat)
    requires Acyclic(g) && was.Keys == g.nodes && vals.Keys == g.nodes && vals'.Keys == g.nodes && i < |cs|
    requires Pushed(g, was, vals, FromConsumers(g, cs, i)) && Pushed(g, vals, vals', FromNode(g, cs[i]))
    ensures Pushed(g, was, vals', FromConsumers(g, cs, i + 1))
  {
    hide Reach, Acyclic, Inputs;
    forall m | m in g.nodes && m in FromConsumers(g, cs, i + 1) ensures Fine(g, vals', m) {
      if m !in FromNode(g, cs[i]) {
        Producers(g, m);
        assert m in FromConsumers(g, cs, i);
        assert Fine(g, vals, m);
        forall y | y in g.from[m] ensures vals'[y] == vals[y] {
          if Reach(g, cs[i], y) { ReachStep(g, cs[i], y, m); }
        }
        SameInputs(vals, vals', g.from[m]);
      }
    }
    forall m | m in g.nodes && m !in FromConsumers(g, cs, i + 1) ensures vals'[m] == was[m] {
      assert m !in FromConsumers(g, cs, i) && m !in FromNode(g, cs[i]);
    }
  }

  lemma AllConsumers(g: Wiring, n: Node)
    requires Acyclic(g) && n in g.nodes
    ensures FromConsumers(g, g.to[n], |g.to[n]|) == BelowNode(g, n)
    ensures FromConsumers(g, g.to[n], 0) == iset{}
  {
    hide Reach;
    var cs := g.to[n];
    forall m | m in BelowNode(g, n) ensures m in FromConsumers(g, cs, |cs|) {
      var c :| c in g.to[n] && Reach(g, c, m);
      var j :| 0 <= j < |cs| && cs[j] == c;
      assert m in FromNode(g, cs[j]);
    }
  }

  /** The value that a node receives stays: its producers are not downstream. */
  lemma PushedNode(g: Wiring, was: Vals, mid: Vals, vals: Vals, n: Node)
    requires Acyclic(g) && was.Keys == g.nodes && vals.Keys == g.nodes && n in g.nodes && n.f.Some?
    requires (n in g.from && forall m :: m in g.from[n] ==> m in was) &&
             mid == was[n := n.f.value(Inputs(was, g.from[n]))]
    requires Pushed(g, mid, vals, BelowNode(g, n))
    ensures Pushed(g, was, vals, FromNode(g, n))
  {
    hide Reach, Downstream, Acyclic, Inputs;
    forall m ensures Reach(g, n, m) <==> n == m || Downstream(g, n, m) { ReachCases(g, n, m); }
    NotUpstream(g, n, n);
    Producers(g, n);
    forall y | y in g.from[n] ensures vals[y] == was[y] {
      NotUpstream(g, n, y);
    }
    SameInputs(was, vals, g.from[n]);
  }

  // The methods

  /** What the producers have now. */
  function Collect(ns: seq<Node>): (r: seq<int>)
    reads ns
  {
    seq(|ns|, i requires 0 <= i < |ns| reads ns => ns[i].now)
  }

  lemma CollectInputs(g: Wiring, n: Node)
    requires Acyclic(g) && Wired(g) && n in g.nodes
    ensures NodeOk(g, n) && Collect(n.fromList) == Inputs(Now(g), g.from[n])
  {
    assert NodeOk(g, n);
  }

  /** `receive`: recomputes a node and tells its consumers. */
  method Receive(n: Node, ghost g: Wiring)
    requires Acyclic(g) && Wired(g) && n in g.nodes && n.f.Some?
    modifies g.nodes
    ensures Wired(g) && Pushed(g, old(Now(g)), Now(g), FromNode(g, n))
    decreases g.top - g.rank[n], 1
  {
    hide Pushed, FromNode, BelowNode, Inputs, Collect, Acyclic;
    ghost var was := Now(g);
    CollectInputs(g, n);
    Producers(g, n);
    n.now := n.f.value(Collect(n.fromList));
    ghost var mid := Now(g);
    assert mid == was[n := n.now];
    Propagate(n, g);
    PushedNode(g, was, mid, Now(g), n);
  }

  /** `propagate`: tells all consumers, one after the other. */
  method Propagate(n: Node, ghost g: Wiring)
    requires Acyclic(g) && Wired(g) && n in g.nodes
    modifies g.nodes
    ensures Wired(g) && Pushed(g, old(Now(g)), Now(g), BelowNode(g, n))
    decreases g.top - g.rank[n], 0
  {
    hide Pushed, FromNode, BelowNode, FromConsumers, Acyclic;
    ghost var was := Now(g);
    var consumers := n.toList;
    Producers(g, n);
    Consumers(g, n);
    AllConsumers(g, n);
    PushedNone(g, was);
    var i := 0;
    while i < |consumers|
      invariant 0 <= i <= |consumers| && Wired(g) && consumers == g.to[n]
      invariant Pushed(g, was, Now(g), FromConsumers(g, consumers, i))
    {
      ghost var vals := Now(g);
      assert consumers[i] in g.to[n];
      Receive(consumers[i], g);
      PushedNext(g, was, vals, Now(g), consumers, i);
      i := i + 1;
    }
  }

  lemma PushedNone(g: Wiring, was: Vals)
    requires Acyclic(g) && was.Keys == g.nodes
    ensures Pushed(g, was, was, iset{})
  {
  }

  /** `push`: every node downstream of the pushed one ends up to date with all of
      its producers, and nothing else changes but the node itself. */
  method Push(x: int, n: Node, ghost g: Wiring)
    requires Acyclic(g) && Wired(g) && n in g.nodes
    modifies g.nodes
    ensures Wired(g) && n.now == x
    ensures forall m :: m in g.nodes && Downstream(g, n, m) ==> Fine(g, Now(g), m)
    ensures forall m :: m in g.nodes && m != n && !Downstream(g, n, m) ==> m.now == old(m.now)
  {
    hide FromNode, Downstream, Acyclic, UpToDate;
    NotUpstream(g, n, n);
    ghost var was := Now(g);
    n.now := x;
    ghost var mid := Now(g);
    Propagate(n, g);
    forall m | m in g.nodes && m != n && !Downstream(g, n, m) ensures m.now == was[m] {
      assert Now(g)[m] == mid[m];
    }
    assert Now(g)[n] == mid[n];
  }

  /** A graph that is up to date stays so, except at a derived node that was
      pushed itself. */
  lemma PushKeepsUpToDate(g: Wiring, was: Vals, vals: Vals, n: Node)
    requires Acyclic(g) && was.Keys == g.nodes && vals.Keys == g.nodes && n in g.nodes
    requires forall m :: m in g.nodes && m != n ==> Fine(g, was, m)
    requires forall m :: m in g.nodes && Downstream(g, n, m) ==> Fine(g, vals, m)
    requires forall m :: m in g.nodes && m != n && !Downstream(g, n, m) ==> vals[m] == was[m]
    ensures forall m :: m in g.nodes && m != n ==> Fine(g, vals, m)
  {
    hide Reach, Acyclic, Inputs;
    forall m | m in g.nodes && m != n ensures Fine(g, vals, m) {
      if !Downstream(g, n, m) {
        Producers(g, m);
        ReachItself(g, m);
        forall y | y in g.from[m] ensures vals[y] == was[y] {
          assert m in g.to[y] && y != n;
          if Downstream(g, n, y) {
            var c :| c in g.to[n] && Reach(g, c, y);
            ReachStep(g, c, y, m);
          }
        }
        SameInputs(was, vals, g.from[m]);
        assert Fine(g, was, m);
      }
    }
  }

  lemma ReachItself(g: Wiring, m: Node)
    ensures Reach(g, m, m)
  {
    assert ReachIn(g, 0, m, m);
  }

  /** The wiring with one more edge. */
  ghost function WithEdge(g: Wiring, src: Node, dst: Node): Wiring
    requires src in g.to && dst in g.from
  {
    g.(to := g.to[src := [dst] + g.to[src]], from := g.from[dst := [src] + g.from[dst]])
  }

  /** Reaching does not depend on the ranks, and more edges reach more. */
  lemma {:induction false} ReachMore(g: Wiring, h: Wiring, k: nat, n: Node, m: Node)
    requires ReachIn(g, k, n, m) && forall x, y :: x in g.to && y in g.to[x] ==> x in h.to && y in h.to[x]
    ensures ReachIn(h, k, n, m)
  {
    if k > 0 {
      var c :| c in g.to[n] && ReachIn(g, k - 1, c, m);
      ReachMore(g, h, k - 1, c, m);
    }
  }

  /** No ranks fit if the edge closes a cycle. */
  lemma CycleHasNoRank(g: Wiring, src: Node, dst: Node, rank: map<Node, nat>, top: nat)
    requires Acyclic(g) && src in g.nodes && dst in g.nodes
    requires Acyclic(WithEdge(g.(rank := rank, top := top), src, dst))
    ensures !Reach(g, dst, src)
  {
    var h := WithEdge(g.(rank := rank, top := top), src, dst);
    assert NodeOk(h, src) && dst in h.to[src];
    if Reach(g, dst, src) {
      var k: nat :| ReachIn(g, k, dst, src);
      ReachMore(g, h, k, dst, src);
      ReachRank(h, k, dst, src);
    }
  }

  /** Otherwise all that `dst` reaches can be ranked above everything else. */
  ghost function Raised(g: Wiring, dst: Node): Wiring
    requires Acyclic(g)
  {
    var rank := map n | n in g.nodes :: if Reach(g, dst, n) then g.rank[n] + g.top + 1 else g.rank[n];
    g.(rank := rank, top := 2 * g.top + 1)
  }

  lemma RaisedAcyclic(g: Wiring, dst: Node)
    requires Acyclic(g)
    ensures Acyclic(Raised(g, dst))
  {
    var h := Raised(g, dst);
    forall n | n in h.nodes ensures NodeOk(h, n) {
      assert NodeOk(g, n);
      hide Reach;
      forall m | m in g.to[n] && Reach(g, dst, n) ensures Reach(g, dst, m) { ReachStep(g, dst, n, m); }
    }
  }

  lemma WithEdgeAcyclic(g: Wiring, src: Node, dst: Node)
    requires Acyclic(g) && src in g.nodes && dst in g.nodes && dst.f.Some? && g.rank[src] < g.rank[dst]
    ensures Acyclic(WithEdge(g, src, dst))
  {
    var h := WithEdge(g, src, dst);
    assert h.to.Keys == g.nodes && h.from.Keys == g.nodes;
    forall n | n in h.nodes ensures NodeOk(h, n) {
      assert NodeOk(g, n);
    }
  }

  lemma RaisedFits(g: Wiring, src: Node, dst: Node)
    requires Acyclic(g) && src in g.nodes && dst in g.nodes && dst.f.Some? && !Reach(g, dst, src)
    ensures Acyclic(WithEdge(Raised(g, dst), src, dst))
  {
    ReachItself(g, dst);
    RaisedAcyclic(g, dst);
    assert NodeOk(g, src);
    hide Acyclic, Reach, NodeOk;
    WithEdgeAcyclic(Raised(g, dst), src, dst);
  }

  /** An edge can be added to an acyclic graph if and only if its target does not
      reach its source. */
  lemma AttachAcyclicIff(g: Wiring, src: Node, dst: Node)
    requires Acyclic(g) && src in g.nodes && dst in g.nodes && dst.f.Some?
    ensures (exists rank: map<Node, nat>, top: nat :: Acyclic(WithEdge(g.(rank := rank, top := top), src, dst)))
            <==> !Reach(g, dst, src)
  {
    hide Acyclic, Reach;
    Members(g);
    if rank: map<Node, nat>, top: nat :| Acyclic(WithEdge(g.(rank := rank, top := top), src, dst)) {
      CycleHasNoRank(g, src, dst, rank, top);
    }
    if !Reach(g, dst, src) {
      RaisedFits(g, src, dst);
      var h := Raised(g, dst);
      assert h == g.(rank := h.rank, top := h.top);
    }
  }

  lemma Members(g: Wiring)
    requires Acyclic(g)
    ensures g.to.Keys == g.nodes && g.from.Keys == g.nodes
  {
  }

  /** `attach`: adds the edge at both ends, whether or not it closes a cycle. */
  method Attach(src: Node, dst: Node, ghost g: Wiring)
    requires Acyclic(g) && Wired(g) && src in g.nodes && dst in g.nodes
    modifies src`toList, dst`fromList
    ensures Wired(WithEdge(g, src, dst))
    ensures dst.f.Some? && !Reach(g, dst, src) ==> Acyclic(WithEdge(Raised(g, dst), src, dst))
  {
    hide Acyclic, NodeOk, Reach;
    Members(g);
    if dst.f.Some? && !Reach(g, dst, src) { RaisedFits(g, src, dst); }
    src.toList := [dst] + src.toList;
    dst.fromList := [src] + dst.fromList;
  }
}
