/** Choosing one move at each inconsistent vertex of the pruned graph. */
module FabricSelection {

  import opened Wrappers
  import opened Graphs
  import opened ProductGraph
  import opened Pruning

  /** The step of the fold in `minimize`. */
  function Better<T>(best: Option<(T, int)>, x: T, obj: T -> Option<int>): Option<(T, int)> {
    var v := obj(x);
    if v.None? then best
    else if best.None? || v.value < best.value.1 then Some((x, v.value))
    else best
  }

  function Fold<T>(best: Option<(T, int)>, xs: seq<T>, obj: T -> Option<int>): Option<(T, int)>
    decreases |xs|
  {
    if xs == [] then best else Fold(Better(best, xs[0], obj), xs[1..], obj)
  }

  function Minimize<T>(xs: seq<T>, obj: T -> Option<int>): Option<(T, int)> {
    Fold(None, xs, obj)
  }

  /** `r` is the first of the cheapest elements; it is the old best one, unless
      some element is cheaper. */
  lemma {:induction false} FoldLeast<T>(best: Option<(T, int)>, xs: seq<T>, obj: T -> Option<int>)
    ensures var r := Fold(best, xs, obj);
            && (r.None? <==> best.None? && forall x :: x in xs ==> obj(x).None?)
            && (r.Some? ==> r == best || (r.value.0 in xs && obj(r.value.0) == Some(r.value.1)))
            && (r.Some? && best.Some? ==> r.value.1 <= best.value.1 && (r.value.1 == best.value.1 ==> r == best))
            && (r.Some? ==> forall x :: x in xs && obj(x).Some? ==> r.value.1 <= obj(x).value)
    decreases |xs|
  {
    if xs != [] {
      FoldLeast(Better(best, xs[0], obj), xs[1..], obj);
      assert xs == [xs[0]] + xs[1..];
    }
  }

  /** `minimize` fails exactly when nothing has a cost, and else finds a cheapest
      element. */
  lemma MinimizeLeast<T>(xs: seq<T>, obj: T -> Option<int>)
    ensures var r := Minimize(xs, obj);
            && (r.None? <==> forall x :: x in xs ==> obj(x).None?)
            && (r.Some? ==> r.value.0 in xs && obj(r.value.0) == Some(r.value.1))
            && (r.Some? ==> forall x :: x in xs && obj(x).Some? ==> r.value.1 <= obj(x).value)
  {
    FoldLeast(None, xs, obj);
  }

  type Cost = (Vertex, Vertex) -> Option<int>

  predicate Cheapest(g: Net, cost: Cost, v: Vertex, w: Vertex) {
    && w in Succ(g, v) && cost(v, w).Some?
    && forall x :: x in Succ(g, v) && cost(v, x).Some? ==> cost(v, w).value <= cost(v, x).value
  }

  /** `f` has all moves of a consistent vertex and one cheapest move of an
      inconsistent one. */
  ghost predicate Chosen(g: Net, cost: Cost, f: Net, v: Vertex) {
    if Inconsistent(v) then exists w :: Succ(f, v) == {w} && Cheapest(g, cost, v, w)
    else Succ(f, v) == Succ(g, v)
  }

  /** An inconsistent vertex at which no move has a cost. */
  ghost predicate NoChoice(g: Net, cost: Cost, v: Vertex) {
    Inconsistent(v) && forall w :: w in Succ(g, v) ==> cost(v, w).None?
  }

  /** `r` extends `f` by vertices whose moves are chosen, except at `open`. */
  ghost predicate Grows(g: Net, cost: Cost, f: Net, r: Net, open: set<Vertex>) {
    && f.verts <= r.verts && WellFormed(r)
    && (forall x :: x in f.verts ==> Succ(r, x) == Succ(f, x))
    && (forall x :: x in r.verts && x !in f.verts && x !in open ==> Chosen(g, cost, r, x))
  }

  /** `select'` after its recursive call. */
  lemma GrowsEdge(g: Net, cost: Cost, f: Net, f1: Net, f2: Net, v: Vertex, w: Vertex)
    requires Grows(g, cost, f, f1, {v}) && Grows(g, cost, f1, f2, {}) && v in f1.verts && v !in f.verts && w in f2.verts
    ensures Grows(g, cost, f, AddEdge(f2, v, w), {v})
    ensures Succ(AddEdge(f2, v, w), v) == Succ(f1, v) + {w}
  {
    hide Cheapest, Inconsistent;
    var r := AddEdge(f2, v, w);
    assert r.verts == f2.verts;
    forall x ensures Succ(r, x) == if x == v then Succ(f2, x) + {w} else Succ(f2, x) {
    }
  }

  lemma GrowsVertex(g: Net, cost: Cost, f: Net, v: Vertex)
    requires WellFormed(f) && v !in f.verts
    ensures Grows(g, cost, f, AddVertex(f, v), {v}) && Succ(AddVertex(f, v), v) == {}
  {
    hide Chosen;
    forall w ensures (v, w) !in f.edges {
      var e := (v, w);
      assert e in f.edges ==> e.0 in f.verts;
    }
  }

  lemma GrowsClose(g: Net, cost: Cost, f: Net, r: Net, v: Vertex)
    requires Grows(g, cost, f, r, {v}) && Chosen(g, cost, r, v)
    ensures Grows(g, cost, f, r, {})
  {
    hide Chosen;
  }

  lemma GrowsTrans(g: Net, cost: Cost, f: Net, r: Net, r': Net)
    requires Grows(g, cost, f, r, {}) && Grows(g, cost, r, r', {})
    ensures Grows(g, cost, f, r', {})
  {
    hide Cheapest, Inconsistent;
  }

  /** Adds `v` and everything it needs; fails where there is no choice.  A vertex
      that is not in `g` has no moves there, and is added all the same. */
  method Select(g: Net, cost: Cost, v: Vertex, f: Net) returns (ok: bool, r: Net)
    requires WellFormed(g) && WellFormed(f)
    ensures !ok ==> exists x :: (x == v || x in g.verts) && NoChoice(g, cost, x)
    ensures ok ==> Grows(g, cost, f, r, {}) && v in r.verts && r.verts <= f.verts + g.verts + {v}
    decreases g.verts - f.verts
  {
    hide Grows, WellFormed, Cheapest, Inconsistent;
    if v in f.verts {
      GrowsRefl(g, cost, f);
      return true, f;
    }
    r := AddVertex(f, v);
    GrowsVertex(g, cost, f, v);
    if Inconsistent(v) {
      var best := ChooseMove(g, cost, v);
      if best.None? {
        return false, r;
      }
      ghost var f1 := r;
      GrowsFacts(g, cost, f, r, {v});
      CheapestIn(g, cost, v, best.value);
      ok, r := Select(g, cost, best.value, r);
      if !ok {
        return;
      }
      GrowsEdge(g, cost, f, f1, r, v, best.value);
      r := AddEdge(r, v, best.value);
      assert Succ(r, v) == {best.value};
    } else {
      var todo := Succ(g, v);
      while todo != {}
        invariant todo <= Succ(g, v) && v in r.verts && r.verts <= f.verts + g.verts + {v} && v !in f.verts
        invariant Grows(g, cost, f, r, {v}) && Succ(r, v) == Succ(g, v) - todo
      {
        var w := Choose(todo);
        ghost var f1 := r;
        GrowsFacts(g, cost, f, r, {v});
        SuccIn(g, v, w);
        ok, r := Select(g, cost, w, r);
        if !ok {
          return;
        }
        GrowsEdge(g, cost, f, f1, r, v, w);
        r := AddEdge(r, v, w);
        todo := todo - {w};
      }
      ok := true;
    }
    GrowsClose(g, cost, f, r, v);
    ok := true;
  }

  /** A cheapest move, if one has a cost. */
  method ChooseMove(g: Net, cost: Cost, v: Vertex) returns (w: Option<Vertex>)
    requires Inconsistent(v)
    ensures w.None? ==> NoChoice(g, cost, v)
    ensures w.Some? ==> Cheapest(g, cost, v, w.value)
  {
    var sucs := ListOf(Succ(g, v));
    var obj := x => cost(v, x);
    MinimizeLeast(sucs, obj);
    var best := Minimize(sucs, obj);
    w := if best.None? then None else Some(best.value.0);
  }

  lemma CheapestIn(g: Net, cost: Cost, v: Vertex, w: Vertex)
    requires Cheapest(g, cost, v, w) && WellFormed(g)
    ensures v in g.verts && w in g.verts
  {
    assert (v, w) in g.edges;
  }

  lemma SuccIn(g: Net, v: Vertex, w: Vertex)
    requires w in Succ(g, v) && WellFormed(g)
    ensures v in g.verts && w in g.verts
  {
    assert (v, w) in g.edges;
  }

  lemma GrowsFacts(g: Net, cost: Cost, f: Net, r: Net, open: set<Vertex>)
    requires Grows(g, cost, f, r, open)
    ensures WellFormed(r) && f.verts <= r.verts
  {
    hide Chosen;
  }

  lemma GrowsRefl(g: Net, cost: Cost, f: Net)
    requires WellFormed(f)
    ensures Grows(g, cost, f, f, {})
  {
    hide Chosen;
  }

  /** `fabric_graph_of_pruned` */
  method FabricGraph(g: Net, ing: seq<Vertex>, cost: Cost) returns (ok: bool, f: Net)
    requires WellFormed(g)
    ensures !ok ==> exists x :: (x in ing || x in g.verts) && NoChoice(g, cost, x)
    ensures ok ==> WellFormed(f) && forall v :: v in ing ==> v in f.verts
    ensures ok ==> forall v :: v in f.verts ==> v in ing || v in g.verts
    ensures ok ==> forall v :: v in f.verts ==> Chosen(g, cost, f, v)
  {
    hide Grows, Chosen;
    f := Empty();
    ghost var none: Net := Empty();
    GrowsRefl(g, cost, f);
    var i := |ing|;
    while i > 0
      invariant 0 <= i <= |ing| && Grows(g, cost, none, f, {})
      invariant forall j :: i <= j < |ing| ==> ing[j] in f.verts
      invariant forall v :: v in f.verts ==> v in ing || v in g.verts
    {
      i := i - 1;
      ghost var f1 := f;
      GrowsFacts(g, cost, none, f, {});
      ok, f := Select(g, cost, ing[i], f);
      if !ok {
        return;
      }
      GrowsFacts(g, cost, f1, f, {});
      GrowsTrans(g, cost, none, f1, f);
    }
    ok := true;
    GrowsFacts(g, cost, none, f, {});
    GrowsAll(g, cost, f);
  }

  lemma GrowsAll(g: Net, cost: Cost, f: Net)
    requires Grows(g, cost, Empty(), f, {})
    ensures forall v :: v in f.verts ==> Chosen(g, cost, f, v)
  {
    hide Chosen;
  }

  // The fabric always restores consistency

  /** The moves of the fabric in `f`. */
  ghost function Moves(f: Net): Fabric {
    map v | v in f.verts && Inconsistent(v) && Succ(f, v) != {} :: Pick(Succ(f, v))
  }

  /** Whatever the program does, from a vertex that pruning kept the fabric always
      has a move, on the product graph `p` that was pruned to `g`. */
  lemma FabricNeverStuck(p: Net, g: Net, cost: Cost, f: Net, v: Vertex)
    requires WellFormed(p) && g == Restrict(p, LargestSafe(p)) && g.verts == LargestSafe(p)
    requires WellFormed(f) && (forall x :: x in f.verts ==> Chosen(g, cost, f, x)) && v in f.verts * g.verts
    ensures NeverStuck(p, Moves(f), v)
  {
    hide LargestSafe, Inconsistent, Cheapest, Play, Chosen;
    LargestSafeIsSafe(p);
    var s := f.verts * g.verts;
    forall u, x | u in s && Move(p, Moves(f), u, x) ensures x in s {
      FabricStays(p, g, cost, f, u, x);
    }
    forall w | Played(p, Moves(f), v, w) && Inconsistent(w) ensures exists x :: Move(p, Moves(f), w, x) {
      var n: nat :| Play(p, Moves(f), v, n, w);
      PlayStays(p, Moves(f), v, n, w, s);
      FabricMoves(p, g, cost, f, w);
    }
  }

  lemma PrunedSucc(p: Net, g: Net, v: Vertex)
    requires WellFormed(p) && g == Restrict(p, LargestSafe(p)) && v in LargestSafe(p)
    ensures Succ(g, v) == Succ(p, v) * LargestSafe(p)
    ensures !Inconsistent(v) ==> Succ(g, v) == Succ(p, v)
  {
    LargestSafeIsSafe(p);
    hide LargestSafe, Inconsistent;
  }

  lemma FabricMoves(p: Net, g: Net, cost: Cost, f: Net, w: Vertex)
    requires WellFormed(p) && g == Restrict(p, LargestSafe(p)) && g.verts == LargestSafe(p)
    requires w in f.verts * g.verts && Chosen(g, cost, f, w) && Inconsistent(w)
    ensures w in Moves(f) && Succ(f, w) == {Moves(f)[w]} && Move(p, Moves(f), w, Moves(f)[w])
  {
    hide LargestSafe, Inconsistent;
    PrunedSucc(p, g, w);
    var x :| Succ(f, w) == {x} && Cheapest(g, cost, w, x);
    assert x in Succ(f, w);
    assert Pick({x}) == x;
  }

  lemma FabricStays(p: Net, g: Net, cost: Cost, f: Net, u: Vertex, x: Vertex)
    requires WellFormed(p) && g == Restrict(p, LargestSafe(p)) && g.verts == LargestSafe(p)
    requires WellFormed(f) && u in f.verts * g.verts && Chosen(g, cost, f, u) && Move(p, Moves(f), u, x)
    ensures x in f.verts * g.verts
  {
    hide LargestSafe, Inconsistent, Moves;
    PrunedSucc(p, g, u);
    if Inconsistent(u) {
      FabricMoves(p, g, cost, f, u);
    }
    assert x in Succ(f, u) && x in Succ(g, u);
    assert (u, x) in f.edges && (u, x) in g.edges;
  }

  /** Of the vertices of a fabric graph, the fabric gets stuck in some play exactly
      from those that pruning removed. */
  lemma StuckIffPruned(p: Net, g: Net, cost: Cost, f: Net, v: Vertex)
    requires WellFormed(p) && g == Restrict(p, LargestSafe(p)) && g.verts == LargestSafe(p)
    requires WellFormed(f) && (forall x :: x in f.verts ==> Chosen(g, cost, f, x)) && v in f.verts * p.verts
    ensures NeverStuck(p, Moves(f), v) <==> v in LargestSafe(p)
  {
    hide *;
    if v in LargestSafe(p) {
      FabricNeverStuck(p, g, cost, f, v);
    }
    KeptIffRepairable(p, v);
  }

  /** From the topologies to a fabric.  It fails only where nothing has a cost: the
      fabric graph holds every ingress vertex, so the membership test on it never
      fails.  The fabric it returns never gets stuck from an ingress vertex if and
      only if pruning kept that vertex; the test that would tell is the one on the
      pruned graph, before the selection. */
  method GenerateFabric(virt: Graph<Node>, ghost phys: Graph<Node>, closure: Graph<Node>,
                        vrel: map<Place, set<Place>>, ving: set<Place>, cost: Cost)
    returns (ok: bool, p: Net, f: Net)
    requires IsClosure(phys, closure)
    ensures var t := Topology(virt, AddLoops(closure), vrel);
            && (forall v :: v in p.verts <==> Reachable(t, Ingress(vrel, ving), v))
            && forall v, w :: (v, w) in p.edges <==> v in p.verts && w in Step(t, v)
    ensures IsProduct(virt, phys, vrel, ving, p)
    ensures ok ==> forall v :: v in f.verts ==> Chosen(Restrict(p, LargestSafe(p)), cost, f, v)
    ensures ok ==> forall v :: v in Ingress(vrel, ving) ==>
                     v in f.verts && (NeverStuck(p, Moves(f), v) <==> v in LargestSafe(p))
    ensures ok ==> ((forall v :: v in Ingress(vrel, ving) ==> NeverStuck(p, Moves(f), v))
                    <==> Ingress(vrel, ving) <= LargestSafe(p))
    ensures !ok ==> exists x :: x in LargestSafe(p) && NoChoice(Restrict(p, LargestSafe(p)), cost, x)
  {
    hide Step, LargestSafe, Restrict, NeverStuck, Chosen, Alternates, NoChoice, Reachable, Moves, WellFormed, Physical,
      IsProduct, Enters;
    var ing;
    ing, p := MakeProductGraph(virt, phys, closure, vrel, ving);
    var g := Prune(p);
    PrunedWellFormed(p);
    var list := ListOf(ing);
    ok, f := FabricGraph(g, list, cost);
    if !ok {
      ghost var x :| (x in list || x in g.verts) && NoChoice(g, cost, x);
      if x in ing { IngressConsistent(vrel, ving, g, cost, x); }
    } else if !(ing <= f.verts) {
      ok := false;
    } else {
      forall v | v in ing ensures NeverStuck(p, Moves(f), v) <==> v in LargestSafe(p) {
        StuckIffPruned(p, g, cost, f, v);
      }
    }
  }

  lemma IngressConsistent(vrel: map<Place, set<Place>>, ving: set<Place>, g: Net, cost: Cost, v: Vertex)
    requires v in Ingress(vrel, ving)
    ensures !NoChoice(g, cost, v)
  {
    hide Physical;
  }

  lemma PrunedWellFormed(p: Net)
    requires WellFormed(p)
    ensures WellFormed(Restrict(p, LargestSafe(p)))
  {
    hide LargestSafe;
  }

  // A pruned ingress vertex

  /** A virtual link from in-port 1 to out-port 2 of switch 1. */
  function Link(): Graph<Node> {
    Graph({InPort(1, 1), OutPort(1, 2)}, {(InPort(1, 1), OutPort(1, 2))})
  }

  /** A physical switch with both ports and nothing between them. */
  function Apart(): Graph<Node> {
    Graph({InPort(1, 1), OutPort(1, 2)}, {})
  }

  function OneToOne(): map<Place, set<Place>> {
    map[(1, 1) := {(1, 1)}, (1, 2) := {(1, 2)}]
  }

  const DEAD_END := ConsistentIn(InPort(1, 1), InPort(1, 1))

  lemma DeadEnd(t: Topology)
    requires t == Topology(Link(), AddLoops(Apart()), OneToOne())
    ensures Ingress(OneToOne(), {(1, 1)}) == {DEAD_END}
    ensures Step(t, DEAD_END) == {InconsistentOut(OutPort(1, 2), InPort(1, 1))}
    ensures Step(t, InconsistentOut(OutPort(1, 2), InPort(1, 1))) == {}
  {
    var l: Place := (1, 1);
    assert Physical(OneToOne(), InPort(1, 1)) == {InPort(1, 1)} by {
      assert l in {l} && InPort(l.0, l.1) == InPort(1, 1);
    }
    assert Succ(t.virt, InPort(1, 1)) == {OutPort(1, 2)};
    var w := OutPort(1, 2);
    assert w in Succ(t.virt, InPort(1, 1)) && w in Physical(OneToOne(), OutPort(1, 2)) by {
      var l2: Place := (1, 2);
      assert l2 in {l2} && OutPort(l2.0, l2.1) == w;
    }
    assert Succ(t.phys, InPort(1, 1)) == {};
  }

  lemma NothingKept(t: Topology, p: Net)
    requires t == Topology(Link(), AddLoops(Apart()), OneToOne())
    requires forall v :: v in p.verts <==> Reachable(t, {DEAD_END}, v)
    requires forall v, w :: (v, w) in p.edges <==> v in p.verts && w in Step(t, v)
    ensures LargestSafe(p) == {} && DEAD_END in p.verts
  {
    DeadEnd(t);
    var b := InconsistentOut(OutPort(1, 2), InPort(1, 1));
    IngReachable(t, {DEAD_END}, DEAD_END);
    hide Step, Reachable;
    forall v | v in p.verts ensures Doomed(p, v) {
      var n: nat :| StepsTo(t, {DEAD_END}, n, v) by { ReachableAfter(t, {DEAD_END}, v); }
      ReachableIn(t, {DEAD_END}, n, v, {DEAD_END, b});
      assert Succ(p, b) == {};
      assert (DEAD_END, b) in p.edges;
    }
  }

  lemma ReachableAfter(t: Topology, ing: set<Vertex>, v: Vertex)
    requires Reachable(t, ing, v)
    ensures exists n: nat :: StepsTo(t, ing, n, v)
  {
    hide StepsTo, Step;
  }

  /** The ingress vertex of this link is pruned, and yet a fabric is returned: one
      that is stuck after the first virtual hop. */
  method PrunedIngress(cost: Cost) returns (ok: bool, p: Net, f: Net)
    ensures ok && DEAD_END in f.verts && !NeverStuck(p, Moves(f), DEAD_END)
  {
    hide Step, Physical, NeverStuck, Moves, NoChoice, LargestSafe, Restrict, Reachable, OneToOne, Ingress, AddLoops;
    NoPaths();
    ok, p, f := GenerateFabric(Link(), Apart(), Apart(), OneToOne(), {(1, 1)}, cost);
    ghost var t := Topology(Link(), AddLoops(Apart()), OneToOne());
    DeadEnd(t);
    NothingKept(t, p);
  }

  lemma NoPaths()
    ensures IsClosure(Apart(), Apart())
  {
  }
}
