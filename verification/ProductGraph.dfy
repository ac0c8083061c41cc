/** The product of the virtual and the physical topology. */
module ProductGraph {

  import opened Wrappers
  import opened Graphs

  /** A port of a switch, on its way in or out. */
  datatype Node = InPort(sw: int, pt: int) | OutPort(sw: int, pt: int)

  /** Virtual and physical location of a packet, and whether they agree. */
  datatype Vertex =
    | ConsistentIn(vv: Node, pv: Node)
    | InconsistentOut(vv: Node, pv: Node)
    | ConsistentOut(vv: Node, pv: Node)
    | InconsistentIn(vv: Node, pv: Node)

  predicate Inconsistent(v: Vertex) {
    v.InconsistentIn? || v.InconsistentOut?
  }

  type Place = (int, int)

  /** The virtual topology, the closure of the physical one, and the physical
      places of each virtual place. */
  datatype Topology = Topology(virt: Graph<Node>, phys: Graph<Node>, vrel: map<Place, set<Place>>)

  /** `get_vrel`: a place that is not listed has no physical places. */
  function Physical(vrel: map<Place, set<Place>>, vv: Node): set<Node> {
    var places := if (vv.sw, vv.pt) in vrel then vrel[(vv.sw, vv.pt)] else {};
    if vv.InPort? then set l | l in places :: InPort(l.0, l.1) else set l | l in places :: OutPort(l.0, l.1)
  }

  /** Where the fabric can take a packet at `pv` that is virtually at `vv`; no
      listed place means that every place will do. */
  function Repairs(t: Topology, vv: Node, pv: Node): set<Node> {
    if Physical(t.vrel, vv) == {} then Succ(t.phys, pv) else Physical(t.vrel, vv) * Succ(t.phys, pv)
  }

  function Step(t: Topology, v: Vertex): set<Vertex> {
    match v
    case ConsistentIn(vv, pv) => set w | w in Succ(t.virt, vv) :: InconsistentOut(w, pv)
    case InconsistentOut(vv, pv) => set w | w in Repairs(t, vv, pv) :: ConsistentOut(vv, w)
    case ConsistentOut(vv, pv) => set w | w in Succ(t.virt, vv) :: InconsistentIn(w, pv)
    case InconsistentIn(vv, pv) => set w | w in Repairs(t, vv, pv) :: ConsistentIn(vv, w)
  }

  // The closure of the physical topology

  ghost predicate PathIn(g: Graph<Node>, n: nat, a: Node, b: Node) {
    if n == 0 then a == b else exists c :: (a, c) in g.edges && PathIn(g, n - 1, c, b)
  }

  /** `c` has an edge wherever `g` has a path of one or more edges. */
  ghost predicate IsClosure(g: Graph<Node>, c: Graph<Node>) {
    c.verts == g.verts && forall a, b :: (a, b) in c.edges <==> exists n: nat :: n > 0 && PathIn(g, n, a, b)
  }

  /** `add_loop`: a packet may be turned back at an out-port. */
  function AddLoops(c: Graph<Node>): Graph<Node> {
    var outs := set v | v in c.verts && v.OutPort?;
    Graph(c.verts + (set v | v in outs :: InPort(v.sw, v.pt)), c.edges + set v | v in outs :: (v, InPort(v.sw, v.pt)))
  }

  // Reachable vertices

  ghost predicate StepsTo(t: Topology, ing: set<Vertex>, n: nat, v: Vertex) {
    if n == 0 then v in ing else exists u :: StepsTo(t, ing, n - 1, u) && v in Step(t, u)
  }

  ghost predicate Reachable(t: Topology, ing: set<Vertex>, v: Vertex) {
    exists n: nat :: StepsTo(t, ing, n, v)
  }

  lemma ReachableStep(t: Topology, ing: set<Vertex>, u: Vertex, v: Vertex)
    requires Reachable(t, ing, u) && v in Step(t, u)
    ensures Reachable(t, ing, v)
  {
    hide Step;
    var n: nat :| StepsTo(t, ing, n, u);
    assert StepsTo(t, ing, n + 1, v);
  }

  lemma {:induction false} ReachableIn(t: Topology, ing: set<Vertex>, n: nat, v: Vertex, s: set<Vertex>)
    requires ing <= s && (forall u :: u in s ==> Step(t, u) <= s) && StepsTo(t, ing, n, v)
    ensures v in s
  {
    hide Step;
    if n > 0 {
      var u :| StepsTo(t, ing, n - 1, u) && v in Step(t, u);
      ReachableIn(t, ing, n - 1, u, s);
    }
  }

  /** All the vertices over the nodes of the two topologies and of `ing`. */
  function Universe(t: Topology, ing: set<Vertex>): set<Vertex> {
    var vs := (set v | v in ing :: v.vv) + set e | e in t.virt.edges :: e.1;
    var ps := (set v | v in ing :: v.pv) + set e | e in t.phys.edges :: e.1;
    (set v, p | v in vs && p in ps :: ConsistentIn(v, p)) + (set v, p | v in vs && p in ps :: InconsistentOut(v, p))
    + (set v, p | v in vs && p in ps :: ConsistentOut(v, p)) + (set v, p | v in vs && p in ps :: InconsistentIn(v, p))
  }

  lemma InUniverse(t: Topology, ing: set<Vertex>, v: Vertex)
    ensures v in Universe(t, ing) <==>
              && ((exists u :: u in ing && v.vv == u.vv) || exists e :: e in t.virt.edges && v.vv == e.1)
              && ((exists u :: u in ing && v.pv == u.pv) || exists e :: e in t.phys.edges && v.pv == e.1)
  {
    var vs := (set v | v in ing :: v.vv) + set e | e in t.virt.edges :: e.1;
    var ps := (set v | v in ing :: v.pv) + set e | e in t.phys.edges :: e.1;
    assert v.vv in vs <==> (exists u :: u in ing && v.vv == u.vv) || exists e :: e in t.virt.edges && v.vv == e.1;
    assert v.pv in ps <==> (exists u :: u in ing && v.pv == u.pv) || exists e :: e in t.phys.edges && v.pv == e.1;
  }

  lemma UniverseClosed(t: Topology, ing: set<Vertex>, v: Vertex)
    requires v in Universe(t, ing)
    ensures Step(t, v) <= Universe(t, ing)
  {
    InUniverse(t, ing, v);
    hide Universe;
    forall w | w in Step(t, v) ensures w in Universe(t, ing) {
      InUniverse(t, ing, w);
      if Inconsistent(v) {
        assert (v.pv, w.pv) in t.phys.edges && w.vv == v.vv;
      } else {
        assert (v.vv, w.vv) in t.virt.edges && w.pv == v.pv;
      }
    }
  }

  lemma IngInUniverse(t: Topology, ing: set<Vertex>)
    ensures ing <= Universe(t, ing)
  {
    forall v | v in ing ensures v in Universe(t, ing) { InUniverse(t, ing, v); }
  }

  // The worklist

  method ListOf<T(==)>(s: set<T>) returns (r: seq<T>)
    ensures forall x :: x in r <==> x in s
  {
    r := [];
    var todo := s;
    while todo != {}
      invariant todo <= s && forall x :: x in r <==> x in s - todo
    {
      var x := Choose(todo);
      r := r + [x];
      todo := todo - {x};
    }
  }

  /** The loop of `make`.  A vertex that is new goes back on the list together
      with its successors, and is dropped when it comes up again. */
  method Make(t: Topology, ing: set<Vertex>) returns (g: Graph<Vertex>)
    ensures forall v :: v in g.verts <==> Reachable(t, ing, v)
    ensures forall v, w :: (v, w) in g.edges <==> v in g.verts && w in Step(t, v)
    ensures WellFormed(g)
  {
    hide Step, Universe, StepsTo;
    ghost var u := Universe(t, ing);
    IngInUniverse(t, ing);
    var work := ListOf(ing);
    var edges: set<(Vertex, Vertex)> := {};
    var verts: set<Vertex> := {};
    assert forall v :: v in ing ==> Reachable(t, ing, v) by {
      forall v | v in ing ensures Reachable(t, ing, v) { IngReachable(t, ing, v); }
    }
    while work != []
      invariant forall v :: v in work || v in verts ==> v in u && Reachable(t, ing, v)
      invariant forall v :: v in ing ==> v in verts || v in work
      invariant forall v, w :: v in verts && w in Step(t, v) ==> w in verts || w in work
      invariant forall v, w :: (v, w) in edges <==> v in verts && w in Step(t, v)
      decreases u - verts, |work|
    {
      var v := work[0];
      if v in verts {
        assert work == [v] + work[1..];
        work := work[1..];
      } else {
        var sucs := ListOf(Step(t, v));
        UniverseClosed(t, ing, v);
        forall w | w in sucs ensures Reachable(t, ing, w) { ReachableStep(t, ing, v, w); }
        assert v in u - verts;
        verts := verts + {v};
        edges := edges + set w | w in Step(t, v) :: (v, w);
        work := sucs + work;
      }
    }
    g := Graph(verts, edges);
    forall v | Reachable(t, ing, v) ensures v in verts {
      var n: nat :| StepsTo(t, ing, n, v);
      ReachableIn(t, ing, n, v, verts);
    }
  }

  lemma IngReachable(t: Topology, ing: set<Vertex>, v: Vertex)
    requires v in ing
    ensures Reachable(t, ing, v)
  {
    assert StepsTo(t, ing, 0, v);
  }

  /** The consistent vertices at which packets enter. */
  function Ingress(vrel: map<Place, set<Place>>, ving: set<Place>): set<Vertex> {
    set l, pv | l in ving && pv in Physical(vrel, InPort(l.0, l.1)) :: ConsistentIn(InPort(l.0, l.1), pv)
  }

  /** Consistent and inconsistent vertices take turns. */
  ghost predicate Alternates(g: Graph<Vertex>) {
    forall v, w :: (v, w) in g.edges ==> Inconsistent(v) != Inconsistent(w)
  }

  // What the graph is, in terms of the two topologies

  /** Where a physical packet can get: over one or more edges, or by turning back at an
      out-port. */
  ghost predicate Gets(phys: Graph<Node>, a: Node, b: Node) {
    || (exists n: nat :: n > 0 && PathIn(phys, n, a, b))
    || (a in phys.verts && a.OutPort? && b == InPort(a.sw, a.pt))
  }

  function PlaceOf(n: Node): Place {
    (n.sw, n.pt)
  }

  /** The relation has some physical place for the virtual one. */
  predicate Listed(vrel: map<Place, set<Place>>, vv: Node) {
    PlaceOf(vv) in vrel && vrel[PlaceOf(vv)] != {}
  }

  /** It has this one, on the way in or out as the virtual one is. */
  predicate Related(vrel: map<Place, set<Place>>, vv: Node, pv: Node) {
    PlaceOf(vv) in vrel && PlaceOf(pv) in vrel[PlaceOf(vv)] && vv.InPort? == pv.InPort?
  }

  /** The program follows a virtual edge while the packet stays where it is. */
  predicate ProgramEdge(virt: Graph<Node>, v: Vertex, w: Vertex) {
    && ((v.ConsistentIn? && w.InconsistentOut?) || (v.ConsistentOut? && w.InconsistentIn?))
    && v.pv == w.pv && (v.vv, w.vv) in virt.edges
  }

  /** The fabric moves the packet to a place that is related to where it is virtually;
      if the relation lists none, to any place. */
  ghost predicate FabricEdge(phys: Graph<Node>, vrel: map<Place, set<Place>>, v: Vertex, w: Vertex) {
    && ((v.InconsistentOut? && w.ConsistentOut?) || (v.InconsistentIn? && w.ConsistentIn?))
    && v.vv == w.vv && Gets(phys, v.pv, w.pv) && (Listed(vrel, v.vv) ==> Related(vrel, v.vv, w.pv))
  }

  /** Packets enter at in-ports of `ving`, at a place that is related to it. */
  predicate Enters(vrel: map<Place, set<Place>>, ving: set<Place>, v: Vertex) {
    v.ConsistentIn? && v.vv.InPort? && PlaceOf(v.vv) in ving && Related(vrel, v.vv, v.pv)
  }

  /** Packets that enter are in `s` and do not get out of it. */
  ghost predicate Keeps(vrel: map<Place, set<Place>>, ving: set<Place>, g: Graph<Vertex>, s: set<Vertex>) {
    (forall v :: Enters(vrel, ving, v) ==> v in s) && forall v, w :: v in s && (v, w) in g.edges ==> w in s
  }

  /** `g` has the moves of program and fabric, as far as packets that enter get. */
  ghost predicate IsProduct(virt: Graph<Node>, phys: Graph<Node>, vrel: map<Place, set<Place>>, ving: set<Place>,
                            g: Graph<Vertex>) {
    && (forall v, w :: (v, w) in g.edges <==>
          v in g.verts && (ProgramEdge(virt, v, w) || FabricEdge(phys, vrel, v, w)))
    && Keeps(vrel, ving, g, g.verts) && forall s :: Keeps(vrel, ving, g, s) ==> g.verts <= s
  }

  lemma PhysicalMeaning(vrel: map<Place, set<Place>>, vv: Node, pv: Node)
    ensures pv in Physical(vrel, vv) <==> Related(vrel, vv, pv)
    ensures Physical(vrel, vv) == {} <==> !Listed(vrel, vv)
  {
    var places := if (vv.sw, vv.pt) in vrel then vrel[(vv.sw, vv.pt)] else {};
    if Related(vrel, vv, pv) {
      var l := PlaceOf(pv);
      assert l in places && pv == if vv.InPort? then InPort(l.0, l.1) else OutPort(l.0, l.1);
    }
    if Listed(vrel, vv) {
      var l :| l in places;
      assert (if vv.InPort? then InPort(l.0, l.1) else OutPort(l.0, l.1)) in Physical(vrel, vv);
    }
  }

  lemma LoopsMeaning(phys: Graph<Node>, closure: Graph<Node>, a: Node, b: Node)
    requires IsClosure(phys, closure)
    ensures (a, b) in AddLoops(closure).edges <==> Gets(phys, a, b)
  {
    hide PathIn;
    var outs := set v | v in closure.verts && v.OutPort?;
    var loops := set v | v in outs :: (v, InPort(v.sw, v.pt));
    assert AddLoops(closure).edges == closure.edges + loops;
    if a in outs && b == InPort(a.sw, a.pt) { assert (a, b) in loops; }
  }

  lemma StepMeaning(virt: Graph<Node>, phys: Graph<Node>, closure: Graph<Node>, vrel: map<Place, set<Place>>,
                    v: Vertex, w: Vertex)
    requires IsClosure(phys, closure)
    ensures w in Step(Topology(virt, AddLoops(closure), vrel), v) <==>
              ProgramEdge(virt, v, w) || FabricEdge(phys, vrel, v, w)
  {
    hide Gets, AddLoops, Physical, Related, Listed, IsClosure;
    PhysicalMeaning(vrel, v.vv, w.pv);
    LoopsMeaning(phys, closure, v.pv, w.pv);
  }

  lemma IngressMeaning(vrel: map<Place, set<Place>>, ving: set<Place>, v: Vertex)
    ensures v in Ingress(vrel, ving) <==> Enters(vrel, ving, v)
  {
    PhysicalMeaning(vrel, v.vv, v.pv);
    hide Physical, Related;
    if Enters(vrel, ving, v) {
      var l := PlaceOf(v.vv);
      assert l in ving && v.pv in Physical(vrel, InPort(l.0, l.1));
    }
  }

  lemma ProductMeaning(virt: Graph<Node>, phys: Graph<Node>, closure: Graph<Node>, vrel: map<Place, set<Place>>,
                       ving: set<Place>, g: Graph<Vertex>)
    requires IsClosure(phys, closure)
    requires var t := Topology(virt, AddLoops(closure), vrel);
             && (forall v :: v in g.verts <==> Reachable(t, Ingress(vrel, ving), v))
             && forall v, w :: (v, w) in g.edges <==> v in g.verts && w in Step(t, v)
    ensures IsProduct(virt, phys, vrel, ving, g)
  {
    hide Step, AddLoops, Ingress, FabricEdge, ProgramEdge, Enters, IsClosure, StepsTo;
    var t, ing := Topology(virt, AddLoops(closure), vrel), Ingress(vrel, ving);
    forall v, w ensures w in Step(t, v) <==> ProgramEdge(virt, v, w) || FabricEdge(phys, vrel, v, w) {
      StepMeaning(virt, phys, closure, vrel, v, w);
    }
    forall v ensures v in ing <==> Enters(vrel, ving, v) { IngressMeaning(vrel, ving, v); }
    forall v | v in ing ensures v in g.verts { IngReachable(t, ing, v); }
    forall v, w | (v, w) in g.edges ensures w in g.verts { ReachableStep(t, ing, v, w); }
    forall s, v | Keeps(vrel, ving, g, s) && v in g.verts ensures v in s {
      var n: nat :| StepsTo(t, ing, n, v);
      ReachableWithin(t, ing, n, v, g, s);
    }
  }

  lemma {:induction false} ReachableWithin(t: Topology, ing: set<Vertex>, n: nat, v: Vertex, g: Graph<Vertex>,
                                           s: set<Vertex>)
    requires StepsTo(t, ing, n, v) && ing <= s && forall x, y :: x in s && (x, y) in g.edges ==> y in s
    requires forall x :: Reachable(t, ing, x) ==> x in g.verts
    requires forall x, y :: x in g.verts && y in Step(t, x) ==> (x, y) in g.edges
    ensures v in s
  {
    hide Step;
    if n > 0 {
      var u :| StepsTo(t, ing, n - 1, u) && v in Step(t, u);
      ReachableWithin(t, ing, n - 1, u, g, s);
      assert Reachable(t, ing, u);
    }
  }

  /** In consistent vertices the packet is at a place that is related to where it is
      virtually, if any is. */
  lemma ConsistentIsRelated(virt: Graph<Node>, phys: Graph<Node>, vrel: map<Place, set<Place>>, ving: set<Place>,
                            g: Graph<Vertex>, v: Vertex)
    requires IsProduct(virt, phys, vrel, ving, g) && WellFormed(g) && v in g.verts
    requires (v.ConsistentIn? || v.ConsistentOut?) && Listed(vrel, v.vv)
    ensures Related(vrel, v.vv, v.pv)
  {
    hide Gets, Related, Listed;
    var s := set x | x in g.verts && (Inconsistent(x) || (Listed(vrel, x.vv) ==> Related(vrel, x.vv, x.pv)));
    assert Keeps(vrel, ving, g, s);
  }

  /** `make_product_graph`, given the transitive closure of the physical topology. */
  method MakeProductGraph(virt: Graph<Node>, ghost phys: Graph<Node>, closure: Graph<Node>,
                          vrel: map<Place, set<Place>>, ving: set<Place>)
    returns (ing: set<Vertex>, g: Graph<Vertex>)
    requires IsClosure(phys, closure)
    ensures ing == Ingress(vrel, ving)
    ensures var t := Topology(virt, AddLoops(closure), vrel);
            && (forall v :: v in g.verts <==> Reachable(t, ing, v))
            && forall v, w :: (v, w) in g.edges <==> v in g.verts && w in Step(t, v)
    ensures IsProduct(virt, phys, vrel, ving, g) && forall v :: v in ing <==> Enters(vrel, ving, v)
    ensures WellFormed(g) && Alternates(g) && ing <= g.verts
  {
    var t := Topology(virt, AddLoops(closure), vrel);
    ing := Ingress(vrel, ving);
    g := Make(t, ing);
    forall v | v in ing ensures v in g.verts { IngReachable(t, ing, v); }
    forall v ensures v in ing <==> Enters(vrel, ving, v) { IngressMeaning(vrel, ving, v); }
    hide IsProduct, Enters, IsClosure;
    ProductMeaning(virt, phys, closure, vrel, ving, g);
  }
}
