/** Finite directed graphs. */
module Graphs {

  datatype Graph<V(==)> = Graph(verts: set<V>, edges: set<(V, V)>)

  function Empty<V(==)>(): Graph<V> {
    Graph({}, {})
  }

  /** Edges run between vertices of the graph. */
  predicate WellFormed<V(==)>(g: Graph<V>) {
    forall e :: e in g.edges ==> e.0 in g.verts && e.1 in g.verts
  }

  function Succ<V(==, !new)>(g: Graph<V>, v: V): (r: set<V>)
    ensures forall w :: w in r <==> (v, w) in g.edges
  {
    var r := set e | e in g.edges && e.0 == v :: e.1;
    assert forall w :: (v, w) in g.edges ==> w in r by {
      forall w | (v, w) in g.edges ensures w in r { assert (v, w).0 == v; }
    }
    r
  }

  function Pred<V(==, !new)>(g: Graph<V>, v: V): (r: set<V>)
    ensures forall w :: w in r <==> (w, v) in g.edges
  {
    var r := set e | e in g.edges && e.1 == v :: e.0;
    assert forall w :: (w, v) in g.edges ==> w in r by {
      forall w | (w, v) in g.edges ensures w in r { assert (w, v).1 == v; }
    }
    r
  }

  function AddVertex<V(==)>(g: Graph<V>, v: V): Graph<V> {
    Graph(g.verts + {v}, g.edges)
  }

  function AddEdge<V(==)>(g: Graph<V>, v: V, w: V): Graph<V> {
    Graph(g.verts + {v, w}, g.edges + {(v, w)})
  }

  /** A vertex that is not there has no edges, so removing it changes nothing. */
  function RemoveVertex<V(==)>(g: Graph<V>, v: V): Graph<V> {
    Graph(g.verts - {v}, set e | e in g.edges && e.0 != v && e.1 != v)
  }
}
