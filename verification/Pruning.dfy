/** Pruning the product graph: the fabric must be able to restore consistency
    whatever the virtual program does. */
module Pruning {

  import opened Wrappers
  import opened Graphs
  import opened ProductGraph

  type Net = Graph<Vertex>

  /** In `s` each inconsistent vertex has a move, and all moves of a consistent
      vertex stay in `s`. */
  ghost predicate Safe(g: Net, s: set<Vertex>) {
    && s <= g.verts
    && forall v :: v in s ==> if Inconsistent(v) then Succ(g, v) * s != {} else Succ(g, v) <= s
  }

  /** No safe set holds `v`. */
  ghost predicate Doomed(g: Net, v: Vertex) {
    forall s :: Safe(g, s) ==> v !in s
  }

  /** The vertices of all safe sets. */
  ghost function LargestSafe(g: Net): set<Vertex> {
    set v | v in g.verts && !Doomed(g, v)
  }

  ghost function Restrict(g: Net, s: set<Vertex>): Net {
    Graph(g.verts * s, set e | e in g.edges && e.0 in s && e.1 in s)
  }

  lemma LargestSafeIsSafe(g: Net)
    requires WellFormed(g)
    ensures Safe(g, LargestSafe(g))
    ensures forall s :: Safe(g, s) ==> s <= LargestSafe(g)
  {
    hide Inconsistent;
    var m := LargestSafe(g);
    forall v | v in m ensures if Inconsistent(v) then Succ(g, v) * m != {} else Succ(g, v) <= m {
      var s :| Safe(g, s) && v in s;
      assert s <= m;
      if Inconsistent(v) {
        var w :| w in Succ(g, v) * s;
        assert w in Succ(g, v) * m;
      }
    }
  }

  /** `h` is `g` without some vertices that no safe set holds. */
  ghost predicate Reduced(g: Net, h: Net) {
    && h == Restrict(g, h.verts)
    && forall s :: Safe(g, s) ==> s <= h.verts
  }

  /** `h` has taken a move from `v` that a safe set must have. */
  predicate Broken(g: Net, h: Net, v: Vertex) {
    v in h.verts && if Inconsistent(v) then Succ(h, v) == {} else !(Succ(g, v) <= h.verts)
  }

  ghost predicate BrokenOnly(g: Net, h: Net, todo: set<Vertex>) {
    forall v :: Broken(g, h, v) ==> v in todo
  }

  lemma ReducedSucc(g: Net, h: Net, v: Vertex)
    requires Reduced(g, h) && WellFormed(g)
    ensures Succ(h, v) == if v in h.verts then Succ(g, v) * h.verts else {}
    ensures Pred(h, v) == if v in h.verts then Pred(g, v) * h.verts else {}
  {
    hide Safe;
    assert h.verts <= g.verts;
    forall w ensures (v, w) in h.edges <==> (v, w) in g.edges && v in h.verts && w in h.verts {
    }
    forall w ensures (w, v) in h.edges <==> (w, v) in g.edges && v in h.verts && w in h.verts {
    }
  }

  /** Removing a doomed vertex breaks its predecessors only. */
  lemma RemoveDoomed(g: Net, h: Net, v: Vertex, todo: set<Vertex>)
    requires Reduced(g, h) && WellFormed(g) && Doomed(g, v) && BrokenOnly(g, h, todo)
    ensures Reduced(g, RemoveVertex(h, v)) && v !in RemoveVertex(h, v).verts
    ensures BrokenOnly(g, RemoveVertex(h, v), todo + Pred(h, v))
  {
    hide Safe, Inconsistent;
    var h' := RemoveVertex(h, v);
    assert h'.edges == Restrict(g, h'.verts).edges;
    forall u | Broken(g, h', u) ensures u in todo + Pred(h, v) {
      ReducedSucc(g, h, u);
      ReducedSucc(g, h', u);
      ReducedSucc(g, h, v);
      if u !in Pred(h, v) {
        assert v !in Succ(h, u);
        assert Broken(g, h, u);
      }
    }
  }

  /** A broken vertex is in no safe set. */
  lemma BrokenIsDoomed(g: Net, h: Net, v: Vertex)
    requires Reduced(g, h) && WellFormed(g) && (Broken(g, h, v) || v !in h.verts)
    ensures Doomed(g, v)
  {
    ReducedSucc(g, h, v);
    hide Inconsistent;
    forall s | Safe(g, s) ensures v !in s {
      assert s <= h.verts;
    }
  }

  predicate IsFatal(h: Net, v: Vertex) {
    Inconsistent(v) && Succ(h, v) == {}
  }

  /** What removing `v` does to a predecessor. */
  lemma PredCases(g: Net, h: Net, r: Net, v: Vertex, p: Vertex)
    requires WellFormed(g) && Alternates(g) && Reduced(g, h) && Reduced(g, r) && v !in r.verts && p in Pred(h, v)
    ensures v in h.verts
    ensures Inconsistent(v) || IsFatal(r, p) ==> Broken(g, r, p) || p !in r.verts
    ensures !Inconsistent(v) && !IsFatal(r, p) ==> !Broken(g, r, p)
  {
    hide Safe;
    ReducedSucc(g, h, v);
    assert (p, v) in h.edges && (p, v) in g.edges;
    assert v in Succ(g, p);
  }

  lemma BrokenOnlyLess(g: Net, h: Net, todo: set<Vertex>, less: set<Vertex>)
    requires BrokenOnly(g, h, todo) && forall v :: v in todo && v !in less ==> !Broken(g, h, v)
    ensures BrokenOnly(g, h, less)
  {
    hide Broken;
  }

  /** Erases `v` and the predecessors that become fatal. */
  method EraseFatal(ghost g: Net, h: Net, v: Vertex, ghost todo: set<Vertex>) returns (r: Net)
    requires WellFormed(g) && Alternates(g) && Reduced(g, h) && Doomed(g, v) && BrokenOnly(g, h, todo)
    ensures Reduced(g, r) && r.verts <= h.verts - {v} && BrokenOnly(g, r, todo - {v})
    decreases h.verts
  {
    hide Reduced, BrokenOnly, Doomed, Alternates, Inconsistent, Broken, IsFatal;
    r := RemoveVertex(h, v);
    RemoveDoomed(g, h, v, todo);
    NotThere(g, r, v);
    var preds := Pred(h, v);
    BrokenOnlyLess(g, r, todo + preds, (todo - {v}) + preds);
    while preds != {}
      invariant preds <= Pred(h, v) && Reduced(g, r) && r.verts <= h.verts - {v}
      invariant BrokenOnly(g, r, (todo - {v}) + preds)
    {
      var p := Choose(preds);
      PredCases(g, h, r, v, p);
      ghost var all := (todo - {v}) + preds;
      if Inconsistent(v) || IsFatal(r, p) {
        BrokenIsDoomed(g, r, p);
        r := EraseFatal(g, r, p, all);
        all := all - {p};
      }
      preds := preds - {p};
      BrokenOnlyLess(g, r, all, (todo - {v}) + preds);
    }
    BrokenOnlyLess(g, r, (todo - {v}) + preds, todo - {v});
  }

  lemma NotThere(g: Net, h: Net, v: Vertex)
    requires v !in h.verts
    ensures !Broken(g, h, v)
  {
  }

  ghost function Fragile(todo: set<Vertex>): set<Vertex> {
    set v | v in todo && Inconsistent(v)
  }

  /** `prune_product_graph` keeps exactly the largest safe set, in whatever order
      it visits the vertices. */
  method Prune(g: Net) returns (r: Net)
    requires WellFormed(g) && Alternates(g)
    ensures r == Restrict(g, LargestSafe(g)) && r.verts == LargestSafe(g)
  {
    hide Reduced, BrokenOnly, Doomed, Alternates, Broken, IsFatal, LargestSafe, Restrict;
    r := g;
    var todo := g.verts;
    Start(g);
    while todo != {}
      invariant todo <= g.verts && Reduced(g, r) && BrokenOnly(g, r, Fragile(todo))
    {
      var v := Choose(todo);
      ghost var all := Fragile(todo);
      FatalIsBroken(g, r, v);
      if IsFatal(r, v) {
        BrokenIsDoomed(g, r, v);
        r := EraseFatal(g, r, v, all);
        all := all - {v};
      }
      todo := todo - {v};
      BrokenOnlyLess(g, r, all, Fragile(todo));
    }
    assert Fragile(todo) == {};
    Finish(g, r);
  }

  lemma Start(g: Net)
    requires WellFormed(g)
    ensures Reduced(g, g) && BrokenOnly(g, g, Fragile(g.verts))
  {
    hide Inconsistent;
    assert g == Restrict(g, g.verts);
  }

  lemma FatalIsBroken(g: Net, h: Net, v: Vertex)
    ensures IsFatal(h, v) ==> Broken(g, h, v) || v !in h.verts
    ensures Inconsistent(v) && !IsFatal(h, v) ==> !Broken(g, h, v)
  {
  }

  lemma Finish(g: Net, r: Net)
    requires WellFormed(g) && Reduced(g, r) && BrokenOnly(g, r, {})
    ensures r == Restrict(g, LargestSafe(g)) && r.verts == LargestSafe(g)
  {
    assert Safe(g, r.verts) by {
      hide Safe, Inconsistent;
      forall v | v in r.verts ensures if Inconsistent(v) then Succ(g, v) * r.verts != {} else Succ(g, v) <= r.verts {
        ReducedSucc(g, r, v);
        assert !Broken(g, r, v);
      }
      RestrictInside(g, r);
      SafeOf(g, r.verts);
    }
    hide Safe;
    assert LargestSafe(g) == r.verts;
  }

  lemma RestrictInside(g: Net, r: Net)
    requires Reduced(g, r)
    ensures r.verts <= g.verts
  {
    assert r.verts == g.verts * r.verts;
  }

  lemma SafeOf(g: Net, s: set<Vertex>)
    requires s <= g.verts && forall v :: v in s ==> if Inconsistent(v) then Succ(g, v) * s != {} else Succ(g, v) <= s
    ensures Safe(g, s)
  {
  }

  // What pruning is for

  /** A fabric: where to go from each inconsistent vertex. */
  type Fabric = map<Vertex, Vertex>

  /** The program moves from consistent vertices as it likes, the fabric from
      inconsistent ones. */
  predicate Move(g: Net, f: Fabric, v: Vertex, w: Vertex) {
    if Inconsistent(v) then v in f && w == f[v] && w in Succ(g, v) else w in Succ(g, v)
  }

  ghost predicate Play(g: Net, f: Fabric, v: Vertex, n: nat, w: Vertex) {
    if n == 0 then v == w else exists u :: Play(g, f, v, n - 1, u) && Move(g, f, u, w)
  }

  ghost predicate Played(g: Net, f: Fabric, v: Vertex, w: Vertex) {
    exists n: nat :: Play(g, f, v, n, w)
  }

  /** In no play from `v` does the fabric get stuck. */
  ghost predicate NeverStuck(g: Net, f: Fabric, v: Vertex) {
    forall w :: Played(g, f, v, w) && Inconsistent(w) ==> exists x :: Move(g, f, w, x)
  }

  lemma PlayedStep(g: Net, f: Fabric, v: Vertex, w: Vertex, x: Vertex)
    requires Played(g, f, v, w) && Move(g, f, w, x)
    ensures Played(g, f, v, x)
  {
    hide Move;
    var n: nat :| Play(g, f, v, n, w);
    assert Play(g, f, v, n + 1, x);
  }

  lemma {:induction false} PlayStays(g: Net, f: Fabric, v: Vertex, n: nat, w: Vertex, s: set<Vertex>)
    requires Play(g, f, v, n, w) && v in s && forall u, x :: u in s && Move(g, f, u, x) ==> x in s
    ensures w in s
  {
    hide Move;
    if n > 0 {
      var u :| Play(g, f, v, n - 1, u) && Move(g, f, u, w);
      PlayStays(g, f, v, n - 1, u, s);
    }
  }

  /** Pruning keeps a vertex exactly when some fabric never gets stuck from it. */
  lemma KeptIffRepairable(g: Net, v: Vertex)
    requires WellFormed(g) && v in g.verts
    ensures v in LargestSafe(g) <==> exists f :: NeverStuck(g, f, v)
  {
    if v in LargestSafe(g) {
      SafeIsRepairable(g, v);
    }
    if f :| NeverStuck(g, f, v) {
      RepairableIsSafe(g, f, v);
    }
  }

  lemma SafeIsRepairable(g: Net, v: Vertex)
    requires WellFormed(g) && v in LargestSafe(g)
    ensures exists f :: NeverStuck(g, f, v)
  {
    LargestSafeIsSafe(g);
    var s := LargestSafe(g);
    hide LargestSafe, Inconsistent, Play;
    assert forall u :: u in s && Inconsistent(u) ==> Succ(g, u) * s != {};
    var f := map u | u in s && Inconsistent(u) :: Pick(Succ(g, u) * s);
    forall u, x | u in s && Move(g, f, u, x) ensures x in s {
      if Inconsistent(u) { assert x in Succ(g, u) * s; }
    }
    forall w | Played(g, f, v, w) && Inconsistent(w) ensures exists x :: Move(g, f, w, x) {
      var n: nat :| Play(g, f, v, n, w);
      PlayStays(g, f, v, n, w, s);
      assert f[w] in Succ(g, w) * s;
      assert Move(g, f, w, f[w]);
    }
    assert NeverStuck(g, f, v);
  }

  lemma {:induction false} PlayInside(g: Net, f: Fabric, v: Vertex, n: nat, w: Vertex)
    requires WellFormed(g) && v in g.verts && Play(g, f, v, n, w)
    ensures w in g.verts
  {
    if n > 0 {
      var u :| Play(g, f, v, n - 1, u) && Move(g, f, u, w);
      assert (u, w) in g.edges;
    }
  }

  lemma RepairableIsSafe(g: Net, f: Fabric, v: Vertex)
    requires WellFormed(g) && v in g.verts && NeverStuck(g, f, v)
    ensures v in LargestSafe(g)
  {
    hide Inconsistent;
    var s := set w | w in g.verts && Played(g, f, v, w);
    forall w | Played(g, f, v, w) ensures w in s {
      var n: nat :| Play(g, f, v, n, w);
      PlayInside(g, f, v, n, w);
    }
    forall w | w in s ensures if Inconsistent(w) then Succ(g, w) * s != {} else Succ(g, w) <= s {
      if Inconsistent(w) {
        var x :| Move(g, f, w, x);
        PlayedStep(g, f, v, w, x);
        assert x in Succ(g, w) * s;
      } else {
        forall x | x in Succ(g, w) ensures x in s {
          assert Move(g, f, w, x);
          PlayedStep(g, f, v, w, x);
        }
      }
    }
    SafeOf(g, s);
    assert Play(g, f, v, 0, v);
    assert v in s;
  }
}
