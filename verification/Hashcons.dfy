/** The hash-consing table.  A value is looked for in the slot of its hash only, and
    there by comparison; so two values that compare equal can get two ids. */
module Hashcons {

  import opened Wrappers

  /** When two values compare equal, and the hash of a value. */
  datatype Hashing<!V> = Hashing(same: (V, V) -> bool, hash: V -> int)

  ghost predicate Equivalence<V(!new)>(h: Hashing<V>) {
    && (forall v :: h.same(v, v))
    && (forall v, w :: h.same(v, w) ==> h.same(w, v))
    && (forall v, w, x :: h.same(v, w) && h.same(w, x) ==> h.same(v, x))
  }

  type Slots = n: nat | n >= 1 witness 1

  /** Ids by value, values by id, the next id, and how many slots there are. */
  datatype Hc<V(==)> = Hc(tbl: map<V, int>, untbl: map<int, V>, idx: int, slots: Slots)

  /** Looking up `v` finds `k`. */
  predicate Hits<V>(h: Hashing<V>, n: Slots, k: V, v: V) {
    h.same(k, v) && h.hash(k) % n == h.hash(v) % n
  }

  predicate Found<V>(h: Hashing<V>, s: Hc<V>, v: V) {
    exists k :: k in s.tbl && Hits(h, s.slots, k, v)
  }

  /** The tables are inverse to each other, all ids are below the counter, and
      looking up a value that is there finds no other one. */
  ghost predicate Inv<V>(h: Hashing<V>, s: Hc<V>) {
    && (forall v :: v in s.tbl ==> s.tbl[v] in s.untbl && s.untbl[s.tbl[v]] == v)
    && (forall i :: i in s.untbl ==> s.untbl[i] in s.tbl && s.tbl[s.untbl[i]] == i)
    && (forall i :: i in s.untbl ==> 0 <= i < s.idx) && 0 <= s.idx
    && (forall k, v :: k in s.tbl && v in s.tbl && Hits(h, s.slots, k, v) ==> k == v)
  }

  /** What `get` does. */
  function Got<V>(h: Hashing<V>, s: Hc<V>, v: V): Hc<V> {
    if Found(h, s, v) then s else s.(tbl := s.tbl[v := s.idx], untbl := s.untbl[s.idx := v], idx := s.idx + 1)
  }

  ghost function IdOf<V>(h: Hashing<V>, s: Hc<V>, v: V): int {
    if Found(h, s, v) then var k :| k in s.tbl && Hits(h, s.slots, k, v); s.tbl[k] else s.idx
  }

  /** The hash table doubles its slots whenever it likes. */
  function Grown<V>(s: Hc<V>): Hc<V> {
    s.(slots := 2 * s.slots)
  }

  /** What `clear` does: only the ids of `preserve` stay, and the counter goes to
      one more than the greatest of them. */
  ghost predicate Cleared<V>(s: Hc<V>, preserve: set<int>, s': Hc<V>) {
    && s'.tbl == (map v | v in s.tbl && s.tbl[v] in preserve :: s.tbl[v])
    && s'.untbl == (map i | i in s.untbl && i in preserve :: s.untbl[i])
    && (forall i :: i in s'.untbl ==> i < s'.idx)
    && (s'.idx == 1 || (s'.idx > 1 && s'.idx - 1 in s'.untbl))
    && s'.slots == s.slots
  }

  lemma GotInv<V(!new)>(h: Hashing<V>, s: Hc<V>, v: V)
    requires Equivalence(h) && Inv(h, s)
    ensures var (s', id) := (Got(h, s, v), IdOf(h, s, v));
            && Inv(h, s') && id in s'.untbl && Hits(h, s.slots, s'.untbl[id], v)
            && (!Found(h, s, v) ==> id !in s.untbl && s'.untbl[id] == v)
            && forall i :: i in s.untbl ==> i in s'.untbl && s'.untbl[i] == s.untbl[i]
  {
    if !Found(h, s, v) {
      assert v !in s.tbl by { assert Hits(h, s.slots, v, v); }
    }
  }

  /** A lookup finds one value at most. */
  lemma HitsOnce<V(!new)>(h: Hashing<V>, s: Hc<V>, j: V, k: V, v: V)
    requires Equivalence(h) && Inv(h, s) && j in s.tbl && k in s.tbl
    requires Hits(h, s.slots, j, v) && Hits(h, s.slots, k, v)
    ensures j == k
  {
    assert Hits(h, s.slots, j, k);
  }

  lemma ClearedInv<V>(h: Hashing<V>, s: Hc<V>, preserve: set<int>, s': Hc<V>)
    requires Inv(h, s) && Cleared(s, preserve, s')
    ensures Inv(h, s') && forall i :: i in s.untbl && i in preserve ==> i in s'.untbl && s'.untbl[i] == s.untbl[i]
  {
  }

  lemma Remainder(x: int, n: Slots, a: int, b: int)
    requires x == n * a + b && 0 <= b < n
    ensures x % n == b
  {
    var d := a - x / n;
    assert n * d == x % n - b;
  }

  lemma HalfSlots(x: int, n: Slots)
    ensures x % n == x % (2 * n) % n
  {
    var r, q := x % (2 * n), x / (2 * n);
    assert x == n * (2 * q + r / n) + r % n by {
      assert x == 2 * n * q + r && r == n * (r / n) + r % n;
    }
    Remainder(x, n, 2 * q + r / n, r % n);
  }

  /** With more slots, a lookup finds less. */
  lemma GrownInv<V>(h: Hashing<V>, s: Hc<V>)
    requires Inv(h, s)
    ensures Inv(h, Grown(s))
  {
    forall k, v | k in s.tbl && v in s.tbl && Hits(h, 2 * s.slots, k, v) ensures k == v {
      HalfSlots(h.hash(k), s.slots);
      HalfSlots(h.hash(v), s.slots);
      assert Hits(h, s.slots, k, v);
    }
  }

  /** Live ids differ for all values that do not compare equal; for those that do,
      they are one id if and only if no two of them have different hashes. */
  lemma IdsAreValuesIff<V(!new)>(h: Hashing<V>, s: Hc<V>)
    requires Equivalence(h) && Inv(h, s)
    ensures (forall i, j :: i in s.untbl && j in s.untbl ==> (i == j <==> h.same(s.untbl[i], s.untbl[j])))
            <==> forall k, v :: k in s.tbl && v in s.tbl && h.same(k, v) ==> h.hash(k) == h.hash(v)
  {
    if forall i, j :: i in s.untbl && j in s.untbl ==> (i == j <==> h.same(s.untbl[i], s.untbl[j])) {
      forall k, v | k in s.tbl && v in s.tbl && h.same(k, v) ensures h.hash(k) == h.hash(v) {
        assert s.untbl[s.tbl[k]] == k && s.untbl[s.tbl[v]] == v;
      }
    }
    if forall k, v :: k in s.tbl && v in s.tbl && h.same(k, v) ==> h.hash(k) == h.hash(v) {
      forall i, j | i in s.untbl && j in s.untbl ensures i == j <==> h.same(s.untbl[i], s.untbl[j]) {
        assert s.untbl[i] in s.tbl && s.untbl[j] in s.tbl;
        assert h.same(s.untbl[i], s.untbl[j]) ==> Hits(h, s.slots, s.untbl[i], s.untbl[j]);
      }
    }
  }

  /** As long as they live, two ids are equal exactly when their values are. */
  lemma LiveIdsDiffer<V>(h: Hashing<V>, s: Hc<V>, i: int, j: int)
    requires Inv(h, s) && i in s.untbl && j in s.untbl
    ensures i == j <==> s.untbl[i] == s.untbl[j]
  {
  }

  // Runs

  datatype Op<V> = Get(v: V) | Grow | Clear(preserve: set<int>)

  ghost predicate Does<V>(h: Hashing<V>, s: Hc<V>, op: Op<V>, s': Hc<V>) {
    match op
    case Get(v) => s' == Got(h, s, v)
    case Grow => s' == Grown(s)
    case Clear(preserve) => Cleared(s, preserve, s')
  }

  ghost predicate Run<V(!new)>(h: Hashing<V>, ops: seq<Op<V>>, ss: seq<Hc<V>>) {
    && |ss| == |ops| + 1 && Equivalence(h) && Inv(h, ss[0])
    && forall i :: 0 <= i < |ops| ==> Does(h, ss[i], ops[i], ss[i + 1])
  }

  /** Each operation keeps the tables inverse to each other. */
  lemma {:induction false} RunInv<V(!new)>(h: Hashing<V>, ops: seq<Op<V>>, ss: seq<Hc<V>>, n: nat)
    requires Run(h, ops, ss) && n < |ss|
    ensures Inv(h, ss[n])
  {
    hide Inv, Does, Equivalence;
    if n > 0 {
      RunInv(h, ops, ss, n - 1);
      DoesInv(h, ss[n - 1], ops[n - 1], ss[n]);
    }
  }

  lemma DoesInv<V(!new)>(h: Hashing<V>, s: Hc<V>, op: Op<V>, s': Hc<V>)
    requires Equivalence(h) && Inv(h, s) && Does(h, s, op, s')
    ensures Inv(h, s')
    ensures forall i :: i in s.untbl && (op.Clear? ==> i in op.preserve) ==> i in s'.untbl && s'.untbl[i] == s.untbl[i]
    ensures forall v :: v in s'.tbl ==> v in s.tbl || op == Get(v)
  {
    match op
    case Get(v) => GotInv(h, s, v);
    case Grow => GrownInv(h, s);
    case Clear(preserve) => ClearedInv(h, s, preserve, s');
  }

  /** An id that no clear drops keeps its value, so new ids never collide with it. */
  lemma {:induction false} LiveIdKeeps<V(!new)>(h: Hashing<V>, ops: seq<Op<V>>, ss: seq<Hc<V>>, m: nat, n: nat, id: int)
    requires Run(h, ops, ss) && m <= n < |ss| && id in ss[m].untbl
    requires forall i :: m <= i < n && ops[i].Clear? ==> id in ops[i].preserve
    ensures id in ss[n].untbl && ss[n].untbl[id] == ss[m].untbl[id]
    decreases n
  {
    hide Inv, Does, Equivalence;
    if m < n {
      LiveIdKeeps(h, ops, ss, m, n - 1, id);
      RunInv(h, ops, ss, n - 1);
      assert Does(h, ss[n - 1], ops[n - 1], ss[n]);
      DoesInv(h, ss[n - 1], ops[n - 1], ss[n]);
    }
  }

  /** All that is stored in a run was there at first, or was asked for. */
  lemma {:induction false} RunStored<V(!new)>(h: Hashing<V>, ops: seq<Op<V>>, ss: seq<Hc<V>>, n: nat, vals: iset<V>)
    requires Run(h, ops, ss) && n < |ss|
    requires (forall v :: v in ss[0].tbl ==> v in vals) && forall v :: Get(v) in ops ==> v in vals
    ensures forall v :: v in ss[n].tbl ==> v in vals
  {
    hide Inv, Does, Equivalence;
    if n > 0 {
      RunStored(h, ops, ss, n - 1, vals);
      RunInv(h, ops, ss, n - 1);
      DoesInv(h, ss[n - 1], ops[n - 1], ss[n]);
    }
  }

  /** Where all values of a run that compare equal have one hash, live ids are
      equal exactly when their values compare equal, at every moment. */
  lemma RunIdsAreValues<V(!new)>(h: Hashing<V>, ops: seq<Op<V>>, ss: seq<Hc<V>>, n: nat, vals: iset<V>, i: int, j: int)
    requires Run(h, ops, ss) && n < |ss| && i in ss[n].untbl && j in ss[n].untbl
    requires (forall v :: v in ss[0].tbl ==> v in vals) && forall v :: Get(v) in ops ==> v in vals
    requires forall v, w :: v in vals && w in vals && h.same(v, w) ==> h.hash(v) == h.hash(w)
    ensures i == j <==> h.same(ss[n].untbl[i], ss[n].untbl[j])
  {
    RunInv(h, ops, ss, n);
    RunStored(h, ops, ss, n, vals);
    IdsAreValuesIff(h, ss[n]);
  }

  class Table<V(==, !new)> {
    const h: Hashing<V>
    var tbl: map<V, int>
    var untbl: map<int, V>
    var idx: int
    var slots: Slots

    ghost function S(): Hc<V>
      reads this
    {
      Hc(tbl, untbl, idx, slots)
    }

    constructor (h: Hashing<V>, slots: Slots)
      ensures this.h == h && S() == Hc(map[], map[], 0, slots) && Inv(h, S())
    {
      this.h, this.slots := h, slots;
      tbl, untbl, idx := map[], map[], 0;
    }

    method Gensym() returns (r: int)
      modifies this`idx
      ensures r == old(idx) && idx == r + 1
    {
      r := idx;
      idx := idx + 1;
    }

    /** Adding to `untbl` never finds the new id there. */
    method Get(v: V) returns (id: int)
      requires Equivalence(h) && Inv(h, S())
      modifies this
      ensures S() == Got(h, old(S()), v) && id == IdOf(h, old(S()), v) && Inv(h, S())
    {
      GotInv(h, S(), v);
      if k :| k in tbl && Hits(h, slots, k, v) {
        id := tbl[k];
        ghost var j :| j in tbl && Hits(h, slots, j, v) && IdOf(h, S(), v) == tbl[j];
        HitsOnce(h, S(), j, k, v);
      } else {
        id := Gensym();
        assert id !in untbl;
        untbl := untbl[id := v];
        tbl := tbl[v := id];
      }
    }

    /** `None` where the source raises `Not_found`. */
    function Unget(id: int): Option<V>
      reads this
    {
      if id in untbl then Some(untbl[id]) else None
    }

    method GetUnget(v: V) returns (id: int, w: Option<V>)
      requires Equivalence(h) && Inv(h, S())
      modifies this
      ensures w.Some? && h.same(w.value, v) && S() == Got(h, old(S()), v)
    {
      id := Get(v);
      GotInv(h, old(S()), v);
      w := Unget(id);
    }

    method Grow()
      requires Inv(h, S())
      modifies this`slots
      ensures S() == Grown(old(S())) && Inv(h, S())
    {
      GrownInv(h, S());
      slots := 2 * slots;
    }

    /** Removes all ids but those of `preserve`. */
    method Drop(preserve: set<int>)
      requires Inv(h, S())
      modifies this`tbl, this`untbl
      ensures tbl == Kept(old(S()), {}, preserve).tbl && untbl == Kept(old(S()), {}, preserve).untbl
    {
      hide Inv, Kept;
      ghost var s := S();
      var drop := set v | v in tbl && tbl[v] !in preserve;
      KeptAll(h, s, drop, preserve);
      while drop != {}
        invariant drop <= (set v | v in s.tbl && s.tbl[v] !in preserve)
        invariant S() == Kept(s, drop, preserve)
      {
        var v := Choose(drop);
        KeptLess(h, s, drop, preserve, v);
        untbl := untbl - {tbl[v]};
        tbl := tbl - {v};
        drop := drop - {v};
      }
    }

    /** The greatest id, or 0. */
    method MaxId() returns (m: int)
      requires Inv(h, S())
      ensures m >= 0 && (m == 0 || m in untbl) && forall i :: i in untbl ==> i <= m
    {
      m := 0;
      var todo := tbl.Keys;
      while todo != {}
        invariant todo <= tbl.Keys && m >= 0 && (m == 0 || m in untbl)
        invariant forall v :: v in tbl && v !in todo ==> tbl[v] <= m
      {
        var v := Choose(todo);
        m := if m < tbl[v] then tbl[v] else m;
        todo := todo - {v};
      }
      forall i | i in untbl ensures i <= m { assert untbl[i] in tbl; }
    }

    method Clear(preserve: set<int>)
      requires Inv(h, S())
      modifies this
      ensures Cleared(old(S()), preserve, S()) && Inv(h, S())
    {
      ghost var s := S();
      Drop(preserve);
      KeptInv(h, s, preserve);
      var m := MaxId();
      idx := 1 + m;
      KeptNone(s, preserve);
      ClearedInv(h, s, preserve, S());
    }
  }

  /** The tables while the values of `drop` are still to be removed. */
  ghost function Kept<V>(s: Hc<V>, drop: set<V>, preserve: set<int>): Hc<V> {
    Hc(map v | v in s.tbl && (v in drop || s.tbl[v] in preserve) :: s.tbl[v],
       map i | i in s.untbl && (s.untbl[i] in drop || i in preserve) :: s.untbl[i], s.idx, s.slots)
  }

  lemma KeptAll<V>(h: Hashing<V>, s: Hc<V>, drop: set<V>, preserve: set<int>)
    requires Inv(h, s) && drop == set v | v in s.tbl && s.tbl[v] !in preserve
    ensures Kept(s, drop, preserve) == s
  {
    assert Kept(s, drop, preserve).tbl == s.tbl;
    forall i | i in s.untbl ensures s.untbl[i] in drop || i in preserve {
      assert s.untbl[i] in s.tbl;
    }
    assert Kept(s, drop, preserve).untbl == s.untbl;
  }

  lemma KeptLess<V>(h: Hashing<V>, s: Hc<V>, drop: set<V>, preserve: set<int>, v: V)
    requires Inv(h, s) && v in drop && v in s.tbl && s.tbl[v] !in preserve
    ensures var k := Kept(s, drop, preserve);
            && v in k.tbl
            && Kept(s, drop - {v}, preserve) == k.(tbl := k.tbl - {v}, untbl := k.untbl - {k.tbl[v]})
  {
    var k, k' := Kept(s, drop, preserve), Kept(s, drop - {v}, preserve);
    assert k'.tbl == k.tbl - {v};
    forall i | i in s.untbl ensures s.untbl[i] == v <==> i == s.tbl[v] {
      assert s.untbl[i] in s.tbl;
    }
    assert k'.untbl == k.untbl - {k.tbl[v]};
  }

  lemma KeptInv<V>(h: Hashing<V>, s: Hc<V>, preserve: set<int>)
    requires Inv(h, s)
    ensures Inv(h, Kept(s, {}, preserve))
  {
  }

  lemma KeptNone<V>(s: Hc<V>, preserve: set<int>)
    ensures Kept(s, {}, preserve).tbl == map v | v in s.tbl && s.tbl[v] in preserve :: s.tbl[v]
    ensures Kept(s, {}, preserve).untbl == map i | i in s.untbl && i in preserve :: s.untbl[i]
  {
  }
}
