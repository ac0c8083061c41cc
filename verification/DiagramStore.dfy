/** Decision diagrams as they are stored: a node is the id of a hash-consed cell,
    and the branches of a cell are ids.  Ids are equal exactly when the trees of the
    other modules are, which keep the words of masks as they were written.  The hash
    sees those words and the comparison of values does not, so one test can be stored
    under several ids. */
module DiagramStore {

  import opened Prefixes
  import opened Values
  import opened Actions
  import opened Fdds
  import H = Hashcons

  /** A constant, or a mask with a length the shifts are defined for. */
  type TestValue = v: Value | v.Mask? ==> 1 <= v.m <= 64 witness Const(0)

  datatype Cell = LeafCell(par: Par) | BranchCell(field: Field, value: TestValue, tru: int, fls: int)

  type Cells = map<int, Cell>

  /** `compare` on cells is 0. */
  predicate CompareEqual(c: Cell, d: Cell) {
    match (c, d)
    case (LeafCell(a), LeafCell(b)) => a == b
    case (BranchCell(f, v, t, e), BranchCell(g, w, u, x)) => f == g && Compare(v, w) == 0 && t == u && e == x
    case _ => false
  }

  /** For every hash function. */
  function Cons(hash: Cell -> int): H.Hashing<Cell> {
    H.Hashing(CompareEqual, hash)
  }

  lemma CompareZero(v: TestValue, w: TestValue)
    ensures Compare(v, w) == 0 <==> Same(Canon(v), Canon(w))
    ensures v == w <==> Canon(v) == Canon(w)
  {
    if v.Mask? && w.Mask? {
      var m := Min(v.m, w.m);
      ShrAdd(v.a, 64 - v.m, v.m - m);
      ShrAdd(w.a, 64 - w.m, w.m - m);
    }
  }

  lemma ConsEquivalence(hash: Cell -> int)
    ensures H.Equivalence(Cons(hash))
  {
    forall v: TestValue, w: TestValue ensures Compare(v, w) == 0 <==> Same(Canon(v), Canon(w)) {
      CompareZero(v, w);
    }
    hide Compare, Canon;
  }

  /** The branches of `id` are older cells. */
  predicate CellOk(cells: Cells, id: int, c: Cell) {
    c.BranchCell? ==> 0 <= c.tru < id && 0 <= c.fls < id && c.tru in cells && c.fls in cells
  }

  ghost predicate CellsOk(cells: Cells) {
    forall id :: id in cells ==> id >= 0 && CellOk(cells, id, cells[id])
  }

  /** The tree that `id` stands for. */
  ghost function Decode(cells: Cells, id: int): Fdd
    requires CellsOk(cells) && id in cells
    decreases id
  {
    assert CellOk(cells, id, cells[id]);
    match cells[id]
    case LeafCell(par) => Leaf(par)
    case BranchCell(f, v, t, e) => Branch(f, Canon(v), Decode(cells, t), Decode(cells, e))
  }

  /** No two ids hold the same cell. */
  predicate Unique(cells: Cells) {
    forall i, j :: i in cells && j in cells && cells[i] == cells[j] ==> i == j
  }

  /** Equal ids are equal trees, with the same words in their masks. */
  lemma {:induction false} IdIsTree(cells: Cells, i: int, j: int)
    requires CellsOk(cells) && Unique(cells) && i in cells && j in cells
    ensures i == j <==> Decode(cells, i) == Decode(cells, j)
    decreases i
  {
    assert CellOk(cells, i, cells[i]) && CellOk(cells, j, cells[j]);
    if cells[i].BranchCell? && cells[j].BranchCell? {
      CompareZero(cells[i].value, cells[j].value);
      IdIsTree(cells, cells[i].tru, cells[j].tru);
      IdIsTree(cells, cells[i].fls, cells[j].fls);
    }
  }

  // Trees that test the same

  /** The trees differ at most in how their masks are written. */
  predicate SameTests(x: Fdd, y: Fdd) {
    match (x, y)
    case (Leaf(a), Leaf(b)) => a == b
    case (Branch(f, v, t, e), Branch(g, w, u, d)) => f == g && Same(v, w) && SameTests(t, u) && SameTests(e, d)
    case _ => false
  }

  lemma {:induction false} SameTestsSelf(x: Fdd)
    ensures SameTests(x, x)
  {
    if x.Branch? {
      SameTestsSelf(x.tru);
      SameTestsSelf(x.fls);
    }
  }

  /** How the masks are written changes nothing for any packet. */
  lemma {:induction false} SameTestsMeaning(x: Fdd, y: Fdd, p: Packet)
    requires SameTests(x, y)
    ensures Lookup(x, p) == Lookup(y, p)
  {
    if x.Branch? {
      SameTestsMeaning(x.tru, y.tru, p);
      SameTestsMeaning(x.fls, y.fls, p);
    }
  }

  lemma {:induction false} OneIdForSameTests(cells: Cells, i: int, j: int)
    requires CellsOk(cells) && i in cells && j in cells && SameTests(Decode(cells, i), Decode(cells, j))
    requires forall k, l :: k in cells && l in cells && CompareEqual(cells[k], cells[l]) ==> k == l
    ensures i == j
    decreases i
  {
    assert CellOk(cells, i, cells[i]) && CellOk(cells, j, cells[j]);
    if cells[i].BranchCell? {
      CompareZero(cells[i].value, cells[j].value);
      OneIdForSameTests(cells, cells[i].tru, cells[j].tru);
      OneIdForSameTests(cells, cells[i].fls, cells[j].fls);
    }
    assert CompareEqual(cells[i], cells[j]);
  }

  lemma EqualCellsSameTests(cells: Cells, i: int, j: int)
    requires CellsOk(cells) && i in cells && j in cells && CompareEqual(cells[i], cells[j])
    ensures SameTests(Decode(cells, i), Decode(cells, j))
  {
    assert CellOk(cells, i, cells[i]) && CellOk(cells, j, cells[j]);
    if cells[i].BranchCell? {
      CompareZero(cells[i].value, cells[j].value);
      SameTestsSelf(Decode(cells, cells[i].tru));
      SameTestsSelf(Decode(cells, cells[i].fls));
    }
  }

  ghost predicate IdIsCell(cells: Cells) {
    forall i, j :: i in cells && j in cells ==> (i == j <==> CompareEqual(cells[i], cells[j]))
  }

  ghost predicate IdIsTests(cells: Cells)
    requires CellsOk(cells)
  {
    forall i, j :: i in cells && j in cells ==> (i == j <==> SameTests(Decode(cells, i), Decode(cells, j)))
  }

  lemma CellThenTests(cells: Cells)
    requires CellsOk(cells) && IdIsCell(cells)
    ensures IdIsTests(cells)
  {
    hide CompareEqual, Decode, SameTests, CellsOk;
    forall i, j | i in cells && j in cells ensures i == j <==> SameTests(Decode(cells, i), Decode(cells, j)) {
      if SameTests(Decode(cells, i), Decode(cells, j)) { OneIdForSameTests(cells, i, j); }
      SameTestsSelf(Decode(cells, i));
    }
  }

  lemma TestsThenCell(cells: Cells)
    requires CellsOk(cells) && IdIsTests(cells)
    ensures IdIsCell(cells)
  {
    hide Decode, SameTests, CellsOk, Compare;
    forall i, j | i in cells && j in cells ensures i == j <==> CompareEqual(cells[i], cells[j]) {
      if CompareEqual(cells[i], cells[j]) { EqualCellsSameTests(cells, i, j); }
      if cells[i].BranchCell? { CompareZero(cells[i].value, cells[i].value); }
    }
  }

  /** Trees that test the same have one id if and only if no two stored cells that
      compare equal have different hashes. */
  lemma IdIsTestsIff(hash: Cell -> int, s: H.Hc<Cell>)
    requires Valid(hash, s)
    ensures IdIsTests(s.untbl) <==> forall c, d :: c in s.tbl && d in s.tbl && CompareEqual(c, d) ==> hash(c) == hash(d)
  {
    ConsEquivalence(hash);
    H.IdsAreValuesIff(Cons(hash), s);
    assert IdIsCell(s.untbl) <==> forall c, d :: c in s.tbl && d in s.tbl && CompareEqual(c, d) ==> hash(c) == hash(d);
    hide CompareEqual, Decode, SameTests, CellsOk, H.Equivalence;
    if IdIsCell(s.untbl) { CellThenTests(s.untbl); }
    if IdIsTests(s.untbl) { TestsThenCell(s.untbl); }
  }

  // How masks can be written so that this is so

  /** The bits of a mask below its length are clear. */
  predicate HostBitsClear(v: TestValue) {
    v.Mask? ==> v.a == Pow2(64 - v.m) * Shr(v.a, 64 - v.m)
  }

  /** Each field is tested for constants only or for masks only, and masks are
      written with clear bits below their length. */
  predicate Tidy(masked: set<Field>, c: Cell) {
    c.BranchCell? ==> (c.value.Mask? <==> c.field in masked) && HostBitsClear(c.value)
  }

  lemma TidyCellsAreEqual(masked: set<Field>, c: Cell, d: Cell)
    requires Tidy(masked, c) && Tidy(masked, d) && CompareEqual(c, d)
    ensures c == d
  {
    if c.BranchCell? {
      CompareZero(c.value, d.value);
    }
  }

  /** With tidy cells equal ids are equal tests. */
  lemma TidyIdIsTests(hash: Cell -> int, s: H.Hc<Cell>, masked: set<Field>, i: int, j: int)
    requires Valid(hash, s) && i in s.untbl && j in s.untbl
    requires forall c :: c in s.tbl ==> Tidy(masked, c)
    ensures i == j <==> SameTests(Decode(s.untbl, i), Decode(s.untbl, j))
  {
    forall c, d | c in s.tbl && d in s.tbl && CompareEqual(c, d) ensures hash(c) == hash(d) {
      TidyCellsAreEqual(masked, c, d);
    }
    IdIsTestsIff(hash, s);
  }

  /** Cells that stay, with all that is below them, keep their trees. */
  lemma {:induction false} DecodeSame(cells: Cells, cells': Cells, ids: set<int>, id: int)
    requires CellsOk(cells) && CellsOk(cells') && id in ids && ClosedIn(cells, ids)
    requires forall i :: i in ids ==> i in cells' && cells'[i] == cells[i]
    ensures Decode(cells', id) == Decode(cells, id)
    decreases id
  {
    assert CellOk(cells, id, cells[id]);
    if cells[id].BranchCell? {
      DecodeSame(cells, cells', ids, cells[id].tru);
      DecodeSame(cells, cells', ids, cells[id].fls);
    }
  }

  /** With a cell its branches are in the set. */
  predicate ClosedIn(cells: Cells, ids: set<int>) {
    forall i :: i in ids ==> i in cells && (cells[i].BranchCell? ==> cells[i].tru in ids && cells[i].fls in ids)
  }

  lemma AllClosed(cells: Cells)
    requires CellsOk(cells)
    ensures ClosedIn(cells, cells.Keys)
  {
    forall i | i in cells.Keys
      ensures cells[i].BranchCell? ==> cells[i].tru in cells.Keys && cells[i].fls in cells.Keys
    {
      assert CellOk(cells, i, cells[i]);
    }
  }

  /** `refs`: the cells below `id`, and those of `seen`. */
  function Refs(cells: Cells, id: int, seen: set<int>): (r: set<int>)
    requires id in cells && forall i :: i in cells ==> i >= 0 && CellOk(cells, i, cells[i])
    decreases id
  {
    if id in seen then seen
    else
      assert CellOk(cells, id, cells[id]);
      match cells[id]
      case LeafCell(_) => seen + {id}
      case BranchCell(_, _, t, e) => Refs(cells, e, Refs(cells, t, seen)) + {id}
  }

  /** They are the least set that holds `id` and is closed under branches. */
  lemma {:induction false} RefsLeast(cells: Cells, id: int, seen: set<int>)
    requires CellsOk(cells) && id in cells && ClosedIn(cells, seen)
    ensures ClosedIn(cells, Refs(cells, id, seen)) && seen + {id} <= Refs(cells, id, seen)
    ensures forall s :: ClosedIn(cells, s) && seen <= s && id in s ==> Refs(cells, id, seen) <= s
    decreases id
  {
    if id !in seen && cells[id].BranchCell? {
      assert CellOk(cells, id, cells[id]);
      var t, e := cells[id].tru, cells[id].fls;
      RefsLeast(cells, t, seen);
      RefsLeast(cells, e, Refs(cells, t, seen));
      forall s | ClosedIn(cells, s) && seen <= s && id in s ensures Refs(cells, id, seen) <= s {
        assert t in s && e in s;
      }
    }
  }

  /** A clear keeps the diagram of `id` whole exactly when it preserves all that
      is below it. */
  lemma ClearKeepsIff(cells: Cells, cells': Cells, preserve: set<int>, id: int)
    requires CellsOk(cells) && id in cells && cells' == map i | i in cells && i in preserve :: cells[i]
    ensures (exists s :: id in s && ClosedIn(cells', s)) <==> Refs(cells, id, {}) <= preserve
  {
    RefsLeast(cells, id, {});
    var r := Refs(cells, id, {});
    if r <= preserve {
      assert ClosedIn(cells', r);
    }
    if s :| id in s && ClosedIn(cells', s) {
      assert ClosedIn(cells, s);
      assert r <= s;
    }
  }

  ghost predicate Valid(hash: Cell -> int, s: H.Hc<Cell>) {
    H.Inv(Cons(hash), s) && CellsOk(s.untbl)
  }

  lemma ValidUnique(hash: Cell -> int, s: H.Hc<Cell>)
    requires Valid(hash, s)
    ensures Unique(s.untbl)
  {
  }

  /** Adding a cell keeps the trees of all ids. */
  lemma GotDecode(hash: Cell -> int, s: H.Hc<Cell>, c: Cell)
    requires Valid(hash, s) && (c.BranchCell? ==> c.tru in s.untbl && c.fls in s.untbl)
    ensures var (s', id) := (H.Got(Cons(hash), s, c), H.IdOf(Cons(hash), s, c));
            && Valid(hash, s') && id in s'.untbl && H.Hits(Cons(hash), s.slots, s'.untbl[id], c)
            && (!H.Found(Cons(hash), s, c) ==> s'.untbl[id] == c)
            && forall i :: i in s.untbl ==> i in s'.untbl && Decode(s'.untbl, i) == Decode(s.untbl, i)
  {
    var s' := H.Got(Cons(hash), s, c);
    ConsEquivalence(hash);
    H.GotInv(Cons(hash), s, c);
    forall i | i in s'.untbl ensures i >= 0 && CellOk(s'.untbl, i, s'.untbl[i]) {
      if i in s.untbl { assert CellOk(s.untbl, i, s.untbl[i]); }
    }
    AllClosed(s.untbl);
    forall i | i in s.untbl ensures Decode(s'.untbl, i) == Decode(s.untbl, i) {
      DecodeSame(s.untbl, s'.untbl, s.untbl.Keys, i);
    }
  }

  /** The trees of `s` are those of `s'`, for all ids of `s`. */
  ghost predicate SameTrees(hash: Cell -> int, s: H.Hc<Cell>, s': H.Hc<Cell>, ids: set<int>) {
    && Valid(hash, s) && Valid(hash, s')
    && forall i :: i in ids ==> i in s.untbl && i in s'.untbl && Decode(s'.untbl, i) == Decode(s.untbl, i)
  }

  // Two ids for one test

  /** 192.168.0.1 and 192.168.0.5 as signed words, with the 24 bits that they share. */
  const FIRST: TestValue := Mask(-1062731775, 56)
  const FIFTH: TestValue := Mask(-1062731771, 56)

  lemma SameNetwork()
    ensures Same(Canon(FIRST), Canon(FIFTH)) && FIRST != FIFTH && !HostBitsClear(FIRST)
  {
    assert Shr(-1062731775, 8) == -4151296 && Shr(-1062731771, 8) == -4151296;
    assert Pow2(8) == 256;
  }

  /** Where the hash sends the two cells to different slots, they get two ids, and a
      node is made whose branches test the same. */
  lemma HostBitsTwoIds(hash: Cell -> int, s: H.Hc<Cell>, f: Field, one: int, drop: int, g: Field, v: Prefix)
    requires Valid(hash, s) && one in s.untbl && drop in s.untbl
    requires hash(BranchCell(f, FIRST, one, drop)) % s.slots != hash(BranchCell(f, FIFTH, one, drop)) % s.slots
    ensures var (h, c, d) := (Cons(hash), BranchCell(f, FIRST, one, drop), BranchCell(f, FIFTH, one, drop));
            var s' := H.Got(h, H.Got(h, s, c), d);
            var (i, j) := (H.IdOf(h, s, c), H.IdOf(h, H.Got(h, s, c), d));
            && Valid(hash, s') && i in s'.untbl && j in s'.untbl && i != j
            && SameTests(Decode(s'.untbl, i), Decode(s'.untbl, j))
            && MkBranch(g, v, Decode(s'.untbl, i), Decode(s'.untbl, j)).Branch?
  {
    var h, c, d := Cons(hash), BranchCell(f, FIRST, one, drop), BranchCell(f, FIFTH, one, drop);
    var s1 := H.Got(h, s, c);
    var s2 := H.Got(h, s1, d);
    var i, j := H.IdOf(h, s, c), H.IdOf(h, s1, d);
    SameNetwork();
    CompareZero(FIRST, FIFTH);
    ConsEquivalence(hash);
    GotDecode(hash, s, c);
    GotKeeps(hash, s1, d);
    GotDecode(hash, s1, d);
    ValidUnique(hash, s2);
    hide SameTests, Compare, CellsOk, H.Got, H.IdOf, H.Found, H.Inv, Canon;
    assert CompareEqual(s2.untbl[i], c) && CompareEqual(d, s2.untbl[j]) && CompareEqual(c, d);
    assert CompareEqual(s2.untbl[i], s2.untbl[j]) by { SameIsTransitive(hash, s2.untbl[i], c, d, s2.untbl[j]); }
    EqualCellsSameTests(s2.untbl, i, j);
    IdIsTree(s2.untbl, i, j);
  }

  lemma SameIsTransitive(hash: Cell -> int, a: Cell, b: Cell, c: Cell, d: Cell)
    requires CompareEqual(a, b) && CompareEqual(b, c) && CompareEqual(c, d)
    ensures CompareEqual(a, d)
  {
    ConsEquivalence(hash);
    hide CompareEqual;
    var h := Cons(hash);
    assert h.same(a, b) && h.same(b, c) && h.same(c, d);
  }

  lemma GotKeeps(hash: Cell -> int, s: H.Hc<Cell>, c: Cell)
    requires Valid(hash, s)
    ensures forall i :: i in s.untbl ==>
            i in H.Got(Cons(hash), s, c).untbl && H.Got(Cons(hash), s, c).untbl[i] == s.untbl[i]
  {
    ConsEquivalence(hash);
    H.GotInv(Cons(hash), s, c);
  }

  class Store {
    const cells: H.Table<Cell>
    const hash: Cell -> int

    ghost function S(): H.Hc<Cell>
      reads this, cells
    {
      cells.S()
    }

    ghost predicate Ok()
      reads this, cells
    {
      cells.h == Cons(hash) && Valid(hash, S())
    }

    constructor (hash: Cell -> int, slots: H.Slots)
      ensures this.hash == hash && fresh(cells) && Ok() && S() == H.Hc(map[], map[], 0, slots)
    {
      this.hash := hash;
      cells := new H.Table<Cell>(Cons(hash), slots);
    }

    method MkLeaf(par: Par) returns (id: int)
      requires Ok()
      modifies cells
      ensures Ok() && SameTrees(hash, old(S()), S(), old(S()).untbl.Keys)
      ensures id in S().untbl && Decode(S().untbl, id) == Leaf(par)
    {
      ghost var s := S();
      ConsEquivalence(hash);
      GotDecode(hash, s, LeafCell(par));
      id := cells.Get(LeafCell(par));
    }

    /** `mk_branch` is `MkBranch` on the trees: equal ids are equal branches.  Only the
        mask of the new node may be written as in a cell that was there before. */
    method MkBranchId(f: Field, v: TestValue, t: int, e: int) returns (id: int)
      requires Ok() && t in S().untbl && e in S().untbl
      modifies cells
      ensures Ok() && SameTrees(hash, old(S()), S(), old(S()).untbl.Keys) && id in S().untbl
      ensures exists w ::
              Same(w, Canon(v)) && (!H.Found(Cons(hash), old(S()), BranchCell(f, v, t, e)) ==> w == Canon(v))
                          && Decode(S().untbl, id) ==
                             MkBranch(f, w, Decode(old(S()).untbl, t), Decode(old(S()).untbl, e))
    {
      ghost var s := S();
      ValidUnique(hash, s);
      IdIsTree(s.untbl, t, e);
      if t == e {
        id := t;
        assert Same(Canon(v), Canon(v));
      } else {
        ConsEquivalence(hash);
        GotDecode(hash, s, BranchCell(f, v, t, e));
        id := cells.Get(BranchCell(f, v, t, e));
        CompareZero(S().untbl[id].value, v);
      }
    }

    /** `clear_cache`, which the compiler calls with the `refs` of a diagram: that
        diagram and the two constants keep their trees. */
    method ClearCache(root: int, drop: int, one: int)
      requires Ok() && root in S().untbl && drop in S().untbl && one in S().untbl
      requires S().untbl[drop].LeafCell? && S().untbl[one].LeafCell?
      modifies cells
      ensures Ok() && S().untbl.Keys == Refs(old(S()).untbl, root, {}) + {drop, one}
      ensures SameTrees(hash, old(S()), S(), S().untbl.Keys)
    {
      ghost var s := S();
      var refs := Refs(cells.untbl, root, {});
      RefsLeast(s.untbl, root, {});
      var preserve := refs + {drop, one};
      cells.Clear(preserve);
      ghost var s' := S();
      assert s'.untbl.Keys == preserve;
      assert ClosedIn(s.untbl, preserve);
      forall i | i in s'.untbl ensures i >= 0 && CellOk(s'.untbl, i, s'.untbl[i]) {
        assert CellOk(s.untbl, i, s.untbl[i]);
      }
      forall i | i in preserve ensures Decode(s'.untbl, i) == Decode(s.untbl, i) {
        DecodeSame(s.untbl, s'.untbl, preserve, i);
      }
    }
  }
}
