/** Field values as the compiler writes them, and the lattice they form. */
module Values {

  import opened Prefixes
  import opened Wrappers

  /** A 64-bit constant, or its first `m` bits. */
  datatype Value = Const(a: int) | Mask(a: int, m: nat)

  function Pow2(k: nat): (r: int)
    ensures r >= 1
  {
    if k == 0 then 1 else 2 * Pow2(k - 1)
  }

  predicate IsWord(w: nat, x: int)
    requires w >= 1
  {
    -Pow2(w - 1) <= x < Pow2(w - 1)
  }

  /** Logical shift right of a `w`-bit word. */
  function ShrLogical(w: nat, x: int, k: nat): int {
    Shr(if x < 0 then x + Pow2(w) else x, k)
  }

  function SubsetEqMask(a: int, m: nat, b: int, n: nat): bool {
    if m < n || n > 64 then false else ShrLogical(64, a, 64 - n) == ShrLogical(64, b, 64 - n)
  }

  function SubsetEq(x: Value, y: Value): bool {
    match (x, y)
    case (Const(a), Const(b)) => a == b
    case (Mask(a, m), Const(b)) => m == 64 && a == b
    case (Mask(a, m), Mask(b, n)) => SubsetEqMask(a, m, b, n)
    case (Const(a), Mask(b, n)) => SubsetEqMask(a, 64, b, n)
  }

  function MeetMask(tight: bool, a: int, m: nat, b: int, n: nat): Option<Value> {
    var lt := SubsetEq(Mask(a, m), Mask(b, n));
    var gt := SubsetEq(Mask(b, n), Mask(a, m));
    if lt && gt then Some(Mask(a, m))
    else if lt then (if !tight || m == n + 1 then Some(Mask(a, m)) else None)
    else if gt then (if !tight || n == m + 1 then Some(Mask(b, n)) else None)
    else None
  }

  function Meet(tight: bool, x: Value, y: Value): Option<Value> {
    match (x, y)
    case (Const(a), Const(b)) => if a == b then Some(Const(a)) else None
    case (Mask(a, m), Const(b)) => if m == 64 && a == b then Some(Const(a)) else None
    case (Mask(a, m), Mask(b, n)) => MeetMask(tight, a, m, b, n)
    case (Const(a), Mask(b, n)) => MeetMask(tight, a, 64, b, n)
  }

  function JoinMask(tight: bool, a: int, m: nat, b: int, n: nat): Option<Value>
    requires m >= 1 && n >= 1
  {
    var lt := SubsetEq(Mask(a, m), Mask(b, n));
    var gt := SubsetEq(Mask(b, n), Mask(a, m));
    if lt && gt then Some(Mask(a, m))
    else if lt then (if !tight || n == m - 1 then Some(Mask(b, n)) else None)
    else if gt then (if !tight || m == n - 1 then Some(Mask(a, m)) else None)
    else if !tight || m == n then
      var x, y := Mask(a, m - 1), Mask(b, n - 1);
      if SubsetEq(x, y) && SubsetEq(y, x) then Some(x) else None
    else None
  }

  function Join(tight: bool, x: Value, y: Value): Option<Value>
    requires x.Mask? ==> x.m >= 1
    requires y.Mask? ==> y.m >= 1
  {
    match (x, y)
    case (Const(a), Const(b)) => if a == b then Some(Const(a)) else None
    case (Mask(a, m), Const(b)) => if m == 64 && a == b then Some(Const(a)) else None
    case (Mask(a, m), Mask(b, n)) => JoinMask(tight, a, m, b, n)
    case (Const(a), Mask(b, n)) => JoinMask(tight, a, 64, b, n)
  }

  function Sign(a: int, b: int): int {
    if a < b then -1 else if a == b then 0 else 1
  }

  function Compare(x: Value, y: Value): int
    requires x.Mask? ==> x.m <= 64
    requires y.Mask? ==> y.m <= 64
  {
    if x.Const? && y.Const? then Sign(x.a, y.a)
    else if x.Const? && y.Mask? && y.m == 64 then Sign(x.a, y.a)
    else if x.Mask? && x.m == 64 && y.Const? then Sign(x.a, y.a)
    else if x.Mask? && y.Mask? then
      var shift := 64 - Min(x.m, y.m);
      var c := Sign(Shr(x.a, shift), Shr(y.a, shift));
      if c == 0 then Sign(y.m, x.m) else c
    else if x.Const? then -1
    else 1
  }

  /** A mask over a 64-bit word with a length the shifts are defined for. */
  predicate ValidMask(x: Value) {
    x.Mask? && 1 <= x.m <= 64 && IsWord(64, x.a)
  }

  /** A value as a prefix. */
  function Canon(x: Value): Prefix
    requires x.Mask? ==> x.m <= 64
  {
    match x
    case Const(a) => Full(a)
    case Mask(a, m) => Prefix(Shr(a, 64 - m), m, Some(a))
  }

  /** The words a mask stands for. */
  predicate Contains(x: Value, w: int)
    requires ValidMask(x)
  {
    IsWord(64, w) && Shr(w, 64 - x.m) == Shr(x.a, 64 - x.m)
  }

  // Shifts

  lemma {:induction false} ShrPlus(x: int, j: nat, k: nat)
    ensures Shr(x + Pow2(j + k), k) == Shr(x, k) + Pow2(j)
    decreases k
  {
    if k > 0 {
      assert (x + Pow2(j + k)) / 2 == x / 2 + Pow2(j + k - 1);
      ShrPlus(x / 2, j, k - 1);
    }
  }

  lemma {:induction false} ShrRange(x: int, j: nat, k: nat)
    ensures 0 <= x < Pow2(j + k) <==> 0 <= Shr(x, k) < Pow2(j)
    ensures -Pow2(j + k) <= x < 0 <==> -Pow2(j) <= Shr(x, k) < 0
    decreases k
  {
    if k > 0 {
      ShrRange(x / 2, j, k - 1);
      assert Pow2(j + k) == 2 * Pow2(j + (k - 1));
    }
  }

  /** Logical and arithmetic shifts tell the same words apart. */
  lemma LogicalIsArithmetic(w: nat, x: int, y: int, k: nat)
    requires k < w && IsWord(w, x) && IsWord(w, y)
    ensures ShrLogical(w, x, k) == ShrLogical(w, y, k) <==> Shr(x, k) == Shr(y, k)
  {
    var j := w - 1 - k;
    assert Pow2(w) == Pow2((j + 1) + k) && Pow2(w - 1) == Pow2(j + k);
    ShrPlus(x, j + 1, k);
    ShrPlus(y, j + 1, k);
    ShrRange(x, j, k);
    ShrRange(y, j, k);
  }

  /** How a 32-bit word is written as an integer: as the source does, or shifted by
      2^32 where that makes all words non-negative, or all negative. */
  datatype Naming = Signed | Low | High

  predicate Named(n: Naming, x: int) {
    match n
    case Signed => IsWord(32, x)
    case Low => 0 <= x < Pow2(32)
    case High => -Pow2(32) <= x < 0
  }

  /** The shift tells words apart however they are written. */
  lemma NamedShift(n: Naming, x: int, y: int, k: nat)
    requires k <= 32 && Named(n, x) && Named(n, y) && (n == Signed ==> k < 32)
    ensures ShrLogical(32, x, k) == ShrLogical(32, y, k) <==> Shr(x, k) == Shr(y, k)
  {
    hide Pow2, Shr, IsWord;
    match n
    case Signed => LogicalIsArithmetic(32, x, y, k);
    case Low =>
    case High =>
      ShrPlus(x, 32 - k, k);
      ShrPlus(y, 32 - k, k);
  }

  // The values as prefixes

  /** Two constants, or two masks. */
  predicate OneKind(x: Value, y: Value) {
    (x.Const? && y.Const?) || (ValidMask(x) && ValidMask(y))
  }

  lemma SubsetEqIsWithin(x: Value, y: Value)
    requires OneKind(x, y)
    ensures SubsetEq(x, y) <==> Within(Canon(x), Canon(y))
  {
    if x.Mask? {
      LogicalIsArithmetic(64, x.a, y.a, 64 - y.m);
      if y.m <= x.m {
        ShrAdd(x.a, 64 - x.m, x.m - y.m);
      }
    }
  }

  lemma CompareIsBefore(x: Value, y: Value)
    requires OneKind(x, y)
    ensures Compare(x, y) < 0 <==> Before(Canon(x), Canon(y))
    ensures Compare(x, y) == 0 <==> Same(Canon(x), Canon(y))
  {
    if x.Mask? {
      var m := Min(x.m, y.m);
      ShrAdd(x.a, 64 - x.m, x.m - m);
      ShrAdd(y.a, 64 - y.m, y.m - m);
    }
  }

  lemma ContainsIsMatches(x: Value, w: int)
    requires ValidMask(x) && IsWord(64, w)
    ensures Contains(x, w) <==> Matches(w, Canon(x))
  {
  }

  // The lattice

  lemma Flip(a: int, k: nat) returns (w: int)
    ensures Shr(w, k) != Shr(a, k) && Shr(w, k + 1) == Shr(a, k + 1)
  {
    if Shr(a, k) % 2 == 0 {
      w := a + Pow2(0 + k);
      ShrPlus(a, 0, k);
    } else {
      w := a - Pow2(0 + k);
      ShrPlus(w, 0, k);
    }
    ShrAdd(w, k, 1);
    ShrAdd(a, k, 1);
  }

  lemma SameAbove(w: int, a: int, k: nat, j: nat)
    requires Shr(w, k) == Shr(a, k) && k <= j
    ensures Shr(w, j) == Shr(a, j)
  {
    ShrAdd(w, k, j - k);
    ShrAdd(a, k, j - k);
  }

  /** Two words that share their first `m` bits and differ in the first `n`. */
  lemma Split(a: int, m: nat, n: nat) returns (w: int)
    requires 1 <= m < n <= 64 && IsWord(64, a)
    ensures IsWord(64, w)
    ensures Shr(w, 64 - m) == Shr(a, 64 - m) && Shr(w, 64 - n) != Shr(a, 64 - n)
  {
    w := Flip(a, 64 - n);
    SameAbove(w, a, 64 - n + 1, 64 - m);
    SameAbove(w, a, 64 - m, 63);
    ShrRange(a, 0, 63);
    ShrRange(w, 0, 63);
  }

  /** `subset_eq` is inclusion of the words. */
  lemma SubsetEqIsInclusion(x: Value, y: Value)
    requires ValidMask(x) && ValidMask(y)
    ensures SubsetEq(x, y) <==> forall w :: Contains(x, w) ==> Contains(y, w)
  {
    SubsetEqIsWithin(x, y);
    if SubsetEq(x, y) {
      forall w | Contains(x, w) ensures Contains(y, w) {
        ContainsIsMatches(x, w);
        ContainsIsMatches(y, w);
        WithinTransitive(Full(w), Canon(x), Canon(y));
      }
    } else if x.m < y.m {
      var w := Split(x.a, x.m, y.m);
      assert Contains(x, w) && Contains(x, x.a);
      assert !(Contains(y, w) && Contains(y, x.a));
    } else {
      LogicalIsArithmetic(64, x.a, y.a, 64 - y.m);
      assert Contains(x, x.a) && !Contains(y, x.a);
    }
  }

  /** Without `tight`, `meet` is intersection, and `None` is the empty set. */
  lemma MeetIsIntersection(x: Value, y: Value, w: int)
    requires ValidMask(x) && ValidMask(y)
    ensures var z := Meet(false, x, y);
            && (z.Some? ==> ValidMask(z.value))
            && (Contains(x, w) && Contains(y, w) <==> z.Some? && Contains(z.value, w))
  {
    SubsetEqIsWithin(x, y);
    SubsetEqIsWithin(y, x);
    SubsetEqIsInclusion(x, y);
    SubsetEqIsInclusion(y, x);
    if Contains(x, w) && Contains(y, w) {
      ContainsIsMatches(x, w);
      ContainsIsMatches(y, w);
      Laminar(Full(w), Canon(x), Canon(y));
    }
  }

  /** `meet` finds no common words exactly when there are none. */
  lemma MeetNoneIffDisjoint(x: Value, y: Value)
    requires ValidMask(x) && ValidMask(y)
    ensures Meet(false, x, y) == None <==> !exists w :: Contains(x, w) && Contains(y, w)
  {
    if Meet(false, x, y).Some? {
      var z := Meet(false, x, y).value;
      MeetIsIntersection(x, y, z.a);
      assert Contains(z, z.a);
    }
    forall w | Contains(x, w) && Contains(y, w) ensures Meet(false, x, y).Some? {
      MeetIsIntersection(x, y, w);
    }
  }

  /** Whatever `join` returns is the least mask above both arguments. */
  lemma JoinIsLeastUpperBound(tight: bool, x: Value, y: Value, u: Value)
    requires ValidMask(x) && ValidMask(y) && ValidMask(u) && x.m >= 2 && y.m >= 2
    requires Join(tight, x, y).Some?
    ensures var z := Join(tight, x, y).value;
            && ValidMask(z) && SubsetEq(x, z) && SubsetEq(y, z)
            && (SubsetEq(x, u) && SubsetEq(y, u) ==> SubsetEq(z, u))
  {
    var z := Join(tight, x, y).value;
    SubsetEqIsWithin(x, y);
    SubsetEqIsWithin(y, x);
    SubsetEqIsWithin(x, u);
    SubsetEqIsWithin(y, u);
    SubsetEqIsWithin(x, z);
    SubsetEqIsWithin(y, z);
    SubsetEqIsWithin(z, u);
    if !SubsetEq(x, y) && !SubsetEq(y, x) {
      var x', y' := Mask(x.a, x.m - 1), Mask(y.a, y.m - 1);
      SubsetEqIsWithin(x', y');
      SubsetEqIsWithin(y', x');
      SubsetEqIsWithin(x, x');
      SubsetEqIsWithin(y, y');
      ShrAdd(x.a, 64 - x.m, 1);
      ShrAdd(y.a, 64 - y.m, 1);
      assert Within(Canon(y), Canon(x'));
      if SubsetEq(x, u) && SubsetEq(y, u) {
        Laminar(Canon(x), Canon(x'), Canon(u));
      }
    }
  }

  /** Masks of one length that differ in the last bit at most. */
  predicate Siblings(x: Value, y: Value)
    requires ValidMask(x) && ValidMask(y)
  {
    x.m == y.m && Shr(x.a, 65 - x.m) == Shr(y.a, 65 - y.m)
  }

  /** `join` finds a result for a mask inside the other one, and for siblings; with
      `tight`, only if the lengths differ by one bit at most. */
  lemma JoinFindsIff(tight: bool, x: Value, y: Value)
    requires ValidMask(x) && ValidMask(y) && x.m >= 2 && y.m >= 2
    ensures Join(tight, x, y).Some? <==>
            Siblings(x, y) || ((SubsetEq(x, y) || SubsetEq(y, x)) && (tight ==> -1 <= x.m - y.m <= 1))
  {
    var x', y' := Mask(x.a, x.m - 1), Mask(y.a, y.m - 1);
    SubsetEqIsWithin(x, y);
    SubsetEqIsWithin(y, x);
    SubsetEqIsWithin(x', y');
    SubsetEqIsWithin(y', x');
    if x.m == y.m {
      ShrAdd(x.a, 64 - x.m, 1);
      ShrAdd(y.a, 64 - y.m, 1);
    }
  }

  /** What lies in a join lies in an argument or is all of the join, as `tight` asks;
      this holds without `tight`, too. */
  lemma JoinIsTight(tight: bool, x: Value, y: Value, u: Value)
    requires ValidMask(x) && ValidMask(y) && ValidMask(u) && x.m >= 2 && y.m >= 2
    requires Join(tight, x, y).Some? && SubsetEq(u, Join(tight, x, y).value)
    ensures SubsetEq(u, x) || SubsetEq(u, y) || SubsetEq(Join(tight, x, y).value, u)
  {
    hide Pow2, ShrLogical, SubsetEqMask;
    var z := Join(tight, x, y).value;
    JoinFindsIff(tight, x, y);
    if !SubsetEq(x, y) && !SubsetEq(y, x) {
      SubsetEqIsWithin(u, z);
      SubsetEqIsWithin(z, u);
      SubsetEqIsWithin(u, x);
      SubsetEqIsWithin(u, y);
      SubsetEqIsWithin(x, y);
      ShrAdd(x.a, 64 - x.m, 1);
      ShrAdd(y.a, 64 - y.m, 1);
      if u.m >= x.m {
        ShrAdd(u.a, 64 - u.m, u.m - x.m);
        ShrAdd(u.a, 64 - u.m, u.m - z.m);
        ShrAdd(u.a, 64 - x.m, 1);
        OneBit(Shr(u.a, 64 - x.m), Shr(x.a, 64 - x.m), Shr(y.a, 64 - x.m));
      }
    }
  }

  lemma OneBit(u: int, x: int, y: int)
    requires Shr(u, 1) == Shr(x, 1) == Shr(y, 1) && x != y
    ensures u == x || u == y
  {
    assert Shr(u, 1) == u / 2 && Shr(x, 1) == x / 2 && Shr(y, 1) == y / 2;
  }

  /** The documentation asks for the least upper bound if one exists.  Two words that
      differ in the last bit but one have one, and `join` does not find it. */
  lemma JoinMissesBound(tight: bool, v: Value)
    requires ValidMask(v)
    ensures var (x, y, z) := (Mask(0, 64), Mask(2, 64), Mask(0, 62));
            && SubsetEq(x, z) && SubsetEq(y, z) && (SubsetEq(x, v) && SubsetEq(y, v) ==> SubsetEq(z, v))
            && Join(tight, x, y) == None
  {
    var x, y, z := Mask(0, 64), Mask(2, 64), Mask(0, 62);
    WordRange(0);
    WordRange(2);
    ShrSmall();
    SubsetEqIsWithin(x, y);
    SubsetEqIsWithin(y, x);
    SubsetEqIsWithin(x, z);
    SubsetEqIsWithin(y, z);
    SubsetEqIsWithin(x, v);
    SubsetEqIsWithin(y, v);
    SubsetEqIsWithin(z, v);
    JoinFindsIff(tight, x, y);
    if SubsetEq(x, v) && SubsetEq(y, v) {
      Laminar(Canon(x), Canon(z), Canon(v));
    }
  }

  lemma WordRange(x: int)
    requires 0 <= x < 4
    ensures IsWord(64, x)
  {
    assert Pow2(63) == 8 * Pow2(60);
  }

  lemma ShrSmall()
    ensures Shr(0, 0) == 0 && Shr(2, 0) == 2 && Shr(0, 1) == 0 && Shr(2, 1) == 1 && Shr(0, 2) == 0 && Shr(2, 2) == 0
  {
    assert Shr(2, 1) == Shr(1, 0) && Shr(2, 2) == Shr(1, 1) && Shr(1, 1) == Shr(0, 0);
    assert Shr(0, 2) == Shr(0, 1) && Shr(0, 1) == Shr(0, 0);
  }

  /** With `tight`, `meet` finds its result only if the lengths differ by one bit at
      most. */
  lemma TightMeet(x: Value, y: Value)
    requires ValidMask(x) && ValidMask(y)
    ensures Meet(true, x, y) == if -1 <= x.m - y.m <= 1 then Meet(false, x, y) else None
  {
  }

  /** On masks `compare` is a total preorder that puts a mask before every mask
      strictly above it. */
  lemma CompareIsTotalPreorder(x: Value, y: Value, z: Value)
    requires ValidMask(x) && ValidMask(y) && ValidMask(z)
    ensures Compare(x, y) <= 0 || Compare(y, x) <= 0
    ensures Compare(x, y) <= 0 && Compare(y, z) <= 0 ==> Compare(x, z) <= 0
    ensures Compare(x, y) == 0 <==> SubsetEq(x, y) && SubsetEq(y, x)
    ensures SubsetEq(x, y) && !SubsetEq(y, x) ==> Compare(x, y) < 0
  {
    CompareIsBefore(x, y);
    CompareIsBefore(y, x);
    CompareIsBefore(y, z);
    CompareIsBefore(x, z);
    SubsetEqIsWithin(x, y);
    SubsetEqIsWithin(y, x);
    OrderFacts();
  }

  // Constants and masks of one field

  /** A constant word, or a mask. */
  predicate Proper(x: Value) {
    if x.Const? then IsWord(64, x.a) else ValidMask(x)
  }

  type Written = x: Value | Proper(x) witness Const(0)

  ghost predicate Transitive(s: iset<Written>) {
    forall x, y, z :: x in s && y in s && z in s && Compare(x, y) <= 0 && Compare(y, z) <= 0 ==> Compare(x, z) <= 0
  }

  /** A shorter mask before a 64-bit one that is not greater than a constant. */
  predicate Clash(c: Written, q: Written, f: Written) {
    c.Const? && q.Mask? && q.m < 64 && f.Mask? && f.m == 64 && Compare(q, f) < 0 && f.a <= c.a
  }

  lemma CompareIsAntisymmetric(x: Written, y: Written)
    ensures Compare(x, y) == -Compare(y, x)
  {
  }

  lemma ClashIsCycle(c: Written, q: Written, f: Written)
    requires Clash(c, q, f)
    ensures Compare(c, q) < 0 && Compare(q, f) < 0 && Compare(f, c) <= 0 && Compare(f, q) > 0
  {
    CompareIsAntisymmetric(q, f);
  }

  /** Three values that do not clash are in order. */
  lemma NoClashNoCycle(x: Written, y: Written, z: Written)
    requires Compare(x, y) <= 0 && Compare(y, z) <= 0
    requires !Clash(x, y, z) && !Clash(y, z, x) && !Clash(z, x, y)
    ensures Compare(x, z) <= 0
  {
    if x.Mask? && y.Mask? && z.Mask? {
      CompareIsTotalPreorder(x, y, z);
    }
    CompareIsAntisymmetric(x, z);
    if x.Mask? && z.Mask? && x.m < 64 && z.m < 64 { assert y.Mask?; }
  }

  /** `compare` orders a set of values if and only if none of them clash. */
  lemma OrderedIffNoClash(s: iset<Written>)
    ensures Transitive(s) <==> !exists c, q, f :: c in s && q in s && f in s && Clash(c, q, f)
  {
    if c, q, f :| c in s && q in s && f in s && Clash(c, q, f) {
      ClashIsCycle(c, q, f);
    } else {
      forall x, y, z | x in s && y in s && z in s && Compare(x, y) <= 0 && Compare(y, z) <= 0
        ensures Compare(x, z) <= 0
      {
        NoClashNoCycle(x, y, z);
      }
    }
  }

  /** So it orders a field that is written with constants only, or with masks only. */
  lemma OneKindIsOrdered(s: iset<Written>)
    requires forall x, y :: x in s && y in s ==> OneKind(x, y)
    ensures Transitive(s)
  {
    OrderedIffNoClash(s);
  }

  /** `meet` depends on the order of its arguments if and only if one is a constant and
      the other a mask shorter than 64 bits that holds it. */
  lemma MeetDependsOnOrderIff(x: Written, y: Written)
    ensures Meet(false, x, y).Some? != Meet(false, y, x).Some? <==> HoldsConst(x, y) || HoldsConst(y, x)
  {
    if x.Const? && y.Mask? { LogicalIsArithmetic(64, x.a, y.a, 64 - y.m); }
    if y.Const? && x.Mask? { LogicalIsArithmetic(64, y.a, x.a, 64 - x.m); }
  }

  predicate HoldsConst(c: Written, q: Written) {
    c.Const? && q.Mask? && q.m < 64 && Contains(q, c.a)
  }

  /** With constants and masks mixed, `compare` has a cycle and `meet` depends
      on the order of its arguments. */
  lemma MixedValuesAreNotOrdered()
    ensures var x, y, z := Const(100), Mask(-0x1_0000_0000, 32), Mask(9, 64);
            Compare(x, y) < 0 && Compare(y, z) < 0 && Compare(z, x) < 0
    ensures Meet(false, Const(0), Mask(0, 32)) != Meet(false, Mask(0, 32), Const(0))
  {
    Pow2Values();
    ShrRange(-0x1_0000_0000, 0, 32);
    ShrRange(9, 0, 32);
    LogicalIsArithmetic(64, 0, 0, 32) by { assert Pow2(63) >= 1; }
  }

  lemma Pow2Values()
    ensures Pow2(4) == 16 && Pow2(32) == 0x1_0000_0000
  {
    assert Pow2(8) == 256;
    assert Pow2(16) == 0x1_0000;
    assert Pow2(24) == 0x100_0000;
  }
}
