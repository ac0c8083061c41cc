/** Packets and the actions at the leaves of a decision diagram.

    A field is written as its place in the current field order, so comparing
    two fields is comparing two numbers; the definitions hold for every order. */
module Actions {

  import opened Prefixes
  import opened Wrappers

  const NUM_FIELDS: nat := 20

  type Field = f: nat | f < NUM_FIELDS

  /** A packet gives each header field a 64-bit value. */
  type Packet = map<Field, int>

  function Get(p: Packet, f: Field): int {
    if f in p then p[f] else 0
  }

  /** A packet with a value for each field. */
  ghost predicate Complete(p: Packet) {
    forall f: Field :: f in p
  }

  /** Assignments to fields, and the automaton state that goes on with the
      result (`K` in the source). */
  datatype Act = Act(mods: map<Field, int>, cont: Option<int>)

  /** Alternatives taken in parallel. */
  type Par = set<Act>

  const SKIP: Act := Act(map[], None)
  const ONE: Par := {SKIP}
  const ZERO: Par := {}

  function Run(s: Act, p: Packet): Packet {
    p + s.mods
  }

  /** Sequential composition of two actions: the right one wins. */
  function Merge(s: Act, t: Act): Act {
    Act(s.mods + t.mods, if t.cont.Some? then t.cont else s.cont)
  }

  lemma RunMerge(s: Act, t: Act, p: Packet)
    ensures Run(Merge(s, t), p) == Run(t, Run(s, p))
  {
  }

  lemma MergeSkip(s: Act)
    ensures Merge(SKIP, s) == s && Merge(s, SKIP) == s
  {
    assert SKIP.mods + s.mods == s.mods && s.mods + SKIP.mods == s.mods;
  }

  function Sum(a: Par, b: Par): (r: Par)
    ensures r == a + b
  {
    if a == ZERO then b
    else if b == ZERO then a
    else a + b
  }

  /** All the compositions of an action of `a` with an action of `b`. */
  function Products(a: Par, b: Par): Par {
    set s, t | s in a && t in b :: Merge(s, t)
  }

  function Prod(a: Par, b: Par): (r: Par)
    ensures r == Products(a, b)
  {
    if a == ZERO then ZERO
    else if b == ZERO then ZERO
    else if a == ONE then
      assert Products(a, b) == b by { ProductsOne(b); }
      b
    else if b == ONE then
      assert Products(a, b) == a by { ProductsOne(a); }
      a
    else Products(a, b)
  }

  lemma ProductsOne(a: Par)
    ensures Products(ONE, a) == a && Products(a, ONE) == a
  {
    forall x ensures x in Products(ONE, a) <==> x in a { OneLeft(a, x); }
    forall x ensures x in Products(a, ONE) <==> x in a { OneRight(a, x); }
  }

  lemma OneLeft(a: Par, x: Act)
    ensures x in Products(ONE, a) <==> x in a
  {
    if x in a {
      MergeSkip(x);
      assert SKIP in ONE;
    }
    if x in Products(ONE, a) {
      var s, t :| s in ONE && t in a && x == Merge(s, t);
      MergeSkip(t);
    }
  }

  lemma OneRight(a: Par, x: Act)
    ensures x in Products(a, ONE) <==> x in a
  {
    if x in a {
      MergeSkip(x);
      assert SKIP in ONE;
    }
    if x in Products(a, ONE) {
      var s, t :| s in a && t in ONE && x == Merge(s, t);
      MergeSkip(s);
    }
  }

  function Negate(a: Par): Par {
    if a == ZERO then ONE else ZERO
  }

  /** Drops an assignment that a passed test has made redundant. */
  function DemodAct(f: Field, v: Prefix, s: Act): Act {
    if f in s.mods && Same(Full(s.mods[f]), v) then s.(mods := s.mods - {f}) else s
  }

  function Demod(f: Field, v: Prefix, a: Par): Par {
    set s | s in a :: DemodAct(f, v, s)
  }

  /** A packet leaving a diagram, with the state that goes on with it. */
  datatype Out = Out(pkt: Packet, cont: Option<int>)

  function RunPar(a: Par, p: Packet): set<Out> {
    set s | s in a :: Out(Run(s, p), s.cont)
  }

  lemma DemodMeaning(f: Field, v: Prefix, a: Par, p: Packet)
    requires f in p && Matches(p[f], v)
    ensures RunPar(Demod(f, v, a), p) == RunPar(a, p)
  {
    forall s | s in a ensures Run(DemodAct(f, v, s), p) == Run(s, p) && DemodAct(f, v, s).cont == s.cont {
      assert p + (s.mods - {f}) == (p + (s.mods - {f}))[f := p[f]];
    }
    forall x ensures x in RunPar(a, p) <==> x in RunPar(Demod(f, v, a), p) {
      if x in RunPar(a, p) {
        var s :| s in a && x == Out(Run(s, p), s.cont);
        assert DemodAct(f, v, s) in Demod(f, v, a);
      }
    }
  }

  predicate Sorted(lst: seq<(Field, Prefix)>) {
    forall i, j :: 0 <= i < j < |lst| ==> lst[i].0 < lst[j].0
  }

  /** `lst` is the association list of `mods`, in field order. */
  ghost predicate Lists(lst: seq<(Field, Prefix)>, mods: map<Field, int>) {
    && Sorted(lst)
    && (forall h :: h in lst ==> h.0 in mods && h.1 == Full(mods[h.0]))
    && (forall f :: f in mods ==> (f, Full(mods[f])) in lst)
  }

  lemma LeastField(s: set<Field>) returns (f: Field)
    requires s != {}
    ensures f in s && forall g :: g in s ==> f <= g
  {
    f :| f in s;
    if g :| g in s && g < f {
      var below := set x | x in s && x < f;
      assert g in below && f !in below;
      assert below < s;
      var least := LeastField(below);
      forall x | x in s ensures least <= x {
        assert x < f ==> x in below;
        assert least < f;
      }
      f := least;
    }
  }

  lemma HvsExist(mods: map<Field, int>) returns (lst: seq<(Field, Prefix)>)
    ensures Lists(lst, mods)
    decreases |mods.Keys|
  {
    if mods == map[] {
      lst := [];
    } else {
      var f := LeastField(mods.Keys);
      var rest := mods - {f};
      assert rest.Keys == mods.Keys - {f};
      var tail := HvsExist(rest);
      lst := ListsCons(mods, f, tail);
    }
  }

  lemma ListsCons(mods: map<Field, int>, f: Field, tail: seq<(Field, Prefix)>) returns (lst: seq<(Field, Prefix)>)
    requires f in mods && forall g :: g in mods ==> f <= g
    requires Lists(tail, mods - {f})
    ensures Lists(lst, mods)
  {
    var rest := mods - {f};
    lst := [(f, Full(mods[f]))] + tail;
    forall i, j | 0 <= i < j < |lst| ensures lst[i].0 < lst[j].0 {
      assert lst[j] == tail[j - 1] && tail[j - 1] in tail;
      assert tail[j - 1].0 in rest;
      if i > 0 { assert lst[i] == tail[i - 1]; }
    }
    forall g | g in mods ensures (g, Full(mods[g])) in lst {
      if g == f {
        assert lst[0] == (f, Full(mods[f]));
      } else {
        assert g in rest;
        assert (g, Full(rest[g])) in tail;
      }
    }
    forall h | h in lst ensures h.0 in mods && h.1 == Full(mods[h.0]) {
      if h != lst[0] {
        assert h in tail;
        assert h.0 in rest;
      }
    }
  }

  /** The assignments of an action as tests, in field order. */
  ghost function Hvs(mods: map<Field, int>): (lst: seq<(Field, Prefix)>)
    ensures Lists(lst, mods)
  {
    assert exists lst :: Lists(lst, mods) by { var lst := HvsExist(mods); }
    var lst :| Lists(lst, mods);
    lst
  }
}
