/** NetKAT predicates and policies, and the interpreter that gives their
    reference meaning. */
module Semantics {

  import opened Wrappers
  import opened Values
  import opened Actions

  /** A header test or assignment: an exact value, or an IPv4 address with a
      mask length. */
  datatype HeaderVal = Exact(field: Field, value: int) | Ip(field: Field, addr: int, mask: MaskLen)

  type MaskLen = m: nat | m <= 32

  datatype Pred =
    | True
    | False
    | Test(hv: HeaderVal)
    | And(p1: Pred, p2: Pred)
    | Or(p1: Pred, p2: Pred)
    | Neg(p: Pred)

  datatype Policy =
    | Filter(pred: Pred)
    | Mod(hv: HeaderVal)
    | Union(pol1: Policy, pol2: Policy)
    | Seq(pol1: Policy, pol2: Policy)
    | Star(pol: Policy)
    | Link(sw1: int, pt1: int, sw2: int, pt2: int)

  /** `Pattern.Ip.less_eq (x, 32) (addr, mask)`. */
  predicate IpLessEq(x: int, addr: int, mask: MaskLen) {
    mask == 0 || ShrLogical(32, x, 32 - mask) == ShrLogical(32, addr, 32 - mask)
  }

  predicate EvalPred(p: Packet, a: Pred) {
    match a
    case True => true
    case False => false
    case Test(Exact(f, v)) => Get(p, f) == v
    case Test(Ip(f, addr, mask)) => IpLessEq(Get(p, f), addr, mask)
    case And(a1, a2) => EvalPred(p, a1) && EvalPred(p, a2)
    case Or(a1, a2) => EvalPred(p, a1) || EvalPred(p, a2)
    case Neg(a1) => !EvalPred(p, a1)
  }

  /** The assignment a modification makes; it ignores the mask. */
  function Assigned(hv: HeaderVal): (Field, int) {
    match hv
    case Exact(f, v) => (f, v)
    case Ip(f, addr, _) => (f, addr)
  }

  /** All the assignments that occur in a policy. */
  function Assigns(pol: Policy): set<(Field, int)> {
    match pol
    case Filter(_) => {}
    case Mod(hv) => {Assigned(hv)}
    case Union(a, b) => Assigns(a) + Assigns(b)
    case Seq(a, b) => Assigns(a) + Assigns(b)
    case Star(a) => Assigns(a)
    case Link(_, _, _, _) => {}
  }

  /** The maps that assign by `items` only. */
  ghost function PartialMaps(items: set<(Field, int)>): set<map<Field, int>> {
    if items == {} then {map[]}
    else
      var i := Pick(items);
      var rest := PartialMaps(items - {i});
      rest + set m | m in rest :: m[i.0 := i.1]
  }

  /** Every assignment of `m` is one of `items`. */
  predicate Draws(m: map<Field, int>, items: set<(Field, int)>) {
    forall f :: f in m ==> (f, m[f]) in items
  }

  lemma {:induction false} InPartialMaps(m: map<Field, int>, items: set<(Field, int)>)
    requires Draws(m, items)
    ensures m in PartialMaps(items)
  {
    if items == {} {
      assert m == map[];
    } else {
      var i := Pick(items);
      if i.0 in m && m[i.0] == i.1 {
        var m' := m - {i.0};
        InPartialMaps(m', items - {i});
        assert m == m'[i.0 := i.1];
      } else {
        InPartialMaps(m, items - {i});
      }
    }
  }

  lemma {:induction false} OfPartialMaps(m: map<Field, int>, items: set<(Field, int)>)
    requires m in PartialMaps(items)
    ensures Draws(m, items)
  {
    if items == {} {
    } else {
      var i := Pick(items);
      var rest := PartialMaps(items - {i});
      if m in rest {
        OfPartialMaps(m, items - {i});
      } else {
        var m' :| m' in rest && m == m'[i.0 := i.1];
        OfPartialMaps(m', items - {i});
      }
    }
  }

  /** The packets that assignments from `items` can make of `p`. */
  ghost function Universe(p: Packet, items: set<(Field, int)>): set<Packet> {
    set m | m in PartialMaps(items) :: p + m
  }

  lemma UniverseSelf(p: Packet, items: set<(Field, int)>)
    ensures p in Universe(p, items)
  {
    InPartialMaps(map[], items);
    assert p == p + map[];
  }

  lemma UniverseAssign(p: Packet, f: Field, v: int, items: set<(Field, int)>)
    requires (f, v) in items
    ensures p[f := v] in Universe(p, items)
  {
    var m := map[f := v];
    InPartialMaps(m, items);
    assert p[f := v] == p + m;
  }

  lemma DrawsUpdate(m: map<Field, int>, m': map<Field, int>, items: set<(Field, int)>, more: set<(Field, int)>)
    requires Draws(m, items) && Draws(m', more)
    ensures Draws(m + m', items + more)
  {
  }

  lemma UniverseStep(p: Packet, q: Packet, r: Packet, items: set<(Field, int)>, more: set<(Field, int)>)
    requires q in Universe(p, items) && r in Universe(q, more)
    ensures r in Universe(p, items + more)
  {
    hide PartialMaps, Draws;
    var m :| m in PartialMaps(items) && q == p + m;
    var m' :| m' in PartialMaps(more) && r == q + m';
    OfPartialMaps(m, items);
    OfPartialMaps(m', more);
    DrawsUpdate(m, m', items, more);
    InPartialMaps(m + m', items + more);
    assert r == p + (m + m');
  }

  lemma UniverseClosed(p: Packet, q: Packet, items: set<(Field, int)>, more: set<(Field, int)>)
    requires q in Universe(p, items)
    ensures Universe(q, more) <= Universe(p, items + more)
  {
    hide PartialMaps;
    forall r | r in Universe(q, more) ensures r in Universe(p, items + more) {
      UniverseStep(p, q, r, items, more);
    }
  }

  lemma UniverseStays(p: Packet, q: Packet, items: set<(Field, int)>)
    requires q in Universe(p, items)
    ensures Universe(q, items) <= Universe(p, items)
  {
    UniverseClosed(p, q, items, items);
    assert items + items == items;
  }

  lemma UniverseMonotone(p: Packet, items: set<(Field, int)>, more: set<(Field, int)>)
    ensures Universe(p, items) <= Universe(p, items + more)
    ensures Universe(p, items) <= Universe(p, more + items)
  {
    UniverseSelf(p, more);
    UniverseClosed(p, p, more, items);
    assert items + more == more + items;
  }

  /** The packets `pol` makes of `p`. */
  ghost function Eval(p: Packet, pol: Policy): (r: set<Packet>)
    ensures r <= Universe(p, Assigns(pol))
    decreases pol, 0
  {
    hide Universe;
    match pol
    case Filter(a) =>
      UniverseSelf(p, {});
      if EvalPred(p, a) then {p} else {}
    case Mod(hv) =>
      UniverseAssign(p, Assigned(hv).0, Assigned(hv).1, Assigns(pol));
      {p[Assigned(hv).0 := Assigned(hv).1]}
    case Union(a, b) =>
      UniverseMonotone(p, Assigns(a), Assigns(b));
      UniverseMonotone(p, Assigns(b), Assigns(a));
      Eval(p, a) + Eval(p, b)
    case Seq(a, b) =>
      var r := set q, r | q in Eval(p, a) && r in Eval(q, b) :: r;
      assert r <= Universe(p, Assigns(pol)) by {
        forall x | x in r ensures x in Universe(p, Assigns(pol)) {
          var q :| q in Eval(p, a) && x in Eval(q, b);
          UniverseClosed(p, q, Assigns(a), Assigns(b));
        }
      }
      r
    case Star(a) =>
      var u := Universe(p, Assigns(a));
      UniverseSelf(p, Assigns(a));
      assert forall q :: q in u ==> Eval(q, a) <= u by {
        forall q | q in u ensures Eval(q, a) <= u {
          UniverseStays(p, q, Assigns(a));
        }
      }
      EvalStar({p}, a, u)
    case Link(_, _, _, _) => {}
  }

  /** The interpreter's loop: adds the successors of all packets until nothing
      changes.  It ends because all packets stay in the finite set `u`. */
  ghost function EvalStar(acc: set<Packet>, a: Policy, u: set<Packet>): (r: set<Packet>)
    requires acc <= u && forall q :: q in u ==> Eval(q, a) <= u
    ensures acc <= r <= u
    ensures forall q :: q in r ==> Eval(q, a) <= r
    decreases a, 1, u - acc
  {
    var next := set q, r | q in acc && r in Eval(q, a) :: r;
    assert next <= u;
    assert forall q :: q in acc ==> Eval(q, a) <= next;
    if acc + next == acc then acc else
      assert u - (acc + next) < u - acc by {
        assert !(next <= acc) by { assert next <= acc ==> acc + next == acc; }
      }
      EvalStar(acc + next, a, u)
  }

  /** The packets `n` runs of `a` make of `p`. */
  ghost function Steps(p: Packet, a: Policy, n: nat): set<Packet> {
    if n == 0 then {p}
    else set q, r | q in Steps(p, a, n - 1) && r in Eval(q, a) :: r
  }

  lemma {:induction false} EvalStarLeast(acc: set<Packet>, a: Policy, u: set<Packet>, s: iset<Packet>)
    requires acc <= u && forall q :: q in u ==> Eval(q, a) <= u
    requires forall q :: q in acc ==> q in s
    requires forall q, r :: q in s && r in Eval(q, a) ==> r in s
    ensures forall q :: q in EvalStar(acc, a, u) ==> q in s
    decreases u - acc
  {
    hide Eval, Universe;
    var next := set q, r | q in acc && r in Eval(q, a) :: r;
    if acc + next != acc {
      assert u - (acc + next) < u - acc by {
        assert !(next <= acc) by { assert next <= acc ==> acc + next == acc; }
      }
      EvalStarLeast(acc + next, a, u, s);
    }
  }

  lemma StarIsLoop(p: Packet, a: Policy)
    ensures var u := Universe(p, Assigns(a));
            && p in u && (forall q :: q in u ==> Eval(q, a) <= u)
            && Eval(p, Star(a)) == EvalStar({p}, a, u)
  {
    hide EvalStar, Universe, PartialMaps;
    var u := Universe(p, Assigns(a));
    UniverseSelf(p, Assigns(a));
    forall q | q in u ensures Eval(q, a) <= u {
      UniverseStays(p, q, Assigns(a));
    }
  }

  /** The Star loop ends with the least set that holds `p` and is closed under
      the policy. */
  lemma StarIsLeastClosed(p: Packet, a: Policy, s: iset<Packet>)
    ensures p in Eval(p, Star(a))
    ensures forall q :: q in Eval(p, Star(a)) ==> Eval(q, a) <= Eval(p, Star(a))
    ensures p in s && (forall q, r :: q in s && r in Eval(q, a) ==> r in s) ==>
              forall q :: q in Eval(p, Star(a)) ==> q in s
  {
    hide Eval, Universe, EvalStar;
    StarIsLoop(p, a);
    if p in s && forall q, r :: q in s && r in Eval(q, a) ==> r in s {
      EvalStarLeast({p}, a, Universe(p, Assigns(a)), s);
    }
  }

  ghost predicate InSomeSteps(p: Packet, a: Policy, q: Packet) {
    exists n: nat :: q in Steps(p, a, n)
  }

  lemma {:induction false} StepsInClosed(p: Packet, a: Policy, n: nat, s: set<Packet>)
    requires p in s && forall q :: q in s ==> Eval(q, a) <= s
    ensures Steps(p, a, n) <= s
  {
    hide Eval, Universe;
    if n > 0 {
      StepsInClosed(p, a, n - 1, s);
    }
  }

  lemma InSomeStepsClosed(p: Packet, a: Policy, q: Packet, r: Packet)
    requires InSomeSteps(p, a, q) && r in Eval(q, a)
    ensures InSomeSteps(p, a, r)
  {
    hide Eval, Universe;
    var n: nat :| q in Steps(p, a, n);
    assert r in Steps(p, a, n + 1);
  }

  /** Star is any number of runs. */
  lemma StarIsSteps(p: Packet, a: Policy, q: Packet)
    ensures q in Eval(p, Star(a)) <==> InSomeSteps(p, a, q)
  {
    hide Eval, Universe;
    var s := iset r | InSomeSteps(p, a, r);
    assert InSomeSteps(p, a, p) by { assert p in Steps(p, a, 0); }
    forall r, r' | r in s && r' in Eval(r, a) ensures r' in s {
      InSomeStepsClosed(p, a, r, r');
    }
    StarIsLeastClosed(p, a, s);
    if InSomeSteps(p, a, q) {
      var n: nat :| q in Steps(p, a, n);
      StepsInClosed(p, a, n, Eval(p, Star(a)));
    }
  }
}
