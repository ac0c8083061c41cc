/** Replacing the edge table of a switch one message at a time. */
module TableSwap {

  import opened Switches

  /** `flowtable_diff` */
  function FlowtableDiff(ft1: Table, ft2: Table): Table
    decreases |ft1| + |ft2|
  {
    if ft2 == [] then ft1
    else if ft1 == [] then []
    else if ft1[0].1 > ft2[0].1 then [ft1[0]] + FlowtableDiff(ft1[1..], ft2)
    else if ft1[0].1 == ft2[0].1 && ft1[0].0.pattern == ft2[0].0.pattern then FlowtableDiff(ft1[1..], ft2)
    else FlowtableDiff(ft1, ft2[1..])
  }

  /** The rows of `ft1` whose priority and pattern no row of `ft2` has. */
  function Absent(ft1: Table, ft2: Table): Table {
    if ft1 == [] then []
    else (if KeyOf(ft1[0]) in RulesOf(ft2) then [] else [ft1[0]]) + Absent(ft1[1..], ft2)
  }

  /** The condition of the comment in the source: priorities do not rise. */
  predicate NonRising(t: Table) {
    forall i, j :: 0 <= i < j < |t| ==> t[i].1 >= t[j].1
  }

  ghost predicate HasKey(t: Table, k: Key) {
    exists i :: 0 <= i < |t| && KeyOf(t[i]) == k
  }

  /** `at` finds the old rows that have the priority of row `j`, up to that row, in the
      new table, in the same order. */
  predicate Finds(ft1: Table, ft2: Table, j: nat, at: seq<nat>)
    requires j < |ft1|
  {
    && |at| == j + 1
    && (forall i :: 0 <= i <= j && ft1[i].1 == ft1[j].1 ==> at[i] < |ft2| && KeyOf(ft2[at[i]]) == KeyOf(ft1[i]))
    && (forall i, k :: 0 <= i < k <= j && ft1[i].1 == ft1[j].1 && ft1[k].1 == ft1[j].1 ==> at[i] <= at[k])
  }

  /** With an old row that stays, all those of its priority before it stay, too, in the
      same order. */
  ghost predicate InOrder(ft1: Table, ft2: Table) {
    forall j: nat :: j < |ft1| && HasKey(ft2, KeyOf(ft1[j])) ==> Findable(ft1, ft2, j)
  }

  ghost predicate Findable(ft1: Table, ft2: Table, j: nat)
    requires j < |ft1|
  {
    exists at :: Finds(ft1, ft2, j, at)
  }

  lemma {:induction false} RulesKeys(t: Table, k: Key)
    ensures k in RulesOf(t) <==> HasKey(t, k)
  {
    if t != [] {
      RulesKeys(t[1..], k);
      KeyTail(t, k);
    }
  }

  lemma DescendingTail(t: Table)
    requires t != [] && Descending(t)
    ensures Descending(t[1..]) && forall i :: 0 <= i < |t[1..]| ==> t[1..][i].1 < t[0].1
  {
  }

  lemma KeyTail(t: Table, k: Key)
    requires t != []
    ensures HasKey(t, k) <==> KeyOf(t[0]) == k || HasKey(t[1..], k)
  {
    if HasKey(t, k) {
      var i :| 0 <= i < |t| && KeyOf(t[i]) == k;
      if i > 0 { assert t[1..][i - 1] == t[i]; }
    }
    if HasKey(t[1..], k) {
      var i :| 0 <= i < |t[1..]| && KeyOf(t[1..][i]) == k;
      assert t[i + 1] == t[1..][i];
    }
  }

  lemma TableTail(t: Table)
    requires t != [] && NonRising(t)
    ensures NonRising(t[1..]) && forall k :: HasKey(t, k) ==> k.prio <= t[0].1
  {
  }

  /** An old row that the new table lacks is always in the difference. */
  lemma {:induction false} LackingInDiff(ft1: Table, ft2: Table, j: nat)
    requires j < |ft1| && !HasKey(ft2, KeyOf(ft1[j]))
    ensures ft1[j] in FlowtableDiff(ft1, ft2)
    decreases |ft1| + |ft2|
  {
    if ft2 != [] {
      KeyTail(ft2, KeyOf(ft1[j]));
      if ft1[0].1 > ft2[0].1 || KeyOf(ft1[0]) == KeyOf(ft2[0]) {
        if j > 0 { LackingInDiff(ft1[1..], ft2, j - 1); }
      } else {
        LackingInDiff(ft1, ft2[1..], j);
      }
    }
  }

  lemma {:induction false} AbsentLacks(ft1: Table, ft2: Table, x: (Flow, int))
    ensures x in Absent(ft1, ft2) ==> KeyOf(x) !in RulesOf(ft2)
  {
    if ft1 != [] {
      AbsentLacks(ft1[1..], ft2, x);
    }
  }

  /** A new row changes nothing where the new rows after it have its key, too. */
  lemma {:induction false} AbsentSkip(ft1: Table, ft2: Table)
    requires ft2 != []
    requires forall i :: 0 <= i < |ft1| && KeyOf(ft1[i]) == KeyOf(ft2[0]) ==> HasKey(ft2[1..], KeyOf(ft1[i]))
    ensures Absent(ft1, ft2) == Absent(ft1, ft2[1..])
  {
    if ft1 != [] {
      assert forall i :: 0 <= i < |ft1[1..]| ==> ft1[1..][i] == ft1[i + 1];
      AbsentSkip(ft1[1..], ft2);
      RulesKeys(ft2[1..], KeyOf(ft1[0]));
    }
  }

  lemma {:induction false} AbsentNone(ft1: Table)
    ensures Absent(ft1, []) == ft1
  {
    if ft1 != [] {
      AbsentNone(ft1[1..]);
    }
  }

  lemma FindsOldTail(ft1: Table, ft2: Table, j: nat)
    requires 0 < j < |ft1| && Findable(ft1, ft2, j)
    ensures Findable(ft1[1..], ft2, j - 1)
  {
    var at :| Finds(ft1, ft2, j, at);
    assert Finds(ft1[1..], ft2, j - 1, at[1..]);
  }

  lemma FindsOldMore(ft1: Table, ft2: Table, j: nat, at: seq<nat>)
    requires 0 < j < |ft1| && Finds(ft1[1..], ft2, j - 1, at)
    requires ft1[0].1 == ft1[j].1 ==> ft2 != [] && KeyOf(ft1[0]) == KeyOf(ft2[0])
    ensures Finds(ft1, ft2, j, [0] + at)
  {
    var to: seq<nat> := [0] + at;
    assert ft1[1..][j - 1] == ft1[j];
    forall i | 0 <= i <= j && ft1[i].1 == ft1[j].1 ensures to[i] < |ft2| && KeyOf(ft2[to[i]]) == KeyOf(ft1[i]) {
      if i > 0 { assert ft1[1..][i - 1] == ft1[i] && to[i] == at[i - 1]; }
    }
    forall i, k | 0 <= i < k <= j && ft1[i].1 == ft1[j].1 && ft1[k].1 == ft1[j].1 ensures to[i] <= to[k] {
      assert ft1[1..][k - 1] == ft1[k] && to[k] == at[k - 1];
      if i > 0 { assert ft1[1..][i - 1] == ft1[i] && to[i] == at[i - 1]; }
    }
  }

  lemma InOrderOldLess(ft1: Table, ft2: Table)
    requires ft1 != [] && InOrder(ft1, ft2)
    ensures InOrder(ft1[1..], ft2)
  {
    hide HasKey, Findable, KeyOf;
    var t := ft1[1..];
    forall j: nat | j < |t| && HasKey(ft2, KeyOf(t[j])) ensures Findable(t, ft2, j) {
      assert t[j] == ft1[j + 1] && Findable(ft1, ft2, j + 1);
      FindsOldTail(ft1, ft2, j + 1);
    }
  }

  lemma InOrderOldMore(ft1: Table, ft2: Table)
    requires ft1 != [] && ft2 != [] && InOrder(ft1[1..], ft2) && NonRising(ft1) && NonRising(ft2)
    requires ft1[0].1 > ft2[0].1 || KeyOf(ft1[0]) == KeyOf(ft2[0])
    ensures InOrder(ft1, ft2)
  {
    hide Finds;
    var t := ft1[1..];
    forall j: nat | j < |ft1| && HasKey(ft2, KeyOf(ft1[j])) ensures Findable(ft1, ft2, j) {
      if j == 0 {
        FindsFirst(ft1, ft2);
      } else {
        assert t[j - 1] == ft1[j] && Findable(t, ft2, j - 1);
        var at :| Finds(t, ft2, j - 1, at);
        FindsOldMore(ft1, ft2, j, at);
      }
    }
  }

  /** The first old row is settled: it is absent, or found at once. */
  lemma InOrderOldTail(ft1: Table, ft2: Table)
    requires ft1 != [] && ft2 != [] && NonRising(ft1) && NonRising(ft2)
    requires ft1[0].1 > ft2[0].1 || KeyOf(ft1[0]) == KeyOf(ft2[0])
    ensures InOrder(ft1, ft2) <==> InOrder(ft1[1..], ft2)
  {
    hide InOrder;
    if InOrder(ft1, ft2) { InOrderOldLess(ft1, ft2); }
    if InOrder(ft1[1..], ft2) { InOrderOldMore(ft1, ft2); }
  }

  lemma FindsFirst(ft1: Table, ft2: Table)
    requires ft1 != [] && ft2 != [] && KeyOf(ft1[0]) == KeyOf(ft2[0])
    ensures Findable(ft1, ft2, 0)
  {
    var at: seq<nat> := [0];
    assert Finds(ft1, ft2, 0, at);
  }

  lemma KeyThere(t: Table, i: nat)
    requires i < |t|
    ensures HasKey(t, KeyOf(t[i]))
  {
  }

  /** The first new row is not the first old one, so no old row of its priority can be
      found there in order. */
  lemma FindsLater(ft1: Table, ft2: Table, j: nat, at: seq<nat>)
    requires ft2 != [] && j < |ft1| && NonRising(ft1) && ft1[0].1 <= ft2[0].1 && KeyOf(ft1[0]) != KeyOf(ft2[0])
    requires Finds(ft1, ft2, j, at)
    ensures forall i :: 0 <= i <= j && ft1[i].1 == ft1[j].1 ==> at[i] > 0
  {
  }

  lemma InOrderNewTail(ft1: Table, ft2: Table)
    requires ft1 != [] && ft2 != [] && NonRising(ft1) && ft1[0].1 <= ft2[0].1 && KeyOf(ft1[0]) != KeyOf(ft2[0])
    requires forall i :: 0 <= i < |ft1| && KeyOf(ft1[i]) == KeyOf(ft2[0]) ==> HasKey(ft2[1..], KeyOf(ft1[i]))
    ensures InOrder(ft1, ft2) <==> InOrder(ft1, ft2[1..])
  {
    forall j: nat | j < |ft1| ensures HasKey(ft2, KeyOf(ft1[j])) <==> HasKey(ft2[1..], KeyOf(ft1[j])) {
      KeyTail(ft2, KeyOf(ft1[j]));
    }
    hide HasKey, KeyOf;
    forall j: nat | j < |ft1| ensures Findable(ft1, ft2, j) <==> Findable(ft1, ft2[1..], j) {
      FindableNewTail(ft1, ft2, j);
    }
  }

  lemma FindableNewTail(ft1: Table, ft2: Table, j: nat)
    requires ft2 != [] && j < |ft1| && NonRising(ft1) && ft1[0].1 <= ft2[0].1 && KeyOf(ft1[0]) != KeyOf(ft2[0])
    ensures Findable(ft1, ft2, j) <==> Findable(ft1, ft2[1..], j)
  {
    if Findable(ft1, ft2, j) {
      var at :| Finds(ft1, ft2, j, at);
      FindsLater(ft1, ft2, j, at);
      var to: seq<nat> := seq(|at|, i requires 0 <= i < |at| => if at[i] > 0 then at[i] - 1 else 0);
      assert Finds(ft1, ft2[1..], j, to);
    }
    if Findable(ft1, ft2[1..], j) {
      var at :| Finds(ft1, ft2[1..], j, at);
      var to: seq<nat> := seq(|at|, i requires 0 <= i < |at| => at[i] + 1);
      assert Finds(ft1, ft2, j, to);
    }
  }

  /** A last new row that equals a later old one is passed over: its old row ends up in
      the difference. */
  lemma PassedOver(ft1: Table, ft2: Table, j: nat)
    requires ft1 != [] && ft2 != [] && NonRising(ft1) && ft1[0].1 <= ft2[0].1 && KeyOf(ft1[0]) != KeyOf(ft2[0])
    requires j < |ft1| && KeyOf(ft1[j]) == KeyOf(ft2[0]) && !HasKey(ft2[1..], KeyOf(ft1[j]))
    ensures !InOrder(ft1, ft2) && FlowtableDiff(ft1, ft2) != Absent(ft1, ft2)
  {
    KeyThere(ft2, 0);
    forall at ensures !Finds(ft1, ft2, j, at) {
      if Finds(ft1, ft2, j, at) { FindsLater(ft1, ft2, j, at); }
    }
    LackingInDiff(ft1, ft2[1..], j);
    AbsentLacks(ft1, ft2, ft1[j]);
    RulesKeys(ft2, KeyOf(ft1[j]));
  }

  /** On tables whose priorities do not rise, the difference is the old rows absent from
      the new table if and only if, with each old row that stays, those of its priority
      before it stay, in the same order. */
  lemma {:induction false} DiffExactIff(ft1: Table, ft2: Table)
    requires NonRising(ft1) && NonRising(ft2)
    ensures FlowtableDiff(ft1, ft2) == Absent(ft1, ft2) <==> InOrder(ft1, ft2)
    decreases |ft1| + |ft2|
  {
    hide InOrder, NonRising, HasKey, RulesOf;
    if ft2 == [] {
      AbsentNone(ft1);
      NoneInOrder(ft1, ft2);
    } else if ft1 == [] {
      NoneInOrder(ft1, ft2);
    } else {
      TableTail(ft1);
      TableTail(ft2);
      if ft1[0].1 > ft2[0].1 || KeyOf(ft1[0]) == KeyOf(ft2[0]) {
        InOrderOldTail(ft1, ft2);
        KeyThere(ft2, 0);
        RulesKeys(ft2, KeyOf(ft1[0]));
        DiffExactIff(ft1[1..], ft2);
        var d, r := FlowtableDiff(ft1[1..], ft2), Absent(ft1[1..], ft2);
        assert ([ft1[0]] + d)[1..] == d && ([ft1[0]] + r)[1..] == r;
        assert HasKey(ft2, KeyOf(ft1[0])) <==> KeyOf(ft1[0]) == KeyOf(ft2[0]);
      } else if j: nat :| j < |ft1| && KeyOf(ft1[j]) == KeyOf(ft2[0]) && !HasKey(ft2[1..], KeyOf(ft1[j])) {
        PassedOver(ft1, ft2, j);
      } else {
        InOrderNewTail(ft1, ft2);
        DiffExactIff(ft1, ft2[1..]);
        AbsentSkip(ft1, ft2);
      }
    }
  }

  lemma NoneInOrder(ft1: Table, ft2: Table)
    requires ft1 == [] || ft2 == []
    ensures InOrder(ft1, ft2)
  {
  }

  /** With strictly descending priorities each old row is the only one of its priority. */
  lemma DescendingInOrder(ft1: Table, ft2: Table)
    requires Descending(ft1)
    ensures InOrder(ft1, ft2)
  {
    forall j: nat | j < |ft1| && HasKey(ft2, KeyOf(ft1[j])) ensures Findable(ft1, ft2, j) {
      var n :| 0 <= n < |ft2| && KeyOf(ft2[n]) == KeyOf(ft1[j]);
      var at: seq<nat> := seq(j + 1, _ => n);
      assert Finds(ft1, ft2, j, at);
    }
  }

  /** So the difference is exact when priorities strictly descend. */
  lemma DiffExact(ft1: Table, ft2: Table)
    requires Descending(ft1) && Descending(ft2)
    ensures FlowtableDiff(ft1, ft2) == Absent(ft1, ft2)
  {
    DescendingInOrder(ft1, ft2);
    DiffExactIff(ft1, ft2);
  }

  /** Two rules of one priority that change places: the difference holds a rule that
      is in the new table. */
  lemma DiffNeedsDescending()
    ensures var a, b := (Flow(map[1 := 1], []), 5), (Flow(map[1 := 2], []), 5);
            && FlowtableDiff([a, b], [b, a]) == [b] && Absent([a, b], [b, a]) == []
            && NonRising([a, b]) && NonRising([b, a]) && !InOrder([a, b], [b, a])
  {
    var a, b := (Flow(map[1 := 1], []), 5), (Flow(map[1 := 2], []), 5);
    assert map[1 := 1][1] != map[1 := 2][1];
    assert KeyOf(a) != KeyOf(b);
    var ba, ab: Table := [b, a], [a, b];
    var one, two: Table := [a], [b];
    assert ba[1..] == one && ab[1..] == two && one[1..] == [] && two[1..] == [];
    assert FlowtableDiff(two, one) == FlowtableDiff(two, []);
    assert FlowtableDiff(ab, one) == FlowtableDiff(two, one);
    assert KeyOf(a) in RulesOf(ba) && KeyOf(b) in RulesOf(ba);
    assert Absent(two, ba) == [];
    DiffExactIff(ab, ba);
  }

  // Rules of tables

  lemma {:induction false} RulesAppend(t: Table, x: (Flow, int))
    requires KeyOf(x) !in RulesOf(t)
    ensures RulesOf(t + [x]) == RulesOf(t)[KeyOf(x) := x.0.action]
  {
    if t == [] {
      assert t + [x] == [x];
      assert RulesOf([x]) == RulesOf([x][1..])[KeyOf(x) := x.0.action];
    } else {
      assert (t + [x])[0] == t[0] && (t + [x])[1..] == t[1..] + [x];
      RulesAppend(t[1..], x);
    }
  }

  lemma KeyOnce(t: Table, n: nat)
    requires Descending(t) && n < |t|
    ensures KeyOf(t[n]) !in RulesOf(t[..n])
  {
    if KeyOf(t[n]) in RulesOf(t[..n]) {
      RulesAreRows(t[..n], KeyOf(t[n]), RulesOf(t[..n])[KeyOf(t[n])]);
    }
  }

  lemma RulesPrefix(t: Table, n: nat)
    requires Descending(t) && n < |t|
    ensures RulesOf(t[..n + 1]) == RulesOf(t[..n])[KeyOf(t[n]) := t[n].0.action]
    ensures KeyOf(t[n]) !in RulesOf(t[..n])
  {
    KeyOnce(t, n);
    RulesAppend(t[..n], t[n]);
    assert t[..n + 1] == t[..n] + [t[n]];
  }

  lemma {:induction false} RulesAbsent(ft1: Table, ft2: Table)
    requires Descending(ft1)
    ensures RulesOf(Absent(ft1, ft2)) == RulesOf(ft1) - RulesOf(ft2).Keys
  {
    if ft1 != [] {
      RulesAbsent(ft1[1..], ft2);
      var r := Absent(ft1[1..], ft2);
      if KeyOf(ft1[0]) !in RulesOf(ft2) {
        assert Absent(ft1, ft2) == [ft1[0]] + r;
        assert ([ft1[0]] + r)[1..] == r;
      } else {
        assert Absent(ft1, ft2) == r;
      }
    }
  }

  /** The rows that are left are rows of the old table, in the same order. */
  lemma {:induction false} AbsentRows(ft1: Table, ft2: Table)
    requires Descending(ft1)
    ensures Descending(Absent(ft1, ft2))
    ensures forall i :: 0 <= i < |Absent(ft1, ft2)| ==> Absent(ft1, ft2)[i] in ft1
  {
    if ft1 != [] {
      DescendingTail(ft1);
      AbsentRows(ft1[1..], ft2);
      var r, a := Absent(ft1[1..], ft2), Absent(ft1, ft2);
      if KeyOf(ft1[0]) !in RulesOf(ft2) {
        assert a == [ft1[0]] + r;
        forall i, j | 0 <= i < j < |a| ensures a[i].1 > a[j].1 {
          assert a[j] == r[j - 1];
          if i == 0 { assert r[j - 1] in ft1[1..]; } else { assert a[i] == r[i - 1]; }
        }
      } else {
        assert a == r;
      }
    }
  }

  lemma RowIsRule(t: Table, s: (Flow, int))
    requires Descending(t) && s in t
    ensures KeyOf(s) in RulesOf(t)
  {
    var i :| 0 <= i < |t| && t[i] == s;
    RulesAreRows(t, KeyOf(s), s.0.action);
    assert Row(t, KeyOf(s), s.0.action);
  }

  // The messages of a swap

  function Adds(t: Table): seq<Msg> {
    seq(|t|, i requires 0 <= i < |t| => Add(KeyOf(t[i]), t[i].0.action))
  }

  /** Deletes from the bottom up. */
  function Deletes(t: Table): seq<Msg> {
    seq(|t|, i requires 0 <= i < |t| => DeleteStrict(KeyOf(t[|t| - 1 - i])))
  }

  function SwapMsgs(was: Table, now: Table): seq<Msg> {
    Adds(now) + Deletes(FlowtableDiff(was, now))
  }

  /** The table of the switch after `n` messages; `rest` are its other rules. */
  function Stage(was: Table, now: Table, rest: Rules, n: nat): Rules
    requires n <= |now| + |Absent(was, now)|
  {
    if n <= |now| then rest + RulesOf(was) + RulesOf(now[..n])
    else
      var d := Absent(was, now);
      rest + RulesOf(d[..|d| - (n - |now|)]) + RulesOf(now)
  }

  /** The other rules have keys of their own. */
  ghost predicate Apart(was: Table, now: Table, rest: Rules) {
    Descending(was) && Descending(now) && rest.Keys !! RulesOf(was).Keys && rest.Keys !! RulesOf(now).Keys
  }

  lemma StageAdd(was: Table, now: Table, rest: Rules, n: nat)
    requires Apart(was, now, rest) && n < |now|
    ensures Stage(was, now, rest, n + 1) == Receive(Stage(was, now, rest, n), Adds(now)[n])
  {
    RulesPrefix(now, n);
  }

  lemma OldIsRest(rest: Rules, a: Rules, b: Rules)
    ensures rest + a + b == rest + (a - b.Keys) + b
  {
  }

  /** From the last add on, only old rows that the new table lacks are left. */
  lemma StageAt(was: Table, now: Table, rest: Rules, n: nat)
    requires Apart(was, now, rest) && |now| <= n <= |now| + |Absent(was, now)|
    ensures var d := Absent(was, now);
            Stage(was, now, rest, n) == rest + RulesOf(d[..|d| - (n - |now|)]) + RulesOf(now)
  {
    if n == |now| {
      hide RulesOf, Absent;
      RulesAbsent(was, now);
      var d := Absent(was, now);
      assert d[..|d|] == d && now[..|now|] == now;
      OldIsRest(rest, RulesOf(was), RulesOf(now));
    }
  }

  lemma DeleteLast(a: Rules, b: Rules, c: Rules, k: Key, v: seq<Action>)
    requires k !in a && k !in b && k !in c
    ensures Receive(a + b[k := v] + c, DeleteStrict(k)) == a + b + c
  {
  }

  lemma AbsentRule(was: Table, now: Table, rest: Rules, m: nat)
    requires Apart(was, now, rest) && m < |Absent(was, now)|
    ensures var k := KeyOf(Absent(was, now)[m]);
            k !in rest && k !in RulesOf(now)
  {
    var d := Absent(was, now);
    AbsentRows(was, now);
    RulesAbsent(was, now);
    RowIsRule(d, d[m]);
  }

  lemma StageDelete(was: Table, now: Table, rest: Rules, n: nat)
    requires Apart(was, now, rest) && |now| <= n < |now| + |Absent(was, now)|
    ensures Stage(was, now, rest, n + 1) == Receive(Stage(was, now, rest, n), Deletes(Absent(was, now))[n - |now|])
  {
    hide Stage, RulesOf, Absent, Receive;
    var d := Absent(was, now);
    var m := |d| - (n - |now|) - 1;
    AbsentRows(was, now);
    StageAt(was, now, rest, n);
    StageAt(was, now, rest, n + 1);
    AbsentRule(was, now, rest, m);
    RulesPrefix(d, m);
    DeleteLast(rest, RulesOf(d[..m]), RulesOf(now), KeyOf(d[m]), d[m].0.action);
  }

  lemma StageZero(was: Table, now: Table, rest: Rules)
    ensures Stage(was, now, rest, 0) == rest + RulesOf(was)
  {
    assert now[..0] == [];
    assert RulesOf([]) == map[];
    hide RulesOf;
    assert rest + RulesOf(was) + map[] == rest + RulesOf(was);
  }

  lemma SwapCount(was: Table, now: Table, n: nat)
    requires Descending(was) && Descending(now)
    ensures |SwapMsgs(was, now)| == |now| + |Absent(was, now)|
    ensures n < |now| ==> SwapMsgs(was, now)[n] == Adds(now)[n]
    ensures |now| <= n < |now| + |Absent(was, now)| ==> SwapMsgs(was, now)[n] == Deletes(Absent(was, now))[n - |now|]
  {
    hide FlowtableDiff, Absent;
    DiffExact(was, now);
  }

  /** After each message the table is the one of that stage. */
  lemma {:induction false} SwapStage(was: Table, now: Table, rest: Rules, n: nat)
    requires Apart(was, now, rest) && n <= |now| + |Absent(was, now)|
    ensures n <= |SwapMsgs(was, now)| == |now| + |Absent(was, now)|
    ensures ReceiveAll(rest + RulesOf(was), SwapMsgs(was, now)[..n]) == Stage(was, now, rest, n)
    decreases n
  {
    hide SwapMsgs, Stage, Receive, RulesOf, Absent, Adds, Deletes;
    SwapCount(was, now, if n > 0 then n - 1 else 0);
    var ms := SwapMsgs(was, now);
    if n == 0 {
      StageZero(was, now, rest);
    } else {
      SwapStage(was, now, rest, n - 1);
      assert ms[..n] == ms[..n - 1] + [ms[n - 1]];
      ReceiveLast(rest + RulesOf(was), ms[..n - 1], ms[n - 1]);
      if n <= |now| {
        StageAdd(was, now, rest, n - 1);
      } else {
        StageDelete(was, now, rest, n - 1);
      }
    }
  }

  // What packets see

  ghost predicate FirstOf(t: Table, h: Header, k: Key, a: seq<Action>) {
    exists i :: IsFirst(t, h, i) && KeyOf(t[i]) == k && t[i].0.action == a
  }

  /** Each packet is handled by the first match of the old or of the new table. */
  ghost predicate OldOrNew(was: Table, now: Table, t: Rules, h: Header) {
    && (forall k :: IsBest(t, h, k) ==> FirstOf(was, h, k, t[k]) || FirstOf(now, h, k, t[k]))
    && (Misses(t, h) ==> NoRow(was, h) || NoRow(now, h))
  }

  /** `a` holds what is left of the old table and `b` is the upper part of the
      new one: whatever old row is gone from above a row of `a` is in `b`. */
  ghost predicate Mixed(was: Table, now: Table, a: Table, b: Table) {
    && Descending(was) && Descending(now) && Descending(a) && b <= now
    && (forall r :: r in a ==> r in was)
    && (forall r, s :: r in a && s in was && s.1 > r.1 ==> KeyOf(s) in RulesOf(a) || KeyOf(s) in RulesOf(b))
    && (b == now || forall s :: s in was ==> KeyOf(s) in RulesOf(a) || KeyOf(s) in RulesOf(b))
  }

  lemma MixedBest(was: Table, now: Table, a: Table, b: Table, rest: Rules, h: Header, k: Key)
    requires Mixed(was, now, a, b) && Misses(rest, h)
    requires IsBest(rest + RulesOf(a) + RulesOf(b), h, k)
    ensures var t := rest + RulesOf(a) + RulesOf(b);
            FirstOf(was, h, k, t[k]) || FirstOf(now, h, k, t[k])
  {
    var t := rest + RulesOf(a) + RulesOf(b);
    if k in RulesOf(b) {
      assert Descending(b);
      RulesAreRows(b, k, t[k]);
      var i :| 0 <= i < |b| && KeyOf(b[i]) == k && b[i].0.action == t[k];
      forall j | 0 <= j < i ensures !Hits(now[j].0.pattern, h) {
        RulesAreRows(b, KeyOf(b[j]), b[j].0.action);
        assert Row(b, KeyOf(b[j]), b[j].0.action);
      }
      assert IsFirst(now, h, i) && now[i] == b[i];
    } else {
      assert k in RulesOf(a);
      RulesAreRows(a, k, t[k]);
      var m :| 0 <= m < |a| && KeyOf(a[m]) == k && a[m].0.action == t[k];
      assert a[m] in was;
      var i :| 0 <= i < |was| && was[i] == a[m];
      forall j | 0 <= j < i ensures !Hits(was[j].0.pattern, h) {
        assert was[j] in was && was[j].1 > a[m].1;
        assert KeyOf(was[j]) in t;
      }
      assert IsFirst(was, h, i);
    }
  }

  lemma MixedOldOrNew(was: Table, now: Table, a: Table, b: Table, rest: Rules, h: Header)
    requires Mixed(was, now, a, b) && Misses(rest, h)
    ensures OldOrNew(was, now, rest + RulesOf(a) + RulesOf(b), h)
  {
    var t := rest + RulesOf(a) + RulesOf(b);
    forall k | IsBest(t, h, k) ensures FirstOf(was, h, k, t[k]) || FirstOf(now, h, k, t[k]) {
      hide Mixed, FirstOf, Misses;
      MixedBest(was, now, a, b, rest, h, k);
    }
    if Misses(t, h) {
      if b == now {
        forall i | 0 <= i < |now| ensures !Hits(now[i].0.pattern, h) {
          RulesAreRows(now, KeyOf(now[i]), now[i].0.action);
          assert Row(now, KeyOf(now[i]), now[i].0.action);
          assert KeyOf(now[i]) in t;
        }
      } else {
        forall i | 0 <= i < |was| ensures !Hits(was[i].0.pattern, h) {
          assert was[i] in was;
          assert KeyOf(was[i]) in t;
        }
      }
    }
  }

  lemma AddsMixed(was: Table, now: Table, n: nat)
    requires Descending(was) && Descending(now) && n <= |now|
    ensures Mixed(was, now, was, now[..n])
  {
    forall s | s in was ensures KeyOf(s) in RulesOf(was) {
      var i :| 0 <= i < |was| && was[i] == s;
      RulesAreRows(was, KeyOf(s), s.0.action);
      assert Row(was, KeyOf(s), s.0.action);
    }
  }

  lemma RowOf(t: Table, k: Key) returns (i: nat)
    requires Descending(t) && k in RulesOf(t)
    ensures i < |t| && KeyOf(t[i]) == k
  {
    RulesAreRows(t, k, RulesOf(t)[k]);
    var j :| 0 <= j < |t| && KeyOf(t[j]) == k && t[j].0.action == RulesOf(t)[k];
    i := j;
  }

  /** An old row that the new table lacks is one of the rows to delete. */
  lemma LackingRow(was: Table, now: Table, s: (Flow, int)) returns (i: nat)
    requires Descending(was) && s in was && KeyOf(s) !in RulesOf(now)
    ensures i < |Absent(was, now)| && KeyOf(Absent(was, now)[i]) == KeyOf(s)
  {
    AbsentRows(was, now);
    RulesAbsent(was, now);
    RowIsRule(was, s);
    i := RowOf(Absent(was, now), KeyOf(s));
  }

  /** An old row above one that is left is left too, or is in the new table. */
  lemma AboveIsLeft(was: Table, now: Table, m: nat, r: (Flow, int), s: (Flow, int))
    requires Descending(was) && Descending(now) && m <= |Absent(was, now)|
    requires r in Absent(was, now)[..m] && s in was && s.1 > r.1 && KeyOf(s) !in RulesOf(now)
    ensures KeyOf(s) in RulesOf(Absent(was, now)[..m])
  {
    hide RulesOf, Absent;
    AbsentRows(was, now);
    var d := Absent(was, now);
    var a := d[..m];
    var i := LackingRow(was, now, s);
    var j :| 0 <= j < |a| && a[j] == r;
    assert d[j] == r && i < m;
    assert a[i] in a;
    RowIsRule(a, a[i]);
  }

  lemma DeletesMixed(was: Table, now: Table, m: nat)
    requires Descending(was) && Descending(now) && m <= |Absent(was, now)|
    ensures Mixed(was, now, Absent(was, now)[..m], now)
  {
    AbsentRows(was, now);
    hide RulesOf, Absent;
    var d := Absent(was, now);
    var a := d[..m];
    forall r, s | r in a && s in was && s.1 > r.1 ensures KeyOf(s) in RulesOf(a) || KeyOf(s) in RulesOf(now) {
      if KeyOf(s) !in RulesOf(now) {
        AboveIsLeft(was, now, m, r, s);
      }
    }
    forall r | r in a ensures r in was {
      var j :| 0 <= j < |a| && a[j] == r;
      assert d[j] == r;
    }
  }

  /** After every message of a swap each packet that the other rules leave alone
      is handled as by the old or as by the new table. */
  lemma SwapOldOrNew(was: Table, now: Table, rest: Rules, n: nat, h: Header)
    requires Apart(was, now, rest) && n <= |SwapMsgs(was, now)| && Misses(rest, h)
    ensures OldOrNew(was, now, ReceiveAll(rest + RulesOf(was), SwapMsgs(was, now)[..n]), h)
  {
    hide SwapMsgs, OldOrNew, Misses, Mixed;
    SwapStage(was, now, rest, 0);
    SwapStage(was, now, rest, n);
    if n <= |now| {
      AddsMixed(was, now, n);
      MixedOldOrNew(was, now, was, now[..n], rest, h);
    } else {
      var d := Absent(was, now);
      DeletesMixed(was, now, |d| - (n - |now|));
      MixedOldOrNew(was, now, d[..|d| - (n - |now|)], now, rest, h);
    }
  }

  /** After the last message the rules are exactly the new ones. */
  lemma SwapFinal(was: Table, now: Table, rest: Rules)
    requires Apart(was, now, rest)
    ensures ReceiveAll(rest + RulesOf(was), SwapMsgs(was, now)) == rest + RulesOf(now)
  {
    hide SwapMsgs, Stage, Absent;
    var d := Absent(was, now);
    SwapStage(was, now, rest, |now| + |d|);
    StageAt(was, now, rest, |now| + |d|);
    var ms := SwapMsgs(was, now);
    assert ms[..|ms|] == ms && d[..0] == [];
    assert rest + RulesOf([]) == rest;
  }
}
