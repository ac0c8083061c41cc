/** The automaton tables, and the cheap minimisation that fills them. */
module Minimization {

  import opened Wrappers
  import opened Actions
  import opened Fdds
  import opened LeafActs
  import opened Traces
  import opened Splitting
  import opened Automata

  function Elems<T>(s: seq<T>): set<T> {
    set x | x in s
  }

  predicate NoDup<T(==)>(s: seq<T>) {
    forall i, j :: 0 <= i < j < |s| ==> s[i] != s[j]
  }

  class Automaton {
    var states: States
    var hasState: map<State, int>
    var source: int
    var nextState: int

    constructor ()
      ensures states == map[] && hasState == map[] && source == 0 && nextState == 1
    {
      states, hasState, source, nextState := map[], map[], 0, 1;
    }

    method MkState() returns (id: int)
      modifies this`nextState
      ensures id == old(nextState) && nextState == id + 1
    {
      id := nextState;
      nextState := id + 1;
    }

    /** Finds the state with these diagrams, or makes one. */
    method AddTo(state: State) returns (k: int)
      requires nextState !in states
      modifies this
      ensures state in old(hasState) ==>
                k == old(hasState)[state] && states == old(states) && hasState == old(hasState) &&
                nextState == old(nextState)
      ensures state !in old(hasState) ==>
                && k == old(nextState) && nextState == k + 1
                && states == old(states)[k := state] && hasState == old(hasState)[state := k]
      ensures source == old(source)
    {
      if state in hasState {
        k := hasState[state];
      } else {
        k := MkState();
        states := states[k := state];
        hasState := hasState[state := k];
      }
    }

    method AddToWithId(state: State, id: int)
      requires id !in states
      modifies this
      ensures states == old(states)[id := state] && hasState == old(hasState)[state := id]
      ensures source == old(source) && nextState == old(nextState)
    {
      states := states[id := state];
      hasState := hasState[state := id];
    }
  }

  /** The states reachable from `id`, added in front of `acc`. */
  method LexSort(st: States, acc: seq<int>, id: int) returns (r: seq<int>)
    requires StatesOk(st) && id in st && NoDup(acc) && Elems(acc) <= st.Keys
    ensures NoDup(r) && Elems(acc) <= Elems(r) <= st.Keys && id in r
    ensures forall x :: x in Elems(r) - Elems(acc) ==> Conts(st[x].1) <= Elems(r)
    decreases st.Keys - Elems(acc)
  {
    if id in acc {
      return acc;
    }
    r := [id] + acc;
    ContsIn(st[id].1, st.Keys);
    var todo := Conts(st[id].1);
    while todo != {}
      invariant NoDup(r) && Elems(acc) + {id} <= Elems(r) <= st.Keys
      invariant forall x :: x in Elems(r) - Elems(acc) - {id} ==> Conts(st[x].1) <= Elems(r)
      invariant todo <= Conts(st[id].1) && Conts(st[id].1) - todo <= Elems(r)
    {
      var c := Choose(todo);
      r := LexSort(st, r, c);
      todo := todo - {c};
    }
  }

  /** The action with its state renamed. */
  function RenameAct(f: map<int, int>, a: Act): Act {
    if a.cont.Some? && a.cont.value in f then a.(cont := Some(f[a.cont.value])) else a
  }

  function RenamePar(f: map<int, int>): Par -> Par {
    (par: Par) => set a | a in par :: RenameAct(f, a)
  }

  /** `map_conts` */
  function MapConts(d: Fdd, f: map<int, int>): Fdd {
    MapR(RenamePar(f), d)
  }

  /** `newId` gives new names to the states in `done`, and `st'` holds them: the
      same diagram for final packets, and the same steps under the new names. */
  ghost predicate Renamed(st: States, st': States, newId: map<int, int>, done: set<int>) {
    && (forall x :: x in done ==> x in st && x in newId && newId[x] in st')
    && (forall x :: x in done ==> Conts(st[x].1) <= newId.Keys)
    && (forall x :: x in done ==> st'[newId[x]] == (st[x].0, MapConts(st[x].1, newId)))
    && (forall k :: k in st' ==> exists x :: x in done && newId[x] == k)
  }

  /** Names given to states that are still to come are fresh and distinct. */
  ghost predicate Pending(st': States, newId: map<int, int>, done: set<int>, next: int) {
    && (forall x :: x in newId ==> newId[x] < next)
    && (forall k :: k in st' ==> k < next)
    && (forall x :: x in newId && x !in done ==> newId[x] !in st')
    && (forall x, y :: x in newId && y in newId && x !in done && y !in done && newId[x] == newId[y] ==> x == y)
  }

  ghost predicate Indexed(st': States, hasState: map<State, int>) {
    forall s :: s in hasState ==> hasState[s] in st' && st'[hasState[s]] == s
  }

  /** All states can be found. */
  ghost predicate Recorded(st': States, hasState: map<State, int>) {
    forall k :: k in st' ==> st'[k] in hasState
  }

  /** The state got the id of one done before, or none of them has its diagrams. */
  ghost predicate Reuses(st': States, newId: map<int, int>, done: set<int>, id: int)
  {
    && id in newId && newId[id] in st'
    && (forall x :: x in done ==> x in newId && newId[x] in st')
    && ((exists x :: x in done && newId[x] == newId[id]) ||
        (forall x :: x in done ==> st'[newId[x]] != st'[newId[id]]))
  }

  /** No state up to this place in the order goes on with this one. */
  predicate Unnamed(st: States, order: seq<int>, j: nat)
    requires j < |order| && Elems(order) <= st.Keys
  {
    forall i :: 0 <= i <= j ==> order[j] !in Conts(st[order[i]].1)
  }

  /** Of the first `n` states, those that were not named before their turn got the id of
      an earlier state wherever an earlier state has their diagrams. */
  ghost predicate Merged(st: States, st': States, newId: map<int, int>, order: seq<int>, n: nat)
    requires n <= |order| && Elems(order) <= st.Keys
  {
    forall j: nat :: j < n && Unnamed(st, order, j) ==> Reuses(st', newId, Elems(order[..j]), order[j])
  }

  /** What holds between two states of the traversal. */
  ghost predicate Invariant(st: States, st': States, hasState: map<State, int>, next: int, newId: map<int, int>,
                            done: set<int>)
  {
    Renamed(st, st', newId, done) && Pending(st', newId, done, next) && Indexed(st', hasState)
  }

  /** Gives a new id to each continuation of `d` that has none. */
  method NameConts(t: Automaton, ghost st: States, d: Fdd, newId0: map<int, int>, ghost done: set<int>)
    returns (newId: map<int, int>)
    requires Invariant(st, t.states, t.hasState, t.nextState, newId0, done)
    modifies t
    ensures Invariant(st, t.states, t.hasState, t.nextState, newId, done)
    ensures t.states == old(t.states) && t.hasState == old(t.hasState)
    ensures newId.Keys == newId0.Keys + Conts(d) && forall x :: x in newId0 ==> newId[x] == newId0[x]
  {
    newId := newId0;
    var todo := Conts(d);
    while todo != {}
      invariant todo <= Conts(d) && newId.Keys == newId0.Keys + (Conts(d) - todo)
      invariant forall x :: x in newId0 ==> newId[x] == newId0[x]
      invariant Invariant(st, t.states, t.hasState, t.nextState, newId, done)
      invariant t.states == old(t.states) && t.hasState == old(t.hasState)
    {
      var c := Choose(todo);
      if c !in newId {
        var n := t.MkState();
        InvariantName(st, t.states, t.hasState, n, newId, done, c);
        newId := newId[c := n];
      }
      todo := todo - {c};
    }
  }

  lemma InvariantName(st: States, st': States, hasState: map<State, int>, next: int, newId: map<int, int>,
                      done: set<int>, c: int)
    requires Invariant(st, st', hasState, next, newId, done) && c !in newId
    ensures Invariant(st, st', hasState, next + 1, newId[c := next], done)
  {
    hide Conts, MapConts;
    RenamedExtends(st, st', newId, done, c, next);
    PendingName(st', newId, done, next, c);
  }

  lemma PendingName(st': States, newId: map<int, int>, done: set<int>, next: int, c: int)
    requires Pending(st', newId, done, next)
    ensures Pending(st', newId[c := next], done, next + 1)
  {
    assert next !in st';
  }

  /** State `s` is stored under the name `k`, unless it is there already. */
  predicate Stored(st': States, hasState: map<State, int>, next: int, named: bool, k: int, s: State,
                   st'': States, hasState': map<State, int>, next': int) {
    if !named && s in hasState then
      k == hasState[s] && st'' == st' && hasState' == hasState && next' == next
    else
      && st'' == st'[k := s] && hasState' == hasState[s := k]
      && (if named then next' == next else k == next && next' == next + 1)
  }

  /** The state `id` gets its name `k` and its renamed diagrams. */
  lemma InvariantDone(st: States, st': States, hasState: map<State, int>, next: int, newId: map<int, int>,
                      done: set<int>, id: int, k: int, st'': States, hasState': map<State, int>, next': int)
    requires Invariant(st, st', hasState, next, newId, done)
    requires id in st && id !in done && Conts(st[id].1) <= newId.Keys
    requires id in newId ==> newId[id] == k
    requires var s := (st[id].0, MapConts(st[id].1, newId));
             Stored(st', hasState, next, id in newId, k, s, st'', hasState', next')
    ensures Invariant(st, st'', hasState', next', newId[id := k], done + {id})
  {
    var s := (st[id].0, MapConts(st[id].1, newId));
    var newId' := newId[id := k];
    if id !in newId {
      RenamedExtends(st, st', newId, done, id, k);
      MapContsExtends(st[id].1, newId, id, k);
    } else {
      assert newId' == newId;
    }
    hide MapConts, Conts, Renamed, Pending, Indexed;
    NamedState(st, st', hasState, next, newId, done, id, k, s);
    RenamedAdd(st, st', newId', done, id, k, st'');
    PendingAdd(st', newId, done, next, id, k, s, st'', next');
    IndexedAdd(st', hasState, k, s, st'', hasState');
  }

  /** The name is new, or that of a state with the same diagrams. */
  lemma NamedState(st: States, st': States, hasState: map<State, int>, next: int, newId: map<int, int>, done: set<int>,
                   id: int, k: int, s: State)
    requires Invariant(st, st', hasState, next, newId, done) && id !in done
    requires if id in newId then k == newId[id] else if s in hasState then k == hasState[s] else k == next
    ensures k in st' ==> id !in newId && st'[k] == s
  {
  }

  lemma PendingAdd(st': States, newId: map<int, int>, done: set<int>, next: int, id: int, k: int, s: State,
                   st'': States, next': int)
    requires Pending(st', newId, done, next) && id !in done
    requires if k in st' then st'' == st' && id !in newId && next' == next
             else
               st'' == st'[k := s] &&
               if id in newId then k == newId[id] && next' == next else k == next && next' == next + 1
    ensures Pending(st'', newId[id := k], done + {id}, next')
  {
  }

  lemma IndexedAdd(st': States, hasState: map<State, int>, k: int, s: State, st'': States, hasState': map<State, int>)
    requires Indexed(st', hasState)
    requires if k in st' then st'' == st' && hasState' == hasState
             else st'' == st'[k := s] && hasState' == hasState[s := k]
    ensures Indexed(st'', hasState')
  {
  }

  lemma RenamedAdd(st: States, st': States, newId: map<int, int>, done: set<int>, id: int, k: int, st'': States)
    requires Renamed(st, st', newId, done)
    requires id in st && id in newId && newId[id] == k && Conts(st[id].1) <= newId.Keys
    requires st'' == st'[k := (st[id].0, MapConts(st[id].1, newId))]
    requires k in st' ==> st'[k] == (st[id].0, MapConts(st[id].1, newId))
    ensures Renamed(st, st'', newId, done + {id})
  {
    hide MapConts, Conts;
    forall j | j in st'' ensures exists x :: x in done + {id} && newId[x] == j {
      if j == k {
        assert id in done + {id};
      } else {
        var x :| x in done && newId[x] == j;
        assert x in done + {id};
      }
    }
  }

  /** Stores the state `id` under a new or an existing name. */
  method Store(t: Automaton, ghost st: States, id: int, state: State, newId0: map<int, int>, ghost done: set<int>)
    returns (newId: map<int, int>)
    requires Invariant(st, t.states, t.hasState, t.nextState, newId0, done)
    requires id in st && id !in done && Conts(st[id].1) <= newId0.Keys
    requires state == (st[id].0, MapConts(st[id].1, newId0))
    requires Recorded(t.states, t.hasState)
    modifies t
    ensures Invariant(st, t.states, t.hasState, t.nextState, newId, done + {id})
    ensures Recorded(t.states, t.hasState) && newId.Keys == newId0.Keys + {id}
    ensures forall x :: x in newId0 ==> newId[x] == newId0[x]
    ensures forall k :: k in old(t.states) ==> k in t.states && t.states[k] == old(t.states)[k]
    ensures id in newId0 || Reuses(t.states, newId, done, id)
  {
    hide Invariant, MapConts, Conts;
    ghost var st0, hs0, next0 := t.states, t.hasState, t.nextState;
    FreshId(st, st0, hs0, next0, newId0, done, id);
    var k;
    if id !in newId0 {
      k := t.AddTo(state);
    } else {
      k := newId0[id];
      t.AddToWithId(state, k);
    }
    newId := newId0[id := k];
    InvariantDone(st, st0, hs0, next0, newId0, done, id, k, t.states, t.hasState, t.nextState);
    if id !in newId0 {
      ReusesKnown(st, st0, hs0, next0, newId0, done, id, state, k, t.states);
    }
  }

  lemma ReusesKnown(st: States, st': States, hasState: map<State, int>, next: int, newId: map<int, int>, done: set<int>,
                    id: int, s: State, k: int, st'': States)
    requires Invariant(st, st', hasState, next, newId, done) && Recorded(st', hasState) && id !in newId
    requires if s in hasState then k == hasState[s] && st'' == st' else k == next && st'' == st'[k := s]
    ensures Reuses(st'', newId[id := k], done, id)
  {
    hide MapConts, Conts;
    if s in hasState {
      var x :| x in done && newId[x] == k;
      assert x in done && newId[id := k][x] == k;
    }
  }

  /** Only states done and their continuations have names. */
  ghost predicate Named(st: States, newId: map<int, int>, order: seq<int>, n: nat)
    requires n <= |order| && Elems(order) <= st.Keys
  {
    forall x :: x in newId ==> exists i :: 0 <= i < n && (x == order[i] || x in Conts(st[order[i]].1))
  }

  /** One more state is done. */
  lemma MergedStep(st: States, st0: States, newId0: map<int, int>, order: seq<int>, n: nat, named: map<int, int>,
                   st1: States, newId1: map<int, int>)
    requires n < |order| && Elems(order) <= st.Keys && NoDup(order)
    requires Named(st, newId0, order, n) && Merged(st, st0, newId0, order, n)
    requires named.Keys == newId0.Keys + Conts(st[order[n]].1)
    requires newId1.Keys == named.Keys + {order[n]}
    requires forall x :: x in newId0 ==> x in newId1 && newId1[x] == newId0[x]
    requires forall k :: k in st0 ==> k in st1 && st1[k] == st0[k]
    requires order[n] in named || Reuses(st1, newId1, Elems(order[..n]), order[n])
    ensures Named(st, newId1, order, n + 1) && Merged(st, st1, newId1, order, n + 1)
  {
    hide Conts, NoDup;
    NamedStep(st, newId0, order, n, newId1);
    forall j: nat | j < n + 1 && Unnamed(st, order, j) ensures Reuses(st1, newId1, Elems(order[..j]), order[j]) {
      if j < n {
        assert Reuses(st0, newId0, Elems(order[..j]), order[j]);
        ReusesLater(st0, newId0, Elems(order[..j]), order[j], st1, newId1);
      } else if order[n] in newId0 {
        var i :| 0 <= i < n && (order[n] == order[i] || order[n] in Conts(st[order[i]].1));
        OrderDiffers(order, i, n);
      }
    }
  }

  lemma OrderDiffers(order: seq<int>, i: nat, j: nat)
    requires NoDup(order) && i < j < |order|
    ensures order[i] != order[j]
  {
  }

  lemma NamedStep(st: States, newId0: map<int, int>, order: seq<int>, n: nat, newId1: map<int, int>)
    requires n < |order| && Elems(order) <= st.Keys && Named(st, newId0, order, n)
    requires newId1.Keys == newId0.Keys + Conts(st[order[n]].1) + {order[n]}
    ensures Named(st, newId1, order, n + 1)
  {
    hide Conts;
    forall x | x in newId1 ensures exists i :: 0 <= i < n + 1 && (x == order[i] || x in Conts(st[order[i]].1)) {
      if x in newId0 {
        var i :| 0 <= i < n && (x == order[i] || x in Conts(st[order[i]].1));
        assert 0 <= i < n + 1;
      } else {
        assert x == order[n] || x in Conts(st[order[n]].1);
      }
    }
  }

  lemma ReusesLater(st0: States, newId0: map<int, int>, done: set<int>, id: int, st1: States, newId1: map<int, int>)
    requires Reuses(st0, newId0, done, id)
    requires forall x :: x in newId0 ==> x in newId1 && newId1[x] == newId0[x]
    requires forall k :: k in st0 ==> k in st1 && st1[k] == st0[k]
    ensures Reuses(st1, newId1, done, id)
  {
  }

  /** The first `n` states of the order are done. */
  ghost predicate Progress(st: States, st': States, hasState: map<State, int>, next: int, newId: map<int, int>,
                           order: seq<int>, n: nat)
    requires n <= |order| && Elems(order) <= st.Keys
  {
    && Invariant(st, st', hasState, next, newId, Elems(order[..n]))
    && Recorded(st', hasState) && Named(st, newId, order, n) && Merged(st, st', newId, order, n)
  }

  /** The next state gets its id. */
  method MinimizeNext(t: Automaton, st: States, order: seq<int>, n: nat, newId0: map<int, int>)
    returns (newId: map<int, int>)
    requires n < |order| && NoDup(order) && Elems(order) <= st.Keys
    requires Progress(st, t.states, t.hasState, t.nextState, newId0, order, n)
    modifies t
    ensures Progress(st, t.states, t.hasState, t.nextState, newId, order, n + 1)
  {
    hide Invariant, MapConts, Conts, NoDup, Elems, Merged, Named, Recorded, Reuses;
    var id := order[n];
    ghost var done := Elems(order[..n]);
    ElemsNext(order, n);
    ghost var st0 := t.states;
    newId := NameConts(t, st, st[id].1, newId0, done);
    ghost var named := newId;
    newId := Store(t, st, id, (st[id].0, MapConts(st[id].1, newId)), newId, done);
    MergedStep(st, st0, newId0, order, n, named, t.states, newId);
  }

  /** Cheap minimisation: every state gets a new id.  A state that no state before it in
      the order, nor itself, goes on with gets the id of an earlier one wherever an earlier
      one has the same renamed diagrams. */
  method Minimize(st: States, source: int)
    returns (t: Automaton, newId: map<int, int>, ghost reached: set<int>, ghost order: seq<int>)
    requires StatesOk(st) && source in st
    ensures fresh(t)
    ensures source in reached && (forall x :: x in reached ==> x in st && Conts(st[x].1) <= reached)
    ensures Renamed(st, t.states, newId, reached)
    ensures t.source == newId[source]
    ensures Indexed(t.states, t.hasState) && forall k :: k in t.states ==> k < t.nextState
    ensures NoDup(order) && reached == Elems(order) <= st.Keys && Merged(st, t.states, newId, order, |order|)
  {
    hide Progress, Merged, Renamed, Indexed, Conts, MapConts, NoDup, StatesOk;
    t := new Automaton();
    newId := map[];
    var list := SortedStates(st, source);
    order := list;
    var n := 0;
    ProgressStart(st, t.states, t.hasState, t.nextState, newId, list);
    while n < |list|
      invariant 0 <= n <= |list| && fresh(t)
      invariant Progress(st, t.states, t.hasState, t.nextState, newId, list, n)
    {
      newId := MinimizeNext(t, st, list, n, newId);
      n := n + 1;
    }
    ProgressDone(st, t.states, t.hasState, t.nextState, newId, list);
    reached := Elems(list);
    NamedDone(st, t.states, newId, reached, source);
    t.source := newId[source];
  }

  /** The order of `lex_sort`. */
  method SortedStates(st: States, source: int) returns (order: seq<int>)
    requires StatesOk(st) && source in st
    ensures NoDup(order) && source in Elems(order) && Elems(order) <= st.Keys
    ensures forall x :: x in Elems(order) ==> x in st && Conts(st[x].1) <= Elems(order)
  {
    hide Conts, StatesOk;
    order := LexSort(st, [], source);
  }

  lemma ProgressStart(st: States, st': States, hasState: map<State, int>, next: int, newId: map<int, int>,
                      order: seq<int>)
    requires st' == map[] && hasState == map[] && newId == map[] && Elems(order) <= st.Keys
    ensures Progress(st, st', hasState, next, newId, order, 0)
  {
    hide Conts, MapConts;
  }

  lemma ProgressDone(st: States, st': States, hasState: map<State, int>, next: int, newId: map<int, int>,
                     order: seq<int>)
    requires Elems(order) <= st.Keys && Progress(st, st', hasState, next, newId, order, |order|)
    ensures Renamed(st, st', newId, Elems(order)) && Indexed(st', hasState) && forall k :: k in st' ==> k < next
    ensures Merged(st, st', newId, order, |order|)
  {
    hide Merged, Renamed, Indexed, Named, Recorded;
    assert order[..|order|] == order;
  }

  lemma NamedDone(st: States, st': States, newId: map<int, int>, done: set<int>, x: int)
    requires Renamed(st, st', newId, done) && x in done
    ensures x in newId
  {
  }

  lemma ElemsNext(s: seq<int>, n: nat)
    requires n < |s| && NoDup(s)
    ensures Elems(s[..n + 1]) == Elems(s[..n]) + {s[n]} && s[n] !in Elems(s[..n]) && s[n] in Elems(s)
  {
    assert s[..n + 1] == s[..n] + [s[n]];
  }

  lemma FreshId(st: States, st': States, hasState: map<State, int>, next: int, newId: map<int, int>, done: set<int>,
                id: int)
    requires Invariant(st, st', hasState, next, newId, done) && id !in done
    ensures next !in st' && (id in newId ==> newId[id] !in st')
  {
  }

  /** A new name changes no diagram whose continuations already have one. */
  lemma RenamedExtends(st: States, st': States, newId: map<int, int>, done: set<int>, c: int, n: int)
    requires Renamed(st, st', newId, done) && c !in newId
    ensures Renamed(st, st', newId[c := n], done)
  {
    hide MapConts, Conts;
    forall x | x in done ensures MapConts(st[x].1, newId[c := n]) == MapConts(st[x].1, newId) {
      MapContsExtends(st[x].1, newId, c, n);
    }
    forall k | k in st' ensures exists x :: x in done && newId[c := n][x] == k {
      var x :| x in done && newId[x] == k;
      assert newId[c := n][x] == k;
    }
  }

  lemma {:induction false} MapContsExtends(d: Fdd, f: map<int, int>, c: int, n: int)
    requires Conts(d) <= f.Keys && c !in f
    ensures MapConts(d, f[c := n]) == MapConts(d, f)
  {
    if d.Branch? {
      MapContsExtends(d.tru, f, c, n);
      MapContsExtends(d.fls, f, c, n);
    } else {
      forall a | a in d.par ensures RenameAct(f[c := n], a) == RenameAct(f, a) {
        if a.cont.Some? { assert a.cont.value in Conts(d); }
      }
      assert RenamePar(f[c := n])(d.par) == RenamePar(f)(d.par);
    }
  }

  // The minimised automaton is bisimilar

  lemma DStepMapConts(d: Fdd, f: map<int, int>, p: Packet, x: Packet, k: int)
    requires Conts(d) <= f.Keys
    ensures DStep(MapConts(d, f), p, x, k) <==> exists id :: id in f && f[id] == k && DStep(d, p, x, id)
  {
    MapRMeaning(RenamePar(f), d, p);
    if DStep(MapConts(d, f), p, x, k) {
      var b :| b in RenamePar(f)(Lookup(d, p)) && b.cont == Some(k) && Run(b, p) == x;
      var a :| a in Lookup(d, p) && b == RenameAct(f, a);
      assert a.cont.Some? && DStep(d, p, x, a.cont.value);
      DStepConts(d, p, x, a.cont.value);
      assert a.cont.value in f;
    }
    if id :| id in f && f[id] == k && DStep(d, p, x, id) {
      var a :| a in Lookup(d, p) && a.cont == Some(id) && Run(a, p) == x;
      assert RenameAct(f, a) in RenamePar(f)(Lookup(d, p));
      assert Run(RenameAct(f, a), p) == x;
    }
  }

  /** A reached state and its new name accept the same traces. */
  lemma {:induction false} MinimizeExact(w: Wire, st: States, st': States, newId: map<int, int>, reached: set<int>,
                                         x: int, p: Packet, h: seq<Packet>, q: Packet)
    requires Renamed(st, st', newId, reached) && x in reached
    requires forall y :: y in reached ==> y in st && Conts(st[y].1) <= reached
    ensures Accept(w, st', newId[x], p, h, q) <==> Accept(w, st, x, p, h, q)
    decreases |h|
  {
    hide EStep, DStep, MapConts, Conts;
    var d := st[x].1;
    assert st'[newId[x]] == (st[x].0, MapConts(d, newId));
    if h != [] {
      if Accept(w, st, x, p, h, q) {
        var id :| DStep(d, p, h[0], id) && Accept(w, st, id, w(h[0]), h[1..], q);
        DStepConts(d, p, h[0], id);
        DStepMapConts(d, newId, p, h[0], newId[id]);
        MinimizeExact(w, st, st', newId, reached, id, w(h[0]), h[1..], q);
      }
      if Accept(w, st', newId[x], p, h, q) {
        var k :| DStep(MapConts(d, newId), p, h[0], k) && Accept(w, st', k, w(h[0]), h[1..], q);
        DStepMapConts(d, newId, p, h[0], k);
        var id :| id in newId && newId[id] == k && DStep(d, p, h[0], id);
        DStepConts(d, p, h[0], id);
        MinimizeExact(w, st, st', newId, reached, id, w(h[0]), h[1..], q);
      }
    }
  }

  lemma {:induction false} MapContsIn(d: Fdd, f: map<int, int>, ids: set<int>, ids': set<int>)
    requires AllConts(d, ids) && ids <= f.Keys && forall id :: id in ids ==> f[id] in ids'
    ensures AllConts(MapConts(d, f), ids')
  {
    if d.Branch? {
      MapContsIn(d.tru, f, ids, ids');
      MapContsIn(d.fls, f, ids, ids');
    } else {
      forall b | b in RenamePar(f)(d.par) ensures ContIn(ids')(b) {
        var a :| a in d.par && b == RenameAct(f, a);
        assert ContIn(ids)(a);
        assert a.cont.Some?;
        var id := a.cont.value;
        assert id in ids && f[id] in ids' && b.cont == Some(f[id]);
      }
    }
  }

  lemma MinimizeOk(st: States, st': States, newId: map<int, int>, reached: set<int>)
    requires StatesOk(st) && Renamed(st, st', newId, reached)
    requires forall y :: y in reached ==> y in st && Conts(st[y].1) <= reached
    ensures StatesOk(st')
  {
    hide Canonical, MapConts, AllConts, NoConts;
    forall k | k in st' ensures StateOk(st'[k], st'.Keys) {
      var x :| x in reached && newId[x] == k;
      assert st'[k] == (st[x].0, MapConts(st[x].1, newId));
      assert StateOk(st[x], st.Keys);
      ContsIn(st[x].1, st.Keys);
      MapContsIn(st[x].1, newId, Conts(st[x].1), st'.Keys);
      CanonicalMapConts(st[x].1, newId);
    }
  }

  lemma CanonicalMapConts(d: Fdd, f: map<int, int>)
    requires Canonical(d)
    ensures Canonical(MapConts(d, f))
  {
    CanonicalMapR(RenamePar(f), d);
  }
}
