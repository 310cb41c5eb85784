/** The LR(0) automaton behind the SLR(1) parser: items, their closure, the
    goto function, and the canonical collection of item sets. */
module LR0 {
  import opened Grammar

  /** The left-hand side of an item: the augmented start S', which no grammar
      symbol can name, or a non-terminal. */
  datatype Lhs = Aug | NT(nt: char)

  /** An LR(0) item: a production with a dot before position `dot`. */
  datatype Item = Item(lhs: Lhs, rhs: seq<char>, dot: nat)

  // ---------------------------------------------------------------------------
  // Closure

  /** The items an item predicts: when the dot stands before a non-terminal
      `X`, every alternative of `X` with the dot at its start. */
  function Predictions(g: Grammar, it: Item): set<Item> {
    if it.dot < |it.rhs| && it.rhs[it.dot] in g.nonTerminals then
      var x := it.rhs[it.dot];
      var alts := ProductionsOf(g.productions, x);
      set k | 0 <= k < |alts| :: Item(NT(x), alts[k], 0)
    else {}
  }

  /** Everything the items of `items` predict. */
  function Predict(g: Grammar, items: set<Item>): set<Item> {
    set p, it | it in items && p in Predictions(g, it) :: p
  }

  /** A set that contains everything its items predict. */
  predicate ClosedUnder(g: Grammar, items: set<Item>) {
    forall it :: it in items ==> Predictions(g, it) <= items
  }

  /** Every item with the dot at the start of some alternative of some key:
      the only items a closure can add. */
  function PredictionUniverse(g: Grammar): set<Item> {
    set i, j | 0 <= i < |g.productions| && 0 <= j < |g.productions[i].alts| ::
      Item(NT(g.productions[i].lhs), g.productions[i].alts[j], 0)
  }

  lemma PredictionsInUniverse(g: Grammar, it: Item)
    ensures Predictions(g, it) <= PredictionUniverse(g)
  {
    if it.dot < |it.rhs| && it.rhs[it.dot] in g.nonTerminals {
      var x := it.rhs[it.dot];
      if IsKey(g.productions, x) {
        var i :| 0 <= i < |g.productions| && g.productions[i].lhs == x && ProductionsOf(g.productions, x) == g.productions[i].alts;
        forall p | p in Predictions(g, it) ensures p in PredictionUniverse(g) {
          var k :| 0 <= k < |g.productions[i].alts| && p == Item(NT(x), g.productions[i].alts[k], 0);
        }
      }
    }
  }

  lemma PredictInUniverse(g: Grammar, items: set<Item>)
    ensures Predict(g, items) <= PredictionUniverse(g)
  {
    forall p | p in Predict(g, items) ensures p in PredictionUniverse(g) {
      var it :| it in items && p in Predictions(g, it);
      PredictionsInUniverse(g, it);
    }
  }

  lemma CardSubset<T>(a: set<T>, b: set<T>)
    requires a < b
    ensures |a| < |b|
  {
    assert b == a + (b - a);
  }

  /** Adding predictions that are not there yet leaves fewer items to add. */
  lemma PredictShrinks(g: Grammar, items: set<Item>)
    requires !(Predict(g, items) <= items)
    ensures |PredictionUniverse(g) - (items + Predict(g, items))| < |PredictionUniverse(g) - items|
  {
    PredictInUniverse(g, items);
    var p :| p in Predict(g, items) && p !in items;
    CardSubset(PredictionUniverse(g) - (items + Predict(g, items)), PredictionUniverse(g) - items);
  }

  /** The closure of a set of items: add what it predicts until nothing is new. */
  function Closure(g: Grammar, items: set<Item>): set<Item>
    decreases |PredictionUniverse(g) - items|
  {
    if Predict(g, items) <= items then items
    else
      PredictShrinks(g, items);
      Closure(g, items + Predict(g, items))
  }

  /** The closure contains its input, is closed, and is contained in every
      closed superset of its input: it is the least closed superset. */
  lemma {:induction false} ClosureLeast(g: Grammar, items: set<Item>, other: set<Item>)
    requires items <= other && ClosedUnder(g, other)
    ensures items <= Closure(g, items) && ClosedUnder(g, Closure(g, items))
    ensures Closure(g, items) <= other
    decreases |PredictionUniverse(g) - items|
  {
    if Predict(g, items) <= items {
      forall it | it in items ensures Predictions(g, it) <= items {
        forall p | p in Predictions(g, it) ensures p in items {
          assert p in Predict(g, items);
        }
      }
    } else {
      PredictShrinks(g, items);
      forall p | p in Predict(g, items) ensures p in other {
        var it :| it in items && p in Predictions(g, it);
      }
      ClosureLeast(g, items + Predict(g, items), other);
    }
  }

  /** A closed set is its own closure. */
  lemma ClosureOfClosed(g: Grammar, items: set<Item>)
    requires ClosedUnder(g, items)
    ensures Closure(g, items) == items
  {
    ClosureLeast(g, items, items);
  }

  /** Closing twice is closing once. */
  lemma ClosureIdempotent(g: Grammar, items: set<Item>)
    ensures Closure(g, Closure(g, items)) == Closure(g, items)
  {
    ClosureSelf(g, items);
    ClosureOfClosed(g, Closure(g, items));
  }

  /** The closure is a closed superset of its input. */
  lemma ClosureSelf(g: Grammar, items: set<Item>)
    ensures items <= Closure(g, items) && ClosedUnder(g, Closure(g, items))
  {
    var u := items + PredictionUniverse(g);
    forall it | it in u ensures Predictions(g, it) <= u {
      PredictionsInUniverse(g, it);
    }
    ClosureLeast(g, items, u);
  }

  /** What the closure adds are items with the dot at the start of an
      alternative of a key of the production map. */
  lemma {:induction false} ClosureAdds(g: Grammar, items: set<Item>)
    ensures Closure(g, items) <= items + PredictionUniverse(g)
    decreases |PredictionUniverse(g) - items|
  {
    if !(Predict(g, items) <= items) {
      PredictShrinks(g, items);
      PredictInUniverse(g, items);
      ClosureAdds(g, items + Predict(g, items));
    }
  }

  /** Every item the closure adds has its dot at the start of an
      alternative of its left-hand side, a key of the production map. */
  lemma ClosureAddsDotZero(g: Grammar, items: set<Item>, it: Item)
    requires it in Closure(g, items) && it !in items
    ensures it.dot == 0 && it.lhs.NT?
    ensures exists i :: 0 <= i < |g.productions| && g.productions[i].lhs == it.lhs.nt && it.rhs in g.productions[i].alts
  {
    ClosureAdds(g, items);
    var i, j :| 0 <= i < |g.productions| && 0 <= j < |g.productions[i].alts| &&
      it == Item(NT(g.productions[i].lhs), g.productions[i].alts[j], 0);
  }

  /** Every dot lies within its right-hand side. */
  predicate DotsInRange(items: set<Item>) {
    forall it :: it in items ==> it.dot <= |it.rhs|
  }

  /** Closing and advancing keep every dot within its right-hand side. */
  lemma GotoDotsInRange(g: Grammar, items: set<Item>, x: char)
    requires DotsInRange(items)
    ensures DotsInRange(Closure(g, items)) && DotsInRange(Goto(g, items, x))
  {
    forall it | it in Closure(g, items) ensures it.dot <= |it.rhs| {
      if it !in items {
        ClosureAddsDotZero(g, items, it);
      }
    }
    forall it | it in Goto(g, items, x) ensures it.dot <= |it.rhs| {
      if it !in Advance(items, x) {
        ClosureAddsDotZero(g, Advance(items, x), it);
      }
    }
  }

  /** The closure of the empty set is empty. */
  lemma ClosureEmpty(g: Grammar)
    ensures Closure(g, {}) == {}
  {
    assert Predict(g, {}) == {};
  }

  lemma PredictAdd(g: Grammar, done: set<Item>, it: Item)
    ensures Predict(g, done + {it}) == Predict(g, done) + Predictions(g, it)
  {
  }

  /** The predictions of one item that are not in `closure`, added to
      `newItems`; `added` tells whether any was new to `closure`. */
  method AddPredictions(g: Grammar, closure: set<Item>, it: Item, newItems: set<Item>)
    returns (newItems': set<Item>, added: bool)
    ensures newItems' == newItems + (Predictions(g, it) - closure)
    ensures added <==> Predictions(g, it) - closure != {}
  {
    newItems', added := newItems, false;
    if it.dot < |it.rhs| {
      var next := it.rhs[it.dot];
      if next in g.nonTerminals {
        var alts := ProductionsOf(g.productions, next);
        var k := 0;
        while k < |alts|
          invariant k <= |alts|
          invariant newItems' == newItems + ((set k' | 0 <= k' < k :: Item(NT(next), alts[k'], 0)) - closure)
          invariant added <==> (set k' | 0 <= k' < k :: Item(NT(next), alts[k'], 0)) - closure != {}
        {
          var newItem := Item(NT(next), alts[k], 0);
          assert (set k' | 0 <= k' < k + 1 :: Item(NT(next), alts[k'], 0)) ==
            (set k' | 0 <= k' < k :: Item(NT(next), alts[k'], 0)) + {newItem};
          if newItem !in closure {
            newItems' := newItems' + {newItem};
            added := true;
          }
          k := k + 1;
        }
      }
    }
  }

  /** One pass of the closure loop: every prediction of an item of `closure`
      that is not yet in it, scanning the items in any order. */
  method CollectNewItems(g: Grammar, closure: set<Item>) returns (newItems: set<Item>, changed: bool)
    ensures newItems == Predict(g, closure) - closure
    ensures changed <==> newItems != {}
  {
    newItems := {};
    changed := false;
    var rest := closure;
    while rest != {}
      invariant rest <= closure
      invariant newItems == Predict(g, closure - rest) - closure
      invariant changed <==> newItems != {}
      decreases rest
    {
      var it :| it in rest;
      ghost var done := closure - rest;
      PredictAdd(g, done, it);
      assert closure - (rest - {it}) == done + {it};
      var added;
      newItems, added := AddPredictions(g, closure, it, newItems);
      changed := changed || added;
      rest := rest - {it};
    }
  }

  lemma UnionDifference<T>(a: set<T>, b: set<T>)
    ensures a + (b - a) == a + b
  {
  }

  /** One unfolding of `Closure`, with the measure that makes it terminate. */
  lemma ClosureUnfold(g: Grammar, s: set<Item>)
    ensures Predict(g, s) <= s ==> Closure(g, s) == s
    ensures !(Predict(g, s) <= s) ==>
      Closure(g, s + Predict(g, s)) == Closure(g, s) &&
      |PredictionUniverse(g) - (s + Predict(g, s))| < |PredictionUniverse(g) - s|
  {
    if !(Predict(g, s) <= s) {
      PredictShrinks(g, s);
    }
  }

  /** The closure loop: passes that add every new prediction, until a pass
      adds nothing. */
  method ItemClosure(g: Grammar, items: set<Item>) returns (closure: set<Item>)
    ensures closure == Closure(g, items)
  {
    closure := items;
    var changed := true;
    while changed
      invariant Closure(g, closure) == Closure(g, items)
      invariant !changed ==> Predict(g, closure) <= closure
      decreases |PredictionUniverse(g) - closure|, changed
    {
      var newItems;
      newItems, changed := CollectNewItems(g, closure);
      ClosureUnfold(g, closure);
      UnionDifference(closure, Predict(g, closure));
      closure := closure + newItems;
    }
    ClosureUnfold(g, closure);
  }

  // ---------------------------------------------------------------------------
  // Goto

  /** The items of `items` with `x` after the dot, the dot moved past it. */
  function Advance(items: set<Item>, x: char): set<Item> {
    set it | it in items && it.dot < |it.rhs| && it.rhs[it.dot] == x :: Item(it.lhs, it.rhs, it.dot + 1)
  }

  /** The goto function of the automaton. */
  function Goto(g: Grammar, items: set<Item>, x: char): set<Item> {
    Closure(g, Advance(items, x))
  }

  /** The goto loop: move the dot past `symbol` where it stands before it,
      drop every other item, then close. */
  method GotoItems(g: Grammar, items: set<Item>, symbol: char) returns (r: set<Item>)
    ensures r == Goto(g, items, symbol)
  {
    var gotoItems := {};
    var rest := items;
    while rest != {}
      invariant rest <= items
      invariant gotoItems == Advance(items - rest, symbol)
      decreases rest
    {
      var it :| it in rest;
      if it.dot < |it.rhs| && it.rhs[it.dot] == symbol {
        gotoItems := gotoItems + {Item(it.lhs, it.rhs, it.dot + 1)};
      }
      rest := rest - {it};
    }
    assert items - rest == items;
    r := ItemClosure(g, gotoItems);
  }

  /** Goto is empty exactly when no item has the symbol after its dot. */
  lemma GotoEmpty(g: Grammar, items: set<Item>, x: char)
    ensures Goto(g, items, x) == {} <==> forall it :: it in items ==> !(it.dot < |it.rhs| && it.rhs[it.dot] == x)
  {
    ClosureSelf(g, Advance(items, x));
    if forall it :: it in items ==> !(it.dot < |it.rhs| && it.rhs[it.dot] == x) {
      assert Advance(items, x) == {};
      ClosureEmpty(g);
    } else {
      var it :| it in items && it.dot < |it.rhs| && it.rhs[it.dot] == x;
      assert Item(it.lhs, it.rhs, it.dot + 1) in Advance(items, x);
    }
  }

  // ---------------------------------------------------------------------------
  // The canonical collection

  /** The item S' -> start with the dot at the start. */
  function InitialItem(start: char): Item {
    Item(Aug, [start], 0)
  }

  /** State 0 of the automaton. */
  function InitialState(g: Grammar, start: char): set<Item> {
    Closure(g, {InitialItem(start)})
  }

  /** Every item the automaton can hold: S' -> start with its dot at 0 or 1,
      and every alternative of every key with its dot anywhere in it. */
  ghost function ItemUniverse(g: Grammar, start: char): set<Item> {
    {Item(Aug, [start], 0), Item(Aug, [start], 1)} +
    set i, j, d | 0 <= i < |g.productions| && 0 <= j < |g.productions[i].alts| && 0 <= d <= |g.productions[i].alts[j]| ::
      Item(NT(g.productions[i].lhs), g.productions[i].alts[j], d)
  }

  lemma GotoInUniverse(g: Grammar, start: char, items: set<Item>, x: char)
    requires items <= ItemUniverse(g, start)
    ensures Goto(g, items, x) <= ItemUniverse(g, start)
  {
    var u := ItemUniverse(g, start);
    forall it | it in Advance(items, x) ensures it in u {
      var it0 :| it0 in items && it0.dot < |it0.rhs| && it0.rhs[it0.dot] == x && it == Item(it0.lhs, it0.rhs, it0.dot + 1);
      if it0.lhs.NT? {
        var i, j, d :| 0 <= i < |g.productions| && 0 <= j < |g.productions[i].alts| && 0 <= d <= |g.productions[i].alts[j]| &&
          it0 == Item(NT(g.productions[i].lhs), g.productions[i].alts[j], d);
        assert it == Item(NT(g.productions[i].lhs), g.productions[i].alts[j], d + 1);
      }
    }
    ClosureAdds(g, Advance(items, x));
    forall it | it in PredictionUniverse(g) ensures it in u {
      var i, j :| 0 <= i < |g.productions| && 0 <= j < |g.productions[i].alts| &&
        it == Item(NT(g.productions[i].lhs), g.productions[i].alts[j], 0);
    }
  }

  lemma InitialInUniverse(g: Grammar, start: char)
    ensures InitialState(g, start) <= ItemUniverse(g, start)
  {
    var u := ItemUniverse(g, start);
    ClosureAdds(g, {InitialItem(start)});
    forall it | it in PredictionUniverse(g) ensures it in u {
      var i, j :| 0 <= i < |g.productions| && 0 <= j < |g.productions[i].alts| &&
        it == Item(NT(g.productions[i].lhs), g.productions[i].alts[j], 0);
    }
  }

  /** No two states are equal as sets. */
  predicate Distinct(collection: seq<set<Item>>) {
    forall i, j :: 0 <= i < j < |collection| ==> collection[i] != collection[j]
  }

  /** Every state after the first is a goto of an earlier state on one of the symbols. */
  predicate Reached(g: Grammar, symbols: seq<char>, collection: seq<set<Item>>) {
    forall j :: 0 < j < |collection| ==>
      exists i, k :: 0 <= i < j && 0 <= k < |symbols| && collection[j] == Goto(g, collection[i], symbols[k])
  }

  /** The first `n` states have every non-empty goto in the collection. */
  predicate GotoClosedBelow(g: Grammar, symbols: seq<char>, collection: seq<set<Item>>, n: nat) {
    forall i, k :: 0 <= i < n && i < |collection| && 0 <= k < |symbols| && Goto(g, collection[i], symbols[k]) != {} ==>
      Goto(g, collection[i], symbols[k]) in collection
  }

  /** The shape the collection keeps while it is built. */
  ghost predicate CollectionShape(g: Grammar, start: char, symbols: seq<char>, collection: seq<set<Item>>) {
    |collection| > 0 && collection[0] == InitialState(g, start) &&
    Distinct(collection) && Reached(g, symbols, collection) &&
    forall i :: 0 <= i < |collection| ==> collection[i] <= ItemUniverse(g, start)
  }

  /** Every subset of `u`. */
  ghost function PowerSet(u: set<Item>): set<set<Item>> {
    set s: set<Item> | s <= u
  }

  /** The states of the collection, as a set. */
  ghost function StateSet(collection: seq<set<Item>>): (r: set<set<Item>>)
    ensures forall s :: s in r <==> s in collection
  {
    set i | 0 <= i < |collection| :: collection[i]
  }

  /** The subsets of the universe not yet in the collection. */
  ghost function Unseen(g: Grammar, start: char, collection: seq<set<Item>>): set<set<Item>> {
    PowerSet(ItemUniverse(g, start)) - StateSet(collection)
  }

  lemma UnseenAppend(g: Grammar, start: char, collection: seq<set<Item>>, s: set<Item>)
    requires s <= ItemUniverse(g, start) && s !in collection
    ensures |Unseen(g, start, collection + [s])| + 1 == |Unseen(g, start, collection)|
  {
    assert StateSet(collection + [s]) == StateSet(collection) + {s};
    assert s in Unseen(g, start, collection);
    assert Unseen(g, start, collection + [s]) == Unseen(g, start, collection) - {s};
  }

  /** Appending a new goto of a state keeps the shape of the collection. */
  lemma ShapeAppend(g: Grammar, start: char, symbols: seq<char>, collection: seq<set<Item>>, i: nat, k: nat)
    requires CollectionShape(g, start, symbols, collection)
    requires i < |collection| && k < |symbols|
    requires Goto(g, collection[i], symbols[k]) !in collection
    ensures CollectionShape(g, start, symbols, collection + [Goto(g, collection[i], symbols[k])])
  {
    var gotoSet := Goto(g, collection[i], symbols[k]);
    var c' := collection + [gotoSet];
    GotoInUniverse(g, start, collection[i], symbols[k]);
    forall j1 | 0 < j1 < |c'|
      ensures exists i1, k1 :: 0 <= i1 < j1 && 0 <= k1 < |symbols| && c'[j1] == Goto(g, c'[i1], symbols[k1])
    {
      if j1 < |collection| {
        var i1, k1 :| 0 <= i1 < j1 && 0 <= k1 < |symbols| && collection[j1] == Goto(g, collection[i1], symbols[k1]);
        assert c'[i1] == collection[i1];
      } else {
        assert c'[i] == collection[i];
      }
    }
  }

  /** The indices still to process are the last ones of the collection, in order. */
  predicate IsTail(queue: seq<nat>, n: nat) {
    |queue| <= n && forall q :: 0 <= q < |queue| ==> queue[q] == n - |queue| + q
  }

  lemma TailAppend(queue: seq<nat>, n: nat)
    requires IsTail(queue, n)
    ensures IsTail(queue + [n], n + 1)
  {
  }

  /** The position of the first state equal to `s`, scanning from the front;
      `|collection|` when there is none. */
  method IndexOfState(collection: seq<set<Item>>, s: set<Item>) returns (j: nat)
    ensures j <= |collection|
    ensures j < |collection| <==> s in collection
    ensures j < |collection| ==> collection[j] == s
    ensures forall j' :: 0 <= j' < j ==> collection[j'] != s
  {
    j := 0;
    while j < |collection| && collection[j] != s
      invariant j <= |collection|
      invariant forall j' :: 0 <= j' < j ==> collection[j'] != s
      decreases |collection| - j
    {
      j := j + 1;
    }
  }

  /** Looks a set of items up in the collection; appends it when it is new. */
  method FindOrAppend(g: Grammar, start: char, symbols: seq<char>, collection: seq<set<Item>>, queue: seq<nat>,
                      ghost i: nat, ghost k: nat, gotoSet: set<Item>)
    returns (collection': seq<set<Item>>, queue': seq<nat>)
    requires CollectionShape(g, start, symbols, collection) && IsTail(queue, |collection|)
    requires i < |collection| && k < |symbols| && gotoSet == Goto(g, collection[i], symbols[k])
    ensures CollectionShape(g, start, symbols, collection') && IsTail(queue', |collection'|)
    ensures gotoSet in collection'
    ensures |collection'| >= |collection| && collection'[..|collection|] == collection
    ensures |queue'| - |queue| == |collection'| - |collection| && |collection'| <= |collection| + 1
    ensures |Unseen(g, start, collection')| + |collection'| == |Unseen(g, start, collection)| + |collection|
  {
    var j := IndexOfState(collection, gotoSet);
    if j < |collection| {
      return collection, queue;
    }
    GotoInUniverse(g, start, collection[i], symbols[k]);
    UnseenAppend(g, start, collection, gotoSet);
    ShapeAppend(g, start, symbols, collection, i, k);
    TailAppend(queue, |collection|);
    collection' := collection + [gotoSet];
    queue' := queue + [|collection|];
    assert collection'[..|collection|] == collection;
    assert collection'[|collection|] == gotoSet;
  }

  lemma PrefixMembers(a: seq<set<Item>>, b: seq<set<Item>>)
    requires |a| <= |b| && b[..|a|] == a
    ensures forall x :: x in a ==> x in b
  {
    forall x | x in a ensures x in b {
      var i :| 0 <= i < |a| && a[i] == x;
      assert b[i] == x;
    }
  }

  /** Appending states keeps every goto that was in the collection. */
  lemma GotoClosedExtend(g: Grammar, symbols: seq<char>, a: seq<set<Item>>, b: seq<set<Item>>, n: nat)
    requires |a| <= |b| && b[..|a|] == a && n <= |a|
    requires GotoClosedBelow(g, symbols, a, n)
    ensures GotoClosedBelow(g, symbols, b, n)
  {
    PrefixMembers(a, b);
    forall i, k | 0 <= i < n && i < |b| && 0 <= k < |symbols| && Goto(g, b[i], symbols[k]) != {}
      ensures Goto(g, b[i], symbols[k]) in b
    {
      assert b[i] == a[i];
    }
  }

  /** The gotos of one state on the first `m` symbols are in the collection. */
  predicate StateDone(g: Grammar, symbols: seq<char>, collection: seq<set<Item>>, state: set<Item>, m: nat) {
    forall k :: 0 <= k < m && k < |symbols| && Goto(g, state, symbols[k]) != {} ==> Goto(g, state, symbols[k]) in collection
  }

  /** The invariant of processing state `idx` after its first `k` symbols:
      the collection and the worklist only grew together, the earlier states
      stay done, and so are the first `k` gotos of state `idx`. */
  ghost predicate Progress(g: Grammar, start: char, symbols: seq<char>, collection: seq<set<Item>>, queue: seq<nat>, idx: nat,
                           c: seq<set<Item>>, q: seq<nat>, k: nat) {
    idx < |collection| &&
    CollectionShape(g, start, symbols, c) && IsTail(q, |c|) &&
    |c| >= |collection| && c[..|collection|] == collection &&
    |q| - |queue| == |c| - |collection| &&
    |Unseen(g, start, c)| + |c| == |Unseen(g, start, collection)| + |collection| &&
    GotoClosedBelow(g, symbols, c, idx) &&
    StateDone(g, symbols, c, collection[idx], k)
  }

  lemma ProgressAppend(g: Grammar, start: char, symbols: seq<char>, collection: seq<set<Item>>, queue: seq<nat>, idx: nat,
                       c: seq<set<Item>>, q: seq<nat>, c': seq<set<Item>>, q': seq<nat>, k: nat)
    requires Progress(g, start, symbols, collection, queue, idx, c, q, k) && k < |symbols|
    requires CollectionShape(g, start, symbols, c') && IsTail(q', |c'|)
    requires Goto(g, collection[idx], symbols[k]) in c'
    requires |c'| >= |c| && c'[..|c|] == c
    requires |q'| - |q| == |c'| - |c|
    requires |Unseen(g, start, c')| + |c'| == |Unseen(g, start, c)| + |c|
    ensures Progress(g, start, symbols, collection, queue, idx, c', q', k + 1)
  {
    GotoClosedExtend(g, symbols, c, c', idx);
    PrefixMembers(c, c');
    assert c'[..|collection|] == c[..|collection|];
  }

  /** Processes one state: its goto on every symbol, in the order given,
      each non-empty one looked up and appended when new. */
  method ProcessState(g: Grammar, start: char, symbols: seq<char>, collection: seq<set<Item>>, queue: seq<nat>, idx: nat)
    returns (collection': seq<set<Item>>, queue': seq<nat>)
    requires CollectionShape(g, start, symbols, collection) && IsTail(queue, |collection|)
    requires idx < |collection| && GotoClosedBelow(g, symbols, collection, idx)
    ensures CollectionShape(g, start, symbols, collection') && IsTail(queue', |collection'|)
    ensures |collection'| >= |collection| && collection'[..|collection|] == collection
    ensures |queue'| - |queue| == |collection'| - |collection|
    ensures |Unseen(g, start, collection')| + |collection'| == |Unseen(g, start, collection)| + |collection|
    ensures GotoClosedBelow(g, symbols, collection', idx + 1)
  {
    var state := collection[idx];
    collection', queue' := collection, queue;
    assert collection[..|collection|] == collection;
    var k := 0;
    while k < |symbols|
      invariant k <= |symbols|
      invariant Progress(g, start, symbols, collection, queue, idx, collection', queue', k)
    {
      var gotoSet := GotoItems(g, state, symbols[k]);
      if gotoSet != {} {
        ghost var c, q := collection', queue';
        assert c[idx] == state;
        collection', queue' := FindOrAppend(g, start, symbols, collection', queue', idx, k, gotoSet);
        ProgressAppend(g, start, symbols, collection, queue, idx, c, q, collection', queue', k);
      }
      k := k + 1;
    }
    assert collection'[idx] == state;
  }

  /** The canonical collection: state 0 is the closure of S' -> .start; a FIFO
      worklist of state indices; every non-empty goto of a state, over the
      symbols in the order given, is looked up by set equality and appended
      as a new state when it is not there yet. */
  method BuildCanonicalCollection(g: Grammar, start: char, symbols: seq<char>) returns (collection: seq<set<Item>>)
    ensures |collection| > 0 && collection[0] == InitialState(g, start)
    ensures Distinct(collection)
    ensures forall i, k :: 0 <= i < |collection| && 0 <= k < |symbols| && Goto(g, collection[i], symbols[k]) != {} ==>
      Goto(g, collection[i], symbols[k]) in collection
    ensures Reached(g, symbols, collection)
    ensures forall i :: 0 <= i < |collection| ==> DotsInRange(collection[i])
    ensures forall i :: 0 <= i < |collection| ==> collection[i] <= ItemUniverse(g, start)
  {
    var initialSet := ItemClosure(g, {InitialItem(start)});
    InitialInUniverse(g, start);
    collection := [initialSet];
    var queue: seq<nat> := [0];
    ghost var total := |Unseen(g, start, collection)| + 1;
    while queue != []
      invariant CollectionShape(g, start, symbols, collection) && IsTail(queue, |collection|)
      invariant GotoClosedBelow(g, symbols, collection, |collection| - |queue|)
      invariant |Unseen(g, start, collection)| + |collection| == total
      decreases |Unseen(g, start, collection)|, |queue|
    {
      var idx := queue[0];
      queue := queue[1..];
      collection, queue := ProcessState(g, start, symbols, collection, queue, idx);
    }
    forall i | 0 <= i < |collection| ensures DotsInRange(collection[i]) {
      UniverseDotsInRange(g, start);
    }
  }

  lemma UniverseDotsInRange(g: Grammar, start: char)
    ensures DotsInRange(ItemUniverse(g, start))
  {
  }
}
