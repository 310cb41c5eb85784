/** The SLR(1) parser: the transitions of the LR(0) automaton, the ACTION and
    GOTO tables filled state by state (a second write into a cell is a
    conflict), and the shift-reduce driver. */
module SLR1 {
  import opened Grammar
  import opened FirstFollow
  import opened LR0

  /** An ACTION entry. */
  datatype Action = Shift(target: nat) | Reduce(lhs: char, rhs: seq<char>) | Accept

  /** ACTION entries of one state, keyed by terminal. */
  type ActionRow = map<char, Action>

  /** GOTO entries of one state, keyed by non-terminal. */
  type GotoRow = map<char, nat>

  /** The automaton's edges: (state, symbol) to state. */
  type Transitions = map<(nat, char), nat>

  /** A parser: its inputs, the canonical collection, and the two tables,
      absent when building them hit a conflict. */
  datatype SLR1Parser = SLR1Parser(
    grammar: Grammar,
    firstSets: SymbolSets,
    followSets: SymbolSets,
    canonicalCollection: seq<set<Item>>,
    actionTable: Option<seq<ActionRow>>,
    gotoTable: Option<seq<GotoRow>>)

  // ---------------------------------------------------------------------------
  // Symbols and transitions

  /** The elements of a set, listed in any order. */
  method ListOf(s: set<char>) returns (xs: seq<char>)
    ensures forall x :: x in xs <==> x in s
    ensures |xs| == |s|
  {
    xs := [];
    var rest := s;
    while rest != {}
      invariant rest <= s
      invariant forall x :: x in xs <==> x in s - rest
      invariant |xs| + |rest| == |s|
      decreases rest
    {
      var x :| x in rest;
      xs := xs + [x];
      rest := rest - {x};
    }
  }

  /** Every grammar symbol: the terminals, then the non-terminals. */
  method AllSymbols(g: Grammar) returns (symbols: seq<char>)
    ensures forall x :: x in symbols <==> x in g.terminals || x in g.nonTerminals
  {
    var ts := ListOf(g.terminals);
    var ns := ListOf(g.nonTerminals);
    symbols := ts + ns;
  }

  /** The index of the first state equal to `s`, if there is one. */
  function FindState(collection: seq<set<Item>>, s: set<Item>): (r: Option<nat>)
    ensures r.None? <==> s !in collection
    ensures r.Some? ==> r.value < |collection| && collection[r.value] == s
    ensures r.Some? ==> forall j :: 0 <= j < r.value ==> collection[j] != s
  {
    if collection == [] then None
    else if collection[0] == s then Some(0)
    else match FindState(collection[1..], s)
      case None => None
      case Some(j) => Some(j + 1)
  }

  /** The edge out of state `i` on `x`: the first state equal to the goto,
      none when the goto is empty or not a state. */
  function Transition(g: Grammar, collection: seq<set<Item>>, i: nat, x: char): Option<nat>
    requires i < |collection|
  {
    if Goto(g, collection[i], x) == {} then None else FindState(collection, Goto(g, collection[i], x))
  }

  /** Key `key` has been visited: its state comes before `i`, or it is state
      `i` with one of the first `k` symbols. */
  predicate Visited(symbols: seq<char>, i: nat, k: nat, key: (nat, char))
    requires k <= |symbols|
  {
    key.0 < i || (key.0 == i && key.1 in symbols[..k])
  }

  /** Visiting symbol `k` of state `i` adds exactly that key. */
  lemma VisitedNext(symbols: seq<char>, i: nat, k: nat)
    requires k < |symbols|
    ensures forall key :: Visited(symbols, i, k + 1, key) <==> Visited(symbols, i, k, key) || key == (i, symbols[k])
  {
    assert symbols[..k + 1] == symbols[..k] + [symbols[k]];
    forall key: (nat, char)
      ensures Visited(symbols, i, k + 1, key) <==> Visited(symbols, i, k, key) || key == (i, symbols[k])
    {
      assert key.1 in symbols[..k + 1] <==> key.1 in symbols[..k] || key.1 == symbols[k];
    }
  }

  /** The transitions recorded so far: for the states before `i`, and for
      state `i` on the first `k` symbols. */
  ghost predicate TransitionsUpTo(g: Grammar, collection: seq<set<Item>>, symbols: seq<char>, transitions: Transitions, i: nat, k: nat)
    requires k <= |symbols|
  {
    (forall key :: key in transitions <==>
      key.0 < |collection| && Visited(symbols, i, k, key) && key.1 in symbols &&
      Transition(g, collection, key.0, key.1).Some?) &&
    (forall key :: key in transitions ==>
      key.0 < |collection| && Transition(g, collection, key.0, key.1) == Some(transitions[key]))
  }

  /** A symbol without an edge records nothing. */
  lemma {:induction false} TransitionSkipped(g: Grammar, collection: seq<set<Item>>, symbols: seq<char>, transitions: Transitions, i: nat, k: nat)
    requires k < |symbols| && i < |collection|
    requires TransitionsUpTo(g, collection, symbols, transitions, i, k)
    requires Transition(g, collection, i, symbols[k]).None?
    ensures TransitionsUpTo(g, collection, symbols, transitions, i, k + 1)
  {
    VisitedNext(symbols, i, k);
  }

  /** A symbol whose edge leads to state `j` records it. */
  lemma {:induction false} TransitionRecorded(g: Grammar, collection: seq<set<Item>>, symbols: seq<char>, transitions: Transitions, i: nat, k: nat, j: nat)
    requires k < |symbols| && i < |collection|
    requires TransitionsUpTo(g, collection, symbols, transitions, i, k)
    requires Transition(g, collection, i, symbols[k]) == Some(j)
    ensures TransitionsUpTo(g, collection, symbols, transitions[(i, symbols[k]) := j], i, k + 1)
  {
    var x := symbols[k];
    var t' := transitions[(i, x) := j];
    VisitedNext(symbols, i, k);
    forall key: (nat, char)
      ensures key in t' <==>
        key.0 < |collection| && Visited(symbols, i, k + 1, key) && key.1 in symbols && Transition(g, collection, key.0, key.1).Some?
      ensures key in t' ==> key.0 < |collection| && Transition(g, collection, key.0, key.1) == Some(t'[key])
    {
      if key == (i, x) {
        assert x in symbols;
      } else {
        assert key in t' <==> key in transitions;
      }
    }
  }

  /** Once every symbol of state `i` is done, state `i` is done. */
  lemma TransitionsNextState(g: Grammar, collection: seq<set<Item>>, symbols: seq<char>, transitions: Transitions, i: nat)
    requires TransitionsUpTo(g, collection, symbols, transitions, i, |symbols|)
    ensures TransitionsUpTo(g, collection, symbols, transitions, i + 1, 0)
  {
    assert symbols[..|symbols|] == symbols;
    forall key: (nat, char) | key.1 in symbols ensures Visited(symbols, i + 1, 0, key) <==> Visited(symbols, i, |symbols|, key) {
    }
  }

  /** The transitions: an entry for every state and listed symbol that has an
      edge, holding the state the edge leads to. */
  method BuildTransitions(g: Grammar, collection: seq<set<Item>>, symbols: seq<char>) returns (transitions: Transitions)
    ensures forall i: nat, x :: (i, x) in transitions <==>
      i < |collection| && x in symbols && Transition(g, collection, i, x).Some?
    ensures forall i: nat, x :: (i, x) in transitions ==>
      i < |collection| && Transition(g, collection, i, x) == Some(transitions[(i, x)])
  {
    transitions := map[];
    var i := 0;
    while i < |collection|
      invariant i <= |collection|
      invariant TransitionsUpTo(g, collection, symbols, transitions, i, 0)
    {
      var state := collection[i];
      var k := 0;
      while k < |symbols|
        invariant k <= |symbols|
        invariant TransitionsUpTo(g, collection, symbols, transitions, i, k)
      {
        var symbol := symbols[k];
        var gotoSet := GotoItems(g, state, symbol);
        if gotoSet != {} {
          var j := 0;
          while j < |collection| && collection[j] != gotoSet
            invariant j <= |collection|
            invariant forall j' :: 0 <= j' < j ==> collection[j'] != gotoSet
            decreases |collection| - j
          {
            j := j + 1;
          }
          if j < |collection| {
            TransitionRecorded(g, collection, symbols, transitions, i, k, j);
            transitions := transitions[(i, symbol) := j];
          } else {
            TransitionSkipped(g, collection, symbols, transitions, i, k);
          }
        } else {
          TransitionSkipped(g, collection, symbols, transitions, i, k);
        }
        k := k + 1;
      }
      TransitionsNextState(g, collection, symbols, transitions, i);
      i := i + 1;
    }
  }

  /** The edge from state `i` on `x` leads to the unique state equal to the
      goto, whenever the goto is non-empty and in the collection. */
  lemma TransitionTarget(g: Grammar, collection: seq<set<Item>>, i: nat, x: char, j: nat)
    requires Distinct(collection) && i < |collection| && j < |collection|
    ensures Transition(g, collection, i, x) == Some(j) <==> Goto(g, collection[i], x) != {} && collection[j] == Goto(g, collection[i], x)
  {
  }

  // ---------------------------------------------------------------------------
  // The ACTION table

  /** The completed augmented item S' -> start . */
  predicate IsAcceptItem(g: Grammar, it: Item) {
    it.lhs == Aug && it.dot == 1 && |it.rhs| > 0 && g.startSymbol == Some(it.rhs[0])
  }

  /** What filling the row for `it` looks up exists: the first right-hand-side
      symbol of a completed augmented item, and the follow set of the
      left-hand side of any other completed item. */
  predicate ItemDefined(g: Grammar, follow: SymbolSets, it: Item) {
    it.dot >= |it.rhs| ==>
      (it.lhs == Aug && it.dot == 1 ==> |it.rhs| > 0) &&
      (!IsAcceptItem(g, it) ==> it.lhs.NT? && it.lhs.nt in follow)
  }

  ghost predicate StateDefined(g: Grammar, follow: SymbolSets, state: set<Item>) {
    forall it :: it in state ==> ItemDefined(g, follow, it)
  }

  /** The terminals whose cell item `it` of state `i` writes: the terminal
      after the dot when state `i` has an edge on it, the end marker for the
      completed augmented item, the follow set of the left-hand side for any
      other completed item. */
  function Lookaheads(g: Grammar, follow: SymbolSets, collection: seq<set<Item>>, i: nat, it: Item): set<char>
    requires i < |collection| && ItemDefined(g, follow, it)
  {
    if it.dot < |it.rhs| then
      var next := it.rhs[it.dot];
      if next in g.terminals && Transition(g, collection, i, next).Some? then {next} else {}
    else if IsAcceptItem(g, it) then {EndMarker}
    else follow[it.lhs.nt]
  }

  /** The entry item `it` writes into those cells. */
  function ActionOf(g: Grammar, follow: SymbolSets, collection: seq<set<Item>>, i: nat, it: Item): Action
    requires i < |collection| && ItemDefined(g, follow, it)
    requires Lookaheads(g, follow, collection, i, it) != {}
  {
    if it.dot < |it.rhs| then Shift(Transition(g, collection, i, it.rhs[it.dot]).value)
    else if IsAcceptItem(g, it) then Accept
    else Reduce(it.lhs.nt, it.rhs)
  }

  /** The cells the items of `items` write. */
  ghost function Written(g: Grammar, follow: SymbolSets, collection: seq<set<Item>>, i: nat, items: set<Item>): set<char>
    requires i < |collection| && StateDefined(g, follow, items)
  {
    set it, t | it in items && t in Lookaheads(g, follow, collection, i, it) :: t
  }

  /** Two different items of `items` write the same cell. */
  ghost predicate StateConflict(g: Grammar, follow: SymbolSets, collection: seq<set<Item>>, i: nat, items: set<Item>)
    requires i < |collection| && StateDefined(g, follow, items)
  {
    exists a, b :: a in items && b in items && a != b &&
      !(Lookaheads(g, follow, collection, i, a) !! Lookaheads(g, follow, collection, i, b))
  }

  /** `row` holds exactly the cells the items of `items` write, each with
      the entry of the item that writes it. */
  ghost predicate RowMatches(g: Grammar, follow: SymbolSets, collection: seq<set<Item>>, i: nat, items: set<Item>, row: ActionRow)
    requires i < |collection| && StateDefined(g, follow, items)
  {
    row.Keys == Written(g, follow, collection, i, items) &&
    forall it, t :: it in items && t in Lookaheads(g, follow, collection, i, it) ==>
      t in row && row[t] == ActionOf(g, follow, collection, i, it)
  }

  /** Fills the cells of one item: a single shift or accept cell, or a reduce
      cell per follow terminal; fails on the first cell already filled. */
  method WriteItem(g: Grammar, follow: SymbolSets, collection: seq<set<Item>>, transitions: Transitions, i: nat, it: Item, row: ActionRow)
    returns (row': ActionRow, ok: bool)
    requires i < |collection| && ItemDefined(g, follow, it)
    requires forall x :: (i, x) in transitions <==> x in g.terminals + g.nonTerminals && Transition(g, collection, i, x).Some?
    requires forall x :: (i, x) in transitions ==> Transition(g, collection, i, x) == Some(transitions[(i, x)])
    ensures ok <==> Lookaheads(g, follow, collection, i, it) !! row.Keys
    ensures ok ==> row'.Keys == row.Keys + Lookaheads(g, follow, collection, i, it)
    ensures ok ==> forall t :: t in row ==> row'[t] == row[t]
    ensures ok ==> forall t :: t in Lookaheads(g, follow, collection, i, it) ==> row'[t] == ActionOf(g, follow, collection, i, it)
  {
    row' := row;
    ok := true;
    if it.dot < |it.rhs| {
      var next := it.rhs[it.dot];
      if next in g.terminals {
        if (i, next) in transitions {
          var j := transitions[(i, next)];
          if next in row' {
            return row', false;
          }
          row' := row'[next := Shift(j)];
        }
      }
    } else {
      if it.lhs == Aug && it.dot == 1 && g.startSymbol == Some(it.rhs[0]) {
        if EndMarker in row' {
          return row', false;
        }
        row' := row'[EndMarker := Accept];
      } else {
        var lookaheads := follow[it.lhs.nt];
        var rest := lookaheads;
        while rest != {}
          invariant rest <= lookaheads
          invariant (lookaheads - rest) !! row.Keys
          invariant row'.Keys == row.Keys + (lookaheads - rest)
          invariant forall t :: t in row ==> row'[t] == row[t]
          invariant forall t :: t in lookaheads - rest ==> row'[t] == Reduce(it.lhs.nt, it.rhs)
          decreases rest
        {
          var t :| t in rest;
          if t in row' {
            return row', false;
          }
          row' := row'[t := Reduce(it.lhs.nt, it.rhs)];
          rest := rest - {t};
        }
      }
    }
  }

  lemma WrittenAdd(g: Grammar, follow: SymbolSets, collection: seq<set<Item>>, i: nat, done: set<Item>, it: Item)
    requires i < |collection| && StateDefined(g, follow, done) && ItemDefined(g, follow, it)
    ensures StateDefined(g, follow, done + {it})
    ensures Written(g, follow, collection, i, done + {it}) ==
      Written(g, follow, collection, i, done) + Lookaheads(g, follow, collection, i, it)
  {
    var w := Written(g, follow, collection, i, done + {it});
    var w' := Written(g, follow, collection, i, done) + Lookaheads(g, follow, collection, i, it);
    forall t | t in w ensures t in w' {
      var it' :| it' in done + {it} && t in Lookaheads(g, follow, collection, i, it');
    }
  }

  /** An item whose cells are all free adds no conflict. */
  lemma ConflictFreeAdd(g: Grammar, follow: SymbolSets, collection: seq<set<Item>>, i: nat, done: set<Item>, it: Item)
    requires i < |collection| && StateDefined(g, follow, done) && ItemDefined(g, follow, it)
    requires !StateConflict(g, follow, collection, i, done)
    requires Lookaheads(g, follow, collection, i, it) !! Written(g, follow, collection, i, done)
    ensures StateDefined(g, follow, done + {it})
    ensures !StateConflict(g, follow, collection, i, done + {it})
  {
    var items := done + {it};
    forall a, b | a in items && b in items && a != b
      ensures Lookaheads(g, follow, collection, i, a) !! Lookaheads(g, follow, collection, i, b)
    {
      if a == it || b == it {
        var other := if a == it then b else a;
        assert other in done;
        forall t | t in Lookaheads(g, follow, collection, i, other)
          ensures t in Written(g, follow, collection, i, done)
        {
        }
      }
    }
  }

  /** An item hitting a filled cell conflicts with the item that filled it. */
  lemma ConflictFound(g: Grammar, follow: SymbolSets, collection: seq<set<Item>>, i: nat, state: set<Item>, done: set<Item>, it: Item)
    requires i < |collection| && StateDefined(g, follow, state)
    requires done <= state && it in state && it !in done
    requires !(Lookaheads(g, follow, collection, i, it) !! Written(g, follow, collection, i, done))
    ensures StateConflict(g, follow, collection, i, state)
  {
    var t :| t in Lookaheads(g, follow, collection, i, it) && t in Written(g, follow, collection, i, done);
    var other :| other in done && t in Lookaheads(g, follow, collection, i, other);
    assert it != other;
  }

  /** Writing a conflict-free item extends a matching row to one matching
      the larger set of items. */
  lemma RowAdd(g: Grammar, follow: SymbolSets, collection: seq<set<Item>>, i: nat, done: set<Item>, it: Item, row: ActionRow, row': ActionRow)
    requires i < |collection| && StateDefined(g, follow, done) && ItemDefined(g, follow, it)
    requires RowMatches(g, follow, collection, i, done, row)
    requires Lookaheads(g, follow, collection, i, it) !! row.Keys
    requires row'.Keys == row.Keys + Lookaheads(g, follow, collection, i, it)
    requires forall t :: t in row ==> row'[t] == row[t]
    requires forall t :: t in Lookaheads(g, follow, collection, i, it) ==> row'[t] == ActionOf(g, follow, collection, i, it)
    ensures StateDefined(g, follow, done + {it})
    ensures RowMatches(g, follow, collection, i, done + {it}, row')
  {
    WrittenAdd(g, follow, collection, i, done, it);
  }

  /** The ACTION row of state `i`, item by item; fails exactly when two of
      its items write the same cell. */
  method BuildActionRow(g: Grammar, follow: SymbolSets, collection: seq<set<Item>>, transitions: Transitions, i: nat)
    returns (row: ActionRow, ok: bool)
    requires i < |collection| && StateDefined(g, follow, collection[i])
    requires forall x :: (i, x) in transitions <==> x in g.terminals + g.nonTerminals && Transition(g, collection, i, x).Some?
    requires forall x :: (i, x) in transitions ==> Transition(g, collection, i, x) == Some(transitions[(i, x)])
    ensures ok <==> !StateConflict(g, follow, collection, i, collection[i])
    ensures ok ==> RowMatches(g, follow, collection, i, collection[i], row)
  {
    var state := collection[i];
    row := map[];
    var rest := state;
    while rest != {}
      invariant rest <= state
      invariant StateDefined(g, follow, state - rest)
      invariant !StateConflict(g, follow, collection, i, state - rest)
      invariant RowMatches(g, follow, collection, i, state - rest, row)
      decreases rest
    {
      var it :| it in rest;
      var done := state - rest;
      var row', written := WriteItem(g, follow, collection, transitions, i, it, row);
      if !written {
        ConflictFound(g, follow, collection, i, state, done, it);
        return row, false;
      }
      ConflictFreeAdd(g, follow, collection, i, done, it);
      RowAdd(g, follow, collection, i, done, it, row, row');
      assert state - (rest - {it}) == done + {it};
      row := row';
      rest := rest - {it};
    }
    assert state - rest == state;
    ok := true;
  }

  /** Two different items of a state with the same terminal after the dot
      both shift on it, so the state conflicts even though both would write
      the same shift. */
  lemma SameShiftConflicts(g: Grammar, follow: SymbolSets, collection: seq<set<Item>>, i: nat, a: Item, b: Item)
    requires i < |collection| && StateDefined(g, follow, collection[i])
    requires a in collection[i] && b in collection[i] && a != b
    requires a.dot < |a.rhs| && b.dot < |b.rhs| && a.rhs[a.dot] == b.rhs[b.dot]
    requires a.rhs[a.dot] in g.terminals && Transition(g, collection, i, a.rhs[a.dot]).Some?
    ensures StateConflict(g, follow, collection, i, collection[i])
  {
    var t := a.rhs[a.dot];
    assert t in Lookaheads(g, follow, collection, i, a) && t in Lookaheads(g, follow, collection, i, b);
  }

  /** A completed item whose left-hand side is followed by a terminal that
      another item of the state shifts on conflicts with it (shift-reduce). */
  lemma ShiftReduceConflicts(g: Grammar, follow: SymbolSets, collection: seq<set<Item>>, i: nat, a: Item, b: Item)
    requires i < |collection| && StateDefined(g, follow, collection[i])
    requires a in collection[i] && b in collection[i]
    requires a.dot < |a.rhs| && a.rhs[a.dot] in g.terminals && Transition(g, collection, i, a.rhs[a.dot]).Some?
    requires b.dot >= |b.rhs| && !IsAcceptItem(g, b) && a.rhs[a.dot] in follow[b.lhs.nt]
    ensures StateConflict(g, follow, collection, i, collection[i])
  {
    var t := a.rhs[a.dot];
    assert t in Lookaheads(g, follow, collection, i, a) && t in Lookaheads(g, follow, collection, i, b);
  }

  /** Every filled cell of a matching row was written by an item of the state. */
  lemma RowWriter(g: Grammar, follow: SymbolSets, collection: seq<set<Item>>, i: nat, row: ActionRow, t: char) returns (it: Item)
    requires i < |collection| && StateDefined(g, follow, collection[i])
    requires RowMatches(g, follow, collection, i, collection[i], row) && t in row
    ensures it in collection[i] && t in Lookaheads(g, follow, collection, i, it)
    ensures row[t] == ActionOf(g, follow, collection, i, it)
  {
    assert t in Written(g, follow, collection, i, collection[i]);
    it :| it in collection[i] && t in Lookaheads(g, follow, collection, i, it);
  }

  /** The entry one item writes into one of its cells. */
  lemma ItemEntry(g: Grammar, follow: SymbolSets, collection: seq<set<Item>>, i: nat, it: Item, t: char)
    requires i < |collection| && ItemDefined(g, follow, it) && it.dot <= |it.rhs|
    requires t in Lookaheads(g, follow, collection, i, it)
    ensures var a := ActionOf(g, follow, collection, i, it);
      (a.Shift? ==> t in g.terminals && Transition(g, collection, i, t) == Some(a.target)) &&
      (a.Accept? ==> t == EndMarker && g.startSymbol.Some? && it == Item(Aug, [g.startSymbol.value], 1)) &&
      (a.Reduce? ==> it == Item(NT(a.lhs), a.rhs, |a.rhs|) && t in follow[a.lhs])
  {
    if it.dot < |it.rhs| {
      assert t == it.rhs[it.dot];
    } else if IsAcceptItem(g, it) {
      assert it.rhs == [it.rhs[0]];
    }
  }

  /** What the table holds: a shift into the state the edge on `t` leads to,
      accept only on the end marker for the completed augmented item, and
      a reduction by a completed item of the state for a terminal that
      follows its left-hand side. */
  lemma ActionEntry(g: Grammar, follow: SymbolSets, collection: seq<set<Item>>, i: nat, row: ActionRow, t: char)
    requires i < |collection| && StateDefined(g, follow, collection[i]) && DotsInRange(collection[i])
    requires RowMatches(g, follow, collection, i, collection[i], row) && t in row
    ensures row[t].Shift? ==> t in g.terminals && Transition(g, collection, i, t) == Some(row[t].target)
    ensures row[t].Accept? ==> t == EndMarker && g.startSymbol.Some? && Item(Aug, [g.startSymbol.value], 1) in collection[i]
    ensures row[t].Reduce? ==>
      Item(NT(row[t].lhs), row[t].rhs, |row[t].rhs|) in collection[i] && t in follow[row[t].lhs]
  {
    var it := RowWriter(g, follow, collection, i, row, t);
    ItemEntry(g, follow, collection, i, it, t);
  }

  // ---------------------------------------------------------------------------
  // The GOTO table and the two tables together

  /** `row` holds exactly the non-terminals with an edge out of state `i`,
      each with the state it leads to. */
  ghost predicate GotoMatches(g: Grammar, collection: seq<set<Item>>, i: nat, row: GotoRow)
    requires i < |collection|
  {
    (forall a :: a in row <==> a in g.nonTerminals && Transition(g, collection, i, a).Some?) &&
    (forall a :: a in row ==> Transition(g, collection, i, a) == Some(row[a]))
  }

  /** The GOTO row of state `i`: the transitions of state `i` on non-terminals. */
  method BuildGotoRow(g: Grammar, collection: seq<set<Item>>, transitions: Transitions, i: nat) returns (row: GotoRow)
    requires i < |collection|
    requires forall x :: (i, x) in transitions <==> x in g.terminals + g.nonTerminals && Transition(g, collection, i, x).Some?
    requires forall x :: (i, x) in transitions ==> Transition(g, collection, i, x) == Some(transitions[(i, x)])
    ensures GotoMatches(g, collection, i, row)
  {
    row := map[];
    var rest := g.nonTerminals;
    while rest != {}
      invariant rest <= g.nonTerminals
      invariant forall a :: a in row <==> a in g.nonTerminals - rest && Transition(g, collection, i, a).Some?
      invariant forall a :: a in row ==> Transition(g, collection, i, a) == Some(row[a])
      decreases rest
    {
      var nonTerminal :| nonTerminal in rest;
      if (i, nonTerminal) in transitions {
        row := row[nonTerminal := transitions[(i, nonTerminal)]];
      }
      rest := rest - {nonTerminal};
    }
  }

  /** The ACTION and GOTO tables, one row per state; both absent for an empty
      collection or as soon as a state has two items writing the same cell. */
  method BuildParsingTables(g: Grammar, follow: SymbolSets, collection: seq<set<Item>>)
    returns (actionTable: Option<seq<ActionRow>>, gotoTable: Option<seq<GotoRow>>)
    requires forall i :: 0 <= i < |collection| ==> StateDefined(g, follow, collection[i])
    ensures actionTable.None? <==> gotoTable.None?
    ensures actionTable.None? <==>
      |collection| == 0 || exists i :: 0 <= i < |collection| && StateConflict(g, follow, collection, i, collection[i])
    ensures actionTable.Some? ==> |actionTable.value| == |collection| && |gotoTable.value| == |collection|
    ensures actionTable.Some? ==> forall i :: 0 <= i < |collection| ==>
      RowMatches(g, follow, collection, i, collection[i], actionTable.value[i]) &&
      GotoMatches(g, collection, i, gotoTable.value[i])
  {
    if |collection| == 0 {
      return None, None;
    }
    var actions: seq<ActionRow> := seq(|collection|, _ => map[]);
    var gotos: seq<GotoRow> := seq(|collection|, _ => map[]);
    var symbols := AllSymbols(g);
    var transitions := BuildTransitions(g, collection, symbols);
    for i := 0 to |collection|
      invariant |actions| == |collection| && |gotos| == |collection|
      invariant forall i' :: 0 <= i' < i ==>
        !StateConflict(g, follow, collection, i', collection[i']) &&
        RowMatches(g, follow, collection, i', collection[i'], actions[i']) &&
        GotoMatches(g, collection, i', gotos[i'])
    {
      var row, ok := BuildActionRow(g, follow, collection, transitions, i);
      if !ok {
        return None, None;
      }
      actions := actions[i := row];
      var gotoRow := BuildGotoRow(g, collection, transitions, i);
      gotos := gotos[i := gotoRow];
    }
    return Some(actions), Some(gotos);
  }

  // ---------------------------------------------------------------------------
  // The parser

  /** Every item the automaton can hold has what filling its row looks up,
      once every non-terminal has a follow set. */
  lemma UniverseDefined(g: Grammar, follow: SymbolSets, start: char)
    requires Consistent(g) && g.startSymbol == Some(start)
    requires forall a :: a in g.nonTerminals ==> a in follow
    ensures StateDefined(g, follow, ItemUniverse(g, start))
  {
    forall it | it in ItemUniverse(g, start) ensures ItemDefined(g, follow, it) {
      if it.lhs.NT? {
        var i, j, d :| 0 <= i < |g.productions| && 0 <= j < |g.productions[i].alts| && 0 <= d <= |g.productions[i].alts[j]| &&
          it == Item(NT(g.productions[i].lhs), g.productions[i].alts[j], d);
        assert IsKey(g.productions, it.lhs.nt);
      }
    }
  }

  /** The tables hold one row per state of `collection`, each matching what
      the items of its state write and the edges out of it. */
  ghost predicate TablesOf(g: Grammar, follow: SymbolSets, collection: seq<set<Item>>, actionTable: seq<ActionRow>, gotoTable: seq<GotoRow>) {
    |actionTable| == |collection| && |gotoTable| == |collection| &&
    forall i :: 0 <= i < |collection| ==>
      StateDefined(g, follow, collection[i]) && DotsInRange(collection[i]) &&
      RowMatches(g, follow, collection, i, collection[i], actionTable[i]) &&
      GotoMatches(g, collection, i, gotoTable[i])
  }

  /** The parser is SLR(1) when both tables were built. */
  predicate IsSLR1(p: SLR1Parser) {
    p.actionTable.Some? && p.gotoTable.Some?
  }

  /** Builds the canonical collection over the grammar's symbols, then the
      tables; the grammar is SLR(1) exactly when no state has two items
      writing the same cell. */
  method NewSLR1Parser(g: Grammar, first: SymbolSets, follow: SymbolSets) returns (p: SLR1Parser)
    requires Consistent(g) && g.startSymbol.Some?
    requires forall a :: a in g.nonTerminals ==> a in follow
    ensures p.grammar == g && p.firstSets == first && p.followSets == follow
    ensures var c := p.canonicalCollection;
      |c| > 0 && c[0] == InitialState(g, g.startSymbol.value) && Distinct(c)
    ensures var c := p.canonicalCollection;
      forall i, x :: 0 <= i < |c| && (x in g.terminals || x in g.nonTerminals) && Goto(g, c[i], x) != {} ==> Goto(g, c[i], x) in c
    ensures forall i :: 0 <= i < |p.canonicalCollection| ==>
      StateDefined(g, follow, p.canonicalCollection[i]) && DotsInRange(p.canonicalCollection[i])
    ensures IsSLR1(p) <==> forall i :: 0 <= i < |p.canonicalCollection| ==>
      !StateConflict(g, follow, p.canonicalCollection, i, p.canonicalCollection[i])
    ensures IsSLR1(p) ==> TablesOf(g, follow, p.canonicalCollection, p.actionTable.value, p.gotoTable.value)
  {
    var start := g.startSymbol.value;
    var symbols := AllSymbols(g);
    var collection := BuildCanonicalCollection(g, start, symbols);
    UniverseDefined(g, follow, start);
    assert forall i :: 0 <= i < |collection| ==> StateDefined(g, follow, collection[i]);
    forall i, x | 0 <= i < |collection| && (x in g.terminals || x in g.nonTerminals) && Goto(g, collection[i], x) != {}
      ensures Goto(g, collection[i], x) in collection
    {
      var k :| 0 <= k < |symbols| && symbols[k] == x;
    }
    var actionTable, gotoTable := BuildParsingTables(g, follow, collection);
    p := SLR1Parser(g, first, follow, collection, actionTable, gotoTable);
  }

  // ---------------------------------------------------------------------------
  // The driver

  /** A stack entry: a state number or a grammar symbol. */
  datatype Entry = St(state: nat) | Sy(symbol: char)

  /** The driver's state: the stack (top last) and the cursor into the tokens. */
  datatype Config = Config(stack: seq<Entry>, pos: nat)

  /** The outcome of one step. */
  datatype Step = Next(config: Config) | Halt(accepted: bool)

  /** One step of the driver, by the ACTION entry of the top state and the
      current token: shift pushes the token and the target state and advances
      the cursor; reduce pops two entries per right-hand-side symbol, then
      pushes the left-hand side and its GOTO entry from the uncovered state;
      accept halts with success. A missing entry, a cursor past the tokens,
      a non-state where a state is expected, or a stack too short to pop
      halts with failure. */
  function StepSLR(actionTable: seq<ActionRow>, gotoTable: seq<GotoRow>, tokens: seq<char>, c: Config): Step {
    if c.stack == [] || c.pos >= |tokens| then Halt(false)
    else
      var top := c.stack[|c.stack| - 1];
      var symbol := tokens[c.pos];
      if !top.St? || top.state >= |actionTable| || symbol !in actionTable[top.state] then Halt(false)
      else match actionTable[top.state][symbol]
        case Shift(j) => Next(Config(c.stack + [Sy(symbol), St(j)], c.pos + 1))
        case Reduce(lhs, rhs) =>
          if |c.stack| <= 2 * |rhs| then Halt(false)
          else
            var rest := c.stack[..|c.stack| - 2 * |rhs|];
            var current := rest[|rest| - 1];
            if !current.St? || current.state >= |gotoTable| || lhs !in gotoTable[current.state] then Halt(false)
            else Next(Config(rest + [Sy(lhs), St(gotoTable[current.state][lhs])], c.pos))
        case Accept => Halt(true)
  }

  /** The driver run for at most `fuel` steps: `None` when the fuel runs out
      before it halts. */
  function RunSLR(actionTable: seq<ActionRow>, gotoTable: seq<GotoRow>, tokens: seq<char>, c: Config, fuel: nat): Option<bool>
    decreases fuel
  {
    if fuel == 0 then None
    else match StepSLR(actionTable, gotoTable, tokens, c)
      case Halt(accepted) => Some(accepted)
      case Next(c') => RunSLR(actionTable, gotoTable, tokens, c', fuel - 1)
  }

  /** The configuration after at most `steps` steps, stopping at a halt. */
  function Reach(actionTable: seq<ActionRow>, gotoTable: seq<GotoRow>, tokens: seq<char>, c: Config, steps: nat): Config
    decreases steps
  {
    if steps == 0 then c
    else match StepSLR(actionTable, gotoTable, tokens, c)
      case Halt(_) => c
      case Next(c') => Reach(actionTable, gotoTable, tokens, c', steps - 1)
  }

  /** Pops `n` entries, one at a time, from a stack that holds more than `n`. */
  method PopEntries(stack: seq<Entry>, n: nat) returns (stack': seq<Entry>)
    requires |stack| > n
    ensures stack' == stack[..|stack| - n]
  {
    stack' := stack;
    var k := 0;
    while k < n
      invariant 0 <= k <= n
      invariant stack' == stack[..|stack| - k]
    {
      stack' := stack'[..|stack'| - 1];
      k := k + 1;
    }
  }

  /** The driver: no tables means rejection; otherwise the stack starts as
      [0] and the loop runs until a step halts or the fuel runs out. */
  method Parse(p: SLR1Parser, input: seq<char>, fuel: nat) returns (r: Option<bool>)
    ensures !IsSLR1(p) ==> r == Some(false)
    ensures IsSLR1(p) ==>
      r == RunSLR(p.actionTable.value, p.gotoTable.value, WithEndMarker(input), Config([St(0)], 0), fuel)
  {
    if !IsSLR1(p) {
      return Some(false);
    }
    var actionTable := p.actionTable.value;
    var gotoTable := p.gotoTable.value;
    var tokens := input;
    if |tokens| == 0 || tokens[|tokens| - 1] != EndMarker {
      tokens := tokens + [EndMarker];
    }
    var stack := [St(0)];
    var i: nat := 0;
    var steps: nat := fuel;
    while true
      invariant RunSLR(actionTable, gotoTable, tokens, Config(stack, i), steps) ==
        RunSLR(actionTable, gotoTable, tokens, Config([St(0)], 0), fuel)
      decreases steps
    {
      if steps == 0 {
        return None;
      }
      var step := DriverStep(actionTable, gotoTable, tokens, stack, i);
      match step {
      case Halt(accepted) =>
        RunHalts(actionTable, gotoTable, tokens, Config(stack, i), steps);
        return Some(accepted);
      case Next(c) =>
        RunSteps(actionTable, gotoTable, tokens, Config(stack, i), c, steps);
        stack, i := c.stack, c.pos;
      }
      steps := steps - 1;
    }
  }

  /** One pass of the driver loop: look up the action of the state on top and
      the current symbol, then shift, reduce, accept or fail. */
  method DriverStep(actionTable: seq<ActionRow>, gotoTable: seq<GotoRow>, tokens: seq<char>, stack: seq<Entry>, i: nat)
    returns (step: Step)
    ensures step == StepSLR(actionTable, gotoTable, tokens, Config(stack, i))
  {
    if stack == [] || i >= |tokens| {
      return Halt(false);
    }
    var state := stack[|stack| - 1];
    var symbol := tokens[i];
    if !state.St? || state.state >= |actionTable| || symbol !in actionTable[state.state] {
      return Halt(false);
    }
    match actionTable[state.state][symbol] {
    case Shift(target) =>
      step := Next(Config(stack + [Sy(symbol), St(target)], i + 1));
    case Reduce(lhs, rhs) =>
      if |stack| <= 2 * |rhs| {
        return Halt(false);
      }
      var stack' := PopEntries(stack, 2 * |rhs|);
      var current := stack'[|stack'| - 1];
      stack' := stack' + [Sy(lhs)];
      if !current.St? || current.state >= |gotoTable| || lhs !in gotoTable[current.state] {
        return Halt(false);
      }
      stack' := stack' + [St(gotoTable[current.state][lhs])];
      step := Next(Config(stack', i));
    case Accept =>
      step := Halt(true);
    }
  }

  /** A run with fuel left that halts at its first step gives that verdict. */
  lemma RunHalts(actionTable: seq<ActionRow>, gotoTable: seq<GotoRow>, tokens: seq<char>, c: Config, fuel: nat)
    requires fuel > 0 && StepSLR(actionTable, gotoTable, tokens, c).Halt?
    ensures RunSLR(actionTable, gotoTable, tokens, c, fuel) == Some(StepSLR(actionTable, gotoTable, tokens, c).accepted)
  {
  }

  /** A run with fuel left that takes a step continues from the next configuration. */
  lemma RunSteps(actionTable: seq<ActionRow>, gotoTable: seq<GotoRow>, tokens: seq<char>, c: Config, c': Config, fuel: nat)
    requires fuel > 0 && StepSLR(actionTable, gotoTable, tokens, c) == Next(c')
    ensures RunSLR(actionTable, gotoTable, tokens, c, fuel) == RunSLR(actionTable, gotoTable, tokens, c', fuel - 1)
  {
  }

  /** A verdict reached with some fuel is the verdict with any more fuel. */
  lemma {:induction false} RunFuelMonotone(actionTable: seq<ActionRow>, gotoTable: seq<GotoRow>, tokens: seq<char>, c: Config, fuel: nat, more: nat)
    requires fuel <= more && RunSLR(actionTable, gotoTable, tokens, c, fuel).Some?
    ensures RunSLR(actionTable, gotoTable, tokens, c, more) == RunSLR(actionTable, gotoTable, tokens, c, fuel)
    decreases fuel
  {
    match StepSLR(actionTable, gotoTable, tokens, c)
    case Halt(_) =>
    case Next(c') => RunFuelMonotone(actionTable, gotoTable, tokens, c', fuel - 1, more - 1);
  }

  /** States and symbols alternate on the stack, with a state at the bottom
      and on top. */
  predicate WellShaped(stack: seq<Entry>) {
    |stack| % 2 == 1 && forall k :: 0 <= k < |stack| ==> (stack[k].St? <==> k % 2 == 0)
  }

  /** Every state on the stack is a state of the collection. */
  predicate StatesBelow(stack: seq<Entry>, n: nat) {
    forall k :: 0 <= k < |stack| && stack[k].St? ==> stack[k].state < n
  }

  /** Pushing a symbol and a state keeps the shape. */
  lemma PushKeepsShape(stack: seq<Entry>, x: char, j: nat, n: nat)
    requires WellShaped(stack) && StatesBelow(stack, n) && j < n
    ensures WellShaped(stack + [Sy(x), St(j)]) && StatesBelow(stack + [Sy(x), St(j)], n)
  {
    var s' := stack + [Sy(x), St(j)];
    assert forall k :: 0 <= k < |stack| ==> s'[k] == stack[k];
  }

  /** Popping an even number of entries, short of the bottom, keeps the shape
      and leaves a state on top. */
  lemma PopKeepsShape(stack: seq<Entry>, m: nat, n: nat)
    requires WellShaped(stack) && StatesBelow(stack, n) && 2 * m < |stack|
    ensures WellShaped(stack[..|stack| - 2 * m]) && StatesBelow(stack[..|stack| - 2 * m], n)
    ensures stack[|stack| - 2 * m - 1].St?
  {
  }

  /** The row of state `i` of built tables. */
  lemma TablesRow(g: Grammar, follow: SymbolSets, collection: seq<set<Item>>, actionTable: seq<ActionRow>, gotoTable: seq<GotoRow>, i: nat)
    requires TablesOf(g, follow, collection, actionTable, gotoTable) && i < |collection|
    ensures StateDefined(g, follow, collection[i]) && DotsInRange(collection[i])
    ensures RowMatches(g, follow, collection, i, collection[i], actionTable[i])
    ensures GotoMatches(g, collection, i, gotoTable[i])
  {
  }

  /** Every shift and GOTO entry names one of the `n` rows. */
  predicate TargetsBelow(actionTable: seq<ActionRow>, gotoTable: seq<GotoRow>, n: nat) {
    |actionTable| == n && |gotoTable| == n &&
    (forall i, t :: 0 <= i < n && t in actionTable[i] && actionTable[i][t].Shift? ==> actionTable[i][t].target < n) &&
    (forall i, a :: 0 <= i < n && a in gotoTable[i] ==> gotoTable[i][a] < n)
  }

  /** Every shift and GOTO entry of built tables names a state. */
  lemma TablesTargetsBelow(g: Grammar, follow: SymbolSets, collection: seq<set<Item>>, actionTable: seq<ActionRow>, gotoTable: seq<GotoRow>)
    requires TablesOf(g, follow, collection, actionTable, gotoTable)
    ensures TargetsBelow(actionTable, gotoTable, |collection|)
  {
    forall i, t | 0 <= i < |collection| && t in actionTable[i] && actionTable[i][t].Shift?
      ensures actionTable[i][t].target < |collection|
    {
      TablesRow(g, follow, collection, actionTable, gotoTable, i);
      ActionEntry(g, follow, collection, i, actionTable[i], t);
    }
    forall i, a | 0 <= i < |collection| && a in gotoTable[i] ensures gotoTable[i][a] < |collection| {
      TablesRow(g, follow, collection, actionTable, gotoTable, i);
    }
  }

  /** A step keeps the stack alternating and every state on it naming a row,
      so the driver's checks that the top is a state in range never fail. */
  lemma StepKeepsShape(actionTable: seq<ActionRow>, gotoTable: seq<GotoRow>, n: nat, tokens: seq<char>, c: Config)
    requires TargetsBelow(actionTable, gotoTable, n)
    requires WellShaped(c.stack) && StatesBelow(c.stack, n)
    ensures c.stack[|c.stack| - 1].St? && c.stack[|c.stack| - 1].state < |actionTable|
    ensures StepSLR(actionTable, gotoTable, tokens, c).Next? ==>
      WellShaped(StepSLR(actionTable, gotoTable, tokens, c).config.stack) &&
      StatesBelow(StepSLR(actionTable, gotoTable, tokens, c).config.stack, n)
  {
    PopKeepsShape(c.stack, 0, n);
    var top := c.stack[|c.stack| - 1];
    if c.pos < |tokens| && tokens[c.pos] in actionTable[top.state] {
      var symbol := tokens[c.pos];
      match actionTable[top.state][symbol]
      case Shift(j) =>
        PushKeepsShape(c.stack, symbol, j, n);
      case Reduce(lhs, rhs) =>
        if |c.stack| > 2 * |rhs| {
          PopKeepsShape(c.stack, |rhs|, n);
          var rest := c.stack[..|c.stack| - 2 * |rhs|];
          var current := rest[|rest| - 1];
          if current.state < |gotoTable| && lhs in gotoTable[current.state] {
            PushKeepsShape(rest, lhs, gotoTable[current.state][lhs], n);
          }
        }
      case Accept =>
    }
  }

  /** Every configuration the driver reaches from [0] over built tables keeps
      that shape. */
  lemma {:induction false} RunKeepsShape(g: Grammar, follow: SymbolSets, collection: seq<set<Item>>, actionTable: seq<ActionRow>, gotoTable: seq<GotoRow>, tokens: seq<char>, c: Config, steps: nat)
    requires TablesOf(g, follow, collection, actionTable, gotoTable) && |collection| > 0
    requires c == Config([St(0)], 0) || (WellShaped(c.stack) && StatesBelow(c.stack, |collection|))
    ensures WellShaped(Reach(actionTable, gotoTable, tokens, c, steps).stack)
    ensures StatesBelow(Reach(actionTable, gotoTable, tokens, c, steps).stack, |collection|)
    decreases steps
  {
    TablesTargetsBelow(g, follow, collection, actionTable, gotoTable);
    if steps > 0 {
      StepKeepsShape(actionTable, gotoTable, |collection|, tokens, c);
      match StepSLR(actionTable, gotoTable, tokens, c)
      case Halt(_) =>
      case Next(c') => RunKeepsShape(g, follow, collection, actionTable, gotoTable, tokens, c', steps - 1);
    }
  }

  /** The driver accepts only with the end marker under the cursor. */
  lemma AcceptOnEndMarker(g: Grammar, follow: SymbolSets, collection: seq<set<Item>>, actionTable: seq<ActionRow>, gotoTable: seq<GotoRow>, tokens: seq<char>, c: Config)
    requires TablesOf(g, follow, collection, actionTable, gotoTable)
    requires StepSLR(actionTable, gotoTable, tokens, c) == Halt(true)
    ensures c.pos < |tokens| && tokens[c.pos] == EndMarker
  {
    var top := c.stack[|c.stack| - 1];
    var symbol := tokens[c.pos];
    ActionEntry(g, follow, collection, top.state, actionTable[top.state], symbol);
  }
}
