/** First and Follow sets, computed by monotone `while changed` iterations over
    maps from symbols to sets of characters. In a First set the character 'e'
    marks nullability; Follow sets hold terminals only. */
module FirstFollow {
  import opened Grammar

  type SymbolSets = map<char, set<char>>

  /** Every symbol of `s` has an entry. */
  predicate Covers(sets: SymbolSets, s: seq<char>) {
    forall k :: 0 <= k < |s| ==> s[k] in sets
  }

  /** Pointwise inclusion: every entry of `a` is an entry of `b` with at least as much. */
  predicate Below(a: SymbolSets, b: SymbolSets) {
    forall x :: x in a ==> x in b && a[x] <= b[x]
  }

  /** First of a sequence: the non-epsilon members of each symbol's First set,
      scanning left to right while the symbols are nullable; epsilon when the
      whole sequence is nullable (in particular for the empty sequence). */
  function FirstOfSeq(first: SymbolSets, s: seq<char>): set<char>
    requires Covers(first, s)
  {
    if s == [] then {Epsilon}
    else (first[s[0]] - {Epsilon}) + (if Epsilon in first[s[0]] then FirstOfSeq(first, s[1..]) else {})
  }

  /** Epsilon is in First of a sequence exactly when every symbol is nullable. */
  lemma {:induction false} FirstOfSeqNullable(first: SymbolSets, s: seq<char>)
    requires Covers(first, s)
    ensures Epsilon in FirstOfSeq(first, s) <==> forall k :: 0 <= k < |s| ==> Epsilon in first[s[k]]
  {
    if s != [] {
      FirstOfSeqNullable(first, s[1..]);
      assert forall k :: 1 <= k < |s| ==> s[k] == s[1..][k - 1];
    }
  }

  /** A non-epsilon character is in First of a sequence exactly when it is in
      the First set of some symbol all of whose predecessors are nullable. */
  lemma {:induction false} FirstOfSeqMember(first: SymbolSets, s: seq<char>, x: char)
    requires Covers(first, s) && x != Epsilon
    ensures x in FirstOfSeq(first, s) <==>
      exists i :: 0 <= i < |s| && x in first[s[i]] && forall j :: 0 <= j < i ==> Epsilon in first[s[j]]
  {
    if s != [] {
      FirstOfSeqMember(first, s[1..], x);
      if x in FirstOfSeq(first, s) && x !in first[s[0]] {
        var i :| 0 <= i < |s[1..]| && x in first[s[1..][i]] && forall j :: 0 <= j < i ==> Epsilon in first[s[1..][j]];
        assert x in first[s[i + 1]];
        forall j | 0 <= j < i + 1 ensures Epsilon in first[s[j]] {
          if j > 0 { assert s[j] == s[1..][j - 1]; }
        }
      }
      if exists i :: 0 <= i < |s| && x in first[s[i]] && forall j :: 0 <= j < i ==> Epsilon in first[s[j]] {
        var i :| 0 <= i < |s| && x in first[s[i]] && forall j :: 0 <= j < i ==> Epsilon in first[s[j]];
        if i > 0 {
          assert Epsilon in first[s[0]];
          assert x in first[s[1..][i - 1]];
          forall j | 0 <= j < i - 1 ensures Epsilon in first[s[1..][j]] {
            assert s[1..][j] == s[j + 1];
          }
        }
      }
    }
  }

  /** First of a sequence only grows when the First sets grow. */
  lemma {:induction false} FirstOfSeqMonotone(a: SymbolSets, b: SymbolSets, s: seq<char>)
    requires Covers(a, s) && Below(a, b)
    ensures Covers(b, s) && FirstOfSeq(a, s) <= FirstOfSeq(b, s)
  {
    if s != [] {
      FirstOfSeqMonotone(a, b, s[1..]);
    }
  }

  /** First of a sequence draws only on the First sets of its symbols. */
  lemma {:induction false} FirstOfSeqBounded(first: SymbolSets, s: seq<char>, u: set<char>)
    requires Covers(first, s)
    requires forall k :: 0 <= k < |s| ==> first[s[k]] <= u
    ensures FirstOfSeq(first, s) <= u + {Epsilon}
  {
    if s != [] {
      assert first[s[0]] <= u;
      FirstOfSeqBounded(first, s[1..], u);
    }
  }

  /** First of a sequence, as a loop that stops at the first non-nullable symbol. */
  method ComputeFirstOfSequence(s: seq<char>, first: SymbolSets) returns (result: set<char>)
    requires Covers(first, s)
    ensures result == FirstOfSeq(first, s)
  {
    if s == [] {
      return {Epsilon};
    }
    result := {};
    var allDeriveEpsilon := true;
    var k := 0;
    while k < |s|
      invariant 0 <= k <= |s|
      invariant allDeriveEpsilon
      invariant result + FirstOfSeq(first, s[k..]) == FirstOfSeq(first, s)
    {
      var symbol := s[k];
      FirstOfSeqSuffix(first, s, k);
      result := result + (first[symbol] - {Epsilon});
      if Epsilon !in first[symbol] {
        allDeriveEpsilon := false;
        break;
      }
      k := k + 1;
    }
    if allDeriveEpsilon {
      result := result + {Epsilon};
    }
  }

  // ---------------------------------------------------------------------------
  // First sets

  function Productions(g: Grammar): seq<Production> {
    AllProductions(g.productions)
  }

  /** The starting point: {t} for each terminal; for each non-terminal, {e}
      when it has a direct empty alternative and {} otherwise. */
  function InitialFirst(g: Grammar): SymbolSets {
    map x | x in g.terminals + g.nonTerminals ::
      if x in g.nonTerminals then (if [] in ProductionsOf(g.productions, x) then {Epsilon} else {})
      else {x}
  }

  /** Terminal entries are exactly their singletons. */
  predicate TerminalsFixed(g: Grammar, first: SymbolSets) {
    forall t :: t in g.terminals ==> t in first && first[t] == {t}
  }

  /** Production `p` is respected: First of its right-hand side is in First of its left-hand side. */
  predicate FirstRespects(g: Grammar, first: SymbolSets, p: nat)
    requires p < |Productions(g)|
  {
    Covers(first, Productions(g)[p].1) && Productions(g)[p].0 in first &&
    FirstOfSeq(first, Productions(g)[p].1) <= first[Productions(g)[p].0]
  }

  /** The closure conditions of the First equations. */
  predicate FirstClosed(g: Grammar, first: SymbolSets) {
    forall p :: 0 <= p < |Productions(g)| ==> FirstRespects(g, first, p)
  }

  /** Any assignment that contains the starting point and is closed. */
  ghost predicate FirstPrefixpoint(g: Grammar, f: SymbolSets) {
    Below(InitialFirst(g), f) && FirstClosed(g, f)
  }

  /** The invariant of the First iteration: the right keys, terminal entries
      untouched, non-terminal entries drawn from the terminals and 'e', grown
      from the starting point, and below every closed assignment. */
  ghost predicate FirstInvariant(g: Grammar, first: SymbolSets) {
    first.Keys == g.terminals + g.nonTerminals &&
    TerminalsFixed(g, first) &&
    (forall n :: n in g.nonTerminals ==> first[n] <= g.terminals + {Epsilon}) &&
    Below(InitialFirst(g), first) &&
    forall f :: FirstPrefixpoint(g, f) ==> Below(first, f)
  }

  /** The First sets of a grammar: the least closed assignment above the
      starting point, with the invariant's shape. */
  ghost predicate IsFirstSets(g: Grammar, first: SymbolSets) {
    FirstInvariant(g, first) && FirstClosed(g, first)
  }

  /** One production's effect on the First sets. */
  function FirstUpdate(first: SymbolSets, nt: char, rhs: seq<char>): SymbolSets
    requires nt in first && Covers(first, rhs)
  {
    first[nt := first[nt] + FirstOfSeq(first, rhs)]
  }

  /** Pairs (non-terminal, character) still missing from the sets: the measure of the iterations. */
  ghost function Missing(keys: set<char>, universe: set<char>, sets: SymbolSets): set<(char, char)> {
    set n, x | n in keys && x in universe && !(n in sets && x in sets[n]) :: (n, x)
  }

  /** How many pairs are still missing. */
  ghost function MissingCount(keys: set<char>, universe: set<char>, sets: SymbolSets): nat {
    |Missing(keys, universe, sets)|
  }

  lemma MissingShrinks(keys: set<char>, universe: set<char>, a: SymbolSets, b: SymbolSets)
    requires Below(a, b)
    ensures Missing(keys, universe, b) <= Missing(keys, universe, a)
    ensures MissingCount(keys, universe, b) <= MissingCount(keys, universe, a)
  {
    SubsetCard(Missing(keys, universe, b), Missing(keys, universe, a));
  }

  lemma MissingShrinksStrictly(keys: set<char>, universe: set<char>, a: SymbolSets, b: SymbolSets, n: char, x: char)
    requires Below(a, b) && n in keys && x in universe && n in a && x !in a[n] && x in b[n]
    ensures MissingCount(keys, universe, b) < MissingCount(keys, universe, a)
  {
    var mb, ma := Missing(keys, universe, b), Missing(keys, universe, a);
    assert (n, x) in ma && (n, x) !in mb;
    assert mb <= ma - {(n, x)};
    SubsetCard(mb, ma - {(n, x)});
  }

  lemma SubsetCard<T>(a: set<T>, b: set<T>)
    requires a <= b
    ensures |a| <= |b|
  {
    assert b == a + (b - a);
  }

  lemma ProductionCovered(g: Grammar, first: SymbolSets, p: nat)
    requires WellFormed(g) && p < |Productions(g)|
    requires first.Keys == g.terminals + g.nonTerminals
    ensures Productions(g)[p].0 in first && Covers(first, Productions(g)[p].1)
  {
    ProductionDeclared(g, p);
  }

  /** The starting point satisfies the invariant. */
  lemma InitialFirstInvariant(g: Grammar)
    requires WellFormed(g)
    ensures FirstInvariant(g, InitialFirst(g))
  {
    TerminalsNotEpsilon(g);
  }

  /** Terminals start as their singletons; a non-terminal starts with 'e'
      exactly when it has a direct empty alternative, and with nothing else. */
  lemma InitialFirstShape(g: Grammar, x: char)
    requires WellFormed(g) && x in g.terminals + g.nonTerminals
    ensures x in g.terminals ==> InitialFirst(g)[x] == {x}
    ensures x in g.nonTerminals ==> InitialFirst(g)[x] <= {Epsilon}
    ensures x in g.nonTerminals ==> (Epsilon in InitialFirst(g)[x] <==> [] in ProductionsOf(g.productions, x))
  {
  }

  /** One production's update keeps the invariant: what it adds is drawn from
      the terminals and 'e', and lies in every closed assignment above. */
  lemma {:induction false} FirstUpdateInvariant(g: Grammar, first: SymbolSets, p: nat)
    requires WellFormed(g) && p < |Productions(g)| && FirstInvariant(g, first)
    ensures Productions(g)[p].0 in first && Covers(first, Productions(g)[p].1)
    ensures Below(first, FirstUpdate(first, Productions(g)[p].0, Productions(g)[p].1))
    ensures FirstInvariant(g, FirstUpdate(first, Productions(g)[p].0, Productions(g)[p].1))
  {
    ProductionDeclared(g, p);
    var (nt, rhs) := Productions(g)[p];
    var first' := FirstUpdate(first, nt, rhs);
    forall k | 0 <= k < |rhs| ensures first[rhs[k]] <= g.terminals + {Epsilon} {
      if rhs[k] in g.terminals { TerminalsNotEpsilon(g); }
    }
    FirstOfSeqBounded(first, rhs, g.terminals + {Epsilon});
    TerminalsNotEpsilon(g);
    assert nt !in g.terminals;
    forall f | FirstPrefixpoint(g, f) ensures Below(first', f) {
      FirstOfSeqMonotone(first, f, rhs);
      assert FirstRespects(g, f, p);
    }
  }

  /** The First sets are unique: two least closed assignments coincide. */
  lemma FirstSetsUnique(g: Grammar, a: SymbolSets, b: SymbolSets)
    requires IsFirstSets(g, a) && IsFirstSets(g, b)
    ensures a == b
  {
    assert FirstPrefixpoint(g, a) && FirstPrefixpoint(g, b);
    assert Below(a, b) && Below(b, a);
    assert a.Keys == b.Keys;
    forall x | x in a ensures a[x] == b[x] {
    }
  }

  /** Adds every member of `items` to the entry `key`, reporting whether anything was new. */
  method AddAll(sets: SymbolSets, key: char, items: set<char>) returns (sets': SymbolSets, added: bool)
    requires key in sets
    ensures sets' == sets[key := sets[key] + items]
    ensures added <==> !(items <= sets[key])
    ensures added <==> sets' != sets
  {
    sets', added := sets, false;
    var rest := items;
    while rest != {}
      invariant rest <= items
      invariant key in sets' && sets' == sets[key := sets'[key]]
      invariant sets'[key] == sets[key] + (items - rest)
      invariant added <==> !(items - rest <= sets[key])
      decreases rest
    {
      var s :| s in rest;
      if s !in sets'[key] {
        sets' := sets'[key := sets'[key] + {s}];
        added := true;
      }
      rest := rest - {s};
    }
    assert items - rest == items;
    if !added {
      assert sets[key] + items == sets[key];
    } else {
      assert sets'[key] != sets[key];
    }
  }

  /** One production's pass of the First iteration; the effect is `FirstUpdate`. */
  method ProcessFirstProduction(g: Grammar, first: SymbolSets, nt: char, rhs: seq<char>)
    returns (first': SymbolSets, changed: bool)
    requires Consistent(g) && TerminalsFixed(g, first)
    requires nt in first && nt !in g.terminals && Covers(first, rhs)
    ensures first' == FirstUpdate(first, nt, rhs)
    ensures changed <==> first' != first
  {
    TerminalsNotEpsilon(g);
    if rhs == [] {
      first', changed := first, false;
      if Epsilon !in first[nt] {
        first', changed := first[nt := first[nt] + {Epsilon}], true;
        assert first'[nt] != first[nt];
      } else {
        assert first[nt] + {Epsilon} == first[nt];
      }
      return;
    }
    if rhs[0] in g.terminals {
      assert FirstOfSeq(first, rhs) == {rhs[0]};
      first', changed := first, false;
      if rhs[0] !in first[nt] {
        first', changed := first[nt := first[nt] + {rhs[0]}], true;
        assert first'[nt] != first[nt];
      } else {
        assert first[nt] + {rhs[0]} == first[nt];
      }
      return;
    }
    first', changed := ScanFirst(first, nt, rhs);
  }

  /** The scan of a right-hand side that starts with a non-terminal: each
      symbol's set without 'e' joins the set of `nt`, until a symbol that is
      not nullable; 'e' joins too when every symbol is nullable. */
  method ScanFirst(first: SymbolSets, nt: char, rhs: seq<char>) returns (first': SymbolSets, changed: bool)
    requires nt in first && Covers(first, rhs)
    ensures first' == FirstUpdate(first, nt, rhs)
    ensures changed <==> first' != first
  {
    first', changed := first, false;
    var allDeriveEpsilon := true;
    var k := 0;
    while k < |rhs|
      invariant 0 <= k <= |rhs|
      invariant allDeriveEpsilon
      invariant nt in first' && first' == first[nt := first'[nt]]
      invariant FirstScan(first, nt, rhs, k, first'[nt])
      invariant changed <==> first'[nt] != first[nt]
    {
      var symbol := rhs[k];
      FirstScanStep(first, nt, rhs, k, first'[nt]);
      var added;
      first', added := AddAll(first', nt, first'[symbol] - {Epsilon});
      changed := changed || added;
      if Epsilon !in first'[symbol] {
        allDeriveEpsilon := false;
        break;
      }
      k := k + 1;
    }
    if allDeriveEpsilon {
      FirstScanEnd(first, nt, rhs, first'[nt]);
      if Epsilon !in first'[nt] {
        first' := first'[nt := first'[nt] + {Epsilon}];
        changed := true;
      }
    }
    assert first'[nt] == first[nt] + FirstOfSeq(first, rhs);
    if changed {
      assert first'[nt] != first[nt];
    }
  }

  /** The state of the scan of `rhs` after `k` symbols, all of them nullable:
      `cur`, the set of `nt` so far, holds the old set, lies within the
      final one, and misses nothing First of the rest will not supply. */
  ghost predicate FirstScan(first: SymbolSets, nt: char, rhs: seq<char>, k: nat, cur: set<char>)
    requires nt in first && Covers(first, rhs) && k <= |rhs|
  {
    first[nt] <= cur <= first[nt] + FirstOfSeq(first, rhs) &&
    first[nt] + FirstOfSeq(first, rhs) <= cur + FirstOfSeq(first, rhs[k..]) &&
    (Epsilon in cur <==> Epsilon in first[nt]) &&
    forall j :: 0 <= j < k ==> Epsilon in first[rhs[j]]
  }

  /** One symbol of the scan: its set without 'e' joins `cur` (the set of
      `nt` itself when the symbol is `nt`); the scan goes on exactly when the
      symbol is nullable, and otherwise `cur` is already the final set. */
  lemma {:induction false} FirstScanStep(first: SymbolSets, nt: char, rhs: seq<char>, k: nat, cur: set<char>)
    requires nt in first && Covers(first, rhs) && k < |rhs| && FirstScan(first, nt, rhs, k, cur)
    ensures var s := if rhs[k] == nt then cur else first[rhs[k]];
      var cur' := cur + (s - {Epsilon});
      var s' := if rhs[k] == nt then cur' else first[rhs[k]];
      (Epsilon in s' <==> Epsilon in first[rhs[k]]) &&
      (Epsilon in s' ==> FirstScan(first, nt, rhs, k + 1, cur')) &&
      (Epsilon !in s' ==> cur' == first[nt] + FirstOfSeq(first, rhs))
  {
    FirstOfSeqSuffix(first, rhs, k);
    FirstOfSeqDrop(first, rhs, k);
    var s := if rhs[k] == nt then cur else first[rhs[k]];
    var cur' := cur + (s - {Epsilon});
    assert s - {Epsilon} <= first[nt] + FirstOfSeq(first, rhs);
    if Epsilon in first[rhs[k]] {
      assert forall j :: 0 <= j < k + 1 ==> Epsilon in first[rhs[j]];
    }
  }

  /** A scan that found every symbol nullable ends with 'e' added. */
  lemma FirstScanEnd(first: SymbolSets, nt: char, rhs: seq<char>, cur: set<char>)
    requires nt in first && Covers(first, rhs) && FirstScan(first, nt, rhs, |rhs|, cur)
    ensures cur + {Epsilon} == first[nt] + FirstOfSeq(first, rhs)
  {
    FirstOfSeqNullable(first, rhs);
    assert rhs[|rhs|..] == [];
  }

  /** Past a nullable prefix, First of the rest is part of First of the whole. */
  lemma {:induction false} FirstOfSeqDrop(first: SymbolSets, s: seq<char>, k: nat)
    requires Covers(first, s) && k <= |s|
    requires forall j :: 0 <= j < k ==> Epsilon in first[s[j]]
    ensures FirstOfSeq(first, s[k..]) <= FirstOfSeq(first, s)
  {
    if k > 0 {
      FirstOfSeqDrop(first, s[1..], k - 1);
      assert s[1..][k - 1..] == s[k..];
    }
  }

  /** The suffix from position `k` starts with the contribution of `rhs[k]`. */
  lemma FirstOfSeqSuffix(first: SymbolSets, rhs: seq<char>, k: nat)
    requires Covers(first, rhs) && k < |rhs|
    ensures FirstOfSeq(first, rhs[k..]) == (first[rhs[k]] - {Epsilon}) +
      (if Epsilon in first[rhs[k]] then FirstOfSeq(first, rhs[k + 1..]) else {})
  {
    assert rhs[k..][1..] == rhs[k + 1..];
  }

  /** The initialisation loops of the First computation. */
  method InitFirst(g: Grammar) returns (first: SymbolSets)
    ensures first == InitialFirst(g)
  {
    first := map[];
    var ts := g.terminals;
    while ts != {}
      invariant ts <= g.terminals
      invariant first == map x | x in g.terminals - ts :: {x}
      decreases ts
    {
      var t :| t in ts;
      first := first[t := {t}];
      ts := ts - {t};
    }
    var ns := g.nonTerminals;
    while ns != {}
      invariant ns <= g.nonTerminals
      invariant first == map x | x in g.terminals + (g.nonTerminals - ns) ::
        if x in g.nonTerminals - ns then (if [] in ProductionsOf(g.productions, x) then {Epsilon} else {})
        else {x}
      decreases ns
    {
      var n :| n in ns;
      var nullable := HasEpsilonProduction(g, n);
      first := first[n := if nullable then {Epsilon} else {}];
      ns := ns - {n};
    }
  }

  /** What holds after the first `p` productions of a pass that started from `first`. */
  ghost predicate FirstPassInvariant(g: Grammar, first: SymbolSets, cur: SymbolSets, changed: bool, p: nat) {
    WellFormed(g) && p <= |Productions(g)| &&
    FirstInvariant(g, cur) && Below(first, cur) &&
    (!changed ==> cur == first && forall q :: 0 <= q < p ==> FirstRespects(g, first, q)) &&
    MissingCount(g.nonTerminals, g.terminals + {Epsilon}, cur) <= MissingCount(g.nonTerminals, g.terminals + {Epsilon}, first) &&
    (changed ==> MissingCount(g.nonTerminals, g.terminals + {Epsilon}, cur) < MissingCount(g.nonTerminals, g.terminals + {Epsilon}, first))
  }

  /** One full pass of the First iteration over every production, in map order.
      A pass that reports no change has found the sets closed. */
  method FirstPass(g: Grammar, first: SymbolSets) returns (first': SymbolSets, changed: bool)
    requires WellFormed(g) && FirstInvariant(g, first)
    ensures FirstInvariant(g, first') && Below(first, first')
    ensures !changed ==> first' == first && FirstClosed(g, first)
    ensures changed ==> MissingCount(g.nonTerminals, g.terminals + {Epsilon}, first') < MissingCount(g.nonTerminals, g.terminals + {Epsilon}, first)
  {
    var productions := AllProductions(g.productions);
    first', changed := first, false;
    var p := 0;
    while p < |productions|
      invariant p <= |productions|
      invariant FirstPassInvariant(g, first, first', changed, p)
    {
      var (nt, rhs) := productions[p];
      FirstPassPre(g, first, first', changed, p);
      var added;
      ghost var before := first';
      first', added := ProcessFirstProduction(g, first', nt, rhs);
      FirstPassAdvance(g, first, before, first', changed, added, p);
      changed := changed || added;
      p := p + 1;
    }
  }

  lemma FirstPassPre(g: Grammar, first: SymbolSets, cur: SymbolSets, changed: bool, p: nat)
    requires FirstPassInvariant(g, first, cur, changed, p) && p < |Productions(g)|
    ensures Consistent(g) && TerminalsFixed(g, cur)
    ensures Productions(g)[p].0 in cur && Productions(g)[p].0 !in g.terminals && Covers(cur, Productions(g)[p].1)
  {
    ProductionDeclared(g, p);
  }

  /** One step of a pass keeps the pass invariant: the measure shrinks on a
      change, and an unchanged step means the production is respected. */
  lemma FirstPassAdvance(g: Grammar, first: SymbolSets, before: SymbolSets, after: SymbolSets, changed: bool, added: bool, p: nat)
    requires FirstPassInvariant(g, first, before, changed, p) && p < |Productions(g)|
    requires Productions(g)[p].0 in before && Covers(before, Productions(g)[p].1)
    requires after == FirstUpdate(before, Productions(g)[p].0, Productions(g)[p].1)
    requires added <==> after != before
    ensures FirstPassInvariant(g, first, after, changed || added, p + 1)
  {
    var nt := Productions(g)[p].0;
    FirstUpdateInvariant(g, before, p);
    ProductionDeclared(g, p);
    MissingShrinks(g.nonTerminals, g.terminals + {Epsilon}, before, after);
    if added {
      assert after[nt] != before[nt];
      var x :| x in after[nt] && x !in before[nt];
      MissingShrinksStrictly(g.nonTerminals, g.terminals + {Epsilon}, before, after, nt, x);
    }
  }

  /** The First computation: the starting point, then passes over every
      production until a whole pass adds nothing. */
  method ComputeFirst(g: Grammar) returns (first: SymbolSets)
    requires WellFormed(g)
    ensures IsFirstSets(g, first)
  {
    first := InitFirst(g);
    InitialFirstInvariant(g);
    var changed := true;
    while changed
      invariant FirstInvariant(g, first)
      invariant !changed ==> FirstClosed(g, first)
      decreases MissingCount(g.nonTerminals, g.terminals + {Epsilon}, first), changed
    {
      first, changed := FirstPass(g, first);
    }
  }

  /** At the First fixed point, for every production `nt -> s1..sk`: each
      First(si) without 'e' is in First(nt) as long as s1..s(i-1) are nullable,
      and 'e' is in First(nt) when the right-hand side is empty or wholly nullable. */
  lemma FirstFixpointConditions(g: Grammar, first: SymbolSets, p: nat, i: nat)
    requires IsFirstSets(g, first) && p < |Productions(g)|
    ensures Productions(g)[p].0 in first && Covers(first, Productions(g)[p].1)
    ensures i < |Productions(g)[p].1| && (forall j :: 0 <= j < i ==> Epsilon in first[Productions(g)[p].1[j]]) ==>
      first[Productions(g)[p].1[i]] - {Epsilon} <= first[Productions(g)[p].0]
    ensures (forall j :: 0 <= j < |Productions(g)[p].1| ==> Epsilon in first[Productions(g)[p].1[j]]) ==>
      Epsilon in first[Productions(g)[p].0]
  {
    var (nt, rhs) := Productions(g)[p];
    assert FirstRespects(g, first, p);
    FirstOfSeqNullable(first, rhs);
    if i < |rhs| && (forall j :: 0 <= j < i ==> Epsilon in first[rhs[j]]) {
      forall x | x in first[rhs[i]] - {Epsilon} ensures x in first[nt] {
        FirstOfSeqMember(first, rhs, x);
      }
    }
  }

  // ---------------------------------------------------------------------------
  // Follow sets

  /** The Follow condition at position `i` of `nt -> rhs`, when `rhs[i]` is a
      non-terminal B with suffix beta: First(beta) without 'e' is in Follow(B),
      and Follow(nt) is in Follow(B) when beta is nullable (or empty). */
  predicate FollowRespectsAt(first: SymbolSets, nonTerminals: set<char>, follow: SymbolSets, nt: char, rhs: seq<char>, i: nat)
    requires i < |rhs|
  {
    rhs[i] in nonTerminals ==>
      Covers(first, rhs[i + 1..]) && nt in follow && rhs[i] in follow &&
      FirstOfSeq(first, rhs[i + 1..]) - {Epsilon} <= follow[rhs[i]] &&
      (Epsilon in FirstOfSeq(first, rhs[i + 1..]) ==> follow[nt] <= follow[rhs[i]])
  }

  /** The closure conditions of the Follow equations. */
  predicate FollowClosed(g: Grammar, first: SymbolSets, follow: SymbolSets) {
    forall p, i :: 0 <= p < |Productions(g)| && 0 <= i < |Productions(g)[p].1| ==>
      FollowRespectsAt(first, g.nonTerminals, follow, Productions(g)[p].0, Productions(g)[p].1, i)
  }

  /** The effect of position `i` of `nt -> rhs` on the Follow sets. */
  function FollowAt(first: SymbolSets, nonTerminals: set<char>, follow: SymbolSets, nt: char, rhs: seq<char>, i: nat): SymbolSets
    requires i < |rhs| && Covers(first, rhs) && nt in follow && follow.Keys == nonTerminals
  {
    if rhs[i] !in nonTerminals then follow
    else
      var beta := FirstOfSeq(first, rhs[i + 1..]);
      var f1 := follow[rhs[i] := follow[rhs[i]] + (beta - {Epsilon})];
      if Epsilon in beta then f1[rhs[i] := f1[rhs[i]] + f1[nt]] else f1
  }

  /** The effect of the first `k` positions of `nt -> rhs`, in order. */
  function FollowScan(first: SymbolSets, nonTerminals: set<char>, follow: SymbolSets, nt: char, rhs: seq<char>, k: nat): (r: SymbolSets)
    requires k <= |rhs| && Covers(first, rhs) && nt in follow && follow.Keys == nonTerminals
    ensures r.Keys == follow.Keys
  {
    if k == 0 then follow
    else FollowAt(first, nonTerminals, FollowScan(first, nonTerminals, follow, nt, rhs, k - 1), nt, rhs, k - 1)
  }

  /** A Follow update only adds, adds terminals only, and when it adds nothing
      its position's condition holds. */
  lemma FollowAtFacts(first: SymbolSets, nonTerminals: set<char>, terminals: set<char>, follow: SymbolSets, nt: char, rhs: seq<char>, i: nat)
    requires i < |rhs| && Covers(first, rhs) && nt in follow && follow.Keys == nonTerminals
    requires forall k :: 0 <= k < |rhs| ==> first[rhs[k]] <= terminals + {Epsilon}
    requires forall n :: n in follow ==> follow[n] <= terminals
    ensures Below(follow, FollowAt(first, nonTerminals, follow, nt, rhs, i))
    ensures forall n :: n in follow ==> FollowAt(first, nonTerminals, follow, nt, rhs, i)[n] <= terminals
    ensures FollowAt(first, nonTerminals, follow, nt, rhs, i) == follow ==>
      FollowRespectsAt(first, nonTerminals, follow, nt, rhs, i)
  {
    if rhs[i] in nonTerminals {
      FirstOfSeqBounded(first, rhs[i + 1..], terminals + {Epsilon});
    }
  }

  lemma BelowAntisymmetric(a: SymbolSets, b: SymbolSets)
    requires Below(a, b) && Below(b, a)
    ensures a == b
  {
    assert a.Keys == b.Keys;
    forall x | x in a ensures a[x] == b[x] {
    }
  }

  /** One position of a production in the Follow iteration: a non-terminal
      there receives First of the rest without 'e', then Follow(nt) when the
      rest is empty or nullable. */
  method FollowPosition(g: Grammar, first: SymbolSets, follow: SymbolSets, nt: char, rhs: seq<char>, i: nat)
    returns (follow': SymbolSets, added: bool)
    requires i < |rhs| && follow.Keys == g.nonTerminals && nt in g.nonTerminals && Covers(first, rhs)
    ensures follow' == FollowAt(first, g.nonTerminals, follow, nt, rhs, i)
    ensures added <==> follow' != follow
  {
    follow', added := follow, false;
    var symbol := rhs[i];
    if symbol in g.nonTerminals {
      if i == |rhs| - 1 {
        assert rhs[i + 1..] == [];
        assert {Epsilon} - {Epsilon} == {};
        assert follow[symbol] + {} == follow[symbol];
        assert follow[symbol := follow[symbol]] == follow;
        follow', added := AddAll(follow, symbol, follow[nt]);
      } else {
        var firstBeta := ComputeFirstOfSequence(rhs[i + 1..], first);
        var a1, a2 := false, false;
        follow', a1 := AddAll(follow, symbol, firstBeta - {Epsilon});
        ghost var middle := follow';
        assert Below(follow, middle);
        if Epsilon in firstBeta {
          follow', a2 := AddAll(follow', symbol, follow'[nt]);
        }
        assert Below(middle, follow');
        if follow' == follow {
          BelowAntisymmetric(follow, middle);
        }
        added := a1 || a2;
      }
    }
  }

  /** One production's pass of the Follow iteration; the effect is `FollowScan`. */
  method ProcessFollowProduction(g: Grammar, first: SymbolSets, follow: SymbolSets, nt: char, rhs: seq<char>)
    returns (follow': SymbolSets, changed: bool)
    requires follow.Keys == g.nonTerminals && nt in g.nonTerminals && Covers(first, rhs)
    requires forall k :: 0 <= k < |rhs| ==> first[rhs[k]] <= g.terminals + {Epsilon}
    requires forall n :: n in follow ==> follow[n] <= g.terminals
    ensures follow' == FollowScan(first, g.nonTerminals, follow, nt, rhs, |rhs|)
    ensures Below(follow, follow') && forall n :: n in follow' ==> follow'[n] <= g.terminals
    ensures changed <==> follow' != follow
    ensures !changed ==> forall i :: 0 <= i < |rhs| ==> FollowRespectsAt(first, g.nonTerminals, follow, nt, rhs, i)
  {
    follow', changed := follow, false;
    if rhs == [] {
      return;
    }
    var i := 0;
    while i < |rhs|
      invariant 0 <= i <= |rhs|
      invariant follow' == FollowScan(first, g.nonTerminals, follow, nt, rhs, i)
      invariant Below(follow, follow') && forall n :: n in follow' ==> follow'[n] <= g.terminals
      invariant changed <==> follow' != follow
      invariant !changed ==> forall j :: 0 <= j < i ==> FollowRespectsAt(first, g.nonTerminals, follow, nt, rhs, j)
    {
      ghost var before := follow';
      FollowAtFacts(first, g.nonTerminals, g.terminals, follow', nt, rhs, i);
      var added;
      follow', added := FollowPosition(g, first, follow', nt, rhs, i);
      if follow' == follow {
        BelowAntisymmetric(before, follow);
      }
      changed := changed || added;
      i := i + 1;
    }
  }

  /** A position's update stays below any assignment that already satisfies
      that position's condition and lies above the sets updated. */
  lemma FollowAtBelow(first: SymbolSets, nonTerminals: set<char>, follow: SymbolSets, nt: char, rhs: seq<char>, i: nat, f: SymbolSets)
    requires i < |rhs| && Covers(first, rhs) && nt in follow && follow.Keys == nonTerminals
    requires Below(follow, f) && FollowRespectsAt(first, nonTerminals, f, nt, rhs, i)
    ensures Below(FollowAt(first, nonTerminals, follow, nt, rhs, i), f)
  {
  }

  /** A scan of a production stays below any assignment that satisfies every
      condition of the production and lies above the sets scanned. */
  lemma {:induction false} FollowScanBelow(first: SymbolSets, nonTerminals: set<char>, follow: SymbolSets, nt: char, rhs: seq<char>, k: nat, f: SymbolSets)
    requires k <= |rhs| && Covers(first, rhs) && nt in follow && follow.Keys == nonTerminals
    requires Below(follow, f)
    requires forall i :: 0 <= i < |rhs| ==> FollowRespectsAt(first, nonTerminals, f, nt, rhs, i)
    ensures Below(FollowScan(first, nonTerminals, follow, nt, rhs, k), f)
  {
    if k > 0 {
      FollowScanBelow(first, nonTerminals, follow, nt, rhs, k - 1, f);
      FollowAtBelow(first, nonTerminals, FollowScan(first, nonTerminals, follow, nt, rhs, k - 1), nt, rhs, k - 1, f);
    }
  }

  /** An assignment meeting the Follow equations: one set per non-terminal,
      '$' in the set of the start symbol, and every position's condition. */
  ghost predicate FollowPrefixpoint(g: Grammar, first: SymbolSets, f: SymbolSets) {
    g.startSymbol.Some? && f.Keys == g.nonTerminals && g.startSymbol.value in f &&
    EndMarker in f[g.startSymbol.value] && FollowClosed(g, first, f)
  }

  /** The Follow sets of a grammar: the least assignment meeting the Follow equations. */
  ghost predicate IsFollowSets(g: Grammar, first: SymbolSets, follow: SymbolSets) {
    FollowPrefixpoint(g, first, follow) && forall f :: FollowPrefixpoint(g, first, f) ==> Below(follow, f)
  }

  /** The Follow sets are unique: two least assignments coincide, so the
      order in which the passes visit the productions does not matter. */
  lemma FollowSetsUnique(g: Grammar, first: SymbolSets, a: SymbolSets, b: SymbolSets)
    requires IsFollowSets(g, first, a) && IsFollowSets(g, first, b)
    ensures a == b
  {
    assert FollowPrefixpoint(g, first, a) && FollowPrefixpoint(g, first, b);
    BelowAntisymmetric(a, b);
  }

  /** Every position of production `p` satisfies its Follow condition. */
  predicate FollowRespectsProduction(g: Grammar, first: SymbolSets, follow: SymbolSets, p: nat)
    requires p < |Productions(g)|
  {
    forall i :: 0 <= i < |Productions(g)[p].1| ==>
      FollowRespectsAt(first, g.nonTerminals, follow, Productions(g)[p].0, Productions(g)[p].1, i)
  }

  /** What holds after the first `p` productions of a Follow pass that started from `follow`. */
  ghost predicate FollowPassInvariant(g: Grammar, first: SymbolSets, follow: SymbolSets, cur: SymbolSets, changed: bool, p: nat) {
    p <= |Productions(g)| &&
    cur.Keys == g.nonTerminals && (forall n :: n in cur ==> cur[n] <= g.terminals) &&
    Below(follow, cur) &&
    (!changed ==> cur == follow && forall q :: 0 <= q < p ==> FollowRespectsProduction(g, first, follow, q)) &&
    MissingCount(g.nonTerminals, g.terminals, cur) <= MissingCount(g.nonTerminals, g.terminals, follow) &&
    (changed ==> MissingCount(g.nonTerminals, g.terminals, cur) < MissingCount(g.nonTerminals, g.terminals, follow))
  }

  /** One full pass of the Follow iteration over every production, in map order.
      A pass that reports no change has found the sets closed. */
  method FollowPass(g: Grammar, first: SymbolSets, follow: SymbolSets) returns (follow': SymbolSets, changed: bool)
    requires WellFormed(g) && IsFirstSets(g, first)
    requires follow.Keys == g.nonTerminals && forall n :: n in follow ==> follow[n] <= g.terminals
    ensures follow'.Keys == g.nonTerminals && forall n :: n in follow' ==> follow'[n] <= g.terminals
    ensures Below(follow, follow')
    ensures !changed ==> follow' == follow && FollowClosed(g, first, follow)
    ensures changed ==> MissingCount(g.nonTerminals, g.terminals, follow') < MissingCount(g.nonTerminals, g.terminals, follow)
    ensures forall f :: FollowClosed(g, first, f) && Below(follow, f) ==> Below(follow', f)
  {
    var productions := AllProductions(g.productions);
    follow', changed := follow, false;
    var p := 0;
    while p < |productions|
      invariant p <= |productions|
      invariant FollowPassInvariant(g, first, follow, follow', changed, p)
      invariant forall f :: FollowClosed(g, first, f) && Below(follow, f) ==> Below(follow', f)
    {
      var (nt, rhs) := productions[p];
      FirstBoundsProduction(g, first, p);
      ghost var before := follow';
      var added;
      follow', added := ProcessFollowProduction(g, first, follow', nt, rhs);
      forall f | FollowClosed(g, first, f) && Below(follow, f) ensures Below(follow', f) {
        assert forall i :: 0 <= i < |rhs| ==> FollowRespectsAt(first, g.nonTerminals, f, nt, rhs, i);
        FollowScanBelow(first, g.nonTerminals, before, nt, rhs, |rhs|, f);
      }
      assert !added ==> FollowRespectsProduction(g, first, before, p);
      FollowPassAdvance(g, first, follow, before, follow', changed, added, p);
      changed := changed || added;
      p := p + 1;
    }
    if !changed {
      forall q, i | 0 <= q < |Productions(g)| && 0 <= i < |Productions(g)[q].1|
        ensures FollowRespectsAt(first, g.nonTerminals, follow, Productions(g)[q].0, Productions(g)[q].1, i)
      {
        assert FollowRespectsProduction(g, first, follow, q);
      }
    }
  }

  /** One step of a Follow pass keeps the pass invariant. */
  lemma FollowPassAdvance(g: Grammar, first: SymbolSets, follow: SymbolSets, before: SymbolSets, after: SymbolSets, changed: bool, added: bool, p: nat)
    requires FollowPassInvariant(g, first, follow, before, changed, p) && p < |Productions(g)|
    requires after.Keys == g.nonTerminals && (forall n :: n in after ==> after[n] <= g.terminals)
    requires Below(before, after) && (added <==> after != before)
    requires !added ==> FollowRespectsProduction(g, first, before, p)
    ensures FollowPassInvariant(g, first, follow, after, changed || added, p + 1)
  {
    MissingShrinks(g.nonTerminals, g.terminals, before, after);
    if added {
      var n :| n in after && after[n] != before[n];
      var x :| x in after[n] && x !in before[n];
      MissingShrinksStrictly(g.nonTerminals, g.terminals, before, after, n, x);
    }
  }

  /** In a production, every symbol has a First entry drawn from the terminals and 'e'. */
  lemma FirstBoundsProduction(g: Grammar, first: SymbolSets, p: nat)
    requires WellFormed(g) && IsFirstSets(g, first) && p < |Productions(g)|
    ensures Productions(g)[p].0 in g.nonTerminals && Covers(first, Productions(g)[p].1)
    ensures forall k :: 0 <= k < |Productions(g)[p].1| ==> first[Productions(g)[p].1[k]] <= g.terminals + {Epsilon}
  {
    ProductionDeclared(g, p);
  }

  /** The starting point of the Follow iteration lies below every assignment
      meeting the Follow equations: those hold '$' for the start symbol. */
  lemma InitialFollowBelow(g: Grammar, first: SymbolSets, follow: SymbolSets)
    requires g.startSymbol.Some? && follow.Keys == g.nonTerminals
    requires forall n :: n in follow ==> follow[n] <= (if n == g.startSymbol.value then {EndMarker} else {})
    ensures forall f :: FollowPrefixpoint(g, first, f) ==> Below(follow, f)
  {
  }

  /** A pass that stays below every closed assignment above its input keeps
      the iteration below every assignment meeting the Follow equations. */
  lemma FollowPassBelow(g: Grammar, first: SymbolSets, follow: SymbolSets, follow': SymbolSets)
    requires forall f :: FollowPrefixpoint(g, first, f) ==> Below(follow, f)
    requires forall f :: FollowClosed(g, first, f) && Below(follow, f) ==> Below(follow', f)
    ensures forall f :: FollowPrefixpoint(g, first, f) ==> Below(follow', f)
  {
  }

  /** The passes of the Follow computation, until a whole pass adds nothing:
      from a start below every solution, they end at the least one. */
  method IterateFollow(g: Grammar, first: SymbolSets, follow: SymbolSets) returns (follow': SymbolSets)
    requires WellFormed(g) && IsFirstSets(g, first)
    requires follow.Keys == g.nonTerminals && forall n :: n in follow ==> follow[n] <= g.terminals
    requires forall f :: FollowPrefixpoint(g, first, f) ==> Below(follow, f)
    ensures follow'.Keys == g.nonTerminals && Below(follow, follow')
    ensures forall n :: n in follow' ==> follow'[n] <= g.terminals
    ensures FollowClosed(g, first, follow')
    ensures forall f :: FollowPrefixpoint(g, first, f) ==> Below(follow', f)
  {
    follow' := follow;
    var changed := true;
    while changed
      invariant follow'.Keys == g.nonTerminals && Below(follow, follow')
      invariant forall n :: n in follow' ==> follow'[n] <= g.terminals
      invariant !changed ==> FollowClosed(g, first, follow')
      invariant forall f :: FollowPrefixpoint(g, first, f) ==> Below(follow', f)
      decreases MissingCount(g.nonTerminals, g.terminals, follow'), changed
    {
      ghost var before := follow';
      follow', changed := FollowPass(g, first, follow');
      FollowPassBelow(g, first, before, follow');
    }
  }

  /** The Follow computation: {} everywhere, '$' for the start symbol, then
      passes over every production until a whole pass adds nothing. The First
      sets it uses are computed afresh, as `ComputeFirst` does. */
  method ComputeFollow(g: Grammar) returns (follow: SymbolSets)
    requires WellFormed(g) && g.startSymbol.Some?
    ensures follow.Keys == g.nonTerminals
    ensures EndMarker in follow[g.startSymbol.value]
    ensures forall n :: n in follow ==> follow[n] <= g.terminals && Epsilon !in follow[n]
    ensures forall first :: IsFirstSets(g, first) ==> IsFollowSets(g, first, follow)
  {
    var start := g.startSymbol.value;
    assert start in g.nonTerminals;
    TerminalsNotEpsilon(g);
    follow := map n | n in g.nonTerminals :: {};
    follow := follow[start := follow[start] + {EndMarker}];
    var first := ComputeFirst(g);
    InitialFollowBelow(g, first, follow);
    follow := IterateFollow(g, first, follow);
    forall first' | IsFirstSets(g, first') ensures IsFollowSets(g, first', follow) {
      FirstSetsUnique(g, first, first');
    }
  }
}
