/** The grammar data model: an insertion-ordered production map whose keys are
    the non-terminals, the derived terminal set, and the start symbol.
    Every grammar symbol is a single character; the alternative "e" denotes the
    empty right-hand side and '$' is the reserved end-of-input marker. */
module Grammar {

  datatype Option<T> = None | Some(value: T)

  const Epsilon: char := 'e'
  const EndMarker: char := '$'

  /** One entry of the production map: a left-hand side and its alternatives, in order. */
  datatype Rule = Rule(lhs: char, alts: seq<seq<char>>)

  /** A production as listed by `AllProductions`: left-hand side and right-hand side. */
  type Production = (char, seq<char>)

  datatype Grammar = Grammar(
    productions: seq<Rule>,
    startSymbol: Option<char>,
    nonTerminals: set<char>,
    terminals: set<char>)

  /** The production map is a dictionary: no key occurs twice. */
  predicate DistinctKeys(ps: seq<Rule>) {
    forall i, j :: 0 <= i < j < |ps| ==> ps[i].lhs != ps[j].lhs
  }

  /** The upper-case test the classification relies on (ASCII letters). */
  predicate IsUpper(c: char) {
    'A' <= c <= 'Z'
  }

  /** A right-hand-side character that is classified as a terminal. */
  predicate IsTerminalChar(c: char) {
    c != Epsilon && !IsUpper(c)
  }

  predicate IsKey(ps: seq<Rule>, c: char) {
    exists i :: 0 <= i < |ps| && ps[i].lhs == c
  }

  /** `c` occurs somewhere in some alternative of the map. */
  predicate OccursInRhs(ps: seq<Rule>, c: char) {
    exists i, j, k :: 0 <= i < |ps| && 0 <= j < |ps[i].alts| && 0 <= k < |ps[i].alts[j]| && ps[i].alts[j][k] == c
  }

  /** `c` occurs somewhere in one of the alternatives `alts`. */
  predicate OccursInAlts(alts: seq<seq<char>>, c: char) {
    exists j, k :: 0 <= j < |alts| && 0 <= k < |alts[j]| && alts[j][k] == c
  }

  /** The terminals derived from a production map: every right-hand-side
      character that is neither 'e' nor upper case, plus the end marker. */
  predicate IsDerivedTerminal(ps: seq<Rule>, c: char) {
    c == EndMarker || (IsTerminalChar(c) && OccursInRhs(ps, c))
  }

  /** How one raw alternative is normalised: "e" is the empty right-hand side. */
  function NormalizeAlt(alt: seq<char>): (r: seq<char>)
    ensures r == [] <==> alt == [] || alt == [Epsilon]
    ensures alt != [Epsilon] ==> r == alt
  {
    if alt == [Epsilon] then [] else alt
  }

  /** `ps` is the normalised form of `raw`: same keys in the same order, same
      number of alternatives per key, each alternative normalised. */
  predicate IsNormalized(raw: seq<Rule>, ps: seq<Rule>) {
    |ps| == |raw| &&
    forall i :: 0 <= i < |raw| ==>
      ps[i].lhs == raw[i].lhs && |ps[i].alts| == |raw[i].alts| &&
      forall j :: 0 <= j < |raw[i].alts| ==> ps[i].alts[j] == NormalizeAlt(raw[i].alts[j])
  }

  /** Rebuilds the production map with every alternative normalised. */
  method NormalizeProductions(raw: seq<Rule>) returns (ps: seq<Rule>)
    ensures IsNormalized(raw, ps)
  {
    ps := [];
    var i := 0;
    while i < |raw|
      invariant 0 <= i <= |raw|
      invariant IsNormalized(raw[..i], ps)
    {
      var alts: seq<seq<char>> := [];
      var j := 0;
      while j < |raw[i].alts|
        invariant 0 <= j <= |raw[i].alts|
        invariant |alts| == j
        invariant forall k :: 0 <= k < j ==> alts[k] == NormalizeAlt(raw[i].alts[k])
      {
        var rhs := raw[i].alts[j];
        if rhs == [Epsilon] {
          alts := alts + [[]];
        } else {
          alts := alts + [rhs];
        }
        j := j + 1;
      }
      ps := ps + [Rule(raw[i].lhs, alts)];
      i := i + 1;
    }
  }

  /** Normalisation keeps the keys, hence the non-terminals and the start symbol. */
  lemma NormalizeKeepsKeys(raw: seq<Rule>, ps: seq<Rule>, c: char)
    requires IsNormalized(raw, ps)
    ensures IsKey(ps, c) <==> IsKey(raw, c)
    ensures DistinctKeys(ps) <==> DistinctKeys(raw)
  {
    if IsKey(raw, c) {
      var i :| 0 <= i < |raw| && raw[i].lhs == c;
      assert ps[i].lhs == c;
    }
    if IsKey(ps, c) {
      var i :| 0 <= i < |ps| && ps[i].lhs == c;
      assert raw[i].lhs == c;
    }
  }

  /** Normalisation does not change which characters are terminals: it only
      removes the alternatives "e", whose only character is not a terminal. */
  lemma NormalizeKeepsTerminals(raw: seq<Rule>, ps: seq<Rule>, c: char)
    requires IsNormalized(raw, ps)
    ensures IsDerivedTerminal(ps, c) <==> IsDerivedTerminal(raw, c)
  {
    if IsTerminalChar(c) && OccursInRhs(raw, c) {
      var i, j, k :| 0 <= i < |raw| && 0 <= j < |raw[i].alts| && 0 <= k < |raw[i].alts[j]| && raw[i].alts[j][k] == c;
      assert raw[i].alts[j] != [Epsilon];
      assert ps[i].alts[j][k] == c;
    }
    if IsTerminalChar(c) && OccursInRhs(ps, c) {
      var i, j, k :| 0 <= i < |ps| && 0 <= j < |ps[i].alts| && 0 <= k < |ps[i].alts[j]| && ps[i].alts[j][k] == c;
      assert raw[i].alts[j][k] == c;
    }
  }

  /** The terminal set of the constructor: a nested scan of every character of
      every raw alternative, then the end marker. */
  method CollectTerminals(raw: seq<Rule>) returns (terminals: set<char>)
    ensures forall c :: c in terminals <==> IsDerivedTerminal(raw, c)
  {
    terminals := {};
    var i := 0;
    while i < |raw|
      invariant 0 <= i <= |raw|
      invariant forall c :: c in terminals <==> IsTerminalChar(c) && OccursInRhs(raw[..i], c)
    {
      var j := 0;
      while j < |raw[i].alts|
        invariant 0 <= j <= |raw[i].alts|
        invariant forall c :: c in terminals <==>
          IsTerminalChar(c) &&
          (OccursInRhs(raw[..i], c) || exists j', k :: 0 <= j' < j && 0 <= k < |raw[i].alts[j']| && raw[i].alts[j'][k] == c)
      {
        var rhs := raw[i].alts[j];
        var k := 0;
        while k < |rhs|
          invariant 0 <= k <= |rhs|
          invariant forall c :: c in terminals <==>
            IsTerminalChar(c) &&
            (OccursInRhs(raw[..i], c) ||
             (exists j', k' :: 0 <= j' < j && 0 <= k' < |raw[i].alts[j']| && raw[i].alts[j'][k'] == c) ||
             (exists k' :: 0 <= k' < k && rhs[k'] == c))
        {
          var symbol := rhs[k];
          if symbol != Epsilon && !IsUpper(symbol) {
            terminals := terminals + {symbol};
          }
          k := k + 1;
        }
        j := j + 1;
      }
      OccursInPrefix(raw, i);
      i := i + 1;
    }
    assert raw[..|raw|] == raw;
    terminals := terminals + {EndMarker};
  }

  /** Occurrence in the first `i + 1` keys splits into the first `i` keys and key `i`. */
  lemma OccursInPrefix(raw: seq<Rule>, i: nat)
    requires i < |raw|
    ensures forall c :: OccursInRhs(raw[..i + 1], c) <==>
      OccursInRhs(raw[..i], c) || OccursInAlts(raw[i].alts, c)
  {
    forall c | OccursInRhs(raw[..i + 1], c)
      ensures OccursInRhs(raw[..i], c) || OccursInAlts(raw[i].alts, c)
    {
      var i', j, k :| 0 <= i' < i + 1 && 0 <= j < |raw[..i + 1][i'].alts| &&
        0 <= k < |raw[..i + 1][i'].alts[j]| && raw[..i + 1][i'].alts[j][k] == c;
      if i' < i {
        assert raw[..i][i'] == raw[i'];
      }
    }
    forall c | OccursInRhs(raw[..i], c)
      ensures OccursInRhs(raw[..i + 1], c)
    {
      var i', j, k :| 0 <= i' < i && 0 <= j < |raw[..i][i'].alts| &&
        0 <= k < |raw[..i][i'].alts[j]| && raw[..i][i'].alts[j][k] == c;
      assert raw[..i + 1][i'] == raw[i'];
    }
    forall c | OccursInAlts(raw[i].alts, c)
      ensures OccursInRhs(raw[..i + 1], c)
    {
      var j, k :| 0 <= j < |raw[i].alts| && 0 <= k < |raw[i].alts[j]| && raw[i].alts[j][k] == c;
      assert raw[..i + 1][i] == raw[i];
    }
  }

  /** The keys of the production map, as a set. */
  function Keys(ps: seq<Rule>): (ks: set<char>)
    ensures forall c :: c in ks <==> IsKey(ps, c)
  {
    set i | 0 <= i < |ps| :: ps[i].lhs
  }

  /** The start symbol: the first key, or none for an empty map. */
  function StartOf(ps: seq<Rule>): (s: Option<char>)
    ensures s.None? <==> ps == []
    ensures s.Some? ==> IsKey(ps, s.value) && s.value == ps[0].lhs
  {
    if ps == [] then None else Some(ps[0].lhs)
  }

  /** The grammar constructor: start symbol, non-terminals, terminals, then the
      normalised production map. */
  method NewGrammar(raw: seq<Rule>) returns (g: Grammar)
    ensures g.startSymbol.None? <==> raw == []
    ensures raw != [] ==> g.startSymbol == Some(raw[0].lhs)
    ensures forall c :: c in g.nonTerminals <==> IsKey(raw, c)
    ensures forall c :: c in g.terminals <==> IsDerivedTerminal(raw, c)
    ensures EndMarker in g.terminals
    ensures IsNormalized(raw, g.productions)
    ensures Consistent(g)
  {
    var start := if raw == [] then None else Some(raw[0].lhs);
    var nonTerminals := Keys(raw);
    var terminals := CollectTerminals(raw);
    var ps := NormalizeProductions(raw);
    g := Grammar(ps, start, nonTerminals, terminals);
    forall c ensures c in g.nonTerminals <==> IsKey(ps, c) {
      NormalizeKeepsKeys(raw, ps, c);
    }
    forall c ensures c in g.terminals <==> IsDerivedTerminal(ps, c) {
      NormalizeKeepsTerminals(raw, ps, c);
    }
  }

  /** The derived fields agree with the (normalised) production map. */
  predicate Consistent(g: Grammar) {
    g.startSymbol == StartOf(g.productions) &&
    g.nonTerminals == Keys(g.productions) &&
    (forall c :: c in g.terminals <==> IsDerivedTerminal(g.productions, c))
  }

  /** The assumptions the table builders rely on: a dictionary, disjoint symbol
      classes, no key 'e', every right-hand-side character declared, and the
      end marker absent from every right-hand side. */
  predicate WellFormed(g: Grammar) {
    Consistent(g) &&
    DistinctKeys(g.productions) &&
    Epsilon !in g.nonTerminals &&
    g.nonTerminals !! g.terminals &&
    forall i, j, k :: 0 <= i < |g.productions| && 0 <= j < |g.productions[i].alts| && 0 <= k < |g.productions[i].alts[j]| ==>
      DeclaredSymbol(g, g.productions[i].alts[j][k])
  }

  /** A character allowed in a right-hand side: declared, and not the end marker. */
  predicate DeclaredSymbol(g: Grammar, c: char) {
    c != EndMarker && (c in g.nonTerminals || c in g.terminals)
  }

  /** Looks a non-terminal up in the production map; a missing key gives no alternatives. */
  function ProductionsOf(ps: seq<Rule>, nt: char): (r: seq<seq<char>>)
    ensures !IsKey(ps, nt) ==> r == []
    ensures IsKey(ps, nt) ==>
      exists i :: 0 <= i < |ps| && ps[i].lhs == nt && r == ps[i].alts && (forall i' :: 0 <= i' < i ==> ps[i'].lhs != nt)
  {
    if ps == [] then []
    else if ps[0].lhs == nt then ps[0].alts
    else
      var r := ProductionsOf(ps[1..], nt);
      assert forall i :: 0 < i < |ps| ==> ps[i] == ps[1..][i - 1];
      r
  }

  /** With distinct keys, the lookup returns the alternatives of the one entry for `nt`. */
  lemma ProductionsOfKey(ps: seq<Rule>, i: nat)
    requires DistinctKeys(ps) && i < |ps|
    ensures ProductionsOf(ps, ps[i].lhs) == ps[i].alts
  {
    var i' :| 0 <= i' < |ps| && ps[i'].lhs == ps[i].lhs && ProductionsOf(ps, ps[i].lhs) == ps[i'].alts;
    assert i' == i;
  }

  /** Every (lhs, rhs) pair, key by key in map order, alternatives in order. */
  function AllProductions(ps: seq<Rule>): (r: seq<Production>)
    ensures |r| == TotalAlternatives(ps)
  {
    if ps == [] then []
    else (seq(|ps[0].alts|, j requires 0 <= j < |ps[0].alts| => (ps[0].lhs, ps[0].alts[j]))) + AllProductions(ps[1..])
  }

  /** The number of alternatives in the whole map, duplicates counted. */
  function TotalAlternatives(ps: seq<Rule>): nat {
    if ps == [] then 0 else |ps[0].alts| + TotalAlternatives(ps[1..])
  }

  /** Where the alternatives of key `i` start in `AllProductions`. */
  function Offset(ps: seq<Rule>, i: nat): nat
    requires i <= |ps|
  {
    if i == 0 then 0 else |ps[0].alts| + Offset(ps[1..], i - 1)
  }

  /** Alternative `j` of key `i` sits at position `Offset(ps, i) + j` of the list. */
  lemma {:induction false} AllProductionsAt(ps: seq<Rule>, i: nat, j: nat)
    requires i < |ps| && j < |ps[i].alts|
    ensures Offset(ps, i) + j < |AllProductions(ps)|
    ensures AllProductions(ps)[Offset(ps, i) + j] == (ps[i].lhs, ps[i].alts[j])
  {
    if i == 0 {
      assert AllProductions(ps)[j] == (ps[0].lhs, ps[0].alts[j]);
    } else {
      AllProductionsAt(ps[1..], i - 1, j);
      assert ps[1..][i - 1] == ps[i];
    }
  }

  /** Every listed production comes from some alternative of some key. */
  lemma {:induction false} AllProductionsFrom(ps: seq<Rule>, p: nat)
    requires p < |AllProductions(ps)|
    ensures exists i, j :: 0 <= i < |ps| && 0 <= j < |ps[i].alts| && AllProductions(ps)[p] == (ps[i].lhs, ps[i].alts[j])
  {
    if p < |ps[0].alts| {
      assert AllProductions(ps)[p] == (ps[0].lhs, ps[0].alts[p]);
    } else {
      AllProductionsFrom(ps[1..], p - |ps[0].alts|);
      var i, j :| 0 <= i < |ps[1..]| && 0 <= j < |ps[1..][i].alts| &&
        AllProductions(ps[1..])[p - |ps[0].alts|] == (ps[1..][i].lhs, ps[1..][i].alts[j]);
      assert ps[1..][i] == ps[i + 1];
    }
  }

  /** In a well-formed grammar every listed production has a declared
      left-hand side and a right-hand side of declared symbols. */
  lemma ProductionDeclared(g: Grammar, p: nat)
    requires WellFormed(g) && p < |AllProductions(g.productions)|
    ensures AllProductions(g.productions)[p].0 in g.nonTerminals
    ensures forall k :: 0 <= k < |AllProductions(g.productions)[p].1| ==>
      DeclaredSymbol(g, AllProductions(g.productions)[p].1[k])
  {
    AllProductionsFrom(g.productions, p);
    var i, j :| 0 <= i < |g.productions| && 0 <= j < |g.productions[i].alts| &&
      AllProductions(g.productions)[p] == (g.productions[i].lhs, g.productions[i].alts[j]);
    assert IsKey(g.productions, g.productions[i].lhs);
  }

  /** Terminals are never the epsilon marker, and the end marker is one of them. */
  lemma TerminalsNotEpsilon(g: Grammar)
    requires Consistent(g)
    ensures Epsilon !in g.terminals && EndMarker in g.terminals
  {
    assert IsDerivedTerminal(g.productions, EndMarker);
  }

  /** Whether `nt` has an empty alternative: a scan with an early return. */
  method HasEpsilonProduction(g: Grammar, nt: char) returns (b: bool)
    ensures b <==> [] in ProductionsOf(g.productions, nt)
  {
    var alts := ProductionsOf(g.productions, nt);
    var i := 0;
    while i < |alts|
      invariant 0 <= i <= |alts|
      invariant [] !in alts[..i]
    {
      if |alts[i]| == 0 {
        return true;
      }
      i := i + 1;
    }
    assert alts[..i] == alts;
    return false;
  }

  /** The token list both parsers read: the input's characters, with '$'
      appended unless it already ends with '$'. */
  function WithEndMarker(input: seq<char>): (tokens: seq<char>)
    ensures |input| > 0 && input[|input| - 1] == EndMarker ==> tokens == input
    ensures !(|input| > 0 && input[|input| - 1] == EndMarker) ==> tokens == input + [EndMarker]
    ensures |tokens| > 0 && tokens[|tokens| - 1] == EndMarker
  {
    if input == [] || input[|input| - 1] != EndMarker then input + [EndMarker] else input
  }
}
