/** The LL(1) parser: a predictive table built row by row from First and
    Follow sets (a second write into a cell is a conflict), and the
    table-driven stack machine that uses it. */
module LL1 {
  import opened Grammar
  import opened FirstFollow

  /** One row of the parsing table: lookahead terminal to right-hand side. */
  type Row = map<char, seq<char>>

  /** The parsing table: a row for every non-terminal. */
  type Table = map<char, Row>

  /** A parser: the grammar, the First and Follow sets it was given, and the
      table, absent when building it hit a conflict. */
  datatype LL1Parser = LL1Parser(grammar: Grammar, firstSets: SymbolSets, followSets: SymbolSets, parsingTable: Option<Table>)

  // ---------------------------------------------------------------------------
  // First of a right-hand side, as the table builder computes it

  /** Every symbol is a terminal or has a First entry. */
  predicate SymbolsKnown(terminals: set<char>, first: SymbolSets, s: seq<char>) {
    forall k :: 0 <= k < |s| ==> s[k] in terminals || s[k] in first
  }

  /** The builder's First of a sequence: a terminal is taken as it is and ends
      the scan; a non-terminal contributes its First set without 'e' and ends
      the scan unless it is nullable; 'e' when the scan runs off the end. */
  function LL1FirstOfSeq(terminals: set<char>, first: SymbolSets, s: seq<char>): set<char>
    requires SymbolsKnown(terminals, first, s)
  {
    if s == [] then {Epsilon}
    else if s[0] in terminals then {s[0]}
    else (first[s[0]] - {Epsilon}) + (if Epsilon in first[s[0]] then LL1FirstOfSeq(terminals, first, s[1..]) else {})
  }

  lemma LL1FirstOfSeqSuffix(terminals: set<char>, first: SymbolSets, s: seq<char>, k: nat)
    requires SymbolsKnown(terminals, first, s) && k < |s|
    ensures SymbolsKnown(terminals, first, s[k..]) && SymbolsKnown(terminals, first, s[k + 1..])
    ensures s[k..][0] == s[k] && s[k..][1..] == s[k + 1..]
  {
  }

  /** The builder's First of a sequence, as a loop with an early stop. */
  method FirstOfSequence(g: Grammar, first: SymbolSets, s: seq<char>) returns (result: set<char>)
    requires SymbolsKnown(g.terminals, first, s)
    ensures result == LL1FirstOfSeq(g.terminals, first, s)
  {
    if s == [] {
      return {Epsilon};
    }
    result := {};
    var allNullable := true;
    var k := 0;
    while k < |s|
      invariant 0 <= k <= |s|
      invariant allNullable
      invariant SymbolsKnown(g.terminals, first, s[k..])
      invariant result + LL1FirstOfSeq(g.terminals, first, s[k..]) == LL1FirstOfSeq(g.terminals, first, s)
    {
      var symbol := s[k];
      LL1FirstOfSeqSuffix(g.terminals, first, s, k);
      if symbol in g.terminals {
        result := result + {symbol};
        allNullable := false;
        break;
      }
      result := result + (first[symbol] - {Epsilon});
      if Epsilon !in first[symbol] {
        allNullable := false;
        break;
      }
      k := k + 1;
    }
    if allNullable {
      result := result + {Epsilon};
    }
  }

  /** When every terminal's First set is itself and 'e' is not a terminal, the
      builder's First of a sequence is the First of that sequence. */
  lemma {:induction false} LL1FirstOfSeqAgrees(g: Grammar, first: SymbolSets, s: seq<char>)
    requires TerminalsFixed(g, first) && Epsilon !in g.terminals
    requires SymbolsKnown(g.terminals, first, s)
    ensures Covers(first, s)
    ensures LL1FirstOfSeq(g.terminals, first, s) == FirstOfSeq(first, s)
  {
    if s != [] {
      LL1FirstOfSeqSuffix(g.terminals, first, s, 0);
      LL1FirstOfSeqAgrees(g, first, s[1..]);
      assert forall j :: 0 < j < |s| ==> s[j] == s[1..][j - 1];
      if s[0] in g.terminals {
        assert first[s[0]] == {s[0]};
        assert first[s[0]] - {Epsilon} == {s[0]};
      }
    }
  }

  // ---------------------------------------------------------------------------
  // What each alternative claims in its row

  /** An alternative's claim on the cells of its non-terminal's row. */
  datatype Claim = Claim(rhs: seq<char>, lookaheads: set<char>)

  /** What the builder needs to look up for `lhs -> rhs`. */
  predicate ClaimDefined(terminals: set<char>, first: SymbolSets, follow: SymbolSets, lhs: char, rhs: seq<char>) {
    SymbolsKnown(terminals, first, rhs) &&
    (Epsilon in LL1FirstOfSeq(terminals, first, rhs) ==> lhs in follow)
  }

  /** The two claims of `lhs -> rhs`, in the order they are written: its First
      set without 'e', then Follow(lhs) when the alternative is nullable. */
  function AltClaims(terminals: set<char>, first: SymbolSets, follow: SymbolSets, lhs: char, rhs: seq<char>): seq<Claim>
    requires ClaimDefined(terminals, first, follow, lhs, rhs)
  {
    var f := LL1FirstOfSeq(terminals, first, rhs);
    [Claim(rhs, f - {Epsilon}), Claim(rhs, if Epsilon in f then follow[lhs] else {})]
  }

  /** The claims of a list of alternatives of `lhs`, in order. */
  function RowClaims(terminals: set<char>, first: SymbolSets, follow: SymbolSets, lhs: char, alts: seq<seq<char>>): (cs: seq<Claim>)
    requires forall a :: 0 <= a < |alts| ==> ClaimDefined(terminals, first, follow, lhs, alts[a])
    ensures |cs| == 2 * |alts|
  {
    if alts == [] then []
    else RowClaims(terminals, first, follow, lhs, alts[..|alts| - 1]) + AltClaims(terminals, first, follow, lhs, alts[|alts| - 1])
  }

  /** The claims of alternative `a` sit at positions 2a and 2a + 1. */
  lemma {:induction false} RowClaimsAt(terminals: set<char>, first: SymbolSets, follow: SymbolSets, lhs: char, alts: seq<seq<char>>, a: nat)
    requires forall a' :: 0 <= a' < |alts| ==> ClaimDefined(terminals, first, follow, lhs, alts[a'])
    requires a < |alts|
    ensures RowClaims(terminals, first, follow, lhs, alts)[2 * a] == AltClaims(terminals, first, follow, lhs, alts[a])[0]
    ensures RowClaims(terminals, first, follow, lhs, alts)[2 * a + 1] == AltClaims(terminals, first, follow, lhs, alts[a])[1]
  {
    if a < |alts| - 1 {
      RowClaimsAt(terminals, first, follow, lhs, alts[..|alts| - 1], a);
    }
  }

  /** The lookaheads claimed so far. */
  function Claimed(cs: seq<Claim>): set<char> {
    if cs == [] then {} else Claimed(cs[..|cs| - 1]) + cs[|cs| - 1].lookaheads
  }

  /** Writing the claims in order meets a cell that is already written. */
  predicate Conflict(cs: seq<Claim>) {
    cs != [] && (Conflict(cs[..|cs| - 1]) || !(cs[|cs| - 1].lookaheads !! Claimed(cs[..|cs| - 1])))
  }

  /** The cells a claim writes. */
  function ClaimRow(c: Claim): (r: Row)
    ensures r.Keys == c.lookaheads
    ensures forall t :: t in r ==> r[t] == c.rhs
  {
    map t | t in c.lookaheads :: c.rhs
  }

  /** The row the claims write, in order. */
  function RowOf(cs: seq<Claim>): (r: Row)
    ensures r.Keys == Claimed(cs)
  {
    if cs == [] then map[] else RowOf(cs[..|cs| - 1]) + ClaimRow(cs[|cs| - 1])
  }

  /** A lookahead is claimed exactly when some claim names it. */
  lemma {:induction false} ClaimedIff(cs: seq<Claim>, t: char)
    ensures t in Claimed(cs) <==> exists i :: 0 <= i < |cs| && t in cs[i].lookaheads
  {
    if cs != [] {
      var init := cs[..|cs| - 1];
      ClaimedIff(init, t);
      if t in Claimed(init) {
        var i :| 0 <= i < |init| && t in init[i].lookaheads;
        assert cs[i] == init[i];
      }
      if exists i :: 0 <= i < |cs| && t in cs[i].lookaheads {
        var i :| 0 <= i < |cs| && t in cs[i].lookaheads;
        if i < |init| {
          assert init[i] == cs[i];
        }
      }
    }
  }

  /** A conflict is exactly two different claims sharing a lookahead, so it
      does not depend on the order the claims are written in. */
  lemma {:induction false} ConflictPairwise(cs: seq<Claim>)
    ensures Conflict(cs) <==> exists i, j :: 0 <= i < j < |cs| && !(cs[i].lookaheads !! cs[j].lookaheads)
  {
    if cs != [] {
      var init := cs[..|cs| - 1];
      var last := |cs| - 1;
      ConflictPairwise(init);
      if Conflict(init) {
        var i, j :| 0 <= i < j < |init| && !(init[i].lookaheads !! init[j].lookaheads);
        assert init[i] == cs[i] && init[j] == cs[j];
      } else if !(cs[last].lookaheads !! Claimed(init)) {
        var t :| t in cs[last].lookaheads && t in Claimed(init);
        ClaimedIff(init, t);
        var i :| 0 <= i < |init| && t in init[i].lookaheads;
        assert init[i] == cs[i];
        assert !(cs[i].lookaheads !! cs[last].lookaheads);
      }
      if exists i, j :: 0 <= i < j < |cs| && !(cs[i].lookaheads !! cs[j].lookaheads) {
        var i, j :| 0 <= i < j < |cs| && !(cs[i].lookaheads !! cs[j].lookaheads);
        if j < last {
          assert init[i] == cs[i] && init[j] == cs[j];
        } else {
          var t :| t in cs[i].lookaheads && t in cs[j].lookaheads;
          assert init[i] == cs[i];
          ClaimedIff(init, t);
        }
      }
    }
  }

  /** Without a conflict, every claimed cell holds its claiming alternative. */
  lemma {:induction false} RowOfEntry(cs: seq<Claim>, i: nat, t: char)
    requires !Conflict(cs) && i < |cs| && t in cs[i].lookaheads
    ensures t in RowOf(cs) && RowOf(cs)[t] == cs[i].rhs
  {
    var init := cs[..|cs| - 1];
    var last := cs[|cs| - 1];
    if i < |cs| - 1 {
      assert init[i] == cs[i];
      RowOfEntry(init, i, t);
      assert t !in last.lookaheads;
    }
  }

  /** Writing one more claim, by definition. */
  lemma ConflictSnoc(cs: seq<Claim>, c: Claim)
    ensures Conflict(cs + [c]) <==> Conflict(cs) || !(c.lookaheads !! RowOf(cs).Keys)
    ensures RowOf(cs + [c]) == RowOf(cs) + ClaimRow(c)
  {
    assert (cs + [c])[..|cs|] == cs;
  }

  /** A claim with no lookaheads writes nothing and cannot conflict. */
  lemma EmptyClaim(cs: seq<Claim>, c: Claim)
    requires c.lookaheads == {}
    ensures Conflict(cs + [c]) <==> Conflict(cs)
    ensures RowOf(cs + [c]) == RowOf(cs)
  {
    ConflictSnoc(cs, c);
    assert ClaimRow(c) == map[];
    assert RowOf(cs) + ClaimRow(c) == RowOf(cs);
  }

  /** A conflict among some claims stays a conflict once more are written. */
  lemma {:induction false} ConflictPrefix(cs: seq<Claim>, k: nat)
    requires k <= |cs| && Conflict(cs[..k])
    ensures Conflict(cs)
  {
    if k < |cs| {
      assert cs[..|cs| - 1][..k] == cs[..k];
      ConflictPrefix(cs[..|cs| - 1], k);
    } else {
      assert cs[..k] == cs;
    }
  }

  lemma {:induction false} RowClaimsPrefix(terminals: set<char>, first: SymbolSets, follow: SymbolSets, lhs: char, alts: seq<seq<char>>, a: nat)
    requires forall a' :: 0 <= a' < |alts| ==> ClaimDefined(terminals, first, follow, lhs, alts[a'])
    requires a <= |alts|
    ensures RowClaims(terminals, first, follow, lhs, alts[..a]) == RowClaims(terminals, first, follow, lhs, alts)[..2 * a]
  {
    if a < |alts| {
      assert alts[..|alts| - 1][..a] == alts[..a];
      RowClaimsPrefix(terminals, first, follow, lhs, alts[..|alts| - 1], a);
    } else {
      assert alts[..a] == alts;
    }
  }

  lemma RowClaimsSnoc(terminals: set<char>, first: SymbolSets, follow: SymbolSets, lhs: char, alts: seq<seq<char>>, a: nat)
    requires forall a' :: 0 <= a' < |alts| ==> ClaimDefined(terminals, first, follow, lhs, alts[a'])
    requires a < |alts|
    ensures RowClaims(terminals, first, follow, lhs, alts[..a + 1]) ==
      RowClaims(terminals, first, follow, lhs, alts[..a]) + AltClaims(terminals, first, follow, lhs, alts[a])
  {
    assert alts[..a + 1][..a] == alts[..a];
  }

  // ---------------------------------------------------------------------------
  // Building the table

  /** The alternatives of `lhs`, as the builder reads them from the grammar. */
  function Alternatives(g: Grammar, lhs: char): seq<seq<char>> {
    ProductionsOf(g.productions, lhs)
  }

  /** Everything the builder looks up for the row of `lhs` is there. */
  predicate RowDefined(g: Grammar, first: SymbolSets, follow: SymbolSets, lhs: char) {
    forall a :: 0 <= a < |Alternatives(g, lhs)| ==> ClaimDefined(g.terminals, first, follow, lhs, Alternatives(g, lhs)[a])
  }

  /** Everything the builder looks up for every row is there. */
  predicate TableDefined(g: Grammar, first: SymbolSets, follow: SymbolSets) {
    forall lhs :: lhs in g.nonTerminals ==> RowDefined(g, first, follow, lhs)
  }

  /** The claims on the row of `lhs`. */
  function ClaimsOf(g: Grammar, first: SymbolSets, follow: SymbolSets, lhs: char): seq<Claim>
    requires RowDefined(g, first, follow, lhs)
  {
    RowClaims(g.terminals, first, follow, lhs, Alternatives(g, lhs))
  }

  /** Some row of the table is claimed twice in one cell. */
  predicate TableConflict(g: Grammar, first: SymbolSets, follow: SymbolSets)
    requires TableDefined(g, first, follow)
  {
    exists lhs :: lhs in g.nonTerminals && Conflict(ClaimsOf(g, first, follow, lhs))
  }

  /** Writes one claim into a row, one lookahead at a time in any order, and
      stops at the first cell that is already written. */
  method WriteClaim(row: Row, c: Claim) returns (row': Row, ok: bool)
    ensures ok <==> c.lookaheads !! row.Keys
    ensures ok ==> row' == row + ClaimRow(c)
  {
    row' := row;
    var rest := c.lookaheads;
    while rest != {}
      invariant rest <= c.lookaheads
      invariant (c.lookaheads - rest) !! row.Keys
      invariant row' == row + ClaimRow(Claim(c.rhs, c.lookaheads - rest))
      decreases rest
    {
      var t :| t in rest;
      if t in row' {
        assert t in row;
        return row', false;
      }
      row' := row'[t := c.rhs];
      rest := rest - {t};
    }
    assert c.lookaheads - rest == c.lookaheads;
    ok := true;
  }

  /** Writes the two claims of `lhs -> rhs` into a row holding the earlier
      claims: the First set of `rhs` without 'e', then Follow(lhs) when `rhs`
      is nullable; fails on the first cell already written. */
  method WriteAlternative(g: Grammar, first: SymbolSets, follow: SymbolSets, lhs: char, rhs: seq<char>, ghost done: seq<Claim>, row: Row)
    returns (row': Row, ok: bool)
    requires ClaimDefined(g.terminals, first, follow, lhs, rhs)
    requires !Conflict(done) && row == RowOf(done)
    ensures ok <==> !Conflict(done + AltClaims(g.terminals, first, follow, lhs, rhs))
    ensures ok ==> row' == RowOf(done + AltClaims(g.terminals, first, follow, lhs, rhs))
  {
    var f := FirstOfSequence(g, first, rhs);
    var c1 := Claim(rhs, f - {Epsilon});
    var c2 := Claim(rhs, if Epsilon in f then follow[lhs] else {});
    assert done + AltClaims(g.terminals, first, follow, lhs, rhs) == (done + [c1]) + [c2];
    ConflictSnoc(done, c1);
    row', ok := WriteClaim(row, c1);
    if !ok {
      assert ((done + [c1]) + [c2])[..|done| + 1] == done + [c1];
      ConflictPrefix((done + [c1]) + [c2], |done| + 1);
      return;
    }
    ghost var mid := done + [c1];
    ghost var row1 := row';
    assert !Conflict(mid) && row1 == RowOf(mid);
    ConflictSnoc(mid, c2);
    if Epsilon in f {
      row', ok := WriteClaim(row', c2);
      assert ok <==> !Conflict(mid + [c2]);
      assert ok ==> row' == RowOf(mid + [c2]);
    } else {
      EmptyClaim(mid, c2);
    }
  }

  /** A conflict among the claims of the first `a + 1` alternatives is a
      conflict of the whole row. */
  lemma {:induction false} RowConflictSpreads(terminals: set<char>, first: SymbolSets, follow: SymbolSets, lhs: char, alts: seq<seq<char>>, a: nat)
    requires forall a' :: 0 <= a' < |alts| ==> ClaimDefined(terminals, first, follow, lhs, alts[a'])
    requires a < |alts|
    requires Conflict(RowClaims(terminals, first, follow, lhs, alts[..a + 1]))
    ensures Conflict(RowClaims(terminals, first, follow, lhs, alts))
  {
    RowClaimsPrefix(terminals, first, follow, lhs, alts, a + 1);
    ConflictPrefix(RowClaims(terminals, first, follow, lhs, alts), 2 * a + 2);
  }

  /** Fills the row of `lhs` from its alternatives in order; fails on the
      first conflict. */
  method BuildRow(g: Grammar, first: SymbolSets, follow: SymbolSets, lhs: char) returns (row: Row, ok: bool)
    requires RowDefined(g, first, follow, lhs)
    ensures ok <==> !Conflict(ClaimsOf(g, first, follow, lhs))
    ensures ok ==> row == RowOf(ClaimsOf(g, first, follow, lhs))
  {
    var alts := Alternatives(g, lhs);
    row := map[];
    var a := 0;
    while a < |alts|
      invariant a <= |alts|
      invariant !Conflict(RowClaims(g.terminals, first, follow, lhs, alts[..a]))
      invariant row == RowOf(RowClaims(g.terminals, first, follow, lhs, alts[..a]))
    {
      ghost var done := RowClaims(g.terminals, first, follow, lhs, alts[..a]);
      ghost var next := RowClaims(g.terminals, first, follow, lhs, alts[..a + 1]);
      RowClaimsSnoc(g.terminals, first, follow, lhs, alts, a);
      assert next == done + AltClaims(g.terminals, first, follow, lhs, alts[a]);
      row, ok := WriteAlternative(g, first, follow, lhs, alts[a], done, row);
      if !ok {
        RowConflictSpreads(g.terminals, first, follow, lhs, alts, a);
        return;
      }
      a := a + 1;
    }
    assert alts[..a] == alts;
    ok := true;
  }

  /** The table builder: an empty row for every non-terminal, then the rows
      filled one non-terminal at a time in any order; no table on a conflict. */
  method BuildParsingTable(g: Grammar, first: SymbolSets, follow: SymbolSets) returns (table: Option<Table>)
    requires TableDefined(g, first, follow)
    ensures table.None? <==> TableConflict(g, first, follow)
    ensures table.Some? ==> table.value.Keys == g.nonTerminals
    ensures table.Some? ==> forall lhs :: lhs in g.nonTerminals ==> table.value[lhs] == RowOf(ClaimsOf(g, first, follow, lhs))
  {
    var t: Table := map[];
    var rest := g.nonTerminals;
    while rest != {}
      invariant rest <= g.nonTerminals
      invariant t.Keys == g.nonTerminals - rest
      decreases rest
    {
      var nt :| nt in rest;
      t := t[nt := map[]];
      rest := rest - {nt};
    }
    rest := g.nonTerminals;
    while rest != {}
      invariant rest <= g.nonTerminals
      invariant t.Keys == g.nonTerminals
      invariant forall lhs :: lhs in g.nonTerminals - rest ==>
        !Conflict(ClaimsOf(g, first, follow, lhs)) && t[lhs] == RowOf(ClaimsOf(g, first, follow, lhs))
      decreases rest
    {
      var lhs :| lhs in rest;
      var row, ok := BuildRow(g, first, follow, lhs);
      if !ok {
        return None;
      }
      t := t[lhs := row];
      rest := rest - {lhs};
    }
    return Some(t);
  }

  // ---------------------------------------------------------------------------
  // What the table holds

  /** `lhs -> rhs` is the entry for lookahead `t`: `t` is in First(rhs) and is
      not 'e', or `rhs` is nullable and `t` is in Follow(lhs). */
  predicate Feeds(g: Grammar, first: SymbolSets, follow: SymbolSets, lhs: char, rhs: seq<char>, t: char)
    requires ClaimDefined(g.terminals, first, follow, lhs, rhs)
  {
    var f := LL1FirstOfSeq(g.terminals, first, rhs);
    (t in f && t != Epsilon) || (Epsilon in f && t in follow[lhs])
  }

  /** On success, alternative `a` of `lhs` sits in every cell of First(rhs)
      without 'e', and, when `rhs` is nullable, in every cell of Follow(lhs). */
  lemma RowCells(g: Grammar, first: SymbolSets, follow: SymbolSets, lhs: char, a: nat, t: char)
    requires RowDefined(g, first, follow, lhs) && !Conflict(ClaimsOf(g, first, follow, lhs))
    requires a < |Alternatives(g, lhs)|
    requires Feeds(g, first, follow, lhs, Alternatives(g, lhs)[a], t)
    ensures t in RowOf(ClaimsOf(g, first, follow, lhs))
    ensures RowOf(ClaimsOf(g, first, follow, lhs))[t] == Alternatives(g, lhs)[a]
  {
    var alts := Alternatives(g, lhs);
    RowClaimsAt(g.terminals, first, follow, lhs, alts, a);
    var cs := ClaimsOf(g, first, follow, lhs);
    if t in cs[2 * a].lookaheads {
      RowOfEntry(cs, 2 * a, t);
    } else {
      RowOfEntry(cs, 2 * a + 1, t);
    }
  }

  /** Every filled cell of a row comes from some alternative of `lhs`, through
      its First set or, for a nullable alternative, through Follow(lhs). */
  lemma RowCellsClaimed(g: Grammar, first: SymbolSets, follow: SymbolSets, lhs: char, t: char)
    requires RowDefined(g, first, follow, lhs)
    requires t in RowOf(ClaimsOf(g, first, follow, lhs))
    ensures exists a :: 0 <= a < |Alternatives(g, lhs)| && Feeds(g, first, follow, lhs, Alternatives(g, lhs)[a], t)
  {
    var alts := Alternatives(g, lhs);
    var cs := ClaimsOf(g, first, follow, lhs);
    ClaimedIff(cs, t);
    var i :| 0 <= i < |cs| && t in cs[i].lookaheads;
    var a := i / 2;
    RowClaimsAt(g.terminals, first, follow, lhs, alts, a);
    assert i == 2 * a || i == 2 * a + 1;
  }

  /** A nullable alternative whose First set meets Follow(lhs) conflicts with itself. */
  lemma SelfOverlapConflicts(g: Grammar, first: SymbolSets, follow: SymbolSets, lhs: char, a: nat, t: char)
    requires RowDefined(g, first, follow, lhs) && a < |Alternatives(g, lhs)|
    requires var f := LL1FirstOfSeq(g.terminals, first, Alternatives(g, lhs)[a]);
      Epsilon in f && t in f && t != Epsilon && t in follow[lhs]
    ensures Conflict(ClaimsOf(g, first, follow, lhs))
  {
    var cs := ClaimsOf(g, first, follow, lhs);
    RowClaimsAt(g.terminals, first, follow, lhs, Alternatives(g, lhs), a);
    assert t in cs[2 * a].lookaheads && t in cs[2 * a + 1].lookaheads;
    ConflictPairwise(cs);
  }

  /** Two copies of the same alternative conflict as soon as either claims a cell. */
  lemma DuplicateAlternativeConflicts(g: Grammar, first: SymbolSets, follow: SymbolSets, lhs: char, a: nat, b: nat, t: char)
    requires RowDefined(g, first, follow, lhs)
    requires a < b < |Alternatives(g, lhs)| && Alternatives(g, lhs)[a] == Alternatives(g, lhs)[b]
    requires Feeds(g, first, follow, lhs, Alternatives(g, lhs)[a], t)
    ensures Conflict(ClaimsOf(g, first, follow, lhs))
  {
    var alts := Alternatives(g, lhs);
    var cs := ClaimsOf(g, first, follow, lhs);
    RowClaimsAt(g.terminals, first, follow, lhs, alts, a);
    RowClaimsAt(g.terminals, first, follow, lhs, alts, b);
    if t in cs[2 * a].lookaheads {
      assert t in cs[2 * b].lookaheads;
    } else {
      assert t in cs[2 * a + 1].lookaheads && t in cs[2 * b + 1].lookaheads;
    }
    ConflictPairwise(cs);
  }

  /** In a well-formed grammar every alternative is made of declared symbols. */
  lemma AlternativeDeclared(g: Grammar, lhs: char, a: nat)
    requires WellFormed(g) && lhs in g.nonTerminals && a < |Alternatives(g, lhs)|
    ensures forall k :: 0 <= k < |Alternatives(g, lhs)[a]| ==> DeclaredSymbol(g, Alternatives(g, lhs)[a][k])
  {
    assert IsKey(g.productions, lhs);
    var i :| 0 <= i < |g.productions| && g.productions[i].lhs == lhs && Alternatives(g, lhs) == g.productions[i].alts;
  }

  /** With the First and Follow sets of a well-formed grammar, every lookup of
      the builder succeeds, and its First of a sequence is the First of that
      sequence. */
  lemma ComputedSetsDefineTable(g: Grammar, first: SymbolSets, follow: SymbolSets)
    requires WellFormed(g) && IsFirstSets(g, first) && follow.Keys == g.nonTerminals
    ensures TableDefined(g, first, follow)
    ensures forall lhs, a :: lhs in g.nonTerminals && 0 <= a < |Alternatives(g, lhs)| ==>
      Covers(first, Alternatives(g, lhs)[a]) &&
      LL1FirstOfSeq(g.terminals, first, Alternatives(g, lhs)[a]) == FirstOfSeq(first, Alternatives(g, lhs)[a])
  {
    TerminalsNotEpsilon(g);
    forall lhs, a | lhs in g.nonTerminals && 0 <= a < |Alternatives(g, lhs)|
      ensures ClaimDefined(g.terminals, first, follow, lhs, Alternatives(g, lhs)[a])
      ensures Covers(first, Alternatives(g, lhs)[a])
      ensures LL1FirstOfSeq(g.terminals, first, Alternatives(g, lhs)[a]) == FirstOfSeq(first, Alternatives(g, lhs)[a])
    {
      AlternativeDeclared(g, lhs, a);
      LL1FirstOfSeqAgrees(g, first, Alternatives(g, lhs)[a]);
    }
  }

  // ---------------------------------------------------------------------------
  // The parser object

  /** The constructor: builds the table, and keeps none on a conflict. */
  method NewLL1Parser(g: Grammar, first: SymbolSets, follow: SymbolSets) returns (p: LL1Parser)
    requires TableDefined(g, first, follow)
    ensures p.grammar == g && p.firstSets == first && p.followSets == follow
    ensures IsLL1(p) <==> !TableConflict(g, first, follow)
    ensures IsLL1(p) ==> p.parsingTable.value.Keys == g.nonTerminals
    ensures IsLL1(p) ==> forall lhs :: lhs in g.nonTerminals ==> p.parsingTable.value[lhs] == RowOf(ClaimsOf(g, first, follow, lhs))
  {
    var table := BuildParsingTable(g, first, follow);
    p := LL1Parser(g, first, follow, table);
  }

  /** The grammar is LL(1) when the table was built without a conflict. */
  predicate IsLL1(p: LL1Parser) {
    p.parsingTable.Some?
  }

  // ---------------------------------------------------------------------------
  // The predictive driver

  /** `s` backwards. */
  function Reversed(s: seq<char>): (r: seq<char>)
    ensures |r| == |s|
    ensures forall k :: 0 <= k < |s| ==> r[k] == s[|s| - 1 - k]
  {
    if s == [] then [] else Reversed(s[1..]) + [s[0]]
  }

  /** The driver's state: the stack (its top is the last element) and the cursor. */
  datatype Config = Config(stack: seq<char>, pos: nat)

  /** The current input symbol; '$' once the cursor is past the tokens. */
  function Lookahead(tokens: seq<char>, i: nat): char {
    if i < |tokens| then tokens[i] else EndMarker
  }

  /** The outcome of one step. */
  datatype Step = Next(config: Config) | Reject

  /** One step of the driver: pop the top; a terminal or '$' must match the
      current symbol and advances the cursor; a non-terminal is replaced by
      the table's right-hand side, pushed in reverse; anything else rejects. */
  function StepLL1(terminals: set<char>, table: Table, tokens: seq<char>, c: Config): Step
    requires c.stack != []
  {
    var top := c.stack[|c.stack| - 1];
    var rest := c.stack[..|c.stack| - 1];
    var symbol := Lookahead(tokens, c.pos);
    if top in terminals || top == EndMarker then
      if top == symbol then Next(Config(rest, c.pos + 1)) else Reject
    else if top in table && symbol in table[top] then
      Next(Config(rest + Reversed(table[top][symbol]), c.pos))
    else Reject
  }

  /** The driver's verdict once the stack is empty: all tokens consumed, or
      only the final '$' left. */
  predicate Accepting(tokens: seq<char>, i: nat) {
    i == |tokens| || (i == |tokens| - 1 && tokens[i] == EndMarker)
  }

  /** The driver run for at most `fuel` steps: `None` when the fuel runs out
      with the stack still non-empty. */
  function RunLL1(terminals: set<char>, table: Table, tokens: seq<char>, c: Config, fuel: nat): Option<bool>
    decreases fuel
  {
    if c.stack == [] then Some(Accepting(tokens, c.pos))
    else if fuel == 0 then None
    else match StepLL1(terminals, table, tokens, c)
      case Reject => Some(false)
      case Next(c') => RunLL1(terminals, table, tokens, c', fuel - 1)
  }

  /** Pushes a right-hand side from its last symbol to its first, so that
      its first symbol ends on top. */
  method PushReversed(stack: seq<char>, production: seq<char>) returns (stack': seq<char>)
    ensures stack' == stack + Reversed(production)
  {
    stack' := stack;
    var k := |production|;
    while k > 0
      invariant 0 <= k <= |production|
      invariant stack' == stack + Reversed(production[k..])
    {
      k := k - 1;
      assert production[k..][1..] == production[k + 1..];
      stack' := stack' + [production[k]];
    }
    assert production[0..] == production;
  }

  /** The driver: no table means rejection; otherwise the stack starts as
      ['$', start] and the loop runs until the stack is empty, a step
      rejects, or the fuel runs out. A grammar without a start symbol has no
      table row for the missing symbol, so its first step rejects. */
  method Parse(p: LL1Parser, input: seq<char>, fuel: nat) returns (r: Option<bool>)
    ensures !IsLL1(p) ==> r == Some(false)
    ensures IsLL1(p) && p.grammar.startSymbol.None? && fuel > 0 ==> r == Some(false)
    ensures IsLL1(p) && p.grammar.startSymbol.Some? ==>
      r == RunLL1(p.grammar.terminals, p.parsingTable.value, WithEndMarker(input),
                  Config([EndMarker, p.grammar.startSymbol.value], 0), fuel)
  {
    if !IsLL1(p) {
      return Some(false);
    }
    var table := p.parsingTable.value;
    var terminals := p.grammar.terminals;
    var tokens := input;
    if |tokens| == 0 || tokens[|tokens| - 1] != EndMarker {
      tokens := tokens + [EndMarker];
    }
    if p.grammar.startSymbol.None? {
      return if fuel == 0 then None else Some(false);
    }
    var stack := [EndMarker, p.grammar.startSymbol.value];
    var i := 0;
    var steps := fuel;
    while stack != []
      invariant RunLL1(terminals, table, tokens, Config(stack, i), steps) ==
        RunLL1(terminals, table, tokens, Config([EndMarker, p.grammar.startSymbol.value], 0), fuel)
      decreases steps
    {
      if steps == 0 {
        return None;
      }
      ghost var before := Config(stack, i);
      var top := stack[|stack| - 1];
      stack := stack[..|stack| - 1];
      var symbol := if i < |tokens| then tokens[i] else EndMarker;
      if top in terminals || top == EndMarker {
        if top == symbol {
          i := i + 1;
        } else {
          return Some(false);
        }
      } else if top in table && symbol in table[top] {
        stack := PushReversed(stack, table[top][symbol]);
      } else {
        return Some(false);
      }
      assert StepLL1(terminals, table, tokens, before) == Next(Config(stack, i));
      steps := steps - 1;
    }
    return Some(Accepting(tokens, i));
  }

  /** A verdict reached with some fuel is the verdict with any more fuel:
      the fuel bound only cuts off runs, never changes their outcome. */
  lemma {:induction false} RunFuelMonotone(terminals: set<char>, table: Table, tokens: seq<char>, c: Config, fuel: nat, more: nat)
    requires fuel <= more && RunLL1(terminals, table, tokens, c, fuel).Some?
    ensures RunLL1(terminals, table, tokens, c, more) == RunLL1(terminals, table, tokens, c, fuel)
    decreases fuel
  {
    if c.stack != [] {
      match StepLL1(terminals, table, tokens, c)
      case Reject =>
      case Next(c') => RunFuelMonotone(terminals, table, tokens, c', fuel - 1, more - 1);
    }
  }

  /** Expanding a non-terminal: the right-hand side replaces it with its first
      symbol on top and the rest of the stack untouched; an empty right-hand
      side only pops. The cursor stays. */
  lemma StepExpandTop(terminals: set<char>, table: Table, tokens: seq<char>, c: Config)
    requires c.stack != []
    requires var top := c.stack[|c.stack| - 1];
      top !in terminals && top != EndMarker && top in table && Lookahead(tokens, c.pos) in table[top]
    ensures var top := c.stack[|c.stack| - 1];
      var rhs := table[top][Lookahead(tokens, c.pos)];
      var c' := StepLL1(terminals, table, tokens, c).config;
      StepLL1(terminals, table, tokens, c).Next? &&
      c'.pos == c.pos &&
      |c'.stack| == |c.stack| - 1 + |rhs| &&
      c'.stack[..|c.stack| - 1] == c.stack[..|c.stack| - 1] &&
      (rhs != [] ==> c'.stack[|c'.stack| - 1] == rhs[0])
  {
  }

  /** A terminal or '$' on top: the step rejects exactly when it differs from
      the current symbol, and otherwise pops it and advances the cursor by one. */
  lemma StepMatch(terminals: set<char>, table: Table, tokens: seq<char>, c: Config)
    requires c.stack != []
    requires c.stack[|c.stack| - 1] in terminals || c.stack[|c.stack| - 1] == EndMarker
    ensures StepLL1(terminals, table, tokens, c).Reject? <==> c.stack[|c.stack| - 1] != Lookahead(tokens, c.pos)
    ensures StepLL1(terminals, table, tokens, c).Next? ==>
      StepLL1(terminals, table, tokens, c).config == Config(c.stack[..|c.stack| - 1], c.pos + 1)
  {
  }

  /** On success every filled cell of the row of `lhs` holds one of the
      alternatives of `lhs`, one that claims that cell: the driver only ever
      expands a non-terminal by one of its own productions. */
  lemma RowEntryIsAlternative(g: Grammar, first: SymbolSets, follow: SymbolSets, lhs: char, t: char)
    requires RowDefined(g, first, follow, lhs) && !Conflict(ClaimsOf(g, first, follow, lhs))
    requires t in RowOf(ClaimsOf(g, first, follow, lhs))
    ensures exists a :: (0 <= a < |Alternatives(g, lhs)| &&
      Feeds(g, first, follow, lhs, Alternatives(g, lhs)[a], t) &&
      RowOf(ClaimsOf(g, first, follow, lhs))[t] == Alternatives(g, lhs)[a])
  {
    RowCellsClaimed(g, first, follow, lhs, t);
    var a :| 0 <= a < |Alternatives(g, lhs)| && Feeds(g, first, follow, lhs, Alternatives(g, lhs)[a], t);
    RowCells(g, first, follow, lhs, a, t);
  }
}
