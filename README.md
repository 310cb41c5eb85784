# LL(1) and SLR(1) grammar classifier, modelled in Dafny

The repository reads a context-free grammar whose symbols are single characters. It computes First and Follow sets, decides whether the grammar is LL(1) and whether it is SLR(1), and runs the matching table-driven recogniser on input strings.

This project models that kernel in five modules:

- `Grammar` (`grammar.dfy`) is the grammar object:
  - the production map is an insertion-ordered list of rules with distinct left-hand sides;
  - the start symbol is the first key, and the non-terminals are the keys;
  - the terminals are every right-hand-side character that is neither `e` nor upper case, plus `$`;
  - the alternative `e` becomes the empty right-hand side.
- `FirstFollow` (`first_follow.dfy`) holds the two `while changed` fixed-point computations over maps of sets, and First of a sequence. Each is a method proved against a functional specification. The results are proved to be closed under the First and Follow rules. Both are proved to be the least such sets, so they are unique and independent of iteration order.
- `LL1` (`ll1_parser.dfy`) holds:
  - the predictive table, built row by row; a second write into a cell aborts the build;
  - a characterisation of the outcome: the build fails exactly when two claims on one row overlap, whatever the order of the writes;
  - the stack-machine driver, specified by a step function run under a fuel bound.
- `LR0` (`lr0.dfy`) holds:
  - LR(0) items, with the augmented start `S'` as its own constructor `Aug`;
  - closure as the least closed superset, and goto;
  - the canonical collection, built by a FIFO worklist and deduplicated by set equality.
- `SLR1` (`slr1_parser.dfy`) holds:
  - the transitions of the automaton;
  - the ACTION and GOTO tables, filled state by state; a second write into a cell is a conflict;
  - the shift-reduce driver over a stack of interleaved states and symbols.

Conflicts are `None` results rather than exceptions. Python's set iteration is modelled by arbitrary choice (`:|`), and every property about a built object holds for every choice. The parse loops take a `fuel` bound and return `None` when it runs out.

## Model

| member | source | states |
|---|---|---|
| Grammar.NormalizeAlt | grammar.py:51-57 | `e` becomes the empty right-hand side; any other alternative is kept character by character |
| Grammar.NormalizeProductions | grammar.py:41-59 | each left-hand side keeps its alternatives in order and number, each one normalised |
| Grammar.NormalizeKeepsKeys | grammar.py:46-59 | normalisation keeps exactly the same keys, and keeps them distinct |
| Grammar.NormalizeKeepsTerminals | grammar.py:27-59 | the terminals derived before and after normalisation are the same |
| Grammar.CollectTerminals | grammar.py:27-36 | a character is collected iff it is `$` or occurs in a right-hand side and is neither `e` nor upper case |
| Grammar.Keys | grammar.py:24 | the non-terminals are exactly the keys of the map |
| Grammar.StartOf | grammar.py:21 | no start symbol iff the map is empty; otherwise the first key |
| Grammar.NewGrammar | grammar.py:11-39 | start symbol, non-terminals and terminals as above; `$` is a terminal; the productions are the normalised map |
| Grammar.ProductionsOf | grammar.py:61-71 | the alternatives of the (first) entry for the key; empty for a symbol that is not a key |
| Grammar.ProductionsOfKey | grammar.py:71 | in a map with distinct keys, the lookup returns that key's own alternatives |
| Grammar.AllProductions | grammar.py:73-86 | the length is the total number of alternatives, duplicates included |
| Grammar.AllProductionsAt | grammar.py:80-86 | alternative `j` of key `i` sits at offset(i)+j, so the listing is key by key in insertion order |
| Grammar.AllProductionsFrom | grammar.py:80-86 | every listed pair is some key with one of its alternatives |
| Grammar.ProductionDeclared | grammar.py:80-86 | in a well-formed grammar every listed left-hand side is a non-terminal and every right-hand-side symbol is declared |
| Grammar.TerminalsNotEpsilon | grammar.py:32-36 | `e` is never a terminal, and `$` always is |
| Grammar.HasEpsilonProduction | grammar.py:88-102 | true iff some right-hand side of the symbol is empty |
| FirstFollow.FirstOfSeqNullable | first_follow.py:156-175 | `e` is in First of a sequence iff every symbol's First set contains `e` (so `{e}` for the empty sequence) |
| FirstFollow.FirstOfSeqMember | first_follow.py:159-169 | a non-`e` member comes from the First set of a symbol all of whose predecessors are nullable |
| FirstFollow.FirstOfSeqMonotone | first_follow.py:162-169 | larger First sets give a larger First of a sequence |
| FirstFollow.FirstOfSeqBounded | first_follow.py:162-173 | First of a sequence stays within the union of its symbols' sets plus `e` |
| FirstFollow.ComputeFirstOfSequence | first_follow.py:145-175 | the loop with `break` computes First of the sequence |
| FirstFollow.InitFirst | first_follow.py:29-41 | the initial map is `{t}` for each terminal and `{e}` or `{}` for each non-terminal |
| FirstFollow.InitialFirstShape | first_follow.py:33-41 | a terminal starts at `{t}`; a non-terminal starts with `e` iff it has an empty right-hand side, and with nothing else |
| FirstFollow.FirstUpdateInvariant | first_follow.py:49-81 | processing a production only grows sets, keeps terminals at `{t}` and stays below every closed map |
| FirstFollow.FirstSetsUnique | first_follow.py:44-81 | two maps that are both least closed First maps are equal, so the result does not depend on order |
| FirstFollow.AddAll | first_follow.py:68-71 | adding a set to one entry reports a change iff something was new |
| FirstFollow.ProcessFirstProduction | first_follow.py:50-81 | one production adds First of its right-hand side to its left-hand side; `changed` iff the map changed |
| FirstFollow.ScanFirst | first_follow.py:65-80 | the scan of a right-hand side that starts with a non-terminal adds First of the right-hand side to its left-hand side; `changed` iff the map changed |
| FirstFollow.FirstPass | first_follow.py:48-81 | a pass keeps the invariant; with no change the map is closed, otherwise fewer (symbol, terminal) pairs are missing |
| FirstFollow.ComputeFirst | first_follow.py:22-83 | terminates with the least map closed under the First rules |
| FirstFollow.FirstFixpointConditions | first_follow.py:58-81 | at the fixed point First(si)-{e} ⊆ First(nt) up to the first non-nullable si, and `e` ∈ First(nt) when every si is nullable |
| FirstFollow.FollowAtFacts | first_follow.py:113-141 | one position's update only grows Follow sets, stays within the terminals, and changes nothing iff its rule already holds |
| FirstFollow.ProcessFollowProduction | first_follow.py:108-141 | scans every position of one production; `changed` iff some Follow set grew; with no change every position's rule holds |
| FirstFollow.FollowPosition | first_follow.py:113-141 | one position applies the Follow rule for the symbol there: the result is that rule's update, and `added` iff it changed the map |
| FirstFollow.FollowPass | first_follow.py:106-141 | a pass grows Follow within the terminals and stays below every closed map above its input; with no change the map is closed, otherwise fewer pairs are missing |
| FirstFollow.FollowScanBelow | first_follow.py:113-141 | scanning a production never takes the sets past a map that satisfies that production's Follow conditions |
| FirstFollow.IterateFollow | first_follow.py:102-141 | the passes end at a closed map that lies below every assignment meeting the Follow equations |
| FirstFollow.FollowSetsUnique | first_follow.py:85-143 | two least assignments meeting the Follow equations are equal, so the result does not depend on the order of the passes |
| FirstFollow.ComputeFollow | first_follow.py:85-143 | keyed by exactly the non-terminals; `$` ∈ Follow(start); no `e`; for the First sets, the least map that holds `$` for the start symbol and is closed under the Follow rules |
| LL1.FirstOfSequence | ll1_parser.py:72-108 | the loop computes `LL1FirstOfSeq`: a terminal is added and ends the scan; a non-terminal adds First-{e} and ends the scan unless nullable |
| LL1.LL1FirstOfSeqAgrees | ll1_parser.py:82-108 | with terminals' First sets fixed at `{t}`, the builder's First of a sequence equals the shared First-of-sequence rule |
| LL1.RowClaims | ll1_parser.py:48-68 | every alternative makes exactly two claims, in order |
| LL1.RowClaimsAt | ll1_parser.py:48-68 | alternative `a` makes claims 2a (First-{e}) and 2a+1 (Follow(lhs) when nullable) |
| LL1.ClaimRow | ll1_parser.py:53-68 | one claim writes exactly its lookaheads, each with its right-hand side |
| LL1.RowOf | ll1_parser.py:53-68 | the row's cells are exactly the claimed lookaheads |
| LL1.ClaimedIff | ll1_parser.py:53-68 | a cell is claimed iff some claim names it |
| LL1.ConflictPairwise | ll1_parser.py:55-57 | the sequential abort (a write meets a filled cell) happens iff two claims overlap, so it does not depend on the order of writes |
| LL1.RowOfEntry | ll1_parser.py:59 | without a conflict each claimed cell holds its claim's right-hand side |
| LL1.ConflictSnoc | ll1_parser.py:55-68 | one more claim conflicts iff it meets an already filled cell; otherwise it adds its cells |
| LL1.ConflictPrefix | ll1_parser.py:55-68 | a conflict among the first writes stays a conflict |
| LL1.WriteClaim | ll1_parser.py:53-68 | fails iff a lookahead is already in the row; otherwise adds the claim's cells |
| LL1.WriteAlternative | ll1_parser.py:49-68 | one alternative's writes fail iff its claims conflict with the row so far |
| LL1.PushReversed | ll1_parser.py:172-175 | pushing a right-hand side leaves its reverse on top of the stack, so its first symbol is on top |
| LL1.BuildRow | ll1_parser.py:47-68 | the row of one non-terminal: fails iff its claims conflict, else equals the row they describe |
| LL1.BuildParsingTable | ll1_parser.py:30-70 | `None` iff some row conflicts; otherwise one row per non-terminal with exactly its claims |
| LL1.RowCells | ll1_parser.py:53-68 | on success, table[A][t] = rhs for every t ∈ First(rhs)-{e}, and for every t ∈ Follow(A) when rhs is nullable |
| LL1.RowCellsClaimed | ll1_parser.py:53-68 | every filled cell of a row was written by an alternative that claims it |
| LL1.SelfOverlapConflicts | ll1_parser.py:62-66 | a nullable alternative whose First and Follow share a terminal makes the row conflict |
| LL1.DuplicateAlternativeConflicts | ll1_parser.py:55-57 | a repeated alternative makes the row conflict, though it writes the identical right-hand side |
| LL1.AlternativeDeclared | ll1_parser.py:48 | in a well-formed grammar every symbol of an alternative is declared |
| LL1.ComputedSetsDefineTable | ll1_parser.py:50-63 | First and Follow as computed provide every lookup the builder makes, and the builder's First of a sequence is the shared one |
| LL1.NewLL1Parser | ll1_parser.py:11-28 | the parser is LL(1) iff no row conflicts; then the table is the one described |
| Grammar.WithEndMarker | ll1_parser.py:134-138 | `$` is appended exactly when the tokens are empty or do not end in `$` |
| LL1.Reversed | ll1_parser.py:174-175 | the production is pushed in reverse |
| LL1.Parse | ll1_parser.py:119-181 | false when not LL(1); otherwise the run of the step machine from `[$, start]` at cursor 0 |
| LL1.RunFuelMonotone | ll1_parser.py:147-181 | a verdict reached with some fuel is the verdict with any more fuel |
| LL1.StepExpandTop | ll1_parser.py:166-175 | expanding a non-terminal puts the first symbol of its right-hand side on top and keeps the cursor |
| LL1.StepMatch | ll1_parser.py:158-165 | a terminal or `$` on top rejects iff it differs from the current token, else it pops and advances by one |
| LL1.RowEntryIsAlternative | ll1_parser.py:168-170 | every production the driver expands with is an alternative of the non-terminal that claims that cell |
| LR0.PredictionsInUniverse | slr1_parser.py:60-64 | predicted items come from the grammar's own alternatives |
| LR0.PredictShrinks | slr1_parser.py:47-67 | a round that adds something leaves fewer possible predictions missing, so the loop terminates |
| LR0.ClosureLeast | slr1_parser.py:44-69 | the closure contains the items, is closed, and lies within every closed superset |
| LR0.ClosureOfClosed | slr1_parser.py:44-69 | a closed set is its own closure |
| LR0.ClosureIdempotent | slr1_parser.py:44-69 | closing twice equals closing once |
| LR0.ClosureSelf | slr1_parser.py:44-69 | the closure contains its input and is closed |
| LR0.ClosureAdds | slr1_parser.py:60-64 | the closure adds only predicted items |
| LR0.ClosureAddsDotZero | slr1_parser.py:62 | every added item has its dot at 0 and is an alternative of its non-terminal |
| LR0.GotoDotsInRange | slr1_parser.py:84-93 | closure and goto keep `0 ≤ dot ≤ len(rhs)` |
| LR0.ClosureEmpty | slr1_parser.py:44-69 | the closure of nothing is empty |
| LR0.CollectNewItems | slr1_parser.py:49-65 | one round collects exactly the predicted items not yet present; `changed` iff there are any |
| LR0.AddPredictions | slr1_parser.py:50-65 | one item contributes exactly its predictions that are not yet in the closure; `added` iff there are any |
| LR0.ItemClosure | slr1_parser.py:34-69 | the loop computes the closure |
| LR0.GotoItems | slr1_parser.py:71-94 | the loop computes the goto: the dot advanced over the symbol, then closed |
| LR0.GotoEmpty | slr1_parser.py:82-94 | the goto is empty iff no item has the symbol after its dot |
| LR0.GotoInUniverse | slr1_parser.py:82-94 | gotos stay within the finite set of possible items |
| LR0.InitialInUniverse | slr1_parser.py:104-109 | the initial state stays within the finite set of possible items |
| LR0.UnseenAppend | slr1_parser.py:134-137 | appending a new state leaves one fewer unseen candidate state |
| LR0.FindOrAppend | slr1_parser.py:128-137 | the goto ends up in the collection; it is appended (and queued) only if it was not already present |
| LR0.IndexOfState | slr1_parser.py:130-134 | the scan stops at the first state equal to the goto, and runs to the end iff no state is equal |
| LR0.ProcessState | slr1_parser.py:118-137 | processing a state puts all of its non-empty gotos in the collection |
| LR0.BuildCanonicalCollection | slr1_parser.py:96-139 | state 0 is closure({S' → .start}); states are pairwise different; every non-empty goto of every state is a state; every later state is a goto of an earlier one; dots stay in range |
| LR0.UniverseDotsInRange | slr1_parser.py:84-93 | every possible item has its dot within its right-hand side |
| SLR1.ListOf | slr1_parser.py:122 | listing a set yields each element once |
| SLR1.AllSymbols | slr1_parser.py:122 | the symbol list holds exactly the terminals and non-terminals |
| SLR1.FindState | slr1_parser.py:163-166 | the first state equal to the goto, or none iff no state is |
| SLR1.BuildTransitions | slr1_parser.py:158-166 | (i, X) has an entry iff goto(state i, X) is non-empty and a state; the entry is the first such state |
| SLR1.TransitionTarget | slr1_parser.py:163-166 | with distinct states, the entry is j iff state j equals the non-empty goto |
| SLR1.WriteItem | slr1_parser.py:171-210 | one item's writes fail iff a cell it writes is filled; otherwise they add exactly its cells with its action |
| SLR1.WrittenAdd | slr1_parser.py:171-210 | the cells written after one more item are the earlier cells plus that item's |
| SLR1.ConflictFreeAdd | slr1_parser.py:184-201 | an item whose cells are all free adds no conflict |
| SLR1.ConflictFound | slr1_parser.py:184-201 | an item meeting a filled cell conflicts with the item that filled it |
| SLR1.BuildActionRow | slr1_parser.py:171-210 | fails iff two different items of the state write the same cell, whatever the item order; otherwise each cell holds its writer's action |
| SLR1.SameShiftConflicts | slr1_parser.py:184-185 | two items shifting on the same terminal conflict, although they write the same shift |
| SLR1.ShiftReduceConflicts | slr1_parser.py:184-201 | a shift and a reduction on the same terminal conflict |
| SLR1.ItemEntry | slr1_parser.py:173-210 | an item writes a shift into the edge's target, accept only on `$` for S' → start., and a reduction only on Follow(lhs) |
| SLR1.ActionEntry | slr1_parser.py:173-210 | every entry of a built row is a shift into the edge's target, accept on `$` from S' → start., or a reduction by a completed item of the state on Follow(lhs) |
| SLR1.BuildGotoRow | slr1_parser.py:213-215 | GOTO[i][A] is the transition (i, A), exactly for the non-terminals that have one |
| SLR1.BuildParsingTables | slr1_parser.py:141-217 | both tables absent iff the collection is empty or some state conflicts; otherwise one matching ACTION and GOTO row per state |
| SLR1.UniverseDefined | slr1_parser.py:192-199 | every possible item has what its row needs: `rhs[0]` for S' → start., and Follow(lhs) for other completed items |
| SLR1.NewSLR1Parser | slr1_parser.py:11-32 | the collection's properties; the parser is SLR(1) iff no state conflicts; then the tables match the collection |
| SLR1.Parse | slr1_parser.py:228-302 | false when not SLR(1); otherwise the run of the step machine from stack [0] at cursor 0 over the tokens with `$` ensured |
| SLR1.DriverStep | slr1_parser.py:256-302 | one pass of the loop body produces exactly the step of the step machine from the current stack and cursor |
| SLR1.PopEntries | slr1_parser.py:281-283 | popping `n` entries leaves the stack without its top `n` entries |
| SLR1.RunFuelMonotone | slr1_parser.py:254-302 | a verdict reached with some fuel is the verdict with any more fuel |
| SLR1.PushKeepsShape | slr1_parser.py:273-274 | pushing a symbol then a state keeps states and symbols alternating |
| SLR1.PopKeepsShape | slr1_parser.py:281-286 | popping 2·|rhs| entries short of the bottom leaves a state on top |
| SLR1.TablesTargetsBelow | slr1_parser.py:186-218 | every shift and GOTO entry of built tables names a state |
| SLR1.StepKeepsShape | slr1_parser.py:256-296 | a step keeps the stack alternating with in-range states, so the checks that the top is a valid state never fail |
| SLR1.RunKeepsShape | slr1_parser.py:248-302 | every configuration reached from [0] over built tables keeps that shape |
| SLR1.AcceptOnEndMarker | slr1_parser.py:297-299 | over built tables the driver accepts only with `$` under the cursor |

## Left out

- `main.py` is not part of this model. It reads stdin, splits production lines and `|`, runs the menu loop and prints the answers.
- `Grammar.__str__` (grammar.py:104-124) is display formatting only.
- The text of the exception messages is not modelled. A conflict is a `None` table.
- The unused `nullable` map (first_follow.py:20) is dead code and is not modelled.
- The unused `prod_idx` search (slr1_parser.py:203-208) is dead code and is not modelled.
- `_can_derive_epsilon` (first_follow.py:177-188) is never called and is not modelled.
- `isupper` is modelled for ASCII letters only. Non-ASCII upper-case letters would be classified differently.
- Symbols are single characters, because the source splits every alternative and the input per character.
- Python's set and dict iteration order is not modelled. Choice loops stand in for it, and the properties proved about them hold for every choice.
- The First and Follow passes visit the productions in the map's order, while the source visits the set of non-terminals (first_follow.py:49, first_follow.py:106). Both results are proved to be the least solutions (`FirstSetsUnique`, `FollowSetsUnique`), so the order does not change them.
- The SLR(1) state numbering follows the order of the symbol list, which the model leaves open. The properties proved hold for every such order.
- Language-level correctness ("accepts iff derivable") is not stated.
- The table builders require every symbol they look up to have a First or Follow entry. The source raises a KeyError otherwise. `ComputedSetsDefineTable` and `UniverseDefined` show that computed sets of a well-formed grammar meet these requirements.
- LL1.Parse: the step machine's result is stated for any fuel. For a grammar without a start symbol, the verdict is stated only when the fuel is positive.
- LL1.Parse: neither driver loop has a variant, so both run under a fuel bound. A run that exhausts it yields `None`.
- SLR1.Parse: a reduction that would pop the whole stack halts with rejection. The source instead raises an IndexError from `stack.pop()` or `stack[-1]`.
- SLR1.Parse: the source's final branch for an unknown action (slr1_parser.py:300-302) cannot occur, because `Action` has only its three constructors.
- SLR1.NewSLR1Parser requires a start symbol. The source would build the augmented item S' → (None,) for an empty grammar, but computing Follow fails first on such a grammar.
- SLR1.BuildParsingTables: the check for an empty collection (slr1_parser.py:151-152) is modelled, but it never fires, because the collection always holds state 0.
- Grammar.WellFormed asks more than the source needs. Its clauses `g.nonTerminals !! g.terminals` and `Epsilon !in g.nonTerminals` exclude a lower-case key that also occurs on a right-hand side (for example `{S: [a], a: [b]}`) and a key `e`. The source classifies the first kind of symbol both as a terminal and as a non-terminal, and it reads an alternative `e` as the empty alternative even when `e` is a key. The First and Follow computations and the table builders are specified only for grammars without such symbols.
