# Bison's parser skeletons and gnulib cores, modelled and proved

The repository carries its own copy of Bison and of parts of gnulib. This project models the parts of
them whose correctness rests on global invariants, and proves those invariants:

- **The LR tables** (`Grammar`, `LrTables`). The compressed tables are a parameter. `Checked` is a
  per-state check of the tables against a grammar and a set of LR(0) items for each state; no proof about
  the parsers assumes more about them. Semantic values are parse trees, the free interpretation of the semantic
  actions: any other interpretation is a fold of the tree. The lexer is a sequence of tokens followed by
  end markers for ever.
- **The generator of the tables** (`ActionRows`, `TableOrder`, `TablePacker`, `TableOutput`, `TableGenerator`). The part
  of Bison that chooses an action for every state and token and packs the rows of actions and the columns
  of gotos on top of each other. `PackedTables` proves that the table lookup of the skeletons gets every
  entry back, and `GeneratedTables` that the parsers do on every token what the states call for.
- **The deterministic parser** (`ParserMachine`, `Yacc`, `ErrorRecovery`, `Lac`, `LacParser`). The loop of `yyparse`
  as a machine on values, the same loop on arrays in place that is proved to take the machine's steps,
  error recovery over whole runs, and the exploratory parse of `yy_lac`, which is proved to predict the
  main loop; `LacParser` is the loop with it, which makes no reduction on a token that is not shifted in the end.
- **The GLR parser**. `GlrForest`, `GlrMachine` and `GlrCompress` define the graph-structured stack and the
  packed forest of deferred reductions as an arena of cells, and the operations on it. `GlrCyclic` proves
  that the search for a state to merge with never finds a state that has its value already, unless the
  grammar is cyclic; `GlrExample` is a cyclic grammar on which the code overwrites a value. `GlrRun`
  proves the invariant for every run. `GlrStack` is the arena in place with addresses, including its
  relocation; `GlrProcess` is `yyprocessOneStack` and the loops around it on that arena, `GlrFinal` its
  assertion. `GlrOptions`, `GlrLoose`, `GlrRank`, `GlrResolve`, `GlrChoice`, `GlrTrace`, `GlrEvaluate`, `GlrValues`
  and `GlrReturn` are the resolution of deferred values, down to the in-place merge of option chains, as a
  recursion on values and in place, and the return to deterministic operation. `GlrParse` is the loop of
  `yyparse` that puts all of these together, up to the first syntax error; `GlrReach` and `GlrTurns` prove
  that it is a run in the sense of `GlrRun`, and `GlrWork`, `GlrFuel`, `GlrEnds` and `GlrHalts` that it
  comes to an end for grammars without cycles and empty rules. `GlrNondet` is the nondeterministic LR
  automaton that the tables describe; `GlrPursuit`, `GlrThorough`, `GlrComplete` and `GlrExact` prove that the
  parser follows all of its paths, and `GlrPaths` that it follows no others.
- **The hash table** (`HashSpec`, `HashTables`). Buckets, overflow nodes, the free list, and a rehash that
  can run out of memory at any point and is then undone without asking for memory.
- **Argument permutation** (`GetoptSpec`, `GetoptUses`, `Getopt`). A whole run of `getopt` calls against a functional
  description of what it does to `argv`, and a round trip from what a program declares and its user writes.
- **Bitsets** (`Bitsets`, `Closure`). Enumeration of set bits in both directions, and the transitive
  closure of a bit matrix in place.
- **The cleanup registry** (`FatalSignal`). Registration and handler as interleaved atomic steps, with
  signals between any two of them.
- **Exponents and primes** (`Scaling`, `Primes`). `frexp` and `ldexpl` over exact reals; `is_prime` and
  `next_prime` with the wrap-around of `size_t`.

`dafny verify dfyconfig.toml` checks everything.

Whatever can fail says why, and where. Requests to an allocator are numbered. Where the arena of the GLR parser runs
out of memory, it holds the configuration that the loops on values have come to, and that configuration is too large
for the depth limit, or the last request was refused. The resolution of an ambiguity has one outcome, that of
`GlrEvaluate`: it fails exactly where that does, which is where the value of a state of the stack calls, option by
option as the preferences select them, for that of a state without a preferred option.

Where the code and its documentation disagree, the model follows the code:

- `yyaddDeferredAction` (bison/data/glr.c:1060-1081) stores an option in a state without looking at
  `yyresolved`. For a cyclic grammar the state can already hold its value, which is lost:
  `GlrExample.ExampleClobbers` is a case of it for `A: A | 'a'`, `GlrCyclic.ReduceDeferredExactly` says exactly
  when the invariant survives, and `GlrCyclic.MarkedReduce` that it always does for other grammars.
- `yymergeOptionSets` may leave an option on a state whose predecessor is not the one that the option's
  right-hand side leads to; only the symbol and both positions agree. So the exact invariant of the
  nondeterministic phase gives way to `GlrLoose.Loose` while values are resolved, and is back when the
  stack has been compressed (`GlrReturn.ReturnKeeps`).
- With `W;` in the option string and no long options, `getopt` looks at an element `-Wx` again and again:
  `optind` stays where it is. `GetoptSpec.Plan` records the returns that come again and again.
  `GetoptSpec.EveryScanEnds` says that all scans with an option string end if and only if it holds no long `W`,
  and `GetoptSpec.EndlessExactly` for which vectors they do; `Getopt.ScanAll` and `Getopt.KeepCalling` are any
  number of calls in the two cases.
- The check after growing the stacks that would abort the parser (bison/data/yacc.c:1611-1612) can never
  fire; neither can the `abort` calls at the end of a failed `hash_rehash` and after an insertion that
  rehashed.
- `bitset_prev` is documented as going down from `bitno`; `bitno` counts from the top
  (bison/lib/bitset.c:246-258).
- The square in `is_prime` wraps round for candidates beyond (2^32 - 1)^2. The test is exact all the same: the
  wrapped square reaches 2^64 - 7 before the divisor can meet a prime candidate, and the three odd numbers after
  that are not prime.
- `frexp` yields the exponent 2^31, which an `int` does not hold, exactly for numbers from 2^(2^31 - 1) on in
  absolute value.
- The loop of `ldexpl` doubles an `int` (bison/lib/ldexpl.c:66). With wrap-around it is never left for exponents
  from 2^30 on in absolute value; and the least `int` is its own negation, so that the number comes back
  unscaled. `Scaling.LdExp` gives the product if and only if the exponent is below 2^30 in absolute value, or the
  number is 0; `Scaling.RoundTrip` says for which numbers that is so after `frexp`.

## Model

| member | source | states |
|---|---|---|
| LrTables.Backtrack | bison/data/yacc.c:1724-1789 | an item whose dot has moved over d symbols says what the top d stack symbols are and that its rule was predicted below them |
| LrTables.ReduceOnPath | bison/data/yacc.c:1724-1789 | a reduction that checked tables call for finds its whole right-hand side on the stack, and the goto from the state below is an edge of the automaton labelled with the left-hand side |
| LrTables.FinalStack | bison/data/yacc.c:1617-1618 | a stack that ends in the final state holds exactly the start symbol and the end marker |
| ActionRows.RecordReductions | bison/src/tables.c:257-275 | every token gets the first rule that has it among its lookaheads, and a mark if several have |
| ActionRows.RecordShifts | bison/src/tables.c:280-297 | a shift takes precedence, with a mark if there was a rule |
| ActionRows.FindCommonest | bison/src/tables.c:334-349 | the default of an inconsistent state is the first of the rules that most tokens call for |
| ActionRows.ConflictRow | bison/src/tables.c:184-216 | for every marked token of a GLR parser a list is appended that holds exactly the rules that compete with its action, and ends with 0; earlier lists stay |
| ActionRows.ActionRow | bison/src/tables.c:240-375 | the entry left for a token is the action that the state calls for, unless the default does the same; a list belongs to it exactly if several actions compete |
| ActionRows.SaveRow | bison/src/tables.c:383-419 | exactly the entries other than 0 are saved, in ascending order |
| TableOrder.SortActions | bison/src/tables.c:593-619 | every vector that is not empty comes exactly once, wider ones first, and fuller ones among those as wide |
| TableOrder.MatchingState | bison/src/tables.c:629-673 | an equal vector is found if there is one before, for a state without conflicts: the sorting justifies stopping at the first of another size |
| TablePacker.Packer.TableGrow | bison/src/tables.c:146-168 | the arrays keep their contents, and what is added is vacant |
| TablePacker.Packer.PackVector | bison/src/tables.c:677-731 | the search ends; the vector is written to vacant cells at a place that no other has, all others being where they were, or the arrays are in use to their last cell |
| TableOutput.PackTable | bison/src/tables.c:762-797 | all rows and columns lie in the table, every cell in use belongs to one of them, and vectors with the same place are equal |
| TableOutput.NinfRemap | bison/src/tables.c:743-759 | the minimum is renumbered to a negative number below all others, which stay |
| TableOutput.Emit | bison/src/tables.c:762-802 | so it is in the tables that are emitted |
| PackedTables.ActionDecodes | bison/src/tables.c:677-731 | row displacement is undone by the table lookup: the action is the entry of the row for the token, or the default of the state where the row has none |
| PackedTables.GotoDecodes | bison/src/tables.c:487-522 | and the goto is the entry of the column for the state, or the default one |
| PackedTables.ConflictDecodes | bison/src/tables.c:383-419 | and so for the lists of conflicts |
| TableGenerator.DefaultGoto | bison/src/tables.c:530-556 | the state that most gotos on a nonterminal lead to, or -1 if there are none |
| TableGenerator.SaveColumn | bison/src/tables.c:487-522 | exactly the gotos to other states are saved |
| TableGenerator.TablesGenerate | bison/src/tables.c:812-855 | from the actions and gotos of all states to the tables |
| TableGenerator.GeneratedAction | bison/src/tables.c:812-855 | the tables yield in every state on every token what the state calls for: an error where `%nonassoc` wants one, else the shift, else the first rule with the token among its lookaheads, else the default |
| TableGenerator.GeneratedGoto | bison/src/tables.c:812-855 | and every goto |
| TableGenerator.GeneratedSized | bison/src/tables.c:812-855 | and they are within the ranges that the parsers rely on |
| GeneratedTables.DecideDue | bison/data/yacc.c:1625-1718 | the main loop takes the action that the state calls for on the token, whether or not it reads it |
| GeneratedTables.ErrorEntryErrs | bison/data/yacc.c:1677-1681 | a token that is an explicit error in a state leads to the error label at once, with no reduction before |
| GeneratedTables.ActDue | bison/data/yacc.c:1000-1022 | the exploration takes the action that the state calls for |
| GeneratedTables.ConflictsDue | bison/data/glr.c:994-1016 | the list of conflicts that a GLR parser reads holds all rules that compete with the action, and is empty without a conflict |
| GeneratedTables.AllCalled | bison/data/glr.c:994-1016 | no alternative is lost: a GLR parser is called to shift the token if the state shifts it, and to reduce by every rule that has it among its lookaheads, unless it is an explicit error |
| ParserMachine.PushSound | bison/data/yacc.c:1541-1618 | pushing along an edge, with any growth of the stacks up to the maximum depth, keeps states and values in lockstep, the values deriving their symbols and, while no error has been reported, exactly the tokens shifted so far |
| ParserMachine.ShiftSound | bison/data/yacc.c:1693-1708 | so does shifting the lookahead |
| ParserMachine.ReduceSound | bison/data/yacc.c:1724-1789 | so does a reduction, which never pops below the bottom |
| ParserMachine.RecoverSound | bison/data/yacc.c:1795-1938 | so does error recovery: states and values stay in lockstep, the values deriving the symbols of their states |
| ParserMachine.Decided | bison/data/yacc.c:1625-1718 | the action chosen, with or without a lookahead, is one that the check covers; a state with a default only reads no token, any other has one in hand |
| ParserMachine.AdvanceSound | bison/data/yacc.c:1541-1938 | every trip around the loop keeps the invariant |
| ParserMachine.RunSound | bison/data/yacc.c:1541-1938 | it holds after any number of trips, whatever the allocator does |
| ParserMachine.RunExhausted | bison/data/yacc.c:1546-1612 | memory is exhausted only by a stack of the maximal depth or by a request that is refused |
| ParserMachine.AcceptedTree | bison/data/yacc.c:1617-1618 | in the accepting configuration the value stack holds a derivation of the tokens consumed from the start symbol |
| ParserMachine.AcceptedIsSentence | bison/data/yacc.c:1541-1789 | a run that ends with acceptance and met no error has consumed a sentence of the grammar followed by the end marker |
| ErrorRecovery.FirstReport | bison/data/yacc.c:1693-1696 | no error is reported before the error status has been counted down by shifts |
| ErrorRecovery.ReportsApart | bison/data/yacc.c:1795-1938 | between an error and any later report lie at least three shifted tokens |
| ErrorRecovery.RecoveryBounded | bison/data/yacc.c:1795-1938 | with a lookahead at every error, the visits to the error label are at most two more than the tokens shifted and discarded |
| ErrorRecovery.StatusAfter | bison/data/yacc.c:1795-1866 | how a step moves the error status; the token in hand survives a visit to the error label unless the status is 3, and is discarded then |
| ErrorRecovery.TokensConserved | bison/data/yacc.c:1637-1866 | over whole runs no token is lost or made up: those shifted and those discarded, in their order, are those read, up to the one in hand |
| ErrorRecovery.ReportsCounted | bison/data/yacc.c:1801-1806 | errors are counted exactly as they are reported |
| ErrorRecovery.RecoverExactly | bison/data/yacc.c:1844-1938 | recovery gives up exactly at the end of input with status 3, or where no state of the stack shifts the error token; otherwise the stack is popped to the topmost one that does, and the error token is shifted |
| Yacc.Parser.Relocate | bison/data/yacc.c:1588-1606 | moving the stacks to bigger arrays changes nothing but the capacity |
| Yacc.Parser.Settle | bison/data/yacc.c:1546-1618 | the store and growth at this label, in place, are the machine's; the abort after growing is dead code |
| Yacc.Parser.Backup | bison/data/yacc.c:1625-1718 | reads a lookahead exactly when the machine does and finds the machine's action |
| Yacc.Parser.Reduce | bison/data/yacc.c:1724-1789 | the reduction in place is the machine's |
| Yacc.Parser.PopToError | bison/data/yacc.c:1896-1925 | pops down to the topmost state that shifts the error token, or to nothing if there is none |
| Yacc.Parser.RecoverShift | bison/data/yacc.c:1893-1938 | the second half of recovery in place is the machine's |
| Yacc.Parser.Recover | bison/data/yacc.c:1795-1866 | so is the whole of recovery, including the abort at end of input |
| Yacc.Parser.Step | bison/data/yacc.c:1541-1938 | one trip around the loop of yyparse on its arrays is one step of the machine and keeps its invariant |
| Lac.StepMatches | bison/data/yacc.c:982-1075 | one transition of the main loop on a lookahead is one action of the exploration: shift, error, or the same new stack |
| Lac.MainLoopMatches | bison/data/yacc.c:982-1075 | for any number of transitions and any allocator the exploration predicts the main loop, until a stack of the latter cannot grow |
| Lac.UndefinedTokenErrs | bison/data/yacc.c:989-993 | where no state shifts the undefined token the verdict on it is the main loop's, too |
| Lac.FailureHasCause | bison/data/yacc.c:851-901 | a store on the way fails only if the virtual stack is deeper than the limit, or a request made for it, for more than the array holds and no more than the limit, is refused |
| Lac.GrowsFast | bison/data/yacc.c:865-883 | the scratch array grows to more than twice its size or to the limit, and only when it is full |
| Lac.Scratch.Reserve | bison/data/yacc.c:851-901 | room for one more state is found exactly if the depth limit and the allocator permit, the capacity is then the one computed, and the contents survive |
| Lac.Scratch.PopVirtual | bison/data/yacc.c:1024-1042 | popping the scratch array first and the real stack after it pops the virtual stack |
| Lac.Scratch.PushVirtual | bison/data/yacc.c:1054-1071 | pushing on the scratch array pushes on the virtual stack, and fails exactly where the scratch array cannot grow |
| Lac.Scratch.Check | bison/data/yacc.c:982-1075 | yy_lac answers 1 for the undefined token; otherwise 2 exactly if a store on the way fails, being too deep or refused, and else 0 if the exploration shifts the token and 1 if it errs; it does not write the real stack |
| LacParser.TripPlain | bison/data/yacc.c:1625-1718 | the parser with lookahead correction does what the one without does, unless a token is turned down or memory runs out for the exploration |
| LacParser.TripKeeps | bison/data/yacc.c:929-956 | while a context is established, the token in hand is one that will be shifted; without one a token is in hand only after it has been kept by error recovery |
| LacParser.ReducesPromised | bison/data/yacc.c:1670-1690 | no reduction is made on a token in hand that cannot be shifted in the end, except in a state that reduces without looking at the token, on one that error recovery has kept |
| LacParser.PromiseKept | bison/data/yacc.c:1541-1789 | a context established is kept: in every run with memory enough the token is shifted within the number of trips that the exploration found |
| LacParser.StartKept | bison/data/yacc.c:1541-1618 | the invariant holds to begin with |
| LacParser.ReductionPays | bison/data/yacc.c:1541-1938 | over whole runs: a reduction on a token in hand is followed by the shift of that token, which stays in hand until then without any error, unless memory runs out; the exception is the same |
| LacParser.TurnedDownRightly | bison/data/yacc.c:929-956 | a token turned down would have been an error without the correction, too, in every parse with steps and memory enough |
| LacParser.Ask | bison/data/yacc.c:929-956 | YY_LAC_ESTABLISH in place: the answer is exactly that of the exploration and its memory, so that 0 means that the token is shifted in the end and 1 that it is not |
| LacParser.Step | bison/data/yacc.c:1541-1938 | one trip of the loop on the arrays of the parser and of the exploration is one trip on values with that answer, and keeps the invariant |
| GlrForest.PathOk | bison/data/glr.c:1412-1524 | in a forest the states below any state are a path of the automaton |
| GlrForest.ClimbDerives | bison/data/glr.c:1378-1398 | the states climbed over carry derivations of exactly the tokens between the two ends |
| GlrForest.ReduceInForest | bison/data/glr.c:1412-1479 | a reduction that the tables call for leads back to a state, from which the goto is an edge, and its left-hand side derives the tokens in between |
| GlrForest.PushForest | bison/data/glr.c:1275-1290 | a resolved state pushed along an edge keeps the forest well formed |
| GlrForest.OptionForest | bison/data/glr.c:1060-1081 | an option added to an unresolved state with the same goto, predecessor and end keeps it well formed |
| GlrForest.DeferForest | bison/data/glr.c:1296-1311 | a new unresolved state with its first option keeps it well formed |
| GlrMachine.MeetsSplit | bison/data/glr.c:1203-1211 | every predecessor chain that starts above the split point passes through it |
| GlrMachine.MergeTargetBounds | bison/data/glr.c:1457-1475 | the state that the search finds ends exactly at the current position |
| GlrMachine.SplitStackKeeps | bison/data/glr.c:1482-1524 | splitting a stack keeps the invariant |
| GlrMachine.KillKeeps | bison/data/glr.c:1214-1220 | deleting a stack keeps it |
| GlrMachine.SurvivorsKeep | bison/data/glr.c:1236-1271 | removing the deleted stacks keeps it |
| GlrMachine.ShiftKeeps | bison/data/glr.c:1275-1290 | shifting a token on one stack keeps it |
| GlrMachine.ReduceDeferredKeeps | bison/data/glr.c:1436-1477 | a deferred reduction, pushed or merged, keeps it unless it merges with a state that is resolved |
| GlrMachine.ReduceNowKeeps | bison/data/glr.c:1360-1434 | a reduction in deterministic operation keeps it and pops no more than there is |
| GlrMachine.AcceptedIsSentence | bison/data/glr.c:1963-2073 | in the final state the deterministic stack holds a derivation of all tokens up to the end marker |
| UnitSteps.Graft | bison/data/glr.c:1412-1479 | replacing the only leaf of a derivation by a derivation of its symbol |
| UnitSteps.ReachShrinks | bison/data/glr.c:1827-1913 | without cycles, a symbol that another derives alone reaches strictly fewer symbols |
| GlrCyclic.ClimbForm | bison/data/glr.c:1446-1451 | what a climb over states that existed at the split has gone over: derivations of their symbols followed by the tokens since |
| GlrCyclic.MergeTargetUnresolved | bison/data/glr.c:1457-1475 | if the state to merge with has its value already, some nonterminal derives itself |
| GlrCyclic.MarkedReduce | bison/data/glr.c:1436-1477 | unless the grammar is cyclic, every deferred reduction keeps the invariant |
| GlrCyclic.ReduceDeferredExactly | bison/data/glr.c:1436-1477 | the invariant survives a deferred reduction exactly if the state to merge with, if any, is unresolved |
| GlrExample.ExampleChecked | bison/data/glr.c:994-1025 | tables for the cyclic grammar that pass the check |
| GlrExample.ExampleConflicts | bison/data/glr.c:994-1025 | so do its conflicts: the example meets every hypothesis of the theorem on runs but the absence of cycles |
| GlrExample.ExampleEnds | bison/data/glr.c:1973 | in the tables of the example only one state shifts the end marker, and to the final state |
| GlrExample.ExampleReached | bison/data/glr.c:1482-1524 | a run of the parser reaches the configuration of the example |
| GlrExample.ExampleCyclic | bison/data/glr.c:1457-1475 | the grammar of the example is cyclic |
| GlrExample.ExampleClobbers | bison/data/glr.c:1060-1081 | the deferred reduction that comes next overwrites a value |
| GlrCompress.CompressForest | bison/data/glr.c:1933-1961 | the states of the chain, relinked one after another, are a well-formed linear arena with the same sequence of LR states |
| GlrCompress.CompressKeeps | bison/data/glr.c:1933-1961 | compression keeps the invariant and the sequence of states and returns to deterministic operation |
| GlrCompress.CompressValues | bison/data/glr.c:1933-1961 | the stack holds the same states, positions and values from bottom to top |
| GlrCompress.RungsRise | bison/data/glr.c:1940-1943 | addresses strictly decrease along the chain down to the split point |
| GlrStack.RelocKeepsOffsets | bison/data/glr.c:1154-1178 | a relocated item has the links that it had, as offsets |
| GlrStack.RelocKeepsCells | bison/data/glr.c:1154-1178 | the relocated arena represents the same configuration |
| GlrStack.GlrStack.NewItem | bison/data/glr.c:1046-1054 | an allocation keeps used and free items adding up to the capacity and changes nothing else |
| GlrStack.GlrStack.Expand | bison/data/glr.c:1138-1193 | the bigger arena, of twice the size or the maximal one, is isomorphic, with headroom for two items; it is refused exactly at the depth limit or by the allocator, which is asked once, below the limit |
| GlrStack.GlrStack.AddOption | bison/data/glr.c:1060-1081 | the option becomes the head of the chain of its state |
| GlrStack.GlrStack.SearchStack | bison/data/glr.c:1460-1474 | the walk down one stack finds the state to merge with if there is one above the split point |
| GlrStack.GlrStack.ReduceLater | bison/data/glr.c:1436-1477 | yyglrReduce in nondeterministic operation, in place, is the reduction on values |
| GlrStack.GlrStack.ReduceAtOnce | bison/data/glr.c:1367-1434 | yyglrReduce in deterministic operation, in place, is the reduction on values; the space popped is regained |
| GlrStack.GlrStack.Split | bison/data/glr.c:1482-1524 | the new stack shares the top of the old one |
| GlrStack.GlrStack.RemoveDeletes | bison/data/glr.c:1236-1271 | the loop with two indices keeps the live stacks in order |
| GlrStack.GlrStack.TurnLinks | bison/data/glr.c:1940-1943 | the links above the split point are turned round, nothing else changes |
| GlrStack.GlrStack.CopyDown | bison/data/glr.c:1951-1960 | the states are copied down lowest first, none being overwritten before it has been copied |
| GlrStack.GlrStack.Compress | bison/data/glr.c:1933-1961 | both loops together, in place, on the arena that resolution leaves, are the compression on values; the invariant, which held before resolution, holds again, and the states, positions and values are the same |
| GlrRun.ShiftFirstKeeps | bison/data/glr.c:2479-2497 | the loop that shifts the token on one stack after another keeps the core of the invariant throughout |
| GlrRun.NextKeeps | bison/data/glr.c:1963-2073 | every operation keeps the invariant, unless the grammar is cyclic |
| GlrRun.RunSafe | bison/data/glr.c:2432-2505 | it holds in every configuration that any run reaches |
| GlrRun.AcceptedRun | bison/data/glr.c:1963-2073 | a run that reaches the final state in deterministic operation has parsed a sentence |
| GlrProcess.GlrReduce | bison/data/glr.c:1412-1479 | the reduction with its reservation of space leaves the arena with exactly the configuration and the memory of the reduction on values, whether or not there is space in the end; if there is, two items are free |
| GlrProcess.ForkStep | bison/data/glr.c:2023-2032 | splitting off a stack and reducing it by a conflicting rule keeps the invariant and leaves all others as they were |
| GlrProcess.FollowKeeps | bison/data/glr.c:2023-2045 | following up the conflicts of a state leaves its stack as it was and settles every stack split off it |
| GlrProcess.FollowConflicts | bison/data/glr.c:2023-2045 | the loop in place ends with exactly the configuration and the memory of the loop on values, also where memory runs out: a stack is split off and processed for every rule listed |
| GlrProcess.ProcessKeeps | bison/data/glr.c:1963-2073 | when a stack has been processed, it and all stacks split off it are dead or about to shift, all others are as they were, and the invariant holds |
| GlrProcess.ProcessAccounted | bison/data/glr.c:1963-2073 | whatever becomes of a stack, either no request for memory was refused, or memory runs out in a configuration too large for the depth limit, or right after the last request, which was the only one refused |
| GlrProcess.ProcessOneStack | bison/data/glr.c:1963-2073 | yyprocessOneStack in place ends exactly as on values, with the same configuration and the same memory, also where memory runs out |
| GlrProcess.ProcessAll | bison/data/glr.c:2459-2460 | the loop over all stacks, including those split off on the way, ends exactly as on values, and in the end every stack is dead or about to shift |
| GlrProcess.ShiftEverywhere | bison/data/glr.c:2479-2497 | the action of every surviving stack is a shift; the shifts are carried out one by one until all are or one of them finds no space, with the configuration and the memory of the loop on values |
| GlrProcess.Round | bison/data/glr.c:2432-2497 | a round of the nondeterministic loop processes all stacks, drops the dead ones, shifts the token on all others, and keeps the invariant; every end is the one on values, with its configuration and memory |
| GlrProcess.RoundAccounted | bison/data/glr.c:2432-2497 | a round runs out of memory only if the configuration reached is too large for the limit or the last request was refused, and otherwise no request was |
| GlrProcess.RoundKeeps | bison/data/glr.c:2432-2497 | a round on values that ends leaves live stacks only, and the invariant |
| GlrFinal.ReducedApart | bison/data/glr.c:1456-1477 | a deferred reduction, pushed or merged, leaves no two live stacks with the same state on the same predecessor, and none in the final state |
| GlrFinal.ProcessCalm | bison/data/glr.c:1963-2073 | where live stacks differ in state or predecessor and none is in the final state, that stays so for as long as stacks are processed, and the assertion about the final state holds |
| GlrFinal.OneEnds | bison/data/glr.c:2479-2497 | where one state at most shifts the end marker, to the final state, at most one of the stacks can shift it |
| GlrFinal.RoundCalm | bison/data/glr.c:1973 | so the assertion never fails in a round, nor in the next one |
| GlrReach.ProcessReaches | bison/data/glr.c:1963-2073 | processing a stack is a sequence of the operations of runs, up to where it ends or memory runs out |
| GlrReach.RoundReaches | bison/data/glr.c:2432-2497 | so is a round; memory runs out in a configuration that is reached, or while the stacks of such a one shift |
| GlrThorough.ForkedThorough | bison/data/glr.c:2023-2045 | for a conflicting rule the stack is split and the new one reduced by that rule, and everything that then comes to be on top of it, or of stacks split off it, is taken up in its turn |
| GlrThorough.FollowThorough | bison/data/glr.c:2023-2045 | so it is for every rule of the list of conflicts |
| GlrThorough.ProcessThorough | bison/data/glr.c:1963-2073 | processing a stack carries out every reduction that the tables call for in any state that comes to be on top of it or of stacks split off it, by its action or by a conflict; a state that shifts the token is on top in the end; a stack dies only where the tables have an error |
| GlrThorough.ProcessFromThorough | bison/data/glr.c:2459-2460 | and so does the loop over all stacks |
| GlrComplete.DefersPath | bison/data/glr.c:1436-1477 | a deferred reduction, pushed or merged, is a reduction of the stack of states |
| GlrComplete.VisitedClosed | bison/data/glr.c:1456-1477 | the stacks that come up in a round are closed under the reductions of the nondeterministic automaton: a state to merge with has been on top itself |
| GlrComplete.ProcessedPresent | bison/data/glr.c:2459-2460 | whatever can shift the token after reductions of one of the stacks is on a stack when all have been processed |
| GlrExact.RoundComplete | bison/data/glr.c:2432-2497 | a round loses no path of the automaton; where it leaves no stack, no path shifts the token |
| GlrExact.NowComplete | bison/data/glr.c:2362-2430 | nor does the first loop |
| GlrExact.TurnComplete | bison/data/glr.c:2357-2507 | nor does a turn |
| GlrExact.SyntaxErrorIsReal | bison/data/glr.c:2350-2510 | where the parser reports a syntax error, no path of the nondeterministic automaton shifts the token |
| GlrPaths.NextOnPaths | bison/data/glr.c:1963-2073 | every operation leads from stacks that are paths of the automaton to such stacks |
| GlrPaths.RunOnPaths | bison/data/glr.c:2432-2505 | the stacks of every run are paths of the automaton |
| GlrPaths.FirstError | bison/data/glr.c:2350-2510 | the syntax error is reported at the first token that no path of the automaton can shift: there is a path up to it, and none beyond |
| GlrParse.GlrReduceNow | bison/data/glr.c:1412-1434 | a reduction in deterministic operation with its reservation of space is exactly the one on values, with its memory, and keeps the arena in order if there is space |
| GlrParse.Deterministic | bison/data/glr.c:2362-2430 | the first loop stops exactly where it does on values, with the same configuration and memory: in the final state, at a conflict, on an error action, or for want of memory |
| GlrParse.RunNowAccounted | bison/data/glr.c:2362-2430 | it runs out of memory only if the configuration reached is too large for the limit or the last request was refused |
| GlrParse.Resolve | bison/data/glr.c:1915-1931 | yyresolveStack on the arena stores exactly the values of the recursion on values, or fails exactly where that does: then the value of a state of the stack calls for that of a state without a preferred option |
| GlrParse.ReturnNow | bison/data/glr.c:2500-2504 | resolution and compression lead back to deterministic operation with the same states and exactly these values; or there is this ambiguity |
| GlrParse.Nondeterministic | bison/data/glr.c:2432-2507 | the second loop ends as its rounds on values do: with one stack, which is resolved to exactly its values and compressed, or is ambiguous, without a stack, or for want of memory, each in the configuration that the rounds come to |
| GlrParse.RoundsCalm | bison/data/glr.c:1973 | no round of the second loop meets the final state |
| GlrParse.TurnAccounted | bison/data/glr.c:2357-2507 | a turn of the outer loop runs out of memory only if the arena may not grow or the last request was refused |
| GlrParse.TakeTurn | bison/data/glr.c:2357-2507 | one turn of the outer loop stops as the two loops do on values, and with the values of the recursion on values where it returns; the assertion never fails where one state at most shifts the end marker, to the final state |
| GlrParse.Parse | bison/data/glr.c:2350-2510 | yyparse up to the first syntax error: turn after turn from the empty stack, each from where the one before has led; it ends as the last turn does, what it accepts is a sentence whose derivation is on the stack, memory is wanting only as in TurnAccounted, and the assertion does not fail under the condition of TakeTurn |
| GlrTurns.NowReaches | bison/data/glr.c:2362-2430 | the first loop is a sequence of shifts and reductions of runs, and keeps the invariant |
| GlrTurns.TurnReaches | bison/data/glr.c:2357-2507 | every end of a turn other than the bound is reached by the operations of runs: an ambiguity is that of a configuration so reached, and want of memory may come while the stacks of such a one shift |
| GlrTurns.ParseIsRun | bison/data/glr.c:2350-2510 | a parse that accepts, or that stops at a syntax error, is a run of the GLR parser from the empty stack |
| GlrTurns.TurnOnce | bison/data/glr.c:2357-2507 | a turn has only one end, with one configuration and one set of values: nothing is left open by the steps of the resolution |
| GlrWork.ReduceLowers | bison/data/glr.c:1412-1479 | for grammars without cycles and empty rules a deferred reduction brings down a measure of its stack, or ends it, and leaves that of all others |
| GlrFuel.RoundsMore | bison/data/glr.c:2432-2497 | where the bound on the steps is not reached in the second loop, a larger one gives the same end |
| GlrFuel.RunNowMore | bison/data/glr.c:2362-2430 | nor does it matter in the first loop |
| GlrEnds.ProcessEnds | bison/data/glr.c:1963-2073 | for such grammars a stack is processed within as many steps as its measure, and the number of stacks split off it, all of lower measure, is bounded by that and the number of conflicting rules |
| GlrEnds.AheadDrops | bison/data/glr.c:2459-2460 | the stacks still to be processed, with all that they may split off, become fewer with every one processed |
| GlrEnds.ProcessFromEnds | bison/data/glr.c:2459-2460 | so the loop over all stacks comes to its end |
| GlrHalts.RoundConsumes | bison/data/glr.c:2432-2497 | every round consumes one token, and after the end marker one stack is left, in the final state |
| GlrHalts.NowLowers | bison/data/glr.c:1360-1434 | a reduction in deterministic operation brings the measure of the stack down |
| GlrHalts.TurnEnds | bison/data/glr.c:2357-2507 | for every turn there is a number of steps that is enough, and all larger bounds give the same ends |
| GlrHalts.ParseHalts | bison/data/glr.c:2350-2510 | the parser halts: for a grammar without cycles and empty rules, in whose tables one state at most shifts the end marker, there is a number of steps for every text that no parse exceeds, whatever the allocator, the precedences and the mergers; it takes no more turns than there are tokens and two |
| GlrOptions.ChainsShareTails | bison/data/glr.c:1550-1599 | two chains with a common option share everything after it |
| GlrOptions.MergeIsUnion | bison/data/glr.c:1576-1595 | the merge of two decreasing chains is decreasing and holds exactly the options of both |
| GlrOptions.InsertStep | bison/data/glr.c:1586-1592 | relinking an option of the second chain leaves the rest of both chains intact |
| GlrOptions.MergeChains | bison/data/glr.c:1576-1596 | the loop ends, and the arena is exactly the one in which the options of the two chains are linked in decreasing order into one, which both states share; no other cell changes |
| GlrLoose.ForestIsLoose | bison/data/glr.c:1412-1479 | the invariant of the nondeterministic phase implies the one that resolution works with |
| GlrLoose.Fill | bison/data/glr.c:1827-1913 | an arena in which every state derives its span is a well-formed forest once its values are filled in |
| GlrRank.UnitForm | bison/data/glr.c:1635-1647 | a climb over a state: tokens before it, its symbol, tokens after it |
| GlrRank.RhsState | bison/data/glr.c:1635-1647 | a state of a right-hand side lies within the span of the option, and if the spans agree the left-hand side derives its symbol alone |
| GlrRank.RhsRank | bison/data/glr.c:1635-1692 | without cycles, the states of a right-hand side rank strictly below the option |
| GlrResolve.MergedLoose | bison/data/glr.c:1576-1596 | after a merge of chains every link still leads to an option of the same symbol and positions |
| GlrResolve.Twins | bison/data/glr.c:1529-1546 | corresponding states of identical options have the same symbol and positions |
| GlrResolve.MergeHeads | bison/data/glr.c:1571-1597 | two states with options both get the merge of their chains, nothing else changes, and the arena stays sound |
| GlrResolve.MergeStates | bison/data/glr.c:1561-1597 | one state takes over the value of the other, or both get the merge of their chains, exactly so, and the arena stays sound |
| GlrResolve.MergeOptionSets | bison/data/glr.c:1550-1599 | pair after pair of states from the top down agree, until the right-hand sides are done or meet: the arena left is exactly the one on values, it stays sound, and nothing of the rank of the options changes |
| GlrChoice.PickNext | bison/data/glr.c:1604-1624 | one more option changes the choice as precedences and mergers say, exactly if it can be combined with the best so far: they are on a level and share a merger, or both have precedences |
| GlrChoice.ClashIsReal | bison/data/glr.c:1842-1879 | if the selection fails, two different options are of equal precedence without a common merger, or of different ones with one missing; otherwise there was such a choice at every option, all but duplicates are kept, and the one chosen ranks above all before it and no lower than any after it |
| GlrChoice.ClashIsFirst | bison/data/glr.c:1842-1866 | the options that clash are the best of those before and the next one |
| GlrChoice.ChosenLevels | bison/data/glr.c:1604-1624 | where several options are kept, all have precedences or none has |
| GlrChoice.IdenticalOptions | bison/data/glr.c:1529-1546 | true exactly for the same rule with the same positions throughout |
| GlrChoice.Choose | bison/data/glr.c:1827-1879 | in place, exactly the selection among the options of the state, failing exactly if that does; what is left is the arena in which every duplicate of the best option so far has been merged into it and dropped, in this order, and nothing else; selecting again among those kept gives the same |
| GlrTrace.ChoiceMeans | bison/data/glr.c:1842-1879 | so for the options of a state |
| GlrTrace.ChoiceExists | bison/data/glr.c:1842-1879 | where any two different options of a state have different precedences, or equal ones and a common merger, there is a choice |
| GlrTrace.StuckMeansClash | bison/data/glr.c:1842-1866 | a state is stuck only if the arena held, to begin with, two different options of the same symbol and span with no precedence between them and no common merger |
| GlrTrace.CallStuck | bison/data/glr.c:1827-1913 | a state whose preferred options call for the value of a stuck state is stuck |
| GlrTrace.RunDrops | bison/data/glr.c:1842-1851 | the duplicates dropped in a selection, each of the option that the selection has found best before it, are steps of the resolution |
| GlrEvaluate.DeeperValue | bison/data/glr.c:1827-1913 | the recursion of yyresolveValue on values yields the same arena, or the same failure, for every depth allowed that is enough |
| GlrEvaluate.DeeperStates | bison/data/glr.c:1635-1647 | so does that of yyresolveStates |
| GlrValues.ResolveStates | bison/data/glr.c:1635-1647 | the states of a right-hand side are resolved lowest first, with exactly the outcome and the arena of the recursion on values, failure included; a state of them that fails is stuck; nothing of higher rank changes |
| GlrValues.ResolveAction | bison/data/glr.c:1654-1692 | the outcome and the arena are exactly those of the recursion on values; the value of an option is its rule applied to the values that its right-hand side then has, a derivation of its left-hand side over its span; on failure a state of the right-hand side is stuck |
| GlrValues.MergeOthers | bison/data/glr.c:1882-1903 | outcome, arena and value are exactly those of the loop on values: the values merged are those of the actions of exactly the remaining options of the same precedence, in order, each in the arena of its turn |
| GlrValues.ResolveValue | bison/data/glr.c:1827-1913 | it ends for every grammar that is not cyclic, with exactly the outcome and the arena of the recursion on values: the state gets the merge of the values of the actions of the options selected, or loses its options where one of these fails, or fails itself exactly where the selection does |
| GlrReturn.ResolveStack | bison/data/glr.c:1915-1931 | all states above the split point on the only stack get values, lowest first, or there is a state without a choice: outcome and arena are exactly those of the recursion on values |
| GlrReturn.YieldsOne | bison/data/glr.c:1915-1931 | a stack has only one such outcome: the values that resolution finds, or its failure, are determined by the stack, the precedences and the mergers |
| GlrReturn.ReturnKeeps | bison/data/glr.c:1915-1961 | resolution followed by compression restores the invariant and keeps the sequence of states |
| GlrReturn.RevaluedCompress | bison/data/glr.c:1934-1961 | storing the values found is enough: compression of the arena with nothing else changed gives the same stack |
| HashSpec.OneMoreFits | bison/lib/hash.c:999-1018 | while entries move back to a table of the original size, one more overflow node never exceeds what the original layout had |
| HashSpec.SameBuckets | bison/lib/hash.c:999-1018 | the same entries in a table of the same size are in the same buckets |
| HashSpec.PositionInBucket | bison/lib/hash.c:306-331 | where in its bucket an entry of the walk is |
| HashTables.HashTable.AllocateEntry | bison/lib/hash.c:750-770 | a node comes from the free list first, and it fails exactly if that is empty and the allocator refuses |
| HashTables.HashTable.Relink | bison/lib/hash.c:877-899 | moving an overflow node uses it or frees it |
| HashTables.HashTable.Store | bison/lib/hash.c:909-927 | storing an entry asks for a node exactly if its bucket is taken and no node is free, and fails exactly if that is refused |
| HashTables.MoveOverflow | bison/lib/hash.c:877-899 | the overflow of a bucket moves without any allocation |
| HashTables.MoveHead | bison/lib/hash.c:900-930 | the head of a bucket moves, asking for a node exactly if its new bucket is taken and no node is free, or stays where it was exactly if that node is refused |
| HashTables.TransferEntries | bison/lib/hash.c:859-932 | a transfer loses no entry, asks for no more nodes than buckets are used, and fails exactly if one is refused; a safe one asks for no memory; one back into the original size cannot fail |
| HashTables.Undo | bison/lib/hash.c:999-1018 | the two passes of the rollback never ask for memory and never fail |
| HashTables.Rehash | bison/lib/hash.c:942-1019 | contents survive whatever the allocator does; with a size and memory it succeeds; it asks for no more nodes than buckets are used, fails exactly for want of a size, of the array or of a node asked for, and leaves the same buckets with the same entries and the same counts then |
| HashTables.Lookup | bison/lib/hash.c:260-283 | finds an entry exactly if one matches |
| HashTables.FindEntry | bison/lib/hash.c:789-851 | finds the matching entry and, on request, takes exactly it out |
| HashTables.InsertIfAbsent | bison/lib/hash.c:1037-1116 | 0 exactly if an entry matches, and nothing is asked for then; 1 after adding one, -1 without changing the contents and exactly if the resizing that is due or a node is refused, for any timing; without a due resizing one node is asked for if the bucket is taken and none is free, and none otherwise |
| HashTables.Delete | bison/lib/hash.c:1147-1204 | removes exactly the matching entry, for any timing of shrinking |
| HashTables.GetEntries | bison/lib/hash.c:335-361 | writes the walk as far as the buffer has room |
| HashTables.GetFirst | bison/lib/hash.c:287-301 | the first entry of the walk; the abort in it is unreachable |
| HashTables.GetNext | bison/lib/hash.c:306-331 | the next entry of the walk |
| HashTables.Walk | bison/lib/hash.c:287-361 | the walk sees every entry exactly once, in the order of hash_get_entries |
| GetoptSpec.PlanSplits | bison/lib/getopt.c:382-459 | a scan that ends is a stable partition of the vector into options with their arguments, non-options and what follows "--" |
| GetoptUses.KindsDeclared | bison/lib/getopt.c:785-1059 | an option string says of every character how it was declared: no argument, one, or an optional one |
| GetoptUses.ClusterTold | bison/lib/getopt.c:785-1124 | the characters of an element return the options written in it, the last one with its argument, attached or in the next element, absent or wanting |
| GetoptUses.RoundTrip | bison/lib/getopt.c:382-1124 | from the vector that stands for any uses of the options declared, interleaved with operands, a scan returns exactly these uses, and the operands move behind them, both in order |
| GetoptUses.EveryVector | bison/lib/getopt.c:382-1124 | every vector whose scan ends stands for some uses, so that the round trip covers all of them |
| GetoptSpec.EndsWithoutW | bison/lib/getopt.c:1053-1055 | without a long W in the option string every scan ends |
| GetoptSpec.EveryScanEnds | bison/lib/getopt.c:1053-1055 | and only then |
| GetoptSpec.EndlessExactly | bison/lib/getopt.c:1053-1055 | the scan of a vector is endless if and only if, stepping from element to element, it comes to an option element that holds a long W before its last character, after options without arguments only |
| GetoptSpec.EndlessGoesOn | bison/lib/getopt.c:1053-1055 | an endless scan always has a next return |
| GetoptSpec.HangsAgain | bison/lib/getopt.c:1053-1055 | after a long W with characters behind it the scan looks at the same element again: the returns to come are those of that element over and over, and nothing else is planned |
| GetoptSpec.EndlessExample | bison/lib/getopt.c:1053-1055 | with a long W the scan of `prog -Wx` is endless |
| Getopt.RotatedSlices | bison/lib/getopt.c:134-220 | the two blocks change places, each in its own order |
| Getopt.Rotate | bison/lib/getopt.c:143-220 | the loop of exchange is that block swap |
| Getopt.Scanner.Exchange | bison/lib/getopt.c:143-220 | options move in front of the non-options skipped before them, both in order |
| Getopt.Scanner.Permute | bison/lib/getopt.c:386-410 | advancing to the next element changes nothing about the outcome of the scan |
| Getopt.Scanner.StartElement | bison/lib/getopt.c:412-458 | "--" is an option, all after it non-options; at the end optind is where the non-options start |
| Getopt.Scanner.Decode | bison/lib/getopt.c:785-1124 | the return for one option character is the next of the plan |
| Getopt.Scanner.Next | bison/lib/getopt.c:382-1124 | one call returns the next result of the plan, or -1 with the vector permuted as planned |
| Getopt.ScanAll | bison/lib/getopt.c:382-1124 | for every vector without such an element a whole run of calls returns the results, the final vector and optind of the plan |
| Getopt.KeepCalling | bison/lib/getopt.c:382-1124 | for every vector with one any number of calls all return an option, never -1: first those planned, and then those of the element on which the scan hangs, round after round |
| Closure.OneMore | bison/lib/bitsetv.c:111-120 | allowing one more inner node: paths through it are pairs of paths to and from it |
| Closure.TransitiveClosure | bison/lib/bitsetv.c:108-120 | a bit is set in the end exactly if there is a non-empty path |
| Closure.ReflexiveTransitiveClosure | bison/lib/bitsetv.c:123-135 | or, in this version, if it is on the diagonal |
| Bitsets.UpIsExact | bison/lib/abitset.c:200-298 | the enumeration of a range has every set bit of it once, ascending |
| Bitsets.DownIsExact | bison/lib/abitset.c:137-193 | and its mirror image, descending |
| Bitsets.WindowHit | bison/lib/bitset.h:136-174 | one unsigned comparison tells whether a word is cached |
| Bitsets.Bitset.List | bison/lib/abitset.c:200-298 | the first set bits from next on, up to the number asked for, with no set bit between the last of them and the new next |
| Bitsets.Bitset.SmallList | bison/lib/abitset.c:45-101 | the same for bitsets of one word |
| Bitsets.Bitset.ListReverse | bison/lib/abitset.c:137-193 | the mirror image, counting from the top, in spite of the wrap-around below the first word |
| Bitsets.Bitset.ForEach | bison/lib/bitset.h:315-322 | the loop body sees every set bit from the minimum on once, ascending |
| Bitsets.Bitset.ForEachReverse | bison/lib/bitset.h:337-344 | the same downwards |
| Bitsets.Bitset.Count | bison/lib/bitset.c:363-382 | the number of set bits |
| Bitsets.Bitset.Next | bison/lib/bitset.c:224-236 | the least set bit from a number on, or the maximal index if there is none |
| Bitsets.Bitset.Prev | bison/lib/bitset.c:246-258 | the greatest set bit below a limit that is counted from the top |
| Bitsets.Bitset.OnlySet | bison/lib/bitset.c:276-287 | true exactly if the bit is set and no other is |
| Bitsets.Bitset.UnusedClear | bison/lib/abitset.c:301-311 | clears the unused bits of the last word and no others |
| Bitsets.Bitset.Ones | bison/lib/abitset.c:314-324 | sets exactly the used bits |
| Bitsets.Bitset.Not | bison/lib/abitset.c:366-377 | complements the used bits, also in place, and leaves the unused ones clear |
| Bitsets.Bitset.Set | bison/lib/bitset.h:134-145 | sets one bit |
| Bitsets.Bitset.Reset | bison/lib/bitset.h:148-159 | resets one bit |
| Bitsets.Bitset.Test | bison/lib/bitset.h:162-173 | tests a bit, in or out of range |
| Bitsets.Bitset.Copy | bison/lib/bitset.c:385-402 | makes the same bits set as in the source |
| FatalSignal.RegistersKeeps | bison/lib/fatal-signal.c:205-245 | every step of a registration keeps the live array holding all counted actions |
| FatalSignal.InterruptsKeeps | bison/lib/fatal-signal.c:151-175 | so does the arrival of a signal at any point |
| FatalSignal.HandlesKeeps | bison/lib/fatal-signal.c:151-175 | so does every step of the handler, nested or not |
| FatalSignal.FetchSafe | bison/lib/fatal-signal.c:155-166 | the handler reads only written slots of an array that has not been freed |
| FatalSignal.RegistrarSafe | bison/lib/fatal-signal.c:216-245 | the registration copies and stores within the arrays and never frees the live one |
| FatalSignal.NothingDropped | bison/lib/fatal-signal.c:205-245 | an action once asked for is on its way to be counted in, behind those before it, through all steps and signals |
| FatalSignal.RegistrationEnds | bison/lib/fatal-signal.c:205-245 | a registration that is not interrupted comes to its end, and its action has been counted in then |
| FatalSignal.RegistrarProceeds | bison/lib/fatal-signal.c:205-245 | it is never stuck |
| FatalSignal.StartedInReverse | bison/lib/fatal-signal.c:151-175 | at any time of any run the actions started are registered ones, in reverse order, none twice |
| FatalSignal.ExactlyOnce | bison/lib/fatal-signal.c:151-175 | without nested signals every registered action has been started exactly once when the signal is raised again |
| FatalSignal.HandlerProceeds | bison/lib/fatal-signal.c:151-175 | the handler is never stuck |
| FatalSignal.HandlerEnds | bison/lib/fatal-signal.c:151-175 | without further signals the handler comes to its end |
| Scaling.Pow2Sum | bison/lib/frexp.c:94-99 | the powers of two that repeated squaring builds |
| Scaling.ScaleDown | bison/lib/frexp.c:88-122 | scaling a number from 1 on into the range of the refinement, with fewer than 32 table entries |
| Scaling.ScaleUp | bison/lib/frexp.c:123-146 | the same for numbers below 1 |
| Scaling.Refine | bison/lib/frexp.c:149-157 | the halving of the interval down to the range from 1/2 to 1 |
| Scaling.FrExp | bison/lib/frexp.c:57-168 | mantissa times power is the argument, the mantissa is from 1/2 to 1 exclusively, and the exponent is within range |
| Scaling.SplitUnique | bison/lib/frexp.c:57-168 | no other mantissa and exponent do |
| Scaling.ZeroBitStays | bison/lib/ldexpl.c:59-70 | once the bit has become 0 the loop is never left |
| Scaling.BitLoop | bison/lib/ldexpl.c:59-70 | the loop over the bits, with the wrap-around of an int, is left exactly for exponents below 2^30 in absolute value, with the product |
| Scaling.LdExp | bison/lib/ldexpl.c:39-76 | the product with the power of two comes back if and only if the exponent is below 2^30 in absolute value or the number is 0; what happens for all other exponents |
| Scaling.RoundTrip | bison/lib/ldexpl.c:39-76 | scaling undoes splitting exactly for 0 and for numbers from 2^-2^30 up to 2^(2^30 - 1), exclusively, in absolute value |
| Primes.UpToRoot | bison/lib/hash.c:443-456 | an odd number without odd divisors up to its root is prime |
| Primes.IsPrime | bison/lib/hash.c:440-456 | it ends, and decides primality for every odd size_t from 11 on |
| Primes.NextPrime | bison/lib/hash.c:459-476 | it ends with the least prime no less than the candidate and 10, or with the maximal size exactly if there is none |
| Primes.LeastPrime | bison/lib/hash.c:462-476 | where the search stops: no prime has been passed over, and the maximal size is not prime |

## Left out

- The m4 layer, debugging output, error messages, locations, destructors and user code: actions are free
  functions, `longjmp` is a result.
- yacc.c: `YYERROR`, `YYACCEPT`, `yyerrok`, actions that change `yychar`, `yyoverflow` and the push interface;
  the call of `yy_lac` before a verbose error message (bison/data/yacc.c:1814) and those for the tokens expected in it.
- LacParser.ReducesPromised: excepts a token kept by error recovery in a state that reduces by default, where the
  code does not ask, by design (bison/data/yacc.c:917-922).
- Lac.Scratch.Check: the number of actions until the token's fate is known is a ghost parameter, because on
  tables with an endless chain of reductions both `yy_lac` and the parser hang.
- glr.c: rules that are evaluated at once in nondeterministic operation (`yyimmediate`), saved lookaheads,
  `yylastDeleted` and the undeletion of stacks, error recovery and `yyresolveLocations`. That the parse is complete
  is stated with respect to the automaton that the tables describe, not to the grammar.
- tables.c: the states, their lookahead sets and the precedences that decide which tokens are errors are parameters;
  the size of the array of conflict lists is not modelled.
- TablePacker.Packer.PackVector: gives up where the search comes to the end of arrays whose last cell is in use; the
  code fails an assertion there (bison/src/tables.c:694), or looks beyond the end (bison/src/tables.c:721).
- GlrProcess.ProcessOneStack: takes a bound on the number of steps, because for some grammars with empty
  rules reductions go on for ever. `GlrParse` has the same bound; for grammars without cycles and empty rules
  `GlrHalts.ParseHalts` says that it is not reached if it is large enough, for others that is not stated.
- GlrParse.TakeTurn: that the assertion `yystate != YYFINAL` holds is proved for tables in which one state at most
  shifts the end marker, and to the final state (`LrTables.EndsOnce`); a grammar that uses the end marker in
  rules of its own may have others.
- GlrParse.Nondeterministic: where the bound is reached, the assertion fails or the values are ambiguous, what is left
  on the arena is not stated.
- GlrStack.GlrStack.Split: the array of stack tops is a sequence; that growing it can fail is not modelled.
- GlrValues.ResolveValue: for grammars that are not cyclic only; the merge function of the user must yield
  a derivation of the same tokens from the same symbol when given two. `GlrOptions` to `GlrReturn` work on an
  array of cells linked by index, not on the addresses of `GlrStack`: nothing is allocated while values are
  resolved, so base addresses do not change. `GlrParse.Resolve` reads that array off the arena and stores the
  values found, which is all that compression looks at; the code works on the items themselves.
- GlrStack.GlrStack.Expand: the arena of a configuration that holds a clobbered value is not followed.
- hash.c: chains are sequences, so the identity of overflow nodes is their number only; the tuning in floating
  point is an arbitrary choice of when to resize and to what size; a hasher that goes out of range, on which
  the code aborts, is excluded; hash_clear, hash_free, hash_do_for_each and statistics.
- getopt.c: long options, the orderings other than permutation, printing, and callers that move `optind`.
- bitsets: ebitset.c, lbitset.c and vbitset.c, and the bitwise operations on two or three operands, which
  would only add easy members. Words are sequences of bits.
- FatalSignal: installation of the handlers and the blocking of signals; handlers do not register actions,
  and re-raising the signal ends the process, as the code assumes.
- Scaling: rounding, NaN and infinities; signed overflow is taken to wrap round.
- Table entries are unbounded integers; the widths that the generator picks for them hold all of them.
- bison/data/lalr1.cc, lalr1.java, glr.cc and the Urbi launchers: repeat what is modelled, or I/O.
