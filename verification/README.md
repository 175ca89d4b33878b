# Verification of the K-bounded safety game solver

This project models, in Dafny, the part of the repository that decides whether a specification
given by universal co-Buechi automata is realizable and builds a controller for it, and proves
what that part relies on.

The automaton is played as a game on counter vectors: component q is -1 when no run is in state
q, and otherwise the largest number of accepting states a run ending in q has entered.  Counter
states (those below the threshold) range over -1..K-1, Boolean states over -1..0.  A downset is
the list of its generators, as in the source; a letter is a pair of an input and an output
valuation, and a Boolean function is the set of valuations that satisfy it.

| file | what it models |
|---|---|
| Vectors, Game | vectors, downsets, the forward and backward transformers, safe regions |
| Automata, Runs | automata, runs, and what counter vectors say about runs and strategies |
| Actioners | `src/actioners/standard.hh` |
| Pickers | `src/input_pickers/critical_pq.hh` and its form without priorities, `critical.hh` |
| Solver, KBoundedSafetyAut | `solve`, `cpre_inplace`, and the solver and `synthesis` end to end |
| StandardIOs, Powset, FakeVars, CompressedIOs | the three precomputers of inputs and outputs |
| Synthesis, Controller, Extraction, TransitionEncoding | the strategy table, its encoding, the extracted functions, and their safety over whole runs |
| Aiger, AigerController | the and-inverter graph and its behaviour as a controller |
| WinRegion | the vector bits of `winregion` and their reader in `scripts/simwreg.py` |
| SurelyLosing, ForwardSaturation, Renaming | the automaton reductions |
| Merging, Composition | merging automata and safe regions |
| Invariants | recognising G(c), and the two ways of enforcing it |
| RaisedBound | synthesis after K was raised |
| Jobs, Ledgers, Scheduler | the worker and the master process of a composition, under every order of reports |
| Counting | cardinality facts used by several files |

Methods over mutable state (`Actioner`, `CriticalPqPicker`, `LetterIt`, `AigerGraph`, `Composer`,
`CompositionMt` and the array passes) are proved against functions and predicates of the values
they hold; the lemmas are about those.  `Scheduler` lets any worker with a job report next, so its
postconditions hold for every interleaving; its ledger exists in the specification only.

Where the source reads differently from what one would expect:

- `composition_mt::epilogue` declares a composition of invariants only realizable without asking
  whether every input has an output: `Scheduler.OnlyInvariantsVerdict` gives the exact condition and
  `Scheduler.ConflictMisjudged` an input on which the answer is wrong.
- `is_invariant` keeps only the last edge of each kind, so parallel edges into the sink are
  overlooked: `Invariants.RecognisedIsMonitor` and `Invariants.ParallelEdgesMisread`.  `Jobs` asks of
  translated formulas that no letter of the condition read also leads into the sink;
  `Invariants.NoParallelEdgesSuffice` shows that one edge per destination is enough.
- `forward_saturation` counts an accepting initial state twice and may therefore miss a bounded
  state: `ForwardSaturation.InitialStateCountedTwice`.  `ForwardSaturation.FoundIffPlainlyBounded` says
  exactly when it does not.
- The assertion on `cbit` in the mask loop of `winregion` is stricter than the loop needs; the model
  has the loop without it, `WinRegion.EncodeComponent` says when it would have held, and
  `WinRegion.LargestValueTripsAssertion` names the values on which it fails.
- `synthesis` makes its actioner with `Kfrom` (src/k-bounded_safety_aut.hh:514) even after `solve`
  raised K.  Forward images are then capped too early and the table may lead to a circuit that bounds
  nothing: `RaisedBound.RaisedTableUnsafe` and, for the exact condition, `RaisedBound.SafeIffNeverRaised`.
- Elements are signed 8-bit numbers, so K goes up to 127; `Actioners.OverflowBound` shows that this is
  also where forward steps stop being exact.

Merging adds a state that nothing enters and that may lead to Boolean states.  Such states are
called roots; regions are stated for vectors that never count at a root, which all vectors that the
game reaches from the initial one satisfy.

## Model

| member | source | states |
|---|---|---|
| Vectors.MeetsIsIntersection | src/k-bounded_safety_aut.hh:201 | the pairwise minima kept by intersecting two downsets dominate exactly the vectors that both downsets contain |
| Game.FwdAtIsMax | src/actioners/standard.hh:140-145 | a forward component is the largest capped contribution of the active predecessors, and -1 exactly when none is active |
| Game.ForwardMonotone | src/actioners/standard.hh:134-156 | forward images respect domination, on every vector with entries from -1 |
| Game.BackAtIsMin | src/actioners/standard.hh:145-147 | a value stays below a backward component iff it is below the reset value and every outgoing edge of that state tolerates it |
| Game.Galois | src/actioners/standard.hh:134-156 | for boxed vectors, forward(f) is below m iff f is below backward(m), for every action, dimension, threshold and K |
| Game.RegionIsGreatest | src/k-bounded_safety_aut.hh:74-138 | the vectors from which the controller can stay inside a set for ever form the greatest closed subset of it |
| Game.RegionWeaker | src/composition/composition_mt.hh:237-240 | withdrawing outputs (a stronger invariant) can only shrink the safe region, so a region solved earlier stays an overestimation |
| Game.ShiftSimulates | src/k-bounded_safety_aut.hh:115-131 | playing at K + Kinc is simulated at K by the vector lowered by Kinc, Boolean states being inactive |
| Game.ShiftOfSafeIsSafe | src/k-bounded_safety_aut.hh:115-131 | lowering a vector that is safe at K + Kinc gives one that is safe at K |
| Game.ShiftRaise | src/k-bounded_safety_aut.hh:119-128 | a vector lowered by Kinc is below a generator iff the vector itself is below the raised generator |
| Game.WinningDownward | src/k-bounded_safety_aut.hh:74-138 | everything below a safe vector is safe |
| Game.BooleanBoxExact | src/composition/composition_mt.hh:783-786 | capping Boolean components at 0 in the starting vector changes no winner: a rooted vector is safe in the capped box iff it is safe when only "below K" is asked of every component |
| Automata.LetterActionMember | src/actioners/standard.hh:178-179 | the predecessors listed for a state under a letter are exactly the automaton's transitions into it, each with that state's acceptance |
| Automata.SaturatedIsProper | src/boolean_states/forward_saturation.hh:54-66 | an automaton whose Boolean states do not accept and are entered from Boolean states (or roots) only yields a game in which every action has that property |
| Runs.VecCountsRuns | src/actioners/standard.hh:134-156 | after any word from the initial vector a component is -1 iff no run ends there, and otherwise the largest number of accepting states entered by such a run, capped at K |
| Runs.BoundedInBox | src/k-bounded_safety_aut.hh:93-100 | the iterated vector has all entries below K iff no run on the word has entered K accepting states |
| Runs.RealizableIffStrategy | src/k-bounded_safety_aut.hh:74-138 | the initial vector is safe at K iff some strategy, using allowed outputs only, keeps every run of the automaton below K accepting states on every input sequence |
| Actioners.OverflowBound | src/actioners/standard.hh:144 | on the elements a downset holds, up to K - 1, a forward contribution computed in signed 8-bit elements is exact iff K is at most 127 |
| Actioners.FwdAtSaturated | src/actioners/standard.hh:149-151 | once K is reached the remaining predecessors cannot change the component, so the early exit loses nothing |
| Actioners.Actioner.constructor | src/actioners/standard.hh:79-123 | the reset vector holds K - 1 on counter and 0 on Boolean states, and the merged action lists present the same game as the table of inputs, each list once |
| Actioners.Actioner.SetK | src/actioners/standard.hh:125-130 | raising K rewrites the counter part of the reset vector and leaves the actions alone |
| Actioners.Actioner.Apply | src/actioners/standard.hh:134-156 | the in-place buffer ends as the forward image, or as the backward image, of the vector |
| Actioners.ComputeActionVec | src/actioners/standard.hh:165-182 | the appended lists are, for every state, its predecessors in the transition set in order |
| Actioners.MergeInputs | src/actioners/standard.hh:92-122 | merging inputs with equal action lists keeps the game; every kept entry is some input's list under the name of the first input that has it, every input's list is kept, and no two entries are equal |
| Pickers.GeneratorsSuffice | src/input_pickers/critical_pq.hh:21-26 | no generator is one-step-losing iff no vector of the whole downset is |
| Pickers.PermutedArena | src/input_pickers/critical_pq.hh:58-59 | reordering outputs inside inputs leaves the game unchanged |
| Pickers.TryInput | src/input_pickers/critical_pq.hh:36-59 | the input is reported iff every one of its outputs leads the generator out of F, and then nothing changes; otherwise the first output that does not is moved to the front, the others keep their order, and no other input changes |
| Pickers.CriticalPicker.Pick | src/input_pickers/critical.hh:16-79 | none is returned iff no generator is one-step-losing; otherwise the first such generator's first witness in list order; every input tried before had its first answering output moved to the front, and nothing else changes |
| Pickers.Emplace | src/input_pickers/critical_pq.hh:72-74 | insertion into the priority queue keeps it sorted, adds exactly the new entry, and puts it after entries of equal priority |
| Pickers.CriticalPqPicker.SearchQueue | src/input_pickers/critical_pq.hh:30-60 | for one generator: the entry found is the first in priority order whose input witnesses its loss, and when none is found every input has an answer inside F; exactly the inputs tried had their first answering output moved to the front |
| Pickers.CriticalPqPicker.Pick | src/input_pickers/critical_pq.hh:20-84 | none is returned iff no generator is one-step-losing; otherwise the generators before were searched in vain, the input returned is the first witness in priority order for the next one, and its entry alone is taken out and put back, with a priority number lower by one, after the entries of that number |
| Solver.PreImage | src/k-bounded_safety_aut.hh:171-175 | applying the backward transformer to all generators gives the downset of the vectors that the action leads into F |
| Solver.CPreInplace | src/k-bounded_safety_aut.hh:157-206 | the new downset contains exactly the vectors of F from which some output of this input leads into F; an input without outputs leaves only the vector without active state |
| Solver.PredecessorExact | src/k-bounded_safety_aut.hh:157-206 | for an input with outputs, exactly the vectors that it makes one-step-losing are removed |
| Solver.PredecessorKeepsWinners | src/k-bounded_safety_aut.hh:113 | no vector of the safe region is ever removed |
| Solver.RaiseIsComplete | src/k-bounded_safety_aut.hh:119-131 | if F contains the safe region at K, the raised vectors contain the whole safe region at K + Kinc |
| Solver.RaiseAll | src/k-bounded_safety_aut.hh:119-128 | every generator has its counter components grown by Kinc and its Boolean ones set to 0, and fits the box of the larger bound |
| Solver.VolumeShrinks | src/k-bounded_safety_aut.hh:102-134 | at a fixed K every further round removes a vector of a finite space, also when the critical input has no output at all |
| Solver.ClosedDownIsStable | src/k-bounded_safety_aut.hh:107-111 | a downset without critical input is closed under the controller's choices |
| Solver.SolveLoop | src/k-bounded_safety_aut.hh:102-134 | the loop terminates, having raised K only while it was below Kto; every later start is the raise of a downset that lost the initial vector and kept the winners of the start before it; a returned downset is closed, contains the initial vector and is the greatest closed subset of the last start, and None means the initial vector is outside that subset and K reached Kto; from a complete start every K passed over is lost, a returned downset is on rooted vectors exactly the safe region at the last K, and None means the initial vector is unsafe there |
| Solver.RungIs | src/k-bounded_safety_aut.hh:117 | after j raises K is Kfrom plus j times Kinc |
| Solver.RegionExactly | src/k-bounded_safety_aut.hh:107-111 | a closed downset that misses no safe vector is the safe region, restricted to rooted vectors |
| Solver.RegionOutright | src/k-bounded_safety_aut.hh:107-111 | without roots it is the safe region outright |
| KBoundedSafetyAut.AllK | src/composition/composition_mt.hh:783-786 | the starting vector dominates every vector of the box |
| KBoundedSafetyAut.Solve | src/k-bounded_safety_aut.hh:74-138 | precomputing letters, building actions and running the loop solves the automaton's own game under the invariant, with all promises of the loop: the rungs tried, the start of each, and the exact region inside the last one |
| KBoundedSafetyAut.ClosedIsRealizable | src/k-bounded_safety_aut.hh:107-111 | any closed boxed downset with the initial vector proves that a winning strategy exists at K |
| KBoundedSafetyAut.InitWinsIffRealizable | src/composition/composition_mt.hh:783-786 | the initial vector is safe in the box with capped Boolean states iff it is safe in the uncapped game |
| KBoundedSafetyAut.VerdictIsExact | src/k-bounded_safety_aut.hh:115-131 | from a complete start no strategy exists at any K passed over, and one exists at the last K iff a downset is returned |
| KBoundedSafetyAut.Decide | src/composition/composition_mt.hh:783-786 | started from the largest vector, K takes the values Kmin, Kmin + Kinc and so on, raised only below Kto; no strategy exists at a value passed over; a region is returned iff some strategy keeps every run below the last K, and it is then the safe region on rooted vectors |
| KBoundedSafetyAut.Synthesize | src/k-bounded_safety_aut.hh:510-780 | from a downset closed at K to circuit functions, with the table filled in at Kfrom, at most K, as the program does: the table is the one the depth-first search finds, there are as many latches as the rounded-up logarithm of its size, every function is one of the two candidates left by the functions before it, outputs are always allowed, and every run stays below K on every input sequence when K is Kfrom |
| RaisedBound.RaisedTableUnsafe | src/k-bounded_safety_aut.hh:510-514 | for all Kfrom below K an automaton that is won at K and at no smaller bound, a downset closed at K, and the table the search finds there at Kfrom, with which any extracted circuit lets a run enter accepting states without bound |
| RaisedBound.SafeIffNeverRaised | src/k-bounded_safety_aut.hh:510-514 | the tables that the search finds at Kfrom in downsets closed at K all keep runs below K iff K is Kfrom |
| StandardIOs.LetterIt.GetNextLetter | src/ios_precomputers/standard.hh:49-58 | each call consumes exactly the current valuation; the iterator is exhausted when none is left |
| StandardIOs.LetterIt.SkipForbidden | src/ios_precomputers/standard.hh:91-93 | skipping ends at an allowed valuation or the end, and never passes over an allowed one |
| StandardIOs.EnumerateOutputs | src/ios_precomputers/standard.hh:80-132 | for one input, exactly the outputs the invariant allows are listed, each once, with the transitions their letter enables |
| StandardIOs.Enumerate | src/ios_precomputers/standard.hh:134-182 | every input is listed exactly once, with exactly its allowed outputs |
| StandardIOs.TableArena | src/ios_precomputers/standard.hh:80-124 | the enumerated table presents exactly the game of the automaton restricted to the invariant |
| Powset.PieceIsCell | src/ios_precomputers/powset.hh:81-92 | cutting a block by one more formula gives blocks whose list still names exactly the formulas covering them, in order |
| Powset.Distribute | src/ios_precomputers/powset.hh:79-97 | one pass over the list, splitting and erasing while iterating, turns a partition for some formulas into one for one formula more |
| Powset.Power | src/ios_precomputers/powset.hh:70-100 | the blocks are nonempty, disjoint and cover everything, and each list is exactly the formulas that cover the block, in order |
| FakeVars.WholeOrNothing | src/ios_precomputers/fake_vars.hh:52-53 | the two tests of the split condition decide the same thing |
| FakeVars.VisitVar | src/ios_precomputers/fake_vars.hh:46-75 | visiting one variable cuts its block in two, or extends its list, and leaves the variables still to be visited pointing at blocks that meet the formula |
| FakeVars.PowerFakevars | src/ios_precomputers/fake_vars.hh:11-83 | the map built with fresh variables is the same kind of partition: nonempty disjoint blocks covering everything, each with its formulas in order |
| FakeVars.SameMap | src/ios_precomputers/fake_vars.hh:11-83 | the list computed by power and the map computed by power_fakevars associate the same blocks with the same lists |
| CompressedIOs.EdgesCover | src/ios_precomputers/powset.hh:114-116 | the transitions covering a letter are those the letter enables, in enumeration order |
| CompressedIOs.BlockListsLetters | src/ios_precomputers/powset.hh:114-121 | a block of the second level lists, for each of its inputs, exactly the transition sets of that input's letters over all outputs |
| CompressedIOs.CompressedArena | src/ios_precomputers/powset.hh:109-122 | the two-level table presents the same game as enumerating every letter with a trivial invariant |
| CompressedIOs.TwoLevelsGiveTable | src/ios_precomputers/powset.hh:109-122 | two levels of partitioning, transitions over letters and crossings over inputs, always give such a table |
| CompressedIOs.PowsetIOs | src/ios_precomputers/powset.hh:109-122 | the powset precomputer puts every input in exactly one nonempty block, a block lists exactly the transition sets that each of its inputs enables with some output, and the table presents the automaton's unrestricted game |
| CompressedIOs.FakeVarsIOs | src/ios_precomputers/fake_vars.hh:92-105 | the fake_vars precomputer puts every input in exactly one nonempty block, a block lists exactly the transition sets that each of its inputs enables with some output, and the table presents the automaton's unrestricted game |
| Synthesis.GetDominatingIndex | src/k-bounded_safety_aut.hh:212-225 | the first dominating element is found, and -1 is returned iff no element dominates |
| Synthesis.GetTransition | src/k-bounded_safety_aut.hh:836-860 | the first output of the list whose image stays in the safe region is taken; one exists when the input is not losing |
| Synthesis.ExploreStrategy | src/k-bounded_safety_aut.hh:543-609 | the table is the one of a depth-first search: state 0 is the first generator above the initial vector, every move takes the first output of its list that stays in F to the first state above where it leads, a state is added only when no earlier one is above, as the first generator that is, and every state but the first is the target of a recorded transition of an earlier one; the moves are complete |
| Synthesis.FoundBefore | src/k-bounded_safety_aut.hh:560-600 | in any search in that order a state counted at some moment, other than the first, is the target of a recorded transition of an earlier state |
| Synthesis.StatesFit | src/k-bounded_safety_aut.hh:595-602 | the table never has more states than F has elements |
| Controller.TableServesAll | src/k-bounded_safety_aut.hh:514 | with the letters kept no two inputs are merged: the entries enumerate the inputs one by one, and each offers exactly the allowed letters of its input, each once |
| Controller.MoveExists | src/k-bounded_safety_aut.hh:573-608 | every state has exactly one move per input; it is allowed by the invariant and its target dominates the image |
| Controller.AlwaysDominated | src/k-bounded_safety_aut.hh:543-609 | along every input sequence the true counter vector stays below the current table state |
| Controller.ControllerIsSafe | src/k-bounded_safety_aut.hh:543-609 | the table strategy always has an allowed move and no run on any word it produces enters K accepting states |
| Controller.ControllerIsLegal | src/k-bounded_safety_aut.hh:543-609 | whatever bound the table was filled in with, the table strategy always has a move and an allowed one |
| TransitionEncoding.BinaryEncode | src/k-bounded_safety_aut.hh:239-256 | position j holds bit j of the number, and nothing of the number is left over |
| TransitionEncoding.EncodedBit | src/k-bounded_safety_aut.hh:239-256 | bit j of a code is the parity of the number divided by 2^j, for every number and width |
| TransitionEncoding.DecodeEncode | src/k-bounded_safety_aut.hh:239-256 | reading the bits back gives the number, for every number the variables can hold |
| TransitionEncoding.MappingBitsFit | src/k-bounded_safety_aut.hh:625-626 | the number of variables is enough for the states and one less would not be |
| TransitionEncoding.EncodedIsMove | src/k-bounded_safety_aut.hh:656-666 | a valuation satisfies the encoded relation at a state and input iff the table has that very move |
| TransitionEncoding.CircuitFollowsTable | src/k-bounded_safety_aut.hh:707-780 | after every input sequence the latches hold the code of the table's state and the outputs are the table's |
| TransitionEncoding.CircuitIsSafe | src/k-bounded_safety_aut.hh:707-780 | any functions satisfying the encoded relation jointly form a controller that is allowed and keeps every run below K |
| TransitionEncoding.AgreeingStrategies | src/k-bounded_safety_aut.hh:707-780 | strategies that agree on every input sequence are equally legal and keep the same bounds |
| Extraction.ChoiceKeepsDomain | src/k-bounded_safety_aut.hh:709-720 | choosing "can be true" or "cannot be false" for one output keeps every valuation in the domain, for every relation |
| Extraction.ExtractFunctions | src/k-bounded_safety_aut.hh:707-722 | one by one, whichever candidate is taken, the relation is refined to the graph of functions over the unchanged domain; each function holds exactly where its bit can be true, or exactly where it cannot be false, given the functions before it |
| Extraction.FixOutputsAndLatches | src/k-bounded_safety_aut.hh:707-780 | outputs and then latches, given the outputs, become such candidates, and together they satisfy the original encoding wherever it was defined |
| Aiger.ConstantFolding | src/aiger.hh:143-146 | each shortcut returns a literal equal to the conjunction under every assignment |
| Aiger.AigerGraph.AddGate | src/aiger.hh:139-156 | the returned literal is the conjunction of the two arguments under every assignment; it is a constant or an argument for constants, equal arguments and complements, the gate of that pair when there is one, and otherwise exactly one new gate, the smaller literal first; no gate ever joins a literal and its negation |
| Aiger.ValueKept | src/aiger.hh:133-156 | literals that exist already keep their value when gates are added |
| Aiger.FlipMeans | src/aiger.hh:201-205 | the negation of a literal cached for the complement has the value of the diagram |
| Aiger.BranchMeans | src/aiger.hh:208-221 | three gates over the two branches have the value of the diagram's branching |
| Aiger.AigerGraph.Bdd2Aig | src/aiger.hh:190-228 | the returned literal evaluates like the diagram under every assignment; a constant, a diagram or the complement of one already translated adds no gate and gives the cached literal or its negation; afterwards the diagram or its complement is cached, at no more than three gates for each diagram newly cached |
| Aiger.AskedAgain | src/aiger.hh:190-228 | asking again for a diagram or for its complement leaves gates and cache as they are, and the same diagram gives the same literal |
| Aiger.ComplementCached | src/aiger.hh:197-205 | a diagram counts as translated iff its complement does |
| Aiger.AigerGraph.AddLatch | src/aiger.hh:58-60 | the latch's next-state literal evaluates like the function, no other latch or output changes, and diagrams already translated add no gate |
| Aiger.AigerGraph.AddOutput | src/aiger.hh:63-65 | the output literal evaluates like the function, no other output or latch changes, and diagrams already translated add no gate |
| Aiger.GatesAreDistinct | src/aiger.hh:148-155 | no two gates have the same input pair or the same number, and every gate refers to smaller literals only |
| Aiger.HeaderCount | src/aiger.hh:69 | the header's maximal variable is the number of inputs, latches and gates together |
| AigerController.BuildGraph | src/aiger.hh:58-65 | after adding all outputs and latches every one of them still evaluates like its function |
| AigerController.NetIsSafe | src/k-bounded_safety_aut.hh:702-780 | the written circuit, simulated with latches starting at zero, is an allowed controller and keeps every run below K on every input sequence |
| WinRegion.EncodeComponent | src/k-bounded_safety_aut.hh:433-448 | the mask loop sets exactly the bits of the value, for every value from -1 below 2^(vec_bits-1); the assertion inside the loop would hold at every round iff the value is at most 0 or below 2^(vec_bits-2) |
| WinRegion.BitOfIs | src/k-bounded_safety_aut.hh:436-447 | the mask test on bit j is the parity of the value divided by 2^j |
| WinRegion.EncodeSuccessor | src/k-bounded_safety_aut.hh:432-449 | all components of a vector of any dimension are written, each into its own bits |
| WinRegion.BaseIs | src/k-bounded_safety_aut.hh:430-432 | component comp starts at output comp times vec_bits |
| WinRegion.InterpOutput | scripts/simwreg.py:14-27 | the reader returns the safety flag and, for an unsafe move, the encoded vector; its own assertion about negative components never fails on such bits |
| WinRegion.RoundTrip | src/k-bounded_safety_aut.hh:414-449 | what the mask loop writes is read back unchanged, for every vector whose components are at least -1 and below 2^(vec_bits-1) |
| WinRegion.VecBitsFit | src/k-bounded_safety_aut.hh:414-415 | the width always reaches Kto, and it reaches Kto only exactly, so that the value Kto itself does not fit, iff Kto is a power of two |
| WinRegion.LargestValueTripsAssertion | src/k-bounded_safety_aut.hh:414-444 | with the width chosen for Kto of at least 2 the assertion inside the loop fails on exactly the upper half of the values that fit, among them Kto - 1 always and Kto when it fits |
| SurelyLosing.ComputeMaxMin | src/aut_preprocessors/surely_losing.hh:41-47 | the value returned is the only one such that every list has a target of at most that value unless it is K + 1, and such that, unless it is 0, some list has no target of a smaller value and it is at most K + 1 |
| SurelyLosing.MaxMinIsOnly | src/aut_preprocessors/surely_losing.hh:41-47 | two values that both have this property, for the same lists and target values, are equal |
| SurelyLosing.SoundStep | src/aut_preprocessors/surely_losing.hh:41-52 | updating one state keeps the bound sound: in every safe vector an active state's counter leaves room for all the accepting visits the bound announces |
| SurelyLosing.ComputeLosing | src/aut_preprocessors/surely_losing.hh:27-54 | the sweeps terminate in a fixpoint of that property (of each state not beyond K, plus one where it accepts), no fixpoint is smaller at any state, and it is sound for the safe region |
| SurelyLosing.LosingIsDetermined | src/aut_preprocessors/surely_losing.hh:27-54 | such a least fixpoint is unique: two of them have the same states beyond K and the same values at all others |
| SurelyLosing.BeyondKIsLosing | src/aut_preprocessors/surely_losing.hh:37 | a state whose bound exceeds K is inactive in every safe vector |
| SurelyLosing.Flush | src/aut_preprocessors/surely_losing.hh:56-64 | exactly the states beyond K lose their edges and become accepting sinks |
| SurelyLosing.FlushKeepsRegion | src/aut_preprocessors/surely_losing.hh:56-64 | replacing the edges of those states by an accepting loop leaves the safe region at K unchanged, for every invariant |
| SurelyLosing.Preprocess | src/aut_preprocessors/surely_losing.hh:21-64 | the states beyond K in the least fixpoint become accepting sinks on every letter, all others keep their edges and acceptance, and initial state and safe region stay |
| ForwardSaturation.Saturate | src/boolean_states/forward_saturation.hh:28-52 | the loop terminates with values closed under every edge, each justified by a walk; nb is the number of accepting states and the running count the number of unbounded ones |
| ForwardSaturation.ValueExact | src/boolean_states/forward_saturation.hh:36-52 | up to nb + 1, a state's value is at least x iff some walk into it passes x accepting states |
| ForwardSaturation.BoundedExactly | src/boolean_states/forward_saturation.hh:32-52 | a state ends bounded iff no walk into it leaves more than nb accepting states, where a walk from an accepting initial state counts that state once more |
| ForwardSaturation.PassedIsLeft | src/boolean_states/forward_saturation.hh:32-34 | the count of the pass is the number of accepting states a walk leaves, plus one for a walk from an accepting initial state |
| ForwardSaturation.FoundIffPlainlyBounded | src/boolean_states/forward_saturation.hh:32-52 | being found bounded agrees with the plain property, that no walk into the state leaves more than nb accepting states, iff some walk leaves more, or it is not the case that the initial state accepts and some walk from it leaves exactly nb |
| ForwardSaturation.InitialStateCountedTwice | src/boolean_states/forward_saturation.hh:32-34 | that extra count has an effect: a state that no walk enters after leaving more than one accepting state, nb being 1, is found unbounded |
| ForwardSaturation.BoundedPredecessor | src/boolean_states/forward_saturation.hh:41-51 | bounded states have bounded predecessors only, and values grow strictly after an accepting one |
| ForwardSaturation.WalkBound | src/boolean_states/forward_saturation.hh:58-66 | on every walk the bounded states contribute at most nb accepting visits |
| ForwardSaturation.VerdictUnchanged | src/boolean_states/forward_saturation.hh:62-64 | erasing their acceptance changes for no infinite walk whether it meets accepting states for ever |
| ForwardSaturation.ErasedBounds | src/boolean_states/forward_saturation.hh:62-64 | a strategy bounding the original by K bounds the erased automaton by K, and one bounding the erased automaton by K bounds the original by K + nb |
| ForwardSaturation.ComputeRename | src/boolean_states/forward_saturation.hh:54-68 | the renaming is a permutation with the unbounded states first and each group in its old order |
| ForwardSaturation.RenamedIsSaturated | src/boolean_states/forward_saturation.hh:57-82 | after the pass the states from nunbounded on do not accept and are entered from each other only |
| ForwardSaturation.FindBooleanStates | src/boolean_states/forward_saturation.hh:25-83 | the whole pass returns the renaming of the erased automaton for the exact saturation values |
| ForwardSaturation.PassBounds | src/boolean_states/forward_saturation.hh:25-83 | bounds by a strategy carry over to the returned automaton, and back with nb added |
| Renaming.RenameStates | src/boolean_states/forward_saturation.hh:75-77 | every state, its acceptance and its edges appear under the new name |
| Renaming.RenamedBounds | src/boolean_states/forward_saturation.hh:75-77 | renaming changes for no strategy whether it bounds the automaton |
| Composition.Composer.MergeAut | src/composition/composition.hh:92-157 | the result is the side-by-side automaton, with the fresh initial state doing what either initial state does, under the naming that puts Boolean states last; the threshold is the sum plus one |
| Composition.NameStates | src/composition/composition.hh:121-149 | the two running indices give every state its place: counters of the first part, the new state, counters of the second, then Boolean states |
| Composition.NamingIsPermutation | src/composition/composition.hh:121-157 | no two states get the same name and no name is out of range |
| Composition.NamingKeepsOrder | src/composition/composition.hh:121-149 | counter states are named before Boolean ones, and within each kind names follow the old order |
| Composition.MergedIsMerge | src/composition/composition.hh:92-157 | each part embeds into the merged automaton with its own steps and acceptance, nothing enters the new initial state, and it steps exactly where the two initial states do |
| Composition.MergedSaturated | src/composition/composition.hh:121-157 | the merged Boolean states do not accept and are entered from Boolean states or from former initial states only |
| Composition.Composer.CombineVectors | src/composition/composition.hh:69-86 | the combined vector holds each half under its renamed positions and 0 at the new state |
| Composition.Composer.MergeSaferegions | src/composition/composition.hh:191-201 | the elements are the combinations of every pair, and nothing else |
| Composition.MergedReady | src/composition/composition.hh:191-201 | if two starts are boxed, contain their initial vectors and miss no safe vector, so does the combined start of the merged game |
| Composition.ReadyUnderMore | src/composition/composition_mt.hh:361-364 | a start that misses nothing under some invariant misses nothing under a stronger one |
| Merging.MergeBounds | src/composition/composition.hh:92-157 | a strategy keeps the merged automaton below K iff it keeps both parts below K |
| Merging.MergeOfLosing | src/composition/composition.hh:92-157 | if the merge has a winning strategy at K so has each part, under the same invariant |
| Merging.RestrictIsSafe | src/composition/composition.hh:191-201 | the restriction of a safe vector of the merge to either part is safe there |
| Invariants.IsInvariant | src/composition/composition_mt.hh:153-180 | accepted iff the automaton has two states, the second an accepting sink on every letter, and complementary conditions on the last staying and the last leaving edge; the condition returned is that of the last edge that stays |
| Invariants.PlainMonitorRecognised | src/composition/composition_mt.hh:153-180 | the plain two-state automaton of G(c) is accepted with condition c, whichever state is initial and whichever edge comes first |
| Invariants.LastCondIsLast | src/composition/composition_mt.hh:164-171 | the condition kept is that of the edge with no later edge to the same state, and there is none iff no edge leads there |
| Invariants.RecognisedIsMonitor | src/composition/composition_mt.hh:153-180 | what is accepted loses exactly on the letters outside the condition iff no letter of the condition also enables an edge into the sink |
| Invariants.NoParallelEdgesSuffice | src/composition/composition_mt.hh:164-171 | with at most one edge per destination out of the initial state, what is accepted loses exactly on the letters outside the condition |
| Invariants.ParallelEdgesMisread | src/composition/composition_mt.hh:164-171 | two parallel edges into the sink, each with a satisfiable condition, are enough for a wrong condition to be accepted |
| Invariants.MonitorBounds | src/composition/composition_mt.hh:246-269 | a strategy keeps the two-state automaton of c below any bound iff all its letters satisfy c |
| Invariants.FilterEqualsMonitor | src/composition/composition_mt.hh:246-269 | offering only outputs that satisfy c has the same winner as merging the two-state automaton and offering every output |
| Invariants.FinishInvariant | src/composition/composition_mt.hh:246-269 | an invariant other than true becomes the two-state automaton with the vector that keeps its sink inactive |
| Invariants.MonitorReady | src/composition/composition_mt.hh:260-267 | that vector misses no safe vector of the two-state automaton |
| Invariants.InvariantRealizable | src/composition/composition_mt.hh:246-269 | the two-state automaton of c is won at any K iff every input has an output satisfying c |
| Jobs.PrepareFormula | src/composition/composition_mt.hh:777-797 | the starting game of a formula is its automaton with one vector, K - 1 on counter and 0 on Boolean states; it is boxed, contains the initial vector and misses no safe vector, whatever invariant it is solved under later |
| Jobs.SolveGame | src/composition/composition_mt.hh:272-332 | solving gives exactly the largest closed subset of the start under that invariant, or none iff the initial vector is not in it; under any invariant that the final one implies it still misses nothing for the final one, and no region means no strategy at all under the final invariant |
| Jobs.BeChild | src/composition/composition_mt.hh:396-472 | a worker reports nothing, an invariant's condition or an unsolved game for a formula, and the region or a loss for a game |
| Jobs.LosingPart | src/composition/composition_mt.hh:549-552 | one lost game, standing for some of the formulas, means that no strategy satisfies all formulas |
| Jobs.WholeGame | src/composition/composition_mt.hh:361-379 | a game that stands for all game formulas has a strategy under the conjunction of all invariants iff some strategy satisfies every formula |
| Jobs.WinningRealizes | src/composition/composition_mt.hh:379-391 | a strategy that obeys the conjunction of all invariants and keeps the bound of a game standing for all game formulas satisfies every formula |
| Jobs.OnlyInvariants | src/composition/composition_mt.hh:340-359 | with invariants only, the formulas are satisfiable by a strategy iff every input has an output satisfying their conjunction |
| Ledgers.AbsorbOk | src/composition/composition_mt.hh:556-568 | absorbing an invariant keeps every formula in exactly one place, and the invariant is the conjunction of what was absorbed |
| Ledgers.ConvertOk | src/composition/composition_mt.hh:544-548 | turning a formula into a solve job keeps every formula in exactly one place and the count of solver runs balanced |
| Ledgers.StoreOk | src/composition/composition_mt.hh:208-211 | storing a solved game keeps the accounting and uses up work |
| Ledgers.MergeOk | src/composition/composition_mt.hh:212-235 | merging two solved games into one job keeps the accounting and uses up work |
| Ledgers.AtTheEnd | src/composition/composition_mt.hh:526-611 | with no job outstanding, all g game formulas are in the one stored result after exactly 2g - 1 solver runs (none if g is 0), and the invariant is the conjunction of all |
| Scheduler.Reported | src/composition/composition_mt.hh:526-543 | when a worker reports, its job and no other leaves the set of outstanding jobs |
| Scheduler.Dispatched | src/composition/composition_mt.hh:596-610 | the worker that reported takes the first job of the queue, and every outstanding job is again in the queue or with one worker |
| Scheduler.Join | src/composition/composition_mt.hh:212-229 | merging the stored and the new game pairs all their safe vectors over the side-by-side automaton, and gives a game that stands for the formulas of both and misses no safe vector |
| Scheduler.CompositionMt.AddResult | src/composition/composition_mt.hh:208-235 | without a stored result a solved game becomes it; otherwise the two are merged into one new job at the end of the queue and nothing is stored; the books stay consistent |
| Scheduler.CompositionMt.Handle | src/composition/composition_mt.hh:536-592 | each kind of report changes the stored result, the queue and the invariant as it should and nothing else; the books stay consistent and work decreases, or the loss declared is real, and it is declared for a lost game or an empty invariant only |
| Scheduler.CompositionMt.Dispatch | src/composition/composition_mt.hh:596-610 | the worker gets the first job of the queue with the invariant gathered so far, or is released iff the queue is empty; no other worker changes |
| Scheduler.CompositionMt.SpawnWorkers | src/composition/composition_mt.hh:507-523 | the worker processes start with the first jobs of the queue, in order |
| Scheduler.CompositionMt.RunWorkers | src/composition/composition_mt.hh:474-611 | for every order of reports the loop ends; if not lost, the queue is empty, no job is outstanding and the stored result holds all g game formulas after 2g - 1 solver runs |
| Scheduler.CompositionMt.Epilogue | src/composition/composition_mt.hh:334-394 | with a game formula the verdict is that some strategy satisfies all formulas; a stored game is kept if it was solved under the final invariant and solved once more otherwise; the region reported is closed under the conjunction of all invariants, and its game stands for all game formulas, also for the dummy game when every input has an output |
| Scheduler.CompositionMt.Run | src/composition/composition_mt.hh:474-611 | whatever the interleaving and number of workers, the verdict is exact when there is a game formula; with invariants only it merely says that their conjunction is satisfiable by some letter; the stored region is fit for synthesis whenever the verdict is right |
| Scheduler.CompositionMt.BuildController | src/composition/composition_mt.hh:379-391 | the circuit built from the final region satisfies every formula of the composition, games and invariants alike |
| Scheduler.CompositionMt.RunAndSynthesize | src/composition/composition_mt.hh:334-394 | for every interleaving a controller comes back iff the formulas are realizable together, and it satisfies all of them |
| Scheduler.FinalVerdict | src/composition/composition_mt.hh:361-394 | the final region exists iff the formulas are realizable together at K |
| Scheduler.OnlyInvariantsVerdict | src/composition/composition_mt.hh:340-359 | with invariants only the verdict is right iff their conjunction is unsatisfiable or leaves an output for every input |
| Scheduler.ConflictMisjudged | src/composition/composition_mt.hh:340-359 | G(i -> o) together with G(i -> !o) is declared realizable and is not |

## Left out

- Spot and BuDDy: translation, simplification, `bdd_satoneset`, state and edge storage, and node counts. The choice by node count in function extraction is arbitrary in the model, so the results hold for every choice, and the order in which BuDDy yields letters and variables is arbitrary too.
- The posets library, the bitset and SIMD layouts (`set_globals`, `static_switch`) and `src/utils/kdtree.hh`: a downset is a list of generators, kept without removing dominated ones.
- Pipes, processes, signals, worker numbers as bytes, argument parsing and printing: a worker is a job and the invariant it was sent with.
- `composition.merge_aut` after line 157 (the purge of unreachable states and the second renaming), so a renamed position is never -1 and positions of removed states are not modelled.
- `push_outputs` and checking unrealizability: they rest on Spot's minterms.
- `compute_isuccs` in `surely_losing.hh` (lines 82-111): it collects outputs over a block of inputs at once; the promise of lines 22-24 is a precondition instead.
- The purging calls after the flushing in `surely_losing.hh` (lines 67-68).
- `critical_rnd`, `critical_fullrnd`, `no_ios_precomputation`, `other.hh`, `delegate.hh`: near duplicates.
- A user-given initial configuration (`init_state`): the start is the default initial vector.
- `CPRE_AVOID_UNIONS` 1: the model has the default form with unions.
- The position at which the ordered set of action lists puts a new entry is arbitrary in the model of the actioner's constructor.
- The exploration loop of `winregion` (lines 309-379); its vector bits are modelled.
- The variant of the scheduler for precomputers that ignore invariants (lines 577-582 of `composition_mt.hh`); what it relies on is `Invariants.FilterEqualsMonitor` and `Invariants.MonitorReady`.
- Composition with several values of K: the program refuses it, so the scheduler has one K.
- Aiger.AigerGraph.Bdd2Aig: diagrams are compared by structure where the source compares ids, and neither ordering nor sharing of the diagrams is asked for; symbol names are not modelled.
- WinRegion.RoundTrip: a component equal to 2^(vec_bits-1) is outside the round trip; it can only be the value Kto with Kto a power of two.
- SurelyLosing.Preprocess: the successor lists are an argument whose promise is assumed, see `compute_isuccs` above.
- The null automaton that translating for unrealizability may give: the loop provides for it (`Formula.Trivial`), but a composition translates for realizability only.
- Scheduler.CompositionMt.RunAndSynthesize: a composition of invariants only that leaves some input without an output is excluded, because the search for a transition aborts there.
- Jobs.PrepareFormula: translation and preprocessing enter as an automaton whose Boolean states are saturated.
