/**
  What one worker does with one job: turn a formula's automaton into a game or recognise an
  invariant, or solve a game; and what a set of formulas asks of a strategy.
*/
module Jobs {
  import opened Vectors
  import opened Game
  import opened Automata
  import opened Actioners
  import opened Pickers
  import opened Solver
  import opened Runs
  import opened Merging
  import opened Composition
  import opened Invariants
  import opened KBoundedSafetyAut

  // A formula after translation and preprocessing.  The loop provides for one that needs no automaton,
  // `Trivial`, although translating for realizability, as composition does, always yields one.
  datatype Formula = Trivial | Translated(aut: Automaton, threshold: nat)

  datatype Job = FormulaJob(f: Formula) | SolveJob(game: SafetyGame)

  datatype Report = GameReport(game: SafetyGame) | InvariantReport(condition: set<Letter>) | NullReport

  // The conjunction of formulas to be realized, at a fixed K.
  datatype Spec = Spec(formulas: seq<Formula>, ins: set<Bits>, outs: set<Bits>, K: int) {
    function Letters(): set<Letter> {
      AllLetters(ins, outs)
    }

    ghost predicate Valid() {
      ins != {} && outs != {} && 1 <= K <= 127 && forall id :: 0 <= id < |formulas| ==> ValidFormula(formulas[id])
    }

    // The translation has saturated Boolean states, and in an automaton that looks like an invariant
    // no letter of the condition read off it leaves the initial state (see Invariants.NoParallelEdgesSuffice).
    ghost predicate ValidFormula(f: Formula) {
      f.Translated? ==>
        && f.aut.Valid() && Saturated(f.aut, f.threshold, {})
        && (LooksInvariant(f.aut, Letters()) ==> LeavesOutside(f.aut, Condition(f)))
    }

    ghost predicate IsInvariantFormula(f: Formula) {
      f.Translated? && f.aut.Valid() && LooksInvariant(f.aut, Letters())
    }

    ghost predicate IsGameFormula(f: Formula) {
      f.Translated? && f.aut.Valid() && !LooksInvariant(f.aut, Letters())
    }

    // The condition read off an invariant; true for other formulas.
    ghost function Condition(f: Formula): set<Letter> {
      if IsInvariantFormula(f) then LastCond(f.aut.out[f.aut.init], f.aut.init).value else Letters()
    }

    // Every run of the formula's automaton on every word of the strategy stays below K.
    ghost predicate Satisfies(strat: Strategy, f: Formula) {
      f.Translated? ==> Bounds(strat, f.aut, ins, K)
    }

    // The strategy satisfies all formulas at K.
    ghost predicate Realizes(strat: Strategy) {
      Legal(strat, ins, outs, Letters()) && forall id :: 0 <= id < |formulas| ==> Satisfies(strat, formulas[id])
    }

    ghost predicate IsRealizable() {
      exists strat: Strategy :: Realizes(strat)
    }

    // The conjunction of the invariants among these formulas.
    ghost function InvariantOf(ids: set<nat>): set<Letter> {
      set l | l in Letters() && forall id :: id in ids && id < |formulas| ==> l in Condition(formulas[id])
    }

    ghost function FinalInvariant(): set<Letter> {
      set l | l in Letters() && forall id :: 0 <= id < |formulas| ==> l in Condition(formulas[id])
    }

    ghost predicate SatisfiesAll(strat: Strategy, ids: set<nat>) {
      forall id :: id in ids && id < |formulas| ==> Satisfies(strat, formulas[id])
    }

    ghost function Games(): set<nat> {
      set id: nat | id < |formulas| && IsGameFormula(formulas[id])
    }

    // The automaton asks of a strategy exactly what these formulas ask.
    ghost predicate Stands(aut: Automaton, ids: set<nat>) {
      forall strat: Strategy :: Bounds(strat, aut, ins, K) <==> SatisfiesAll(strat, ids)
    }
  }

  // --- Strategies and invariants -----------------------------------------------------------------------

  lemma ConditionIsRead(s: Spec, f: Formula)
    requires s.ValidFormula(f) && s.IsInvariantFormula(f)
    ensures IsMonitor(f.aut, s.Letters(), s.Condition(f))
  {
    RecognisedIsMonitor(f.aut, s.Letters(), s.Condition(f));
  }

  lemma SatisfiedInvariant(s: Spec, strat: Strategy, f: Formula)
    requires s.Valid() && s.ValidFormula(f) && s.IsInvariantFormula(f) && Legal(strat, s.ins, s.outs, s.Letters())
    ensures s.Satisfies(strat, f) <==> Legal(strat, s.ins, s.outs, s.Condition(f))
  {
    ConditionIsRead(s, f);
    hide Bounds, Legal, AllLetters, IsMonitor, LooksInvariant, LeavesOutside;
    MonitorBounds(f.aut, strat, s.ins, s.outs, s.Condition(f), s.K);
  }

  // Obeying the conjunction of all invariants is satisfying each formula that is one.
  lemma FinalInvariantIsDemanded(s: Spec, strat: Strategy)
    requires s.Valid() && s.Realizes(strat)
    ensures Legal(strat, s.ins, s.outs, s.FinalInvariant())
  {
    hide Bounds, LeavesOutside, LooksInvariant, AllLetters;
    forall h | AllIn(h, s.ins) && h != []
      ensures LegalAt(strat, s.outs, s.FinalInvariant(), h)
    {
      assert LegalAt(strat, s.outs, s.Letters(), h);
      var l := Letter(h[|h| - 1], strat(h));
      forall id: nat | id < |s.formulas|
        ensures l in s.Condition(s.formulas[id])
      {
        if s.IsInvariantFormula(s.formulas[id]) {
          SatisfiedInvariant(s, strat, s.formulas[id]);
          assert LegalAt(strat, s.outs, s.Condition(s.formulas[id]), h);
        }
      }
    }
  }

  lemma LegalWeaken(strat: Strategy, ins: set<Bits>, outs: set<Bits>, c: set<Letter>, c': set<Letter>)
    requires Legal(strat, ins, outs, c) && c <= c'
    ensures Legal(strat, ins, outs, c')
  {
    forall h | AllIn(h, ins) && h != []
      ensures LegalAt(strat, outs, c', h)
    {
      assert LegalAt(strat, outs, c, h);
    }
  }

  lemma ObeyingSatisfies(s: Spec, strat: Strategy, id: nat)
    requires s.Valid() && id < |s.formulas| && !s.IsGameFormula(s.formulas[id])
    requires Legal(strat, s.ins, s.outs, s.FinalInvariant())
    ensures s.Satisfies(strat, s.formulas[id])
  {
    hide Bounds, Legal, LeavesOutside, LooksInvariant, AllLetters, Saturated;
    LegalWeaken(strat, s.ins, s.outs, s.FinalInvariant(), s.Letters());
    LegalWeaken(strat, s.ins, s.outs, s.FinalInvariant(), s.Condition(s.formulas[id]));
    if s.IsInvariantFormula(s.formulas[id]) {
      SatisfiedInvariant(s, strat, s.formulas[id]);
    }
  }

  lemma RealizingWins(s: Spec, aut: Automaton, ids: set<nat>, strat: Strategy)
    requires s.Valid() && s.Stands(aut, ids) && s.Realizes(strat)
    ensures SomeStrategy(aut, s.ins, s.outs, s.FinalInvariant(), s.K)
  {
    hide Bounds, Legal, Spec.Valid, Spec.Satisfies, Spec.FinalInvariant;
    FinalInvariantIsDemanded(s, strat);
    assert s.SatisfiesAll(strat, ids);
  }

  // A game standing for some of the formulas that has no strategy settles the whole.
  lemma LosingPart(s: Spec, aut: Automaton, ids: set<nat>)
    requires s.Valid() && s.Stands(aut, ids) && !SomeStrategy(aut, s.ins, s.outs, s.FinalInvariant(), s.K)
    ensures !s.IsRealizable()
  {
    hide SomeStrategy, Spec.Stands, Spec.Realizes, Spec.Valid;
    if strat: Strategy :| s.Realizes(strat) {
      RealizingWins(s, aut, ids, strat);
    }
  }

  // A strategy that obeys all invariants and keeps the bound of a game standing for all formulas that
  // became games satisfies every formula.
  lemma WinningRealizes(s: Spec, aut: Automaton, ids: set<nat>, strat: Strategy)
    requires s.Valid() && s.Stands(aut, ids) && s.Games() <= ids
    requires Legal(strat, s.ins, s.outs, s.FinalInvariant()) && Bounds(strat, aut, s.ins, s.K)
    ensures s.Realizes(strat)
  {
    hide Bounds, Legal, Spec.Valid, Spec.Satisfies, Spec.FinalInvariant, Spec.IsGameFormula;
    ObeyingAllowed(s, strat);
    assert s.SatisfiesAll(strat, ids);
    forall id: nat | id < |s.formulas|
      ensures s.Satisfies(strat, s.formulas[id])
    {
      if s.IsGameFormula(s.formulas[id]) {
        assert id in s.Games();
      } else {
        ObeyingSatisfies(s, strat, id);
      }
    }
  }

  // A game standing for all formulas that became games decides the whole.
  lemma WholeGame(s: Spec, aut: Automaton, ids: set<nat>)
    requires s.Valid() && s.Stands(aut, ids) && s.Games() <= ids
    ensures s.IsRealizable() <==> SomeStrategy(aut, s.ins, s.outs, s.FinalInvariant(), s.K)
  {
    if !SomeStrategy(aut, s.ins, s.outs, s.FinalInvariant(), s.K) {
      LosingPart(s, aut, ids);
    } else {
      hide Bounds, Legal, Spec.Valid, Spec.Realizes, Spec.FinalInvariant, Spec.Games, Spec.Stands;
      var strat: Strategy :| Legal(strat, s.ins, s.outs, s.FinalInvariant()) && Bounds(strat, aut, s.ins, s.K);
      WinningRealizes(s, aut, ids, strat);
    }
  }

  lemma ObeyingAllowed(s: Spec, strat: Strategy)
    requires Legal(strat, s.ins, s.outs, s.FinalInvariant())
    ensures Legal(strat, s.ins, s.outs, s.Letters())
  {
    LegalWeaken(strat, s.ins, s.outs, s.FinalInvariant(), s.Letters());
  }

  // With invariants and trivial formulas only, realizability is a matter of single letters.
  lemma OnlyInvariants(s: Spec)
    requires s.Valid() && s.Games() == {}
    ensures s.IsRealizable() <==> EveryInputAnswered(s.ins, s.outs, s.FinalInvariant())
  {
    LegalIffAnswered(s.ins, s.outs, s.FinalInvariant());
    hide Bounds, Legal, Spec.Valid, Spec.Satisfies, Spec.FinalInvariant, Spec.IsGameFormula, EveryInputAnswered;
    if strat: Strategy :| Legal(strat, s.ins, s.outs, s.FinalInvariant()) {
      ObeyingAllowed(s, strat);
      forall id: nat | id < |s.formulas|
        ensures s.Satisfies(strat, s.formulas[id])
      {
        assert id !in s.Games();
        ObeyingSatisfies(s, strat, id);
      }
      assert s.Realizes(strat);
    }
    if strat: Strategy :| s.Realizes(strat) {
      FinalInvariantIsDemanded(s, strat);
    }
  }

  lemma StandsForOne(s: Spec, id: nat)
    requires id < |s.formulas| && s.formulas[id].Translated?
    ensures s.Stands(s.formulas[id].aut, {id})
  {
    hide Bounds;
  }

  lemma StandsForBoth(s: Spec, a1: Automaton, a2: Automaton, m: Automaton, e1: seq<nat>, e2: seq<nat>, ids1: set<nat>,
                      ids2: set<nat>)
    requires s.Stands(a1, ids1) && s.Stands(a2, ids2) && IsMerge(a1, a2, m, e1, e2) && 1 <= s.K
    ensures s.Stands(m, ids1 + ids2)
  {
    hide Bounds, IsMerge, Spec.Satisfies;
    forall strat: Strategy
      ensures Bounds(strat, m, s.ins, s.K) <==> s.SatisfiesAll(strat, ids1 + ids2)
    {
      MergeBounds(a1, a2, m, e1, e2, strat, s.ins, s.K);
    }
  }

  // When every formula that is not a game has been absorbed, the conjunction is complete.
  lemma CompleteInvariant(s: Spec, ids: set<nat>)
    requires s.Valid() && forall id: nat :: id < |s.formulas| ==> id in ids || s.IsGameFormula(s.formulas[id])
    ensures s.InvariantOf(ids) == s.FinalInvariant()
  {
    hide AllLetters, LooksInvariant, LastCond, LeavesOutside, Saturated;
    forall l
      ensures l in s.InvariantOf(ids) <==> l in s.FinalInvariant()
    {
      if l in s.InvariantOf(ids) {
        forall id: nat | id < |s.formulas|
          ensures l in s.Condition(s.formulas[id])
        {
        }
      }
    }
  }

  // --- Games in transit ------------------------------------------------------------------------------

  // A start or a region good enough for the final invariant, for a game that stands for `ids`;
  // if it is marked solved, it is closed under the invariant it was solved with.
  ghost predicate GameOk(s: Spec, game: SafetyGame, roots: set<nat>, ids: set<nat>) {
    && Ready(game, roots, s.ins, s.outs, s.FinalInvariant(), s.K)
    && s.Stands(game.aut, ids)
    && (game.solved ==> IsSolved(s, game))
  }

  ghost predicate IsSolved(s: Spec, game: SafetyGame) {
    && game.safe.Some? && game.aut.Valid()
    && IsClosedDown(ArenaOf(game.aut, s.ins, s.outs, game.under), game.safe.value, game.aut.Size(), game.threshold, s.K)
  }

  // Solving from a start that is complete for a stronger invariant misses nothing for that one.
  lemma SolvedKeepsComplete(aut: Automaton, t: nat, roots: set<nat>, ins: set<Bits>, outs: set<Bits>, inv: set<Letter>,
                            inv': set<Letter>, K: int, F0: seq<Vec>, W: iset<Vec>)
    requires inv' <= inv && W == Region(ArenaOf(aut, ins, outs, inv'), K, Rooted(aut.Size(), t, K, roots))
    requires Covers(F0, W)
    ensures W <= Region(ArenaOf(aut, ins, outs, inv), K, Down(F0, aut.Size(), t, K))
  {
    var g, g' := ArenaOf(aut, ins, outs, inv), ArenaOf(aut, ins, outs, inv');
    var n := aut.Size();
    StrongerIsHarder(aut, ins, outs, inv, inv');
    RegionIsGreatest(g', K, Rooted(n, t, K, roots));
    hide ArenaOf, Winning, Contains, InBox;
    forall v | v in W
      ensures v in Down(F0, n, t, K)
    {
      assert v in Rooted(n, t, K, roots);
    }
    assert Stable(g', K, Down(F0, n, t, K), W);
    RegionIsGreatest(g', K, Down(F0, n, t, K));
    RegionWeaker(g, g', K, Down(F0, n, t, K));
  }

  // The largest closed subset of the game's start under `inv`, if it has the initial vector.
  ghost predicate SolvedUnder(s: Spec, game: SafetyGame, inv: set<Letter>, safe: Option<seq<Vec>>) {
    && game.safe.Some? && game.aut.init < game.aut.Size()
    && var W := Region(ArenaOf(game.aut, s.ins, s.outs, inv), s.K,
                       Down(game.safe.value, game.aut.Size(), game.threshold, s.K));
       && (safe.Some? <==> InitVec(game.aut.Size(), game.aut.init) in W)
       && (safe.Some? ==> AllInBox(safe.value, game.aut.Size(), game.threshold, s.K) &&
                          Down(safe.value, game.aut.Size(), game.threshold, s.K) == W)
  }

  lemma SolvedExactly(s: Spec, game: SafetyGame, inv: set<Letter>, safe: Option<seq<Vec>>)
    requires game.safe.Some? && game.aut.init < game.aut.Size() && 1 <= s.K
    requires SolvedFrom(ArenaOf(game.aut, s.ins, s.outs, inv), game.safe.value, game.aut.Size(), game.threshold,
                        game.aut.init, s.K, safe, s.K, 0)
    ensures SolvedUnder(s, game, inv, safe)
  {
    hide ArenaOf, Region, Contains, InitVec, AllInBox, IsClosedDown, Down;
    if safe.Some? {
      DownHasInit(safe.value, game.aut.Size(), game.threshold, s.K, game.aut.init);
    }
  }

  method SolveGame(s: Spec, game: SafetyGame, inv: set<Letter>, ghost roots: set<nat>, ghost ids: set<nat>)
    returns (solved: SafetyGame)
    requires s.Valid() && GameOk(s, game, roots, ids) && s.FinalInvariant() <= inv
    ensures solved == game.(safe := solved.safe, solved := true, under := inv)
    ensures SolvedUnder(s, game, inv, solved.safe)
    ensures solved.safe.Some? ==> GameOk(s, solved, roots, ids)
    ensures solved.safe.None? ==> !SomeStrategy(game.aut, s.ins, s.outs, s.FinalInvariant(), s.K)
  {
    hide Saturated, AllInBox, Contains, InitVec, SolvedCompletely, SolvedFrom, Spec.FinalInvariant, Spec.Stands;
    hide SomeStrategy, SolvedLast, IsClosedDown, ArenaOf, Region, Covers, Spec.ValidFormula, SolvedUnder;
    var r, K, steps, starts := Solve(game.aut, game.threshold, s.K, s.K, 0, s.ins, s.outs, inv, game.safe.value, roots);
    solved := game.(safe := r, solved := true, under := inv);
    SolvedExactly(s, game, inv, r);
    if r.Some? {
      SolvedIsOk(s, game, solved, roots, ids);
    } else {
      UnsolvedIsLosing(s, game, inv, roots);
    }
  }

  lemma SolvedIsOk(s: Spec, game: SafetyGame, solved: SafetyGame, roots: set<nat>, ids: set<nat>)
    requires s.Valid() && GameOk(s, game, roots, ids) && s.FinalInvariant() <= solved.under
    requires solved == game.(safe := solved.safe, solved := true, under := solved.under) && solved.safe.Some?
    requires SolvedFrom(ArenaOf(game.aut, s.ins, s.outs, solved.under), game.safe.value, game.aut.Size(),
                        game.threshold, game.aut.init, s.K, solved.safe, s.K, 0)
    ensures GameOk(s, solved, roots, ids)
  {
    var W := SafeRegion(game, roots, s.ins, s.outs, s.FinalInvariant(), s.K);
    hide Saturated, AllInBox, InitVec, Spec.FinalInvariant, Spec.Stands, ArenaOf, Region, Contains, IsClosedDown;
    SolvedKeepsComplete(game.aut, game.threshold, roots, s.ins, s.outs, solved.under, s.FinalInvariant(), s.K,
                        game.safe.value, W);
    forall v | v in W
      ensures Contains(solved.safe.value, v)
    {
      assert v in Down(solved.safe.value, game.aut.Size(), game.threshold, s.K);
    }
    assert SafeRegion(solved, roots, s.ins, s.outs, s.FinalInvariant(), s.K) == W;
  }

  lemma UnsolvedIsLosing(s: Spec, game: SafetyGame, inv: set<Letter>, roots: set<nat>)
    requires s.Valid() && Ready(game, roots, s.ins, s.outs, s.FinalInvariant(), s.K) && s.FinalInvariant() <= inv
    requires SolvedFrom(ArenaOf(game.aut, s.ins, s.outs, inv), game.safe.value, game.aut.Size(), game.threshold,
                        game.aut.init, s.K, None, s.K, 0)
    ensures !SomeStrategy(game.aut, s.ins, s.outs, s.FinalInvariant(), s.K)
  {
    var W := SafeRegion(game, roots, s.ins, s.outs, s.FinalInvariant(), s.K);
    hide Saturated, AllInBox, Spec.FinalInvariant, ArenaOf, Contains, SomeStrategy, Covers, InitVec, Winning;
    SolvedKeepsComplete(game.aut, game.threshold, roots, s.ins, s.outs, inv, s.FinalInvariant(), s.K, game.safe.value,
                        W);
    assert InitVec(game.aut.Size(), game.aut.init) !in W;
    InitWinsIffRealizable(game.aut, game.threshold, roots, s.ins, s.outs, s.FinalInvariant(), s.K);
    RealizableIffStrategy(game.aut, s.ins, s.outs, s.FinalInvariant(), s.K);
  }

  // --- The worker ----------------------------------------------------------------------------------------

  // A new game starts from one vector: every counter at K - 1, every Boolean component at 0.
  ghost predicate IsFreshGame(s: Spec, f: Formula, game: SafetyGame)
    requires f.Translated?
  {
    && game.aut == f.aut && game.threshold == f.threshold && !game.solved && game.under == s.Letters()
    && game.safe.Some? && |game.safe.value| == 1 && |game.safe.value[0]| == f.aut.Size()
    && forall q :: 0 <= q < f.aut.Size() ==> game.safe.value[0][q] == if q < f.threshold then s.K - 1 else 0
  }

  method PrepareFormula(s: Spec, f: Formula) returns (game: Option<SafetyGame>)
    requires s.Valid() && s.ValidFormula(f)
    ensures game.None? <==> f.Trivial?
    ensures game.Some? ==>
              && IsFreshGame(s, f, game.value)
              && Ready(game.value, {}, s.ins, s.outs, s.FinalInvariant(), s.K)
  {
    hide Saturated, AllInBox, Contains, InitVec, Covers, Spec.FinalInvariant, LooksInvariant, LeavesOutside;
    match f
    case Trivial =>
      return None;
    case Translated(aut, threshold) =>
      SaturatedThreshold(aut, threshold, {});
      var allK := AllK(aut.Size(), threshold, s.K);
      AllKIsComplete(aut, threshold, {}, s.ins, s.outs, s.FinalInvariant(), s.K, allK);
      return Some(SafetyGame(aut, threshold, Some([allK]), false, s.Letters()));
  }

  // What comes back for a formula: nothing, the condition of an invariant, or a game to be solved.
  ghost predicate FormulaReport(s: Spec, f: Formula, r: Report) {
    && (f.Trivial? ==> r == NullReport)
    && (s.IsInvariantFormula(f) ==> r == InvariantReport(s.Condition(f)))
    && (s.IsGameFormula(f) ==> r.GameReport? && IsFreshGame(s, f, r.game) &&
                               Ready(r.game, {}, s.ins, s.outs, s.FinalInvariant(), s.K))
  }

  // What comes back for a game: its region under the invariant sent along, or that it is lost.
  ghost predicate SolveReport(s: Spec, game: SafetyGame, inv: set<Letter>, roots: set<nat>, ids: set<nat>, r: Report) {
    && r.GameReport? && r.game == game.(safe := r.game.safe, solved := true, under := inv)
    && SolvedUnder(s, game, inv, r.game.safe)
    && (r.game.safe.Some? ==> GameOk(s, r.game, roots, ids))
    && (r.game.safe.None? ==> !SomeStrategy(game.aut, s.ins, s.outs, s.FinalInvariant(), s.K))
  }

  // One round of the child's loop.
  method BeChild(s: Spec, job: Job, inv: set<Letter>, ghost roots: set<nat>, ghost ids: set<nat>) returns (r: Report)
    requires s.Valid() && s.FinalInvariant() <= inv
    requires job.FormulaJob? ==> s.ValidFormula(job.f)
    requires job.SolveJob? ==> GameOk(s, job.game, roots, ids)
    ensures job.FormulaJob? ==> FormulaReport(s, job.f, r)
    ensures job.SolveJob? ==> SolveReport(s, job.game, inv, roots, ids, r)
  {
    hide Saturated, Spec.FinalInvariant, LooksInvariant, LeavesOutside, Ready, Spec.Stands, IsSolved, SomeStrategy;
    hide LastCond;
    match job
    case SolveJob(game) =>
      var solved := SolveGame(s, game, inv, roots, ids);
      r := GameReport(solved);
    case FormulaJob(f) =>
      var prepared := PrepareFormula(s, f);
      if prepared.None? {
        return NullReport;
      }
      var isInv, condition := IsInvariant(prepared.value.aut, s.Letters());
      r := if isInv then InvariantReport(condition) else GameReport(prepared.value);
  }
}
