/**
  Synthesis after K was raised.  The table is filled in with the first bound tried, at which
  forward images are capped too early: it is safe exactly when the bound was never raised.
*/
module RaisedBound {
  import opened Vectors
  import opened Game
  import opened Automata
  import opened Actioners
  import opened Pickers
  import opened Runs
  import opened Synthesis
  import opened Controller
  import opened TransitionEncoding
  import opened KBoundedSafetyAut

  // --- A specification that is won at K and at no smaller bound ---------------------------------

  const NO_INPUT: Bits := []
  const STAY := Letter([], [true])
  const LEAVE := Letter([], [false])

  function LadderEdges(K: int, p: nat): seq<Edge>
    requires 2 <= K
  {
    if p < K - 1 then [Edge(p + 1, {STAY, LEAVE})] else [Edge(K - 1, {STAY})]
  }

  // K - 1 accepting states in a row; in the last one the run may be kept alive, or dropped.
  function Ladder(K: int): Automaton
    requires 2 <= K
  {
    Automaton(0, seq(K, i => 0 < i), seq(K, i requires 0 <= i => LadderEdges(K, i)))
  }

  lemma LadderSteps(K: int, p: nat, q: nat, l: Letter)
    requires 2 <= K
    ensures Steps(Ladder(K), p, q, l) <==>
            if p < K - 1 then q == p + 1 && l in {STAY, LEAVE} else p == K - 1 && q == K - 1 && l == STAY
  {
    var aut := Ladder(K);
    if p < K {
      assert aut.out[p] == LadderEdges(K, p);
      if p < K - 1 {
        assert Edge(p + 1, {STAY, LEAVE}) in aut.out[p];
      } else {
        assert Edge(K - 1, {STAY}) in aut.out[p];
      }
    }
  }

  // The counters after climbing.
  function Rungs(K: int): Vec {
    seq(if K <= 0 then 0 else K, i => i)
  }

  // Letting go stays below the generator at K; keeping the run alive seems to at every smaller bound.
  lemma RungsAnswered(K: int, k: int, l: Letter)
    requires 2 <= K && 1 <= k <= K && (if k == K then l == LEAVE else l == STAY)
    ensures Leq(Forward(Rungs(K), LetterAction(Ladder(K), l), k), Rungs(K))
  {
    var aut, v := Ladder(K), Rungs(K);
    hide Ladder, Forward, LetterAction;
    assert aut.Valid() && aut.Size() == K && forall q :: 0 <= q < K ==> aut.acc[q] == (0 < q) by {
      LadderValid(K);
    }
    ForwardAlongLetter(aut, l, v, k, 0);
    forall q | 0 <= q < K
      ensures Forward(v, LetterAction(aut, l), k)[q] <= q
    {
      ForwardAlongLetter(aut, l, v, k, q);
      if Forward(v, LetterAction(aut, l), k)[q] != -1 {
        var p: nat :| Steps(aut, p, q, l) && v[p] != -1 &&
                      Forward(v, LetterAction(aut, l), k)[q] == Min(k, v[p] + Bump(aut.acc[q]));
        LadderSteps(K, p, q, l);
      }
    }
  }

  lemma LadderValid(K: int)
    requires 2 <= K
    ensures Ladder(K).Valid() && Ladder(K).Size() == K && Ladder(K).init == 0
    ensures forall q :: 0 <= q < K ==> Ladder(K).acc[q] == (0 < q)
  {
  }

  // --- Its runs --------------------------------------------------------------------------------

  function Climb(K: int, m: nat): seq<nat>
    requires 2 <= K
  {
    seq(m + 1, i requires 0 <= i => if i < K then i else K - 1)
  }

  lemma {:induction false} ClimbVisits(K: int, m: nat)
    requires 2 <= K
    ensures Visits(Ladder(K), Climb(K, m)) == m
  {
    if m > 0 {
      ClimbVisits(K, m - 1);
      assert Climb(K, m)[..m] == Climb(K, m - 1);
    }
  }

  lemma ClimbIsRun(K: int, w: seq<Letter>)
    requires 2 <= K
    requires forall k :: 0 <= k < |w| ==> w[k] == STAY || (|w| < K && w[k] == LEAVE)
    ensures IsRun(Ladder(K), w, Climb(K, |w|))
  {
    var r := Climb(K, |w|);
    forall k | 0 <= k < |w|
      ensures Steps(Ladder(K), r[k], r[k + 1], w[k])
    {
      LadderSteps(K, r[k], r[k + 1], w[k]);
    }
  }

  function Blank(m: nat): seq<Bits> {
    seq(m, _ => NO_INPUT)
  }

  lemma {:induction false} WordIs(strat: Strategy, m: nat)
    ensures |Word(strat, Blank(m))| == m
    ensures forall k :: 0 <= k < m ==> Word(strat, Blank(m))[k] == Letter(NO_INPUT, strat(Blank(k + 1)))
  {
    if m > 0 {
      WordIs(strat, m - 1);
      assert Blank(m)[..m - 1] == Blank(m - 1);
    }
  }

  // The run that climbs as long as the controller lets it.
  lemma ClimbBreaks(K: int, strat: Strategy, m: nat)
    requires 2 <= K
    requires forall k: nat :: 1 <= k <= m ==> strat(Blank(k)) == [true] || (m < K && strat(Blank(k)) == [false])
    ensures !Bounds(strat, Ladder(K), {NO_INPUT}, m)
  {
    var w := Word(strat, Blank(m));
    WordIs(strat, m);
    ClimbIsRun(K, w);
    ClimbVisits(K, m);
    assert AllIn(Blank(m), {NO_INPUT});
    assert !WordBounded(Ladder(K), w, m);
  }

  lemma LadderLostBelow(K: int, k: int)
    requires 1 <= k < K
    ensures !SomeStrategy(Ladder(K), {NO_INPUT}, {[true], [false]}, {STAY, LEAVE}, k)
  {
    forall strat: Strategy | Legal(strat, {NO_INPUT}, {[true], [false]}, {STAY, LEAVE})
      ensures !Bounds(strat, Ladder(K), {NO_INPUT}, k)
    {
      forall j: nat | 1 <= j <= k
        ensures strat(Blank(j)) in {[true], [false]}
      {
        assert LegalAt(strat, {[true], [false]}, {STAY, LEAVE}, Blank(j));
      }
      ClimbBreaks(K, strat, k);
    }
  }

  lemma LadderClosed(K: int)
    requires 2 <= K
    ensures AllInBox([Rungs(K)], K, K, K) && Contains([Rungs(K)], InitVec(K, 0))
    ensures IsClosedDown(ArenaOf(Ladder(K), {NO_INPUT}, {[true], [false]}, {STAY, LEAVE}), [Rungs(K)], K, K, K)
  {
    var F, g := [Rungs(K)], ArenaOf(Ladder(K), {NO_INPUT}, {[true], [false]}, {STAY, LEAVE});
    assert Leq(InitVec(K, 0), F[0]);
    RungsAnswered(K, K, LEAVE);
    hide Ladder, Forward, LetterAction, Leq, Rungs;
    forall A | A in g
      ensures !Loses(A, F, F[0], K)
    {
      assert A == Moves(Ladder(K), {[true], [false]}, {STAY, LEAVE}, NO_INPUT);
      assert Letter(NO_INPUT, [false]) == LEAVE;
      assert LetterAction(Ladder(K), LEAVE) in A;
      assert Leq(Forward(F[0], LetterAction(Ladder(K), LEAVE), K), F[0]);
    }
    assert Answered(g, F, F[0], K);
    GeneratorsSuffice(g, F, K, K, K);
  }

  // --- The table filled in with a smaller bound ----------------------------------------------------

  function LadderActions(K: int): seq<Action>
    requires 2 <= K
  {
    [Action(LetterAction(Ladder(K), STAY), Some(STAY)), Action(LetterAction(Ladder(K), LEAVE), Some(LEAVE))]
  }

  // The first output of the list appears to stay in the region, so the table never lets go.
  ghost function RaisedTable(Kfrom: int, K: int): Synthesized
    requires 2 <= K
  {
    Synthesized(Ladder(K), {NO_INPUT}, {[true], [false]}, {STAY, LEAVE}, Kfrom, K, [Rungs(K)],
                [InputActions({NO_INPUT}, LadderActions(K))], [NO_INPUT], [Rungs(K)], [[Transition(STAY, 0)]])
  }

  lemma RaisedTableBuilt(Kfrom: int, K: int)
    requires 1 <= Kfrom < K
    ensures RaisedTable(Kfrom, K).Built()
  {
    var s := RaisedTable(Kfrom, K);
    LadderValid(K);
    LadderServed(K);
    assert Leq(InitVec(K, 0), Rungs(K)) && LadderActions(K)[0].io == Some(STAY);
    RungsAnswered(K, Kfrom, STAY);
    hide Ladder, Forward, LetterAction, Leq, Rungs, Serves, InitVec;
    assert Leads(LadderActions(K), Kfrom, s.states[0], STAY, s.states[0]);
    assert RowOk(s.L, Kfrom, s.states, 0, s.transitions[0], 1);
  }

  lemma LadderServed(K: int)
    requires 2 <= K
    ensures LadderActions(K) != []
    ensures Serves(Ladder(K), NO_INPUT, {[true], [false]}, {STAY, LEAVE}, LadderActions(K))
  {
    var acts := LadderActions(K);
    hide Ladder, LetterAction;
    assert acts[0].io == Some(STAY) && acts[1].io == Some(LEAVE);
    assert Letter(NO_INPUT, [true]) == STAY && Letter(NO_INPUT, [false]) == LEAVE;
    assert Offered(acts, STAY) && Offered(acts, LEAVE);
    forall j | 0 <= j < 2
      ensures ServesAt(Ladder(K), NO_INPUT, {[true], [false]}, {STAY, LEAVE}, acts[j])
    {
    }
  }

  // It is the table of the search from the initial vector.
  ghost predicate FoundTable(s: Synthesized) {
    && s.aut.init < s.aut.Size()
    && exists visits :: Explored(s.L, s.K, s.F, InitVec(s.aut.Size(), s.aut.init), s.states, s.transitions, visits)
  }

  lemma RaisedTableFound(Kfrom: int, K: int)
    requires 1 <= Kfrom < K
    ensures FoundTable(RaisedTable(Kfrom, K))
  {
    var s := RaisedTable(Kfrom, K);
    var visits := [Visit([0], 1), Visit([], 1)];
    var succ := Forward(s.states[0], LadderActions(K)[0].vec, Kfrom);
    RungsAnswered(K, Kfrom, STAY);
    LadderValid(K);
    assert Leq(InitVec(K, 0), Rungs(K));
    hide Ladder, Forward, LetterAction, Leq, Rungs, BornIn, Finds;
    assert FirstAbove(s.F, InitVec(K, 0), s.states[0]) by {
      assert IsFirstAbove(s.F, InitVec(K, 0), 0);
    }
    assert FirstStay(LadderActions(K), s.F, Kfrom, s.states[0], 0, succ);
    assert IsFirstAbove(s.states, succ, 0);
    MoveIsChosen(LadderActions(K), s.F, Kfrom, s.states, 0, Transition(STAY, 0), 0, succ);
    hide Chosen, FirstAbove, LadderActions;
    assert ChosenRow(s.L, s.F, Kfrom, s.states, 0, s.transitions[0]);
    assert VisitOk(s.L, s.F, Kfrom, s.states, s.transitions, visits[0], visits[1]);
    assert Explored(s.L, Kfrom, s.F, InitVec(K, 0), s.states, s.transitions, visits);
  }

  lemma OnlyStays(Kfrom: int, K: int)
    requires 2 <= K
    ensures StepOf(RaisedTable(Kfrom, K).transitions, 0, NO_INPUT) == Transition(STAY, 0)
  {
    var transitions := RaisedTable(Kfrom, K).transitions;
    assert transitions[0] == [Transition(STAY, 0)];
    assert TableMove(transitions, 0, NO_INPUT, Transition(STAY, 0));
  }

  lemma {:induction false} StaysAtZero(transitions: Table, m: nat)
    requires StepOf(transitions, 0, NO_INPUT) == Transition(STAY, 0)
    ensures StateAfter(transitions, Blank(m)) == 0
  {
    hide StepOf;
    if m > 0 {
      StaysAtZero(transitions, m - 1);
      assert Blank(m)[..m - 1] == Blank(m - 1);
      assert Blank(m)[m - 1] == NO_INPUT;
    }
  }

  lemma AlwaysStays(transitions: Table, m: nat)
    requires StepOf(transitions, 0, NO_INPUT) == Transition(STAY, 0) && 1 <= m
    ensures TableStrategy(transitions)(Blank(m)) == [true]
  {
    hide StepOf;
    StaysAtZero(transitions, m - 1);
    hide StateAfter;
    assert Blank(m)[..m - 1] == Blank(m - 1);
    assert Blank(m)[m - 1] == NO_INPUT;
  }

  // A game won at K and at no smaller bound, its region at K, and a table built from it with an
  // earlier bound: every circuit extracted from that table lets runs enter accepting states for ever.
  lemma RaisedTableUnsafe(Kfrom: int, K: int, c: Circuit, m: nat)
    requires 1 <= Kfrom < K
    ensures var s := RaisedTable(Kfrom, K);
            && s.Built() && FoundTable(s) && AllInBox(s.F, K, s.t, K) && Contains(s.F, InitVec(K, s.aut.init))
            && IsClosedDown(ArenaOf(s.aut, s.ins, s.outs, s.inv), s.F, K, s.t, K)
            && (forall k :: 1 <= k <= K ==> (SomeStrategy(s.aut, s.ins, s.outs, s.inv, k) <==> k == K))
            && !Bounds(s.Strat(), s.aut, s.ins, m)
            && (c.Refines(TableEncoding(s.transitions, c.bits)) ==> !Bounds(c.Strat(), s.aut, s.ins, m))
  {
    var s := RaisedTable(Kfrom, K);
    RaisedTableBuilt(Kfrom, K);
    RaisedTableFound(Kfrom, K);
    OnlyStays(Kfrom, K);
    LadderClosed(K);
    LadderValid(K);
    hide SomeStrategy, IsClosedDown, AllInBox, Contains, Bounds, Synthesized.Built, Circuit.Refines, Agree;
    hide TableStrategy, FoundTable;
    hide ArenaOf, Ladder, Rungs, LadderActions, StepOf;
    ClosedIsRealizable(s.aut, s.t, s.ins, s.outs, s.inv, s.F, K);
    forall k | 1 <= k < K
      ensures !SomeStrategy(s.aut, s.ins, s.outs, s.inv, k)
    {
      LadderLostBelow(K, k);
    }
    forall k: nat | 1 <= k <= m
      ensures s.Strat()(Blank(k)) == [true]
    {
      AlwaysStays(s.transitions, k);
    }
    ClimbBreaks(K, s.Strat(), m);
    if c.Refines(TableEncoding(s.transitions, c.bits)) {
      CircuitAgrees(s, c);
      AgreeBackwards(c.Strat(), s.Strat(), s.ins);
      AgreeingStrategies(s.Strat(), c.Strat(), s.aut, s.ins, s.outs, s.inv, m);
    }
  }

  lemma AgreeBackwards(strat: Strategy, strat': Strategy, ins: set<Bits>)
    requires Agree(strat, strat', ins)
    ensures Agree(strat', strat, ins)
  {
  }

  // Every table the search finds with the bound Kfrom in a region closed at K keeps runs below K.
  ghost predicate TablesAreSafe(Kfrom: int, K: int) {
    forall s: Synthesized ::
      s.Built() && FoundTable(s) && s.K == Kfrom && FromRegionAt(s, K) ==> Bounds(s.Strat(), s.aut, s.ins, K)
  }

  ghost predicate FromRegionAt(s: Synthesized, K: int) {
    && s.aut.init < s.aut.Size()
    && AllInBox(s.F, s.aut.Size(), s.t, K) && Contains(s.F, InitVec(s.aut.Size(), s.aut.init))
    && IsClosedDown(ArenaOf(s.aut, s.ins, s.outs, s.inv), s.F, s.aut.Size(), s.t, K)
  }

  // Synthesis is safe exactly when K was never raised.
  lemma SafeIffNeverRaised(Kfrom: int, K: int)
    requires 1 <= Kfrom <= K
    ensures TablesAreSafe(Kfrom, K) <==> K == Kfrom
  {
    if K == Kfrom {
      hide AllInBox, Contains, IsClosedDown, Synthesized.Built, Bounds, TableStrategy, FoundTable;
      forall s: Synthesized | s.Built() && FoundTable(s) && s.K == Kfrom && FromRegionAt(s, K)
        ensures Bounds(s.Strat(), s.aut, s.ins, K)
      {
        ControllerIsSafe(s);
      }
    } else {
      var s := RaisedTable(Kfrom, K);
      RaisedTableUnsafe(Kfrom, K, Circuit([], [], 0), K);
      LadderValid(K);
      hide AllInBox, Contains, IsClosedDown, Synthesized.Built, Bounds, TableStrategy, FoundTable, Ladder;
      assert FromRegionAt(s, K);
    }
  }
}
