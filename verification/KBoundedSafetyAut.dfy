/**
  The solver end to end: from an automaton, an invariant and a starting downset to a verdict about
  strategies, and from a solved downset to the circuit functions of a controller.
*/
module KBoundedSafetyAut {
  import opened Vectors
  import opened Game
  import opened Automata
  import opened Actioners
  import opened Pickers
  import opened Solver
  import opened StandardIOs
  import opened Runs
  import opened Synthesis
  import opened Controller
  import opened Extraction
  import opened TransitionEncoding

  // The start that dominates every vector of the box.
  method AllK(n: nat, t: nat, Kmin: int) returns (allK: Vec)
    requires t <= n && 1 <= Kmin
    ensures InBox(allK, n, t, Kmin) && forall v :: InBox(v, n, t, Kmin) ==> Leq(v, allK)
    ensures |allK| == n && forall q :: 0 <= q < n ==> allK[q] == if q < t then Kmin - 1 else 0
  {
    allK := seq(n, _ => Kmin - 1);
    for i := t to n
      invariant |allK| == n && forall j :: 0 <= j < n ==> allK[j] == if t <= j < i then 0 else Kmin - 1
    {
      allK := allK[i := 0];
    }
  }

  method Solve(aut: Automaton, threshold: nat, Kfrom: int, Kto: int, Kinc: int, ins: set<Bits>, outs: set<Bits>,
               inv: set<Letter>, F: seq<Vec>, ghost roots: set<nat>)
    returns (r: Option<seq<Vec>>, K: int, steps: nat, ghost starts: seq<seq<Vec>>)
    requires aut.Valid() && Saturated(aut, threshold, roots) && ins != {} && outs != {}
    requires 1 <= Kfrom <= 127 && 0 <= Kinc && (Kfrom < Kto ==> 1 <= Kinc && Kto + Kinc <= 128)
    requires AllInBox(F, aut.Size(), threshold, Kfrom) && Contains(F, InitVec(aut.Size(), aut.init))
    ensures RaisedBelow(Kfrom, Kto, Kinc, K, steps) && (Kto <= Kfrom ==> steps == 0)
    ensures (r.None? ==> Kto <= K) && |starts| == steps + 1
    ensures SolvedLast(Setting(ArenaOf(aut, ins, outs, inv), aut.Size(), threshold, roots, aut.init, F, Kfrom, Kinc),
                       starts, r, K)
    ensures SolvedFrom(ArenaOf(aut, ins, outs, inv), F, aut.Size(), threshold, aut.init, Kfrom, r, K, steps)
    ensures Covers(F, Region(ArenaOf(aut, ins, outs, inv), Kfrom, Rooted(aut.Size(), threshold, Kfrom, roots))) ==>
              SolvedCompletely(ArenaOf(aut, ins, outs, inv), aut.Size(), threshold, roots, aut.init, Kfrom, Kto, Kinc,
                               r, K, steps)
  {
    hide SolvedFrom, SolvedCompletely, Covers, Region, ArenaOf, ArenaOfActions, ArenaOfIOs, Saturated, AllInBox;
    hide Contains, InitVec, SolvedLast;
    hide ListsInputs, IsEnumeration, SourcesOf, CoversTable, DistinctActions, ProperArena, TableInRange;
    assert |aut.acc| == aut.Size();
    var inputsToIos, order := Enumerate(aut, ins, outs, inv);
    TableIsInRange(aut, order, outs, inv, inputsToIos);
    TableArena(aut, ins, outs, inv, inputsToIos, order);
    SaturatedIsProper(aut, threshold, roots, ins, outs, inv);
    assert threshold <= |aut.acc| by {
      SaturatedThreshold(aut, threshold, roots);
    }
    var actioner := new Actioner(aut.acc, threshold, inputsToIos, Kfrom, false);
    var inputPicker := new CriticalPqPicker(actioner);
    r, K, steps, starts := SolveLoop(actioner, inputPicker, F, aut.init, Kto, Kinc, ArenaOf(aut, ins, outs, inv),
                                     roots);
  }

  lemma SaturatedThreshold(aut: Automaton, t: nat, roots: set<nat>)
    requires Saturated(aut, t, roots)
    ensures t <= aut.Size() == |aut.acc|
  {
  }

  // --- What the verdict says about strategies ------------------------------------------------------

  lemma InitIsRooted(n: nat, t: nat, K: int, roots: set<nat>, init: nat)
    requires init < n && 1 <= K
    ensures InitVec(n, init) in Rooted(n, t, K, roots)
  {
    var v := InitVec(n, init);
    forall i | 0 <= i < n
      ensures -1 <= v[i] <= 0 <= Top(i, t, K)
    {
    }
    assert InBox(v, n, t, K);
    forall r | r in roots
      ensures At(v, r) <= 0
    {
    }
    assert v in Rooted(n, t, K, roots);
  }

  lemma InitWinsIffRealizable(aut: Automaton, t: nat, roots: set<nat>, ins: set<Bits>, outs: set<Bits>,
                              inv: set<Letter>, K: int)
    requires aut.Valid() && Saturated(aut, t, roots) && 1 <= K
    ensures InitWins(ArenaOf(aut, ins, outs, inv), aut.Size(), t, roots, K, aut.init) <==>
        Realizable(aut, ins, outs, inv, K)
  {
    hide Saturated, ArenaOf, Winning, Rooted, InitVec, ProperArena;
    SaturatedIsProper(aut, t, roots, ins, outs, inv);
    InitIsRooted(aut.Size(), t, K, roots, aut.init);
    BooleanBoxExact(ArenaOf(aut, ins, outs, inv), aut.Size(), t, roots, K, InitVec(aut.Size(), aut.init));
  }

  // A closed downset that contains the initial vector proves that some strategy wins.
  lemma ClosedIsRealizable(aut: Automaton, t: nat, ins: set<Bits>, outs: set<Bits>, inv: set<Letter>, F: seq<Vec>,
                           K: int)
    requires aut.Valid() && 1 <= K && t <= aut.Size()
    requires AllInBox(F, aut.Size(), t, K) && Contains(F, InitVec(aut.Size(), aut.init))
    requires IsClosedDown(ArenaOf(aut, ins, outs, inv), F, aut.Size(), t, K)
    ensures SomeStrategy(aut, ins, outs, inv, K)
  {
    var g, n := ArenaOf(aut, ins, outs, inv), aut.Size();
    hide ArenaOf, IsClosedDown, InitVec, Contains, AllInBox, SomeStrategy;
    ClosedDownIsStable(g, F, n, t, K);
    DownHasInit(F, n, t, K, aut.init);
    assert Winning(g, K, Box(n, t, K), InitVec(n, aut.init));
    assert Box(n, t, K) <= Box(n, n, K);
    hide IsClosed, Box, Down;
    assert InitVec(n, aut.init) in Region(g, K, Box(n, t, K));
    RealizableIffStrategy(aut, ins, outs, inv, K);
  }

  lemma DownHasInit(F: seq<Vec>, n: nat, t: nat, K: int, init: nat)
    requires init < n && 1 <= K && Contains(F, InitVec(n, init))
    ensures InitVec(n, init) in Down(F, n, t, K)
  {
    InitIsRooted(n, t, K, {}, init);
  }

  lemma FoundIsClosed(g: Arena, F0: seq<Vec>, n: nat, t: nat, init: nat, Kfrom: int, F: seq<Vec>, K: int, steps: nat)
    requires init < n && SolvedFrom(g, F0, n, t, init, Kfrom, Some(F), K, steps)
    ensures AllInBox(F, n, t, K) && Contains(F, InitVec(n, init)) && IsClosedDown(g, F, n, t, K)
  {
    hide AllInBox, Contains, IsClosedDown, InitVec, Region, Down;
  }

  // From a complete start the verdict is exact at every K tried: none before the last one has a
  // strategy, and the last one has one iff a downset is returned.
  lemma VerdictIsExact(aut: Automaton, t: nat, roots: set<nat>, ins: set<Bits>, outs: set<Bits>, inv: set<Letter>,
                       F0: seq<Vec>, Kfrom: int, Kto: int, Kinc: int, r: Option<seq<Vec>>, K: int, steps: nat)
    requires aut.Valid() && Saturated(aut, t, roots) && 1 <= Kfrom && 0 <= Kinc && K == Rung(Kfrom, Kinc, steps)
    requires SolvedFrom(ArenaOf(aut, ins, outs, inv), F0, aut.Size(), t, aut.init, Kfrom, r, K, steps)
    requires SolvedCompletely(ArenaOf(aut, ins, outs, inv), aut.Size(), t, roots, aut.init, Kfrom, Kto, Kinc, r, K,
                              steps)
    ensures r.Some? <==> SomeStrategy(aut, ins, outs, inv, K)
    ensures forall j :: 0 <= j < steps ==> !SomeStrategy(aut, ins, outs, inv, Rung(Kfrom, Kinc, j))
    ensures r.None? ==> Kto <= K
  {
    hide Saturated, ArenaOf, InitWins, SolvedFrom, SomeStrategy, Realizable, Covers, IsClosedDown, AllInBox, Contains;
    hide InitVec;
    forall j: nat | j < steps
      ensures !SomeStrategy(aut, ins, outs, inv, Rung(Kfrom, Kinc, j))
    {
      RungAtLeast(Kfrom, Kinc, j);
      InitWinsIffRealizable(aut, t, roots, ins, outs, inv, Rung(Kfrom, Kinc, j));
      RealizableIffStrategy(aut, ins, outs, inv, Rung(Kfrom, Kinc, j));
    }
    RungAtLeast(Kfrom, Kinc, steps);
    if r.Some? {
      SaturatedThreshold(aut, t, roots);
      FoundIsClosed(ArenaOf(aut, ins, outs, inv), F0, aut.Size(), t, aut.init, Kfrom, r.value, K, steps);
      ClosedIsRealizable(aut, t, ins, outs, inv, r.value, K);
    } else {
      InitWinsIffRealizable(aut, t, roots, ins, outs, inv, K);
      RealizableIffStrategy(aut, ins, outs, inv, K);
    }
  }

  lemma {:induction false} RungAtLeast(Kfrom: int, Kinc: int, j: nat)
    requires 0 <= Kinc
    ensures Kfrom <= Rung(Kfrom, Kinc, j)
  {
    if j > 0 {
      RungAtLeast(Kfrom, Kinc, j - 1);
    }
  }

  // One specification, one automaton: start from the largest vector, decide.
  method Decide(aut: Automaton, threshold: nat, Kmin: int, Kto: int, Kinc: int, ins: set<Bits>, outs: set<Bits>,
                inv: set<Letter>, ghost roots: set<nat>)
    returns (safe: Option<seq<Vec>>, K: int, ghost steps: nat)
    requires aut.Valid() && Saturated(aut, threshold, roots) && ins != {} && outs != {}
    requires 1 <= Kmin <= 127 && 0 <= Kinc && (Kmin < Kto ==> 1 <= Kinc && Kto + Kinc <= 128)
    ensures 1 <= K && (safe.Some? <==> SomeStrategy(aut, ins, outs, inv, K))
    ensures RaisedBelow(Kmin, Kto, Kinc, K, steps) && (safe.None? ==> Kto <= K)
    ensures forall j :: 0 <= j < steps ==> !SomeStrategy(aut, ins, outs, inv, Rung(Kmin, Kinc, j))
    ensures safe.Some? ==>
              && AllInBox(safe.value, aut.Size(), threshold, K) && Contains(safe.value, InitVec(aut.Size(), aut.init))
              && Down(safe.value, aut.Size(), threshold, K) * Rooted(aut.Size(), threshold, K, roots) ==
                 Region(ArenaOf(aut, ins, outs, inv), K, Rooted(aut.Size(), threshold, K, roots))
  {
    hide SolvedFrom, SolvedCompletely, Region, ArenaOf, Saturated, AllInBox, Contains, InitVec, SomeStrategy;
    hide SolvedLast;
    hide Down, Rooted;
    SaturatedThreshold(aut, threshold, roots);
    var allK := AllK(aut.Size(), threshold, Kmin);
    AllKIsComplete(aut, threshold, roots, ins, outs, inv, Kmin, allK);
    var r, k, rounds, starts := Solve(aut, threshold, Kmin, Kto, Kinc, ins, outs, inv, [allK], roots);
    VerdictIsExact(aut, threshold, roots, ins, outs, inv, [allK], Kmin, Kto, Kinc, r, k, rounds);
    RungAtLeast(Kmin, Kinc, rounds);
    DecidedRegion(ArenaOf(aut, ins, outs, inv), [allK], aut.Size(), threshold, roots, aut.init, Kmin, Kto, Kinc, r, k,
                  rounds);
    safe, K, steps := r, k, rounds;
  }

  lemma DecidedRegion(g: Arena, F0: seq<Vec>, n: nat, t: nat, roots: set<nat>, init: nat, Kfrom: int, Kto: int,
                      Kinc: int, r: Option<seq<Vec>>, K: int, steps: nat)
    requires init < n && SolvedFrom(g, F0, n, t, init, Kfrom, r, K, steps)
    requires SolvedCompletely(g, n, t, roots, init, Kfrom, Kto, Kinc, r, K, steps)
    ensures r.Some? ==>
              && AllInBox(r.value, n, t, K) && Contains(r.value, InitVec(n, init))
              && Down(r.value, n, t, K) * Rooted(n, t, K, roots) == Region(g, K, Rooted(n, t, K, roots))
  {
    hide AllInBox, Contains, InitVec, Region, Down, Rooted, InitWins, IsClosedDown;
  }

  lemma AllKIsComplete(aut: Automaton, t: nat, roots: set<nat>, ins: set<Bits>, outs: set<Bits>, inv: set<Letter>,
                       K: int, allK: Vec)
    requires aut.Valid() && t <= aut.Size() && 1 <= K
    requires InBox(allK, aut.Size(), t, K) && forall v :: InBox(v, aut.Size(), t, K) ==> Leq(v, allK)
    ensures AllInBox([allK], aut.Size(), t, K) && Contains([allK], InitVec(aut.Size(), aut.init))
    ensures Covers([allK], Region(ArenaOf(aut, ins, outs, inv), K, Rooted(aut.Size(), t, K, roots)))
  {
    hide Leq, InitVec, ArenaOf;
    forall v | InBox(v, aut.Size(), t, K)
      ensures Contains([allK], v)
    {
      assert Leq(v, [allK][0]);
    }
    hide Contains, InBox;
    InitIsRooted(aut.Size(), t, K, roots, aut.init);
    forall v | v in Region(ArenaOf(aut, ins, outs, inv), K, Rooted(aut.Size(), t, K, roots))
      ensures Contains([allK], v)
    {
      WinningIsInside(ArenaOf(aut, ins, outs, inv), K, Rooted(aut.Size(), t, K, roots), v);
    }
  }

  // --- From a solved downset to circuit functions ----------------------------------------------------

  function AllBits(n: nat): set<Bits> {
    if n == 0 then {[]}
    else (set s | s in AllBits(n - 1) :: s + [false]) + (set s | s in AllBits(n - 1) :: s + [true])
  }

  lemma {:induction false} AllBitsHas(n: nat, s: Bits)
    requires |s| == n
    ensures s in AllBits(n)
  {
    if n > 0 {
      AllBitsHas(n - 1, s[..n - 1]);
      assert s == s[..n - 1] + [if s[n - 1] then true else false];
    }
  }

  // Every valuation of the state and input variables.
  function Valuations(b: nat, ins: set<Bits>): set<Valuation> {
    set s, i | s in AllBits(b) && i in ins :: (s, i)
  }

  predicate AllHaveWidth(S: set<Bits>, n: nat) {
    forall x :: x in S ==> |x| == n
  }

  lemma TableIsEncodable(s: Synthesized, b: nat, no: nat)
    requires s.Built() && |s.states| <= Pow2(b) && AllHaveWidth(s.outs, no)
    ensures Encodes(TableEncoding(s.transitions, b), Valuations(b, s.ins), no, b)
  {
    hide Encode, TableEncoding, Synthesized.Built, AllBits;
    forall e | e in TableEncoding(s.transitions, b)
      ensures e.0 in Valuations(b, s.ins) && |e.1| == no && |e.2| == b
    {
      EntryIsEncodable(s, b, no, e);
    }
  }

  lemma EntryIsEncodable(s: Synthesized, b: nat, no: nat, e: (Valuation, Bits, Bits))
    requires s.Built() && |s.states| <= Pow2(b) && AllHaveWidth(s.outs, no)
    requires e in TableEncoding(s.transitions, b)
    ensures e.0 in Valuations(b, s.ins) && |e.1| == no && |e.2| == b
  {
    hide TableEncoding, Encode, AllBits, EncodedRow, Synthesized.Built;
    BuiltShape(s);
    var k, y := EntryPlace(s.transitions, b, e);
    RowMove(s, k, y);
    var tr := s.transitions[k][y];
    DecodeEncode(k, b);
    DecodeEncode(tr.newState, b);
    AllBitsHas(b, Encode(k, b));
  }

  // The table entry that an element of the encoding comes from.
  lemma EntryPlace(transitions: Table, b: nat, e: (Valuation, Bits, Bits)) returns (k: nat, y: nat)
    requires e in TableEncoding(transitions, b)
    ensures k < |transitions| && y < |transitions[k]| && e == EncodedTransition(k, transitions[k][y], b)
  {
    hide Encode;
    AllRowsMember(transitions, b, |transitions|, e);
    k :| k < |transitions| && e in EncodedRow(k, transitions[k], b);
    y :| y < |transitions[k]| && e == EncodedTransition(k, transitions[k][y], b);
  }

  lemma RowMove(s: Synthesized, k: nat, y: nat)
    requires s.Built() && k < |s.states| == |s.transitions| && y < |s.transitions[k]|
    ensures var tr := s.transitions[k][y]; tr.newState < |s.states| && tr.IO.input in s.ins && tr.IO.output in s.outs
  {
    hide ServesAll, Leq, StatesOk;
    assert RowOk(s.L, s.K, s.states, k, s.transitions[k], |s.L|);
    hide RowOk;
    RowLength(s, k);
    MoveExists(s.aut, s.who, s.outs, s.inv, s.L, s.K, s.F, s.states, s.transitions, k, y);
    assert s.who[y] in s.ins;
  }

  lemma RowLength(s: Synthesized, k: nat)
    requires s.Built() && k < |s.states| == |s.transitions|
    ensures |s.transitions[k]| == |s.who|
  {
    hide Leq, StatesOk, IsEnumeration;
    assert RowOk(s.L, s.K, s.states, k, s.transitions[k], |s.L|);
  }

  lemma ClosedMeansAnswered(g: Arena, L: seq<InputActions>, F: seq<Vec>, n: nat, t: nat, K: int)
    requires g == ArenaOfActions(L) && AllInBox(F, n, t, K) && 1 <= K && IsClosedDown(g, F, n, t, K) && F != []
    ensures NoneLoses(g, F, K)
    ensures forall x :: 0 <= x < |L| ==> L[x].actions != []
  {
    hide IsClosedDown, Contains, InBox;
    GeneratorsSuffice(g, F, n, t, K);
    forall x | 0 <= x < |L|
      ensures L[x].actions != []
    {
      ArenaHas(L, x);
      assert Answered(g, F, F[0], K);
    }
  }

  lemma ActionsCarryLetters(acc: seq<bool>, table: InputIOs, L: seq<InputActions>)
    requires SourcesOf(acc, table, true, L)
    ensures WithIOs(L)
  {
    hide ActionVecOf;
  }

  // A smaller bound caps a forward image sooner, so a region closed at K is still answered everywhere.
  lemma SmallerBoundBelow(f: Vec, a: ActionVec, Kfrom: int, K: int)
    requires Floor(f) && 0 <= Kfrom <= K
    ensures Leq(Forward(f, a, Kfrom), Forward(f, a, K))
  {
    forall p | 0 <= p < |a|
      ensures FwdAt(f, a[p], Kfrom) <= FwdAt(f, a[p], K)
    {
      FwdAtIsMax(f, a[p], Kfrom);
      FwdAtIsMax(f, a[p], K);
      if FwdAt(f, a[p], Kfrom) != -1 {
        var e :| e in a[p] && Active(f, e) && FwdAt(f, a[p], Kfrom) == Pushed(f, e, Kfrom);
      }
    }
  }

  lemma AnsweredBelow(g: Arena, F: seq<Vec>, n: nat, t: nat, Kfrom: int, K: int)
    requires AllInBox(F, n, t, K) && NoneLoses(g, F, K) && 0 <= Kfrom <= K
    ensures NoneLoses(g, F, Kfrom)
  {
    hide Contains, Leq, Forward;
    forall k, A | 0 <= k < |F| && A in g
      ensures !Loses(A, F, F[k], Kfrom)
    {
      assert Answered(g, F, F[k], K);
      var a :| a in A && Contains(F, Forward(F[k], a, K));
      assert InBox(F[k], n, t, K);
      SmallerBoundBelow(F[k], a, Kfrom, K);
      ContainsDownward(F, Forward(F[k], a, Kfrom), Forward(F[k], a, K));
    }
  }

  lemma BoxedElements(F: seq<Vec>, n: nat, t: nat, K: int)
    requires AllInBox(F, n, t, K) && 1 <= K <= 127
    ensures AllElements(F, n)
  {
  }

  // The actioner is made anew with the first bound tried, Kfrom, whatever bound K the region F was
  // solved at.  The circuit is always legal; it keeps the bound when K was never raised.
  method Synthesize(aut: Automaton, threshold: nat, Kfrom: int, ins: set<Bits>, outs: set<Bits>, inv: set<Letter>,
                    F: seq<Vec>, no: nat, ghost K: int)
    returns (c: Circuit, ghost s: Synthesized, ghost visits: seq<Visit>)
    requires aut.Valid() && threshold <= aut.Size() && ins != {} && outs != {} && AllHaveWidth(outs, no)
    requires 1 <= Kfrom <= K <= 127
    requires AllInBox(F, aut.Size(), threshold, K) && Contains(F, InitVec(aut.Size(), aut.init))
    requires IsClosedDown(ArenaOf(aut, ins, outs, inv), F, aut.Size(), threshold, K)
    ensures s.Built() && s.aut == aut && s.ins == ins && s.outs == outs && s.inv == inv && s.K == Kfrom && s.F == F
    ensures s.t == threshold && ArenaOfActions(s.L) == ArenaOf(aut, ins, outs, inv)
    ensures Explored(s.L, Kfrom, F, InitVec(aut.Size(), aut.init), s.states, s.transitions, visits)
    ensures |s.states| <= |F| && |c.latches| == c.bits && |c.outputs| == no
    ensures if |s.states| <= 1 then c.bits == 0 else 1 <= c.bits && Pow2(c.bits - 1) < |s.states| <= Pow2(c.bits)
    ensures c.Refines(TableEncoding(s.transitions, c.bits)) && IsExtracted(c, s.transitions, ins)
    ensures Legal(c.Strat(), ins, outs, inv)
    ensures K == Kfrom ==> Bounds(c.Strat(), aut, ins, K)
  {
    hide ArenaOf, ArenaOfActions, ArenaOfIOs, AllInBox, Contains, InitVec, NoneLoses, WithIOs, ValidTable, Leq, Legal;
    hide Bounds;
    hide ListsInputs, IsEnumeration, SourcesOf, CoversTable, DistinctActions, TableInRange, IsClosedDown, ServesAll;
    hide AllHaveWidth, AllElements, Explored, IsExtracted;
    assert |aut.acc| == aut.Size();
    EmptyContainsNothing(F, InitVec(aut.Size(), aut.init));
    var inputsToIos, order := Enumerate(aut, ins, outs, inv);
    TableIsInRange(aut, order, outs, inv, inputsToIos);
    TableArena(aut, ins, outs, inv, inputsToIos, order);
    var actioner := new Actioner(aut.acc, threshold, inputsToIos, Kfrom, true);
    ClosedMeansAnswered(ArenaOf(aut, ins, outs, inv), actioner.actions, F, aut.Size(), threshold, K);
    AnsweredBelow(ArenaOf(aut, ins, outs, inv), F, aut.Size(), threshold, Kfrom, K);
    BoxedElements(F, aut.Size(), threshold, K);
    ActionsCarryLetters(aut.acc, inputsToIos, actioner.actions);
    ghost var who := TableServesAll(aut, ins, outs, inv, inputsToIos, order, actioner.actions);
    var states, transitions;
    states, transitions, visits := ExploreStrategy(actioner, F, InitVec(aut.Size(), aut.init));
    s := Synthesized(aut, ins, outs, inv, Kfrom, threshold, F, actioner.actions, who, states, transitions);
    assert s.Built();
    c := EncodeStrategy(states, transitions, ins, no, s);
    assert |states| <= Pow2(c.bits);
    CircuitIsLegal(s, c);
    if K == Kfrom {
      CircuitIsSafe(s, c);
    }
  }

  // Each function is one of the two candidates left by the functions before it.
  ghost predicate IsExtracted(c: Circuit, transitions: Table, ins: set<Bits>) {
    var U, E := Valuations(c.bits, ins), TableEncoding(transitions, c.bits);
    AllCandidates(U, WithoutNext(E), c.outputs) && AllCandidates(U, NextGiven(E, c.outputs), c.latches)
  }

  // Numbers for the states, the relation over their codes, then functions out of the relation.
  method EncodeStrategy(states: seq<Vec>, transitions: Table, ins: set<Bits>, no: nat, ghost s: Synthesized)
    returns (c: Circuit)
    requires s.Built() && s.states == states && s.transitions == transitions && s.ins == ins && AllHaveWidth(s.outs, no)
    ensures |c.latches| == c.bits && |c.outputs| == no
    ensures if |states| <= 1 then c.bits == 0 else 1 <= c.bits && Pow2(c.bits - 1) < |states| <= Pow2(c.bits)
    ensures c.Refines(TableEncoding(transitions, c.bits)) && IsExtracted(c, transitions, ins)
  {
    hide TableEncoding, Synthesized.Built, Encodes, AllCandidates, AllHaveWidth, Valuations, ValueAt;
    var mappingBits := MappingBits(|states|);
    MappingBitsFit(|states|);
    var encoding := EncodeTable(transitions, mappingBits);
    TableIsEncodable(s, mappingBits, no);
    var gs, fs := FixOutputsAndLatches(Valuations(mappingBits, ins), encoding, no, mappingBits);
    c := Circuit(gs, fs, mappingBits);
  }
}
