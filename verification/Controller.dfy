/**
  Safety of the synthesized controller over whole runs: the true counter vector never leaves
  what the current table state dominates, so no run of the automaton reaches K.
*/
module Controller {
  import opened Vectors
  import opened Game
  import opened Automata
  import opened Actioners
  import opened StandardIOs
  import opened Synthesis
  import opened Runs

  // The actions are those of the allowed letters with input i, all of them and each once.
  ghost predicate Serves(aut: Automaton, i: Bits, outs: set<Bits>, inv: set<Letter>, acts: seq<Action>) {
    && (forall j :: 0 <= j < |acts| ==> ServesAt(aut, i, outs, inv, acts[j]))
    && (forall o :: o in outs && Letter(i, o) in inv ==> Offered(acts, Letter(i, o)))
    && (forall j, k :: 0 <= j < k < |acts| ==> acts[j].io != acts[k].io)
  }

  ghost predicate Offered(acts: seq<Action>, l: Letter) {
    exists j :: 0 <= j < |acts| && acts[j].io == Some(l)
  }

  ghost predicate ServesAt(aut: Automaton, i: Bits, outs: set<Bits>, inv: set<Letter>, a: Action) {
    && a.io.Some? && a.io.value.input == i
    && a.io.value.output in outs && a.io.value in inv
    && a.vec == LetterAction(aut, a.io.value)
  }

  // Entry x of the actioner serves input who[x], and only it.
  ghost predicate ServesAll(aut: Automaton, who: seq<Bits>, outs: set<Bits>, inv: set<Letter>, L: seq<InputActions>) {
    |who| == |L| && forall x :: 0 <= x < |L| ==> L[x].actions != [] && Serves(aut, who[x], outs, inv, L[x].actions)
  }

  lemma RowServes(aut: Automaton, i: Bits, outs: set<Bits>, inv: set<Letter>, row: (set<Bits>, seq<TransIO>))
    requires ListsInput(aut, i, outs, inv, row)
    ensures Serves(aut, i, outs, inv, ActionsOf(aut.acc, row.1, true))
  {
    hide Transitions, ActionVecOf;
    var os :| ListsOutputs(aut, i, os, row.1) && IsEnumeration(os, AllowedOutputs(i, outs, inv));
    var acts := ActionsOf(aut.acc, row.1, true);
    forall j | 0 <= j < |acts|
      ensures ServesAt(aut, i, outs, inv, acts[j]) && acts[j].io == Some(Letter(i, os[j]))
    {
      assert row.1[j] == RowOf(aut, i, os[j]);
      assert os[j] in AllowedOutputs(i, outs, inv);
    }
    hide ServesAt, RowOf, ActionsOf;
    forall o | o in outs && Letter(i, o) in inv
      ensures Offered(acts, Letter(i, o))
    {
      assert o in os;
      var j :| 0 <= j < |os| && os[j] == o;
      assert acts[j].io == Some(Letter(i, o));
    }
  }

  // With the letters kept, the actioner merges no two inputs: its entries enumerate them.
  lemma TableServesAll(aut: Automaton, ins: set<Bits>, outs: set<Bits>, inv: set<Letter>,
                       table: InputIOs, order: seq<Bits>, L: seq<InputActions>) returns (who: seq<Bits>)
    requires ListsInputs(aut, order, outs, inv, table) && IsEnumeration(order, ins)
    requires SourcesOf(aut.acc, table, true, L) && CoversTable(aut.acc, table, true, L) && DistinctActions(L)
    requires forall x :: 0 <= x < |L| ==> L[x].actions != []
    ensures ServesAll(aut, who, outs, inv, L) && IsEnumeration(who, ins)
  {
    hide ListsInputs, ActionsOf, Serves, SourcesOf, CoversTable;
    var ks := EntrySources(aut, outs, inv, table, order, L);
    who := seq(|L|, x requires 0 <= x < |L| => order[ks[x]]);
    forall x, y | 0 <= x < y < |who|
      ensures who[x] != who[y]
    {
      assert L[x].actions != L[y].actions;
    }
    forall i
      ensures i in who <==> i in ins
    {
      if i in ins {
        assert i in order;
        var k :| 0 <= k < |order| && order[k] == i;
        var x := EntryOf(aut, outs, inv, table, order, L, k);
        SameInput(aut, i, who[x], outs, inv, L[x].actions);
      }
      if i in who {
        var x :| 0 <= x < |who| && who[x] == i;
        assert order[ks[x]] in order;
      }
    }
  }

  // The rows the entries come from.
  lemma EntrySources(aut: Automaton, outs: set<Bits>, inv: set<Letter>, table: InputIOs, order: seq<Bits>,
                     L: seq<InputActions>)
    returns (ks: seq<nat>)
    requires ListsInputs(aut, order, outs, inv, table) && SourcesOf(aut.acc, table, true, L)
    ensures |ks| == |L|
    ensures forall x :: 0 <= x < |L| ==>
              && ks[x] < |order| && ks[x] < |table| && L[x].actions == ActionsOf(aut.acc, table[ks[x]].1, true)
              && Serves(aut, order[ks[x]], outs, inv, L[x].actions)
  {
    ks := [];
    hide ListsInputs, SourcesOf, ActionsOf, Serves;
    for x := 0 to |L|
      invariant |ks| == x
      invariant forall y :: 0 <= y < x ==>
                              && ks[y] < |order| && ks[y] < |table| &&
                                  L[y].actions == ActionsOf(aut.acc, table[ks[y]].1, true)
                              && Serves(aut, order[ks[y]], outs, inv, L[y].actions)
    {
      var k := SourceOf(aut, outs, inv, table, order, L, x);
      ks := ks + [k];
    }
  }

  lemma EntryOf(aut: Automaton, outs: set<Bits>, inv: set<Letter>, table: InputIOs, order: seq<Bits>,
                L: seq<InputActions>, k: nat)
    returns (x: nat)
    requires ListsInputs(aut, order, outs, inv, table) && CoversTable(aut.acc, table, true, L) && k < |order|
    ensures x < |L| && Serves(aut, order[k], outs, inv, L[x].actions)
  {
    hide ListsInput, ActionsOf, Serves;
    assert HasActions(L, ActionsOf(aut.acc, table[k].1, true));
    x :| 0 <= x < |L| && L[x].actions == ActionsOf(aut.acc, table[k].1, true);
    RowServes(aut, order[k], outs, inv, table[k]);
  }

  lemma SameInput(aut: Automaton, i: Bits, i': Bits, outs: set<Bits>, inv: set<Letter>, acts: seq<Action>)
    requires Serves(aut, i, outs, inv, acts) && Serves(aut, i', outs, inv, acts) && acts != []
    ensures i == i'
  {
    assert ServesAt(aut, i, outs, inv, acts[0]) && ServesAt(aut, i', outs, inv, acts[0]);
  }

  lemma SourceOf(aut: Automaton, outs: set<Bits>, inv: set<Letter>, table: InputIOs, order: seq<Bits>,
                 L: seq<InputActions>, x: nat)
    returns (k: nat)
    requires ListsInputs(aut, order, outs, inv, table) && SourcesOf(aut.acc, table, true, L) && x < |L|
    ensures k < |order| && k < |table| && L[x].actions == ActionsOf(aut.acc, table[k].1, true)
    ensures Serves(aut, order[k], outs, inv, L[x].actions)
  {
    hide ListsInput, ActionsOf, Serves;
    k :| 0 <= k < |table| && L[x].input == table[k].0 && L[x].actions == ActionsOf(aut.acc, table[k].1, true);
    RowServes(aut, order[k], outs, inv, table[k]);
  }

  // --- The controller ---------------------------------------------------------------------------

  type Table = seq<seq<Transition>>

  ghost predicate TableMove(transitions: Table, k: nat, i: Bits, tr: Transition) {
    k < |transitions| && tr in transitions[k] && tr.IO.input == i
  }

  ghost function StepOf(transitions: Table, k: nat, i: Bits): Transition {
    if exists tr :: TableMove(transitions, k, i, tr) then
      var tr :| TableMove(transitions, k, i, tr); tr
    else Transition(Letter(i, []), 0)
  }

  ghost function StateAfter(transitions: Table, h: seq<Bits>): nat {
    if h == [] then 0 else StepOf(transitions, StateAfter(transitions, h[..|h| - 1]), h[|h| - 1]).newState
  }

  ghost function TableStrategy(transitions: Table): Strategy {
    (h: seq<Bits>) =>
      if h == [] then [] else StepOf(transitions, StateAfter(transitions, h[..|h| - 1]), h[|h| - 1]).IO.output
  }

  // Every state has exactly one move per input; it is legal and leads to a dominating state.
  lemma MoveExists(aut: Automaton, who: seq<Bits>, outs: set<Bits>, inv: set<Letter>, L: seq<InputActions>, K: int,
                   F: seq<Vec>, states: seq<Vec>, transitions: Table, k: nat, x: nat)
    requires ServesAll(aut, who, outs, inv, L) && ValidTable(L, K, F, states, transitions) && k < |states| && x < |who|
    requires forall y, z :: 0 <= y < z < |who| ==> who[y] != who[z]
    ensures x < |transitions[k]| && TableMove(transitions, k, who[x], transitions[k][x])
    ensures MoveOk(aut, outs, inv, K, states, k, who[x], transitions[k][x])
    ensures forall tr :: TableMove(transitions, k, who[x], tr) ==> tr == transitions[k][x]
  {
    hide Serves, StatesOk, Leads;
    var row := transitions[k];
    assert RowOk(L, K, states, k, row, |L|);
    forall y | 0 <= y < |L|
      ensures MoveOk(aut, outs, inv, K, states, k, who[y], row[y])
    {
      assert TransitionOk(L[y].actions, K, states, k, row[y]);
      hide TransitionOk, MoveOk;
      TransitionServes(aut, who[y], outs, inv, L[y].actions, K, states, k, row[y]);
    }
    forall tr | TableMove(transitions, k, who[x], tr)
      ensures tr == row[x]
    {
      var y :| 0 <= y < |row| && row[y] == tr;
      assert who[y] == who[x];
    }
  }

  ghost predicate MoveOk(aut: Automaton, outs: set<Bits>, inv: set<Letter>, K: int, states: seq<Vec>, k: nat, i: Bits,
                         tr: Transition)
    requires k < |states|
  {
    && tr.IO.input == i && tr.IO.output in outs && tr.IO in inv && tr.newState < |states|
    && Leq(Forward(states[k], LetterAction(aut, tr.IO), K), states[tr.newState])
  }

  lemma TransitionServes(aut: Automaton, i: Bits, outs: set<Bits>, inv: set<Letter>, acts: seq<Action>, K: int,
                         states: seq<Vec>, k: nat, tr: Transition)
    requires Serves(aut, i, outs, inv, acts) && k < |states| && TransitionOk(acts, K, states, k, tr)
    ensures MoveOk(aut, outs, inv, K, states, k, i, tr)
  {
    hide Leq, Forward, LetterAction;
    var j :| 0 <= j < |acts| && acts[j].io == Some(tr.IO) &&
        Leq(Forward(states[k], acts[j].vec, K), states[tr.newState]);
    assert ServesAt(aut, i, outs, inv, acts[j]);
  }

  // Everything that enters the construction of one controller.
  datatype Synthesized = Synthesized(aut: Automaton, ins: set<Bits>, outs: set<Bits>, inv: set<Letter>, K: int, t: nat,
                                     F: seq<Vec>, L: seq<InputActions>, who: seq<Bits>, states: seq<Vec>,
                                     transitions: Table) {
    // A complete table over generators of F, filled in at the bound K.
    ghost predicate Built() {
      && aut.Valid() && 1 <= K
      && ServesAll(aut, who, outs, inv, L) && IsEnumeration(who, ins)
      && ValidTable(L, K, F, states, transitions)
      && Leq(InitVec(aut.Size(), aut.init), states[0])
    }

    // Besides, the generators themselves stay below K.
    ghost predicate Valid() {
      Built() && AllInBox(F, aut.Size(), t, K)
    }

    ghost function Strat(): Strategy {
      TableStrategy(transitions)
    }

    ghost function After(h: seq<Bits>): Vec
      requires aut.init < aut.Size()
    {
      VecAfter(aut, Word(Strat(), h), K)
    }

    // The true vector is dominated by the current table state.
    ghost predicate Dominated(h: seq<Bits>)
      requires aut.init < aut.Size()
    {
      && StateAfter(transitions, h) < |states|
      && Floor(After(h)) && Leq(After(h), states[StateAfter(transitions, h)])
    }
  }

  lemma StepIsMove(s: Synthesized, k: nat, i: Bits)
    requires s.Built() && k < |s.states| && i in s.ins
    ensures TableMove(s.transitions, k, i, StepOf(s.transitions, k, i))
    ensures MoveOk(s.aut, s.outs, s.inv, s.K, s.states, k, i, StepOf(s.transitions, k, i))
  {
    hide ServesAll, RowOk, MoveOk;
    assert i in s.who;
    var x :| 0 <= x < |s.who| && s.who[x] == i;
    MoveExists(s.aut, s.who, s.outs, s.inv, s.L, s.K, s.F, s.states, s.transitions, k, x);
    var tr := s.transitions[k][x];
    assert TableMove(s.transitions, k, i, tr);
    assert TableMove(s.transitions, k, i, StepOf(s.transitions, k, i));
  }

  // One step: domination is kept by the monotone transformer.
  lemma DominationStep(aut: Automaton, outs: set<Bits>, inv: set<Letter>, K: int, states: seq<Vec>, k: nat, i: Bits,
                       strat: Strategy, prev: seq<Bits>, tr: Transition)
    requires aut.init < aut.Size() && 1 <= K && k < |states| && MoveOk(aut, outs, inv, K, states, k, i, tr)
    requires strat(prev + [i]) == tr.IO.output
    requires Floor(VecAfter(aut, Word(strat, prev), K)) && Leq(VecAfter(aut, Word(strat, prev), K), states[k])
    ensures tr.newState < |states| && Floor(VecAfter(aut, Word(strat, prev + [i]), K))
    ensures Leq(VecAfter(aut, Word(strat, prev + [i]), K), states[tr.newState])
    ensures LegalAt(strat, outs, inv, prev + [i])
  {
    hide LetterAction, Leq, Forward, Floor;
    var h, w := prev + [i], Word(strat, prev);
    assert h[..|prev|] == prev && tr.IO == Letter(i, tr.IO.output);
    assert Word(strat, h) == w + [tr.IO];
    assert (w + [tr.IO])[..|w|] == w;
    var v, a := VecAfter(aut, w, K), LetterAction(aut, tr.IO);
    ForwardMonotone(v, states[k], a, K);
    ForwardFloor(v, a, K);
    LeqTransitive(Forward(v, a, K), Forward(states[k], a, K), states[tr.newState]);
  }

  lemma StartIsDominated(s: Synthesized)
    requires s.Built()
    ensures s.Dominated([])
  {
    hide ServesAll, RowOk, IsEnumeration;
    assert Word(s.Strat(), []) == [];
  }

  lemma NextIsDominated(s: Synthesized, prev: seq<Bits>, i: Bits)
    requires s.Built() && s.Dominated(prev) && i in s.ins
    ensures s.Dominated(prev + [i]) && LegalAt(s.Strat(), s.outs, s.inv, prev + [i])
  {
    hide Leq, Floor, StepOf, TableStrategy, StateAfter, VecAfter, Word, MoveOk, LegalAt, Synthesized.Built;
    var k, h := StateAfter(s.transitions, prev), prev + [i];
    BuiltBounds(s);
    StepIsMove(s, k, i);
    var tr := StepOf(s.transitions, k, i);
    TableSteps(s.transitions, prev, i);
    DominationStep(s.aut, s.outs, s.inv, s.K, s.states, k, i, s.Strat(), prev, tr);
  }

  lemma BuiltBounds(s: Synthesized)
    requires s.Built()
    ensures s.aut.init < s.aut.Size() && 1 <= s.K
  {
  }

  // What the table does after one more input.
  lemma TableSteps(transitions: Table, prev: seq<Bits>, i: Bits)
    ensures var tr := StepOf(transitions, StateAfter(transitions, prev), i);
            StateAfter(transitions, prev + [i]) == tr.newState && TableStrategy(transitions)(prev + [i]) == tr.IO.output
  {
    hide StepOf;
    var h := prev + [i];
    assert h[..|h| - 1] == prev;
  }

  lemma {:induction false} AlwaysDominated(s: Synthesized, h: seq<Bits>)
    requires s.Built() && AllIn(h, s.ins)
    ensures s.Dominated(h) && (h != [] ==> LegalAt(s.Strat(), s.outs, s.inv, h))
  {
    hide Synthesized.Dominated, Synthesized.Built, LegalAt, TableStrategy;
    BuiltBounds(s);
    if h == [] {
      StartIsDominated(s);
    } else {
      var prev, i := h[..|h| - 1], h[|h| - 1];
      AlwaysDominated(s, prev);
      NextIsDominated(s, prev, i);
      assert h == prev + [i];
    }
  }

  // On every input sequence the controller has a move, and an allowed one.
  lemma ControllerIsLegal(s: Synthesized)
    requires s.Built()
    ensures Legal(s.Strat(), s.ins, s.outs, s.inv)
  {
    hide LegalAt, Synthesized.Built, Synthesized.Dominated, TableStrategy;
    forall h | AllIn(h, s.ins) && h != []
      ensures LegalAt(s.Strat(), s.outs, s.inv, h)
    {
      AlwaysDominated(s, h);
    }
  }

  // Along every infinite input sequence the controller always has a legal move, and every run of
  // the automaton on the produced word enters at most K-1 accepting states.
  lemma ControllerIsSafe(s: Synthesized)
    requires s.Valid()
    ensures Legal(s.Strat(), s.ins, s.outs, s.inv)
    ensures Bounds(s.Strat(), s.aut, s.ins, s.K)
  {
    ControllerIsLegal(s);
    hide Legal, WordBounded, Synthesized.Built, AllInBox, Synthesized.Dominated, TableStrategy;
    forall h | AllIn(h, s.ins)
      ensures WordBounded(s.aut, Word(s.Strat(), h), s.K)
    {
      AlwaysDominated(s, h);
      DominatedIsBounded(s, h);
    }
  }

  lemma DominatedIsBounded(s: Synthesized, h: seq<Bits>)
    requires s.Valid() && s.Dominated(h)
    ensures WordBounded(s.aut, Word(s.Strat(), h), s.K)
  {
    hide ServesAll, RowOk, IsEnumeration, VecAfter, WordBounded, TableStrategy, StateAfter;
    var v, m := s.After(h), s.states[StateAfter(s.transitions, h)];
    assert m in s.F;
    var k :| 0 <= k < |s.F| && s.F[k] == m;
    assert InBox(m, s.aut.Size(), s.t, s.K);
    assert InBox(v, s.aut.Size(), s.aut.Size(), s.K);
    BoundedInBox(s.aut, Word(s.Strat(), h), s.K);
  }
}
