/**
  Strategy extraction: explore, depth first, the generators of a closed downset that a fixed
  choice of outputs visits, and record one transition per state and input.
*/
module Synthesis {
  import opened Vectors
  import opened Game
  import opened Automata
  import opened Actioners
  import opened Pickers
  import opened Counting

  datatype Transition = Transition(IO: Letter, newState: nat)

  // Every action carries the letter it was computed for.
  predicate WithIOs(L: seq<InputActions>) {
    forall x, j :: 0 <= x < |L| && 0 <= j < |L[x].actions| ==> L[x].actions[j].io.Some?
  }

  // Every generator can take a step without overflow.
  predicate AllElements(F: seq<Vec>, n: nat) {
    forall k :: 0 <= k < |F| ==> Elements(F[k], n)
  }

  // The first element that dominates v, or -1.
  method GetDominatingIndex(container: seq<Vec>, v: Vec) returns (i: int)
    ensures -1 <= i < |container|
    ensures i == -1 <==> !Contains(container, v)
    ensures 0 <= i ==> Leq(v, container[i]) && forall k :: 0 <= k < i ==> !Leq(v, container[k])
  {
    i := 0;
    while i < |container|
      invariant 0 <= i <= |container|
      invariant forall k :: 0 <= k < i ==> !Leq(v, container[k])
    {
      if Leq(v, container[i]) {
        return;
      }
      i := i + 1;
    }
    return -1;
  }

  // i is the first element of the list that dominates v.
  predicate IsFirstAbove(container: seq<Vec>, v: Vec, i: nat) {
    i < |container| && Leq(v, container[i]) && forall k :: 0 <= k < i ==> !Leq(v, container[k])
  }

  ghost predicate FirstAbove(container: seq<Vec>, v: Vec, m: Vec) {
    exists i :: 0 <= i < |container| && IsFirstAbove(container, v, i) && container[i] == m
  }

  method GetDominatingElement(saferegion: seq<Vec>, v: Vec) returns (m: Vec)
    requires Contains(saferegion, v)
    ensures m in saferegion && Leq(v, m) && FirstAbove(saferegion, v, m)
  {
    var i := GetDominatingIndex(saferegion, v);
    assert IsFirstAbove(saferegion, v, i);
    m := saferegion[i];
  }

  // Action j is the first of the list that leads from `from` into F, namely to `succ`.
  ghost predicate FirstStay(acts: seq<Action>, F: seq<Vec>, K: int, from: Vec, j: nat, succ: Vec) {
    && j < |acts| && succ == Forward(from, acts[j].vec, K) && Contains(F, succ)
    && forall x :: 0 <= x < j ==> !Contains(F, Forward(from, acts[x].vec, K))
  }

  // The move takes the first such action, to the first state that dominates where it leads.
  ghost predicate Chosen(acts: seq<Action>, F: seq<Vec>, K: int, states: seq<Vec>, k: nat, tr: Transition)
    requires k < |states|
  {
    exists j: nat, succ ::
      FirstStay(acts, F, K, states[k], j, succ) && acts[j].io == Some(tr.IO) && IsFirstAbove(states, succ, tr.newState)
  }

  // It found a new state, the first generator of F that dominates where it leads.
  ghost predicate Finds(acts: seq<Action>, F: seq<Vec>, K: int, from: Vec, io: Letter, m: Vec) {
    exists j: nat, succ :: FirstStay(acts, F, K, from, j, succ) && acts[j].io == Some(io) && FirstAbove(F, succ, m)
  }

  // State k was found at input x of the row, after lower numbers only.
  ghost predicate FoundAt(L: seq<InputActions>, F: seq<Vec>, K: int, states: seq<Vec>, src: nat, row: seq<Transition>,
                          x: nat, k: nat)
    requires src < |states| && k < |states| && x < |row| <= |L|
  {
    && row[x].newState == k && (forall y :: 0 <= y < x ==> row[y].newState < k)
    && Finds(L[x].actions, F, K, states[src], row[x].IO, states[k])
  }

  ghost predicate BornIn(L: seq<InputActions>, F: seq<Vec>, K: int, states: seq<Vec>, src: nat, row: seq<Transition>,
                         k: nat)
    requires src < |states| && k < |states|
  {
    |row| <= |L| && exists x :: 0 <= x < |row| && FoundAt(L, F, K, states, src, row, x, k)
  }

  ghost predicate ChosenRow(L: seq<InputActions>, F: seq<Vec>, K: int, states: seq<Vec>, src: nat, row: seq<Transition>)
    requires src < |states|
  {
    |row| <= |L| && forall x :: 0 <= x < |row| ==> Chosen(L[x].actions, F, K, states, src, row[x])
  }

  // The first output of the list that stays in the safe region, with the vector it leads to.
  method GetTransition(actioner: Actioner, elem: Vec, acts: seq<Action>, F: seq<Vec>) returns (j: nat, succ: Vec)
    requires actioner.Valid() && Elements(elem, actioner.n)
    requires forall x :: 0 <= x < |acts| ==> FitsVec(acts[x].vec, actioner.n)
    requires !Loses(VecsOf(acts), F, elem, actioner.K)
    modifies actioner.applyOut
    ensures actioner.Valid()
    ensures j < |acts| && succ == Forward(elem, acts[j].vec, actioner.K) && Contains(F, succ)
    ensures forall x :: 0 <= x < j ==> !Contains(F, Forward(elem, acts[x].vec, actioner.K))
    ensures FirstStay(acts, F, actioner.K, elem, j, succ)
  {
    hide Contains, Forward, FitsVec;
    j := 0;
    while j < |acts|
      invariant j <= |acts| && actioner.Valid()
      invariant forall x :: 0 <= x < j ==> !Contains(F, Forward(elem, acts[x].vec, actioner.K))
    {
      succ := actioner.Apply(elem, acts[j].vec, ToSuccessors);
      if Contains(F, succ) {
        return;
      }
      j := j + 1;
    }
    assert false;
    succ := elem;
  }

  // The recorded move is one of the offered actions, and its target dominates the true image.
  ghost predicate Leads(acts: seq<Action>, K: int, from: Vec, io: Letter, to: Vec) {
    exists j :: 0 <= j < |acts| && acts[j].io == Some(io) && Leq(Forward(from, acts[j].vec, K), to)
  }

  ghost predicate TransitionOk(acts: seq<Action>, K: int, states: seq<Vec>, k: nat, tr: Transition)
    requires k < |states|
  {
    tr.newState < |states| && Leads(acts, K, states[k], tr.IO, states[tr.newState])
  }

  // The first m inputs have their transition.
  ghost predicate RowOk(L: seq<InputActions>, K: int, states: seq<Vec>, k: nat, row: seq<Transition>, m: nat)
    requires k < |states| && m <= |L|
  {
    |row| == m && forall x :: 0 <= x < m ==> TransitionOk(L[x].actions, K, states, k, row[x])
  }

  // States are pairwise different generators of F.
  ghost predicate StatesOk(F: seq<Vec>, states: seq<Vec>) {
    && (forall k :: 0 <= k < |states| ==> states[k] in F)
    && (forall j, k :: 0 <= j < k < |states| ==> states[j] != states[k])
  }

  lemma RowGrows(L: seq<InputActions>, K: int, states: seq<Vec>, states': seq<Vec>, k: nat, row: seq<Transition>,
                 m: nat)
    requires k < |states| && m <= |L| && RowOk(L, K, states, k, row, m) && states <= states'
    ensures RowOk(L, K, states', k, row, m)
  {
    hide Leads;
    forall x | 0 <= x < m
      ensures TransitionOk(L[x].actions, K, states', k, row[x])
    {
      assert TransitionOk(L[x].actions, K, states, k, row[x]);
    }
  }

  // A new dominating generator differs from all states so far, none of which dominates.
  lemma NewStateOk(F: seq<Vec>, states: seq<Vec>, v: Vec, m: Vec)
    requires StatesOk(F, states) && !Contains(states, v) && m in F && Leq(v, m)
    ensures StatesOk(F, states + [m])
  {
    forall k | 0 <= k < |states|
      ensures states[k] != m
    {
      assert !Leq(v, states[k]);
    }
  }

  // What one row has so far: its moves, and the states found on the way.
  ghost predicate RowSoFar(L: seq<InputActions>, F: seq<Vec>, K: int, states0: seq<Vec>, states: seq<Vec>, src: nat,
                           row: seq<Transition>)
    requires src < |states0|
  {
    && states0 <= states && ChosenRow(L, F, K, states, src, row)
    && (forall x :: 0 <= x < |row| ==> row[x].newState < |states|)
    && (forall k :: |states0| <= k < |states| ==> BornIn(L, F, K, states, src, row, k))
  }

  lemma ChosenGrows(acts: seq<Action>, F: seq<Vec>, K: int, states: seq<Vec>, states': seq<Vec>, k: nat, tr: Transition)
    requires k < |states| && states <= states' && Chosen(acts, F, K, states, k, tr)
    ensures Chosen(acts, F, K, states', k, tr)
  {
    var j: nat, succ :| FirstStay(acts, F, K, states[k], j, succ) && acts[j].io == Some(tr.IO) &&
        IsFirstAbove(states, succ, tr.newState);
    hide FirstStay, Leq;
    assert IsFirstAbove(states', succ, tr.newState);
  }

  lemma BornGrows(L: seq<InputActions>, F: seq<Vec>, K: int, states: seq<Vec>, states': seq<Vec>, src: nat,
                  row: seq<Transition>, row': seq<Transition>, k: nat)
    requires src < |states| && k < |states| && states <= states' && row <= row' && |row'| <= |L|
    requires BornIn(L, F, K, states, src, row, k)
    ensures BornIn(L, F, K, states', src, row', k)
  {
    var x :| 0 <= x < |row| && FoundAt(L, F, K, states, src, row, x, k);
    hide Finds;
    assert FoundAt(L, F, K, states', src, row', x, k);
  }

  // The move at the next input leads to a state that is known already.
  lemma RowKnown(L: seq<InputActions>, F: seq<Vec>, K: int, states0: seq<Vec>, states: seq<Vec>, src: nat,
                 row: seq<Transition>, j: nat, succ: Vec, tr: Transition)
    requires src < |states0| && |row| < |L| && RowSoFar(L, F, K, states0, states, src, row)
    requires var acts := L[|row|].actions; FirstStay(acts, F, K, states[src], j, succ) && acts[j].io == Some(tr.IO)
    requires IsFirstAbove(states, succ, tr.newState)
    ensures RowSoFar(L, F, K, states0, states, src, row + [tr])
  {
    hide FirstStay, IsFirstAbove, FoundAt, Chosen;
    var row' := row + [tr];
    assert Chosen(L[|row|].actions, F, K, states, src, tr) by {
      MoveIsChosen(L[|row|].actions, F, K, states, src, tr, j, succ);
    }
    assert tr.newState < |states| by {
      AboveInRange(states, succ, tr.newState);
    }
    forall k | |states0| <= k < |states|
      ensures BornIn(L, F, K, states, src, row', k)
    {
      BornGrows(L, F, K, states, states, src, row, row', k);
    }
  }

  // It leads to a new state.
  lemma RowFound(L: seq<InputActions>, F: seq<Vec>, K: int, states0: seq<Vec>, states: seq<Vec>, src: nat,
                 row: seq<Transition>, j: nat, succ: Vec, tr: Transition, m: Vec)
    requires src < |states0| && |row| < |L| && RowSoFar(L, F, K, states0, states, src, row)
    requires var acts := L[|row|].actions; FirstStay(acts, F, K, states[src], j, succ) && acts[j].io == Some(tr.IO)
    requires tr.newState == |states| && !Contains(states, succ) && FirstAbove(F, succ, m)
    ensures RowSoFar(L, F, K, states0, states + [m], src, row + [tr])
  {
    var states', row', n := states + [m], row + [tr], |row|;
    NewIsFirstAbove(states, F, succ, m);
    hide FirstStay, IsFirstAbove, FirstAbove, Chosen, Contains;
    MoveIsChosen(L[n].actions, F, K, states', src, tr, j, succ);
    forall x | 0 <= x < |row'|
      ensures Chosen(L[x].actions, F, K, states', src, row'[x])
    {
      if x < n {
        ChosenGrows(L[x].actions, F, K, states, states', src, row[x]);
      }
    }
    forall k | |states0| <= k < |states'|
      ensures BornIn(L, F, K, states', src, row', k)
    {
      if k < |states| {
        BornGrows(L, F, K, states, states', src, row, row', k);
      } else {
        assert Finds(L[n].actions, F, K, states'[src], tr.IO, m);
        assert FoundAt(L, F, K, states', src, row', n, k);
      }
    }
  }

  lemma NewIsFirstAbove(states: seq<Vec>, F: seq<Vec>, succ: Vec, m: Vec)
    requires !Contains(states, succ) && FirstAbove(F, succ, m)
    ensures IsFirstAbove(states + [m], succ, |states|)
  {
  }

  lemma AboveInRange(container: seq<Vec>, v: Vec, i: nat)
    requires IsFirstAbove(container, v, i)
    ensures i < |container|
  {
  }

  lemma MoveIsChosen(acts: seq<Action>, F: seq<Vec>, K: int, states: seq<Vec>, k: nat, tr: Transition, j: nat,
                     succ: Vec)
    requires k < |states| && FirstStay(acts, F, K, states[k], j, succ) && acts[j].io == Some(tr.IO)
    requires IsFirstAbove(states, succ, tr.newState)
    ensures Chosen(acts, F, K, states, k, tr)
  {
  }

  lemma RowStarts(L: seq<InputActions>, F: seq<Vec>, K: int, states: seq<Vec>, src: nat)
    requires src < |states|
    ensures RowSoFar(L, F, K, states, states, src, [])
  {
  }

  // The transitions out of one state; unknown targets are appended and put on the stack.
  method ExpandState(actioner: Actioner, F: seq<Vec>, states0: seq<Vec>, todo0: seq<nat>, src: nat)
    returns (states: seq<Vec>, todo: seq<nat>, row: seq<Transition>)
    requires actioner.Valid() && WithIOs(actioner.actions)
    requires AllElements(F, actioner.n) && NoneLoses(ArenaOfActions(actioner.actions), F, actioner.K)
    requires StatesOk(F, states0) && src < |states0|
    modifies actioner.applyOut
    ensures actioner.Valid()
    ensures StatesOk(F, states) && states0 <= states
    ensures todo == todo0 + Range(|states0|, |states|)
    ensures RowOk(actioner.actions, actioner.K, states, src, row, |actioner.actions|)
    ensures RowSoFar(actioner.actions, F, actioner.K, states0, states, src, row)
  {
    hide StatesOk, NoneLosesUpTo, Loses, VecsOf, ArenaOfActions, Contains, Forward, FitsVec, InBox, RowOk, RowSoFar;
    hide FirstStay, IsFirstAbove, FirstAbove, AllElements;
    states, todo, row := states0, todo0, [];
    GeneratorAnswered(actioner.actions, F, states0, src, actioner.n, actioner.K);
    RowStarts(actioner.actions, F, actioner.K, states0, src);
    EmptyRow(actioner.actions, actioner.K, states0, src);
    for x := 0 to |actioner.actions|
      invariant actioner.Valid() && |row| == x
      invariant StatesOk(F, states) && states0 <= states
      invariant todo == todo0 + Range(|states0|, |states|)
      invariant RowOk(actioner.actions, actioner.K, states, src, row, x)
      invariant RowSoFar(actioner.actions, F, actioner.K, states0, states, src, row)
    {
      var acts := actioner.actions[x].actions;
      var j, succ := GetTransition(actioner, states[src], acts, F);
      var index := GetDominatingIndex(states, succ);
      if index == -1 {
        var m := GetDominatingElement(F, succ);
        var tr := Transition(acts[j].io.value, |states|);
        NewStateOk(F, states, succ, m);
        RowFound(actioner.actions, F, actioner.K, states0, states, src, row, j, succ, tr, m);
        RowGrows(actioner.actions, actioner.K, states, states + [m], src, row, x);
        RowNext(actioner.actions, actioner.K, states + [m], src, row, tr, j, succ);
        states, todo, row := states + [m], todo + [|states|], row + [tr];
      } else {
        var tr := Transition(acts[j].io.value, index);
        FirstIndex(states, succ, index);
        RowKnown(actioner.actions, F, actioner.K, states0, states, src, row, j, succ, tr);
        RowNext(actioner.actions, actioner.K, states, src, row, tr, j, succ);
        row := row + [tr];
      }
    }
  }

  lemma FirstIndex(container: seq<Vec>, v: Vec, i: nat)
    requires i < |container| && Leq(v, container[i]) && forall k :: 0 <= k < i ==> !Leq(v, container[k])
    ensures IsFirstAbove(container, v, i)
  {
  }

  lemma EmptyRow(L: seq<InputActions>, K: int, states: seq<Vec>, src: nat)
    requires src < |states|
    ensures RowOk(L, K, states, src, [], 0)
  {
  }

  lemma RowNext(L: seq<InputActions>, K: int, states: seq<Vec>, src: nat, row: seq<Transition>, tr: Transition, j: nat,
                succ: Vec)
    requires src < |states| && |row| < |L| && RowOk(L, K, states, src, row, |row|) && tr.newState < |states|
    requires j < |L[|row|].actions| && L[|row|].actions[j].io == Some(tr.IO)
    requires succ == Forward(states[src], L[|row|].actions[j].vec, K) && Leq(succ, states[tr.newState])
    ensures RowOk(L, K, states, src, row + [tr], |row| + 1)
  {
    assert Leads(L[|row|].actions, K, states[src], tr.IO, states[tr.newState]);
    hide Leads;
  }

  lemma GeneratorAnswered(L: seq<InputActions>, F: seq<Vec>, states: seq<Vec>, src: nat, n: nat, K: int)
    requires AllElements(F, n) && NoneLoses(ArenaOfActions(L), F, K)
    requires StatesOk(F, states) && src < |states|
    ensures Elements(states[src], n)
    ensures forall x :: 0 <= x < |L| ==> !Loses(VecsOf(L[x].actions), F, states[src], K)
  {
    hide Loses, VecsOf;
    assert states[src] in F;
    var k :| 0 <= k < |F| && F[k] == states[src];
    assert Answered(ArenaOfActions(L), F, F[k], K);
    forall x | 0 <= x < |L|
      ensures !Loses(VecsOf(L[x].actions), F, states[src], K)
    {
      ArenaHas(L, x);
    }
  }

  // --- The worklist ------------------------------------------------------------------------------

  ghost predicate Done(L: seq<InputActions>, K: int, states: seq<Vec>, transitions: seq<seq<Transition>>, k: nat)
    requires k < |states|
  {
    k < |transitions| && RowOk(L, K, states, k, transitions[k], |L|)
  }

  ghost predicate WorkInv(L: seq<InputActions>, K: int, F: seq<Vec>, states: seq<Vec>,
                          transitions: seq<seq<Transition>>, todo: seq<nat>) {
    && StatesOk(F, states) && |transitions| <= |states|
    && (forall y :: 0 <= y < |todo| ==> todo[y] < |states|)
    && (forall y, z :: 0 <= y < z < |todo| ==> todo[y] != todo[z])
    && (forall k :: 0 <= k < |states| && k !in todo ==> Done(L, K, states, transitions, k))
  }

  // After the source row is stored, only the stacked states lack their transitions.
  lemma WorkStep(L: seq<InputActions>, K: int, F: seq<Vec>, states: seq<Vec>, transitions: seq<seq<Transition>>,
                 todo: seq<nat>,
                 states': seq<Vec>, transitions': seq<seq<Transition>>, todo': seq<nat>, row: seq<Transition>)
    requires todo != [] && WorkInv(L, K, F, states, transitions, todo)
    requires StatesOk(F, states') && states <= states'
    requires var src := todo[|todo| - 1];
             RowOk(L, K, states', src, row, |L|) &&
                 |transitions'| == (if src < |transitions| then |transitions| else src + 1)
    requires transitions'[todo[|todo| - 1]] == row
    requires forall k :: 0 <= k < |transitions| && k != todo[|todo| - 1] ==> transitions'[k] == transitions[k]
    requires todo' == todo[..|todo| - 1] + Range(|states|, |states'|)
    ensures WorkInv(L, K, F, states', transitions', todo')
    ensures |states'| - |todo'| == |states| - |todo| + 1
  {
    hide RowOk, StatesOk;
    var src := todo[|todo| - 1];
    TodoAfter(todo, todo', |states|, |states'|);
    forall k | 0 <= k < |states'| && k !in todo'
      ensures Done(L, K, states', transitions', k)
    {
      if k != src {
        assert k < |states| && k !in todo;
        assert Done(L, K, states, transitions, k);
        RowGrows(L, K, states, states', k, transitions[k], |L|);
      }
    }
  }

  // The stack after popping its top and pushing the new states.
  lemma TodoAfter(todo: seq<nat>, todo': seq<nat>, n: nat, n': nat)
    requires todo != [] && n <= n' && todo' == todo[..|todo| - 1] + Range(n, n')
    requires forall y :: 0 <= y < |todo| ==> todo[y] < n
    requires forall y, z :: 0 <= y < z < |todo| ==> todo[y] != todo[z]
    ensures forall y :: 0 <= y < |todo'| ==> todo'[y] < n'
    ensures forall y, z :: 0 <= y < z < |todo'| ==> todo'[y] != todo'[z]
    ensures forall k: nat :: n <= k < n' ==> k in todo'
    ensures forall k: nat :: k in todo && k != todo[|todo| - 1] ==> k in todo'
    ensures todo[|todo| - 1] !in todo'
  {
    var m := |todo| - 1;
    assert forall y :: 0 <= y < |todo'| ==> todo'[y] == if y < m then todo[y] else n + (y - m);
    StillStacked(todo, todo', n, n');
  }

  // A complete strategy table: one transition per state and input class.
  ghost predicate ValidTable(L: seq<InputActions>, K: int, F: seq<Vec>, states: seq<Vec>,
                             transitions: seq<seq<Transition>>) {
    && StatesOk(F, states) && |transitions| == |states| && states != []
    && forall k :: 0 <= k < |states| ==> RowOk(L, K, states, k, transitions[k], |L|)
  }

  // --- The order of the exploration ---------------------------------------------------------------

  // The stack before a state is taken from it, and how many states there are.
  datatype Visit = Visit(stack: seq<nat>, count: nat)

  // The top of the stack is expanded: the states found go on the stack in the order of the inputs.
  ghost predicate VisitOk(L: seq<InputActions>, F: seq<Vec>, K: int, states: seq<Vec>,
                          transitions: seq<seq<Transition>>, a: Visit, b: Visit) {
    && a.stack != [] && a.count <= b.count <= |states|
    && var src := a.stack[|a.stack| - 1];
       && src < a.count && src < |transitions|
       && b.stack == a.stack[..|a.stack| - 1] + Range(a.count, b.count)
       && forall k :: a.count <= k < b.count ==> BornIn(L, F, K, states, src, transitions[src], k)
  }

  ghost predicate VisitsInOrder(L: seq<InputActions>, F: seq<Vec>, K: int, states: seq<Vec>,
                                transitions: seq<seq<Transition>>,
                         visits: seq<Visit>) {
    && visits != [] && visits[0] == Visit([0], 1)
    && forall m :: 0 <= m < |visits| - 1 ==> VisitOk(L, F, K, states, transitions, visits[m], visits[m + 1])
  }

  // No state on the stack has been expanded.
  ghost predicate NoneExpanded(visits: seq<Visit>, todo: seq<nat>) {
    forall m :: 0 <= m < |visits| - 1 ==> visits[m].stack != [] && visits[m].stack[|visits[m].stack| - 1] !in todo
  }

  // State k is the target of a recorded transition of an earlier state.
  ghost predicate Reached(transitions: seq<seq<Transition>>, k: nat) {
    exists src, x :: 0 <= src < k && src < |transitions| && 0 <= x < |transitions[src]| &&
        transitions[src][x].newState == k
  }

  // The table is the one a depth-first search from the initial vector finds: state 0 is the first
  // generator above it, every move takes the first output that stays in F to the first state above
  // where it leads, and a state is added only when there is none.
  ghost predicate Explored(L: seq<InputActions>, K: int, F: seq<Vec>, init: Vec, states: seq<Vec>,
                           transitions: seq<seq<Transition>>, visits: seq<Visit>) {
    && states != [] && |transitions| == |states| && FirstAbove(F, init, states[0])
    && (forall k :: 0 <= k < |states| ==> |transitions[k]| == |L| && ChosenRow(L, F, K, states, k, transitions[k]))
    && (forall k :: 0 < k < |states| ==> Reached(transitions, k))
    && VisitsInOrder(L, F, K, states, transitions, visits) && visits[|visits| - 1] == Visit([], |states|)
  }

  lemma VisitKept(L: seq<InputActions>, F: seq<Vec>, K: int, states: seq<Vec>, states': seq<Vec>,
                  transitions: seq<seq<Transition>>, transitions': seq<seq<Transition>>, a: Visit, b: Visit)
    requires states <= states' && |transitions| <= |transitions'|
    requires VisitOk(L, F, K, states, transitions, a, b)
    requires transitions'[a.stack[|a.stack| - 1]] == transitions[a.stack[|a.stack| - 1]]
    ensures VisitOk(L, F, K, states', transitions', a, b)
  {
    var src := a.stack[|a.stack| - 1];
    hide BornIn;
    forall k | a.count <= k < b.count
      ensures BornIn(L, F, K, states', src, transitions'[src], k)
    {
      assert BornIn(L, F, K, states, src, transitions[src], k);
      BornFits(L, F, K, states, src, transitions[src], k);
      BornGrows(L, F, K, states, states', src, transitions[src], transitions'[src], k);
    }
  }

  lemma BornFits(L: seq<InputActions>, F: seq<Vec>, K: int, states: seq<Vec>, src: nat, row: seq<Transition>, k: nat)
    requires src < |states| && k < |states| && BornIn(L, F, K, states, src, row, k)
    ensures |row| <= |L|
  {
  }

  lemma VisitsGrow(L: seq<InputActions>, F: seq<Vec>, K: int, states: seq<Vec>, states': seq<Vec>,
                   transitions: seq<seq<Transition>>, transitions': seq<seq<Transition>>, visits: seq<Visit>,
                   todo: seq<nat>, todo': seq<nat>)
    requires todo != [] && VisitsInOrder(L, F, K, states, transitions, visits) && NoneExpanded(visits, todo)
    requires visits[|visits| - 1] == Visit(todo, |states|) && states <= states' && |transitions| <= |transitions'|
    requires var src := todo[|todo| - 1];
             && src < |states| && src < |transitions'|
             && RowSoFar(L, F, K, states, states', src, transitions'[src])
    requires forall k :: 0 <= k < |transitions| && k != todo[|todo| - 1] ==> transitions'[k] == transitions[k]
    requires todo' == todo[..|todo| - 1] + Range(|states|, |states'|)
    requires forall y, z :: 0 <= y < z < |todo| ==> todo[y] != todo[z]
    ensures VisitsInOrder(L, F, K, states', transitions', visits + [Visit(todo', |states'|)])
    ensures NoneExpanded(visits + [Visit(todo', |states'|)], todo')
  {
    var visits', n := visits + [Visit(todo', |states'|)], |visits| - 1;
    hide BornIn, ChosenRow;
    forall m | 0 <= m < |visits'| - 1
      ensures VisitOk(L, F, K, states', transitions', visits'[m], visits'[m + 1])
      ensures visits'[m].stack != [] && visits'[m].stack[|visits'[m].stack| - 1] !in todo'
    {
      if m < n {
        assert VisitOk(L, F, K, states, transitions, visits[m], visits[m + 1]);
        var src := visits[m].stack[|visits[m].stack| - 1];
        assert src !in todo && src < |states| by {
          CountsGrow(L, F, K, states, transitions, visits, m);
        }
        VisitKept(L, F, K, states, states', transitions, transitions', visits[m], visits[m + 1]);
        OldNotInTodo(todo, todo', |states|, |states'|, src);
      } else {
        TopNotInTodo(todo, todo', |states|, |states'|);
      }
    }
  }

  lemma CountsGrow(L: seq<InputActions>, F: seq<Vec>, K: int, states: seq<Vec>, transitions: seq<seq<Transition>>,
                   visits: seq<Visit>, m: nat)
    requires VisitsInOrder(L, F, K, states, transitions, visits) && m < |visits| - 1
    ensures visits[m].count <= |states|
  {
    assert VisitOk(L, F, K, states, transitions, visits[m], visits[m + 1]);
  }

  lemma OldNotInTodo(todo: seq<nat>, todo': seq<nat>, n: nat, n': nat, src: nat)
    requires todo != [] && n <= n' && todo' == todo[..|todo| - 1] + Range(n, n') && src !in todo && src < n
    ensures src !in todo'
  {
  }

  lemma TopNotInTodo(todo: seq<nat>, todo': seq<nat>, n: nat, n': nat)
    requires todo != [] && n <= n' && todo' == todo[..|todo| - 1] + Range(n, n') && todo[|todo| - 1] < n
    requires forall y, z :: 0 <= y < z < |todo| ==> todo[y] != todo[z]
    ensures todo[|todo| - 1] !in todo'
  {
  }

  // Every state beyond the first was found by some visit.
  lemma {:induction false} FoundBefore(L: seq<InputActions>, F: seq<Vec>, K: int, states: seq<Vec>,
                                       transitions: seq<seq<Transition>>, visits: seq<Visit>, m: nat, k: nat)
    requires VisitsInOrder(L, F, K, states, transitions, visits) && m < |visits| && 0 < k < visits[m].count
    ensures Reached(transitions, k)
  {
    if m > 0 {
      assert VisitOk(L, F, K, states, transitions, visits[m - 1], visits[m - 1 + 1]);
      if k < visits[m - 1].count {
        FoundBefore(L, F, K, states, transitions, visits, m - 1, k);
      } else {
        var src := visits[m - 1].stack[|visits[m - 1].stack| - 1];
        BornReached(L, F, K, states, transitions, src, k);
      }
    }
  }

  lemma BornReached(L: seq<InputActions>, F: seq<Vec>, K: int, states: seq<Vec>, transitions: seq<seq<Transition>>,
                    src: nat, k: nat)
    requires src < k < |states| && src < |transitions| && BornIn(L, F, K, states, src, transitions[src], k)
    ensures Reached(transitions, k)
  {
    hide Finds;
    var x :| 0 <= x < |transitions[src]| && FoundAt(L, F, K, states, src, transitions[src], x, k);
  }

  // All rows so far, for the states that are no longer on the stack.
  ghost predicate RowsChosen(L: seq<InputActions>, F: seq<Vec>, K: int, states: seq<Vec>,
                             transitions: seq<seq<Transition>>, todo: seq<nat>) {
    forall k :: 0 <= k < |states| && k !in todo ==> k < |transitions| && ChosenRow(L, F, K, states, k, transitions[k])
  }

  lemma RowsStep(L: seq<InputActions>, F: seq<Vec>, K: int, states: seq<Vec>, states': seq<Vec>,
                 transitions: seq<seq<Transition>>, transitions': seq<seq<Transition>>, todo: seq<nat>, todo': seq<nat>)
    requires todo != [] && RowsChosen(L, F, K, states, transitions, todo) && states <= states'
    requires |transitions| <= |transitions'|
    requires var src := todo[|todo| - 1];
             && src < |states| && src < |transitions'| && RowSoFar(L, F, K, states, states', src, transitions'[src])
    requires forall k :: 0 <= k < |transitions| && k != todo[|todo| - 1] ==> transitions'[k] == transitions[k]
    requires todo' == todo[..|todo| - 1] + Range(|states|, |states'|)
    ensures RowsChosen(L, F, K, states', transitions', todo')
  {
    var src := todo[|todo| - 1];
    hide BornIn, Chosen;
    forall k | 0 <= k < |states'| && k !in todo'
      ensures k < |transitions'| && ChosenRow(L, F, K, states', k, transitions'[k])
    {
      if k != src {
        StillStacked(todo, todo', |states|, |states'|);
        assert ChosenRow(L, F, K, states, k, transitions[k]);
        forall x | 0 <= x < |transitions[k]|
          ensures Chosen(L[x].actions, F, K, states', k, transitions[k][x])
        {
          ChosenGrows(L[x].actions, F, K, states, states', k, transitions[k][x]);
        }
      }
    }
  }

  lemma StillStacked(todo: seq<nat>, todo': seq<nat>, n: nat, n': nat)
    requires todo != [] && n <= n' && todo' == todo[..|todo| - 1] + Range(n, n')
    ensures forall k: nat :: n <= k < n' ==> k in todo'
    ensures forall k: nat :: k in todo && k != todo[|todo| - 1] ==> k in todo'
  {
    forall k: nat | n <= k < n'
      ensures k in todo'
    {
      assert todo'[|todo| - 1 + (k - n)] == k;
    }
    forall k: nat | k in todo && k != todo[|todo| - 1]
      ensures k in todo'
    {
      var y :| 0 <= y < |todo| && todo[y] == k;
      assert todo'[y] == k;
    }
  }

  lemma ExplorationEnds(L: seq<InputActions>, K: int, F: seq<Vec>, init: Vec, states: seq<Vec>,
                        transitions: seq<seq<Transition>>, visits: seq<Visit>)
    requires ValidTable(L, K, F, states, transitions) && RowsChosen(L, F, K, states, transitions, [])
    requires VisitsInOrder(L, F, K, states, transitions, visits) && visits[|visits| - 1] == Visit([], |states|)
    requires FirstAbove(F, init, states[0])
    ensures Explored(L, K, F, init, states, transitions, visits)
  {
    hide StatesOk, ChosenRow, FirstAbove, VisitsInOrder;
    forall k | 0 < k < |states|
      ensures Reached(transitions, k)
    {
      LastVisit(L, F, K, states, transitions, visits);
      FoundBefore(L, F, K, states, transitions, visits, |visits| - 1, k);
    }
    forall k | 0 <= k < |states|
      ensures |transitions[k]| == |L|
    {
      assert RowOk(L, K, states, k, transitions[k], |L|);
    }
  }

  lemma LastVisit(L: seq<InputActions>, F: seq<Vec>, K: int, states: seq<Vec>, transitions: seq<seq<Transition>>,
                  visits: seq<Visit>)
    requires VisitsInOrder(L, F, K, states, transitions, visits)
    ensures visits != []
  {
  }

  method ExploreStrategy(actioner: Actioner, F: seq<Vec>, init: Vec)
    returns (states: seq<Vec>, transitions: seq<seq<Transition>>, ghost visits: seq<Visit>)
    requires actioner.Valid() && WithIOs(actioner.actions)
    requires AllElements(F, actioner.n) && NoneLoses(ArenaOfActions(actioner.actions), F, actioner.K)
    requires Contains(F, init)
    modifies actioner.applyOut
    ensures actioner.Valid()
    ensures ValidTable(actioner.actions, actioner.K, F, states, transitions)
    ensures Explored(actioner.actions, actioner.K, F, init, states, transitions, visits)
    ensures Leq(init, states[0]) && |states| <= |F|
  {
    hide StatesOk, NoneLosesUpTo, RowOk, AllElements, FitsVec, RowSoFar, FirstAbove, VisitOk, NoneExpanded, RowsChosen;
    hide ChosenRow, Explored, Contains;
    var first := GetDominatingElement(F, init);
    states, transitions, visits := [first], [], [Visit([0], 1)];
    FirstStateOk(F, first);
    NothingExpanded(actioner.actions, F, actioner.K, first);
    var todo: seq<nat> := [0];
    while todo != []
      invariant actioner.Valid()
      invariant WorkInv(actioner.actions, actioner.K, F, states, transitions, todo)
      invariant RowsChosen(actioner.actions, F, actioner.K, states, transitions, todo)
      invariant VisitsInOrder(actioner.actions, F, actioner.K, states, transitions, visits) &&
          NoneExpanded(visits, todo)
      invariant visits[|visits| - 1] == Visit(todo, |states|)
      invariant [first] <= states && |todo| <= |states| <= |F|
      decreases |F| - (|states| - |todo|)
    {
      var src := todo[|todo| - 1];
      var rest := todo[..|todo| - 1];
      var transitions' := transitions + seq(if src < |transitions| then 0 else src + 1 - |transitions|, _ => []);
      var states', todo', row := ExpandState(actioner, F, states, rest, src);
      transitions' := transitions'[src := row];
      WorkStep(actioner.actions, actioner.K, F, states, transitions, todo, states', transitions', todo', row);
      RowsStep(actioner.actions, F, actioner.K, states, states', transitions, transitions', todo, todo');
      VisitsGrow(actioner.actions, F, actioner.K, states, states', transitions, transitions', visits, todo, todo');
      StatesFit(F, states');
      visits := visits + [Visit(todo', |states'|)];
      states, transitions, todo := states', transitions', todo';
    }
    AllDone(actioner.actions, actioner.K, F, states, transitions);
    ExplorationEnds(actioner.actions, actioner.K, F, init, states, transitions, visits);
  }

  lemma NothingExpanded(L: seq<InputActions>, F: seq<Vec>, K: int, first: Vec)
    ensures RowsChosen(L, F, K, [first], [], [0])
    ensures VisitsInOrder(L, F, K, [first], [], [Visit([0], 1)]) && NoneExpanded([Visit([0], 1)], [0])
  {
  }

  lemma FirstStateOk(F: seq<Vec>, m: Vec)
    requires m in F
    ensures StatesOk(F, [m]) && 1 <= |F|
  {
  }

  lemma AllDone(L: seq<InputActions>, K: int, F: seq<Vec>, states: seq<Vec>, transitions: seq<seq<Transition>>)
    requires WorkInv(L, K, F, states, transitions, []) && states != []
    ensures ValidTable(L, K, F, states, transitions)
  {
    hide RowOk, StatesOk;
    assert Done(L, K, states, transitions, |states| - 1);
    forall k | 0 <= k < |states|
      ensures RowOk(L, K, states, k, transitions[k], |L|)
    {
      assert Done(L, K, states, transitions, k);
    }
  }

  // The table never has more states than F has generators.
  lemma StatesFit(F: seq<Vec>, states: seq<Vec>)
    requires StatesOk(F, states)
    ensures |states| <= |F|
  {
    hide Leq;
    DistinctFits(states, F);
  }
}
