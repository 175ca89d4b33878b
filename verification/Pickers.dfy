/**
  The critical-input search: look for a generator of F and an input for which every output
  leads outside F.  Outputs that answered are moved to the front of their list; inputs that
  turned out critical gain priority.
*/
module Pickers {
  import opened Vectors
  import opened Game
  import opened Actioners

  // Every alternative of A leads from f outside the downset F.
  ghost predicate Loses(A: set<ActionVec>, F: seq<Vec>, f: Vec, K: int) {
    forall a :: a in A ==> !Contains(F, Forward(f, a, K))
  }

  // Every input has an output that keeps f inside F.
  ghost predicate Answered(g: Arena, F: seq<Vec>, f: Vec, K: int) {
    forall A :: A in g ==> !Loses(A, F, f, K)
  }

  // None of the first m generators of F is one-step-losing.
  ghost predicate NoneLosesUpTo(g: Arena, F: seq<Vec>, K: int, m: nat)
    requires m <= |F|
  {
    forall k :: 0 <= k < m ==> Answered(g, F, F[k], K)
  }

  ghost predicate NoneLoses(g: Arena, F: seq<Vec>, K: int) {
    NoneLosesUpTo(g, F, K, |F|)
  }

  // Input i witnesses that some generator of F is one-step-losing.
  ghost predicate Critical(L: seq<InputActions>, i: nat, F: seq<Vec>, K: int) {
    i < |L| && exists k :: 0 <= k < |F| && Loses(VecsOf(L[i].actions), F, F[k], K)
  }

  // The whole downset is closed under the controller's choices.
  ghost predicate IsClosedDown(g: Arena, F: seq<Vec>, n: nat, t: nat, K: int) {
    forall v :: v in Down(F, n, t, K) ==> Answered(g, F, v, K)
  }

  lemma LosesDownward(A: set<ActionVec>, F: seq<Vec>, u: Vec, v: Vec, K: int)
    requires Floor(u) && Leq(u, v) && 0 <= K && !Loses(A, F, v, K)
    ensures !Loses(A, F, u, K)
  {
    var a :| a in A && Contains(F, Forward(v, a, K));
    ForwardMonotone(u, v, a, K);
    ContainsDownward(F, Forward(u, a, K), Forward(v, a, K));
  }

  // Testing the generators decides the whole downset.
  lemma GeneratorsSuffice(g: Arena, F: seq<Vec>, n: nat, t: nat, K: int)
    requires AllInBox(F, n, t, K) && 1 <= K
    ensures NoneLoses(g, F, K) <==> IsClosedDown(g, F, n, t, K)
  {
    hide Loses, InBox, Leq;
    if NoneLoses(g, F, K) {
      forall v | v in Down(F, n, t, K)
        ensures Answered(g, F, v, K)
      {
        var k :| 0 <= k < |F| && Leq(v, F[k]);
        assert Answered(g, F, F[k], K);
        BoxFloor(v, n, t, K);
        AnsweredDownward(g, F, v, F[k], K);
      }
    }
    if IsClosedDown(g, F, n, t, K) {
      forall k | 0 <= k < |F|
        ensures Answered(g, F, F[k], K)
      {
        LeqSelf(F[k]);
        assert F[k] in Down(F, n, t, K);
      }
    }
  }

  lemma BoxFloor(v: Vec, n: nat, t: nat, K: int)
    requires InBox(v, n, t, K)
    ensures Floor(v)
  {
  }

  lemma LeqSelf(v: Vec)
    ensures Leq(v, v)
  {
  }

  lemma AnsweredDownward(g: Arena, F: seq<Vec>, u: Vec, v: Vec, K: int)
    requires Floor(u) && Leq(u, v) && 0 <= K && Answered(g, F, v, K)
    ensures Answered(g, F, u, K)
  {
    hide Loses;
    forall A | A in g
      ensures !Loses(A, F, u, K)
    {
      LosesDownward(A, F, u, v, K);
    }
  }

  ghost predicate Permuted(L: seq<InputActions>, L': seq<InputActions>) {
    && |L| == |L'|
    && forall k :: 0 <= k < |L| ==> L[k].input == L'[k].input && multiset(L[k].actions) == multiset(L'[k].actions)
  }

  lemma PermutedVecs(acts: seq<Action>, acts': seq<Action>)
    requires multiset(acts) == multiset(acts')
    ensures VecsOf(acts) == VecsOf(acts')
  {
    assert forall x :: x in acts <==> x in multiset(acts);
    assert forall x :: x in acts' <==> x in multiset(acts');
    forall a
      ensures a in VecsOf(acts) <==> a in VecsOf(acts')
    {
      if a in VecsOf(acts) {
        var j :| 0 <= j < |acts| && a == acts[j].vec;
        assert acts[j] in acts';
      }
      if a in VecsOf(acts') {
        var j :| 0 <= j < |acts'| && a == acts'[j].vec;
        assert acts'[j] in acts;
      }
    }
  }

  // Reordering never changes the game.
  lemma PermutedArena(L: seq<InputActions>, L': seq<InputActions>)
    requires Permuted(L, L')
    ensures ArenaOfActions(L) == ArenaOfActions(L')
  {
    forall k | 0 <= k < |L|
      ensures VecsOf(L[k].actions) == VecsOf(L'[k].actions)
    {
      PermutedVecs(L[k].actions, L'[k].actions);
    }
  }

  lemma PermutedAgain(L: seq<InputActions>, L': seq<InputActions>, L'': seq<InputActions>)
    requires Permuted(L, L') && Permuted(L', L'')
    ensures Permuted(L, L'')
  {
  }

  lemma PermutedSelf(L: seq<InputActions>)
    ensures Permuted(L, L)
  {
  }

  function MoveToFront(acts: seq<Action>, j: nat): seq<Action>
    requires j < |acts|
  {
    [acts[j]] + acts[..j] + acts[j + 1..]
  }

  lemma MoveToFrontPermutes(acts: seq<Action>, j: nat)
    requires j < |acts|
    ensures multiset(MoveToFront(acts, j)) == multiset(acts)
  {
    assert acts == acts[..j] + [acts[j]] + acts[j + 1..];
  }

  // Moves output j of input i to the front of its list.
  method Splice(actioner: Actioner, i: nat, j: nat)
    requires actioner.Valid() && i < |actioner.actions| && j < |actioner.actions[i].actions|
    modifies actioner`actions
    ensures actioner.Valid()
    ensures var entry := old(actioner.actions)[i];
            actioner.actions == old(actioner.actions)[i := entry.(actions := MoveToFront(entry.actions, j))]
    ensures Permuted(old(actioner.actions), actioner.actions)
  {
    hide FitsVec;
    var acts := actioner.actions[i].actions;
    MoveToFrontPermutes(acts, j);
    var front := MoveToFront(acts, j);
    assert forall x :: 0 <= x < |front| ==> front[x] == acts[if x == 0 then j else if x <= j then x - 1 else x];
    actioner.actions := actioner.actions[i := actioner.actions[i].(actions := front)];
  }

  lemma AnswerFound(acts: seq<Action>, j: nat, F: seq<Vec>, f: Vec, K: int)
    requires j < |acts| && Contains(F, Forward(f, acts[j].vec, K))
    ensures !Loses(VecsOf(MoveToFront(acts, j)), F, f, K)
  {
    assert MoveToFront(acts, j)[0].vec in VecsOf(MoveToFront(acts, j));
  }

  // Output j comes first, and the others keep their order.
  predicate IsMovedToFront(acts: seq<Action>, acts': seq<Action>, j: nat) {
    && j < |acts| == |acts'| && acts'[0] == acts[j]
    && (forall x :: 1 <= x <= j ==> acts'[x] == acts[x - 1])
    && (forall x :: j < x < |acts| ==> acts'[x] == acts[x])
  }

  // Output j is the first of the list that keeps f inside F.
  ghost predicate FirstAnswer(acts: seq<Action>, F: seq<Vec>, f: Vec, K: int, j: nat) {
    && j < |acts| && Contains(F, Forward(f, acts[j].vec, K))
    && forall x :: 0 <= x < j ==> !Contains(F, Forward(f, acts[x].vec, K))
  }

  // What trying one input against f leaves of its entry.
  ghost predicate Tried(e: InputActions, e': InputActions, F: seq<Vec>, f: Vec, K: int) {
    && e'.input == e.input
    && if Loses(VecsOf(e.actions), F, f, K) then e' == e
       else exists j: nat :: FirstAnswer(e.actions, F, f, K, j) && IsMovedToFront(e.actions, e'.actions, j)
  }

  lemma AnswerTried(e: InputActions, e': InputActions, F: seq<Vec>, f: Vec, K: int, j: nat)
    requires FirstAnswer(e.actions, F, f, K, j) && e' == e.(actions := MoveToFront(e.actions, j))
    ensures Tried(e, e', F, f, K) && !Loses(VecsOf(e.actions), F, f, K)
  {
    hide Contains, Forward;
    assert e.actions[j].vec in VecsOf(e.actions);
    assert IsMovedToFront(e.actions, e'.actions, j);
  }

  // One input against one generator, with the move-to-front of the answering output.
  method TryInput(actioner: Actioner, F: seq<Vec>, f: Vec, i: nat) returns (isWitness: bool)
    requires actioner.Valid() && i < |actioner.actions| && Elements(f, actioner.n)
    modifies actioner`actions, actioner.applyOut
    ensures actioner.Valid()
    ensures Permuted(old(actioner.actions), actioner.actions)
    ensures actioner.actions == old(actioner.actions)[i := actioner.actions[i]]
    ensures Tried(old(actioner.actions)[i], actioner.actions[i], F, f, actioner.K)
    ensures isWitness <==> Loses(VecsOf(actioner.actions[i].actions), F, f, actioner.K)
    ensures isWitness ==> actioner.actions == old(actioner.actions)
  {
    hide Contains, VecsOf, FitsVec, Tried, Loses, Forward, Permuted, MoveToFront;
    var acts := actioner.actions[i].actions;
    var j := 0;
    while j < |acts|
      invariant 0 <= j <= |acts|
      invariant actioner.Valid() && actioner.actions == old(actioner.actions)
      invariant forall x :: 0 <= x < j ==> !Contains(F, Forward(f, acts[x].vec, actioner.K))
    {
      var fwd := actioner.Apply(f, acts[j].vec, ToSuccessors);
      if Contains(F, fwd) {
        AnswerFound(acts, j, F, f, actioner.K);
        Splice(actioner, i, j);
        AnswerTried(old(actioner.actions)[i], actioner.actions[i], F, f, actioner.K, j);
        return false;
      }
      j := j + 1;
    }
    AllTried(actioner.actions[i], F, f, actioner.K);
    PermutedSelf(actioner.actions);
    return true;
  }

  lemma AllTried(e: InputActions, F: seq<Vec>, f: Vec, K: int)
    requires forall x :: 0 <= x < |e.actions| ==> !Contains(F, Forward(f, e.actions[x].vec, K))
    ensures Loses(VecsOf(e.actions), F, f, K) && Tried(e, e, F, f, K)
  {
  }

  // --- The order of the search -------------------------------------------------------------------

  // The inputs in `order` were tried against f, each once, and no other list changed.
  ghost predicate Searched(L: seq<InputActions>, L': seq<InputActions>, order: seq<nat>, F: seq<Vec>, f: Vec, K: int) {
    && |L'| == |L|
    && forall i :: 0 <= i < |L| ==> if i in order then Tried(L[i], L'[i], F, f, K) else L'[i] == L[i]
  }

  // Entry x of the order is the first whose input witnesses the loss of f.
  ghost predicate FirstLosing(L: seq<InputActions>, order: seq<nat>, F: seq<Vec>, f: Vec, K: int, x: nat) {
    && x < |order| && LosesAt(L, order[x], F, f, K)
    && forall y :: 0 <= y < x ==> !LosesAt(L, order[y], F, f, K)
  }

  ghost predicate LosesAt(L: seq<InputActions>, i: nat, F: seq<Vec>, f: Vec, K: int) {
    i < |L| && Loses(VecsOf(L[i].actions), F, f, K)
  }

  // Each round searched all inputs in vain.
  ghost predicate Rounds(trace: seq<seq<InputActions>>, order: seq<nat>, F: seq<Vec>, K: int) {
    && 0 < |trace| <= |F| + 1
    && forall m :: 0 <= m < |trace| - 1 ==> InVain(trace[m], trace[m + 1], order, F, F[m], K)
  }

  ghost predicate InVain(L: seq<InputActions>, L': seq<InputActions>, order: seq<nat>, F: seq<Vec>, f: Vec, K: int) {
    Searched(L, L', order, F, f, K) && forall i :: 0 <= i < |L| ==> !LosesAt(L, i, F, f, K)
  }

  // After the rounds, the next generator is lost at entry x of the order, and at no earlier one.
  ghost predicate PickedAt(trace: seq<seq<InputActions>>, L: seq<InputActions>, order: seq<nat>, F: seq<Vec>, K: int,
                           x: nat)
    requires trace != []
  {
    && |trace| <= |F| && x < |order|
    && Searched(trace[|trace| - 1], L, order[..x], F, F[|trace| - 1], K)
    && FirstLosing(L, order, F, F[|trace| - 1], K, x)
  }

  lemma NothingSearched(L: seq<InputActions>, F: seq<Vec>, f: Vec, K: int)
    ensures Searched(L, L, [], F, f, K)
  {
  }

  lemma SearchedNext(L: seq<InputActions>, L': seq<InputActions>, L'': seq<InputActions>, order: seq<nat>, i: nat,
                     F: seq<Vec>, f: Vec, K: int)
    requires Searched(L, L', order, F, f, K) && i !in order && i < |L'|
    requires |L''| == |L'| && L'' == L'[i := L''[i]] && Tried(L'[i], L''[i], F, f, K)
    ensures Searched(L, L'', order + [i], F, f, K)
  {
    hide Tried;
  }

  // Losing does not depend on the order of the outputs.
  lemma LosesKept(L: seq<InputActions>, L': seq<InputActions>, F: seq<Vec>, f: Vec, K: int)
    requires |L| == |L'| && forall y :: 0 <= y < |L| ==> VecsOf(L[y].actions) == VecsOf(L'[y].actions)
    ensures forall y: nat :: LosesAt(L, y, F, f, K) <==> LosesAt(L', y, F, f, K)
  {
    hide Loses;
  }

  lemma RoundsNext(trace: seq<seq<InputActions>>, L: seq<InputActions>, order: seq<nat>, F: seq<Vec>, K: int)
    requires Rounds(trace, order, F, K) && |trace| <= |F|
    requires InVain(trace[|trace| - 1], L, order, F, F[|trace| - 1], K)
    ensures Rounds(trace + [L], order, F, K)
  {
    hide InVain;
    var trace' := trace + [L];
    forall m | 0 <= m < |trace'| - 1
      ensures InVain(trace'[m], trace'[m + 1], order, F, F[m], K)
    {
      if m < |trace| - 1 {
        assert InVain(trace[m], trace[m + 1], order, F, F[m], K);
      }
    }
  }

  // The search in list order.
  class CriticalPicker {
    const actioner: Actioner

    constructor (actioner: Actioner)
      ensures this.actioner == actioner
    {
      this.actioner := actioner;
    }

    method Pick(F: seq<Vec>) returns (r: Option<nat>, ghost trace: seq<seq<InputActions>>)
      requires actioner.Valid() && AllInBox(F, actioner.n, actioner.threshold, actioner.K)
      modifies actioner`actions, actioner.applyOut
      ensures actioner.Valid()
      ensures Permuted(old(actioner.actions), actioner.actions)
      ensures r.None? <==> NoneLoses(ArenaOfActions(actioner.actions), F, actioner.K)
      ensures r.Some? ==> r.value < |actioner.actions| && Critical(actioner.actions, r.value, F, actioner.K)
      ensures Rounds(trace, UpTo(|actioner.actions|), F, actioner.K) && trace[0] == old(actioner.actions)
      ensures r.None? ==> |trace| == |F| + 1 && actioner.actions == trace[|F|]
      ensures r.Some? ==> PickedAt(trace, actioner.actions, UpTo(|actioner.actions|), F, actioner.K, r.value)
    {
      hide Loses, Contains, VecsOf, ArenaOfActions, Permuted, FitsAll, InVain, Searched, FirstLosing, LosesAt;
      PermutedSelf(actioner.actions);
      trace := [actioner.actions];
      for k := 0 to |F|
        invariant actioner.Valid() && Permuted(old(actioner.actions), actioner.actions)
        invariant NoneLosesUpTo(ArenaOfActions(actioner.actions), F, actioner.K, k)
        invariant |trace| == k + 1 && trace[k] == actioner.actions && trace[0] == old(actioner.actions)
        invariant Rounds(trace, UpTo(|actioner.actions|), F, actioner.K)
      {
        ghost var before := actioner.actions;
        var found, i := SearchList(F, F[k]);
        PermutedAgain(old(actioner.actions), before, actioner.actions);
        PermutedLength(old(actioner.actions), before);
        if found {
          LosesIsCritical(actioner.actions, i, F, actioner.K, k);
          CriticalLoses(actioner.actions, i, F, actioner.K);
          return Some(i), trace;
        }
        RoundsNext(trace, actioner.actions, UpTo(|actioner.actions|), F, actioner.K);
        trace := trace + [actioner.actions];
      }
      return None, trace;
    }

    // The inner loop: the first input that witnesses the loss of f.
    method SearchList(F: seq<Vec>, f: Vec) returns (found: bool, i: nat)
      requires actioner.Valid() && Elements(f, actioner.n)
      modifies actioner`actions, actioner.applyOut
      ensures actioner.Valid() && Permuted(old(actioner.actions), actioner.actions)
      ensures ArenaOfActions(actioner.actions) == old(ArenaOfActions(actioner.actions))
      ensures found ==> i < |actioner.actions|
      ensures found ==> FirstLosing(actioner.actions, UpTo(|actioner.actions|), F, f, actioner.K, i)
      ensures found ==> LosesAt(actioner.actions, i, F, f, actioner.K)
      ensures found ==> Searched(old(actioner.actions), actioner.actions, UpTo(|actioner.actions|)[..i], F, f,
                                 actioner.K)
      ensures !found ==> Answered(ArenaOfActions(actioner.actions), F, f, actioner.K)
      ensures !found ==> InVain(old(actioner.actions), actioner.actions, UpTo(|actioner.actions|), F, f, actioner.K)
    {
      hide Loses, VecsOf, Contains, Permuted, FitsAll, ArenaOfActions, Searched, Tried, LosesAt;
      i := 0;
      var n := |actioner.actions|;
      PermutedSelf(actioner.actions);
      NothingSearched(actioner.actions, F, f, actioner.K);
      while i < |actioner.actions|
        invariant 0 <= i <= |actioner.actions| == n
        invariant actioner.Valid() && Permuted(old(actioner.actions), actioner.actions)
        invariant ArenaOfActions(actioner.actions) == old(ArenaOfActions(actioner.actions))
        invariant forall y :: 0 <= y < i ==> !LosesAt(actioner.actions, y, F, f, actioner.K)
        invariant Searched(old(actioner.actions), actioner.actions, UpTo(n)[..i], F, f, actioner.K)
      {
        ghost var before := actioner.actions;
        var isWitness := TryInput(actioner, F, f, i);
        SearchStep(before, actioner.actions);
        LosesKept(before, actioner.actions, F, f, actioner.K);
        PermutedAgain(old(actioner.actions), before, actioner.actions);
        LosesAtIs(actioner.actions, i, F, f, actioner.K);
        if isWitness {
          return true, i;
        }
        SearchedNext(old(actioner.actions), before, actioner.actions, UpTo(n)[..i], i, F, f, actioner.K);
        assert UpTo(n)[..i + 1] == UpTo(n)[..i] + [i];
        i := i + 1;
      }
      assert UpTo(n)[..n] == UpTo(n);
      AnsweredEverywhere(actioner.actions, F, f, actioner.K);
      VainSearch(old(actioner.actions), actioner.actions, UpTo(n), F, f, actioner.K);
      return false, i;
    }
  }

  function UpTo(n: nat): seq<nat> {
    seq(n, i => i)
  }

  lemma PermutedLength(L: seq<InputActions>, L': seq<InputActions>)
    requires Permuted(L, L')
    ensures |L| == |L'|
  {
  }

  lemma LosesAtIs(L: seq<InputActions>, i: nat, F: seq<Vec>, f: Vec, K: int)
    requires i < |L|
    ensures LosesAt(L, i, F, f, K) <==> Loses(VecsOf(L[i].actions), F, f, K)
  {
  }

  lemma LosesIsCritical(L: seq<InputActions>, i: nat, F: seq<Vec>, K: int, k: nat)
    requires k < |F| && LosesAt(L, i, F, F[k], K)
    ensures Critical(L, i, F, K)
  {
  }

  lemma AnsweredEverywhere(L: seq<InputActions>, F: seq<Vec>, f: Vec, K: int)
    requires forall y :: 0 <= y < |L| ==> !LosesAt(L, y, F, f, K)
    ensures Answered(ArenaOfActions(L), F, f, K)
  {
    hide Loses, VecsOf;
    forall A | A in ArenaOfActions(L)
      ensures !Loses(A, F, f, K)
    {
      var i :| 0 <= i < |L| && A == VecsOf(L[i].actions);
      assert !LosesAt(L, i, F, f, K);
    }
  }

  // No input of the list witnesses the loss of f, before the search as after it.
  lemma VainSearch(L: seq<InputActions>, L': seq<InputActions>, order: seq<nat>, F: seq<Vec>, f: Vec, K: int)
    requires Permuted(L, L') && Searched(L, L', order, F, f, K)
    requires forall y :: 0 <= y < |L'| ==> !LosesAt(L', y, F, f, K)
    ensures InVain(L, L', order, F, f, K)
  {
    hide Searched, LosesAt, VecsOf;
    SearchStep(L, L');
    LosesKept(L, L', F, f, K);
  }

  lemma SearchStep(L: seq<InputActions>, L': seq<InputActions>)
    requires Permuted(L, L')
    ensures |L| == |L'| && ArenaOfActions(L) == ArenaOfActions(L')
    ensures forall y :: 0 <= y < |L| ==> VecsOf(L[y].actions) == VecsOf(L'[y].actions)
  {
    PermutedArena(L, L');
    forall y | 0 <= y < |L|
      ensures VecsOf(L[y].actions) == VecsOf(L'[y].actions)
    {
      PermutedVecs(L[y].actions, L'[y].actions);
    }
  }

  // Entries (priority, input), lowest priority first.
  type Queue = seq<(int, nat)>

  ghost predicate Sorted(pq: Queue) {
    forall x, y :: 0 <= x < y < |pq| ==> pq[x].0 <= pq[y].0
  }

  ghost predicate RefersToAll(pq: Queue, n: nat) {
    && |pq| == n
    && (forall x :: 0 <= x < n ==> pq[x].1 < n)
    && (forall x, y :: 0 <= x < y < n ==> pq[x].1 != pq[y].1)
    && (forall i :: 0 <= i < n ==> Queued(pq, i))
  }

  ghost predicate Queued(pq: Queue, i: nat) {
    exists x :: 0 <= x < |pq| && pq[x].1 == i
  }

  ghost predicate InsertedAfterEquals(pq: Queue, pq': Queue, priority: int, i: nat) {
    exists x :: 0 <= x <= |pq| && IsInsertedAt(pq, pq', (priority, i), x)
  }

  predicate IsInsertedAt(pq: Queue, pq': Queue, e: (int, nat), x: nat)
    requires x <= |pq|
  {
    && pq' == pq[..x] + [e] + pq[x..]
    && (forall y :: 0 <= y < x ==> pq[y].0 <= e.0)
    && (forall y :: x <= y < |pq| ==> e.0 < pq[y].0)
  }

  // Entry x is taken out and put back after those of its new priority, one less than before.
  ghost predicate IsRequeued(pq: Queue, pq': Queue, x: nat) {
    x < |pq| && InsertedAfterEquals(pq[..x] + pq[x + 1..], pq', pq[x].0 - 1, pq[x].1)
  }

  // The inputs in the order of the queue.
  function InputsOf(pq: Queue): (r: seq<nat>) {
    seq(|pq|, x requires 0 <= x < |pq| => pq[x].1)
  }

  // As in a multimap, an entry goes after those of equal priority.
  method Emplace(pq: Queue, priority: int, i: nat) returns (pq': Queue)
    requires Sorted(pq)
    ensures Sorted(pq')
    ensures multiset(pq') == multiset(pq) + multiset{(priority, i)}
    ensures InsertedAfterEquals(pq, pq', priority, i)
  {
    var x := 0;
    while x < |pq| && pq[x].0 <= priority
      invariant 0 <= x <= |pq|
      invariant forall y :: 0 <= y < x ==> pq[y].0 <= priority
    {
      x := x + 1;
    }
    pq' := pq[..x] + [(priority, i)] + pq[x..];
    InsertionPlace(pq, pq', (priority, i), x);
    InsertionSorted(pq, pq', (priority, i), x);
    InsertionCounts(pq, pq', (priority, i), x);
  }

  lemma InsertionCounts(pq: Queue, pq': Queue, e: (int, nat), x: nat)
    requires x <= |pq| && pq' == pq[..x] + [e] + pq[x..]
    ensures multiset(pq') == multiset(pq) + multiset{e}
  {
    assert pq == pq[..x] + pq[x..];
  }

  lemma InsertionAt(pq: Queue, pq': Queue, e: (int, nat), x: nat, y: nat)
    requires x <= |pq| && pq' == pq[..x] + [e] + pq[x..] && y <= |pq|
    ensures pq'[y] == if y < x then pq[y] else if y == x then e else pq[y - 1]
  {
  }

  lemma InsertionPlace(pq: Queue, pq': Queue, e: (int, nat), x: nat)
    requires Sorted(pq) && x <= |pq| && pq' == pq[..x] + [e] + pq[x..]
    requires (forall y :: 0 <= y < x ==> pq[y].0 <= e.0) && (x < |pq| ==> e.0 < pq[x].0)
    ensures IsInsertedAt(pq, pq', e, x) && InsertedAfterEquals(pq, pq', e.0, e.1)
  {
    forall y | x <= y < |pq|
      ensures e.0 < pq[y].0
    {
    }
    assert IsInsertedAt(pq, pq', e, x);
  }

  lemma InsertionSorted(pq: Queue, pq': Queue, e: (int, nat), x: nat)
    requires Sorted(pq) && x <= |pq| && IsInsertedAt(pq, pq', e, x)
    ensures Sorted(pq')
  {
    forall y, z | 0 <= y < z < |pq'|
      ensures pq'[y].0 <= pq'[z].0
    {
      InsertionAt(pq, pq', e, x, y);
      InsertionAt(pq, pq', e, x, z);
    }
  }

  lemma RequeueRefersToAll(pq: Queue, pq': Queue, x: nat, e: (int, nat), n: nat)
    requires RefersToAll(pq, n) && x < n && e.1 == pq[x].1
    requires multiset(pq') == multiset(pq) - multiset{pq[x]} + multiset{e}
    requires forall y, z :: 0 <= y < z < |pq'| ==> pq'[y].1 != pq'[z].1
    ensures RefersToAll(pq', n)
  {
    assert pq[x] in multiset(pq);
    assert |pq'| == |multiset(pq')| == n;
    forall y | 0 <= y < n
      ensures pq'[y].1 < n
    {
      assert pq'[y] in multiset(pq');
      assert pq'[y] in multiset(pq) || pq'[y] == e;
    }
    forall i | 0 <= i < n
      ensures Queued(pq', i)
    {
      assert Queued(pq, i);
      var y :| 0 <= y < n && pq[y].1 == i;
      assert pq[y] in multiset(pq);
      var e' := if pq[y] == pq[x] then e else pq[y];
      assert e' in multiset(pq');
      assert e' in pq';
    }
  }

  lemma StillDistinct(pq: Queue, pq': Queue, x: nat, n: nat)
    requires RefersToAll(pq, n) && IsRequeued(pq, pq', x)
    ensures forall y, z :: 0 <= y < z < |pq'| ==> pq'[y].1 != pq'[z].1
  {
    var rest, e := pq[..x] + pq[x + 1..], (pq[x].0 - 1, pq[x].1);
    var w :| 0 <= w <= |rest| && IsInsertedAt(rest, pq', e, w);
    InsertedIs(rest, pq', e, w);
    RestDistinct(pq, x, n);
    hide IsInsertedAt, RefersToAll;
    forall y, z | 0 <= y < z < |pq'|
      ensures pq'[y].1 != pq'[z].1
    {
      InsertionAt(rest, pq', e, w, y);
      InsertionAt(rest, pq', e, w, z);
    }
  }

  lemma RestDistinct(pq: Queue, x: nat, n: nat)
    requires RefersToAll(pq, n) && x < |pq|
    ensures var rest := pq[..x] + pq[x + 1..];
            && (forall y :: 0 <= y < |rest| ==> rest[y].1 != pq[x].1)
            && (forall y, z :: 0 <= y < z < |rest| ==> rest[y].1 != rest[z].1)
  {
    hide Queued;
    var rest := pq[..x] + pq[x + 1..];
    assert forall y :: 0 <= y < |rest| ==> rest[y] == pq[if y < x then y else y + 1];
  }

  lemma InsertedIs(pq: Queue, pq': Queue, e: (int, nat), x: nat)
    requires x <= |pq| && IsInsertedAt(pq, pq', e, x)
    ensures pq' == pq[..x] + [e] + pq[x..]
  {
  }

  method Erase(pq: Queue, x: nat) returns (rest: Queue)
    requires Sorted(pq) && x < |pq|
    ensures Sorted(rest) && multiset(rest) == multiset(pq) - multiset{pq[x]}
    ensures rest == pq[..x] + pq[x + 1..]
  {
    rest := pq[..x] + pq[x + 1..];
    RestSorted(pq, x);
    hide Sorted;
    assert pq == pq[..x] + [pq[x]] + pq[x + 1..];
  }

  lemma RestSorted(pq: Queue, x: nat)
    requires Sorted(pq) && x < |pq|
    ensures Sorted(pq[..x] + pq[x + 1..])
  {
    var rest := pq[..x] + pq[x + 1..];
    assert forall y :: 0 <= y < |rest| ==> rest[y] == pq[if y < x then y else y + 1];
  }

  lemma QueueLength(pq: Queue, n: nat)
    requires RefersToAll(pq, n)
    ensures |pq| == n && forall x :: 0 <= x < n ==> pq[x].1 < n
  {
  }

  // The hit count of a critical input: it is put back with a lower priority number.
  method Requeue(pq: Queue, x: nat, ghost n: nat) returns (pq': Queue)
    requires Sorted(pq) && RefersToAll(pq, n) && x < n
    ensures Sorted(pq') && RefersToAll(pq', n)
    ensures multiset(pq') == multiset(pq) - multiset{pq[x]} + multiset{(pq[x].0 - 1, pq[x].1)}
    ensures IsRequeued(pq, pq', x)
  {
    hide RefersToAll, Sorted, InsertedAfterEquals;
    QueueLength(pq, n);
    var rest := Erase(pq, x);
    pq' := Emplace(rest, pq[x].0 - 1, pq[x].1);
    StillDistinct(pq, pq', x, n);
    RequeueRefersToAll(pq, pq', x, (pq[x].0 - 1, pq[x].1), n);
  }

  lemma CriticalLoses(L: seq<InputActions>, i: nat, F: seq<Vec>, K: int)
    requires Critical(L, i, F, K)
    ensures !NoneLoses(ArenaOfActions(L), F, K)
  {
    ArenaHas(L, i);
  }

  // The search in priority order.
  class CriticalPqPicker {
    const actioner: Actioner
    var pq: Queue

    ghost predicate Valid()
      reads this, actioner, actioner.backwardReset
    {
      actioner.Valid() && Sorted(pq) && RefersToAll(pq, |actioner.actions|)
    }

    constructor (actioner: Actioner)
      requires actioner.Valid()
      ensures Valid() && this.actioner == actioner
      ensures |pq| == |actioner.actions| && forall i :: 0 <= i < |pq| ==> pq[i] == (i, i)
    {
      this.actioner := actioner;
      var count := |actioner.actions|;
      pq := seq(count, i requires 0 <= i < count => (i, i));
      new;
      forall i | 0 <= i < |pq|
        ensures Queued(pq, i)
      {
        assert pq[i].1 == i;
      }
    }

    method Pick(F: seq<Vec>) returns (r: Option<nat>, ghost trace: seq<seq<InputActions>>)
      requires Valid() && AllInBox(F, actioner.n, actioner.threshold, actioner.K)
      modifies this`pq, actioner`actions, actioner.applyOut
      ensures Valid()
      ensures Permuted(old(actioner.actions), actioner.actions)
      ensures r.None? <==> NoneLoses(ArenaOfActions(actioner.actions), F, actioner.K)
      ensures r.Some? ==> r.value < |actioner.actions| && Critical(actioner.actions, r.value, F, actioner.K)
      ensures Rounds(trace, InputsOf(old(pq)), F, actioner.K) && trace[0] == old(actioner.actions)
      ensures r.None? ==> |trace| == |F| + 1 && actioner.actions == trace[|F|] && pq == old(pq)
      ensures r.Some? ==>
                exists x: nat ::
                  && PickedAt(trace, actioner.actions, InputsOf(old(pq)), F, actioner.K, x)
                  && r.value == InputsOf(old(pq))[x] && IsRequeued(old(pq), pq, x)
    {
      hide Loses, Contains, VecsOf, ArenaOfActions, Permuted, FitsAll, Sorted, RefersToAll, IsRequeued;
      hide InVain, Searched, FirstLosing, LosesAt;
      PermutedSelf(actioner.actions);
      trace := [actioner.actions];
      for k := 0 to |F|
        invariant Valid() && pq == old(pq) && Permuted(old(actioner.actions), actioner.actions)
        invariant NoneLosesUpTo(ArenaOfActions(actioner.actions), F, actioner.K, k)
        invariant |trace| == k + 1 && trace[k] == actioner.actions && trace[0] == old(actioner.actions)
        invariant Rounds(trace, InputsOf(pq), F, actioner.K)
      {
        ghost var before := actioner.actions;
        var found, x := SearchQueue(F, F[k]);
        PermutedAgain(old(actioner.actions), before, actioner.actions);
        if found {
          var (priority, i) := pq[x];
          QueueLength(pq, |actioner.actions|);
          LosesIsCritical(actioner.actions, i, F, actioner.K, k);
          CriticalLoses(actioner.actions, i, F, actioner.K);
          assert PickedAt(trace, actioner.actions, InputsOf(pq), F, actioner.K, x);
          pq := Requeue(pq, x, |actioner.actions|);
          return Some(i), trace;
        }
        RoundsNext(trace, actioner.actions, InputsOf(pq), F, actioner.K);
        trace := trace + [actioner.actions];
      }
      return None, trace;
    }

    // The inner loop: the first queue entry whose input witnesses the loss of f.
    method SearchQueue(F: seq<Vec>, f: Vec) returns (found: bool, x: nat)
      requires Valid() && Elements(f, actioner.n)
      modifies actioner`actions, actioner.applyOut
      ensures Valid() && Permuted(old(actioner.actions), actioner.actions)
      ensures ArenaOfActions(actioner.actions) == old(ArenaOfActions(actioner.actions))
      ensures found ==> x < |pq| && FirstLosing(actioner.actions, InputsOf(pq), F, f, actioner.K, x)
      ensures found ==> LosesAt(actioner.actions, pq[x].1, F, f, actioner.K)
      ensures found ==> Searched(old(actioner.actions), actioner.actions, InputsOf(pq)[..x], F, f, actioner.K)
      ensures !found ==> Answered(ArenaOfActions(actioner.actions), F, f, actioner.K)
      ensures !found ==> InVain(old(actioner.actions), actioner.actions, InputsOf(pq), F, f, actioner.K)
    {
      hide Loses, VecsOf, Contains, Permuted, FitsAll, Sorted, RefersToAll, ArenaOfActions, Searched, Tried, LosesAt;
      x := 0;
      QueueLength(pq, |actioner.actions|);
      PermutedSelf(actioner.actions);
      NothingSearched(actioner.actions, F, f, actioner.K);
      while x < |pq|
        invariant 0 <= x <= |pq| == |actioner.actions|
        invariant Valid() && Permuted(old(actioner.actions), actioner.actions)
        invariant ArenaOfActions(actioner.actions) == old(ArenaOfActions(actioner.actions))
        invariant forall y :: 0 <= y < |pq| ==> pq[y].1 < |pq|
        invariant forall y :: 0 <= y < x ==> !LosesAt(actioner.actions, pq[y].1, F, f, actioner.K)
        invariant Searched(old(actioner.actions), actioner.actions, InputsOf(pq)[..x], F, f, actioner.K)
      {
        ghost var before := actioner.actions;
        var isWitness := TryInput(actioner, F, f, pq[x].1);
        SearchStep(before, actioner.actions);
        LosesKept(before, actioner.actions, F, f, actioner.K);
        PermutedAgain(old(actioner.actions), before, actioner.actions);
        LosesAtIs(actioner.actions, pq[x].1, F, f, actioner.K);
        if isWitness {
          return true, x;
        }
        NotYetTried(pq, |pq|, x);
        SearchedNext(old(actioner.actions), before, actioner.actions, InputsOf(pq)[..x], pq[x].1, F, f, actioner.K);
        assert InputsOf(pq)[..x + 1] == InputsOf(pq)[..x] + [pq[x].1];
        x := x + 1;
      }
      assert InputsOf(pq)[..|pq|] == InputsOf(pq);
      AllInputsAnswered(actioner.actions, pq, F, f, actioner.K);
      AnsweredEverywhere(actioner.actions, F, f, actioner.K);
      VainSearch(old(actioner.actions), actioner.actions, InputsOf(pq), F, f, actioner.K);
      return false, x;
    }
  }

  lemma NotYetTried(pq: Queue, n: nat, x: nat)
    requires RefersToAll(pq, n) && x < |pq|
    ensures pq[x].1 !in InputsOf(pq)[..x]
  {
  }

  lemma AllInputsAnswered(L: seq<InputActions>, pq: Queue, F: seq<Vec>, f: Vec, K: int)
    requires RefersToAll(pq, |L|)
    requires forall y :: 0 <= y < |L| ==> !LosesAt(L, pq[y].1, F, f, K)
    ensures forall i :: 0 <= i < |L| ==> !LosesAt(L, i, F, f, K)
  {
    hide LosesAt;
    forall i | 0 <= i < |L|
      ensures !LosesAt(L, i, F, f, K)
    {
      assert Queued(pq, i);
    }
  }
}
