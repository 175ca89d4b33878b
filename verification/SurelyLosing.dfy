/**
  Flushing of surely losing states: a max-min fixpoint bounds from below how many accepting
  states the environment can force from a state, and states beyond K become accepting sinks.
*/
module SurelyLosing {
  import opened Vectors
  import opened Game
  import opened Automata

  // For each state, the transition lists some input leads to, whatever the output.
  type InputSuccessors = seq<seq<seq<(set<Letter>, nat)>>>

  // What the lists promise: some input makes every output cross one of the transitions.
  ghost predicate Contract(aut: Automaton, ins: set<Bits>, outs: set<Bits>, isuccs: InputSuccessors) {
    && |isuccs| == aut.Size()
    && (forall q, x, y :: 0 <= q < |isuccs| && 0 <= x < |isuccs[q]| && 0 <= y < |isuccs[q][x]| ==>
        isuccs[q][x][y].1 < aut.Size())
    && (forall q, x :: 0 <= q < |isuccs| && 0 <= x < |isuccs[q]| ==>
        exists i :: i in ins && Forced(aut, outs, q, isuccs[q][x], i))
  }

  ghost predicate Forced(aut: Automaton, outs: set<Bits>, q: nat, T: seq<(set<Letter>, nat)>, i: Bits) {
    forall o :: o in outs ==> Crosses(aut, q, T, Letter(i, o))
  }

  ghost predicate Crosses(aut: Automaton, q: nat, T: seq<(set<Letter>, nat)>, l: Letter) {
    exists y :: 0 <= y < |T| && Steps(aut, q, T[y].1, l)
  }

  predicate TargetsIn(T: seq<(set<Letter>, nat)>, n: nat) {
    forall y :: 0 <= y < |T| ==> T[y].1 < n
  }

  predicate ListsIn(lists: seq<seq<(set<Letter>, nat)>>, n: nat) {
    forall x :: 0 <= x < |lists| ==> TargetsIn(lists[x], n)
  }

  // min over the targets, starting from K + 1.
  function MinOf(T: seq<(set<Letter>, nat)>, c: seq<nat>, K: nat): nat
    requires TargetsIn(T, |c|)
  {
    if T == [] then K + 1
    else
      var r := MinOf(T[..|T| - 1], c, K);
      if c[T[|T| - 1].1] < r then c[T[|T| - 1].1] else r
  }

  // max over the lists, starting from 0.
  function MaxMin(lists: seq<seq<(set<Letter>, nat)>>, c: seq<nat>, K: nat): nat
    requires ListsIn(lists, |c|)
  {
    if lists == [] then 0
    else
      var r := MaxMin(lists[..|lists| - 1], c, K);
      var x := MinOf(lists[|lists| - 1], c, K);
      if r < x then x else r
  }

  function Flag(acc: bool): nat {
    if acc then 1 else 0
  }

  lemma {:induction false} MinOfBelow(T: seq<(set<Letter>, nat)>, c: seq<nat>, K: nat)
    requires TargetsIn(T, |c|)
    ensures MinOf(T, c, K) <= K + 1
    ensures forall y :: 0 <= y < |T| ==> MinOf(T, c, K) <= c[T[y].1]
  {
    if T != [] {
      MinOfBelow(T[..|T| - 1], c, K);
      assert forall y :: 0 <= y < |T| - 1 ==> T[..|T| - 1][y] == T[y];
    }
  }

  lemma {:induction false} MaxMinAttained(lists: seq<seq<(set<Letter>, nat)>>, c: seq<nat>, K: nat)
    requires ListsIn(lists, |c|)
    ensures MaxMin(lists, c, K) <= K + 1
    ensures MaxMin(lists, c, K) != 0 ==> exists x :: 0 <= x < |lists| && MinOf(lists[x], c, K) == MaxMin(lists, c, K)
  {
    if lists != [] {
      var n := |lists| - 1;
      MaxMinAttained(lists[..n], c, K);
      MinOfBelow(lists[n], c, K);
      if MaxMin(lists, c, K) != 0 && MaxMin(lists, c, K) == MaxMin(lists[..n], c, K) {
        var x :| 0 <= x < n && MinOf(lists[..n][x], c, K) == MaxMin(lists[..n], c, K);
        assert lists[..n][x] == lists[x];
      }
    }
  }

  // For every list, `max` is beyond K or at least the value of some target; and unless it is 0, some
  // list has no target with a smaller value.
  ghost predicate IsMaxMin(lists: seq<seq<(set<Letter>, nat)>>, c: seq<nat>, K: nat, max: int)
    requires ListsIn(lists, |c|)
  {
    && 0 <= max
    && (forall x :: 0 <= x < |lists| ==> K + 1 <= max || SomeUpTo(lists[x], c, max))
    && (max == 0 || (max <= K + 1 && exists x :: 0 <= x < |lists| && AllFrom(lists[x], c, max)))
  }

  ghost predicate SomeUpTo(T: seq<(set<Letter>, nat)>, c: seq<nat>, max: int)
    requires TargetsIn(T, |c|)
  {
    exists y :: 0 <= y < |T| && c[T[y].1] <= max
  }

  ghost predicate AllFrom(T: seq<(set<Letter>, nat)>, c: seq<nat>, max: int)
    requires TargetsIn(T, |c|)
  {
    forall y :: 0 <= y < |T| ==> max <= c[T[y].1]
  }

  lemma {:induction false} MinOfAttained(T: seq<(set<Letter>, nat)>, c: seq<nat>, K: nat)
    requires TargetsIn(T, |c|)
    ensures MinOf(T, c, K) == K + 1 || SomeUpTo(T, c, MinOf(T, c, K))
  {
    if T != [] {
      var init := T[..|T| - 1];
      MinOfAttained(init, c, K);
      if c[T[|T| - 1].1] >= MinOf(init, c, K) && MinOf(init, c, K) != K + 1 {
        var y :| 0 <= y < |init| && c[init[y].1] <= MinOf(init, c, K);
        assert T[y] == init[y];
      }
    }
  }

  lemma {:induction false} MaxMinReaches(lists: seq<seq<(set<Letter>, nat)>>, c: seq<nat>, K: nat, x: nat)
    requires ListsIn(lists, |c|) && x < |lists|
    ensures MinOf(lists[x], c, K) <= MaxMin(lists, c, K)
  {
    if x < |lists| - 1 {
      MaxMinReaches(lists[..|lists| - 1], c, K, x);
    }
  }

  // What the two nested loops compute.
  lemma MaxMinIs(lists: seq<seq<(set<Letter>, nat)>>, c: seq<nat>, K: nat)
    requires ListsIn(lists, |c|)
    ensures IsMaxMin(lists, c, K, MaxMin(lists, c, K))
  {
    var max := MaxMin(lists, c, K);
    MaxMinAttained(lists, c, K);
    forall x | 0 <= x < |lists|
      ensures K + 1 <= max || SomeUpTo(lists[x], c, max)
    {
      MaxMinReaches(lists, c, K, x);
      MinOfAttained(lists[x], c, K);
    }
    if max != 0 {
      var x :| 0 <= x < |lists| && MinOf(lists[x], c, K) == max;
      MinOfBelow(lists[x], c, K);
      assert AllFrom(lists[x], c, max);
    }
  }

  // No other number has that property.
  lemma MaxMinIsOnly(lists: seq<seq<(set<Letter>, nat)>>, c: seq<nat>, K: nat, a: int, b: int)
    requires ListsIn(lists, |c|) && IsMaxMin(lists, c, K, a) && IsMaxMin(lists, c, K, b)
    ensures a == b
  {
    NotAbove(lists, c, K, a, b);
    NotAbove(lists, c, K, b, a);
  }

  lemma NotAbove(lists: seq<seq<(set<Letter>, nat)>>, c: seq<nat>, K: nat, a: int, b: int)
    requires ListsIn(lists, |c|) && IsMaxMin(lists, c, K, a) && IsMaxMin(lists, c, K, b)
    ensures b <= a
  {
    if b != 0 && a < K + 1 {
      var x :| 0 <= x < |lists| && AllFrom(lists[x], c, b);
      assert SomeUpTo(lists[x], c, a);
    }
  }

  // Values up to K are not above those of d, except where d is beyond K.
  ghost predicate Below(c: seq<nat>, d: seq<nat>, K: nat) {
    |c| == |d| && forall q :: 0 <= q < |c| ==> c[q] <= d[q] || K < d[q]
  }

  lemma {:induction false} MinOfMonotone(T: seq<(set<Letter>, nat)>, c: seq<nat>, d: seq<nat>, K: nat)
    requires TargetsIn(T, |c|) && Below(c, d, K)
    ensures MinOf(T, c, K) <= MinOf(T, d, K)
  {
    if T != [] {
      MinOfBelow(T[..|T| - 1], d, K);
      MinOfMonotone(T[..|T| - 1], c, d, K);
    }
  }

  lemma {:induction false} MaxMinMonotone(lists: seq<seq<(set<Letter>, nat)>>, c: seq<nat>, d: seq<nat>, K: nat)
    requires ListsIn(lists, |c|) && Below(c, d, K)
    ensures MaxMin(lists, c, K) <= MaxMin(lists, d, K)
  {
    if lists != [] {
      MaxMinMonotone(lists[..|lists| - 1], c, d, K);
      MinOfMonotone(lists[|lists| - 1], c, d, K);
    }
  }

  // The loop that computes max_i min_o c[q.<i,o>].
  method ComputeMaxMin(lists: seq<seq<(set<Letter>, nat)>>, c: seq<nat>, K: nat) returns (max: nat)
    requires ListsIn(lists, |c|)
    ensures max == MaxMin(lists, c, K) && IsMaxMin(lists, c, K, max)
  {
    max := 0;
    for x := 0 to |lists|
      invariant max == MaxMin(lists[..x], c, K)
    {
      var T := lists[x];
      var min := K + 1;
      for y := 0 to |T|
        invariant min == MinOf(T[..y], c, K)
      {
        assert T[..y + 1][..y] == T[..y];
        min := if c[T[y].1] < min then c[T[y].1] else min;
      }
      assert T[..|T|] == T && lists[..x + 1][..x] == lists[..x];
      max := if max < min then min else max;
    }
    assert lists[..|lists|] == lists;
    MaxMinIs(lists, c, K);
  }

  // --- The invariants of the fixpoint loop ------------------------------------------------------

  // A state with value m[q] can still be driven through c[q] (not counting q itself) accepting
  // states, so the sum must stay below K in every safe vector.
  ghost predicate Sound(W: iset<Vec>, aut: Automaton, c: seq<nat>, K: nat) {
    forall m, q :: m in W && 0 <= q < |c| && 0 <= At(m, q) ==> Leaves(aut, c, K, m, q)
  }

  ghost predicate Leaves(aut: Automaton, c: seq<nat>, K: nat, m: Vec, q: nat)
    requires q < |c|
  {
    q < |aut.acc| && At(m, q) + c[q] - Flag(aut.acc[q]) <= K - 1
  }

  ghost predicate Rising(aut: Automaton, isuccs: InputSuccessors, c: seq<nat>, K: nat) {
    && |c| == |aut.acc| == |isuccs|
    && (forall q :: 0 <= q < |c| ==> ListsIn(isuccs[q], |c|))
    && (forall q :: 0 <= q < |c| ==> c[q] <= MaxMin(isuccs[q], c, K) + Flag(aut.acc[q]))
  }

  // Every state is settled: already losing, or its value is the max-min of its lists, one more when
  // it accepts.
  ghost predicate IsFixpoint(aut: Automaton, isuccs: InputSuccessors, c: seq<nat>, K: nat) {
    && |c| == |aut.acc| == |isuccs|
    && (forall q :: 0 <= q < |c| ==> ListsIn(isuccs[q], |c|))
    && (forall q :: 0 <= q < |c| ==> c[q] > K || IsMaxMin(isuccs[q], c, K, c[q] as int - (if aut.acc[q] then 1 else 0)))
  }

  // No fixpoint has a smaller value anywhere, so no state is found losing without need.
  ghost predicate IsLeast(aut: Automaton, isuccs: InputSuccessors, c: seq<nat>, K: nat) {
    forall d: seq<nat> :: |d| == |c| && IsFixpoint(aut, isuccs, d, K) ==> Below(c, d, K)
  }

  // Two least fixpoints agree on which states are losing and on all other values.
  lemma LosingIsDetermined(aut: Automaton, isuccs: InputSuccessors, c: seq<nat>, d: seq<nat>, K: nat)
    requires IsFixpoint(aut, isuccs, c, K) && IsLeast(aut, isuccs, c, K)
    requires IsFixpoint(aut, isuccs, d, K) && IsLeast(aut, isuccs, d, K)
    ensures forall q :: 0 <= q < |c| ==> (c[q] > K <==> d[q] > K) && (c[q] <= K ==> c[q] == d[q])
  {
    hide IsFixpoint;
    assert |c| == |d| by {
      FixpointShape(aut, isuccs, c, K);
      FixpointShape(aut, isuccs, d, K);
    }
    assert Below(c, d, K) && Below(d, c, K);
  }

  lemma FixpointShape(aut: Automaton, isuccs: InputSuccessors, c: seq<nat>, K: nat)
    requires IsFixpoint(aut, isuccs, c, K)
    ensures |c| == |aut.acc|
  {
  }

  lemma LeastStarts(aut: Automaton, isuccs: InputSuccessors, c: seq<nat>, K: nat)
    requires |c| == |aut.acc| && forall q :: 0 <= q < |c| ==> c[q] == Flag(aut.acc[q])
    ensures IsLeast(aut, isuccs, c, K)
  {
    forall d: seq<nat> | |d| == |c| && IsFixpoint(aut, isuccs, d, K)
      ensures Below(c, d, K)
    {
      hide ListsIn;
    }
  }

  // Raising one value to its max-min never passes a fixpoint.
  lemma LeastStep(aut: Automaton, isuccs: InputSuccessors, c: seq<nat>, K: nat, q: nat)
    requires |c| == |aut.acc| == |isuccs| && q < |c| && ListsIn(isuccs[q], |c|) && IsLeast(aut, isuccs, c, K)
    ensures IsLeast(aut, isuccs, c[q := MaxMin(isuccs[q], c, K) + Flag(aut.acc[q])], K)
  {
    var e := c[q := MaxMin(isuccs[q], c, K) + Flag(aut.acc[q])];
    hide MaxMin, ListsIn;
    forall d: seq<nat> | |d| == |e| && IsFixpoint(aut, isuccs, d, K)
      ensures Below(e, d, K)
    {
      assert Below(c, d, K);
      MaxMinMonotone(isuccs[q], c, d, K);
      FixpointValue(aut, isuccs, d, K, q);
    }
  }

  lemma FixpointValue(aut: Automaton, isuccs: InputSuccessors, d: seq<nat>, K: nat, q: nat)
    requires IsFixpoint(aut, isuccs, d, K) && q < |d|
    ensures ListsIn(isuccs[q], |d|)
    ensures d[q] > K || d[q] == MaxMin(isuccs[q], d, K) + Flag(aut.acc[q])
  {
    hide MaxMin, ListsIn, IsMaxMin;
    if d[q] <= K {
      MaxMinIs(isuccs[q], d, K);
      MaxMinIsOnly(isuccs[q], d, K, MaxMin(isuccs[q], d, K), d[q] as int - Flag(aut.acc[q]));
    }
  }

  lemma RisingStep(aut: Automaton, isuccs: InputSuccessors, c: seq<nat>, K: nat, q: nat)
    requires Rising(aut, isuccs, c, K) && q < |c|
    ensures Rising(aut, isuccs, c[q := MaxMin(isuccs[q], c, K) + Flag(aut.acc[q])], K)
    ensures c[q] <= MaxMin(isuccs[q], c, K) + Flag(aut.acc[q]) <= K + 2
  {
    var d := c[q := MaxMin(isuccs[q], c, K) + Flag(aut.acc[q])];
    MaxMinAttained(isuccs[q], c, K);
    forall p | 0 <= p < |d|
      ensures ListsIn(isuccs[p], |d|) && d[p] <= MaxMin(isuccs[p], d, K) + Flag(aut.acc[p])
    {
      MaxMinMonotone(isuccs[p], c, d, K);
    }
  }

  // The environment's forcing input carries the bound back one step.
  lemma SoundStep(aut: Automaton, ins: set<Bits>, outs: set<Bits>, inv: set<Letter>, isuccs: InputSuccessors,
                  c: seq<nat>, K: nat, W: iset<Vec>, q: nat)
    requires aut.Valid() && Contract(aut, ins, outs, isuccs) && Rising(aut, isuccs, c, K) && q < |c| && 1 <= K
    requires Stable(ArenaOf(aut, ins, outs, inv), K, Box(aut.Size(), aut.Size(), K), W) && Sound(W, aut, c, K)
    ensures Sound(W, aut, c[q := MaxMin(isuccs[q], c, K) + Flag(aut.acc[q])], K)
  {
    var d := c[q := MaxMin(isuccs[q], c, K) + Flag(aut.acc[q])];
    hide MaxMin, ListsIn, IsClosed, ArenaOf;
    forall m, p | m in W && 0 <= p < |d| && 0 <= At(m, p)
      ensures Leaves(aut, d, K, m, p)
    {
      assert Leaves(aut, c, K, m, p);
      if p == q {
        ForcedBack(aut, ins, outs, inv, isuccs, c, K, W, q, m);
      }
    }
  }

  lemma ForcedBack(aut: Automaton, ins: set<Bits>, outs: set<Bits>, inv: set<Letter>, isuccs: InputSuccessors,
                   c: seq<nat>, K: nat, W: iset<Vec>, q: nat, m: Vec)
    requires aut.Valid() && Contract(aut, ins, outs, isuccs) && Rising(aut, isuccs, c, K) && q < |c| && 1 <= K
    requires Stable(ArenaOf(aut, ins, outs, inv), K, Box(aut.Size(), aut.Size(), K), W) && Sound(W, aut, c, K)
    requires m in W && 0 <= At(m, q)
    ensures At(m, q) + MaxMin(isuccs[q], c, K) <= K - 1
  {
    MaxMinAttained(isuccs[q], c, K);
    assert InBox(m, aut.Size(), aut.Size(), K);
    if MaxMin(isuccs[q], c, K) != 0 {
      var x :| 0 <= x < |isuccs[q]| && MinOf(isuccs[q][x], c, K) == MaxMin(isuccs[q], c, K);
      var T := isuccs[q][x];
      var i :| i in ins && Forced(aut, outs, q, T, i);
      MinOfBelow(T, c, K);
      ClosedByLetters(aut, ins, outs, inv, K, W);
      hide Contract, Rising, MaxMin, MinOf, IsClosed;
      assert Answers(aut, outs, inv, K, W, m, i);
      var o :| o in outs && Letter(i, o) in inv && Forward(m, LetterAction(aut, Letter(i, o)), K) in W;
      ForcedThrough(aut, c, K, W, q, T, Letter(i, o), m);
    }
  }

  lemma ForcedThrough(aut: Automaton, c: seq<nat>, K: nat, W: iset<Vec>, q: nat, T: seq<(set<Letter>, nat)>, l: Letter,
                      m: Vec)
    requires aut.Valid() && |c| == aut.Size() && q < |c| && 1 <= K && TargetsIn(T, |c|)
    requires W <= Box(aut.Size(), aut.Size(), K) && Sound(W, aut, c, K) && m in W && 0 <= At(m, q)
    requires Crosses(aut, q, T, l) && Forward(m, LetterAction(aut, l), K) in W
    ensures exists y :: 0 <= y < |T| && At(m, q) + c[T[y].1] <= K - 1
  {
    var y :| 0 <= y < |T| && Steps(aut, q, T[y].1, l);
    var to := T[y].1;
    var f := Forward(m, LetterAction(aut, l), K);
    assert InBox(m, aut.Size(), aut.Size(), K) && InBox(f, aut.Size(), aut.Size(), K);
    ForwardAlongLetter(aut, l, m, K, to);
    hide Forward, LetterAction, Steps;
    assert Min(K, m[q] + Bump(aut.acc[to])) <= f[to] <= K - 1;
    assert Leaves(aut, c, K, f, to);
  }

  // Room left below the largest possible values: what makes the loop terminate.
  ghost function Slack(c: seq<nat>, K: nat): nat {
    if c == [] then 0 else Slack(c[..|c| - 1], K) + (if c[|c| - 1] <= K + 2 then K + 2 - c[|c| - 1] else 0)
  }

  lemma {:induction false} SlackDrops(c: seq<nat>, K: nat, q: nat, x: nat)
    requires q < |c| && c[q] < x <= K + 2
    ensures Slack(c[q := x], K) < Slack(c, K)
  {
    var d := c[q := x];
    if q < |c| - 1 {
      assert d[..|d| - 1] == c[..|c| - 1][q := x];
      SlackDrops(c[..|c| - 1], K, q, x);
    } else {
      assert d[..|d| - 1] == c[..|c| - 1];
    }
  }

  method ComputeLosing(aut: Automaton, isuccs: InputSuccessors, K: nat,
                       ghost ins: set<Bits>, ghost outs: set<Bits>, ghost inv: set<Letter>) returns (c: array<nat>)
    requires aut.Valid() && Contract(aut, ins, outs, isuccs) && 1 <= K
    ensures fresh(c) && c.Length == aut.Size()
    ensures Rising(aut, isuccs, c[..], K) && IsFixpoint(aut, isuccs, c[..], K) && IsLeast(aut, isuccs, c[..], K)
    ensures Sound(Region(ArenaOf(aut, ins, outs, inv), K, Box(aut.Size(), aut.Size(), K)), aut, c[..], K)
  {
    ghost var R := Box(aut.Size(), aut.Size(), K);
    ghost var W := Region(ArenaOf(aut, ins, outs, inv), K, R);
    RegionIsGreatest(ArenaOf(aut, ins, outs, inv), K, R);
    c := new nat[aut.Size()](q requires 0 <= q < aut.Size() && |aut.acc| == aut.Size() => Flag(aut.acc[q]));
    LeastStarts(aut, isuccs, c[..], K);
    hide Contract, Rising, Sound, Region, ArenaOf, Stable, MaxMin, IsLeast, IsFixpoint;
    var changed := true;
    while changed
      invariant Rising(aut, isuccs, c[..], K) && Sound(W, aut, c[..], K) && IsLeast(aut, isuccs, c[..], K)
      invariant !changed ==> IsFixpoint(aut, isuccs, c[..], K)
      decreases Slack(c[..], K), if changed then 1 else 0
    {
      changed := Sweep(aut, isuccs, K, c, W, ins, outs, inv);
    }
  }

  // One pass over the states.
  method Sweep(aut: Automaton, isuccs: InputSuccessors, K: nat, c: array<nat>, ghost W: iset<Vec>,
               ghost ins: set<Bits>, ghost outs: set<Bits>, ghost inv: set<Letter>) returns (changed: bool)
    requires aut.Valid() && Contract(aut, ins, outs, isuccs) && 1 <= K
    requires Stable(ArenaOf(aut, ins, outs, inv), K, Box(aut.Size(), aut.Size(), K), W)
    requires Rising(aut, isuccs, c[..], K) && Sound(W, aut, c[..], K) && IsLeast(aut, isuccs, c[..], K)
    modifies c
    ensures Rising(aut, isuccs, c[..], K) && Sound(W, aut, c[..], K) && IsLeast(aut, isuccs, c[..], K)
    ensures changed ==> Slack(c[..], K) < Slack(old(c[..]), K)
    ensures !changed ==> c[..] == old(c[..]) && IsFixpoint(aut, isuccs, c[..], K)
  {
    hide Contract, Rising, Sound, Stable, ArenaOf, SettledAt, Slack, IsFixpoint, IsLeast;
    changed := false;
    RisingShape(aut, isuccs, c[..], K);
    for q := 0 to c.Length
      invariant Rising(aut, isuccs, c[..], K) && Sound(W, aut, c[..], K) && IsLeast(aut, isuccs, c[..], K)
      invariant changed ==> Slack(c[..], K) < Slack(old(c[..]), K)
      invariant !changed ==> c[..] == old(c[..]) && Settled(aut, isuccs, c[..], K, q)
    {
      ghost var before := c[..];
      var updated := UpdateState(aut, isuccs, K, c, q, W, ins, outs, inv);
      changed := changed || updated;
    }
    SettledIsFixpoint(aut, isuccs, c[..], K);
  }

  lemma RisingShape(aut: Automaton, isuccs: InputSuccessors, c: seq<nat>, K: nat)
    requires Rising(aut, isuccs, c, K)
    ensures |c| == |aut.acc| == |isuccs|
  {
  }

  // One state of the pass.
  method UpdateState(aut: Automaton, isuccs: InputSuccessors, K: nat, c: array<nat>, q: nat, ghost W: iset<Vec>,
                     ghost ins: set<Bits>, ghost outs: set<Bits>, ghost inv: set<Letter>) returns (updated: bool)
    requires aut.Valid() && Contract(aut, ins, outs, isuccs) && 1 <= K && q < c.Length
    requires Stable(ArenaOf(aut, ins, outs, inv), K, Box(aut.Size(), aut.Size(), K), W)
    requires Rising(aut, isuccs, c[..], K) && Sound(W, aut, c[..], K) && IsLeast(aut, isuccs, c[..], K)
    modifies c
    ensures Rising(aut, isuccs, c[..], K) && Sound(W, aut, c[..], K) && IsLeast(aut, isuccs, c[..], K)
    ensures updated ==> Slack(c[..], K) < Slack(old(c[..]), K)
    ensures !updated ==> c[..] == old(c[..]) && SettledAt(aut, isuccs, c[..], K, q)
  {
    hide Contract, Rising, Sound, Stable, ArenaOf, MaxMin, ListsIn, Slack, SettledAt, IsLeast, IsMaxMin;
    SettledLists(aut, isuccs, c[..], K, q);
    updated := false;
    if c[q] <= K {
      var max: nat := ComputeMaxMin(isuccs[q], c[..], K);
      max := max + Flag(aut.acc[q]);
      RisingStep(aut, isuccs, c[..], K, q);
      SoundStep(aut, ins, outs, inv, isuccs, c[..], K, W, q);
      LeastStep(aut, isuccs, c[..], K, q);
      if c[q] != max {
        SlackDrops(c[..], K, q, max);
        updated := true;
        ghost var before := c[..];
        c[q] := max;
        assert c[..] == before[q := max];
        return;
      }
    }
    IsSettled(aut, isuccs, c[..], K, q);
  }

  lemma IsSettled(aut: Automaton, isuccs: InputSuccessors, c: seq<nat>, K: nat, q: nat)
    requires Rising(aut, isuccs, c, K) && q < |c|
    requires ListsIn(isuccs[q], |c|) && (c[q] > K || c[q] == MaxMin(isuccs[q], c, K) + Flag(aut.acc[q]))
    ensures SettledAt(aut, isuccs, c, K, q)
  {
  }

  ghost predicate SettledAt(aut: Automaton, isuccs: InputSuccessors, c: seq<nat>, K: nat, q: nat) {
    && q < |c| && |c| == |aut.acc| == |isuccs| && ListsIn(isuccs[q], |c|)
    && (c[q] > K || c[q] == MaxMin(isuccs[q], c, K) + Flag(aut.acc[q]))
  }

  // The first m states are settled.
  ghost predicate Settled(aut: Automaton, isuccs: InputSuccessors, c: seq<nat>, K: nat, m: nat) {
    forall q :: 0 <= q < m ==> SettledAt(aut, isuccs, c, K, q)
  }

  lemma SettledLists(aut: Automaton, isuccs: InputSuccessors, c: seq<nat>, K: nat, q: nat)
    requires Rising(aut, isuccs, c, K) && q < |c|
    ensures |c| == |aut.acc| == |isuccs| && ListsIn(isuccs[q], |c|)
  {
  }

  lemma SettledIsFixpoint(aut: Automaton, isuccs: InputSuccessors, c: seq<nat>, K: nat)
    requires Rising(aut, isuccs, c, K)
    ensures Settled(aut, isuccs, c, K, |c|) ==> IsFixpoint(aut, isuccs, c, K)
  {
    hide MaxMin, ListsIn, IsMaxMin;
    if Settled(aut, isuccs, c, K, |c|) {
      forall q | 0 <= q < |c|
        ensures c[q] > K || IsMaxMin(isuccs[q], c, K, c[q] as int - (if aut.acc[q] then 1 else 0))
      {
        assert SettledAt(aut, isuccs, c, K, q);
        MaxMinIs(isuccs[q], c, K);
      }
    }
  }

  // A state beyond K is losing: no vector with it active is safe.
  lemma BeyondKIsLosing(aut: Automaton, W: iset<Vec>, c: seq<nat>, K: nat, m: Vec, q: nat)
    requires Sound(W, aut, c, K) && q < |c| && c[q] > K && m in W
    ensures At(m, q) < 0
  {
    assert 0 <= At(m, q) ==> Leaves(aut, c, K, m, q);
  }

  // --- Flushing ----------------------------------------------------------------------------------

  function Flushed(aut: Automaton, c: seq<nat>, K: nat, letters: set<Letter>): Automaton
    requires |c| == |aut.out| == |aut.acc|
  {
    Automaton(aut.init,
              seq(|c|, q requires 0 <= q < |c| => c[q] > K || aut.acc[q]),
              seq(|c|, q requires 0 <= q < |c| => if c[q] > K then [Edge(q, letters)] else aut.out[q]))
  }

  method Flush(aut: Automaton, c: array<nat>, K: nat, letters: set<Letter>) returns (aut': Automaton, flushed: nat)
    requires aut.Valid() && c.Length == aut.Size()
    ensures aut' == Flushed(aut, c[..], K, letters)
    ensures flushed == 0 <==> forall q :: 0 <= q < c.Length ==> c[q] <= K
    ensures flushed == 0 ==> aut' == aut
  {
    var out, acc := aut.out, aut.acc;
    flushed := 0;
    for q := 0 to c.Length
      invariant |out| == |acc| == c.Length
      invariant forall p :: 0 <= p < q ==> out[p] == (if c[p] > K then [Edge(p, letters)] else aut.out[p])
      invariant forall p :: 0 <= p < q ==> acc[p] == (c[p] > K || aut.acc[p])
      invariant forall p :: q <= p < c.Length ==> out[p] == aut.out[p] && acc[p] == aut.acc[p]
      invariant flushed == 0 <==> forall p :: 0 <= p < q ==> c[p] <= K
      invariant flushed == 0 ==> out == aut.out && acc == aut.acc
    {
      if c[q] > K {
        flushed := flushed + 1;
        out := out[q := [Edge(q, letters)]];
        acc := acc[q := true];
      }
    }
    aut' := Automaton(aut.init, acc, out);
    assert aut'.out == Flushed(aut, c[..], K, letters).out;
    assert aut'.acc == Flushed(aut, c[..], K, letters).acc;
  }

  // Two automata move a vector alike when they agree on the transitions from its active states.
  ghost predicate SameMoves(aut: Automaton, aut': Automaton, l: Letter, v: Vec, q: nat)
    requires q < |aut.acc| && q < |aut'.acc|
  {
    forall p: nat :: At(v, p) != -1 ==>
      (Steps(aut, p, q, l) <==> Steps(aut', p, q, l)) && (Steps(aut, p, q, l) ==> aut.acc[q] == aut'.acc[q])
  }

  lemma SameForward(aut: Automaton, aut': Automaton, l: Letter, v: Vec, K: int)
    requires aut.Valid() && aut'.Valid() && aut.Size() == aut'.Size() == |v| && Floor(v) && 1 <= K
    requires forall q :: 0 <= q < aut.Size() ==> SameMoves(aut, aut', l, v, q)
    ensures Forward(v, LetterAction(aut, l), K) == Forward(v, LetterAction(aut', l), K)
  {
    var f, f' := Forward(v, LetterAction(aut, l), K), Forward(v, LetterAction(aut', l), K);
    hide LetterAction;
    assert |f| == |f'| == aut.Size() by {
      ForwardAlongLetter(aut, l, v, K, aut.init);
      ForwardAlongLetter(aut', l, v, K, aut.init);
    }
    forall q | 0 <= q < aut.Size()
      ensures f[q] == f'[q]
    {
      ForwardAlongLetter(aut, l, v, K, q);
      ForwardAlongLetter(aut', l, v, K, q);
      assert SameMoves(aut, aut', l, v, q);
      hide Forward;
      if f[q] != -1 {
        var p: nat :| Steps(aut, p, q, l) && v[p] != -1 && f[q] == Min(K, v[p] + Bump(aut.acc[q]));
        assert Steps(aut', p, q, l) && f[q] <= f'[q];
      }
      if f'[q] != -1 {
        var p: nat :| Steps(aut', p, q, l) && v[p] != -1 && f'[q] == Min(K, v[p] + Bump(aut'.acc[q]));
        assert Steps(aut, p, q, l) && f'[q] <= f[q];
      }
    }
  }

  // No vector of W has a flushed state active.
  ghost predicate Inactive(W: iset<Vec>, c: seq<nat>, K: nat) {
    forall m, q :: m in W && 0 <= q < |c| && c[q] > K ==> At(m, q) == -1
  }

  lemma FlushedStep(aut: Automaton, c: seq<nat>, K: nat, letters: set<Letter>, p: nat, q: nat, l: Letter)
    requires aut.Valid() && |c| == aut.Size()
    ensures p < |c| && c[p] <= K ==> (Steps(Flushed(aut, c, K, letters), p, q, l) <==> Steps(aut, p, q, l))
    ensures p < |c| && c[p] > K ==> (Steps(Flushed(aut, c, K, letters), p, q, l) <==> q == p && l in letters)
  {
    var aut' := Flushed(aut, c, K, letters);
    if p < |c| && c[p] > K && q == p && l in letters {
      assert aut'.out[p][0] == Edge(p, letters);
    }
  }

  // With flushed states inactive before and after, the two automata move alike.
  lemma FlushedMoves(aut: Automaton, c: seq<nat>, K: nat, letters: set<Letter>, l: Letter, v: Vec, f: Vec,
                     fromOriginal: bool)
    requires aut.Valid() && |c| == aut.Size() == |v| && Floor(v) && 1 <= K
    requires Flushed(aut, c, K, letters).Valid()
    requires f == Forward(v, LetterAction(if fromOriginal then aut else Flushed(aut, c, K, letters), l), K)
    requires forall q :: 0 <= q < |c| && c[q] > K ==> At(v, q) == -1 && At(f, q) == -1
    ensures Forward(v, LetterAction(aut, l), K) == Forward(v, LetterAction(Flushed(aut, c, K, letters), l), K)
  {
    var aut' := Flushed(aut, c, K, letters);
    forall q | 0 <= q < |c|
      ensures SameMoves(aut, aut', l, v, q)
    {
      forall p: nat | At(v, p) != -1
        ensures Steps(aut, p, q, l) <==> Steps(aut', p, q, l)
        ensures Steps(aut, p, q, l) ==> aut.acc[q] == aut'.acc[q]
      {
        FlushedStep(aut, c, K, letters, p, q, l);
        if c[q] > K {
          ForwardAlongLetter(if fromOriginal then aut else aut', l, v, K, q);
        }
      }
    }
    hide Flushed, Steps, Forward, LetterAction;
    SameForward(aut, aut', l, v, K);
  }

  // A region of one automaton in which flushed states are inactive is a region of the other.
  lemma RegionTransfers(aut: Automaton, ins: set<Bits>, outs: set<Bits>, inv: set<Letter>, c: seq<nat>, K: nat,
                        letters: set<Letter>, W: iset<Vec>, fromOriginal: bool)
    requires aut.Valid() && |c| == aut.Size() && 1 <= K && W <= Box(aut.Size(), aut.Size(), K) && Inactive(W, c, K)
    requires IsClosed(ArenaOf(if fromOriginal then aut else Flushed(aut, c, K, letters), ins, outs, inv), K, W)
    ensures IsClosed(ArenaOf(if fromOriginal then Flushed(aut, c, K, letters) else aut, ins, outs, inv), K, W)
  {
    var aut' := Flushed(aut, c, K, letters);
    var from, to := if fromOriginal then aut else aut', if fromOriginal then aut' else aut;
    hide Flushed, Forward, LetterAction, ArenaOf, IsClosed;
    ClosedByLetters(from, ins, outs, inv, K, W);
    ClosedByLetters(to, ins, outs, inv, K, W);
    forall v, i | v in W && i in ins
      ensures Answers(to, outs, inv, K, W, v, i)
    {
      assert Answers(from, outs, inv, K, W, v, i);
      var o :| o in outs && Letter(i, o) in inv && Forward(v, LetterAction(from, Letter(i, o)), K) in W;
      assert InBox(v, aut.Size(), aut.Size(), K);
      FlushedMoves(aut, c, K, letters, Letter(i, o), v, Forward(v, LetterAction(from, Letter(i, o)), K), fromOriginal);
    }
  }

  // In the flushed automaton an active flushed state counts at every step.
  lemma SinkCounts(aut: Automaton, c: seq<nat>, K: nat, letters: set<Letter>, l: Letter, m: Vec, q: nat)
    requires aut.Valid() && |c| == aut.Size() == |m| && Floor(m) && 1 <= K && q < |c| && c[q] > K && l in letters &&
        0 <= m[q] < K
    ensures At(Forward(m, LetterAction(Flushed(aut, c, K, letters), l), K), q) > m[q]
  {
    var aut' := Flushed(aut, c, K, letters);
    FlushedStep(aut, c, K, letters, q, q, l);
    hide Steps, Forward, LetterAction;
    ForwardAlongLetter(aut', l, m, K, q);
  }

  // So it cannot stay safe.
  lemma {:induction false} SinkIsUnsafe(aut: Automaton, ins: set<Bits>, outs: set<Bits>, inv: set<Letter>, c: seq<nat>,
                                        K: nat, W: iset<Vec>, m: Vec, q: nat)
    requires aut.Valid() && |c| == aut.Size() && 1 <= K && ins != {} && q < |c| && c[q] > K
    requires Stable(ArenaOf(Flushed(aut, c, K, AllLetters(ins, outs)), ins, outs, inv), K,
                    Box(aut.Size(), aut.Size(), K), W)
    requires m in W && 0 <= At(m, q)
    ensures false
    decreases K - At(m, q)
  {
    hide IsClosed, ArenaOf, Flushed, Forward, LetterAction, AllLetters;
    var letters := AllLetters(ins, outs);
    var aut' := Flushed(aut, c, K, letters);
    ClosedByLetters(aut', ins, outs, inv, K, W);
    var i :| i in ins;
    assert Answers(aut', outs, inv, K, W, m, i);
    var o :| o in outs && Letter(i, o) in inv && Forward(m, LetterAction(aut', Letter(i, o)), K) in W;
    IsLetter(ins, outs, i, o);
    assert InBox(m, aut.Size(), aut.Size(), K);
    SinkCounts(aut, c, K, letters, Letter(i, o), m, q);
    SinkIsUnsafe(aut, ins, outs, inv, c, K, W, Forward(m, LetterAction(aut', Letter(i, o)), K), q);
  }

  lemma IsLetter(ins: set<Bits>, outs: set<Bits>, i: Bits, o: Bits)
    requires i in ins && o in outs
    ensures Letter(i, o) in AllLetters(ins, outs)
  {
  }

  // Flushing leaves the safe region at K unchanged.
  lemma FlushKeepsRegion(aut: Automaton, ins: set<Bits>, outs: set<Bits>, inv: set<Letter>, c: seq<nat>, K: nat)
    requires aut.Valid() && |c| == aut.Size() && 1 <= K && ins != {}
    requires Sound(Region(ArenaOf(aut, ins, outs, inv), K, Box(aut.Size(), aut.Size(), K)), aut, c, K)
    ensures Region(ArenaOf(Flushed(aut, c, K, AllLetters(ins, outs)), ins, outs, inv), K,
                   Box(aut.Size(), aut.Size(), K))
         == Region(ArenaOf(aut, ins, outs, inv), K, Box(aut.Size(), aut.Size(), K))
  {
    var letters, R := AllLetters(ins, outs), Box(aut.Size(), aut.Size(), K);
    var g, g' := ArenaOf(aut, ins, outs, inv), ArenaOf(Flushed(aut, c, K, letters), ins, outs, inv);
    var W, W' := Region(g, K, R), Region(g', K, R);
    RegionIsGreatest(g, K, R);
    RegionIsGreatest(g', K, R);
    hide Region, Winning, ArenaOf, IsClosed, Flushed, Sound;
    forall m, q | m in W && 0 <= q < |c| && c[q] > K
      ensures At(m, q) == -1
    {
      assert InBox(m, aut.Size(), aut.Size(), K);
      BeyondKIsLosing(aut, W, c, K, m, q);
    }
    forall m, q | m in W' && 0 <= q < |c| && c[q] > K
      ensures At(m, q) == -1
    {
      assert InBox(m, aut.Size(), aut.Size(), K);
      if 0 <= At(m, q) {
        SinkIsUnsafe(aut, ins, outs, inv, c, K, W', m, q);
      }
    }
    RegionTransfers(aut, ins, outs, inv, c, K, letters, W, true);
    RegionTransfers(aut, ins, outs, inv, c, K, letters, W', false);
    assert Stable(g', K, R, W) && Stable(g, K, R, W');
  }

  // The whole pass: the fixpoint, then the flushing, for a game that keeps its safe region.
  method Preprocess(aut: Automaton, isuccs: InputSuccessors, K: nat, ins: set<Bits>, outs: set<Bits>,
                    ghost inv: set<Letter>)
    returns (aut': Automaton, ghost c: seq<nat>)
    requires aut.Valid() && Contract(aut, ins, outs, isuccs) && 1 <= K && ins != {}
    ensures IsFixpoint(aut, isuccs, c, K) && IsLeast(aut, isuccs, c, K)
    ensures aut'.Valid() && aut'.Size() == |c| == aut.Size() && aut'.init == aut.init
    ensures forall q :: 0 <= q < |c| && c[q] > K ==> aut'.acc[q] && aut'.out[q] == [Edge(q, AllLetters(ins, outs))]
    ensures forall q :: 0 <= q < |c| && c[q] <= K ==> aut'.acc[q] == aut.acc[q] && aut'.out[q] == aut.out[q]
    ensures Region(ArenaOf(aut', ins, outs, inv), K, Box(aut.Size(), aut.Size(), K))
         == Region(ArenaOf(aut, ins, outs, inv), K, Box(aut.Size(), aut.Size(), K))
  {
    hide Contract, Sound, Region, ArenaOf, IsFixpoint, IsLeast, AllLetters;
    var values := ComputeLosing(aut, isuccs, K, ins, outs, inv);
    var flushed;
    aut', flushed := Flush(aut, values, K, AllLetters(ins, outs));
    c := values[..];
    FlushKeepsRegion(aut, ins, outs, inv, c, K);
  }
}
