/**
  What the counter vectors mean: they count the accepting states entered along the runs of the
  automaton, and a vector is safe exactly when some strategy keeps every run below the bound.
*/
module Runs {
  import opened Vectors
  import opened Game
  import opened Automata

  ghost predicate IsRun(aut: Automaton, w: seq<Letter>, r: seq<nat>) {
    && |r| == |w| + 1 && r[0] == aut.init
    && forall k :: 0 <= k < |w| ==> Steps(aut, r[k], r[k + 1], w[k])
  }

  ghost predicate IsAccepting(aut: Automaton, q: nat) {
    q < |aut.acc| && aut.acc[q]
  }

  lemma StepsTarget(aut: Automaton, p: nat, q: nat, l: Letter)
    requires aut.Valid() && Steps(aut, p, q, l)
    ensures p < aut.Size() && q < aut.Size()
  {
    var e :| e in aut.out[p] && e.dst == q && l in e.cond;
    var j :| 0 <= j < |aut.out[p]| && aut.out[p][j] == e;
  }

  lemma RunsInside(aut: Automaton, w: seq<Letter>, r: seq<nat>, k: nat)
    requires aut.Valid() && IsRun(aut, w, r) && k <= |w|
    ensures r[k] < aut.Size()
  {
    if k > 0 {
      StepsTarget(aut, r[k - 1], r[k - 1 + 1], w[k - 1]);
    }
  }

  // How many accepting states the run enters.
  ghost function Visits(aut: Automaton, r: seq<nat>): nat {
    if |r| <= 1 then 0 else Visits(aut, r[..|r| - 1]) + Bump(IsAccepting(aut, r[|r| - 1]))
  }

  // Iterating the forward transformer from the initial vector.
  ghost function VecAfter(aut: Automaton, w: seq<Letter>, K: int): Vec
    requires aut.init < |aut.out|
  {
    if w == [] then InitVec(|aut.out|, aut.init)
    else Forward(VecAfter(aut, w[..|w| - 1], K), LetterAction(aut, w[|w| - 1]), K)
  }

  ghost predicate EndsIn(aut: Automaton, w: seq<Letter>, r: seq<nat>, q: nat) {
    IsRun(aut, w, r) && r[|w|] == q
  }

  // Every run is counted.
  ghost predicate CountsAtLeast(aut: Automaton, w: seq<Letter>, K: int, q: nat, x: int) {
    forall r :: EndsIn(aut, w, r, q) ==> Min(K, Visits(aut, r)) <= x
  }

  // The count is that of some run.
  ghost predicate CountsSome(aut: Automaton, w: seq<Letter>, K: int, q: nat, x: int) {
    exists r :: EndsIn(aut, w, r, q) && x == Min(K, Visits(aut, r))
  }

  // Component q is -1 iff no run ends in q, and otherwise the largest number of accepting states
  // entered by such a run, capped at K.
  lemma {:induction false} VecCountsRuns(aut: Automaton, w: seq<Letter>, K: int)
    requires aut.Valid() && 1 <= K
    ensures |VecAfter(aut, w, K)| == aut.Size()
    ensures forall q :: 0 <= q < aut.Size() ==>
              && -1 <= VecAfter(aut, w, K)[q] <= K
              && CountsAtLeast(aut, w, K, q, VecAfter(aut, w, K)[q])
              && (VecAfter(aut, w, K)[q] != -1 ==> CountsSome(aut, w, K, q, VecAfter(aut, w, K)[q]))
  {
    if w == [] {
      InitCounts(aut, K);
    } else {
      VecCountsRuns(aut, w[..|w| - 1], K);
      hide CountsAtLeast, CountsSome, LetterAction;
      forall q | 0 <= q < aut.Size()
        ensures -1 <= VecAfter(aut, w, K)[q] <= K
        ensures CountsAtLeast(aut, w, K, q, VecAfter(aut, w, K)[q])
        ensures VecAfter(aut, w, K)[q] != -1 ==> CountsSome(aut, w, K, q, VecAfter(aut, w, K)[q])
      {
        StepCounts(aut, w, K, q, VecAfter(aut, w[..|w| - 1], K));
      }
    }
  }

  lemma InitCounts(aut: Automaton, K: int)
    requires aut.Valid() && 1 <= K
    ensures forall q :: 0 <= q < aut.Size() ==>
              && -1 <= InitVec(aut.Size(), aut.init)[q] <= K
              && CountsAtLeast(aut, [], K, q, InitVec(aut.Size(), aut.init)[q])
              && (InitVec(aut.Size(), aut.init)[q] != -1 ==>
                  CountsSome(aut, [], K, q, InitVec(aut.Size(), aut.init)[q]))
  {
    var r := [aut.init];
    assert EndsIn(aut, [], r, aut.init) && Visits(aut, r) == 0;
  }

  // Dropping the last letter of a run.
  lemma RunWithoutLast(aut: Automaton, w: seq<Letter>, r: seq<nat>, q: nat)
    requires EndsIn(aut, w, r, q) && w != []
    ensures EndsIn(aut, w[..|w| - 1], r[..|w|], r[|w| - 1]) && Steps(aut, r[|w| - 1], q, w[|w| - 1])
    ensures Visits(aut, r) == Visits(aut, r[..|w|]) + Bump(IsAccepting(aut, q))
  {
    var n := |w| - 1;
    assert Steps(aut, r[n], r[n + 1], w[n]);
    assert r[..|r| - 1] == r[..|w|];
    hide Steps;
  }

  lemma RunWithOneMore(aut: Automaton, w: seq<Letter>, r: seq<nat>, p: nat, q: nat)
    requires w != [] && EndsIn(aut, w[..|w| - 1], r, p) && Steps(aut, p, q, w[|w| - 1])
    ensures EndsIn(aut, w, r + [q], q) && Visits(aut, r + [q]) == Visits(aut, r) + Bump(IsAccepting(aut, q))
  {
    var r' := r + [q];
    assert r'[..|r'| - 1] == r;
    hide Steps, Visits;
    forall k | 0 <= k < |w|
      ensures Steps(aut, r'[k], r'[k + 1], w[k])
    {
      if k < |w| - 1 {
        assert Steps(aut, r[k], r[k + 1], w[..|w| - 1][k]);
      }
    }
  }

  lemma StepCounts(aut: Automaton, w: seq<Letter>, K: int, q: nat, v: Vec)
    requires aut.Valid() && 1 <= K && w != [] && q < aut.Size()
    requires |v| == aut.Size() && forall p :: 0 <= p < |v| ==>
               && -1 <= v[p] <= K && CountsAtLeast(aut, w[..|w| - 1], K, p, v[p])
               && (v[p] != -1 ==> CountsSome(aut, w[..|w| - 1], K, p, v[p]))
    ensures |Forward(v, LetterAction(aut, w[|w| - 1]), K)| == aut.Size()
    ensures var x := Forward(v, LetterAction(aut, w[|w| - 1]), K)[q];
            -1 <= x <= K && CountsAtLeast(aut, w, K, q, x) && (x != -1 ==> CountsSome(aut, w, K, q, x))
  {
    var l, w' := w[|w| - 1], w[..|w| - 1];
    ForwardAlongLetter(aut, l, v, K, q);
    var x := Forward(v, LetterAction(aut, l), K)[q];
    hide Forward, LetterAction, Visits, IsRun, Steps, EndsIn, CountsAtLeast, CountsSome;
    forall r | EndsIn(aut, w, r, q)
      ensures Min(K, Visits(aut, r)) <= x
    {
      StepCountsRun(aut, w, K, q, v, x, r);
    }
    CountsAll(aut, w, K, q, x);
    if x != -1 {
      var p: nat :| Steps(aut, p, q, l) && v[p] != -1 && x == Min(K, v[p] + Bump(aut.acc[q]));
      StepCountsSome(aut, w, K, q, x, p, v[p]);
    }
  }

  lemma CountsAll(aut: Automaton, w: seq<Letter>, K: int, q: nat, x: int)
    requires forall r :: EndsIn(aut, w, r, q) ==> Min(K, Visits(aut, r)) <= x
    ensures CountsAtLeast(aut, w, K, q, x)
  {
  }

  lemma StepCountsRun(aut: Automaton, w: seq<Letter>, K: int, q: nat, v: Vec, x: int, r: seq<nat>)
    requires aut.Valid() && w != [] && q < aut.Size() && |v| == aut.Size() && EndsIn(aut, w, r, q)
    requires forall p: nat :: p < |v| ==> CountsAtLeast(aut, w[..|w| - 1], K, p, v[p])
    requires forall p: nat :: Steps(aut, p, q, w[|w| - 1]) && p < |v| && v[p] != -1 ==>
        Min(K, v[p] + Bump(aut.acc[q])) <= x
    requires 1 <= K && forall p :: 0 <= p < |v| ==> -1 <= v[p] <= K
    ensures Min(K, Visits(aut, r)) <= x
  {
    RunWithoutLast(aut, w, r, q);
    var p, r' := r[|w| - 1], r[..|w|];
    StepsTarget(aut, p, q, w[|w| - 1]);
    hide Visits, Steps, EndsIn;
    assert CountsAtLeast(aut, w[..|w| - 1], K, p, v[p]);
  }

  lemma StepCountsSome(aut: Automaton, w: seq<Letter>, K: int, q: nat, x: int, p: nat, y: int)
    requires aut.Valid() && w != [] && q < aut.Size() && Steps(aut, p, q, w[|w| - 1])
    requires CountsSome(aut, w[..|w| - 1], K, p, y) && x == Min(K, y + Bump(aut.acc[q]))
    ensures CountsSome(aut, w, K, q, x)
  {
    hide Visits, Steps, EndsIn;
    var r :| EndsIn(aut, w[..|w| - 1], r, p) && y == Min(K, Visits(aut, r));
    RunWithOneMore(aut, w, r, p, q);
  }

  // --- Strategies ------------------------------------------------------------------------------

  // A strategy answers a history of inputs, the current one included, with an output.
  type Strategy = seq<Bits> -> Bits

  ghost function Word(strat: Strategy, h: seq<Bits>): seq<Letter> {
    if h == [] then [] else Word(strat, h[..|h| - 1]) + [Letter(h[|h| - 1], strat(h))]
  }

  ghost predicate AllIn(h: seq<Bits>, ins: set<Bits>) {
    forall k :: 0 <= k < |h| ==> h[k] in ins
  }

  // Only outputs the invariant allows are ever produced.
  ghost predicate Legal(strat: Strategy, ins: set<Bits>, outs: set<Bits>, inv: set<Letter>) {
    forall h :: AllIn(h, ins) && h != [] ==> LegalAt(strat, outs, inv, h)
  }

  ghost predicate LegalAt(strat: Strategy, outs: set<Bits>, inv: set<Letter>, h: seq<Bits>)
    requires h != []
  {
    strat(h) in outs && Letter(h[|h| - 1], strat(h)) in inv
  }

  // No run on a word produced by the strategy enters K accepting states.
  ghost predicate Bounds(strat: Strategy, aut: Automaton, ins: set<Bits>, K: int) {
    forall h :: AllIn(h, ins) ==> WordBounded(aut, Word(strat, h), K)
  }

  ghost predicate WordBounded(aut: Automaton, w: seq<Letter>, K: int) {
    forall r :: IsRun(aut, w, r) ==> Visits(aut, r) < K
  }

  ghost predicate SomeStrategy(aut: Automaton, ins: set<Bits>, outs: set<Bits>, inv: set<Letter>, K: int) {
    exists strat: Strategy :: Legal(strat, ins, outs, inv) && Bounds(strat, aut, ins, K)
  }

  // Plain K-bounded safety of the initial vector.
  ghost predicate Realizable(aut: Automaton, ins: set<Bits>, outs: set<Bits>, inv: set<Letter>, K: int)
    requires aut.init < aut.Size()
  {
    Winning(ArenaOf(aut, ins, outs, inv), K, Box(aut.Size(), aut.Size(), K), InitVec(aut.Size(), aut.init))
  }

  // The true vector stays in the box iff no run has reached K.
  lemma BoundedInBox(aut: Automaton, w: seq<Letter>, K: int)
    requires aut.Valid() && 1 <= K
    ensures InBox(VecAfter(aut, w, K), aut.Size(), aut.Size(), K) <==> WordBounded(aut, w, K)
  {
    VecCountsRuns(aut, w, K);
    var v := VecAfter(aut, w, K);
    hide VecAfter, Visits, IsRun;
    if InBox(v, aut.Size(), aut.Size(), K) {
      forall r | IsRun(aut, w, r)
        ensures Visits(aut, r) < K
      {
        var q := r[|w|];
        RunsInside(aut, w, r, |w|);
        assert EndsIn(aut, w, r, q);
        assert CountsAtLeast(aut, w, K, q, v[q]);
      }
    }
    if WordBounded(aut, w, K) {
      forall q | 0 <= q < aut.Size()
        ensures v[q] <= K - 1
      {
        if v[q] != -1 {
          assert CountsSome(aut, w, K, q, v[q]);
        }
      }
    }
  }

  // From a strategy to a closed set: the vectors its words lead to.
  lemma StrategyIsWinning(aut: Automaton, ins: set<Bits>, outs: set<Bits>, inv: set<Letter>, K: int, strat: Strategy)
    requires aut.Valid() && 1 <= K && Legal(strat, ins, outs, inv) && Bounds(strat, aut, ins, K)
    ensures Realizable(aut, ins, outs, inv, K)
  {
    hide LetterAction, Forward, WordBounded, InBox;
    var n := aut.Size();
    var S := iset h: seq<Bits> | AllIn(h, ins) :: VecAfter(aut, Word(strat, h), K);
    forall v | v in S
      ensures v in Box(n, n, K)
    {
      var h :| AllIn(h, ins) && v == VecAfter(aut, Word(strat, h), K);
      BoundedInBox(aut, Word(strat, h), K);
    }
    forall v, i | v in S && i in ins
      ensures Answers(aut, outs, inv, K, S, v, i)
    {
      var h :| AllIn(h, ins) && v == VecAfter(aut, Word(strat, h), K);
      var h' := h + [i];
      assert h'[..|h|] == h && AllIn(h', ins);
      assert LegalAt(strat, outs, inv, h');
      var l := Letter(i, strat(h'));
      assert Word(strat, h') == Word(strat, h) + [l];
      assert (Word(strat, h) + [l])[..|Word(strat, h)|] == Word(strat, h);
      assert VecAfter(aut, Word(strat, h'), K) == Forward(v, LetterAction(aut, l), K);
    }
    ClosedByLetters(aut, ins, outs, inv, K, S);
    assert Stable(ArenaOf(aut, ins, outs, inv), K, Box(n, n, K), S);
    assert AllIn([], ins) && Word(strat, []) == [];
    assert VecAfter(aut, [], K) in S;
  }

  // From a closed set to a strategy: always answer with an output that stays inside.
  ghost function Choose(aut: Automaton, outs: set<Bits>, inv: set<Letter>, K: int, W: iset<Vec>, v: Vec,
                        i: Bits): Bits {
    if Answers(aut, outs, inv, K, W, v, i) then
      var o :| o in outs && Letter(i, o) in inv && Forward(v, LetterAction(aut, Letter(i, o)), K) in W; o
    else []
  }

  ghost function Play(aut: Automaton, outs: set<Bits>, inv: set<Letter>, K: int, W: iset<Vec>, h: seq<Bits>): Vec
    requires aut.init < aut.Size()
  {
    if h == [] then InitVec(aut.Size(), aut.init)
    else
      var v := Play(aut, outs, inv, K, W, h[..|h| - 1]);
      var i := h[|h| - 1];
      Forward(v, LetterAction(aut, Letter(i, Choose(aut, outs, inv, K, W, v, i))), K)
  }

  ghost function Follow(aut: Automaton, outs: set<Bits>, inv: set<Letter>, K: int, W: iset<Vec>): Strategy
    requires aut.init < aut.Size()
  {
    (h: seq<Bits>) =>
      if h == [] then [] else Choose(aut, outs, inv, K, W, Play(aut, outs, inv, K, W, h[..|h| - 1]), h[|h| - 1])
  }

  lemma {:induction false} FollowStaysInside(aut: Automaton, ins: set<Bits>, outs: set<Bits>, inv: set<Letter>, K: int,
                                             W: iset<Vec>, h: seq<Bits>)
    requires aut.Valid() && IsClosed(ArenaOf(aut, ins, outs, inv), K, W) && InitVec(aut.Size(), aut.init) in W
    requires AllIn(h, ins)
    ensures Play(aut, outs, inv, K, W, h) in W
    ensures VecAfter(aut, Word(Follow(aut, outs, inv, K, W), h), K) == Play(aut, outs, inv, K, W, h)
    ensures h != [] ==> LegalAt(Follow(aut, outs, inv, K, W), outs, inv, h)
  {
    if h != [] {
      var prev, i := h[..|h| - 1], h[|h| - 1];
      FollowStaysInside(aut, ins, outs, inv, K, W, prev);
      var v := Play(aut, outs, inv, K, W, prev);
      ClosedByLetters(aut, ins, outs, inv, K, W);
      hide Forward, LetterAction, IsClosed;
      assert Answers(aut, outs, inv, K, W, v, i);
      var strat := Follow(aut, outs, inv, K, W);
      var o := Choose(aut, outs, inv, K, W, v, i);
      assert strat(h) == o;
      var w := Word(strat, prev);
      assert Word(strat, h) == w + [Letter(i, o)];
      assert (w + [Letter(i, o)])[..|w|] == w;
    }
  }

  // The initial vector is safe at K iff some strategy keeps every run below K accepting states.
  lemma RealizableIffStrategy(aut: Automaton, ins: set<Bits>, outs: set<Bits>, inv: set<Letter>, K: int)
    requires aut.Valid() && 1 <= K
    ensures Realizable(aut, ins, outs, inv, K) <==> SomeStrategy(aut, ins, outs, inv, K)
  {
    if SomeStrategy(aut, ins, outs, inv, K) {
      var strat: Strategy :| Legal(strat, ins, outs, inv) && Bounds(strat, aut, ins, K);
      StrategyIsWinning(aut, ins, outs, inv, K, strat);
    }
    if Realizable(aut, ins, outs, inv, K) {
      var g, B := ArenaOf(aut, ins, outs, inv), Box(aut.Size(), aut.Size(), K);
      hide VecAfter, Play, Choose, InBox, LegalAt, WordBounded, IsClosed;
      var W :| Stable(g, K, B, W) && InitVec(aut.Size(), aut.init) in W;
      var strat := Follow(aut, outs, inv, K, W);
      forall h | AllIn(h, ins)
        ensures WordBounded(aut, Word(strat, h), K)
        ensures h != [] ==> LegalAt(strat, outs, inv, h)
      {
        FollowStaysInside(aut, ins, outs, inv, K, W, h);
        assert Play(aut, outs, inv, K, W, h) in B;
        BoundedInBox(aut, Word(strat, h), K);
      }
      assert Legal(strat, ins, outs, inv) && Bounds(strat, aut, ins, K);
    }
  }
}
