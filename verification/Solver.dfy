/**
  The fixpoint loop: the controllable predecessor for one critical input, and `solve`, which
  shrinks a downset until no input is critical and restarts with a larger K when the initial
  vector is lost.
*/
module Solver {
  import opened Vectors
  import opened Game
  import opened Actioners
  import opened Pickers

  ghost predicate Covers(F: seq<Vec>, W: iset<Vec>) {
    forall v :: v in W ==> Contains(F, v)
  }

  // Some of the first m outputs leads from v into F.
  ghost predicate SomeStays(acts: seq<Action>, m: nat, F: seq<Vec>, v: Vec, K: int)
    requires m <= |acts|
  {
    exists j :: 0 <= j < m && Contains(F, Forward(v, acts[j].vec, K))
  }

  // --- The controllable predecessor ----------------------------------------------------------

  // By the Galois connection, being below a backward image means stepping into F.
  lemma BackwardImages(F: seq<Vec>, G: seq<Vec>, a: ActionVec, n: nat, t: nat, K: int, v: Vec)
    requires AllInBox(F, n, t, K) && FitsVec(a, n) && 1 <= K && InBox(v, n, t, K)
    requires |G| == |F| && forall k :: 0 <= k < |F| ==> G[k] == Backward(F[k], a, t, K)
    ensures Contains(G, v) <==> Contains(F, Forward(v, a, K))
  {
    hide Backward, Forward, InBox;
    forall k | 0 <= k < |F|
      ensures Leq(v, G[k]) <==> Leq(Forward(v, a, K), F[k])
    {
      Galois(v, F[k], a, n, t, K);
    }
  }

  method PreImage(actioner: Actioner, F: seq<Vec>, a: ActionVec) returns (G: seq<Vec>)
    requires actioner.Valid() && FitsVec(a, actioner.n) && AllInBox(F, actioner.n, actioner.threshold, actioner.K)
    modifies actioner.applyOut
    ensures actioner.Valid()
    ensures AllInBox(G, actioner.n, actioner.threshold, actioner.K) && |G| == |F|
    ensures forall v :: InBox(v, actioner.n, actioner.threshold, actioner.K) ==>
                          (Contains(G, v) <==> Contains(F, Forward(v, a, actioner.K)))
  {
    G := [];
    for k := 0 to |F|
      invariant actioner.Valid() && |G| == k
      invariant AllInBox(G, actioner.n, actioner.threshold, actioner.K)
      invariant forall x :: 0 <= x < k ==> G[x] == Backward(F[x], a, actioner.threshold, actioner.K)
    {
      hide Backward, FitsVec;
      var r := actioner.Apply(F[k], a, ToPredecessors);
      BackwardInBox(F[k], a, actioner.n, actioner.threshold, actioner.K);
      G := G + [r];
    }
    hide Contains, Forward, Backward;
    forall v | InBox(v, actioner.n, actioner.threshold, actioner.K)
      ensures Contains(G, v) <==> Contains(F, Forward(v, a, actioner.K))
    {
      BackwardImages(F, G, a, actioner.n, actioner.threshold, actioner.K, v);
    }
  }

  // F becomes exactly its vectors from which input i has an answer inside F.  Without any output
  // the predecessor starts from the vector with no active state, which is all that remains.
  ghost predicate IsPredecessor(F': seq<Vec>, F: seq<Vec>, acts: seq<Action>, n: nat, t: nat, K: int) {
    forall v :: InBox(v, n, t, K) ==>
      (Contains(F', v) <==>
       Contains(F, v) && (if acts == [] then v == Fill(n, -1) else SomeStays(acts, |acts|, F, v, K)))
  }

  method CPreInplace(actioner: Actioner, F: seq<Vec>, i: nat) returns (F': seq<Vec>)
    requires actioner.Valid() && i < |actioner.actions| && F != []
    requires AllInBox(F, actioner.n, actioner.threshold, actioner.K)
    modifies actioner.applyOut
    ensures actioner.Valid()
    ensures F' != [] && AllInBox(F', actioner.n, actioner.threshold, actioner.K)
    ensures IsPredecessor(F', F, actioner.actions[i].actions, actioner.n, actioner.threshold, actioner.K)
  {
    hide Contains, Forward, FitsVec;
    var n, t := actioner.n, actioner.threshold;
    var acts := actioner.actions[i].actions;
    var F1i := [Fill(n, -1)];
    BottomOnly(n, t, actioner.K);
    var firstTurn := true;
    for j := 0 to |acts|
      invariant actioner.Valid()
      invariant F1i != [] && AllInBox(F1i, n, t, actioner.K)
      invariant firstTurn <==> j == 0
      invariant j == 0 ==> F1i == [Fill(n, -1)]
      invariant 0 < j ==> ReachesWithin(F1i, F, acts, j, n, t, actioner.K)
    {
      var F1io := PreImage(actioner, F, acts[j].vec);
      if firstTurn {
        F1i := F1io;
        firstTurn := false;
      } else {
        UnionReaches(F1i, F1io, F, acts, j, n, t, actioner.K);
        F1i := F1i + F1io;
      }
    }
    MeetsInBox(F, F1i, n, t, actioner.K);
    F' := Meets(F, F1i);
    MeetsIsPredecessor(F, F1i, acts, n, t, actioner.K);
  }

  lemma BottomOnly(n: nat, t: nat, K: int)
    requires 1 <= K
    ensures AllInBox([Fill(n, -1)], n, t, K)
    ensures forall v :: InBox(v, n, t, K) ==> (Contains([Fill(n, -1)], v) <==> v == Fill(n, -1))
  {
    forall v | InBox(v, n, t, K)
      ensures Contains([Fill(n, -1)], v) <==> v == Fill(n, -1)
    {
      assert [Fill(n, -1)][0] == Fill(n, -1);
      if Contains([Fill(n, -1)], v) {
        assert Leq(v, Fill(n, -1));
      } else {
        assert !Leq(v, [Fill(n, -1)][0]);
      }
    }
  }

  // G generates the vectors that some of the first m outputs leads into F.
  ghost predicate ReachesWithin(G: seq<Vec>, F: seq<Vec>, acts: seq<Action>, m: nat, n: nat, t: nat, K: int)
    requires m <= |acts|
  {
    forall v :: InBox(v, n, t, K) ==> (Contains(G, v) <==> SomeStays(acts, m, F, v, K))
  }

  lemma UnionReaches(G: seq<Vec>, H: seq<Vec>, F: seq<Vec>, acts: seq<Action>, m: nat, n: nat, t: nat, K: int)
    requires m < |acts| && ReachesWithin(G, F, acts, m, n, t, K)
    requires forall v :: InBox(v, n, t, K) ==> (Contains(H, v) <==> Contains(F, Forward(v, acts[m].vec, K)))
    ensures ReachesWithin(G + H, F, acts, m + 1, n, t, K)
  {
    hide Contains, Forward, InBox;
    forall v | InBox(v, n, t, K)
      ensures Contains(G + H, v) <==> SomeStays(acts, m + 1, F, v, K)
    {
      ContainsAppend(G, H, v);
    }
  }

  lemma MeetsIsPredecessor(F: seq<Vec>, G: seq<Vec>, acts: seq<Action>, n: nat, t: nat, K: int)
    requires AllInBox(F, n, t, K) && AllInBox(G, n, t, K) && 1 <= K
    requires if acts == [] then G == [Fill(n, -1)] else ReachesWithin(G, F, acts, |acts|, n, t, K)
    ensures IsPredecessor(Meets(F, G), F, acts, n, t, K)
  {
    hide Contains, Forward;
    BottomOnly(n, t, K);
    forall v | InBox(v, n, t, K)
      ensures Contains(Meets(F, G), v) <==> Contains(F, v) && Contains(G, v)
    {
      MeetsIsIntersection(F, G, n, v);
    }
  }

  // The predecessor removes exactly the vectors that are one-step-losing for this input.
  lemma PredecessorExact(F': seq<Vec>, F: seq<Vec>, acts: seq<Action>, n: nat, t: nat, K: int, v: Vec)
    requires acts != [] && IsPredecessor(F', F, acts, n, t, K) && InBox(v, n, t, K)
    ensures Contains(F', v) <==> Contains(F, v) && !Loses(VecsOf(acts), F, v, K)
  {
    hide Contains, Forward, InBox;
    if SomeStays(acts, |acts|, F, v, K) {
      var j :| 0 <= j < |acts| && Contains(F, Forward(v, acts[j].vec, K));
      assert acts[j].vec in VecsOf(acts);
    }
    if !Loses(VecsOf(acts), F, v, K) {
      var a :| a in VecsOf(acts) && Contains(F, Forward(v, a, K));
      var j :| 0 <= j < |acts| && a == acts[j].vec;
    }
  }

  // No winning vector is ever removed.
  lemma PredecessorKeepsWinners(g: Arena, R: iset<Vec>, F': seq<Vec>, F: seq<Vec>, acts: seq<Action>, n: nat, t: nat,
                                K: int)
    requires VecsOf(acts) in g && R <= Box(n, t, K)
    requires Covers(F, Region(g, K, R)) && IsPredecessor(F', F, acts, n, t, K)
    ensures Covers(F', Region(g, K, R))
  {
    hide Contains, Forward, InBox, Winning, VecsOf;
    RegionIsGreatest(g, K, R);
    var W := Region(g, K, R);
    forall v | v in W
      ensures Contains(F', v)
    {
      assert CanStay(VecsOf(acts), K, W, v);
      assert v in Box(n, t, K);
      NonEmptyVecs(acts, K, W, v);
      PredecessorExact(F', F, acts, n, t, K, v);
    }
  }

  lemma NonEmptyVecs(acts: seq<Action>, K: int, W: iset<Vec>, v: Vec)
    requires CanStay(VecsOf(acts), K, W, v)
    ensures acts != []
  {
  }

  // --- Raising K ---------------------------------------------------------------------------

  // Counter components of every generator grow by Kinc, Boolean ones become 0.
  ghost predicate AllRaised(F': seq<Vec>, F: seq<Vec>, t: nat, Kinc: int) {
    |F'| == |F| && forall k :: 0 <= k < |F| ==> F'[k] == Raise(F[k], t, Kinc)
  }

  method RaiseAll(F: seq<Vec>, n: nat, t: nat, K: int, Kinc: int) returns (F': seq<Vec>)
    requires AllInBox(F, n, t, K) && 1 <= K && 1 <= Kinc
    ensures AllRaised(F', F, t, Kinc)
    ensures |F'| == |F| && forall k, i :: 0 <= k < |F| && 0 <= i < n ==> F'[k][i] == if i < t then F[k][i] + Kinc else 0
    ensures AllInBox(F', n, t, K + Kinc)
  {
    F' := [];
    for k := 0 to |F|
      invariant |F'| == k && AllInBox(F', n, t, K + Kinc)
      invariant forall x :: 0 <= x < k ==> F'[x] == Raise(F[x], t, Kinc)
    {
      F' := F' + [Raise(F[k], t, Kinc)];
    }
  }

  lemma RaisedContainsInit(F: seq<Vec>, F': seq<Vec>, n: nat, t: nat, K: int, Kinc: int, init: nat)
    requires F != [] && AllInBox(F, n, t, K) && init < n && 1 <= Kinc
    requires AllRaised(F', F, t, Kinc)
    ensures Contains(F', InitVec(n, init))
  {
    assert Leq(InitVec(n, init), F'[0]);
  }

  // The warm start misses nothing that is safe at the larger bound.
  lemma RaiseIsComplete(g: Arena, F: seq<Vec>, F': seq<Vec>, n: nat, t: nat, roots: set<nat>, K: int, Kinc: int)
    requires ProperArena(g, n, t, roots) && 1 <= K && 1 <= Kinc && AllInBox(F, n, t, K)
    requires AllRaised(F', F, t, Kinc)
    requires Covers(F, Region(g, K, Rooted(n, t, K, roots)))
    ensures Covers(F', Region(g, K + Kinc, Rooted(n, t, K + Kinc, roots)))
  {
    hide Contains, Raise, InBox, Winning, ProperArena;
    forall v | v in Region(g, K + Kinc, Rooted(n, t, K + Kinc, roots))
      ensures Contains(F', v)
    {
      ShiftOfSafeIsSafe(g, n, t, roots, K, Kinc, v);
      WinningIsInside(g, K + Kinc, Rooted(n, t, K + Kinc, roots), v);
      RaiseAbove(F, F', n, t, K, Kinc, v);
    }
  }

  lemma RaiseAbove(F: seq<Vec>, F': seq<Vec>, n: nat, t: nat, K: int, Kinc: int, v: Vec)
    requires AllInBox(F, n, t, K) && InBox(v, n, t, K + Kinc) && 1 <= K
    requires AllRaised(F', F, t, Kinc)
    requires Contains(F, Shift(v, t, Kinc))
    ensures Contains(F', v)
  {
    hide Raise, Shift, InBox;
    var k :| 0 <= k < |F| && Leq(Shift(v, t, Kinc), F[k]);
    ShiftRaise(v, F[k], n, t, K, Kinc);
    assert Leq(v, F'[k]);
  }

  lemma WinningIsInside(g: Arena, K: int, R: iset<Vec>, v: Vec)
    requires Winning(g, K, R, v)
    ensures v in R
  {
  }

  // --- The loop -------------------------------------------------------------------------------

  // The value of K after j increments.
  function Rung(Kfrom: int, Kinc: int, j: nat): int {
    if j == 0 then Kfrom else Rung(Kfrom, Kinc, j - 1) + Kinc
  }

  lemma {:induction false} RungIs(Kfrom: int, Kinc: int, j: nat)
    ensures Rung(Kfrom, Kinc, j) == Kfrom + j * Kinc
  {
    if j > 0 {
      RungIs(Kfrom, Kinc, j - 1);
      assert (j - 1) * Kinc + Kinc == j * Kinc;
    }
  }

  // K was raised only while it was below Kto.
  ghost predicate RaisedBelow(Kfrom: int, Kto: int, Kinc: int, K: int, steps: nat) {
    K == Rung(Kfrom, Kinc, steps) && (0 < steps ==> Rung(Kfrom, Kinc, steps - 1) < Kto)
  }

  ghost predicate InitWins(g: Arena, n: nat, t: nat, roots: set<nat>, K: int, init: nat)
    requires init < n
  {
    Winning(g, K, Rooted(n, t, K, roots), InitVec(n, init))
  }

  // What `solve` promises for every start F0.
  ghost predicate SolvedFrom(g: Arena, F0: seq<Vec>, n: nat, t: nat, init: nat, Kfrom: int, r: Option<seq<Vec>>, K: int,
                             steps: nat)
    requires init < n
  {
    && (r.Some? ==> AllInBox(r.value, n, t, K) && Contains(r.value, InitVec(n, init)) &&
                    IsClosedDown(g, r.value, n, t, K))
    && (r.Some? && steps == 0 ==> Down(r.value, n, t, K) == Region(g, K, Down(F0, n, t, K)))
    && (r.None? || 0 < steps ==> InitVec(n, init) !in Region(g, Kfrom, Down(F0, n, t, Kfrom)))
  }

  // What it promises besides when F0 contains the whole safe region at the first K: every K passed
  // over is lost, and on vectors that never counted at a root the result is the safe region.
  ghost predicate SolvedCompletely(g: Arena, n: nat, t: nat, roots: set<nat>, init: nat, Kfrom: int, Kto: int,
                                   Kinc: int, r: Option<seq<Vec>>, K: int, steps: nat)
    requires init < n
  {
    && (forall j :: 0 <= j < steps ==> !InitWins(g, n, t, roots, Rung(Kfrom, Kinc, j), init))
    && (r.Some? ==> Down(r.value, n, t, K) * Rooted(n, t, K, roots) == Region(g, K, Rooted(n, t, K, roots)))
    && (r.None? ==> Kto <= K && !InitWins(g, n, t, roots, K, init))
  }

  // --- The invariant of the loop, as a predicate on its state -----------------------------------

  // Everything the loop never changes.
  datatype Setting = Setting(g: Arena, n: nat, t: nat, roots: set<nat>, init: nat, F0: seq<Vec>, Kfrom: int,
                             Kinc: int) {
    ghost predicate Valid() {
      && init < n && 1 <= Kfrom && 0 <= Kinc
      && ProperArena(g, n, t, roots)
      && AllInBox(F0, n, t, Kfrom) && Contains(F0, Init())
    }

    ghost function Init(): Vec
      requires init < n
    {
      InitVec(n, init)
    }

    // The largest closed subset of a downset.
    ghost function Inside(K: int, S: seq<Vec>): iset<Vec> {
      Region(g, K, Down(S, n, t, K))
    }

    // The safe region at K.
    ghost function Safe(K: int): iset<Vec> {
      Region(g, K, Rooted(n, t, K, roots))
    }

    ghost predicate StartsComplete() {
      Covers(F0, Safe(Kfrom))
    }
  }

  ghost predicate Within(F: seq<Vec>, F0: seq<Vec>, n: nat, t: nat, K: int) {
    forall v :: InBox(v, n, t, K) && Contains(F, v) ==> Contains(F0, v)
  }

  ghost predicate LostBefore(s: Setting, steps: nat)
    requires s.init < s.n
  {
    forall j :: 0 <= j < steps ==> !InitWins(s.g, s.n, s.t, s.roots, Rung(s.Kfrom, s.Kinc, j), s.init)
  }

  // The starts of the rounds: the first is F0, and each later one is the raise of a downset in which the
  // round before it lost the initial vector, having kept every winner.
  ghost predicate Restarts(s: Setting, starts: seq<seq<Vec>>)
    requires s.init < s.n
  {
    && starts != [] && starts[0] == s.F0
    && forall j :: 0 <= j < |starts| - 1 ==> RaisedFrom(s, Rung(s.Kfrom, s.Kinc, j), starts[j], starts[j + 1])
  }

  ghost predicate RaisedFrom(s: Setting, K: int, S: seq<Vec>, S': seq<Vec>)
    requires s.init < s.n
  {
    exists lost :: AllRaised(S', lost, s.t, s.Kinc) && Narrows(s, K, S, lost) && !Contains(lost, s.Init())
  }

  // F lies within S and has all of its winners.
  ghost predicate Narrows(s: Setting, K: int, S: seq<Vec>, F: seq<Vec>) {
    Covers(F, s.Inside(K, S)) && Within(F, S, s.n, s.t, K)
  }

  // The result in terms of the last start.
  ghost predicate SolvedLast(s: Setting, starts: seq<seq<Vec>>, r: Option<seq<Vec>>, K: int)
    requires s.init < s.n
  {
    && Restarts(s, starts)
    && (r.Some? ==> Down(r.value, s.n, s.t, K) == s.Inside(K, starts[|starts| - 1]))
    && (r.None? ==> s.Init() !in s.Inside(K, starts[|starts| - 1]))
  }

  ghost predicate LoopInv(s: Setting, F: seq<Vec>, K: int, starts: seq<seq<Vec>>) {
    && s.Valid() && 1 <= K && starts != [] && K == Rung(s.Kfrom, s.Kinc, |starts| - 1)
    && F != [] && AllInBox(F, s.n, s.t, K)
    && Restarts(s, starts) && Narrows(s, K, starts[|starts| - 1], F)
    && (s.StartsComplete() ==> Covers(F, s.Safe(K)) && LostBefore(s, |starts| - 1))
  }

  lemma NarrowsItself(s: Setting, K: int, F: seq<Vec>)
    ensures Narrows(s, K, F, F)
  {
    hide InBox, Contains, Leq;
    forall v | v in s.Inside(K, F)
      ensures Contains(F, v)
    {
      WinningIsInside(s.g, K, Down(F, s.n, s.t, K), v);
    }
  }

  lemma LoopStarts(s: Setting)
    requires s.Valid()
    ensures LoopInv(s, s.F0, s.Kfrom, [s.F0])
  {
    hide InBox, Contains, Leq, Narrows;
    NarrowsItself(s, s.Kfrom, s.F0);
    assert s.F0 != [] by {
      EmptyContainsNothing(s.F0, s.Init());
    }
  }

  lemma EmptyContainsNothing(F: seq<Vec>, v: Vec)
    ensures Contains(F, v) ==> F != []
  {
  }

  lemma LoopShrinks(s: Setting, F: seq<Vec>, F': seq<Vec>, acts: seq<Action>, K: int, starts: seq<seq<Vec>>)
    requires LoopInv(s, F, K, starts) && VecsOf(acts) in s.g
    requires F' != [] && AllInBox(F', s.n, s.t, K) && IsPredecessor(F', F, acts, s.n, s.t, K)
    ensures LoopInv(s, F', K, starts)
  {
    hide Contains, InBox, Leq, SomeStays, Winning, VecsOf, ProperArena, Restarts;
    PredecessorKeepsWinners(s.g, Down(starts[|starts| - 1], s.n, s.t, K), F', F, acts, s.n, s.t, K);
    if s.StartsComplete() {
      PredecessorKeepsWinners(s.g, Rooted(s.n, s.t, K, s.roots), F', F, acts, s.n, s.t, K);
    }
  }

  // Losing the initial vector proves that it is unsafe at this K.
  lemma InitLost(s: Setting, F: seq<Vec>, K: int, starts: seq<seq<Vec>>)
    requires LoopInv(s, F, K, starts) && !Contains(F, s.Init())
    ensures s.Init() !in s.Inside(K, starts[|starts| - 1])
    ensures s.StartsComplete() ==> LostBefore(s, |starts|)
  {
    hide Contains, InBox, Leq, Winning, ProperArena, Restarts;
  }

  lemma FirstLost(s: Setting, starts: seq<seq<Vec>>)
    requires s.init < s.n && Restarts(s, starts) && 1 < |starts|
    ensures s.Init() !in s.Inside(s.Kfrom, s.F0)
  {
    hide Contains, Region, AllRaised;
    assert RaisedFrom(s, Rung(s.Kfrom, s.Kinc, 0), starts[0], starts[0 + 1]);
  }

  lemma LoopRaises(s: Setting, F: seq<Vec>, F': seq<Vec>, K: int, starts: seq<seq<Vec>>)
    requires LoopInv(s, F, K, starts) && !Contains(F, s.Init()) && 1 <= s.Kinc
    requires AllRaised(F', F, s.t, s.Kinc)
    requires AllInBox(F', s.n, s.t, K + s.Kinc)
    ensures LoopInv(s, F', K + s.Kinc, starts + [F'])
  {
    hide Contains, AllInBox, Raise, Region, InitWins, Covers, ProperArena, Within, Narrows;
    InitLost(s, F, K, starts);
    NarrowsItself(s, K + s.Kinc, F');
    var starts' := starts + [F'];
    assert RaisedFrom(s, K, starts[|starts| - 1], F');
    forall j | 0 <= j < |starts'| - 1
      ensures RaisedFrom(s, Rung(s.Kfrom, s.Kinc, j), starts'[j], starts'[j + 1])
    {
      if j < |starts| - 1 {
        assert RaisedFrom(s, Rung(s.Kfrom, s.Kinc, j), starts[j], starts[j + 1]);
      }
    }
    if s.StartsComplete() {
      RaiseIsComplete(s.g, F, F', s.n, s.t, s.roots, K, s.Kinc);
    }
  }

  lemma LoopFails(s: Setting, F: seq<Vec>, K: int, starts: seq<seq<Vec>>, Kto: int)
    requires LoopInv(s, F, K, starts) && !Contains(F, s.Init()) && Kto <= K
    ensures SolvedLast(s, starts, None, K)
    ensures SolvedFrom(s.g, s.F0, s.n, s.t, s.init, s.Kfrom, None, K, |starts| - 1)
    ensures s.StartsComplete() ==>
              SolvedCompletely(s.g, s.n, s.t, s.roots, s.init, s.Kfrom, Kto, s.Kinc, None, K, |starts| - 1)
  {
    InitLost(s, F, K, starts);
    if 1 < |starts| {
      FirstLost(s, starts);
    }
    hide Contains, InBox, Leq, Winning, ProperArena;
  }

  // A closed downset that misses no safe vector is, on rooted vectors, the safe region.
  lemma RegionExactly(g: Arena, F: seq<Vec>, n: nat, t: nat, roots: set<nat>, K: int)
    requires ProperArena(g, n, t, roots) && AllInBox(F, n, t, K) && 1 <= K && IsClosedDown(g, F, n, t, K)
    requires Covers(F, Region(g, K, Rooted(n, t, K, roots)))
    ensures Down(F, n, t, K) * Rooted(n, t, K, roots) == Region(g, K, Rooted(n, t, K, roots))
  {
    var D, R := Down(F, n, t, K), Rooted(n, t, K, roots);
    var S := D * R;
    ClosedDownIsStable(g, F, n, t, K);
    RegionIsGreatest(g, K, R);
    hide Contains, Leq, Winning, AllInBox;
    forall v, A | v in S && A in g
      ensures CanStay(A, K, S, v)
    {
      assert CanStay(A, K, D, v);
      var a :| a in A && Forward(v, a, K) in D;
      assert InBox(Forward(v, a, K), n, n, K);
      ForwardStaysRooted(v, a, n, t, roots, K);
    }
    assert Stable(g, K, R, S);
  }

  // Without roots every boxed vector is rooted, so the result is the safe region outright.
  lemma RegionOutright(g: Arena, F: seq<Vec>, n: nat, t: nat, K: int)
    requires Down(F, n, t, K) * Rooted(n, t, K, {}) == Region(g, K, Rooted(n, t, K, {}))
    ensures Down(F, n, t, K) == Region(g, K, Rooted(n, t, K, {}))
  {
    hide Contains, InBox, Winning;
    assert forall v :: v in Down(F, n, t, K) ==> v in Rooted(n, t, K, {});
  }

  // A downset without critical input is closed, hence it is the region sought.
  lemma LoopEnds(s: Setting, F: seq<Vec>, K: int, starts: seq<seq<Vec>>, Kto: int)
    requires LoopInv(s, F, K, starts) && Contains(F, s.Init()) && NoneLoses(s.g, F, K)
    ensures SolvedLast(s, starts, Some(F), K)
    ensures SolvedFrom(s.g, s.F0, s.n, s.t, s.init, s.Kfrom, Some(F), K, |starts| - 1)
    ensures s.StartsComplete() ==>
              SolvedCompletely(s.g, s.n, s.t, s.roots, s.init, s.Kfrom, Kto, s.Kinc, Some(F), K, |starts| - 1)
  {
    GeneratorsSuffice(s.g, F, s.n, s.t, K);
    hide Contains, InBox, Leq, Winning, ProperArena, NoneLoses, IsClosedDown, Restarts, AllInBox;
    if s.StartsComplete() {
      RegionExactly(s.g, F, s.n, s.t, s.roots, K);
    }
    ClosedWithin(s, F, K, starts[|starts| - 1]);
    if 1 < |starts| {
      FirstLost(s, starts);
    }
    assert starts[0] == s.F0 by {
      StartsAtF0(s, starts);
    }
  }

  lemma StartsAtF0(s: Setting, starts: seq<seq<Vec>>)
    requires s.init < s.n && Restarts(s, starts)
    ensures starts[0] == s.F0
  {
  }

  lemma ClosedWithin(s: Setting, F: seq<Vec>, K: int, S: seq<Vec>)
    requires 1 <= K && AllInBox(F, s.n, s.t, K) && IsClosedDown(s.g, F, s.n, s.t, K) && Narrows(s, K, S, F)
    ensures Down(F, s.n, s.t, K) == s.Inside(K, S)
  {
    var D, R := Down(F, s.n, s.t, K), Down(S, s.n, s.t, K);
    ClosedDownIsStable(s.g, F, s.n, s.t, K);
    hide Contains, InBox, Leq, Winning, IsClosedDown, AllInBox, IsClosed;
    assert D <= R;
    assert Stable(s.g, K, R, D);
    RegionIsGreatest(s.g, K, R);
  }

  lemma ClosedDownIsStable(g: Arena, F: seq<Vec>, n: nat, t: nat, K: int)
    requires AllInBox(F, n, t, K) && 1 <= K && IsClosedDown(g, F, n, t, K)
    ensures Stable(g, K, Box(n, t, K), Down(F, n, t, K))
  {
    hide Contains, Leq;
    var D := Down(F, n, t, K);
    forall v, A | v in D && A in g
      ensures CanStay(A, K, D, v)
    {
      assert Answered(g, F, v, K);
      var a :| a in A && Contains(F, Forward(v, a, K));
      ForwardFloor(v, a, K);
      ContainedInBox(F, Forward(v, a, K), n, t, K);
    }
  }

  // At a fixed K every further round removes a vector of a finite space.
  lemma VolumeShrinks(F: seq<Vec>, F': seq<Vec>, L: seq<InputActions>, i: nat, n: nat, t: nat, init: nat, K: int)
    requires 1 <= K && AllInBox(F, n, t, K) && AllInBox(F', n, t, K) && init < n
    requires Critical(L, i, F, K)
    requires IsPredecessor(F', F, L[i].actions, n, t, K) && Contains(F', InitVec(n, init))
    ensures Volume(F', n, K - 1) < Volume(F, n, K - 1)
  {
    hide Volume, Loses, VecsOf, IsPredecessor, Contains, AllInBox, InitVec;
    var acts := L[i].actions;
    var k :| 0 <= k < |F| && Loses(VecsOf(acts), F, F[k], K);
    InitNeedsOutputs(F, F', acts, n, t, init, K);
    GeneratorRemoved(F, F', acts, n, t, K, k);
    PredecessorWithin(F', F, acts, n, t, K);
    VolumeSubset(F', F, n, t, K);
  }

  // Without any output the predecessor loses the initial vector.
  lemma InitNeedsOutputs(F: seq<Vec>, F': seq<Vec>, acts: seq<Action>, n: nat, t: nat, init: nat, K: int)
    requires AllInBox(F', n, t, K) && init < n && IsPredecessor(F', F, acts, n, t, K) && Contains(F', InitVec(n, init))
    ensures acts != []
  {
    hide Leq, SomeStays;
    ContainedInBox(F', InitVec(n, init), n, t, K);
    assert InitVec(n, init)[init] == 0 != Fill(n, -1)[init];
  }

  lemma PredecessorWithin(F': seq<Vec>, F: seq<Vec>, acts: seq<Action>, n: nat, t: nat, K: int)
    requires IsPredecessor(F', F, acts, n, t, K)
    ensures Within(F', F, n, t, K)
  {
    hide Contains, InBox, SomeStays;
  }

  lemma GeneratorRemoved(F: seq<Vec>, F': seq<Vec>, acts: seq<Action>, n: nat, t: nat, K: int, k: nat)
    requires 1 <= K && AllInBox(F, n, t, K) && acts != []
    requires IsPredecessor(F', F, acts, n, t, K)
    requires k < |F| && Loses(VecsOf(acts), F, F[k], K)
    ensures F[k] in Volume(F, n, K - 1) && F[k] !in Volume(F', n, K - 1)
  {
    hide Contains, Leq, Loses;
    PredecessorExact(F', F, acts, n, t, K, F[k]);
    SpaceHas(n, K - 1, F[k]);
    SelfContained(F, k);
  }

  lemma VolumeSubset(F': seq<Vec>, F: seq<Vec>, n: nat, t: nat, K: int)
    requires 1 <= K && AllInBox(F', n, t, K) && Within(F', F, n, t, K)
    ensures Volume(F', n, K - 1) <= Volume(F, n, K - 1)
  {
    hide Contains;
    var V, V' := Volume(F, n, K - 1), Volume(F', n, K - 1);
    forall v: Vec | v in V'
      ensures v in V
    {
      SpaceOnly(n, K - 1, v);
      ContainedInBox(F', v, n, t, K);
    }
  }

  lemma SelfContained(F: seq<Vec>, k: nat)
    requires k < |F|
    ensures Contains(F, F[k])
  {
    assert Leq(F[k], F[k]);
  }

  lemma {:induction false} SpaceOnly(n: nat, hi: int, v: Vec)
    requires v in Space(n, hi)
    ensures |v| == n && forall i :: 0 <= i < n ==> -1 <= v[i] <= hi
  {
    if n > 0 {
      var u, x :| u in Space(n - 1, hi) && -1 <= x <= hi && v == u + [x];
      SpaceOnly(n - 1, hi, u);
    }
  }

  lemma SettingShape(s: Setting)
    requires s.Valid()
    ensures s.init < s.n && Contains(s.F0, s.Init())
  {
  }

  lemma LoopFacts(s: Setting, F: seq<Vec>, K: int, starts: seq<seq<Vec>>)
    requires LoopInv(s, F, K, starts)
    ensures s.Valid() && s.init < s.n && 1 <= K && 0 <= s.Kinc
    ensures starts != [] && K == Rung(s.Kfrom, s.Kinc, |starts| - 1)
    ensures F != [] && AllInBox(F, s.n, s.t, K)
  {
  }

  // One critical input is looked for and its predecessor taken; `closed` when there is none.
  method Round(actioner: Actioner, picker: CriticalPqPicker, F: seq<Vec>, ghost s: Setting, ghost starts: seq<seq<Vec>>)
    returns (closed: bool, F': seq<Vec>)
    requires picker.Valid() && picker.actioner == actioner && s.g == ArenaOfActions(actioner.actions)
    requires s.n == actioner.n && s.t == actioner.threshold
    requires LoopInv(s, F, actioner.K, starts)
    modifies picker, actioner`actions, actioner.applyOut
    ensures picker.Valid() && s.g == ArenaOfActions(actioner.actions)
    ensures closed <==> NoneLoses(s.g, F, actioner.K)
    ensures !closed ==> LoopInv(s, F', actioner.K, starts)
    ensures !closed ==>
              exists i: nat ::
                && i < |actioner.actions| && Critical(actioner.actions, i, F, actioner.K)
                && IsPredecessor(F', F, actioner.actions[i].actions, s.n, s.t, actioner.K)
    ensures !closed ==> Contains(F', s.Init()) ==> Volume(F', s.n, actioner.K - 1) < Volume(F, s.n, actioner.K - 1)
  {
    hide AllInBox, Contains, NoneLoses, VecsOf, IsPredecessor, Volume, Permuted, ArenaOfActions, InitVec, LoopInv;
    hide FitsAll, RefersToAll, Sorted, Setting.Valid, Critical;
    LoopFacts(s, F, actioner.K, starts);
    ghost var before := actioner.actions;
    var input, trace := picker.Pick(F);
    PermutedArena(before, actioner.actions);
    if input.None? {
      return true, F;
    }
    var i := input.value;
    ArenaHas(actioner.actions, i);
    F' := CPreInplace(actioner, F, i);
    LoopShrinks(s, F, F', actioner.actions[i].actions, actioner.K, starts);
    closed := false;
    if Contains(F', s.Init()) {
      VolumeShrinks(F, F', actioner.actions, i, s.n, s.t, s.init, actioner.K);
    }
  }

  // The initial vector is lost: K is raised and the search goes on from the raised downset.
  method Restart(actioner: Actioner, F: seq<Vec>, Kinc: int, ghost s: Setting, ghost starts: seq<seq<Vec>>)
    returns (F': seq<Vec>)
    requires actioner.Valid() && 1 <= Kinc && actioner.K + Kinc <= 127
    requires s.n == actioner.n && s.t == actioner.threshold && s.Kinc == Kinc
    requires LoopInv(s, F, actioner.K, starts) && !Contains(F, s.Init())
    modifies actioner`K, actioner.backwardReset
    ensures actioner.Valid() && actioner.K == old(actioner.K) + Kinc && actioner.actions == old(actioner.actions)
    ensures LoopInv(s, F', actioner.K, starts + [F']) && Contains(F', s.Init())
  {
    hide Contains, AllInBox, LoopInv, Setting.Valid, FitsAll, AllRaised, InitVec;
    LoopFacts(s, F, actioner.K, starts);
    var K := actioner.K;
    actioner.SetK(K + Kinc);
    F' := RaiseAll(F, actioner.n, actioner.threshold, K, Kinc);
    RaisedContainsInit(F, F', s.n, s.t, K, Kinc, s.init);
    LoopRaises(s, F, F', K, starts);
  }

  method SolveLoop(actioner: Actioner, picker: CriticalPqPicker, F0: seq<Vec>, init: nat, Kto: int, Kinc: int,
                   ghost g: Arena, ghost roots: set<nat>)
    returns (r: Option<seq<Vec>>, K: int, steps: nat, ghost starts: seq<seq<Vec>>)
    requires picker.Valid() && picker.actioner == actioner && g == ArenaOfActions(actioner.actions)
    requires Setting(g, actioner.n, actioner.threshold, roots, init, F0, actioner.K, Kinc).Valid()
    requires actioner.K < Kto ==> 1 <= Kinc && Kto + Kinc <= 128
    modifies picker, actioner, actioner.applyOut, actioner.backwardReset
    ensures RaisedBelow(old(actioner.K), Kto, Kinc, K, steps) && (Kto <= old(actioner.K) ==> steps == 0)
    ensures r.None? ==> Kto <= K
    ensures |starts| == steps + 1
    ensures SolvedLast(Setting(g, actioner.n, actioner.threshold, roots, init, F0, old(actioner.K), Kinc), starts, r, K)
    ensures SolvedFrom(g, F0, actioner.n, actioner.threshold, init, old(actioner.K), r, K, steps)
    ensures Covers(F0, Region(g, old(actioner.K), Rooted(actioner.n, actioner.threshold, old(actioner.K), roots))) ==>
              SolvedCompletely(g, actioner.n, actioner.threshold, roots, init, old(actioner.K), Kto, Kinc, r, K, steps)
  {
    hide Contains, Covers, Region, NoneLoses, SolvedFrom, SolvedCompletely, Volume, ArenaOfActions, InitVec, LoopInv;
    hide FitsAll, RefersToAll, Sorted, Setting.Valid, SolvedLast;
    ghost var s := Setting(g, actioner.n, actioner.threshold, roots, init, F0, actioner.K, Kinc);
    var F := F0;
    K, steps, starts := actioner.K, 0, [F0];
    LoopStarts(s);
    SettingShape(s);
    while true
      invariant picker.Valid() && actioner.K == K
      invariant g == ArenaOfActions(actioner.actions)
      invariant LoopInv(s, F, K, starts) && Contains(F, s.Init()) && |starts| == steps + 1
      invariant RaisedBelow(s.Kfrom, Kto, Kinc, K, steps)
      invariant Kto <= s.Kfrom ==> steps == 0
      decreases Max(0, Kto - K), Volume(F, s.n, K - 1)
    {
      LoopFacts(s, F, K, starts);
      var closed, F' := Round(actioner, picker, F, s, starts);
      if closed {
        LoopEnds(s, F, K, starts, Kto);
        return Some(F), K, steps, starts;
      }
      if !Contains(F', InitVec(actioner.n, init)) {
        if Kto <= K {
          LoopFails(s, F', K, starts, Kto);
          return None, K, steps, starts;
        }
        F := Restart(actioner, F', Kinc, s, starts);
        K, steps, starts := K + Kinc, steps + 1, starts + [F];
        continue;
      }
      F := F';
    }
  }
}
