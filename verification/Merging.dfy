/**
  What merging two automata under a new initial state means for the game: it is won at K exactly
  by the strategies that win both parts, and pairing their safe vectors misses no safe vector.
*/
module Merging {
  import opened Vectors
  import opened Game
  import opened Automata
  import opened Counting
  import opened Runs

  // m consists of a copy of a1 (state q called e1[q]), a copy of a2 and a fresh initial state with
  // the transitions of both initial states.
  ghost predicate IsMerge(a1: Automaton, a2: Automaton, m: Automaton, e1: seq<nat>, e2: seq<nat>) {
    && a1.Valid() && a2.Valid() && m.Valid()
    && |e1| == a1.Size() && |e2| == a2.Size() && m.Size() == |e1| + 1 + |e2|
    && Distinct(e1 + [m.init] + e2)
    && (forall q :: 0 <= q < |e1| ==> e1[q] < m.Size()) && (forall q :: 0 <= q < |e2| ==> e2[q] < m.Size())
    && (forall q :: 0 <= q < |e1| ==> m.acc[e1[q]] == a1.acc[q])
    && (forall q :: 0 <= q < |e2| ==> m.acc[e2[q]] == a2.acc[q])
    && (forall p: nat, q', l :: p < |e1| ==> (Steps(m, e1[p], q', l) <==> StepsTo(a1, e1, p, q', l)))
    && (forall p: nat, q', l :: p < |e2| ==> (Steps(m, e2[p], q', l) <==> StepsTo(a2, e2, p, q', l)))
    && (forall q', l :: Steps(m, m.init, q', l) <==> StepsTo(a1, e1, a1.init, q', l) || StepsTo(a2, e2, a2.init, q', l))
  }

  ghost predicate StepsTo(a: Automaton, e: seq<nat>, p: nat, q': nat, l: Letter) {
    exists q: nat :: q < |e| && q' == e[q] && Steps(a, p, q, l)
  }

  // One part of a merge: everything the proofs below need, the same for both parts.
  ghost predicate IsPart(a: Automaton, m: Automaton, e: seq<nat>) {
    && a.Valid() && m.Valid() && |e| == a.Size()
    && Distinct(e) && (forall q :: 0 <= q < |e| ==> e[q] < m.Size() && e[q] != m.init)
    && (forall q :: 0 <= q < |e| ==> m.acc[e[q]] == a.acc[q])
    && (forall p: nat, q: nat, l :: p < |e| && q < |e| ==> (Steps(m, e[p], e[q], l) <==> Steps(a, p, q, l)))
    && (forall q: nat, l :: q < |e| ==> (Steps(m, m.init, e[q], l) <==> Steps(a, a.init, q, l)))
    && (forall p': nat, q: nat, l :: q < |e| && Steps(m, p', e[q], l) ==> p' == m.init || p' in e)
    && (forall p': nat, l :: !Steps(m, p', m.init, l))
  }

  lemma DistinctParts(e1: seq<nat>, x: nat, e2: seq<nat>)
    requires Distinct(e1 + [x] + e2)
    ensures Distinct(e1) && Distinct(e2) && x !in e1 && x !in e2
    ensures forall p, q :: 0 <= p < |e1| && 0 <= q < |e2| ==> e1[p] != e2[q]
  {
    var e := e1 + [x] + e2;
    assert forall k :: 0 <= k < |e1| ==> e[k] == e1[k];
    assert e[|e1|] == x;
    assert forall k :: 0 <= k < |e2| ==> e[|e1| + 1 + k] == e2[k];
    forall p, q | 0 <= p < |e1| && 0 <= q < |e2|
      ensures e1[p] != e2[q]
    {
      assert e[p] != e[|e1| + 1 + q];
    }
    forall p, q | 0 <= p < q < |e2|
      ensures e2[p] != e2[q]
    {
      assert e[|e1| + 1 + p] != e[|e1| + 1 + q];
    }
  }

  // Every state of the merge is the new initial state or belongs to a part.
  lemma StateOfPart(a1: Automaton, a2: Automaton, m: Automaton, e1: seq<nat>, e2: seq<nat>, x: nat)
    requires IsMerge(a1, a2, m, e1, e2) && x < m.Size()
    ensures x == m.init || x in e1 || x in e2
  {
    hide StepsTo, Steps;
    var e := e1 + [m.init] + e2;
    assert forall k :: 0 <= k < |e| ==>
        e[k] == if k < |e1| then e1[k] else if k == |e1| then m.init else e2[k - |e1| - 1];
    Pigeonhole(e, x);
  }

  lemma MergeSources(a1: Automaton, a2: Automaton, m: Automaton, e1: seq<nat>, e2: seq<nat>, p': nat, q': nat,
                     l: Letter)
    requires IsMerge(a1, a2, m, e1, e2) && Steps(m, p', q', l)
    ensures q' != m.init
    ensures q' in e1 ==> p' == m.init || p' in e1
    ensures q' in e2 ==> p' == m.init || p' in e2
  {
    StepsTarget(m, p', q', l);
    StateOfPart(a1, a2, m, e1, e2, p');
    DistinctParts(e1, m.init, e2);
    hide Steps;
    if p' in e1 {
      var p: nat :| p < |e1| && e1[p] == p';
      assert StepsTo(a1, e1, p, q', l);
    } else if p' in e2 {
      var p: nat :| p < |e2| && e2[p] == p';
      assert StepsTo(a2, e2, p, q', l);
    }
  }

  lemma MergeHasParts(a1: Automaton, a2: Automaton, m: Automaton, e1: seq<nat>, e2: seq<nat>)
    requires IsMerge(a1, a2, m, e1, e2)
    ensures IsPart(a1, m, e1) && IsPart(a2, m, e2)
  {
    DistinctParts(e1, m.init, e2);
    hide Steps;
    forall p: nat, q: nat, l | q < |e1|
      ensures p < |e1| ==> (Steps(m, e1[p], e1[q], l) <==> Steps(a1, p, q, l))
      ensures Steps(m, m.init, e1[q], l) <==> Steps(a1, a1.init, q, l)
    {
    }
    forall p: nat, q: nat, l | q < |e2|
      ensures p < |e2| ==> (Steps(m, e2[p], e2[q], l) <==> Steps(a2, p, q, l))
      ensures Steps(m, m.init, e2[q], l) <==> Steps(a2, a2.init, q, l)
    {
    }
    forall p': nat, q': nat, l | Steps(m, p', q', l)
      ensures q' != m.init
      ensures q' in e1 ==> p' == m.init || p' in e1
      ensures q' in e2 ==> p' == m.init || p' in e2
    {
      MergeSources(a1, a2, m, e1, e2, p', q', l);
    }
  }

  // --- Runs --------------------------------------------------------------------------------------

  // A run of a part as a run of the merge.
  ghost function Lift(r: seq<nat>, e: seq<nat>, init: nat): seq<nat> {
    seq(|r|, k requires 0 <= k < |r| => if k == 0 || |e| <= r[k] then init else e[r[k]])
  }

  lemma LiftIsRun(a: Automaton, m: Automaton, e: seq<nat>, w: seq<Letter>, r: seq<nat>)
    requires IsPart(a, m, e) && IsRun(a, w, r)
    ensures IsRun(m, w, Lift(r, e, m.init))
  {
    var r' := Lift(r, e, m.init);
    hide Steps;
    forall k | 0 <= k < |w|
      ensures Steps(m, r'[k], r'[k + 1], w[k])
    {
      RunsInside(a, w, r, k);
      RunsInside(a, w, r, k + 1);
      assert Steps(a, r[k], r[k + 1], w[k]);
    }
  }

  lemma {:induction false} LiftVisits(a: Automaton, m: Automaton, e: seq<nat>, r: seq<nat>)
    requires IsPart(a, m, e) && forall k :: 0 <= k < |r| ==> r[k] < |e|
    ensures Visits(m, Lift(r, e, m.init)) == Visits(a, r)
  {
    hide Steps;
    if |r| > 1 {
      var n := |r| - 1;
      LiftVisits(a, m, e, r[..n]);
      assert Lift(r, e, m.init)[..n] == Lift(r[..n], e, m.init);
    }
  }

  lemma LiftOneMore(a: Automaton, m: Automaton, e: seq<nat>, w: seq<Letter>, r: seq<nat>, r1: seq<nat>, q: nat)
    requires IsPart(a, m, e) && w != [] && |r| == |w| + 1 && q < |e| && r[|w|] == e[q]
    requires IsRun(a, w[..|w| - 1], r1) && Lift(r1, e, m.init) == r[..|w|] && Steps(a, r1[|w| - 1], q, w[|w| - 1])
    ensures IsRun(a, w, r1 + [q]) && Lift(r1 + [q], e, m.init) == r
  {
    hide Steps, IsPart;
    var n, r2 := |w| - 1, r1 + [q];
    forall k | 0 <= k < |w|
      ensures Steps(a, r2[k], r2[k + 1], w[k])
    {
      if k < n {
        assert Steps(a, r1[k], r1[k + 1], w[..n][k]);
      }
    }
    assert r == r[..|w|] + [e[q]];
    forall k | 0 <= k < |r|
      ensures Lift(r2, e, m.init)[k] == r[k]
    {
      if k < |w| {
        assert Lift(r1, e, m.init)[k] == r[k];
      }
    }
  }

  // A nonempty run of the merge that ends in a part is the lifting of a run of that part.
  lemma {:induction false} RunOfPart(a: Automaton, m: Automaton, e: seq<nat>, w: seq<Letter>, r: seq<nat>)
    returns (r1: seq<nat>)
    requires IsPart(a, m, e) && IsRun(m, w, r) && w != [] && r[|w|] in e
    ensures IsRun(a, w, r1) && Lift(r1, e, m.init) == r
  {
    var n := |w| - 1;
    var q: nat :| q < |e| && e[q] == r[|w|];
    if n == 0 {
      r1 := FirstStepOfPart(a, m, e, w, r, q);
    } else {
      hide Steps, Lift;
      NotInitial(m, e, a, w, r, n);
      var p1 := RunOfPart(a, m, e, w[..n], r[..|w|]);
      LastOfLift(a, m, e, w[..n], p1, r[..|w|]);
      assert Steps(m, r[n], r[n + 1], w[n]);
      PartStep(a, m, e, p1[n], q, w[n]);
      LiftOneMore(a, m, e, w, r, p1, q);
      r1 := p1 + [q];
    }
  }

  lemma PartStep(a: Automaton, m: Automaton, e: seq<nat>, p: nat, q: nat, l: Letter)
    requires IsPart(a, m, e) && p < |e| && q < |e|
    ensures Steps(m, e[p], e[q], l) <==> Steps(a, p, q, l)
  {
    hide Steps;
  }

  lemma LastOfLift(a: Automaton, m: Automaton, e: seq<nat>, w: seq<Letter>, r1: seq<nat>, r: seq<nat>)
    requires IsPart(a, m, e) && IsRun(a, w, r1) && w != [] && Lift(r1, e, m.init) == r
    ensures r1[|w|] < |e| && |r| == |w| + 1 && r[|w|] == e[r1[|w|]]
  {
    PartValid(a, m, e);
    hide Steps, IsPart;
    RunsInside(a, w, r1, |w|);
    assert Lift(r1, e, m.init)[|w|] == e[r1[|w|]];
  }

  lemma FirstStepOfPart(a: Automaton, m: Automaton, e: seq<nat>, w: seq<Letter>, r: seq<nat>, q: nat)
    returns (r1: seq<nat>)
    requires IsPart(a, m, e) && IsRun(m, w, r) && |w| == 1 && q < |e| && r[1] == e[q]
    ensures IsRun(a, w, r1) && Lift(r1, e, m.init) == r
  {
    hide Steps;
    assert Steps(m, r[0], r[0 + 1], w[0]);
    r1 := [a.init, q];
    assert Lift(r1, e, m.init) == r;
  }

  lemma NotInitial(m: Automaton, e: seq<nat>, a: Automaton, w: seq<Letter>, r: seq<nat>, n: nat)
    requires IsPart(a, m, e) && IsRun(m, w, r) && 0 < n < |w| && r[n + 1] in e
    ensures r[n] in e
  {
    var q: nat :| q < |e| && e[q] == r[n + 1];
    hide Steps;
    assert Steps(m, r[n - 1], r[n - 1 + 1], w[n - 1]);
    assert Steps(m, r[n], r[n + 1], w[n]);
  }

  lemma PartBounded(a: Automaton, m: Automaton, e: seq<nat>, w: seq<Letter>, K: int)
    requires IsPart(a, m, e) && WordBounded(m, w, K)
    ensures WordBounded(a, w, K)
  {
    hide IsPart, Visits;
    forall r | IsRun(a, w, r)
      ensures Visits(a, r) < K
    {
      LiftIsRun(a, m, e, w, r);
      forall k | 0 <= k < |r|
        ensures r[k] < |e|
      {
        PartValid(a, m, e);
        RunsInside(a, w, r, k);
      }
      LiftVisits(a, m, e, r);
    }
  }

  lemma PartValid(a: Automaton, m: Automaton, e: seq<nat>)
    requires IsPart(a, m, e)
    ensures a.Valid() && m.Valid() && |e| == a.Size()
  {
  }

  lemma PartRunBounded(a: Automaton, m: Automaton, e: seq<nat>, w: seq<Letter>, r: seq<nat>, K: int)
    requires IsPart(a, m, e) && WordBounded(a, w, K) && IsRun(m, w, r) && w != [] && r[|w|] in e
    ensures Visits(m, r) < K
  {
    PartValid(a, m, e);
    hide IsPart, Visits;
    var r1 := RunOfPart(a, m, e, w, r);
    forall k | 0 <= k < |r1|
      ensures r1[k] < |e|
    {
      RunsInside(a, w, r1, k);
    }
    LiftVisits(a, m, e, r1);
  }

  // A word is bounded in the merge iff it is bounded in both parts.
  lemma MergeWord(a1: Automaton, a2: Automaton, m: Automaton, e1: seq<nat>, e2: seq<nat>, w: seq<Letter>, K: int)
    requires IsMerge(a1, a2, m, e1, e2) && 1 <= K
    ensures WordBounded(m, w, K) <==> WordBounded(a1, w, K) && WordBounded(a2, w, K)
  {
    MergeHasParts(a1, a2, m, e1, e2);
    PartValid(a1, m, e1);
    hide IsPart, StepsTo, Steps, Visits;
    if WordBounded(m, w, K) {
      PartBounded(a1, m, e1, w, K);
      PartBounded(a2, m, e2, w, K);
    }
    if WordBounded(a1, w, K) && WordBounded(a2, w, K) {
      forall r | IsRun(m, w, r)
        ensures Visits(m, r) < K
      {
        MergeRunBounded(a1, a2, m, e1, e2, w, r, K);
      }
    }
  }

  lemma MergeRunBounded(a1: Automaton, a2: Automaton, m: Automaton, e1: seq<nat>, e2: seq<nat>, w: seq<Letter>,
                        r: seq<nat>, K: int)
    requires IsMerge(a1, a2, m, e1, e2) && 1 <= K && IsRun(m, w, r)
    requires WordBounded(a1, w, K) && WordBounded(a2, w, K)
    ensures Visits(m, r) < K
  {
    MergeHasParts(a1, a2, m, e1, e2);
    if w == [] {
      assert |r| == 1;
    } else {
      PartValid(a1, m, e1);
      var n := |w| - 1;
      assert Steps(m, r[n], r[n + 1], w[n]);
      MergeSources(a1, a2, m, e1, e2, r[n], r[n + 1], w[n]);
      RunsInside(m, w, r, |w|);
      StateOfPart(a1, a2, m, e1, e2, r[|w|]);
      hide IsPart, IsMerge, IsRun, Visits, Steps;
      if r[|w|] in e1 {
        PartRunBounded(a1, m, e1, w, r, K);
      } else {
        PartRunBounded(a2, m, e2, w, r, K);
      }
    }
  }

  // A strategy bounds the merge iff it bounds both parts.
  lemma MergeBounds(a1: Automaton, a2: Automaton, m: Automaton, e1: seq<nat>, e2: seq<nat>, strat: Strategy,
                    ins: set<Bits>, K: int)
    requires IsMerge(a1, a2, m, e1, e2) && 1 <= K
    ensures Bounds(strat, m, ins, K) <==> Bounds(strat, a1, ins, K) && Bounds(strat, a2, ins, K)
  {
    hide IsMerge, WordBounded;
    forall h | AllIn(h, ins)
      ensures WordBounded(m, Word(strat, h), K) <==>
          WordBounded(a1, Word(strat, h), K) && WordBounded(a2, Word(strat, h), K)
    {
      MergeWord(a1, a2, m, e1, e2, Word(strat, h), K);
    }
  }

  // If either part is losing, the merge is losing.
  lemma MergeOfLosing(a1: Automaton, a2: Automaton, m: Automaton, e1: seq<nat>, e2: seq<nat>,
                      ins: set<Bits>, outs: set<Bits>, inv: set<Letter>, K: int)
    requires IsMerge(a1, a2, m, e1, e2) && 1 <= K && Realizable(m, ins, outs, inv, K)
    ensures Realizable(a1, ins, outs, inv, K) && Realizable(a2, ins, outs, inv, K)
  {
    assert a1.Valid() && a2.Valid() && m.Valid();
    hide IsMerge, Bounds, Legal;
    RealizableIffStrategy(m, ins, outs, inv, K);
    var strat: Strategy :| Legal(strat, ins, outs, inv) && Bounds(strat, m, ins, K);
    MergeBounds(a1, a2, m, e1, e2, strat, ins, K);
    RealizableIffStrategy(a1, ins, outs, inv, K);
    RealizableIffStrategy(a2, ins, outs, inv, K);
  }

  // --- Safe regions -------------------------------------------------------------------------------

  // The components of a part.
  function Restrict(v: Vec, e: seq<nat>): Vec {
    seq(|e|, q requires 0 <= q < |e| => At(v, e[q]))
  }

  lemma RestrictForwardAt(a: Automaton, m: Automaton, e: seq<nat>, l: Letter, v: Vec, u: Vec, K: int, q: nat)
    requires IsPart(a, m, e) && |v| == m.Size() && |u| == a.Size() && Floor(v) && Floor(u) && 1 <= K && q < |e|
    requires forall p :: 0 <= p < |e| ==> u[p] <= v[e[p]]
    ensures |Forward(u, LetterAction(a, l), K)| == |e| && |Forward(v, LetterAction(m, l), K)| == m.Size()
    ensures Forward(u, LetterAction(a, l), K)[q] <= Forward(v, LetterAction(m, l), K)[e[q]]
  {
    hide Forward, LetterAction;
    ForwardAlongLetter(a, l, u, K, q);
    ForwardAlongLetter(m, l, v, K, e[q]);
    if Forward(u, LetterAction(a, l), K)[q] != -1 {
      var p: nat :| Steps(a, p, q, l) && u[p] != -1 &&
          Forward(u, LetterAction(a, l), K)[q] == Min(K, u[p] + Bump(a.acc[q]));
      StepsTarget(a, p, q, l);
      assert Steps(m, e[p], e[q], l);
    }
  }

  // Whatever the merge does to a vector, it does at least to the components of a part.
  lemma RestrictForward(a: Automaton, m: Automaton, e: seq<nat>, l: Letter, v: Vec, u: Vec, K: int)
    requires IsPart(a, m, e) && |v| == m.Size() && Floor(v) && Floor(u) && Leq(u, Restrict(v, e)) && 1 <= K
    ensures Leq(Forward(u, LetterAction(a, l), K), Restrict(Forward(v, LetterAction(m, l), K), e))
  {
    hide Forward, LetterAction, Steps;
    PartValid(a, m, e);
    forall p | 0 <= p < |e|
      ensures u[p] <= v[e[p]]
    {
      assert Restrict(v, e)[p] == v[e[p]];
    }
    RestrictForwardAt(a, m, e, l, v, u, K, a.init);
    forall q | 0 <= q < |e|
      ensures Forward(u, LetterAction(a, l), K)[q] <= Restrict(Forward(v, LetterAction(m, l), K), e)[q]
    {
      RestrictForwardAt(a, m, e, l, v, u, K, q);
    }
  }

  // Counter and Boolean states of the part keep their kind, and its roots stay roots.
  ghost predicate KeepsKind(e: seq<nat>, t: nat, roots: set<nat>, t': nat, roots': set<nat>) {
    && (forall q :: 0 <= q < |e| ==> (q < t <==> e[q] < t'))
    && (forall q :: 0 <= q < |e| && q in roots ==> e[q] in roots')
  }

  // Restricting a safe vector of the merge gives a safe vector of the part.
  lemma RestrictIsSafe(a: Automaton, m: Automaton, e: seq<nat>, ins: set<Bits>, outs: set<Bits>, inv: set<Letter>,
                       K: int, t: nat, roots: set<nat>, t': nat, roots': set<nat>, v: Vec)
    requires IsPart(a, m, e) && 1 <= K && KeepsKind(e, t, roots, t', roots')
    requires Winning(ArenaOf(m, ins, outs, inv), K, Rooted(m.Size(), t', K, roots'), v)
    ensures Winning(ArenaOf(a, ins, outs, inv), K, Rooted(a.Size(), t, K, roots), Restrict(v, e))
  {
    var g, g' := ArenaOf(a, ins, outs, inv), ArenaOf(m, ins, outs, inv);
    var R, R' := Rooted(a.Size(), t, K, roots), Rooted(m.Size(), t', K, roots');
    RegionIsGreatest(g', K, R');
    var W := Region(g', K, R');
    var S := BelowRestricted(W, e);
    PartValid(a, m, e);
    assert S <= R by {
      AllRestrictInside(W, e, m.Size(), t, roots, t', roots', K);
    }
    assert forall x :: x in W ==> |x| == m.Size() && Floor(x);
    hide Region, ArenaOf, IsClosed, Rooted, KeepsKind, Forward, LetterAction, BelowRestricted, Restrict, Answers;
    ClosedByLetters(m, ins, outs, inv, K, W);
    forall u, i | u in S && i in ins
      ensures Answers(a, outs, inv, K, S, u, i)
    {
      var x := BelowWhich(W, e, u);
      RestrictAnswers(a, m, e, outs, inv, K, W, u, x, i);
    }
    ClosedByLetters(a, ins, outs, inv, K, S);
    assert Stable(g, K, R, S);
    RestrictIsBelow(W, e, v);
  }

  // The vectors that lie below the restriction of one in W.
  ghost function BelowRestricted(W: iset<Vec>, e: seq<nat>): iset<Vec> {
    iset u: Vec | Floor(u) && exists x :: x in W && Leq(u, Restrict(x, e))
  }

  lemma RestrictIsBelow(W: iset<Vec>, e: seq<nat>, v: Vec)
    requires v in W && Floor(v)
    ensures Restrict(v, e) in BelowRestricted(W, e)
  {
    assert Leq(Restrict(v, e), Restrict(v, e));
  }

  lemma BelowWhich(W: iset<Vec>, e: seq<nat>, u: Vec) returns (x: Vec)
    requires u in BelowRestricted(W, e)
    ensures x in W && Floor(u) && Leq(u, Restrict(x, e))
  {
    x :| x in W && Leq(u, Restrict(x, e));
  }

  lemma RestrictAnswers(a: Automaton, m: Automaton, e: seq<nat>, outs: set<Bits>, inv: set<Letter>, K: int,
                        W: iset<Vec>, u: Vec, x: Vec, i: Bits)
    requires IsPart(a, m, e) && 1 <= K && |x| == m.Size() && Floor(x) && Floor(u) && Leq(u, Restrict(x, e))
    requires Answers(m, outs, inv, K, W, x, i)
    ensures Answers(a, outs, inv, K, BelowRestricted(W, e), u, i)
  {
    hide Forward, LetterAction, Leq, Restrict, IsPart;
    var o :| o in outs && Letter(i, o) in inv && Forward(x, LetterAction(m, Letter(i, o)), K) in W;
    RestrictForward(a, m, e, Letter(i, o), x, u, K);
    PartValid(a, m, e);
    ForwardFloor(u, LetterAction(a, Letter(i, o)), K);
    assert Forward(u, LetterAction(a, Letter(i, o)), K) in BelowRestricted(W, e);
  }

  lemma AllRestrictInside(W: iset<Vec>, e: seq<nat>, n: nat, t: nat, roots: set<nat>, t': nat, roots': set<nat>, K: int)
    requires KeepsKind(e, t, roots, t', roots') && W <= Rooted(n, t', K, roots') && 1 <= K
    requires forall q :: 0 <= q < |e| ==> e[q] < n
    ensures BelowRestricted(W, e) <= Rooted(|e|, t, K, roots)
  {
    hide KeepsKind, Rooted, Leq, Restrict;
    forall u | u in BelowRestricted(W, e)
      ensures u in Rooted(|e|, t, K, roots)
    {
      var x :| x in W && Leq(u, Restrict(x, e));
      RestrictInside(e, n, t, roots, t', roots', K, x, u);
    }
  }

  lemma RestrictInside(e: seq<nat>, n: nat, t: nat, roots: set<nat>, t': nat, roots': set<nat>, K: int, x: Vec, u: Vec)
    requires KeepsKind(e, t, roots, t', roots') && x in Rooted(n, t', K, roots')
    requires (forall q :: 0 <= q < |e| ==> e[q] < n) && Floor(u) && Leq(u, Restrict(x, e)) && 1 <= K
    ensures u in Rooted(|e|, t, K, roots)
  {
    forall q | 0 <= q < |e|
      ensures u[q] <= Top(q, t, K) && (q in roots ==> u[q] <= 0)
    {
      assert u[q] <= Restrict(x, e)[q] == x[e[q]] <= Top(e[q], t', K);
    }
  }
}
