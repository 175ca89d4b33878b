/**
  Bounded states: a saturation that finds the states no run can enter after passing accepting
  states more often than there are accepting states.  They stop counting and are renamed last.
*/
module ForwardSaturation {
  import opened Automata
  import opened Runs
  import opened Counting
  import opened Renaming

  function Flag(acc: bool): nat {
    if acc then 1 else 0
  }

  function CountAcc(acc: seq<bool>): nat {
    if acc == [] then 0 else CountAcc(acc[..|acc| - 1]) + Flag(acc[|acc| - 1])
  }

  // How many components exceed the bound.
  function CountAbove(c: seq<nat>, b: nat): nat {
    if c == [] then 0 else CountAbove(c[..|c| - 1], b) + Flag(c[|c| - 1] > b)
  }

  function Cap(x: nat, b: nat): nat {
    if x <= b then x else b
  }

  predicate Capped(c: seq<nat>, b: nat) {
    forall q :: 0 <= q < |c| ==> c[q] <= b
  }

  // The values respect every edge out of the first m states.
  ghost predicate Closed(aut: Automaton, c: seq<nat>, nb: nat, m: nat) {
    && |c| == |aut.acc| == |aut.out|
    && forall p :: 0 <= p < m <= |c| ==> ClosedAt(aut, c, nb, p, |aut.out[p]|)
  }

  // The values respect the first m edges of state p.
  ghost predicate ClosedAt(aut: Automaton, c: seq<nat>, nb: nat, p: nat, m: nat)
    requires |c| == |aut.acc| == |aut.out| && p < |c|
  {
    forall j :: 0 <= j < m <= |aut.out[p]| ==>
                  aut.out[p][j].dst < |c| && Cap(c[p] + Flag(aut.acc[p]), nb + 1) <= c[aut.out[p][j].dst]
  }

  lemma {:induction false} CountAboveUpdate(c: seq<nat>, b: nat, q: nat, x: nat)
    requires q < |c|
    ensures CountAbove(c[q := x], b) == CountAbove(c, b) - Flag(c[q] > b) + Flag(x > b)
  {
    var d := c[q := x];
    if q < |c| - 1 {
      assert d[..|d| - 1] == c[..|c| - 1][q := x];
      CountAboveUpdate(c[..|c| - 1], b, q, x);
    } else {
      assert d[..|d| - 1] == c[..|c| - 1];
    }
  }

  lemma {:induction false} CountAboveZero(c: seq<nat>, b: nat)
    requires Capped(c, b)
    ensures CountAbove(c, b) == 0
  {
    if c != [] {
      CountAboveZero(c[..|c| - 1], b);
    }
  }

  ghost function Room(c: seq<nat>, b: nat): nat {
    if c == [] then 0 else Room(c[..|c| - 1], b) + (if c[|c| - 1] <= b then b - c[|c| - 1] else 0)
  }

  lemma {:induction false} RoomDrops(c: seq<nat>, b: nat, q: nat, x: nat)
    requires q < |c| && c[q] < x <= b
    ensures Room(c[q := x], b) < Room(c, b)
  {
    var d := c[q := x];
    if q < |c| - 1 {
      assert d[..|d| - 1] == c[..|c| - 1][q := x];
      RoomDrops(c[..|c| - 1], b, q, x);
    } else {
      assert d[..|d| - 1] == c[..|c| - 1];
    }
  }

  lemma {:induction false} CountAccPositive(acc: seq<bool>, q: nat)
    requires q < |acc| && acc[q]
    ensures 1 <= CountAcc(acc)
  {
    if q < |acc| - 1 {
      CountAccPositive(acc[..|acc| - 1], q);
    }
  }

  ghost function AcceptingStates(acc: seq<bool>): set<nat> {
    set q: nat | q < |acc| && acc[q]
  }

  ghost function StatesAbove(c: seq<nat>, b: nat): set<nat> {
    set q: nat | q < |c| && c[q] > b
  }

  lemma {:induction false} CountAccIs(acc: seq<bool>)
    ensures CountAcc(acc) == |AcceptingStates(acc)|
  {
    if acc != [] {
      var n := |acc| - 1;
      CountAccIs(acc[..n]);
      assert AcceptingStates(acc) == AcceptingStates(acc[..n]) + (if acc[n] then {n} else {});
    }
  }

  lemma {:induction false} CountAboveIs(c: seq<nat>, b: nat)
    ensures CountAbove(c, b) == |StatesAbove(c, b)|
  {
    if c != [] {
      var n := |c| - 1;
      CountAboveIs(c[..n], b);
      assert StatesAbove(c, b) == StatesAbove(c[..n], b) + (if c[n] > b then {n} else {});
    }
  }

  method CountAccepting(aut: Automaton) returns (nb: nat)
    ensures nb == CountAcc(aut.acc) == |AcceptingStates(aut.acc)|
  {
    CountAccIs(aut.acc);
    nb := 0;
    for src := 0 to |aut.acc|
      invariant nb == CountAcc(aut.acc[..src])
    {
      assert aut.acc[..src + 1][..src] == aut.acc[..src];
      if aut.acc[src] {
        nb := nb + 1;
      }
    }
    assert aut.acc[..|aut.acc|] == aut.acc;
  }

  // What holds of the value array and the counter of unbounded states throughout.
  ghost predicate Counted(c: seq<nat>, nb: nat, nunbounded: nat) {
    Capped(c, nb + 1) && nunbounded == CountAbove(c, nb)
  }

  lemma Raised(c: seq<nat>, nb: nat, nunbounded: nat, q: nat, x: nat)
    requires Counted(c, nb, nunbounded) && q < |c| && c[q] < x <= nb + 1
    ensures Counted(c[q := x], nb, if x == nb + 1 then nunbounded + 1 else nunbounded)
    ensures Room(c[q := x], nb + 1) < Room(c, nb + 1)
  {
    CountAboveUpdate(c, nb, q, x);
    RoomDrops(c, nb + 1, q, x);
  }

  method Saturate(aut: Automaton) returns (c: array<nat>, nunbounded: nat, nb: nat)
    requires aut.Valid()
    ensures fresh(c) && c.Length == aut.Size() && nb == CountAcc(aut.acc)
    ensures nb == |AcceptingStates(aut.acc)| && nunbounded == |StatesAbove(c[..], nb)|
    ensures IsSaturation(aut, c[..], nb) && Counted(c[..], nb, nunbounded)
  {
    nb := CountAccepting(aut);
    nunbounded := 0;
    c := new nat[aut.Size()](_ => 0);
    if aut.acc[aut.init] {
      CountAccPositive(aut.acc, aut.init);
      c[aut.init] := 1;
    }
    StartCounted(c[..], nb);
    forall q: nat | q < c.Length
      ensures Attained(aut, q, c[q])
    {
      StartAttained(aut, q);
    }
    hide Closed, Counted, Room, Attained;
    var hasChanged := true;
    while hasChanged
      invariant Counted(c[..], nb, nunbounded) && Justified(aut, c[..])
      invariant !hasChanged ==> Closed(aut, c[..], nb, |c[..]|)
      decreases Room(c[..], nb + 1), if hasChanged then 1 else 0
    {
      nunbounded, hasChanged := SweepStates(aut, c, nb, nunbounded);
    }
    CountIs(c[..], nb, nunbounded);
  }

  lemma CountIs(c: seq<nat>, nb: nat, nunbounded: nat)
    requires Counted(c, nb, nunbounded)
    ensures nunbounded == |StatesAbove(c, nb)| && Capped(c, nb + 1)
  {
    CountAboveIs(c, nb);
  }

  lemma StartCounted(c: seq<nat>, nb: nat)
    requires Capped(c, nb)
    ensures Counted(c, nb, 0)
  {
    CountAboveZero(c, nb);
  }

  method SweepStates(aut: Automaton, c: array<nat>, nb: nat, count0: nat) returns (nunbounded: nat, hasChanged: bool)
    requires aut.Valid() && c.Length == aut.Size() && Counted(c[..], nb, count0) && Justified(aut, c[..])
    modifies c
    ensures Counted(c[..], nb, nunbounded) && Justified(aut, c[..])
    ensures hasChanged ==> Room(c[..], nb + 1) < Room(old(c[..]), nb + 1)
    ensures !hasChanged ==> c[..] == old(c[..]) && Closed(aut, c[..], nb, |c[..]|)
  {
    nunbounded, hasChanged := count0, false;
    hide Counted, Room, ClosedAt, Justified;
    for src := 0 to c.Length
      invariant Counted(c[..], nb, nunbounded) && Justified(aut, c[..])
      invariant hasChanged ==> Room(c[..], nb + 1) < Room(old(c[..]), nb + 1)
      invariant !hasChanged ==> c[..] == old(c[..]) && Closed(aut, c[..], nb, src)
    {
      var changed;
      nunbounded, changed := SweepEdges(aut, c, nb, nunbounded, src);
      hasChanged := hasChanged || changed;
    }
  }

  // The edges of one source, all with the value its counter had before.
  method SweepEdges(aut: Automaton, c: array<nat>, nb: nat, count0: nat, src: nat)
    returns (nunbounded: nat, changed: bool)
    requires aut.Valid() && c.Length == aut.Size() && Counted(c[..], nb, count0) && src < c.Length &&
        Justified(aut, c[..])
    modifies c
    ensures Counted(c[..], nb, nunbounded) && Justified(aut, c[..])
    ensures changed ==> Room(c[..], nb + 1) < Room(old(c[..]), nb + 1)
    ensures !changed ==> c[..] == old(c[..]) && ClosedAt(aut, c[..], nb, src, |aut.out[src]|)
  {
    nunbounded, changed := count0, false;
    var cSrcMod := Cap(c[src] + Flag(aut.acc[src]), nb + 1);
    var es := aut.out[src];
    SourceAttained(aut, c[..], nb, src);
    hide Counted, Room, Justified, CarriesOn, Linked, ClosedAt, Cap;
    NothingToClose(aut, c[..], nb, src);
    for j := 0 to |es|
      invariant Counted(c[..], nb, nunbounded) && Justified(aut, c[..])
      invariant changed ==> Room(c[..], nb + 1) < Room(old(c[..]), nb + 1)
      invariant !changed ==> c[..] == old(c[..]) && ClosedAt(aut, c[..], nb, src, j)
    {
      var dst := es[j].dst;
      if c[dst] < cSrcMod {
        Raised(c[..], nb, nunbounded, dst, cSrcMod);
        if cSrcMod == nb + 1 {
          nunbounded := nunbounded + 1;
        }
        StaysJustified(aut, c[..], src, j, cSrcMod);
        ghost var before := c[..];
        c[dst] := cSrcMod;
        assert c[..] == before[dst := cSrcMod];
        changed := true;
      } else if !changed {
        OneMoreEdge(aut, c[..], nb, src, j);
      }
    }
  }

  lemma NothingToClose(aut: Automaton, c: seq<nat>, nb: nat, p: nat)
    requires |c| == |aut.acc| == |aut.out| && p < |c|
    ensures ClosedAt(aut, c, nb, p, 0)
  {
  }

  lemma OneMoreEdge(aut: Automaton, c: seq<nat>, nb: nat, p: nat, j: nat)
    requires |c| == |aut.acc| == |aut.out| && p < |c| && j < |aut.out[p]| && ClosedAt(aut, c, nb, p, j)
    requires aut.out[p][j].dst < |c| && Cap(c[p] + Flag(aut.acc[p]), nb + 1) <= c[aut.out[p][j].dst]
    ensures ClosedAt(aut, c, nb, p, j + 1)
  {
  }

  // One edge carries the value of its source on.
  lemma SourceAttained(aut: Automaton, c: seq<nat>, nb: nat, src: nat)
    requires aut.Valid() && Justified(aut, c) && src < |c|
    ensures CarriesOn(aut, src, Cap(c[src] + Flag(aut.acc[src]), nb + 1))
  {
    assert Attained(aut, src, c[src]);
    hide Linked, Attained, Justified;
    forall q: nat | q < |aut.out| && Linked(aut, src, q)
      ensures Attained(aut, q, Cap(c[src] + Flag(aut.acc[src]), nb + 1))
    {
      StepAttained(aut, src, q, c[src], Cap(c[src] + Flag(aut.acc[src]), nb + 1));
    }
  }

  ghost predicate CarriesOn(aut: Automaton, src: nat, x: nat) {
    forall q: nat :: q < |aut.out| && Linked(aut, src, q) ==> Attained(aut, q, x)
  }

  lemma StaysJustified(aut: Automaton, c: seq<nat>, src: nat, j: nat, x: nat)
    requires aut.Valid() && Justified(aut, c) && CarriesOn(aut, src, x) && src < |c| && j < |aut.out[src]|
    requires c[aut.out[src][j].dst] <= x
    ensures Justified(aut, c[aut.out[src][j].dst := x])
  {
    assert Linked(aut, src, aut.out[src][j].dst);
    hide Attained, Linked;
  }

  // --- Walks ---------------------------------------------------------------------------------------

  ghost predicate Linked(aut: Automaton, p: nat, q: nat) {
    p < |aut.out| && exists j :: 0 <= j < |aut.out[p]| && aut.out[p][j].dst == q
  }

  ghost predicate IsWalk(aut: Automaton, w: seq<nat>) {
    && (forall k :: 0 <= k < |w| ==> w[k] < |aut.out|)
    && forall k :: 0 < k < |w| ==> Linked(aut, w[k - 1], w[k])
  }

  predicate Bounded(c: seq<nat>, nb: nat, q: nat) {
    q < |c| && c[q] <= nb
  }

  // Bounded states have only bounded predecessors, and the value grows after an accepting one.
  lemma BoundedPredecessor(aut: Automaton, c: seq<nat>, nb: nat, p: nat, q: nat)
    requires Closed(aut, c, nb, |c|) && Linked(aut, p, q) && Bounded(c, nb, q)
    ensures Bounded(c, nb, p) && c[p] + Flag(aut.acc[p]) <= c[q]
  {
    assert ClosedAt(aut, c, nb, p, |aut.out[p]|);
  }

  ghost predicate QuietlyCounted(aut: Automaton, c: seq<nat>, nb: nat, q: nat) {
    Bounded(c, nb, q) && IsAccepting(aut, q)
  }

  // Visits of a walk to accepting bounded states.
  ghost function BoundedVisits(aut: Automaton, c: seq<nat>, nb: nat, w: seq<nat>): nat {
    if w == [] then 0
    else BoundedVisits(aut, c, nb, w[..|w| - 1]) + (if QuietlyCounted(aut, c, nb, w[|w| - 1]) then 1 else 0)
  }

  ghost function Visited(aut: Automaton, c: seq<nat>, nb: nat, w: seq<nat>): set<nat> {
    set q | q in w && QuietlyCounted(aut, c, nb, q)
  }

  lemma VisitedSnoc(aut: Automaton, c: seq<nat>, nb: nat, w: seq<nat>, q: nat)
    ensures Visited(aut, c, nb, w + [q]) == Visited(aut, c, nb, w) + (if QuietlyCounted(aut, c, nb, q) then {q} else {})
  {
    hide QuietlyCounted;
  }

  // Every state of S has a smaller value.
  ghost predicate AllBelow(c: seq<nat>, S: set<nat>, x: nat) {
    forall q :: q in S ==> q < |c| && c[q] < x
  }

  lemma NewVisitCounts(aut: Automaton, c: seq<nat>, nb: nat, w: seq<nat>, q: nat)
    requires BoundedVisits(aut, c, nb, w) == |Visited(aut, c, nb, w)|
    requires QuietlyCounted(aut, c, nb, q) ==> q !in Visited(aut, c, nb, w)
    ensures BoundedVisits(aut, c, nb, w + [q]) == |Visited(aut, c, nb, w + [q])|
  {
    VisitedSnoc(aut, c, nb, w, q);
    assert (w + [q])[..|w|] == w;
    hide QuietlyCounted, Visited;
  }

  lemma NextIsAbove(aut: Automaton, c: seq<nat>, nb: nat, w: seq<nat>, q: nat)
    requires Closed(aut, c, nb, |c|) && w != [] && Linked(aut, w[|w| - 1], q) && Bounded(c, nb, q)
    requires Bounded(c, nb, w[|w| - 1]) ==> AllBelow(c, Visited(aut, c, nb, w[..|w| - 1]), c[w[|w| - 1]])
    ensures AllBelow(c, Visited(aut, c, nb, w), c[q])
  {
    var prev := w[|w| - 1];
    BoundedPredecessor(aut, c, nb, prev, q);
    assert w == w[..|w| - 1] + [prev];
    VisitedSnoc(aut, c, nb, w[..|w| - 1], prev);
    hide Closed, Linked, Visited;
  }

  // Along a walk the accepting bounded states all differ: their values strictly increase.
  lemma {:induction false} VisitsAreDistinct(aut: Automaton, c: seq<nat>, nb: nat, w: seq<nat>)
    requires Closed(aut, c, nb, |c|) && IsWalk(aut, w)
    ensures BoundedVisits(aut, c, nb, w) == |Visited(aut, c, nb, w)|
    ensures w != [] && Bounded(c, nb, w[|w| - 1]) ==> AllBelow(c, Visited(aut, c, nb, w[..|w| - 1]), c[w[|w| - 1]])
  {
    hide Closed, Linked, QuietlyCounted;
    if w != [] {
      var init, last := w[..|w| - 1], w[|w| - 1];
      assert w == init + [last];
      VisitsAreDistinct(aut, c, nb, init);
      if init != [] && Bounded(c, nb, last) {
        assert Linked(aut, w[|w| - 2], w[|w| - 1]);
        NextIsAbove(aut, c, nb, init, last);
      }
      hide Visited, BoundedVisits, IsWalk;
      CountedIsBounded(aut, c, nb, last);
      assert init == [] ==> Visited(aut, c, nb, init) == {} by {
        NothingVisited(aut, c, nb);
      }
      NewVisitCounts(aut, c, nb, init, last);
    }
  }

  lemma NothingVisited(aut: Automaton, c: seq<nat>, nb: nat)
    ensures Visited(aut, c, nb, []) == {}
  {
  }

  lemma CountedIsBounded(aut: Automaton, c: seq<nat>, nb: nat, q: nat)
    ensures QuietlyCounted(aut, c, nb, q) ==> Bounded(c, nb, q)
  {
  }

  lemma {:induction false} AcceptingCount(acc: seq<bool>, S: set<nat>)
    requires forall q :: q in S ==> q < |acc| && acc[q]
    ensures |S| <= CountAcc(acc)
  {
    if acc == [] {
      assert S == {};
    } else {
      var n := |acc| - 1;
      AcceptingCount(acc[..n], S - {n});
      if n in S {
        assert |S| == |S - {n}| + 1;
      } else {
        assert S - {n} == S;
      }
    }
  }

  // On every walk the bounded states contribute at most nb accepting visits.
  lemma WalkBound(aut: Automaton, c: seq<nat>, nb: nat, w: seq<nat>)
    requires Closed(aut, c, nb, |c|) && IsWalk(aut, w) && nb == CountAcc(aut.acc)
    ensures BoundedVisits(aut, c, nb, w) <= nb
  {
    VisitsAreDistinct(aut, c, nb, w);
    AcceptingCount(aut.acc, Visited(aut, c, nb, w));
  }

  // --- Erasing acceptance -----------------------------------------------------------------------

  function Erased(aut: Automaton, c: seq<nat>, nb: nat): Automaton {
    aut.(acc := seq(|aut.acc|, q requires 0 <= q < |aut.acc| => aut.acc[q] && !Bounded(c, nb, q)))
  }

  // From some point on no accepting state is met.
  ghost predicate EventuallyQuiet(aut: Automaton, r: nat -> nat) {
    exists N :: QuietFrom(aut, r, N)
  }

  ghost predicate QuietFrom(aut: Automaton, r: nat -> nat, N: nat) {
    forall k :: N <= k ==> !IsAccepting(aut, r(k))
  }

  ghost predicate InfiniteWalk(aut: Automaton, r: nat -> nat) {
    forall k: nat :: r(k) < |aut.out| && Linked(aut, r(k), r(k + 1))
  }

  lemma {:induction false} ValuesGrow(aut: Automaton, c: seq<nat>, nb: nat, r: nat -> nat, k: nat, m: nat)
    requires Closed(aut, c, nb, |c|) && InfiniteWalk(aut, r) && k <= m && Bounded(c, nb, r(m))
    ensures Bounded(c, nb, r(k)) && c[r(k)] <= c[r(m)]
    ensures k < m ==> c[r(k)] + Flag(aut.acc[r(k)]) <= c[r(m)]
    decreases m - k
  {
    if k < m {
      assert Linked(aut, r(m - 1), r(m - 1 + 1));
      BoundedPredecessor(aut, c, nb, r(m - 1), r(m));
      ValuesGrow(aut, c, nb, r, k, m - 1);
    }
  }

  // After position k the run meets accepting bounded states only finitely often.
  lemma {:induction false} QuietPoint(aut: Automaton, c: seq<nat>, nb: nat, r: nat -> nat, k: nat) returns (N: nat)
    requires Closed(aut, c, nb, |c|) && InfiniteWalk(aut, r)
    ensures k <= N && forall m :: N <= m ==> !QuietlyCounted(aut, c, nb, r(m))
    decreases if Bounded(c, nb, r(k)) then nb + 1 - c[r(k)] else 0
  {
    if forall m :: k <= m ==> !QuietlyCounted(aut, c, nb, r(m)) {
      N := k;
    } else {
      var m :| k <= m && QuietlyCounted(aut, c, nb, r(m));
      ValuesGrow(aut, c, nb, r, k, m);
      if Bounded(c, nb, r(m + 1)) {
        ValuesGrow(aut, c, nb, r, m, m + 1);
      }
      N := QuietPoint(aut, c, nb, r, m + 1);
    }
  }

  // Erasing changes no infinite run's verdict.
  lemma VerdictUnchanged(aut: Automaton, c: seq<nat>, nb: nat, r: nat -> nat)
    requires Closed(aut, c, nb, |c|) && InfiniteWalk(aut, r)
    ensures EventuallyQuiet(aut, r) <==> EventuallyQuiet(Erased(aut, c, nb), r)
  {
    var aut' := Erased(aut, c, nb);
    forall q: nat
      ensures IsAccepting(aut', q) <==> IsAccepting(aut, q) && !Bounded(c, nb, q)
    {
    }
    if EventuallyQuiet(aut, r) {
      var N :| QuietFrom(aut, r, N);
      assert QuietFrom(aut', r, N);
    }
    if EventuallyQuiet(aut', r) {
      var N :| QuietFrom(aut', r, N);
      var N' := QuietPoint(aut, c, nb, r, N);
      assert QuietFrom(aut, r, N');
    }
  }

  lemma {:induction false} ErasedVisits(aut: Automaton, c: seq<nat>, nb: nat, r: seq<nat>)
    ensures Visits(Erased(aut, c, nb), r) <= Visits(aut, r)
    ensures Visits(aut, r) <= Visits(Erased(aut, c, nb), r) + BoundedVisits(aut, c, nb, r)
  {
    if |r| > 1 {
      ErasedVisits(aut, c, nb, r[..|r| - 1]);
    }
  }

  lemma RunIsWalk(aut: Automaton, w: seq<Letter>, r: seq<nat>)
    requires aut.Valid() && IsRun(aut, w, r)
    ensures IsWalk(aut, r)
  {
    forall k | 0 < k < |r|
      ensures Linked(aut, r[k - 1], r[k]) && r[k] < |aut.out|
    {
      assert Steps(aut, r[k - 1], r[k - 1 + 1], w[k - 1]);
      var e :| e in aut.out[r[k - 1]] && e.dst == r[k];
      var j :| 0 <= j < |aut.out[r[k - 1]]| && aut.out[r[k - 1]][j] == e;
    }
  }

  // On the game: a strategy that bounds the original by K bounds the erased automaton by K, and
  // one that bounds the erased automaton by K bounds the original by K + nb.
  lemma ErasedBounds(aut: Automaton, c: seq<nat>, nb: nat, strat: Strategy, ins: set<Bits>, K: int)
    requires aut.Valid() && Closed(aut, c, nb, |c|) && nb == CountAcc(aut.acc)
    ensures Bounds(strat, aut, ins, K) ==> Bounds(strat, Erased(aut, c, nb), ins, K)
    ensures Bounds(strat, Erased(aut, c, nb), ins, K) ==> Bounds(strat, aut, ins, K + nb)
  {
    var aut' := Erased(aut, c, nb);
    forall w, r
      ensures IsRun(aut, w, r) <==> IsRun(aut', w, r)
      ensures IsRun(aut, w, r) ==> Visits(aut', r) <= Visits(aut, r) <= Visits(aut', r) + nb
    {
      assert forall p: nat, q: nat, l :: Steps(aut, p, q, l) <==> Steps(aut', p, q, l);
      ErasedVisits(aut, c, nb, r);
      if IsRun(aut, w, r) {
        RunIsWalk(aut, w, r);
        WalkBound(aut, c, nb, r);
      }
    }
    hide IsRun, Visits, Erased, Closed;
    if Bounds(strat, aut, ins, K) {
      forall h | AllIn(h, ins)
        ensures WordBounded(aut', Word(strat, h), K)
      {
        assert WordBounded(aut, Word(strat, h), K);
      }
    }
    if Bounds(strat, aut', ins, K) {
      forall h | AllIn(h, ins)
        ensures WordBounded(aut, Word(strat, h), K + nb)
      {
        assert WordBounded(aut', Word(strat, h), K);
      }
    }
  }

  // --- Renaming -------------------------------------------------------------------------------------

  // Unbounded states first, each group in its original order.
  ghost predicate Splits(c: seq<nat>, nb: nat, nunbounded: nat, rename: seq<nat>) {
    && |rename| == |c|
    && (forall q :: 0 <= q < |c| ==> rename[q] < |c|)
    && (forall p, q :: 0 <= p < q < |c| ==> rename[p] != rename[q])
    && (forall q :: 0 <= q < |c| ==> (rename[q] < nunbounded <==> c[q] > nb))
    && KeepsOrder(c, nb, rename)
  }

  // Within each group the names follow the old order.
  ghost predicate KeepsOrder(c: seq<nat>, nb: nat, rename: seq<nat>)
    requires |rename| <= |c|
  {
    forall p, q :: 0 <= p < q < |rename| && (c[p] > nb <==> c[q] > nb) ==> rename[p] < rename[q]
  }

  lemma {:induction false} CountAboveLength(c: seq<nat>, b: nat)
    ensures CountAbove(c, b) <= |c|
  {
    if c != [] {
      CountAboveLength(c[..|c| - 1], b);
    }
  }

  lemma {:induction false} CountAbovePrefix(c: seq<nat>, b: nat, k: nat)
    requires k <= |c|
    ensures CountAbove(c[..k], b) <= CountAbove(c, b)
    ensures k - CountAbove(c[..k], b) <= |c| - CountAbove(c, b)
  {
    if k < |c| {
      CountAbovePrefix(c[..|c| - 1], b, k);
      assert c[..|c| - 1][..k] == c[..k];
    } else {
      assert c[..k] == c;
    }
  }

  // The counters of the renaming loop after the first k states.
  ghost predicate Renamings(c: seq<nat>, nb: nat, nunbounded: nat, k: nat, rename: seq<nat>, unbounded: nat,
                            bounded: nat) {
    && |rename| == k <= |c| && unbounded == CountAbove(c[..k], nb) && bounded + unbounded == k
    && (forall q :: 0 <= q < k ==> rename[q] < (if c[q] > nb then unbounded else nunbounded + bounded))
    && (forall q :: 0 <= q < k && c[q] <= nb ==> nunbounded <= rename[q])
    && Distinct(rename)
  }

  lemma RenamingStarts(c: seq<nat>, nb: nat, nunbounded: nat)
    ensures Renamings(c, nb, nunbounded, 0, [], 0, 0) && KeepsOrder(c, nb, [])
  {
  }

  lemma RenamingStep(c: seq<nat>, nb: nat, nunbounded: nat, k: nat, rename: seq<nat>, unbounded: nat, bounded: nat)
    requires Renamings(c, nb, nunbounded, k, rename, unbounded, bounded) && k < |c| && nunbounded == CountAbove(c, nb)
    ensures c[k] > nb ==> Renamings(c, nb, nunbounded, k + 1, rename + [unbounded], unbounded + 1, bounded)
    ensures c[k] <= nb ==> Renamings(c, nb, nunbounded, k + 1, rename + [nunbounded + bounded], unbounded, bounded + 1)
  {
    CountNext(c, nb, k);
    hide CountAbove, Distinct;
    NewName(rename, if c[k] > nb then unbounded else nunbounded + bounded);
  }

  lemma NewName(rename: seq<nat>, x: nat)
    requires Distinct(rename) && forall q :: 0 <= q < |rename| ==> rename[q] != x
    ensures Distinct(rename + [x])
  {
  }

  // A state adds to one of the two groups, and neither outgrows its share.
  lemma CountNext(c: seq<nat>, nb: nat, k: nat)
    requires k < |c|
    ensures CountAbove(c[..k + 1], nb) == CountAbove(c[..k], nb) + Flag(c[k] > nb)
    ensures CountAbove(c[..k + 1], nb) <= CountAbove(c, nb)
    ensures k + 1 - CountAbove(c[..k + 1], nb) <= |c| - CountAbove(c, nb)
  {
    assert c[..k + 1][..k] == c[..k];
    CountAbovePrefix(c, nb, k + 1);
  }

  lemma OrderStep(c: seq<nat>, nb: nat, nunbounded: nat, k: nat, rename: seq<nat>, unbounded: nat, bounded: nat)
    requires Renamings(c, nb, nunbounded, k, rename, unbounded, bounded) && k < |c| && KeepsOrder(c, nb, rename)
    ensures c[k] > nb ==> KeepsOrder(c, nb, rename + [unbounded])
    ensures c[k] <= nb ==> KeepsOrder(c, nb, rename + [nunbounded + bounded])
  {
    hide CountAbove;
  }

  lemma RenamingEnds(c: seq<nat>, nb: nat, nunbounded: nat, rename: seq<nat>, unbounded: nat, bounded: nat)
    requires Renamings(c, nb, nunbounded, |c|, rename, unbounded, bounded) && nunbounded == CountAbove(c, nb) &&
        KeepsOrder(c, nb, rename)
    ensures Splits(c, nb, nunbounded, rename) && unbounded == nunbounded
  {
    assert c[..|c|] == c;
    hide CountAbove;
  }

  // The counter kept during saturation is the number of unbounded states, so the two groups meet
  // exactly and the renaming is a permutation.
  method ComputeRename(c: seq<nat>, nb: nat, nunbounded: nat) returns (rename: seq<nat>)
    requires nunbounded == CountAbove(c, nb)
    ensures Splits(c, nb, nunbounded, rename)
  {
    hide Renamings, KeepsOrder, Splits;
    rename := [];
    var bounded, unbounded: nat := 0, 0;
    RenamingStarts(c, nb, nunbounded);
    for src := 0 to |c|
      invariant |rename| == src
      invariant Renamings(c, nb, nunbounded, src, rename, unbounded, bounded) && KeepsOrder(c, nb, rename)
    {
      RenamingStep(c, nb, nunbounded, src, rename, unbounded, bounded);
      OrderStep(c, nb, nunbounded, src, rename, unbounded, bounded);
      if c[src] > nb {
        rename := rename + [unbounded];
        unbounded := unbounded + 1;
      } else {
        rename := rename + [nunbounded + bounded];
        bounded := bounded + 1;
      }
    }
    RenamingEnds(c, nb, nunbounded, rename, unbounded, bounded);
  }

  // After the pass the states from `nunbounded` on do not accept and are entered from each other only.
  lemma RenamedIsSaturated(aut: Automaton, c: seq<nat>, nb: nat, nunbounded: nat, rename: seq<nat>, aut': Automaton)
    requires aut.Valid() && Closed(aut, c, nb, |c|) && Splits(c, nb, nunbounded, rename)
    requires nunbounded == CountAbove(c, nb)
    requires IsRenaming(Erased(aut, c, nb), aut', rename)
    ensures aut'.Valid() && Saturated(aut', nunbounded, {})
  {
    CountAboveLength(c, nb);
    hide CountAbove;
    forall q: nat | q < |rename|
      ensures nunbounded <= q ==> !aut'.acc[q]
      ensures forall j :: 0 <= j < |aut'.out[q]| ==>
                aut'.out[q][j].dst < |rename| && (nunbounded <= aut'.out[q][j].dst ==> nunbounded <= q)
    {
      Pigeonhole(rename, q);
      var p :| 0 <= p < |rename| && rename[p] == q;
      RenamedState(aut, c, nb, nunbounded, rename, aut', p);
    }
  }

  lemma RenamedState(aut: Automaton, c: seq<nat>, nb: nat, nunbounded: nat, rename: seq<nat>, aut': Automaton, p: nat)
    requires aut.Valid() && Closed(aut, c, nb, |c|) && Splits(c, nb, nunbounded, rename) && p < |rename|
    requires IsRenaming(Erased(aut, c, nb), aut', rename)
    ensures var q := rename[p];
            && (nunbounded <= q ==> !aut'.acc[q])
            && forall j :: 0 <= j < |aut'.out[q]| ==>
                 aut'.out[q][j].dst < |rename| && (nunbounded <= aut'.out[q][j].dst ==> nunbounded <= q)
  {
    var q, es := rename[p], aut.out[p];
    assert RenamedAt(Erased(aut, c, nb), aut', rename, p);
    assert ClosedAt(aut, c, nb, p, |es|);
    forall j | 0 <= j < |aut'.out[q]|
      ensures aut'.out[q][j].dst < |rename| && (nunbounded <= aut'.out[q][j].dst ==> nunbounded <= q)
    {
      assert aut'.out[q][j].dst == rename[es[j].dst];
    }
  }

  // The whole pass, as called on a freshly translated automaton.  The renamed automaton has the
  // same infinite verdicts; bounds on its runs and on the original's differ by at most nb.
  method FindBooleanStates(aut: Automaton)
    returns (aut': Automaton, nunbounded: nat, ghost c: seq<nat>, ghost rename: seq<nat>)
    requires aut.Valid()
    ensures aut'.Valid() && Saturated(aut', nunbounded, {}) && aut'.Size() == aut.Size()
    ensures var nb := CountAcc(aut.acc);
            && nb == |AcceptingStates(aut.acc)| && nunbounded == |StatesAbove(c, nb)|
            && |c| == aut.Size() && IsSaturation(aut, c, nb) && nunbounded == CountAbove(c, nb)
            && Splits(c, nb, nunbounded, rename) && IsRenaming(Erased(aut, c, nb), aut', rename)
  {
    var values, nb;
    values, nunbounded, nb := Saturate(aut);
    c := values[..];
    var named := ComputeRename(values[..], nb, nunbounded);
    aut' := RenameStates(Erased(aut, values[..], nb), named);
    rename := named;
    hide IsSaturation, IsRenaming, Erased, Splits, AcceptingStates, StatesAbove;
    RenamedIsSaturated(aut, c, nb, nunbounded, rename, aut');
  }

  // What the pass does to the game.
  lemma PassBounds(aut: Automaton, c: seq<nat>, rename: seq<nat>, nunbounded: nat, aut': Automaton, strat: Strategy,
                   ins: set<Bits>, K: int)
    requires aut.Valid() && Closed(aut, c, CountAcc(aut.acc), |c|)
    requires IsRenaming(Erased(aut, c, CountAcc(aut.acc)), aut', rename)
    ensures Bounds(strat, aut, ins, K) ==> Bounds(strat, aut', ins, K)
    ensures Bounds(strat, aut', ins, K) ==> Bounds(strat, aut, ins, K + CountAcc(aut.acc))
  {
    var nb := CountAcc(aut.acc);
    hide Closed, IsRenaming, Erased, Bounds, CountAcc;
    ErasedBounds(aut, c, nb, strat, ins, K);
    RenamedBounds(Erased(aut, c, nb), aut', rename, strat, ins, K);
  }

  // --- The values computed ----------------------------------------------------------------------------

  // What the saturation starts with: 1 at an accepting initial state.
  function StartValue(aut: Automaton, q: nat): nat {
    if q == aut.init && q < |aut.acc| && aut.acc[q] then 1 else 0
  }

  // The accepting states a walk leaves, with the initial state counted once more if it starts there.
  ghost function Passed(aut: Automaton, w: seq<nat>): nat
    requires w != []
  {
    if |w| == 1 then StartValue(aut, w[0])
    else Passed(aut, w[..|w| - 1]) + (if IsAccepting(aut, w[|w| - 2]) then 1 else 0)
  }

  ghost predicate WalkTo(aut: Automaton, w: seq<nat>, q: nat) {
    w != [] && IsWalk(aut, w) && w[|w| - 1] == q
  }

  ghost predicate Attained(aut: Automaton, q: nat, x: nat) {
    exists w :: WalkTo(aut, w, q) && x <= Passed(aut, w)
  }

  // No value is larger than some walk justifies.
  ghost predicate Justified(aut: Automaton, c: seq<nat>) {
    && |c| == |aut.out| && aut.init < |c| && StartValue(aut, aut.init) <= c[aut.init]
    && forall q :: 0 <= q < |c| ==> Attained(aut, q, c[q])
  }

  ghost predicate IsSaturation(aut: Automaton, c: seq<nat>, nb: nat) {
    Closed(aut, c, nb, |c|) && Justified(aut, c) && Capped(c, nb + 1)
  }

  lemma StartAttained(aut: Automaton, q: nat)
    requires aut.Valid() && q < aut.Size()
    ensures Attained(aut, q, StartValue(aut, q))
  {
    assert WalkTo(aut, [q], q) && Passed(aut, [q]) == StartValue(aut, q);
  }

  lemma StepAttained(aut: Automaton, p: nat, q: nat, x: nat, y: nat)
    requires aut.Valid() && Attained(aut, p, x) && Linked(aut, p, q) && q < aut.Size()
    requires y <= x + (if IsAccepting(aut, p) then 1 else 0)
    ensures Attained(aut, q, y)
  {
    var w :| WalkTo(aut, w, p) && x <= Passed(aut, w);
    hide Linked;
    var w' := w + [q];
    assert w'[..|w|] == w;
    forall k | 0 < k < |w'|
      ensures Linked(aut, w'[k - 1], w'[k])
    {
      if k < |w| {
        assert Linked(aut, w[k - 1], w[k]);
      }
    }
    assert WalkTo(aut, w', q) && Passed(aut, w') == Passed(aut, w) + (if IsAccepting(aut, p) then 1 else 0);
  }

  // No walk is missed: its weight, capped, is at most the value of the state it ends in.
  lemma {:induction false} WalksCounted(aut: Automaton, c: seq<nat>, nb: nat, w: seq<nat>)
    requires IsSaturation(aut, c, nb) && aut.Valid() && w != [] && IsWalk(aut, w)
    ensures w[|w| - 1] < |c| && Cap(Passed(aut, w), nb + 1) <= c[w[|w| - 1]]
  {
    var n := |w| - 1;
    hide Linked;
    if n > 0 {
      WalksCounted(aut, c, nb, w[..n]);
      assert Linked(aut, w[n - 1], w[n]);
      LinkedGrows(aut, c, nb, w[n - 1], w[n]);
    }
  }

  lemma LinkedGrows(aut: Automaton, c: seq<nat>, nb: nat, p: nat, q: nat)
    requires Closed(aut, c, nb, |c|) && Linked(aut, p, q) && p < |c|
    ensures q < |c| && Cap(c[p] + Flag(aut.acc[p]), nb + 1) <= c[q]
  {
    assert ClosedAt(aut, c, nb, p, |aut.out[p]|);
  }

  // The value of a state is the largest number of accepting states a walk into it passes, up to nb + 1.
  lemma ValueExact(aut: Automaton, c: seq<nat>, nb: nat, q: nat, x: nat)
    requires IsSaturation(aut, c, nb) && aut.Valid() && q < |c| && x <= nb + 1
    ensures x <= c[q] <==> Attained(aut, q, x)
  {
    hide Closed, Passed, IsWalk;
    if Attained(aut, q, x) {
      var w :| WalkTo(aut, w, q) && x <= Passed(aut, w);
      WalksCounted(aut, c, nb, w);
    }
    if x <= c[q] {
      var w :| WalkTo(aut, w, q) && c[q] <= Passed(aut, w);
    }
  }

  // A state is found bounded exactly when no walk into it passes more than nb accepting states.
  lemma BoundedExactly(aut: Automaton, c: seq<nat>, nb: nat, q: nat)
    requires IsSaturation(aut, c, nb) && aut.Valid() && q < |c|
    ensures Bounded(c, nb, q) <==> forall w :: WalkTo(aut, w, q) ==> Passed(aut, w) <= nb
  {
    hide Closed, Passed;
    if Bounded(c, nb, q) {
      forall w | WalkTo(aut, w, q)
        ensures Passed(aut, w) <= nb
      {
        WalksCounted(aut, c, nb, w);
      }
    } else {
      assert Attained(aut, q, c[q]);
    }
  }

  // The accepting states a walk leaves, nothing else: what a bounded state is meant to limit.
  ghost function Left(aut: Automaton, w: seq<nat>): nat {
    if |w| <= 1 then 0 else Left(aut, w[..|w| - 1]) + (if IsAccepting(aut, w[|w| - 2]) then 1 else 0)
  }

  lemma {:induction false} PassedIsLeft(aut: Automaton, w: seq<nat>)
    requires w != []
    ensures Passed(aut, w) == Left(aut, w) + StartValue(aut, w[0])
  {
    if |w| > 1 {
      PassedIsLeft(aut, w[..|w| - 1]);
    }
  }

  // No walk into q leaves more than nb accepting states.
  ghost predicate PlainlyBounded(aut: Automaton, nb: nat, q: nat) {
    forall w :: WalkTo(aut, w, q) ==> Left(aut, w) <= nb
  }

  ghost predicate ExactlyFromInit(aut: Automaton, nb: nat, q: nat) {
    exists w :: WalkTo(aut, w, q) && w[0] == aut.init && Left(aut, w) == nb
  }

  // What the pass finds is the plain property, unless the initial state accepts, some walk from it
  // reaches q after leaving exactly nb accepting states, and no walk into q leaves more.
  lemma FoundIffPlainlyBounded(aut: Automaton, c: seq<nat>, nb: nat, q: nat)
    requires IsSaturation(aut, c, nb) && aut.Valid() && q < |c|
    ensures (Bounded(c, nb, q) <==> PlainlyBounded(aut, nb, q)) <==>
            !PlainlyBounded(aut, nb, q) || !(aut.acc[aut.init] && ExactlyFromInit(aut, nb, q))
  {
    BoundedExactly(aut, c, nb, q);
    hide IsSaturation, Left, Passed, IsWalk;
    forall w | WalkTo(aut, w, q)
      ensures Passed(aut, w) == Left(aut, w) + StartValue(aut, w[0])
    {
      PassedIsLeft(aut, w);
    }
  }

  function CountedTwice(l: Letter): Automaton {
    Automaton(0, [true, false], [[Edge(1, {l})], [Edge(1, {l})]])
  }

  // Counting an accepting initial state twice makes the pass miss a bounded state: here no walk
  // into state 1 leaves more than one accepting state, and one is how many there are.
  lemma InitialStateCountedTwice(l: Letter, c: seq<nat>)
    requires IsSaturation(CountedTwice(l), c, CountAcc(CountedTwice(l).acc))
    ensures CountAcc(CountedTwice(l).acc) == 1 && PlainlyBounded(CountedTwice(l), 1, 1) && !Bounded(c, 1, 1)
    ensures forall r, w :: IsRun(CountedTwice(l), w, r) ==> Visits(CountedTwice(l), r) <= 1
  {
    var aut := CountedTwice(l);
    assert CountAcc([true, false]) == 1 by {
      assert [true, false][..1] == [true];
    }
    assert ClosedAt(aut, c, 1, 0, 1);
    assert aut.out[0][0].dst == 1;
    forall w | WalkTo(aut, w, 1)
      ensures Left(aut, w) <= 1
    {
      LeavesOnce(l, w);
    }
    forall r, w | IsRun(aut, w, r)
      ensures Visits(aut, r) <= 1
    {
      NeverBackAtZero(l, w, r);
    }
  }

  lemma {:induction false} NeverBackAtZero(l: Letter, w: seq<Letter>, r: seq<nat>)
    requires IsRun(CountedTwice(l), w, r)
    ensures Visits(CountedTwice(l), r) == 0
  {
    if w != [] {
      NeverBackAtZero(l, w[..|w| - 1], r[..|w|]);
    }
  }

  lemma {:induction false} LeavesOnce(l: Letter, w: seq<nat>)
    requires IsWalk(CountedTwice(l), w) && w != []
    ensures Left(CountedTwice(l), w) <= (if w[|w| - 1] == 0 then 0 else 1)
    ensures |w| > 1 ==> w[|w| - 1] == 1
  {
    var aut, n := CountedTwice(l), |w| - 1;
    if n > 0 {
      assert Linked(aut, w[n - 1], w[n]);
      LeavesOnce(l, w[..n]);
      assert aut.out[w[n - 1]][0].dst == 1;
    }
  }
}
