/**
  Renaming the states of an automaton by a permutation, as the graph library does in place.
*/
module Renaming {
  import opened Automata
  import opened Counting
  import opened Runs

  function RenamedEdges(es: seq<Edge>, rename: seq<nat>): seq<Edge>
    requires forall j :: 0 <= j < |es| ==> es[j].dst < |rename|
  {
    seq(|es|, j requires 0 <= j < |es| => es[j].(dst := rename[es[j].dst]))
  }

  // aut' is aut with state q called rename[q].
  ghost predicate IsRenaming(aut: Automaton, aut': Automaton, rename: seq<nat>) {
    && aut.Valid() && aut'.Size() == |aut'.acc| == aut.Size() == |rename|
    && (forall q :: 0 <= q < |rename| ==> rename[q] < |rename|)
    && aut'.init == rename[aut.init]
    && forall q :: 0 <= q < |rename| ==> RenamedAt(aut, aut', rename, q)
  }

  ghost predicate RenamedAt(aut: Automaton, aut': Automaton, rename: seq<nat>, q: nat)
    requires aut.Valid() && aut'.Size() == |aut'.acc| == aut.Size() == |rename| && q < |rename| && rename[q] < |rename|
  {
    aut'.acc[rename[q]] == aut.acc[q] && aut'.out[rename[q]] == RenamedEdges(aut.out[q], rename)
  }

  method RenameStates(aut: Automaton, rename: seq<nat>) returns (aut': Automaton)
    requires aut.Valid() && |rename| == aut.Size() && Distinct(rename)
    requires forall q :: 0 <= q < |rename| ==> rename[q] < |rename|
    ensures IsRenaming(aut, aut', rename)
  {
    var acc, out := aut.acc, aut.out;
    hide RenamedEdges;
    for q := 0 to |rename|
      invariant |acc| == |out| == |rename|
      invariant forall p :: 0 <= p < q ==>
          acc[rename[p]] == aut.acc[p] && out[rename[p]] == RenamedEdges(aut.out[p], rename)
    {
      acc := acc[rename[q] := aut.acc[q]];
      out := out[rename[q] := RenamedEdges(aut.out[q], rename)];
    }
    aut' := Automaton(rename[aut.init], acc, out);
  }

  lemma RenamingValid(aut: Automaton, aut': Automaton, rename: seq<nat>)
    requires IsRenaming(aut, aut', rename) && Distinct(rename)
    ensures aut'.Valid()
  {
    forall q: nat, j | q < |rename| && 0 <= j < |aut'.out[q]|
      ensures aut'.out[q][j].dst < |rename|
    {
      Pigeonhole(rename, q);
      var p :| 0 <= p < |rename| && rename[p] == q;
      assert RenamedAt(aut, aut', rename, p);
      assert aut'.out[q][j].dst == rename[aut.out[p][j].dst];
    }
  }

  // Transitions of the renamed automaton are the renamed transitions.
  lemma RenamedSteps(aut: Automaton, aut': Automaton, rename: seq<nat>, p: nat, q': nat, l: Letter)
    requires IsRenaming(aut, aut', rename) && p < |rename|
    ensures Steps(aut', rename[p], q', l) <==> exists q: nat :: q < |rename| && q' == rename[q] && Steps(aut, p, q, l)
  {
    assert RenamedAt(aut, aut', rename, p);
    var es, es' := aut.out[p], aut'.out[rename[p]];
    if Steps(aut', rename[p], q', l) {
      var e' :| e' in es' && e'.dst == q' && l in e'.cond;
      var j :| 0 <= j < |es'| && es'[j] == e';
      assert es[j] in es && l in es[j].cond && q' == rename[es[j].dst];
      assert Steps(aut, p, es[j].dst, l);
    }
    if exists q: nat :: q < |rename| && q' == rename[q] && Steps(aut, p, q, l) {
      var q: nat :| q < |rename| && q' == rename[q] && Steps(aut, p, q, l);
      var e :| e in es && e.dst == q && l in e.cond;
      var j :| 0 <= j < |es| && es[j] == e;
      assert es'[j] in es' && es'[j].dst == q' && l in es'[j].cond;
    }
  }

  // --- Runs -----------------------------------------------------------------------------------------

  ghost function MapRun(r: seq<nat>, rename: seq<nat>): seq<nat> {
    seq(|r|, k requires 0 <= k < |r| => if r[k] < |rename| then rename[r[k]] else 0)
  }

  lemma MapStep(aut: Automaton, aut': Automaton, rename: seq<nat>, p: nat, q: nat, l: Letter)
    requires IsRenaming(aut, aut', rename) && Steps(aut, p, q, l)
    ensures p < |rename| && q < |rename| && Steps(aut', rename[p], rename[q], l)
  {
    StepsTarget(aut, p, q, l);
    hide Steps;
    RenamedSteps(aut, aut', rename, p, rename[q], l);
  }

  lemma MapIsRun(aut: Automaton, aut': Automaton, rename: seq<nat>, w: seq<Letter>, r: seq<nat>)
    requires IsRenaming(aut, aut', rename) && IsRun(aut, w, r)
    ensures IsRun(aut', w, MapRun(r, rename)) && forall k :: 0 <= k < |r| ==> r[k] < |rename|
  {
    var r' := MapRun(r, rename);
    forall k: nat | k < |r|
      ensures r[k] < |rename|
    {
      RunsInside(aut, w, r, k);
    }
    hide Steps, RenamedAt;
    forall k | 0 <= k < |w|
      ensures Steps(aut', r'[k], r'[k + 1], w[k])
    {
      MapStep(aut, aut', rename, r[k], r[k + 1], w[k]);
    }
  }

  lemma {:induction false} MapVisits(aut: Automaton, aut': Automaton, rename: seq<nat>, r: seq<nat>)
    requires IsRenaming(aut, aut', rename) && forall k :: 0 <= k < |r| ==> r[k] < |rename|
    ensures Visits(aut', MapRun(r, rename)) == Visits(aut, r)
  {
    if |r| > 1 {
      var n := |r| - 1;
      MapVisits(aut, aut', rename, r[..n]);
      assert MapRun(r, rename)[..n] == MapRun(r[..n], rename);
      assert RenamedAt(aut, aut', rename, r[n]);
    }
  }

  // Every run of the renamed automaton is a renamed run.
  lemma {:induction false} RunIsMapped(aut: Automaton, aut': Automaton, rename: seq<nat>, w: seq<Letter>, r': seq<nat>)
    returns (r: seq<nat>)
    requires IsRenaming(aut, aut', rename) && IsRun(aut', w, r')
    ensures IsRun(aut, w, r) && MapRun(r, rename) == r'
  {
    hide Steps, RenamedAt;
    if w == [] {
      r := [aut.init];
      assert MapRun(r, rename) == r';
    } else {
      var n := |w| - 1;
      var s := RunIsMapped(aut, aut', rename, w[..n], r'[..|w|]);
      MapIsRun(aut, aut', rename, w[..n], s);
      assert MapRun(s, rename)[n] == rename[s[n]] == r'[n];
      RenamedSteps(aut, aut', rename, s[n], r'[|w|], w[n]);
      var q: nat :| q < |rename| && r'[|w|] == rename[q] && Steps(aut, s[n], q, w[n]);
      r := s + [q];
    }
  }

  // Renaming changes no verdict.
  lemma RenamedBounds(aut: Automaton, aut': Automaton, rename: seq<nat>, strat: Strategy, ins: set<Bits>, K: int)
    requires IsRenaming(aut, aut', rename)
    ensures Bounds(strat, aut', ins, K) <==> Bounds(strat, aut, ins, K)
  {
    hide IsRenaming, Visits, IsRun;
    forall w
      ensures WordBounded(aut', w, K) <==> WordBounded(aut, w, K)
    {
      if WordBounded(aut', w, K) {
        forall r | IsRun(aut, w, r)
          ensures Visits(aut, r) < K
        {
          MapIsRun(aut, aut', rename, w, r);
          MapVisits(aut, aut', rename, r);
        }
      }
      if WordBounded(aut, w, K) {
        forall r' | IsRun(aut', w, r')
          ensures Visits(aut', r') < K
        {
          var r := RunIsMapped(aut, aut', rename, w, r');
          MapIsRun(aut, aut', rename, w, r);
          MapVisits(aut, aut', rename, r);
        }
      }
    }
    hide WordBounded;
  }
}
