/**
  Counter vectors and the downsets the solver manipulates.  A downset is kept as the list
  of its generators; a vector belongs to it when some generator dominates it.
*/
module Vectors {
  type Vec = seq<int>

  function Min(x: int, y: int): int {
    if x <= y then x else y
  }

  function Max(x: int, y: int): int {
    if x <= y then y else x
  }

  // Component `i`, where a component outside the vector reads as "no run here".
  function At(v: Vec, i: nat): int {
    if i < |v| then v[i] else -1
  }

  predicate Leq(u: Vec, v: Vec) {
    |u| == |v| && forall i :: 0 <= i < |u| ==> u[i] <= v[i]
  }

  predicate Contains(F: seq<Vec>, v: Vec) {
    exists k | 0 <= k < |F| :: Leq(v, F[k])
  }

  // Counter states are those below `t`; they range over -1..K-1, Boolean states over -1..0.
  function Top(i: nat, t: nat, K: int): int {
    if i < t then K - 1 else 0
  }

  predicate InBox(v: Vec, n: nat, t: nat, K: int) {
    |v| == n && forall i :: 0 <= i < n ==> -1 <= v[i] <= Top(i, t, K)
  }

  predicate AllInBox(F: seq<Vec>, n: nat, t: nat, K: int) {
    forall k :: 0 <= k < |F| ==> InBox(F[k], n, t, K)
  }

  ghost function Box(n: nat, t: nat, K: int): iset<Vec> {
    iset v: Vec | InBox(v, n, t, K)
  }

  // The vectors of the box that lie in the downset generated by F.
  ghost function Down(F: seq<Vec>, n: nat, t: nat, K: int): iset<Vec> {
    iset v: Vec | InBox(v, n, t, K) && Contains(F, v)
  }

  lemma LeqTransitive(u: Vec, v: Vec, w: Vec)
    requires Leq(u, v) && Leq(v, w)
    ensures Leq(u, w)
  {
  }

  lemma ContainsDownward(F: seq<Vec>, u: Vec, v: Vec)
    requires Leq(u, v) && Contains(F, v)
    ensures Contains(F, u)
  {
    var k :| 0 <= k < |F| && Leq(v, F[k]);
    assert Leq(u, F[k]);
  }

  lemma ContainsAppend(F: seq<Vec>, G: seq<Vec>, v: Vec)
    ensures Contains(F + G, v) <==> Contains(F, v) || Contains(G, v)
  {
    if Contains(F, v) {
      var k :| 0 <= k < |F| && Leq(v, F[k]);
      assert (F + G)[k] == F[k];
    }
    if Contains(G, v) {
      var k :| 0 <= k < |G| && Leq(v, G[k]);
      assert (F + G)[|F| + k] == G[k];
    }
  }

  // A vector in the downset of boxed generators is itself boxed, if it has no entry below -1.
  lemma ContainedInBox(F: seq<Vec>, v: Vec, n: nat, t: nat, K: int)
    requires AllInBox(F, n, t, K) && Contains(F, v)
    requires forall i :: 0 <= i < |v| ==> -1 <= v[i]
    ensures InBox(v, n, t, K)
  {
  }

  function Meet(u: Vec, v: Vec): Vec {
    seq(|u|, i requires 0 <= i < |u| => Min(u[i], At(v, i)))
  }

  // Pairwise minima: the generators of an intersection of downsets.
  function Meets(F: seq<Vec>, G: seq<Vec>): seq<Vec> {
    if F == [] then [] else seq(|G|, k requires 0 <= k < |G| => Meet(F[0], G[k])) + Meets(F[1..], G)
  }

  predicate HaveDimension(F: seq<Vec>, n: nat) {
    forall k :: 0 <= k < |F| ==> |F[k]| == n
  }

  lemma {:induction false} MeetsIsIntersection(F: seq<Vec>, G: seq<Vec>, n: nat, v: Vec)
    requires HaveDimension(F, n) && HaveDimension(G, n)
    ensures Contains(Meets(F, G), v) <==> Contains(F, v) && Contains(G, v)
  {
    if F != [] {
      var row := seq(|G|, k requires 0 <= k < |G| => Meet(F[0], G[k]));
      assert F == [F[0]] + F[1..];
      ContainsAppend(row, Meets(F[1..], G), v);
      ContainsAppend([F[0]], F[1..], v);
      MeetsIsIntersection(F[1..], G, n, v);
      assert Contains([F[0]], v) <==> Leq(v, F[0]) by {
        assert [F[0]][0] == F[0];
      }
      if Leq(v, F[0]) && Contains(G, v) {
        var k :| 0 <= k < |G| && Leq(v, G[k]);
        assert row[k] == Meet(F[0], G[k]);
      }
      if Contains(row, v) {
        var k :| 0 <= k < |row| && Leq(v, row[k]);
      }
    }
  }

  lemma {:induction false} MeetsInBox(F: seq<Vec>, G: seq<Vec>, n: nat, t: nat, K: int)
    requires AllInBox(F, n, t, K) && AllInBox(G, n, t, K)
    ensures AllInBox(Meets(F, G), n, t, K)
  {
    if F != [] {
      MeetsInBox(F[1..], G, n, t, K);
      var row := seq(|G|, k requires 0 <= k < |G| => Meet(F[0], G[k]));
      forall k | 0 <= k < |row|
        ensures InBox(row[k], n, t, K)
      {
        var m := Meet(F[0], G[k]);
        assert forall i :: 0 <= i < n ==> m[i] == F[0][i] || m[i] == G[k][i];
      }
      assert Meets(F, G) == row + Meets(F[1..], G);
    }
  }

  // A vector of length n holding x everywhere.
  function Fill(n: nat, x: int): Vec {
    seq(n, _ => x)
  }

  // The start of the game: -1 everywhere except 0 at the automaton's initial state.
  function InitVec(n: nat, init: nat): Vec
    requires init < n
  {
    Fill(n, -1)[init := 0]
  }

  // All vectors of length n with entries in -1..hi: the finite space in which `solve` moves.
  ghost function Space(n: nat, hi: int): set<Vec> {
    if n == 0 then {[]}
    else set v, x | v in Space(n - 1, hi) && -1 <= x <= hi :: v + [x]
  }

  lemma {:induction false} SpaceHas(n: nat, hi: int, v: Vec)
    requires |v| == n && forall i :: 0 <= i < n ==> -1 <= v[i] <= hi
    ensures v in Space(n, hi)
  {
    if n > 0 {
      var u, x := v[..n - 1], v[n - 1];
      SpaceHas(n - 1, hi, u);
      assert v == u + [x];
    }
  }

  // The part of the space dominated by F; shrinks strictly at every step of `solve` at a fixed K.
  ghost function Volume(F: seq<Vec>, n: nat, hi: int): set<Vec> {
    set v | v in Space(n, hi) && Contains(F, v)
  }
}
