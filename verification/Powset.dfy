/**
  Unambiguous refinement of a collection of sets: the coarsest partition of the universe that
  decides every formula, each block with the list of the formulas that cover it.
*/
module Powset {
  // A formula is the set of valuations that satisfy it, with the transition (set) it labels.
  type Formulas<L, X> = seq<(set<L>, X)>

  type Block<L, X> = (set<L>, seq<X>)

  // l and l' satisfy the same formulas.
  ghost predicate SameSide<L, X>(fs: Formulas<L, X>, l: L, l': L) {
    forall k :: 0 <= k < |fs| ==> (l in fs[k].0 <==> l' in fs[k].0)
  }

  ghost function Cell<L, X>(U: set<L>, fs: Formulas<L, X>, l: L): set<L> {
    set l' | l' in U && SameSide(fs, l, l')
  }

  // The payloads of the formulas that contain l, in order.
  ghost function Cover<L, X>(fs: Formulas<L, X>, l: L): seq<X> {
    if fs == [] then []
    else
      var f := fs[|fs| - 1];
      Cover(fs[..|fs| - 1], l) + (if l in f.0 then [f.1] else [])
  }

  // The block is a whole nonempty cell, with its cover.
  ghost predicate IsCell<L, X>(U: set<L>, fs: Formulas<L, X>, b: Block<L, X>) {
    && b.0 != {} && b.0 <= U
    && forall l :: l in b.0 ==> b.0 == Cell(U, fs, l) && b.1 == Cover(fs, l)
  }

  ghost predicate Disjoint<L, X>(P: seq<Block<L, X>>) {
    forall j, k :: 0 <= j < k < |P| ==> P[j].0 !! P[k].0
  }

  ghost predicate InSome<L, X>(P: seq<Block<L, X>>, l: L) {
    exists k :: 0 <= k < |P| && l in P[k].0
  }

  ghost predicate CoversAll<L, X>(U: set<L>, P: seq<Block<L, X>>) {
    forall l :: l in U ==> InSome(P, l)
  }

  // Blocks are nonempty, disjoint, cover the universe, and each is a cell with exactly its cover.
  ghost predicate IsPartition<L, X>(U: set<L>, fs: Formulas<L, X>, P: seq<Block<L, X>>) {
    && (forall k :: 0 <= k < |P| ==> IsCell(U, fs, P[k]))
    && CoversAll(U, P) && Disjoint(P)
  }

  lemma SameSideSnoc<L, X>(fs: Formulas<L, X>, f: (set<L>, X), l: L, l': L)
    ensures SameSide(fs + [f], l, l') <==> SameSide(fs, l, l') && (l in f.0 <==> l' in f.0)
  {
    var gs := fs + [f];
    assert gs[|fs|] == f && forall k :: 0 <= k < |fs| ==> gs[k] == fs[k];
    if SameSide(gs, l, l') {
      forall k | 0 <= k < |fs|
        ensures l in fs[k].0 <==> l' in fs[k].0
      {
        assert gs[k] == fs[k];
      }
    }
  }

  lemma CoverSnoc<L, X>(fs: Formulas<L, X>, f: (set<L>, X), l: L)
    ensures Cover(fs + [f], l) == Cover(fs, l) + (if l in f.0 then [f.1] else [])
  {
    assert (fs + [f])[..|fs|] == fs;
  }

  // Cutting a cell by one more formula gives cells of the longer list.
  lemma PieceIsCell<L, X>(U: set<L>, fs: Formulas<L, X>, f: (set<L>, X), b: Block<L, X>, inside: bool)
    requires IsCell(U, fs, b)
    requires (if inside then b.0 * f.0 else b.0 - f.0) != {}
    ensures IsCell(U, fs + [f], (if inside then b.0 * f.0 else b.0 - f.0, if inside then b.1 + [f.1] else b.1))
  {
    hide SameSide, Cover;
    var piece := if inside then b.0 * f.0 else b.0 - f.0;
    forall l | l in piece
      ensures piece == Cell(U, fs + [f], l)
      ensures (if inside then b.1 + [f.1] else b.1) == Cover(fs + [f], l)
    {
      CoverSnoc(fs, f, l);
      forall l'
        ensures l' in piece <==> l' in Cell(U, fs + [f], l)
      {
        SameSideSnoc(fs, f, l, l');
        assert l' in b.0 <==> l' in Cell(U, fs, l);
      }
    }
  }

  // The state while one formula is being distributed: the first `it` blocks already take it
  // into account, the others do not yet.
  ghost predicate PassInv<L, X>(U: set<L>, fs: Formulas<L, X>, f: (set<L>, X), P: seq<Block<L, X>>, it: nat) {
    && it <= |P|
    && (forall k :: 0 <= k < it ==> IsCell(U, fs + [f], P[k]))
    && (forall k :: it <= k < |P| ==> IsCell(U, fs, P[k]))
    && CoversAll(U, P) && Disjoint(P)
  }

  // Replacing the payload of one block.
  lemma PassKeeps<L, X>(U: set<L>, fs: Formulas<L, X>, f: (set<L>, X), P: seq<Block<L, X>>, it: nat, xs: seq<X>)
    requires PassInv(U, fs, f, P, it) && it < |P|
    requires IsCell(U, fs + [f], (P[it].0, xs))
    ensures PassInv(U, fs, f, P[it := (P[it].0, xs)], it + 1)
  {
    hide IsCell;
    var P' := P[it := (P[it].0, xs)];
    forall l | l in U
      ensures InSome(P', l)
    {
      assert InSome(P, l);
      var k :| 0 <= k < |P| && l in P[k].0;
      assert l in P'[k].0;
    }
  }

  function Splitted<L, X>(P: seq<Block<L, X>>, it: nat, no: Block<L, X>, yes: Block<L, X>): seq<Block<L, X>>
    requires it < |P|
  {
    [no] + [yes] + P[..it] + P[it + 1..]
  }

  lemma SplittedCovers<L, X>(U: set<L>, P: seq<Block<L, X>>, it: nat, no: Block<L, X>, yes: Block<L, X>)
    requires it < |P| && CoversAll(U, P) && P[it].0 <= no.0 + yes.0
    ensures CoversAll(U, Splitted(P, it, no, yes))
  {
    var Q := Splitted(P, it, no, yes);
    hide Splitted;
    forall l | l in U
      ensures InSome(Q, l)
    {
      assert InSome(P, l);
      var k :| 0 <= k < |P| && l in P[k].0;
      if k == it {
        assert l in Q[0].0 || l in Q[1].0;
      } else {
        assert l in Q[if k < it then k + 2 else k + 1].0;
      }
    }
  }

  lemma SplittedDisjoint<L, X>(P: seq<Block<L, X>>, it: nat, no: Block<L, X>, yes: Block<L, X>)
    requires it < |P| && Disjoint(P) && no.0 !! yes.0 && no.0 <= P[it].0 && yes.0 <= P[it].0
    ensures Disjoint(Splitted(P, it, no, yes))
  {
    var Q := Splitted(P, it, no, yes);
    hide Splitted;
    forall j, k | 0 <= j < k < |Q|
      ensures Q[j].0 !! Q[k].0
    {
      var origin := (x: nat) => if x < 2 then it else if x < it + 2 then x - 2 else x - 1;
      if 2 <= k {
        assert Q[k] == P[origin(k)];
        assert Q[j].0 <= P[origin(j)].0;
        assert P[origin(j)].0 !! P[origin(k)].0;
      }
    }
  }

  lemma SplittedCells<L, X>(U: set<L>, fs: Formulas<L, X>, f: (set<L>, X), P: seq<Block<L, X>>, it: nat,
                            no: Block<L, X>, yes: Block<L, X>)
    requires it < |P| && IsCell(U, fs + [f], no) && IsCell(U, fs + [f], yes)
    requires forall k :: 0 <= k < it ==> IsCell(U, fs + [f], P[k])
    requires forall k :: it <= k < |P| ==> IsCell(U, fs, P[k])
    ensures |Splitted(P, it, no, yes)| == |P| + 1
    ensures forall k :: 0 <= k < it + 2 ==> IsCell(U, fs + [f], Splitted(P, it, no, yes)[k])
    ensures forall k :: it + 2 <= k < |P| + 1 ==> IsCell(U, fs, Splitted(P, it, no, yes)[k])
  {
    hide IsCell;
  }

  lemma PassSplits<L, X>(U: set<L>, fs: Formulas<L, X>, f: (set<L>, X), P: seq<Block<L, X>>, it: nat,
                         no: Block<L, X>, yes: Block<L, X>)
    requires PassInv(U, fs, f, P, it) && it < |P|
    requires no == (P[it].0 - f.0, P[it].1) && yes == (P[it].0 * f.0, P[it].1 + [f.1])
    requires no.0 != {} && yes.0 != {}
    ensures PassInv(U, fs, f, Splitted(P, it, no, yes), it + 2)
  {
    hide IsCell, Splitted, CoversAll, Disjoint;
    PieceIsCell(U, fs, f, P[it], true);
    PieceIsCell(U, fs, f, P[it], false);
    SplittedCells(U, fs, f, P, it, no, yes);
    SplittedCovers(U, P, it, no, yes);
    SplittedDisjoint(P, it, no, yes);
  }

  ghost function Projected<C, L, X>(formulas: seq<(C, X)>, proj: C -> set<L>): Formulas<L, X> {
    seq(|formulas|, k requires 0 <= k < |formulas| => (proj(formulas[k].0), formulas[k].1))
  }

  lemma WholeInside<L>(b: set<L>, mod: set<L>)
    requires b - mod == {}
    ensures b * mod == b
  {
    assert b == (b * mod) + (b - mod);
  }

  lemma ProjectedSnoc<C, L, X>(formulas: seq<(C, X)>, proj: C -> set<L>, k: nat)
    requires k < |formulas|
    ensures Projected(formulas[..k + 1], proj) ==
            Projected(formulas[..k], proj) + [(proj(formulas[k].0), formulas[k].1)]
  {
  }

  // One pass of the inner loop: distribute one formula over all blocks of the list.
  method Distribute<L(==), X>(P0: seq<Block<L, X>>, mod: set<L>, x: X, ghost U: set<L>, ghost fs: Formulas<L, X>)
    returns (P: seq<Block<L, X>>)
    requires IsPartition(U, fs, P0)
    ensures IsPartition(U, fs + [(mod, x)], P)
  {
    P := P0;
    ghost var f := (mod, x);
    var it := 0;
    hide IsCell, CoversAll, Disjoint;
    while it < |P|
      invariant PassInv(U, fs, f, P, it)
      decreases |P| - it
    {
      var both := P[it].0 * mod;
      BlockOutcome(U, fs, f, P[it]);
      if both != {} {
        var rest := P[it].0 - mod;
        if rest != {} {
          PassSplits(U, fs, f, P, it, (rest, P[it].1), (both, P[it].1 + [x]));
          P := Splitted(P, it, (rest, P[it].1), (both, P[it].1 + [x]));
          it := it + 2;
        } else {
          WholeInside(P[it].0, mod);
          PassKeeps(U, fs, f, P, it, P[it].1 + [x]);
          P := P[it := (both, P[it].1 + [x])];
          it := it + 1;
        }
      } else {
        PassKeeps(U, fs, f, P, it, P[it].1);
        assert P[it := (P[it].0, P[it].1)] == P;
        it := it + 1;
      }
    }
  }

  // A block the formula does not cut stays a cell.
  lemma BlockOutcome<L, X>(U: set<L>, fs: Formulas<L, X>, f: (set<L>, X), b: Block<L, X>)
    requires IsCell(U, fs, b)
    ensures b.0 * f.0 == {} ==> IsCell(U, fs + [f], b)
    ensures b.0 - f.0 == {} ==> IsCell(U, fs + [f], (b.0, b.1 + [f.1]))
  {
    if b.0 * f.0 == {} {
      assert b.0 == (b.0 * f.0) + (b.0 - f.0);
      assert b.0 - f.0 == b.0;
      PieceIsCell(U, fs, f, b, false);
    }
    if b.0 - f.0 == {} {
      assert b.0 == (b.0 * f.0) + (b.0 - f.0);
      assert b.0 * f.0 == b.0;
      PieceIsCell(U, fs, f, b, true);
    }
  }

  lemma TrivialPartition<L, X>(U: set<L>, P: seq<Block<L, X>>)
    requires U != {} && P == [(U, [])]
    ensures IsPartition(U, [], P)
  {
    forall l | l in U
      ensures U == Cell<L, X>(U, [], l) && InSome(P, l)
    {
      assert l in P[0].0;
    }
  }

  method Power<C, L(==), X>(U: set<L>, formulas: seq<(C, X)>, proj: C -> set<L>) returns (powset: seq<Block<L, X>>)
    requires U != {}
    ensures IsPartition(U, Projected(formulas, proj), powset)
  {
    powset := [(U, [])];
    TrivialPartition(U, powset);
    assert Projected(formulas[..0], proj) == [];
    hide IsPartition, Projected;
    for k := 0 to |formulas|
      invariant IsPartition(U, Projected(formulas[..k], proj), powset)
    {
      var mod := proj(formulas[k].0);
      powset := Distribute(powset, mod, formulas[k].1, U, Projected(formulas[..k], proj));
      ProjectedSnoc(formulas, proj, k);
    }
    assert formulas[..|formulas|] == formulas;
  }
}
