/**
  The same refinement computed with one fresh variable per block: the blocks a formula meets
  are read off the variables that survive the projection of one big disjunction.
*/
module FakeVars {
  import opened Powset

  type Blocks<L, X> = map<set<L>, seq<X>>

  // What the map means: its keys are exactly the cells, each with its cover.
  ghost predicate IsPartitionMap<L, X>(U: set<L>, fs: Formulas<L, X>, m: Blocks<L, X>) {
    && (forall b :: b in m ==> IsCell(U, fs, (b, m[b])))
    && (forall l :: l in U ==> Cell(U, fs, l) in m)
  }

  // The blocks listed by `power`, as a map.
  function AsMap<L, X>(P: seq<Block<L, X>>): Blocks<L, X> {
    if P == [] then map[]
    else
      var b := P[|P| - 1];
      AsMap(P[..|P| - 1])[b.0 := b.1]
  }

  lemma {:induction false} AsMapHas<L, X>(P: seq<Block<L, X>>, b: set<L>)
    ensures b in AsMap(P) <==> exists k :: 0 <= k < |P| && P[k].0 == b
    ensures b in AsMap(P) ==> exists k :: 0 <= k < |P| && P[k] == (b, AsMap(P)[b])
  {
    if P != [] {
      var init, last := P[..|P| - 1], P[|P| - 1];
      AsMapHas(init, b);
      if b in AsMap(init) {
        var k :| 0 <= k < |init| && init[k] == (b, AsMap(init)[b]);
        assert P[k] == init[k];
      }
      if exists k :: 0 <= k < |P| && P[k].0 == b {
        var k :| 0 <= k < |P| && P[k].0 == b;
        if k < |init| {
          assert init[k].0 == b;
        }
      }
      if b == last.0 {
        assert P[|P| - 1] == (b, AsMap(P)[b]);
      }
    }
  }

  lemma CellMember<L, X>(U: set<L>, fs: Formulas<L, X>, l: L)
    requires l in U
    ensures l in Cell(U, fs, l)
  {
  }

  lemma BlockOfLetter<L, X>(U: set<L>, fs: Formulas<L, X>, P: seq<Block<L, X>>, l: L)
    requires IsPartition(U, fs, P) && l in U
    ensures exists k :: 0 <= k < |P| && P[k] == (Cell(U, fs, l), Cover(fs, l))
  {
    hide Cell, Cover;
    assert InSome(P, l);
    var k :| 0 <= k < |P| && l in P[k].0;
    assert IsCell(U, fs, P[k]);
    assert P[k] == (Cell(U, fs, l), Cover(fs, l));
  }

  lemma SameEntry<L, X>(U: set<L>, fs: Formulas<L, X>, P: seq<Block<L, X>>, m: Blocks<L, X>, b: set<L>)
    requires IsPartition(U, fs, P) && IsPartitionMap(U, fs, m)
    ensures b in AsMap(P) <==> b in m
    ensures b in m ==> AsMap(P)[b] == m[b]
  {
    AsMapHas(P, b);
    hide AsMap, Cell, Cover, CoversAll, Disjoint;
    if b in m {
      assert IsCell(U, fs, (b, m[b]));
      var l :| l in b;
      BlockOfLetter(U, fs, P, l);
    }
    if b in AsMap(P) {
      var k :| 0 <= k < |P| && P[k] == (b, AsMap(P)[b]);
      assert IsCell(U, fs, P[k]);
      var l :| l in b;
      assert b == Cell(U, fs, l) && AsMap(P)[b] == Cover(fs, l);
      assert IsCell(U, fs, (b, m[b]));
    }
  }

  lemma MapsAgree<K, V>(m: map<K, V>, m': map<K, V>)
    requires forall b :: b in m ==> b in m' && m[b] == m'[b]
    requires forall b :: b in m' ==> b in m
    ensures m == m'
  {
  }

  lemma OneUpdate<V>(m: map<nat, V>, m': map<nat, V>, v: nat, x: V)
    requires v in m && forall a :: a in m' <==> a in m
    requires (forall a :: a in m && a != v ==> m'[a] == m[a]) && m'[v] == x
    ensures m' == m[v := x]
  {
  }

  lemma TwoUpdates<V>(m: map<nat, V>, m': map<nat, V>, v: nat, x: V, w: nat, y: V)
    requires v in m && w !in m && forall a :: a in m' <==> a in m || a == w
    requires forall a :: a in m && a != v ==> m'[a] == m[a]
    requires m'[v] == x && m'[w] == y
    ensures m' == m[v := x][w := y]
  {
  }

  // Both algorithms compute the same block-to-list map.
  lemma SameMap<L, X>(U: set<L>, fs: Formulas<L, X>, P: seq<Block<L, X>>, m: Blocks<L, X>)
    requires IsPartition(U, fs, P) && IsPartitionMap(U, fs, m)
    ensures AsMap(P) == m
  {
    hide *;
    forall b | b in AsMap(P)
      ensures b in m && AsMap(P)[b] == m[b]
    {
      SameEntry(U, fs, P, m, b);
    }
    forall b | b in m
      ensures b in AsMap(P)
    {
      SameEntry(U, fs, P, m, b);
    }
    MapsAgree(AsMap(P), m);
  }

  // --- The tables ------------------------------------------------------------------------------

  // The block map, the disjunction of (X_v and block of v) as a map from variables to blocks, the
  // variable-to-block table, and the last variable taken.
  datatype State<B, X> = State(blocks: map<B, seq<X>>, all: map<nat, B>, fvarToInput: map<nat, B>, cur: nat) {
    ghost predicate Valid() {
      && (forall v :: v in all ==> v <= cur && v in fvarToInput && fvarToInput[v] == all[v])
      && (forall v :: v in all ==> all[v] in blocks)
      && (forall b :: b in blocks ==> HasVar(b))
      && (forall v, w :: v in all && w in all && all[v] == all[w] ==> v == w)
    }

    ghost predicate HasVar(b: B) {
      exists v :: v in all && all[v] == b
    }

    // Each variable with its block and the block's list.
    ghost function View(): map<nat, (B, seq<X>)>
      requires Valid()
    {
      map v | v in all :: (all[v], blocks[all[v]])
    }

    // The formula contains the whole block of v: its entry is taken out and put back longer.
    function Extended(v: nat, x: X): State<B, X>
      requires v in all && all[v] in blocks
    {
      this.(blocks := (blocks - {all[v]})[all[v] := blocks[all[v]] + [x]])
    }

    // The formula cuts the block of v; the part outside gets a fresh variable.
    function Cut(v: nat, both: B, rest: B, x: X): State<B, X>
      requires v in all && all[v] in blocks
    {
      var list := blocks[all[v]];
      State((blocks[rest := list] - {all[v]})[both := list + [x]],
            (all - {v})[v := both][cur + 1 := rest],
            fvarToInput[v := both][cur + 1 := rest],
            cur + 1)
    }

    lemma ExtendedValid(v: nat, x: X)
      requires Valid() && v in all
      ensures Extended(v, x).Valid()
      ensures Extended(v, x).all == all
    {
      var s' := Extended(v, x);
      assert forall b :: b in s'.blocks ==> b in blocks;
      forall b | b in s'.blocks
        ensures s'.HasVar(b)
      {
        assert HasVar(b);
      }
    }

    lemma ExtendedEntry(v: nat, x: X, w: nat)
      requires Valid() && v in all && Extended(v, x).Valid()
      ensures w in Extended(v, x).View() <==> w in View()
      ensures w in View() <==> w in all
      ensures v in View() && w in View() ==>
          Extended(v, x).View()[w] == if w == v then (all[v], blocks[all[v]] + [x]) else View()[w]
    {
      hide HasVar, View;
      ViewAt(w);
      ViewAt(v);
      Extended(v, x).ViewAt(w);
    }

    lemma ExtendedView(v: nat, x: X)
      requires Valid() && v in all
      ensures Extended(v, x).Valid()
      ensures Extended(v, x).all == all
      ensures Extended(v, x).View() == View()[v := (all[v], blocks[all[v]] + [x])]
    {
      hide Extended, View, Valid;
      ViewAt(v);
      ExtendedValid(v, x);
      forall w: nat
        ensures w in Extended(v, x).View() <==> w in View()
        ensures w in View() && w != v ==> Extended(v, x).View()[w] == View()[w]
      {
        ExtendedEntry(v, x, v);
        ExtendedEntry(v, x, w);
      }
      ExtendedEntry(v, x, v);
      OneUpdate(View(), Extended(v, x).View(), v, (all[v], blocks[all[v]] + [x]));
    }

    ghost predicate Unused(v: nat, b: B) {
      forall w :: w in all && w != v ==> all[w] != b
    }

    lemma CutVars(v: nat, both: B, rest: B, x: X)
      requires Valid() && v in all && both != all[v] && rest != all[v] && both != rest
      ensures forall b :: b in Cut(v, both, rest, x).blocks ==> Cut(v, both, rest, x).HasVar(b)
    {
      var s' := Cut(v, both, rest, x);
      forall b | b in s'.blocks
        ensures s'.HasVar(b)
      {
        if b == both {
          assert v in s'.all && s'.all[v] == b;
        } else if b == rest {
          assert cur + 1 in s'.all && s'.all[cur + 1] == b;
        } else {
          assert HasVar(b);
          var w :| w in all && all[w] == b;
          assert w in s'.all && s'.all[w] == b;
        }
      }
    }

    lemma CutValid(v: nat, both: B, rest: B, x: X)
      requires Valid() && v in all && both != all[v] && rest != all[v] && both != rest
      requires Unused(v, both) && Unused(v, rest)
      ensures Cut(v, both, rest, x).Valid() && cur + 1 !in all
      ensures forall w :: w in all && w != v ==> Cut(v, both, rest, x).blocks[all[w]] == blocks[all[w]]
    {
      CutVars(v, both, rest, x);
      hide HasVar;
    }

    lemma ViewAt(w: nat)
      requires Valid()
      ensures w in View() <==> w in all
      ensures w in all ==> all[w] in blocks && View()[w] == (all[w], blocks[all[w]])
    {
    }

    // The variables after a cut.
    lemma CutAll(v: nat, both: B, rest: B, x: X, w: nat)
      requires v in all && all[v] in blocks && cur + 1 !in all
      ensures w in Cut(v, both, rest, x).all <==> w in all || w == cur + 1
      ensures w in Cut(v, both, rest, x).all ==>
                Cut(v, both, rest, x).all[w] == if w == cur + 1 then rest else if w == v then both else all[w]
    {
    }

    // The lists of the two pieces.
    lemma CutBlocks(v: nat, both: B, rest: B, x: X)
      requires v in all && all[v] in blocks && both != all[v] && rest != all[v] && both != rest
      ensures both in Cut(v, both, rest, x).blocks && Cut(v, both, rest, x).blocks[both] == blocks[all[v]] + [x]
      ensures rest in Cut(v, both, rest, x).blocks && Cut(v, both, rest, x).blocks[rest] == blocks[all[v]]
    {
    }

    lemma CutEntry(v: nat, both: B, rest: B, x: X, w: nat)
      requires Valid() && v in all && both != all[v] && rest != all[v] && both != rest
      requires Unused(v, both) && Unused(v, rest) && Cut(v, both, rest, x).Valid()
      ensures w in Cut(v, both, rest, x).View() <==> w in all || w == cur + 1
      ensures w in all && w != v ==> w != cur + 1 && Cut(v, both, rest, x).View()[w] == View()[w]
      ensures w == v ==> w != cur + 1 && Cut(v, both, rest, x).View()[w] == (both, blocks[all[v]] + [x])
      ensures w == cur + 1 ==> Cut(v, both, rest, x).View()[w] == (rest, blocks[all[v]])
    {
      CutValid(v, both, rest, x);
      hide View, Cut, HasVar, Unused;
      ViewAt(w);
      ViewAt(v);
      hide Valid;
      Cut(v, both, rest, x).ViewAt(w);
      CutAll(v, both, rest, x, w);
      CutBlocks(v, both, rest, x);
    }

    lemma CutView(v: nat, both: B, rest: B, x: X)
      requires Valid() && v in all && both != all[v] && rest != all[v] && both != rest
      requires Unused(v, both) && Unused(v, rest)
      ensures Cut(v, both, rest, x).Valid() && cur + 1 !in all
      ensures Cut(v, both, rest, x).View() ==
              View()[v := (both, blocks[all[v]] + [x])][cur + 1 := (rest, blocks[all[v]])]
    {
      hide Cut, View, Valid, HasVar, Unused;
      CutValid(v, both, rest, x);
      ViewAt(v);
      forall w: nat
        ensures w in View() <==> w in all
        ensures w in Cut(v, both, rest, x).View() <==> w in all || w == cur + 1
        ensures w in all && w != v ==> Cut(v, both, rest, x).View()[w] == View()[w]
      {
        ViewAt(w);
        CutEntry(v, both, rest, x, w);
      }
      CutEntry(v, both, rest, x, v);
      CutEntry(v, both, rest, x, cur + 1);
      TwoUpdates(View(), Cut(v, both, rest, x).View(), v, (both, blocks[all[v]] + [x]), cur + 1,
                 (rest, blocks[all[v]]));
    }
  }

  // --- The cells ------------------------------------------------------------------------------

  type View<L, X> = map<nat, Block<L, X>>

  // No letter has two variables, and every letter has one.
  ghost predicate Partitions<L, X>(U: set<L>, view: View<L, X>) {
    && (forall v, w, l :: v in view && w in view && l in view[v].0 && l in view[w].0 ==> v == w)
    && (forall l :: l in U ==> Reaches(view, l))
  }

  ghost predicate Reaches<L, X>(view: View<L, X>, l: L) {
    exists v :: v in view && l in view[v].0
  }

  // While formula f is distributed, the variables in `todo` still carry cells of fs and the
  // others already cells of fs + [f].
  ghost predicate SplitInv<L, X>(U: set<L>, fs: Formulas<L, X>, f: (set<L>, X), view: View<L, X>, todo: set<nat>) {
    && Partitions(U, view) && (forall v :: v in todo ==> v in view)
    && (forall v :: v in view ==> IsCell(U, if v in todo then fs else fs + [f], view[v]))
  }

  // Between two formulas: every variable carries a cell of fs.
  ghost predicate Refines<L, X>(U: set<L>, fs: Formulas<L, X>, view: View<L, X>) {
    Partitions(U, view) && forall v :: v in view ==> IsCell(U, fs, view[v])
  }

  lemma SplitStarts<L, X>(U: set<L>, fs: Formulas<L, X>, f: (set<L>, X), view: View<L, X>, todo: set<nat>)
    requires Refines(U, fs, view) && forall v :: v in todo ==> v in view
    requires forall v :: v in view && v !in todo ==> !Overlaps(view[v].0, f.0)
    ensures SplitInv(U, fs, f, view, todo)
  {
    forall v | v in view
      ensures IsCell(U, if v in todo then fs else fs + [f], view[v])
    {
      BlockOutcome(U, fs, f, view[v]);
    }
  }

  lemma ViewExtends<L, X>(U: set<L>, fs: Formulas<L, X>, f: (set<L>, X), view: View<L, X>, todo: set<nat>, v: nat)
    requires SplitInv(U, fs, f, view, todo) && v in todo && view[v].0 - f.0 == {}
    ensures SplitInv(U, fs, f, view[v := (view[v].0, view[v].1 + [f.1])], todo - {v})
  {
    hide IsCell, Partitions;
    var longer := (view[v].0, view[v].1 + [f.1]);
    BlockOutcome(U, fs, f, view[v]);
    PartitionKept(U, view, v, longer);
    CellsAfterExtension(U, fs, f, view, todo, v, longer);
  }

  lemma CellsAfterExtension<L, X>(U: set<L>, fs: Formulas<L, X>, f: (set<L>, X), view: View<L, X>, todo: set<nat>,
                                  v: nat, b: Block<L, X>)
    requires v in todo && (forall w :: w in todo ==> w in view) && IsCell(U, fs + [f], b)
    requires forall w :: w in view ==> IsCell(U, if w in todo then fs else fs + [f], view[w])
    ensures forall w :: w in view[v := b] ==> IsCell(U, if w in todo - {v} then fs else fs + [f], view[v := b][w])
  {
    hide IsCell;
  }

  // Only the list of a block changes.
  lemma PartitionKept<L, X>(U: set<L>, view: View<L, X>, v: nat, b: Block<L, X>)
    requires Partitions(U, view) && v in view && b.0 == view[v].0
    ensures Partitions(U, view[v := b])
  {
    var view' := view[v := b];
    assert forall w :: w in view ==> view'[w].0 == view[w].0;
    forall l | l in U
      ensures Reaches(view', l)
    {
      assert Reaches(view, l);
      var w :| w in view && l in view[w].0;
      assert l in view'[w].0;
    }
  }

  // Blocks are nonempty and disjoint: a piece of the block of v is nobody else's block.
  lemma PieceUnused<L, X>(view: View<L, X>, v: nat, piece: set<L>)
    requires v in view && piece != {} && piece <= view[v].0
    requires forall a, b, l :: a in view && b in view && l in view[a].0 && l in view[b].0 ==> a == b
    ensures forall w :: w in view && w != v ==> view[w].0 != piece
  {
    var l :| l in piece;
    assert l in view[v].0;
  }

  lemma ViewCuts<L, X>(U: set<L>, fs: Formulas<L, X>, f: (set<L>, X), view: View<L, X>, todo: set<nat>, v: nat,
                       yes: Block<L, X>, no: Block<L, X>, next: nat)
    requires SplitInv(U, fs, f, view, todo) && v in todo && next !in view
    requires IsCell(U, fs + [f], yes) && IsCell(U, fs + [f], no)
    requires yes.0 !! no.0 && view[v].0 == yes.0 + no.0
    ensures SplitInv(U, fs, f, view[v := yes][next := no], todo - {v})
  {
    hide IsCell, Partitions;
    PartitionCuts(U, view, v, yes, no, next);
    CellsAfterCut(U, fs, f, view, todo, v, yes, no, next);
  }

  lemma CellsAfterCut<L, X>(U: set<L>, fs: Formulas<L, X>, f: (set<L>, X), view: View<L, X>, todo: set<nat>, v: nat,
                            yes: Block<L, X>, no: Block<L, X>, next: nat)
    requires v in todo && next !in view && forall w :: w in todo ==> w in view
    requires forall w :: w in view ==> IsCell(U, if w in todo then fs else fs + [f], view[w])
    requires IsCell(U, fs + [f], yes) && IsCell(U, fs + [f], no)
    ensures forall w :: w in view[v := yes][next := no] ==>
              IsCell(U, if w in todo - {v} then fs else fs + [f], view[v := yes][next := no][w])
  {
    hide IsCell;
  }

  lemma PartitionCuts<L, X>(U: set<L>, view: View<L, X>, v: nat, yes: Block<L, X>, no: Block<L, X>, next: nat)
    requires Partitions(U, view) && v in view && next !in view
    requires yes.0 !! no.0 && view[v].0 == yes.0 + no.0
    ensures Partitions(U, view[v := yes][next := no])
  {
    var view' := view[v := yes][next := no];
    forall a, b, l | a in view' && b in view' && l in view'[a].0 && l in view'[b].0
      ensures a == b
    {
      var a', b' := if a == next then v else a, if b == next then v else b;
      assert l in view[a'].0 && l in view[b'].0;
      assert a' == b';
    }
    forall l | l in U
      ensures Reaches(view', l)
    {
      assert Reaches(view, l);
      var w :| w in view && l in view[w].0;
      assert l in view'[if w == v && l in no.0 then next else w].0;
    }
  }

  lemma RefinesIsPartition<L, X>(U: set<L>, fs: Formulas<L, X>, s: State<set<L>, X>)
    requires s.Valid() && Refines(U, fs, s.View())
    ensures IsPartitionMap(U, fs, s.blocks)
  {
    hide Cell, Cover;
    forall b | b in s.blocks
      ensures IsCell(U, fs, (b, s.blocks[b]))
    {
      assert s.HasVar(b);
      var v :| v in s.all && s.all[v] == b;
      assert s.View()[v] == (b, s.blocks[b]);
    }
    forall l | l in U
      ensures Cell(U, fs, l) in s.blocks
    {
      assert Reaches(s.View(), l);
      var v :| v in s.View() && l in s.View()[v].0;
      assert IsCell(U, fs, s.View()[v]);
    }
  }

  // --- The algorithm ---------------------------------------------------------------------------

  predicate Overlaps<L>(b: set<L>, mod: set<L>) {
    b * mod != {}
  }

  // The variables still to visit meet the formula.
  ghost predicate Pending<L, X>(s: State<set<L>, X>, mod: set<L>, fvars: set<nat>) {
    forall v :: v in fvars ==> v in s.all && Overlaps(s.all[v], mod)
  }

  // The variables that survive projecting the disjunction conjoined with `mod`.
  function Touched<L, X>(s: State<set<L>, X>, mod: set<L>): set<nat> {
    set v | v in s.all && Overlaps(s.all[v], mod)
  }

  lemma WholeOrNothing<L>(b: set<L>, mod: set<L>)
    ensures b * mod == b <==> b - mod == {}
  {
    assert b == (b * mod) + (b - mod);
    if b * mod == b {
      assert forall l :: l in b ==> l in b * mod;
    }
  }

  lemma PiecesAreCells<L, X>(U: set<L>, fs: Formulas<L, X>, f: (set<L>, X), b: Block<L, X>)
    requires IsCell(U, fs, b) && b.0 * f.0 != {} && b.0 - f.0 != {}
    ensures IsCell(U, fs + [f], (b.0 * f.0, b.1 + [f.1])) && IsCell(U, fs + [f], (b.0 - f.0, b.1))
    ensures b.0 * f.0 !! b.0 - f.0 && b.0 == (b.0 * f.0) + (b.0 - f.0)
    ensures b.0 * f.0 != b.0 && b.0 - f.0 != b.0 && b.0 * f.0 != b.0 - f.0
  {
    PieceIsCell(U, fs, f, b, true);
    PieceIsCell(U, fs, f, b, false);
  }

  lemma VisitWhole<L, X>(U: set<L>, fs: Formulas<L, X>, f: (set<L>, X), s: State<set<L>, X>, todo: set<nat>, v: nat)
    requires s.Valid() && SplitInv(U, fs, f, s.View(), todo) && v in todo && v in s.all && s.all[v] - f.0 == {}
    ensures s.Extended(v, f.1).Valid() && s.Extended(v, f.1).all == s.all
    ensures SplitInv(U, fs, f, s.Extended(v, f.1).View(), todo - {v})
    ensures Pending(s, f.0, todo) ==> Pending(s.Extended(v, f.1), f.0, todo - {v})
  {
    s.ExtendedView(v, f.1);
    assert s.View()[v] == (s.all[v], s.blocks[s.all[v]]);
    hide SplitInv;
    ViewExtends(U, fs, f, s.View(), todo, v);
  }

  lemma PiecesUnused<L, X>(U: set<L>, fs: Formulas<L, X>, f: (set<L>, X), s: State<set<L>, X>, todo: set<nat>, v: nat)
    requires s.Valid() && SplitInv(U, fs, f, s.View(), todo) && v in s.all
    requires s.all[v] * f.0 != {} && s.all[v] - f.0 != {}
    ensures s.Unused(v, s.all[v] * f.0) && s.Unused(v, s.all[v] - f.0)
  {
    hide IsCell;
    assert forall w :: w in s.all ==> w in s.View() && s.View()[w].0 == s.all[w];
    hide State.View;
    PieceUnused(s.View(), v, s.all[v] * f.0);
    PieceUnused(s.View(), v, s.all[v] - f.0);
  }

  lemma PendingAfterCut<L, X>(s: State<set<L>, X>, mod: set<L>, todo: set<nat>, v: nat, both: set<L>, rest: set<L>,
                              x: X)
    requires s.Valid() && v in s.all
    ensures Pending(s, mod, todo) ==> Pending(s.Cut(v, both, rest, x), mod, todo - {v})
  {
    hide Overlaps, State.HasVar;
  }

  lemma VisitCut<L, X>(U: set<L>, fs: Formulas<L, X>, f: (set<L>, X), s: State<set<L>, X>, todo: set<nat>, v: nat)
    requires s.Valid() && SplitInv(U, fs, f, s.View(), todo) && v in todo && v in s.all
    requires s.all[v] * f.0 != {} && s.all[v] - f.0 != {}
    ensures s.Cut(v, s.all[v] * f.0, s.all[v] - f.0, f.1).Valid()
    ensures SplitInv(U, fs, f, s.Cut(v, s.all[v] * f.0, s.all[v] - f.0, f.1).View(), todo - {v})
  {
    var b := (s.all[v], s.blocks[s.all[v]]);
    assert s.View()[v] == b;
    PiecesUnused(U, fs, f, s, todo, v);
    assert IsCell(U, fs, b);
    hide SplitInv, State.Unused, IsCell, State.Valid;
    PiecesAreCells(U, fs, f, b);
    s.CutView(v, s.all[v] * f.0, s.all[v] - f.0, f.1);
    hide State.View, State.Cut;
    ViewCuts(U, fs, f, s.View(), todo, v, (b.0 * f.0, b.1 + [f.1]), (b.0 - f.0, b.1), s.cur + 1);
  }

  // One surviving variable: its block is cut, or the formula contains it whole.
  method VisitVar<L(==), X>(s: State<set<L>, X>, v: nat, mod: set<L>, x: X,
                            ghost U: set<L>, ghost fs: Formulas<L, X>, ghost todo: set<nat>)
    returns (s': State<set<L>, X>)
    requires s.Valid() && SplitInv(U, fs, (mod, x), s.View(), todo) && v in todo && v in s.all
    requires Pending(s, mod, todo)
    ensures s'.Valid() && SplitInv(U, fs, (mod, x), s'.View(), todo - {v})
    ensures Pending(s', mod, todo - {v})
  {
    var input := s.fvarToInput[v];
    assert input == s.all[v] && Overlaps(input, mod);
    if input * mod != input && input - mod != {} {
      VisitCut(U, fs, (mod, x), s, todo, v);
      PendingAfterCut(s, mod, todo, v, input * mod, input - mod, x);
      s' := s.Cut(v, input * mod, input - mod, x);
    } else {
      WholeOrNothing(input, mod);
      VisitWhole(U, fs, (mod, x), s, todo, v);
      s' := s.Extended(v, x);
    }
  }

  // One formula: visit the surviving variables, in any order.
  method DistributeByVars<L(==), X>(s0: State<set<L>, X>, mod: set<L>, x: X, ghost U: set<L>, ghost fs: Formulas<L, X>)
    returns (s: State<set<L>, X>)
    requires s0.Valid() && Refines(U, fs, s0.View())
    ensures s.Valid() && Refines(U, fs + [(mod, x)], s.View())
  {
    hide SplitInv, Refines, Touched, Overlaps, State.Valid, State.View;
    s := s0;
    var fvars := Touched(s, mod);
    VisitsStart(U, fs, (mod, x), s);
    while fvars != {}
      invariant s.Valid() && SplitInv(U, fs, (mod, x), s.View(), fvars)
      invariant Pending(s, mod, fvars)
      decreases fvars
    {
      var v :| v in fvars;
      s := VisitVar(s, v, mod, x, U, fs, fvars);
      fvars := fvars - {v};
    }
    VisitsEnd(U, fs, (mod, x), s.View());
  }

  lemma VisitsStart<L, X>(U: set<L>, fs: Formulas<L, X>, f: (set<L>, X), s: State<set<L>, X>)
    requires s.Valid() && Refines(U, fs, s.View())
    ensures SplitInv(U, fs, f, s.View(), Touched(s, f.0)) && Pending(s, f.0, Touched(s, f.0))
  {
    SplitStarts(U, fs, f, s.View(), Touched(s, f.0));
    hide SplitInv;
  }

  lemma VisitsEnd<L, X>(U: set<L>, fs: Formulas<L, X>, f: (set<L>, X), view: View<L, X>)
    requires SplitInv(U, fs, f, view, {})
    ensures Refines(U, fs + [f], view)
  {
    hide IsCell, Partitions;
  }

  lemma RefinesAtStart<L, X>(U: set<L>, s: State<set<L>, X>)
    requires U != {} && s == State(map[U := []], map[1 := U], map[1 := U], 1)
    ensures s.Valid() && Refines(U, [], s.View())
  {
    StartValid(U, s);
    hide State.Valid;
    forall l | l in U
      ensures U == Cell<L, X>(U, [], l) && Reaches(s.View(), l)
    {
      assert l in s.View()[1].0;
    }
  }

  lemma StartValid<L, X>(U: set<L>, s: State<set<L>, X>)
    requires s == State(map[U := []], map[1 := U], map[1 := U], 1)
    ensures s.Valid() && s.View() == map[1 := (U, [])]
  {
    assert s.HasVar(U) by {
      assert s.all[1] == U;
    }
  }

  method PowerFakevars<C, L(==), X>(U: set<L>, formulas: seq<(C, X)>, proj: C -> set<L>) returns (powset: Blocks<L, X>)
    requires U != {}
    ensures IsPartitionMap(U, Projected(formulas, proj), powset)
  {
    var s: State<set<L>, X> := State(map[U := []], map[1 := U], map[1 := U], 1);
    RefinesAtStart(U, s);
    assert Projected(formulas[..0], proj) == [];
    hide Refines, Projected;
    ghost var fs: Formulas<L, X> := [];
    for k := 0 to |formulas|
      invariant fs == Projected(formulas[..k], proj) && s.Valid() && Refines(U, fs, s.View())
    {
      var crossingInputs := proj(formulas[k].0);
      s := DistributeByVars(s, crossingInputs, formulas[k].1, U, fs);
      fs := fs + [(crossingInputs, formulas[k].1)];
      ProjectedSnoc(formulas, proj, k);
    }
    assert formulas[..|formulas|] == formulas;
    RefinesIsPartition(U, Projected(formulas, proj), s);
    powset := s.blocks;
  }
}
