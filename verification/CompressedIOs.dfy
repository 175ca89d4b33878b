/**
  The two-level use of the refinement by the powset and fake_vars precomputers: crossings are
  the blocks of letters no transition distinguishes, and blocks of inputs are those no crossing
  distinguishes once outputs are projected away.
*/
module CompressedIOs {
  import opened Game
  import opened Automata
  import opened Powset
  import opened FakeVars

  type LabelledEdge = (set<Letter>, (nat, nat))

  function OutEdges(p: nat, es: seq<Edge>): seq<LabelledEdge> {
    if es == [] then []
    else
      var e := es[|es| - 1];
      OutEdges(p, es[..|es| - 1]) + [(e.cond, (p, e.dst))]
  }

  function EdgeList(out: seq<seq<Edge>>): seq<LabelledEdge> {
    if out == [] then []
    else EdgeList(out[..|out| - 1]) + OutEdges(|out| - 1, out[|out| - 1])
  }

  // The transition enumerator: all edges, source by source.
  method EnumerateEdges(aut: Automaton) returns (edges: seq<LabelledEdge>)
    ensures edges == EdgeList(aut.out)
  {
    edges := [];
    for p := 0 to |aut.out|
      invariant edges == EdgeList(aut.out[..p])
    {
      var es := aut.out[p];
      for j := 0 to |es|
        invariant edges == EdgeList(aut.out[..p]) + OutEdges(p, es[..j])
      {
        assert es[..j + 1][..j] == es[..j];
        edges := edges + [(es[j].cond, (p, es[j].dst))];
      }
      assert es[..|es|] == es;
      assert aut.out[..p + 1][..p] == aut.out[..p] && aut.out[..p + 1][p] == es;
    }
    assert aut.out[..|aut.out|] == aut.out;
  }

  function Id(b: set<Letter>): set<Letter> {
    b
  }

  // Projecting the outputs away.
  function InputsOf(b: set<Letter>): set<Bits> {
    set l | l in b :: l.input
  }

  lemma {:induction false} CoverAppend<L, X>(fs: Formulas<L, X>, gs: Formulas<L, X>, l: L)
    ensures Cover(fs + gs, l) == Cover(fs, l) + Cover(gs, l)
  {
    if gs == [] {
      assert fs + gs == fs;
      assert Cover(gs, l) == [];
    } else {
      hide Cover;
      var init, last := gs[..|gs| - 1], gs[|gs| - 1];
      assert fs + gs == fs + init + [last] && gs == init + [last];
      CoverAppend(fs, init, l);
      CoverSnoc(fs + init, last, l);
      CoverSnoc(init, last, l);
    }
  }

  lemma {:induction false} OutEdgesCover(p: nat, es: seq<Edge>, l: Letter)
    ensures Cover(OutEdges(p, es), l) == OutPairs(p, es, l)
  {
    if es != [] {
      var init, e := es[..|es| - 1], es[|es| - 1];
      OutEdgesCover(p, init, l);
      CoverSnoc(OutEdges(p, init), (e.cond, (p, e.dst)), l);
    }
  }

  // The transitions that cover a letter are those the letter enables, in the enumeration order.
  lemma {:induction false} EdgesCover(out: seq<seq<Edge>>, l: Letter)
    ensures Cover(EdgeList(out), l) == Transitions(out, l)
  {
    if out != [] {
      var n := |out| - 1;
      EdgesCover(out[..n], l);
      OutEdgesCover(n, out[n], l);
      CoverAppend(EdgeList(out[..n]), OutEdges(n, out[n]), l);
    }
  }

  lemma {:induction false} CoverMember<L, X>(fs: Formulas<L, X>, l: L, x: X)
    ensures x in Cover(fs, l) <==> exists k :: 0 <= k < |fs| && l in fs[k].0 && fs[k].1 == x
  {
    if fs != [] {
      var init, last := fs[..|fs| - 1], fs[|fs| - 1];
      CoverMember(init, l, x);
      if exists k :: 0 <= k < |fs| && l in fs[k].0 && fs[k].1 == x {
        var k :| 0 <= k < |fs| && l in fs[k].0 && fs[k].1 == x;
        if k < |init| {
          assert init[k] == fs[k];
        }
      }
      if x in Cover(init, l) {
        var k :| 0 <= k < |init| && l in init[k].0 && init[k].1 == x;
        assert fs[k] == init[k];
      }
      if x in Cover(fs, l) && x !in Cover(init, l) {
        assert fs[|fs| - 1] == last;
      }
    }
  }

  type Crossings = seq<Block<Letter, (nat, nat)>>

  type InputBlock = Block<Bits, TransSet>

  ghost predicate AreCrossings(aut: Automaton, ins: set<Bits>, outs: set<Bits>, crossings: Crossings) {
    IsPartition(AllLetters(ins, outs), EdgeList(aut.out), crossings)
  }

  ghost predicate IsInputBlock(ins: set<Bits>, crossings: Crossings, b: InputBlock) {
    IsCell(ins, Projected(crossings, InputsOf), b)
  }

  lemma CrossingOfLetter(aut: Automaton, ins: set<Bits>, outs: set<Bits>, crossings: Crossings, k: nat, l: Letter)
    requires AreCrossings(aut, ins, outs, crossings) && k < |crossings| && l in crossings[k].0
    ensures crossings[k].1 == Transitions(aut.out, l) && l.output in outs
  {
    hide Cell, Cover;
    assert IsCell(AllLetters(ins, outs), EdgeList(aut.out), crossings[k]);
    assert l in AllLetters(ins, outs);
    EdgesCover(aut.out, l);
  }

  // For every input of a block, the block lists exactly the transition sets of its letters.
  lemma BlockListsLetters(aut: Automaton, ins: set<Bits>, outs: set<Bits>, crossings: Crossings, b: InputBlock, i: Bits,
                          ts: TransSet)
    requires AreCrossings(aut, ins, outs, crossings) && IsInputBlock(ins, crossings, b) && i in b.0
    ensures ts in b.1 <==> exists o :: o in outs && ts == Transitions(aut.out, Letter(i, o))
  {
    hide Cell, Cover, Transitions, EdgeList, AreCrossings, Projected, InputsOf;
    var fs := Projected(crossings, InputsOf);
    CoverMember(fs, i, ts);
    assert b.1 == Cover(fs, i) && i in ins;
    if ts in b.1 {
      var k :| 0 <= k < |fs| && i in fs[k].0 && fs[k].1 == ts;
      var l := LetterOfCrossing(crossings, k, i);
      CrossingOfLetter(aut, ins, outs, crossings, k, l);
      assert l == Letter(i, l.output);
    }
    if exists o :: o in outs && ts == Transitions(aut.out, Letter(i, o)) {
      var o :| o in outs && ts == Transitions(aut.out, Letter(i, o));
      var k := CrossingWith(aut, ins, outs, crossings, Letter(i, o));
      CrossingOfLetter(aut, ins, outs, crossings, k, Letter(i, o));
    }
  }

  // An input that a crossing admits, with an output.
  lemma LetterOfCrossing(crossings: Crossings, k: nat, i: Bits) returns (l: Letter)
    requires k < |Projected(crossings, InputsOf)| && i in Projected(crossings, InputsOf)[k].0
    ensures k < |crossings| && l in crossings[k].0 && l.input == i
    ensures Projected(crossings, InputsOf)[k].1 == crossings[k].1
  {
    assert Projected(crossings, InputsOf)[k].0 == InputsOf(crossings[k].0);
    l :| l in crossings[k].0 && l.input == i;
  }

  lemma CrossingWith(aut: Automaton, ins: set<Bits>, outs: set<Bits>, crossings: Crossings, l: Letter) returns (k: nat)
    requires AreCrossings(aut, ins, outs, crossings) && l.input in ins && l.output in outs
    ensures k < |crossings| == |Projected(crossings, InputsOf)| && l in crossings[k].0
    ensures l.input in Projected(crossings, InputsOf)[k].0 && Projected(crossings, InputsOf)[k].1 == crossings[k].1
  {
    hide IsCell, Disjoint, EdgeList;
    assert l == Letter(l.input, l.output) && l in AllLetters(ins, outs);
    assert InSome(crossings, l);
    k :| 0 <= k < |crossings| && l in crossings[k].0;
    assert Projected(crossings, InputsOf)[k].0 == InputsOf(crossings[k].0);
  }

  ghost function BlockVecs(acc: seq<bool>, b: InputBlock): set<ActionVec> {
    set j | 0 <= j < |b.1| :: ActionVecOf(acc, b.1[j])
  }

  ghost function ArenaOfBlocks(acc: seq<bool>, table: seq<InputBlock>): Arena {
    set k | 0 <= k < |table| :: BlockVecs(acc, table[k])
  }

  lemma BlockMoves(aut: Automaton, ins: set<Bits>, outs: set<Bits>, crossings: Crossings, b: InputBlock, i: Bits)
    requires AreCrossings(aut, ins, outs, crossings) && IsInputBlock(ins, crossings, b) && i in b.0
    ensures BlockVecs(aut.acc, b) == Moves(aut, outs, AllLetters(ins, outs), i)
  {
    hide Transitions, ActionVecOf, AreCrossings;
    var A, B := BlockVecs(aut.acc, b), Moves(aut, outs, AllLetters(ins, outs), i);
    assert i in ins;
    hide IsInputBlock;
    forall a
      ensures a in A <==> a in B
    {
      if a in A {
        var j :| 0 <= j < |b.1| && a == ActionVecOf(aut.acc, b.1[j]);
        BlockListsLetters(aut, ins, outs, crossings, b, i, b.1[j]);
        var o :| o in outs && b.1[j] == Transitions(aut.out, Letter(i, o));
        assert Letter(i, o) in AllLetters(ins, outs) && a == LetterAction(aut, Letter(i, o));
      }
      if a in B {
        var o :| o in outs && a == LetterAction(aut, Letter(i, o));
        var ts := Transitions(aut.out, Letter(i, o));
        BlockListsLetters(aut, ins, outs, crossings, b, i, ts);
        var j :| 0 <= j < |b.1| && b.1[j] == ts;
      }
    }
  }

  // The compressed table and plain enumeration with a trivial invariant present the same game.
  lemma CompressedArena(aut: Automaton, ins: set<Bits>, outs: set<Bits>, crossings: Crossings, table: seq<InputBlock>)
    requires AreCrossings(aut, ins, outs, crossings)
    requires IsPartition(ins, Projected(crossings, InputsOf), table)
    ensures ArenaOfBlocks(aut.acc, table) == ArenaOf(aut, ins, outs, AllLetters(ins, outs))
  {
    hide AreCrossings, Moves, BlockVecs, Projected, Cell, Cover;
    var A, B := ArenaOfBlocks(aut.acc, table), ArenaOf(aut, ins, outs, AllLetters(ins, outs));
    forall V
      ensures V in A <==> V in B
    {
      if V in A {
        var k :| 0 <= k < |table| && V == BlockVecs(aut.acc, table[k]);
        assert IsCell(ins, Projected(crossings, InputsOf), table[k]);
        var i :| i in table[k].0;
        BlockMoves(aut, ins, outs, crossings, table[k], i);
      }
      if V in B {
        var i :| i in ins && V == Moves(aut, outs, AllLetters(ins, outs), i);
        assert InSome(table, i);
        var k :| 0 <= k < |table| && i in table[k].0;
        assert IsCell(ins, Projected(crossings, InputsOf), table[k]);
        BlockMoves(aut, ins, outs, crossings, table[k], i);
      }
    }
  }

  lemma ProjectedId(edges: seq<LabelledEdge>)
    ensures Projected(edges, Id) == edges
  {
    assert forall k :: 0 <= k < |edges| ==> Projected(edges, Id)[k] == (Id(edges[k].0), edges[k].1);
  }

  lemma LettersNonEmpty(ins: set<Bits>, outs: set<Bits>)
    requires ins != {} && outs != {}
    ensures AllLetters(ins, outs) != {}
  {
    var i :| i in ins;
    var o :| o in outs;
    assert Letter(i, o) in AllLetters(ins, outs);
  }

  // Every input is in exactly one block, and a block lists exactly the transition sets that its inputs
  // enable with some output.
  ghost predicate IsTable(aut: Automaton, ins: set<Bits>, outs: set<Bits>, table: seq<InputBlock>) {
    && (forall k :: 0 <= k < |table| ==> table[k].0 != {} && table[k].0 <= ins)
    && (forall j, k :: 0 <= j < k < |table| ==> table[j].0 !! table[k].0)
    && (forall i :: i in ins ==> exists k :: 0 <= k < |table| && i in table[k].0)
    && (forall k, i :: 0 <= k < |table| && i in table[k].0 ==> ListsLetters(aut, outs, table[k].1, i))
  }

  ghost predicate ListsLetters(aut: Automaton, outs: set<Bits>, list: seq<TransSet>, i: Bits) {
    forall ts :: ts in list <==> exists o :: o in outs && ts == Transitions(aut.out, Letter(i, o))
  }

  // The two levels: letters that the same transitions cross, and inputs that the same crossings admit.
  ghost predicate IsTwoLevel(aut: Automaton, ins: set<Bits>, outs: set<Bits>, crossings: Crossings,
                             table: seq<InputBlock>) {
    AreCrossings(aut, ins, outs, crossings) && IsPartition(ins, Projected(crossings, InputsOf), table)
  }

  lemma TwoLevelsGiveTable(aut: Automaton, ins: set<Bits>, outs: set<Bits>, crossings: Crossings,
                           table: seq<InputBlock>)
    requires IsTwoLevel(aut, ins, outs, crossings, table)
    ensures IsTable(aut, ins, outs, table)
  {
    hide AreCrossings, Projected, Cell, Cover, Transitions, InputsOf;
    forall k, i | 0 <= k < |table| && i in table[k].0
      ensures ListsLetters(aut, outs, table[k].1, i)
    {
      assert IsCell(ins, Projected(crossings, InputsOf), table[k]);
      forall ts
        ensures ts in table[k].1 <==> exists o :: o in outs && ts == Transitions(aut.out, Letter(i, o))
      {
        BlockListsLetters(aut, ins, outs, crossings, table[k], i, ts);
      }
    }
    forall k | 0 <= k < |table|
      ensures table[k].0 != {} && table[k].0 <= ins
    {
      assert IsCell(ins, Projected(crossings, InputsOf), table[k]);
    }
    hide IsCell, ListsLetters;
    forall i | i in ins
      ensures exists k :: 0 <= k < |table| && i in table[k].0
    {
      assert InSome(table, i);
    }
  }

  // The powset precomputer.
  method PowsetIOs(aut: Automaton, ins: set<Bits>, outs: set<Bits>)
    returns (table: seq<InputBlock>, ghost crossings: Crossings)
    requires ins != {} && outs != {}
    ensures IsTable(aut, ins, outs, table) && IsTwoLevel(aut, ins, outs, crossings, table)
    ensures ArenaOfBlocks(aut.acc, table) == ArenaOf(aut, ins, outs, AllLetters(ins, outs))
  {
    var edges := EnumerateEdges(aut);
    LettersNonEmpty(ins, outs);
    ProjectedId(edges);
    var cells := Power(AllLetters(ins, outs), edges, Id);
    table := Power(ins, cells, InputsOf);
    crossings := cells;
    TwoLevelsGiveTable(aut, ins, outs, crossings, table);
    hide IsTable;
    CompressedArena(aut, ins, outs, crossings, table);
  }

  // The blocks of a map in some order, as the second level of fake_vars iterates over the first.
  method Items<L(==), X>(m: Blocks<L, X>, ghost U: set<L>, ghost fs: Formulas<L, X>) returns (P: seq<Block<L, X>>)
    requires IsPartitionMap(U, fs, m)
    ensures IsPartition(U, fs, P)
  {
    P := [];
    var keys := m.Keys;
    hide IsCell;
    while keys != {}
      invariant keys <= m.Keys
      invariant forall k :: 0 <= k < |P| ==> P[k].0 in m && P[k].0 !in keys && P[k].1 == m[P[k].0]
      invariant forall b :: b in m && b !in keys ==> exists k :: 0 <= k < |P| && P[k].0 == b
      invariant forall j, k :: 0 <= j < k < |P| ==> P[j].0 != P[k].0
      decreases keys
    {
      var b :| b in keys;
      ghost var before := P;
      P := P + [(b, m[b])];
      assert P[|before|].0 == b && forall k :: 0 <= k < |before| ==> P[k] == before[k];
      keys := keys - {b};
    }
    ItemsPartition(U, fs, m, P);
  }

  lemma ItemsPartition<L, X>(U: set<L>, fs: Formulas<L, X>, m: Blocks<L, X>, P: seq<Block<L, X>>)
    requires IsPartitionMap(U, fs, m)
    requires forall k :: 0 <= k < |P| ==> P[k].0 in m && P[k].1 == m[P[k].0]
    requires forall b :: b in m ==> exists k :: 0 <= k < |P| && P[k].0 == b
    requires forall j, k :: 0 <= j < k < |P| ==> P[j].0 != P[k].0
    ensures IsPartition(U, fs, P)
  {
    hide Cover, SameSide;
    forall k | 0 <= k < |P|
      ensures IsCell(U, fs, P[k])
    {
      assert IsCell(U, fs, (P[k].0, m[P[k].0]));
    }
    hide IsCell, Cell;
    forall l | l in U
      ensures InSome(P, l)
    {
      CellMember(U, fs, l);
      assert Cell(U, fs, l) in m;
      var k :| 0 <= k < |P| && P[k].0 == Cell(U, fs, l);
    }
    forall j, k | 0 <= j < k < |P|
      ensures P[j].0 !! P[k].0
    {
    }
  }

  // The fake_vars precomputer.
  method FakeVarsIOs(aut: Automaton, ins: set<Bits>, outs: set<Bits>)
    returns (table: seq<InputBlock>, ghost crossings: Crossings)
    requires ins != {} && outs != {}
    ensures IsTable(aut, ins, outs, table) && IsTwoLevel(aut, ins, outs, crossings, table)
    ensures ArenaOfBlocks(aut.acc, table) == ArenaOf(aut, ins, outs, AllLetters(ins, outs))
  {
    var edges := EnumerateEdges(aut);
    LettersNonEmpty(ins, outs);
    ProjectedId(edges);
    var m := PowerFakevars(AllLetters(ins, outs), edges, Id);
    var cells := Items(m, AllLetters(ins, outs), edges);
    var m' := PowerFakevars(ins, cells, InputsOf);
    table := Items(m', ins, Projected(cells, InputsOf));
    crossings := cells;
    TwoLevelsGiveTable(aut, ins, outs, crossings, table);
    hide IsTable;
    CompressedArena(aut, ins, outs, crossings, table);
  }
}
