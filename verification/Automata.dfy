/**
  Universal co-Buechi automata over letters made of an input and an output valuation, and the
  action vector a letter induces on counter vectors.
*/
module Automata {
  import opened Vectors
  import opened Game

  // A valuation of the input, output or state propositions.
  type Bits = seq<bool>

  datatype Letter = Letter(input: Bits, output: Bits)

  // A condition is the set of letters that satisfy it.
  datatype Edge = Edge(dst: nat, cond: set<Letter>)

  datatype Automaton = Automaton(init: nat, acc: seq<bool>, out: seq<seq<Edge>>) {
    function Size(): nat {
      |out|
    }

    predicate Valid() {
      && |acc| == |out|
      && init < |out|
      && forall p, j :: 0 <= p < |out| && 0 <= j < |out[p]| ==> out[p][j].dst < |out|
    }
  }

  // Pairs (source, destination), the transitions one letter enables.
  type TransSet = seq<(nat, nat)>

  function OutPairs(p: nat, es: seq<Edge>, l: Letter): TransSet {
    if es == [] then []
    else
      var e := es[|es| - 1];
      OutPairs(p, es[..|es| - 1], l) + (if l in e.cond then [(p, e.dst)] else [])
  }

  function Transitions(out: seq<seq<Edge>>, l: Letter): TransSet {
    if out == [] then []
    else Transitions(out[..|out| - 1], l) + OutPairs(|out| - 1, out[|out| - 1], l)
  }

  predicate InRange(ts: TransSet, n: nat) {
    forall k :: 0 <= k < |ts| ==> ts[k].0 < n && ts[k].1 < n
  }

  function PredsInto(ts: TransSet, q: nat, acc: bool): seq<Pred> {
    if ts == [] then []
    else
      var tr := ts[|ts| - 1];
      PredsInto(ts[..|ts| - 1], q, acc) + (if tr.1 == q then [Pred(tr.0, acc)] else [])
  }

  function ActionVecOf(acc: seq<bool>, ts: TransSet): ActionVec {
    seq(|acc|, q requires 0 <= q < |acc| => PredsInto(ts, q, acc[q]))
  }

  function LetterAction(aut: Automaton, l: Letter): ActionVec {
    ActionVecOf(aut.acc, Transitions(aut.out, l))
  }

  // The automaton can move from p to q while reading l.
  ghost predicate Steps(aut: Automaton, p: nat, q: nat, l: Letter) {
    p < |aut.out| && exists e :: e in aut.out[p] && e.dst == q && l in e.cond
  }

  lemma {:induction false} OutPairsMember(p: nat, es: seq<Edge>, l: Letter, x: (nat, nat))
    ensures x in OutPairs(p, es, l) <==> x.0 == p && exists e :: e in es && e.dst == x.1 && l in e.cond
  {
    if es != [] {
      var init, last := es[..|es| - 1], es[|es| - 1];
      OutPairsMember(p, init, l, x);
      assert es == init + [last];
    }
  }

  lemma {:induction false} TransitionsMember(out: seq<seq<Edge>>, l: Letter, x: (nat, nat))
    ensures x in Transitions(out, l) <==>
            x.0 < |out| && exists e :: e in out[x.0] && e.dst == x.1 && l in e.cond
  {
    if out != [] {
      var n := |out| - 1;
      TransitionsMember(out[..n], l, x);
      OutPairsMember(n, out[n], l, x);
    }
  }

  lemma {:induction false} PredsIntoMember(ts: TransSet, q: nat, acc: bool, e: Pred)
    ensures e in PredsInto(ts, q, acc) <==> e.acc == acc && (e.src, q) in ts
  {
    if ts != [] {
      var init, last := ts[..|ts| - 1], ts[|ts| - 1];
      PredsIntoMember(init, q, acc, e);
      assert ts == init + [last];
    }
  }

  // The predecessors a letter's action lists for q are exactly the automaton's.
  lemma LetterActionMember(aut: Automaton, l: Letter, q: nat, e: Pred)
    requires aut.Valid() && q < aut.Size()
    ensures e in LetterAction(aut, l)[q] <==> e.acc == aut.acc[q] && Steps(aut, e.src, q, l)
  {
    PredsIntoMember(Transitions(aut.out, l), q, aut.acc[q], e);
    TransitionsMember(aut.out, l, (e.src, q));
  }

  lemma LetterActionFits(aut: Automaton, l: Letter)
    requires aut.Valid()
    ensures FitsVec(LetterAction(aut, l), aut.Size())
  {
    var a: ActionVec := LetterAction(aut, l);
    forall p, j | 0 <= p < |a| && 0 <= j < |a[p]|
      ensures a[p][j].src < aut.Size()
    {
      LetterActionMember(aut, l, p, a[p][j]);
    }
  }

  // Forward images along a letter, in terms of the automaton's own steps.
  lemma ForwardAlongLetter(aut: Automaton, l: Letter, v: Vec, K: int, q: nat)
    requires aut.Valid() && |v| == aut.Size() && Floor(v) && 1 <= K && q < aut.Size()
    ensures |Forward(v, LetterAction(aut, l), K)| == aut.Size()
    ensures -1 <= Forward(v, LetterAction(aut, l), K)[q] <= K
    ensures forall p: nat :: Steps(aut, p, q, l) && v[p] != -1 ==>
              Min(K, v[p] + Bump(aut.acc[q])) <= Forward(v, LetterAction(aut, l), K)[q]
    ensures Forward(v, LetterAction(aut, l), K)[q] != -1 ==>
              exists p: nat :: Steps(aut, p, q, l) && v[p] != -1 &&
                Forward(v, LetterAction(aut, l), K)[q] == Min(K, v[p] + Bump(aut.acc[q]))
  {
    var a: ActionVec := LetterAction(aut, l);
    FwdAtIsMax(v, a[q], K);
    forall p: nat | Steps(aut, p, q, l) && v[p] != -1
      ensures Min(K, v[p] + Bump(aut.acc[q])) <= Forward(v, a, K)[q]
    {
      var e := Pred(p, aut.acc[q]);
      LetterActionMember(aut, l, q, e);
      assert Active(v, e);
    }
    if FwdAt(v, a[q], K) != -1 {
      var e :| e in a[q] && Active(v, e) && FwdAt(v, a[q], K) == Pushed(v, e, K);
      LetterActionMember(aut, l, q, e);
    }
  }

  // --- The game of an automaton ------------------------------------------------------------

  ghost function Moves(aut: Automaton, outs: set<Bits>, inv: set<Letter>, i: Bits): set<ActionVec> {
    set o | o in outs && Letter(i, o) in inv :: LetterAction(aut, Letter(i, o))
  }

  // For every input the controller may answer any output the invariant allows.
  ghost function ArenaOf(aut: Automaton, ins: set<Bits>, outs: set<Bits>, inv: set<Letter>): Arena {
    set i | i in ins :: Moves(aut, outs, inv, i)
  }

  function AllLetters(ins: set<Bits>, outs: set<Bits>): set<Letter> {
    set i, o | i in ins && o in outs :: Letter(i, o)
  }

  // Staying inside S is possible from v, stated with letters.
  ghost predicate Answers(aut: Automaton, outs: set<Bits>, inv: set<Letter>, K: int, S: iset<Vec>, v: Vec, i: Bits) {
    exists o :: o in outs && Letter(i, o) in inv && Forward(v, LetterAction(aut, Letter(i, o)), K) in S
  }

  lemma ClosedByLetters(aut: Automaton, ins: set<Bits>, outs: set<Bits>, inv: set<Letter>, K: int, S: iset<Vec>)
    ensures IsClosed(ArenaOf(aut, ins, outs, inv), K, S) <==>
            forall v, i :: v in S && i in ins ==> Answers(aut, outs, inv, K, S, v, i)
  {
    var g := ArenaOf(aut, ins, outs, inv);
    if IsClosed(g, K, S) {
      forall v, i | v in S && i in ins
        ensures Answers(aut, outs, inv, K, S, v, i)
      {
        var A := Moves(aut, outs, inv, i);
        assert A in g && CanStay(A, K, S, v);
        var a :| a in A && Forward(v, a, K) in S;
      }
    }
    if forall v, i :: v in S && i in ins ==> Answers(aut, outs, inv, K, S, v, i) {
      forall v, A | v in S && A in g
        ensures CanStay(A, K, S, v)
      {
        var i :| i in ins && A == Moves(aut, outs, inv, i);
        assert Answers(aut, outs, inv, K, S, v, i);
        var o :| o in outs && Letter(i, o) in inv && Forward(v, LetterAction(aut, Letter(i, o)), K) in S;
        assert LetterAction(aut, Letter(i, o)) in A;
      }
    }
  }

  // The automaton-level counterpart of Game.RespectsBooleans.
  ghost predicate Saturated(aut: Automaton, t: nat, roots: set<nat>) {
    && t <= |aut.out| && |aut.acc| == |aut.out|
    && (forall q :: t <= q < |aut.acc| ==> !aut.acc[q])
    && (forall p, j :: 0 <= p < |aut.out| && 0 <= j < |aut.out[p]| ==>
          var q := aut.out[p][j].dst;
          q !in roots && (t <= q ==> t <= p || p in roots))
  }

  lemma LetterActionRespects(aut: Automaton, t: nat, roots: set<nat>, l: Letter)
    requires aut.Valid() && Saturated(aut, t, roots)
    ensures RespectsBooleans(LetterAction(aut, l), t, roots)
  {
    var a: ActionVec := LetterAction(aut, l);
    forall p: nat, e | p < |a| && e in a[p]
      ensures RespectsAt(p, e, t, roots)
    {
      LetterActionMember(aut, l, p, e);
      var edge :| edge in aut.out[e.src] && edge.dst == p && l in edge.cond;
      var k :| 0 <= k < |aut.out[e.src]| && aut.out[e.src][k] == edge;
      assert aut.out[e.src][k].dst == p;
    }
  }

  lemma SaturatedIsProper(aut: Automaton, t: nat, roots: set<nat>, ins: set<Bits>, outs: set<Bits>, inv: set<Letter>)
    requires aut.Valid() && Saturated(aut, t, roots)
    ensures ProperArena(ArenaOf(aut, ins, outs, inv), aut.Size(), t, roots)
  {
    forall A: set<ActionVec>, a: ActionVec | A in ArenaOf(aut, ins, outs, inv) && a in A
      ensures FitsVec(a, aut.Size()) && RespectsBooleans(a, t, roots)
    {
      var i :| i in ins && A == Moves(aut, outs, inv, i);
      var o :| o in outs && Letter(i, o) in inv && a == LetterAction(aut, Letter(i, o));
      LetterActionFits(aut, Letter(i, o));
      LetterActionRespects(aut, t, roots, Letter(i, o));
    }
  }
}
