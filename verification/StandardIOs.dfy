/**
  The default precomputer: enumerate every input valuation, and for each one every output
  valuation that satisfies the invariant, with the transitions the resulting letter enables.
*/
module StandardIOs {
  import opened Automata
  import opened Actioners
  import opened Counting

  // Enumerates the valuations of a support.  `exhausted` stands for the support reset to false,
  // which is what the end iterator compares equal to.
  class LetterIt {
    var letterSet: set<Bits>
    var exhausted: bool
    var current: Bits

    // Valuations of `support` not yet delivered, the current one included.
    ghost function Rest(): set<Bits>
      reads this
    {
      if exhausted then {} else letterSet + {current}
    }

    ghost predicate Valid()
      reads this
    {
      (exhausted ==> letterSet == {}) && (!exhausted ==> current !in letterSet)
    }

    constructor (support: set<Bits>)
      requires support != {}
      ensures Valid() && Rest() == support && !exhausted
    {
      var first :| first in support;
      current := first;
      letterSet := support - {first};
      exhausted := false;
    }

    method GetNextLetter()
      requires Valid() && !exhausted
      modifies this
      ensures Valid() && Rest() == old(Rest()) - {old(current)}
      ensures |Rest()| < old(|Rest()|)
    {
      ghost var rest := Rest();
      if letterSet == {} {
        exhausted := true;
      } else {
        var next :| next in letterSet;
        current := next;
        letterSet := letterSet - {next};
      }
      assert Rest() < rest;
      StrictSubsetCount(Rest(), rest);
    }

    // Moves on until the letter satisfies the invariant, or the valuations run out.
    method SkipForbidden(i: Bits, inv: set<Letter>)
      requires Valid()
      modifies this
      ensures Valid()
      ensures !exhausted ==> Letter(i, current) in inv
      ensures Rest() <= old(Rest()) && |Rest()| <= old(|Rest()|)
      ensures forall o :: o in old(Rest()) && Letter(i, o) in inv ==> o in Rest()
    {
      while !exhausted && Letter(i, current) !in inv
        invariant Valid() && Rest() <= old(Rest()) && |Rest()| <= old(|Rest()|)
        invariant forall o :: o in old(Rest()) && Letter(i, o) in inv ==> o in Rest()
        decreases |Rest()|
      {
        GetNextLetter();
      }
    }
  }

  method UpdateTransset(aut: Automaton, l: Letter) returns (ts: TransSet)
    ensures ts == Transitions(aut.out, l)
  {
    ts := [];
    for p := 0 to |aut.out|
      invariant ts == Transitions(aut.out[..p], l)
    {
      var es := aut.out[p];
      for j := 0 to |es|
        invariant ts == Transitions(aut.out[..p], l) + OutPairs(p, es[..j], l)
      {
        assert es[..j + 1][..j] == es[..j];
        if l in es[j].cond {
          ts := ts + [(p, es[j].dst)];
        }
      }
      assert es[..|es|] == es;
      assert aut.out[..p + 1][..p] == aut.out[..p] && aut.out[..p + 1][p] == es;
    }
    assert aut.out[..|aut.out|] == aut.out;
  }

  // s lists the elements of S, each once.
  ghost predicate IsEnumeration(s: seq<Bits>, S: set<Bits>) {
    && (forall x :: x in s <==> x in S)
    && (forall j, k :: 0 <= j < k < |s| ==> s[j] != s[k])
  }

  lemma EnumerationSnoc(s: seq<Bits>, S: set<Bits>, x: Bits)
    requires IsEnumeration(s, S) && x !in S
    ensures IsEnumeration(s + [x], S + {x})
  {
  }

  // The outputs the invariant allows together with input i.
  ghost function AllowedOutputs(i: Bits, outs: set<Bits>, inv: set<Letter>): set<Bits> {
    set o | o in outs && Letter(i, o) in inv
  }

  ghost function RowOf(aut: Automaton, i: Bits, o: Bits): TransIO {
    TransIO(Transitions(aut.out, Letter(i, o)), Letter(i, o))
  }

  ghost predicate ListsOutputs(aut: Automaton, i: Bits, os: seq<Bits>, ios: seq<TransIO>) {
    |ios| == |os| && forall j :: 0 <= j < |ios| ==> ios[j] == RowOf(aut, i, os[j])
  }

  // Of the wanted valuations, those in `done` have been delivered and the others are still to come.
  ghost predicate Delivered(wanted: set<Bits>, done: set<Bits>, rest: set<Bits>) {
    && done <= wanted && done !! rest
    && forall x :: x in wanted ==> x in done || x in rest
  }

  lemma NoneDelivered(wanted: set<Bits>)
    ensures Delivered(wanted, {}, wanted)
  {
  }

  lemma NextDelivered(wanted: set<Bits>, done: set<Bits>, rest: set<Bits>, x: Bits)
    requires Delivered(wanted, done, rest) && x in rest
    ensures x !in done && (x in wanted ==> Delivered(wanted, done + {x}, rest - {x}))
  {
  }

  // The current letter is delivered and forbidden ones are skipped.
  lemma DeliverOne(i: Bits, outs: set<Bits>, inv: set<Letter>, done: set<Bits>, rest: set<Bits>, o: Bits,
                   rest': set<Bits>)
    requires Delivered(AllowedOutputs(i, outs, inv), done, rest) && o in rest && o in outs && Letter(i, o) in inv
    requires rest' <= rest - {o}
    requires forall x :: x in rest - {o} && Letter(i, x) in inv ==> x in rest'
    ensures Delivered(AllowedOutputs(i, outs, inv), done + {o}, rest') && o !in done
  {
  }

  lemma DeliverNone(i: Bits, outs: set<Bits>, inv: set<Letter>, rest: set<Bits>)
    requires rest <= outs && forall x :: x in outs && Letter(i, x) in inv ==> x in rest
    ensures Delivered(AllowedOutputs(i, outs, inv), {}, rest)
  {
  }

  lemma AllDelivered(wanted: set<Bits>, done: set<Bits>)
    requires Delivered(wanted, done, {})
    ensures done == wanted
  {
  }

  lemma ListsOneMore(aut: Automaton, i: Bits, os: seq<Bits>, ios: seq<TransIO>, o: Bits)
    requires ListsOutputs(aut, i, os, ios)
    ensures ListsOutputs(aut, i, os + [o], ios + [RowOf(aut, i, o)])
  {
    hide RowOf;
  }

  method EnumerateOutputs(aut: Automaton, i: Bits, outs: set<Bits>, inv: set<Letter>)
    returns (ios: seq<TransIO>, os: seq<Bits>)
    requires outs != {}
    ensures ListsOutputs(aut, i, os, ios) && IsEnumeration(os, AllowedOutputs(i, outs, inv))
  {
    ghost var allowed, done := AllowedOutputs(i, outs, inv), {};
    ios, os := [], [];
    assert ListsOutputs(aut, i, os, ios);
    hide IsEnumeration, Transitions, AllowedOutputs, Delivered, ListsOutputs;
    EmptyEnumeration();
    var it := new LetterIt(outs);
    it.SkipForbidden(i, inv);
    DeliverNone(i, outs, inv, it.Rest());
    while !it.exhausted
      invariant it.Valid() && it.Rest() <= outs
      invariant !it.exhausted ==> Letter(i, it.current) in inv
      invariant ListsOutputs(aut, i, os, ios)
      invariant IsEnumeration(os, done)
      invariant Delivered(allowed, done, it.Rest())
      decreases |it.Rest()|
    {
      var o := it.current;
      ghost var rest := it.Rest();
      var ts := UpdateTransset(aut, Letter(i, o));
      ListsOneMore(aut, i, os, ios, o);
      it.GetNextLetter();
      it.SkipForbidden(i, inv);
      DeliverOne(i, outs, inv, done, rest, o, it.Rest());
      EnumerationSnoc(os, done, o);
      done := done + {o};
      ios, os := ios + [TransIO(ts, Letter(i, o))], os + [o];
    }
    AllDelivered(allowed, done);
  }

  lemma EmptyEnumeration()
    ensures IsEnumeration([], {})
  {
  }

  // One row of the table: input i with all its outputs.
  ghost predicate ListsInput(aut: Automaton, i: Bits, outs: set<Bits>, inv: set<Letter>,
                             row: (set<Bits>, seq<TransIO>)) {
    row.0 == {i} && exists os :: ListsOutputs(aut, i, os, row.1) && IsEnumeration(os, AllowedOutputs(i, outs, inv))
  }

  ghost predicate ListsInputs(aut: Automaton, order: seq<Bits>, outs: set<Bits>, inv: set<Letter>, table: InputIOs) {
    |table| == |order| && forall k :: 0 <= k < |table| ==> ListsInput(aut, order[k], outs, inv, table[k])
  }

  lemma ListsOneMoreInput(aut: Automaton, order: seq<Bits>, outs: set<Bits>, inv: set<Letter>, table: InputIOs, i: Bits,
                          ios: seq<TransIO>, os: seq<Bits>)
    requires ListsInputs(aut, order, outs, inv, table)
    requires ListsOutputs(aut, i, os, ios) && IsEnumeration(os, AllowedOutputs(i, outs, inv))
    ensures ListsInputs(aut, order + [i], outs, inv, table + [({i}, ios)])
  {
    assert ListsInput(aut, i, outs, inv, ({i}, ios));
    hide ListsInput;
  }

  method Enumerate(aut: Automaton, ins: set<Bits>, outs: set<Bits>, inv: set<Letter>)
    returns (table: InputIOs, order: seq<Bits>)
    requires ins != {} && outs != {}
    ensures ListsInputs(aut, order, outs, inv, table) && IsEnumeration(order, ins)
  {
    ghost var done := {};
    table, order := [], [];
    assert ListsInputs(aut, order, outs, inv, table);
    hide IsEnumeration, ListsOutputs, ListsInputs, Delivered, AllowedOutputs;
    EmptyEnumeration();
    var it := new LetterIt(ins);
    NoneDelivered(ins);
    while !it.exhausted
      invariant it.Valid() && ListsInputs(aut, order, outs, inv, table)
      invariant IsEnumeration(order, done)
      invariant it.Rest() <= ins && Delivered(ins, done, it.Rest())
      decreases |it.Rest()|
    {
      var i := it.current;
      var ios, os := EnumerateOutputs(aut, i, outs, inv);
      ListsOneMoreInput(aut, order, outs, inv, table, i, ios, os);
      NextDelivered(ins, done, it.Rest(), i);
      EnumerationSnoc(order, done, i);
      done := done + {i};
      table, order := table + [({i}, ios)], order + [i];
      it.GetNextLetter();
    }
    AllDelivered(ins, done);
  }

  lemma RowVecs(aut: Automaton, i: Bits, outs: set<Bits>, inv: set<Letter>, os: seq<Bits>, ios: seq<TransIO>)
    requires ListsOutputs(aut, i, os, ios) && IsEnumeration(os, AllowedOutputs(i, outs, inv))
    ensures VecsOfIOs(aut.acc, ios) == Moves(aut, outs, inv, i)
  {
    hide ActionVecOf, Transitions;
    var A, B := VecsOfIOs(aut.acc, ios), Moves(aut, outs, inv, i);
    forall a
      ensures a in A <==> a in B
    {
      if a in A {
        var j :| 0 <= j < |ios| && a == ActionVecOf(aut.acc, ios[j].trans);
        assert os[j] in AllowedOutputs(i, outs, inv);
        assert a == LetterAction(aut, Letter(i, os[j]));
      }
      if a in B {
        var o :| o in outs && Letter(i, o) in inv && a == LetterAction(aut, Letter(i, o));
        assert o in os;
        var j :| 0 <= j < |os| && os[j] == o;
        assert a == ActionVecOf(aut.acc, ios[j].trans);
      }
    }
  }

  lemma InputVecs(aut: Automaton, i: Bits, outs: set<Bits>, inv: set<Letter>, row: (set<Bits>, seq<TransIO>))
    requires ListsInput(aut, i, outs, inv, row)
    ensures VecsOfIOs(aut.acc, row.1) == Moves(aut, outs, inv, i)
  {
    hide ListsOutputs, IsEnumeration, VecsOfIOs, Moves;
    var os :| ListsOutputs(aut, i, os, row.1) && IsEnumeration(os, AllowedOutputs(i, outs, inv));
    RowVecs(aut, i, outs, inv, os, row.1);
  }

  // The enumerated table presents exactly the automaton's game under the invariant.
  lemma TableArena(aut: Automaton, ins: set<Bits>, outs: set<Bits>, inv: set<Letter>, table: InputIOs, order: seq<Bits>)
    requires ListsInputs(aut, order, outs, inv, table) && IsEnumeration(order, ins)
    ensures ArenaOfIOs(aut.acc, table) == ArenaOf(aut, ins, outs, inv)
  {
    hide ListsInput, VecsOfIOs, Moves;
    var A, B := ArenaOfIOs(aut.acc, table), ArenaOf(aut, ins, outs, inv);
    forall V
      ensures V in A <==> V in B
    {
      if V in A {
        var k :| 0 <= k < |table| && V == VecsOfIOs(aut.acc, table[k].1);
        InputVecs(aut, order[k], outs, inv, table[k]);
        assert order[k] in ins;
      }
      if V in B {
        var i :| i in ins && V == Moves(aut, outs, inv, i);
        assert i in order;
        var k :| 0 <= k < |order| && order[k] == i;
        InputVecs(aut, i, outs, inv, table[k]);
      }
    }
  }

  lemma {:induction false} TransitionsInRange(out: seq<seq<Edge>>, l: Letter, n: nat)
    requires |out| <= n && forall p, j :: 0 <= p < |out| && 0 <= j < |out[p]| ==> out[p][j].dst < n
    ensures InRange(Transitions(out, l), n)
  {
    var ts := Transitions(out, l);
    forall k | 0 <= k < |ts|
      ensures ts[k].0 < n && ts[k].1 < n
    {
      TransitionsMember(out, l, ts[k]);
      var e :| e in out[ts[k].0] && e.dst == ts[k].1;
    }
  }

  lemma TableIsInRange(aut: Automaton, order: seq<Bits>, outs: set<Bits>, inv: set<Letter>, table: InputIOs)
    requires aut.Valid() && ListsInputs(aut, order, outs, inv, table)
    ensures TableInRange(table, aut.Size())
  {
    hide IsEnumeration, Transitions, InRange;
    forall k, j | 0 <= k < |table| && 0 <= j < |table[k].1|
      ensures InRange(table[k].1[j].trans, aut.Size())
    {
      assert ListsInput(aut, order[k], outs, inv, table[k]);
      var os :| ListsOutputs(aut, order[k], os, table[k].1) && IsEnumeration(os, AllowedOutputs(order[k], outs, inv));
      TransitionsInRange(aut.out, table[k].1[j].letter, aut.Size());
    }
  }
}
