/**
  The strategy table as a relation over state, input, output and next-state bits, and the
  circuit functions extracted from it: they run exactly like the table.
*/
module TransitionEncoding {
  import opened Vectors
  import opened Automata
  import opened StandardIOs
  import opened Synthesis
  import opened Runs
  import opened Controller
  import opened Extraction

  function Pow2(n: nat): (r: nat)
    ensures 1 <= r
  {
    if n == 0 then 1 else 2 * Pow2(n - 1)
  }

  // Least significant bit first.
  function Encode(s: nat, n: nat): Bits {
    if n == 0 then [] else [s % 2 == 1] + Encode(s / 2, n - 1)
  }

  function Decode(b: Bits): nat {
    if b == [] then 0 else (if b[0] then 1 else 0) + 2 * Decode(b[1..])
  }

  lemma {:induction false} DecodeEncode(s: nat, n: nat)
    requires s < Pow2(n)
    ensures |Encode(s, n)| == n && Decode(Encode(s, n)) == s
  {
    if n > 0 {
      DecodeEncode(s / 2, n - 1);
      assert Encode(s, n)[1..] == Encode(s / 2, n - 1);
    }
  }

  // Bit j of s, as a quotient.
  lemma {:induction false} EncodedBit(s: nat, n: nat, j: nat)
    requires j < n
    ensures |Encode(s, n)| == n && (Encode(s, n)[j] <==> s / Pow2(j) % 2 == 1)
  {
    if j > 0 {
      EncodedBit(s / 2, n - 1, j - 1);
      HalvedQuotient(s, Pow2(j - 1));
    } else {
      EncodedLength(s, n);
    }
  }

  lemma {:induction false} EncodedLength(s: nat, n: nat)
    ensures |Encode(s, n)| == n
  {
    if n > 0 {
      EncodedLength(s / 2, n - 1);
    }
  }

  lemma HalvedQuotient(s: nat, d: nat)
    requires 1 <= d
    ensures s / (2 * d) == s / 2 / d
  {
    var q, h := s / 2 / d, s / 2;
    var r := h - q * d;
    assert 0 <= r < d;
    assert s == 2 * h + s % 2;
    assert s == q * (2 * d) + (2 * r + s % 2) by {
      assert q * (2 * d) == 2 * (q * d);
    }
    QuotientIs(s, 2 * d, q, 2 * r + s % 2);
  }

  lemma ProductsApart(a: nat, b: nat, d: nat)
    requires a < b
    ensures a * d + d <= b * d
  {
    assert b * d == a * d + (b - a) * d;
    assert (b - a) * d == d + (b - a - 1) * d;
  }

  lemma QuotientIs(s: nat, d: nat, q: nat, r: nat)
    requires s == q * d + r && r < d
    ensures s / d == q
  {
    assert s == s / d * d + s % d;
    if s / d < q {
      ProductsApart(s / d, q, d);
    }
    if q < s / d {
      ProductsApart(q, s / d, d);
    }
  }

  // The latches of the circuit start at zero, which is the code of the first state.
  lemma {:induction false} EncodeZero(n: nat)
    ensures |Encode(0, n)| == n && forall j :: 0 <= j < n ==> !Encode(0, n)[j]
  {
    if n > 0 {
      EncodeZero(n - 1);
      assert forall j :: 0 < j < n ==> Encode(0, n)[j] == Encode(0, n - 1)[j - 1];
    }
  }

  // The shift loop never loses a bit: nothing is left of s when the variables run out.
  method BinaryEncode(s: nat, n: nat) returns (res: Bits)
    requires s < Pow2(n)
    ensures res == Encode(s, n)
    ensures |res| == n && forall j :: 0 <= j < n ==> (res[j] <==> s / Pow2(j) % 2 == 1)
  {
    res := [];
    var rest: nat := s;
    while |res| < n
      invariant |res| <= n && rest < Pow2(n - |res|)
      invariant Encode(s, n) == res + Encode(rest, n - |res|)
      decreases n - |res|
    {
      assert Encode(rest, n - |res|) == [rest % 2 == 1] + Encode(rest / 2, n - |res| - 1);
      res := res + [rest % 2 == 1];
      rest := rest / 2;
    }
    assert rest == 0;
    forall j | 0 <= j < n
      ensures res[j] <==> s / Pow2(j) % 2 == 1
    {
      EncodedBit(s, n, j);
    }
  }

  // Number of variables for a number of states: the ceiling of its base-2 logarithm.
  function MappingBits(n: nat): nat {
    if n <= 1 then 0 else 1 + MappingBits((n + 1) / 2)
  }

  lemma {:induction false} MappingBitsFit(n: nat)
    ensures n <= Pow2(MappingBits(n))
    ensures 1 < n ==> Pow2(MappingBits(n) - 1) < n
  {
    if 1 < n {
      MappingBitsFit((n + 1) / 2);
    }
  }

  type Valuation = (Bits, Bits)

  function EncodedTransition(k: nat, tr: Transition, b: nat): (Valuation, Bits, Bits) {
    ((Encode(k, b), tr.IO.input), tr.IO.output, Encode(tr.newState, b))
  }

  ghost function EncodedRow(k: nat, row: seq<Transition>, b: nat): Encoding<Valuation> {
    set y | 0 <= y < |row| :: EncodedTransition(k, row[y], b)
  }

  ghost function TableEncoding(transitions: Table, b: nat): Encoding<Valuation> {
    AllRows(transitions, b, |transitions|)
  }

  ghost function AllRows(transitions: Table, b: nat, m: nat): Encoding<Valuation>
    requires m <= |transitions|
  {
    if m == 0 then {} else AllRows(transitions, b, m - 1) + EncodedRow(m - 1, transitions[m - 1], b)
  }

  lemma {:induction false} AllRowsMember(transitions: Table, b: nat, m: nat, e: (Valuation, Bits, Bits))
    requires m <= |transitions|
    ensures e in AllRows(transitions, b, m) <==> exists k :: 0 <= k < m && e in EncodedRow(k, transitions[k], b)
  {
    hide EncodedRow;
    if m > 0 {
      AllRowsMember(transitions, b, m - 1, e);
    }
  }

  // The two nested loops over states and their transitions.
  method EncodeTable(transitions: Table, b: nat) returns (encoding: Encoding<Valuation>)
    ensures encoding == TableEncoding(transitions, b)
  {
    encoding := {};
    hide Encode;
    for k := 0 to |transitions|
      invariant encoding == AllRows(transitions, b, k)
    {
      var row := transitions[k];
      var transEncoding: Encoding<Valuation> := {};
      for y := 0 to |row|
        invariant transEncoding == EncodedRow(k, row[..y], b)
      {
        transEncoding := transEncoding + {EncodedTransition(k, row[y], b)};
      }
      assert row[..|row|] == row;
      encoding := encoding + transEncoding;
    }
  }

  // Codes of different states differ, so an encoded row entry is a move of that very state.
  lemma EncodedIsMove(transitions: Table, b: nat, k: nat, i: Bits, o: Bits, m: Bits)
    requires k < |transitions| <= Pow2(b)
    ensures ((Encode(k, b), i), o, m) in TableEncoding(transitions, b) <==>
            exists tr :: TableMove(transitions, k, i, tr) && tr.IO.output == o && Encode(tr.newState, b) == m
  {
    var e := ((Encode(k, b), i), o, m);
    AllRowsMember(transitions, b, |transitions|, e);
    if e in TableEncoding(transitions, b) {
      var k' :| 0 <= k' < |transitions| && e in EncodedRow(k', transitions[k'], b);
      var y :| 0 <= y < |transitions[k']| && e == EncodedTransition(k', transitions[k'][y], b);
      DecodeEncode(k, b);
      DecodeEncode(k', b);
      assert k == k';
      assert TableMove(transitions, k, i, transitions[k][y]);
    }
    if exists tr :: TableMove(transitions, k, i, tr) && tr.IO.output == o && Encode(tr.newState, b) == m {
      var tr :| TableMove(transitions, k, i, tr) && tr.IO.output == o && Encode(tr.newState, b) == m;
      var y :| 0 <= y < |transitions[k]| && transitions[k][y] == tr;
      hide Encode;
      assert e == EncodedTransition(k, transitions[k][y], b);
      assert e in EncodedRow(k, transitions[k], b);
    }
  }

  // --- The circuit -----------------------------------------------------------------------------

  datatype Circuit = Circuit(outputs: seq<set<Valuation>>, latches: seq<set<Valuation>>, bits: nat) {
    // Latch values after a history of inputs.
    ghost function StateBits(h: seq<Bits>): Bits {
      if h == [] then Encode(0, bits) else ValueAt(latches, (StateBits(h[..|h| - 1]), h[|h| - 1]))
    }

    ghost function Strat(): Strategy {
      (h: seq<Bits>) => if h == [] then [] else ValueAt(outputs, (StateBits(h[..|h| - 1]), h[|h| - 1]))
    }

    // The functions satisfy the encoding jointly wherever it is defined.
    ghost predicate Refines(E: Encoding<Valuation>) {
      forall x :: x in Sources(E) ==> (x, ValueAt(outputs, x), ValueAt(latches, x)) in E
    }
  }

  lemma CircuitStep(s: Synthesized, c: Circuit, k: nat, i: Bits)
    requires s.Built() && k < |s.states| <= Pow2(c.bits) && i in s.ins
    requires c.Refines(TableEncoding(s.transitions, c.bits))
    ensures var tr := StepOf(s.transitions, k, i);
            && ValueAt(c.outputs, (Encode(k, c.bits), i)) == tr.IO.output
            && ValueAt(c.latches, (Encode(k, c.bits), i)) == Encode(tr.newState, c.bits)
  {
    hide Encode, TableEncoding, ValueAt, StepOf, Synthesized.Built, MoveOk;
    var tr := StepOf(s.transitions, k, i);
    StepIsMove(s, k, i);
    BuiltShape(s);
    var tr' := MoveOfCircuit(s.transitions, c, k, i, tr);
    OnlyMove(s, k, i, tr, tr');
  }

  lemma BuiltShape(s: Synthesized)
    requires s.Built()
    ensures |s.transitions| == |s.states|
  {
  }

  // Where the table has a move, the circuit makes one of its moves.
  lemma MoveOfCircuit(transitions: Table, c: Circuit, k: nat, i: Bits, tr: Transition) returns (tr': Transition)
    requires k < |transitions| <= Pow2(c.bits) && c.Refines(TableEncoding(transitions, c.bits))
    requires TableMove(transitions, k, i, tr)
    ensures TableMove(transitions, k, i, tr') && tr'.IO.output == ValueAt(c.outputs, (Encode(k, c.bits), i))
    ensures Encode(tr'.newState, c.bits) == ValueAt(c.latches, (Encode(k, c.bits), i))
  {
    hide Encode, TableEncoding, ValueAt, TableMove;
    var x, E := (Encode(k, c.bits), i), TableEncoding(transitions, c.bits);
    EncodedIsMove(transitions, c.bits, k, i, tr.IO.output, Encode(tr.newState, c.bits));
    assert (x, tr.IO.output, Encode(tr.newState, c.bits)) in E;
    assert x in Sources(E);
    assert (x, ValueAt(c.outputs, x), ValueAt(c.latches, x)) in E;
    EncodedIsMove(transitions, c.bits, k, i, ValueAt(c.outputs, x), ValueAt(c.latches, x));
    tr' :| TableMove(transitions, k, i, tr') && tr'.IO.output == ValueAt(c.outputs, x) &&
           Encode(tr'.newState, c.bits) == ValueAt(c.latches, x);
  }

  lemma OnlyMove(s: Synthesized, k: nat, i: Bits, tr: Transition, tr': Transition)
    requires s.Built() && k < |s.states| && i in s.ins
    requires TableMove(s.transitions, k, i, tr) && TableMove(s.transitions, k, i, tr')
    ensures tr == tr'
  {
    hide ServesAll, RowOk, Leq;
    assert i in s.who;
    var x :| 0 <= x < |s.who| && s.who[x] == i;
    MoveExists(s.aut, s.who, s.outs, s.inv, s.L, s.K, s.F, s.states, s.transitions, k, x);
  }

  // The extracted circuit runs exactly like the table.
  lemma {:induction false} CircuitFollowsTable(s: Synthesized, c: Circuit, h: seq<Bits>)
    requires s.Built() && |s.states| <= Pow2(c.bits) && c.Refines(TableEncoding(s.transitions, c.bits))
    requires AllIn(h, s.ins)
    ensures StateAfter(s.transitions, h) < |s.states|
    ensures c.StateBits(h) == Encode(StateAfter(s.transitions, h), c.bits)
    ensures h != [] ==> c.Strat()(h) == s.Strat()(h)
  {
    hide ServesAll, ValidTable, IsEnumeration, Leq, InitVec, Encode, TableEncoding, StepOf, ValueAt, Circuit.Refines;
    AlwaysDominated(s, h);
    if h != [] {
      var prev, i := h[..|h| - 1], h[|h| - 1];
      CircuitFollowsTable(s, c, prev);
      CircuitStep(s, c, StateAfter(s.transitions, prev), i);
    }
  }

  lemma {:induction false} SameWord(strat: Strategy, strat': Strategy, ins: set<Bits>, h: seq<Bits>)
    requires forall h' :: AllIn(h', ins) && h' != [] ==> strat(h') == strat'(h')
    requires AllIn(h, ins)
    ensures Word(strat, h) == Word(strat', h)
  {
    if h != [] {
      SameWord(strat, strat', ins, h[..|h| - 1]);
    }
  }

  ghost predicate Agree(strat: Strategy, strat': Strategy, ins: set<Bits>) {
    forall h :: AllIn(h, ins) && h != [] ==> strat(h) == strat'(h)
  }

  // Strategies that agree on every input sequence are equally legal and keep the same bounds.
  lemma AgreeingStrategies(strat: Strategy, strat': Strategy, aut: Automaton, ins: set<Bits>, outs: set<Bits>,
                           inv: set<Letter>, K: int)
    requires Agree(strat, strat', ins)
    ensures Legal(strat', ins, outs, inv) ==> Legal(strat, ins, outs, inv)
    ensures Bounds(strat', aut, ins, K) ==> Bounds(strat, aut, ins, K)
  {
    hide WordBounded;
    if Bounds(strat', aut, ins, K) {
      forall h | AllIn(h, ins)
        ensures WordBounded(aut, Word(strat, h), K)
      {
        SameWord(strat, strat', ins, h);
      }
    }
    if Legal(strat', ins, outs, inv) {
      forall h | AllIn(h, ins) && h != []
        ensures LegalAt(strat, outs, inv, h)
      {
        assert LegalAt(strat', outs, inv, h);
      }
    }
  }

  lemma CircuitAgrees(s: Synthesized, c: Circuit)
    requires s.Built() && |s.states| <= Pow2(c.bits) && c.Refines(TableEncoding(s.transitions, c.bits))
    ensures Agree(c.Strat(), s.Strat(), s.ins)
  {
    hide Synthesized.Built, Circuit.Refines, Circuit.Strat, TableStrategy, TableEncoding;
    forall h | AllIn(h, s.ins) && h != []
      ensures c.Strat()(h) == s.Strat()(h)
    {
      CircuitFollowsTable(s, c, h);
    }
  }

  // A circuit that refines the encoded table is a safe controller: every output it produces is
  // allowed, and no run of the automaton ever enters K accepting states.
  lemma CircuitIsSafe(s: Synthesized, c: Circuit)
    requires s.Valid() && |s.states| <= Pow2(c.bits) && c.Refines(TableEncoding(s.transitions, c.bits))
    ensures Legal(c.Strat(), s.ins, s.outs, s.inv) && Bounds(c.Strat(), s.aut, s.ins, s.K)
  {
    ControllerIsSafe(s);
    CircuitAgrees(s, c);
    hide Synthesized.Built, Circuit.Refines, Circuit.Strat, TableStrategy, Legal, Bounds, Agree, TableEncoding;
    AgreeingStrategies(c.Strat(), s.Strat(), s.aut, s.ins, s.outs, s.inv, s.K);
  }

  // It is legal at whatever bound the table was filled in.
  lemma CircuitIsLegal(s: Synthesized, c: Circuit)
    requires s.Built() && |s.states| <= Pow2(c.bits) && c.Refines(TableEncoding(s.transitions, c.bits))
    ensures Legal(c.Strat(), s.ins, s.outs, s.inv)
  {
    ControllerIsLegal(s);
    CircuitAgrees(s, c);
    hide Synthesized.Built, Circuit.Refines, Circuit.Strat, TableStrategy, Legal, Bounds, Agree, TableEncoding;
    AgreeingStrategies(c.Strat(), s.Strat(), s.aut, s.ins, s.outs, s.inv, s.K);
  }
}
