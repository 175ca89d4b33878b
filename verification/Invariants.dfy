/**
  Invariants, formulas of the form G(c): how the automaton of one is recognised, the two-state
  automaton built back from it, and why restricting the outputs to c and adding that automaton
  to the game come to the same.
*/
module Invariants {
  import opened Vectors
  import opened Game
  import opened Automata
  import opened Actioners
  import opened Runs
  import opened Merging
  import opened Composition

  // --- Recognition ---------------------------------------------------------------------------------

  // The condition of the last edge of es into dst.
  function LastCond(es: seq<Edge>, dst: nat): Option<set<Letter>> {
    if es == [] then None
    else if es[|es| - 1].dst == dst then Some(es[|es| - 1].cond)
    else LastCond(es[..|es| - 1], dst)
  }

  // Edge j is the last one into dst.
  predicate IsLastEdge(es: seq<Edge>, dst: nat, j: nat) {
    j < |es| && es[j].dst == dst && forall k :: j < k < |es| ==> es[k].dst != dst
  }

  lemma {:induction false} LastCondIsLast(es: seq<Edge>, dst: nat, x: set<Letter>)
    ensures LastCond(es, dst) == Some(x) <==> exists j :: 0 <= j < |es| && IsLastEdge(es, dst, j) && es[j].cond == x
    ensures LastCond(es, dst) == None <==> forall j :: 0 <= j < |es| ==> es[j].dst != dst
  {
    if es != [] {
      var n := |es| - 1;
      if es[n].dst == dst {
        assert IsLastEdge(es, dst, n);
      } else {
        LastCondIsLast(es[..n], dst, x);
        forall j: nat | j < n
          ensures IsLastEdge(es, dst, j) <==> IsLastEdge(es[..n], dst, j)
        {
        }
      }
    }
  }

  predicate OnlyLoops(es: seq<Edge>, q: nat, letters: set<Letter>) {
    es != [] && forall j :: 0 <= j < |es| ==> es[j].dst == q && es[j].cond == letters
  }

  // Two states, the second an accepting sink, and complementary conditions on the last edge that
  // stays and on the last one that leaves.
  predicate LooksInvariant(aut: Automaton, letters: set<Letter>)
    requires aut.Valid()
  {
    aut.Size() == 2 &&
    var other := 1 - aut.init;
    && !aut.acc[aut.init] && aut.acc[other]
    && OnlyLoops(aut.out[other], other, letters)
    && LastCond(aut.out[aut.init], aut.init).Some? && LastCond(aut.out[aut.init], other).Some?
    && LastCond(aut.out[aut.init], aut.init).value == letters - LastCond(aut.out[aut.init], other).value
  }

  // The plain automaton of G(c) is recognised, whichever state and edge come first.
  lemma PlainMonitorRecognised(aut: Automaton, letters: set<Letter>, c: set<Letter>)
    requires aut.Valid() && aut.Size() == 2 && c <= letters && !aut.acc[aut.init] && aut.acc[1 - aut.init]
    requires aut.out[1 - aut.init] == [Edge(1 - aut.init, letters)]
    requires var stay, leave := Edge(aut.init, c), Edge(1 - aut.init, letters - c);
             aut.out[aut.init] == [stay, leave] || aut.out[aut.init] == [leave, stay]
    ensures LooksInvariant(aut, letters) && LastCond(aut.out[aut.init], aut.init) == Some(c)
  {
    var es, other := aut.out[aut.init], 1 - aut.init;
    var j := if es[0].dst == aut.init then 0 else 1;
    LastCondIsLast(es, aut.init, c);
    LastCondIsLast(es, other, letters - c);
    assert IsLastEdge(es, aut.init, j) && IsLastEdge(es, other, 1 - j);
    assert letters - (letters - c) == c;
  }

  datatype Scan = Scan(stay: Option<set<Letter>>, leave: Option<set<Letter>>, sink: bool)

  // One edge of the automaton; None when it cannot belong to an invariant.
  function ScanEdge(st: Scan, src: nat, e: Edge, init: nat, letters: set<Letter>): Option<Scan> {
    if src == init then
      if e.dst == init then Some(st.(stay := Some(e.cond)))
      else Some(st.(leave := Some(e.cond)))
    else if e.dst != init && e.cond == letters then Some(st.(sink := true))
    else None
  }

  method ScanState(st: Scan, src: nat, es: seq<Edge>, init: nat, letters: set<Letter>) returns (r: Option<Scan>)
    requires src < 2 && init < 2 && forall j :: 0 <= j < |es| ==> es[j].dst < 2
    ensures src == init ==> r == Some(Scan(Later(st.stay, LastCond(es, init)), Later(st.leave, LastCond(es, 1 - init)),
                                           st.sink))
    ensures src != init ==>
              if es == [] || OnlyLoops(es, src, letters) then r == Some(st.(sink := st.sink || es != [])) else r == None
  {
    var cur := st;
    for j := 0 to |es|
      invariant src == init ==>
                  cur == Scan(Later(st.stay, LastCond(es[..j], init)), Later(st.leave, LastCond(es[..j], 1 - init)),
                              st.sink)
      invariant src != init ==> cur == st.(sink := st.sink || j > 0) && (j == 0 || OnlyLoops(es[..j], src, letters))
    {
      var next := ScanEdge(cur, src, es[j], init, letters);
      assert es[..j + 1][..j] == es[..j] && es[..j + 1][j] == es[j];
      if next.None? {
        return None;
      }
      cur := next.value;
    }
    assert es[..|es|] == es;
    r := Some(cur);
  }

  function Later(x: Option<set<Letter>>, y: Option<set<Letter>>): Option<set<Letter>> {
    if y.Some? then y else x
  }

  method IsInvariant(aut: Automaton, letters: set<Letter>) returns (r: bool, condition: set<Letter>)
    requires aut.Valid()
    ensures r <==> LooksInvariant(aut, letters)
    ensures r ==> Some(condition) == LastCond(aut.out[aut.init], aut.init)
    ensures r ==> exists j :: 0 <= j < |aut.out[aut.init]| && IsLastEdge(aut.out[aut.init], aut.init, j) &&
                              aut.out[aut.init][j].cond == condition
  {
    condition := {};
    if aut.Size() != 2 {
      return false, condition;
    }
    var init, other := aut.init, 1 - aut.init;
    if aut.acc[init] || !aut.acc[other] {
      return false, condition;
    }
    var first := ScanState(Scan(None, None, false), 0, aut.out[0], init, letters);
    if first.None? {
      return false, condition;
    }
    var second := ScanState(first.value, 1, aut.out[1], init, letters);
    if second.None? {
      return false, condition;
    }
    var st := second.value;
    if st.stay.Some? && st.leave.Some? && st.sink {
      LastCondIsLast(aut.out[init], init, st.stay.value);
      return st.stay.value == letters - st.leave.value, st.stay.value;
    }
    return false, condition;
  }

  // --- What a monitor is -----------------------------------------------------------------------------

  // Letters in c keep the automaton in its initial state, all others lead to the accepting sink.
  ghost predicate IsMonitor(aut: Automaton, letters: set<Letter>, c: set<Letter>) {
    && aut.Valid() && aut.Size() == 2 && !aut.acc[aut.init] && aut.acc[1 - aut.init]
    && MonitorSteps(aut, aut.init, 1 - aut.init, letters, c)
  }

  ghost predicate MonitorSteps(aut: Automaton, init: nat, other: nat, letters: set<Letter>, c: set<Letter>) {
    && (forall l :: l in letters ==> (Steps(aut, init, other, l) <==> l !in c))
    && (forall l :: l in letters && l in c ==> Steps(aut, init, init, l))
    && (forall l :: l in letters ==> Steps(aut, other, other, l))
    && (forall l :: !Steps(aut, other, init, l))
  }

  lemma {:induction false} LastCondIsEdge(es: seq<Edge>, dst: nat)
    ensures LastCond(es, dst).Some? ==> exists e :: e in es && e.dst == dst && e.cond == LastCond(es, dst).value
  {
    if es != [] && es[|es| - 1].dst != dst {
      LastCondIsEdge(es[..|es| - 1], dst);
    }
  }

  lemma SinkSteps(aut: Automaton, letters: set<Letter>, other: nat, q: nat, l: Letter)
    requires aut.Valid() && other < aut.Size() && OnlyLoops(aut.out[other], other, letters)
    ensures Steps(aut, other, q, l) <==> q == other && l in letters
  {
    var es := aut.out[other];
    if l in letters {
      assert es[0] in es;
    }
  }

  // No letter of the condition labels an edge into the sink.
  ghost predicate LeavesOutside(aut: Automaton, c: set<Letter>)
    requires aut.init < 2
  {
    forall l :: l in c ==> !Steps(aut, aut.init, 1 - aut.init, l)
  }

  // What is recognised really is a monitor exactly when no letter of the condition also leaves the
  // initial state, by an edge that the scan overwrote.
  lemma RecognisedIsMonitor(aut: Automaton, letters: set<Letter>, c: set<Letter>)
    requires aut.Valid() && LooksInvariant(aut, letters) && Some(c) == LastCond(aut.out[aut.init], aut.init)
    ensures IsMonitor(aut, letters, c) <==> LeavesOutside(aut, c)
  {
    var init, other := aut.init, 1 - aut.init;
    LastCondIsEdge(aut.out[init], init);
    LastCondIsEdge(aut.out[init], other);
    var stay :| stay in aut.out[init] && stay.dst == init && stay.cond == c;
    var leave :| leave in aut.out[init] && leave.dst == other && leave.cond == LastCond(aut.out[init], other).value;
    forall l
      ensures l in c ==> Steps(aut, init, init, l)
      ensures l in letters && l !in c ==> Steps(aut, init, other, l)
      ensures l in letters ==> Steps(aut, other, other, l)
      ensures !Steps(aut, other, init, l)
    {
      SinkSteps(aut, letters, other, other, l);
      SinkSteps(aut, letters, other, init, l);
    }
    assert c <= letters;
    hide Steps, LastCond;
  }

  predicate NoParallelEdges(es: seq<Edge>) {
    forall j, k :: 0 <= j < k < |es| ==> es[j].dst != es[k].dst
  }

  // With one edge per destination the scan overwrites nothing, so what it accepts is a monitor.
  lemma NoParallelEdgesSuffice(aut: Automaton, letters: set<Letter>, c: set<Letter>)
    requires aut.Valid() && LooksInvariant(aut, letters) && Some(c) == LastCond(aut.out[aut.init], aut.init)
    requires NoParallelEdges(aut.out[aut.init])
    ensures LeavesOutside(aut, c) && IsMonitor(aut, letters, c)
  {
    var es, other := aut.out[aut.init], 1 - aut.init;
    LastCondIsEdge(es, other);
    var leave :| leave in es && leave.dst == other && leave.cond == LastCond(es, other).value;
    assert forall e :: e in es && e.dst == other ==> e == leave;
    assert c == letters - leave.cond;
    RecognisedIsMonitor(aut, letters, c);
  }

  function Misread(x: Letter, y: Letter): Automaton {
    Automaton(0, [false, true], [[Edge(0, {x}), Edge(1, {x}), Edge(1, {y})], [Edge(1, {x, y})]])
  }

  // Two parallel edges from the initial state to the sink are enough to read a wrong condition: of
  // two letters, G(x) is recognised, yet x loses as well.
  lemma ParallelEdgesMisread(x: Letter, y: Letter)
    requires x != y
    ensures var aut := Misread(x, y);
            && aut.Valid() && LooksInvariant(aut, {x, y}) && LastCond(aut.out[0], 0) == Some({x})
            && !LeavesOutside(aut, {x}) && !IsMonitor(aut, {x, y}, {x})
  {
    var aut := Misread(x, y);
    var es := aut.out[0];
    assert es[..2] == [Edge(0, {x}), Edge(1, {x})] && es[..2][..1] == [Edge(0, {x})];
    assert LastCond(es[..2][..1], 0) == Some({x});
    assert LastCond(es[..2], 0) == Some({x});
    assert LastCond(es, 0) == Some({x}) && LastCond(es, 1) == Some({y});
    assert {x} == {x, y} - {y};
    assert Edge(1, {x}) in es;
    assert Steps(aut, 0, 1, x);
  }

  // --- What a monitor demands ------------------------------------------------------------------------

  ghost predicate AllLettersIn(w: seq<Letter>, c: set<Letter>) {
    forall k :: 0 <= k < |w| ==> w[k] in c
  }

  lemma {:induction false} WordAt(strat: Strategy, h: seq<Bits>)
    ensures |Word(strat, h)| == |h|
    ensures forall k :: 0 <= k < |h| ==> Word(strat, h)[k] == Letter(h[k], strat(h[..k + 1]))
  {
    if h != [] {
      var prev := h[..|h| - 1];
      WordAt(strat, prev);
      forall k | 0 <= k < |h|
        ensures Word(strat, h)[k] == Letter(h[k], strat(h[..k + 1]))
      {
        if k < |h| - 1 {
          assert prev[..k + 1] == h[..k + 1];
        } else {
          assert h[..k + 1] == h;
        }
      }
    }
  }

  // On letters of c every run stays in the initial state.
  lemma {:induction false} StaysInitial(aut: Automaton, letters: set<Letter>, c: set<Letter>, w: seq<Letter>,
                                        r: seq<nat>)
    requires IsMonitor(aut, letters, c) && AllLettersIn(w, c) && AllLettersIn(w, letters) && IsRun(aut, w, r)
    ensures r[|w|] == aut.init && Visits(aut, r) == 0
  {
    if w != [] {
      var n := |w| - 1;
      StaysInitial(aut, letters, c, w[..n], r[..|w|]);
      assert Steps(aut, aut.init, r[|w|], w[n]);
      StepsTarget(aut, aut.init, r[|w|], w[n]);
    }
  }

  // The run that stays for n states and then sits in the sink for m.
  ghost function Trap(init: nat, other: nat, n: nat, m: nat): seq<nat> {
    seq(n + m, k => if k < n then init else other)
  }

  lemma {:induction false} TrapVisits(aut: Automaton, init: nat, other: nat, n: nat, m: nat)
    requires 1 <= n && !IsAccepting(aut, init) && IsAccepting(aut, other)
    ensures Visits(aut, Trap(init, other, n, m)) == m
    decreases n + m
  {
    var r := Trap(init, other, n, m);
    if m > 0 {
      TrapVisits(aut, init, other, n, m - 1);
      assert r[..n + m - 1] == Trap(init, other, n, m - 1);
    } else if n > 1 {
      TrapVisits(aut, init, other, n - 1, m);
      assert r[..n + m - 1] == Trap(init, other, n - 1, m);
    }
  }

  // The history h, then the input i again and again.
  ghost function Extended(h: seq<Bits>, i: Bits, m: nat): seq<Bits> {
    h + seq(m, _ => i)
  }

  lemma {:induction false} ExtendedWord(strat: Strategy, h: seq<Bits>, i: Bits, m: nat)
    ensures |Word(strat, Extended(h, i, m))| == |h| + m
    ensures |Word(strat, h)| == |h| && Word(strat, Extended(h, i, m))[..|h|] == Word(strat, h)
  {
    var h' := Extended(h, i, m);
    WordAt(strat, h);
    WordAt(strat, h');
    forall k | 0 <= k < |h|
      ensures Word(strat, h')[k] == Word(strat, h)[k]
    {
      assert h'[..k + 1] == h[..k + 1];
    }
  }

  // A first letter outside c is punished by a run that visits the sink K times.
  lemma FirstViolation(aut: Automaton, strat: Strategy, ins: set<Bits>, outs: set<Bits>, c: set<Letter>, K: int,
                       h: seq<Bits>, i: Bits)
    requires IsMonitor(aut, AllLetters(ins, outs), c) && 1 <= K && Bounds(strat, aut, ins, K)
    requires Legal(strat, ins, outs, AllLetters(ins, outs)) && i in ins
    requires AllIn(h, ins) && h != [] && AllLettersIn(Word(strat, h[..|h| - 1]), c)
    ensures Letter(h[|h| - 1], strat(h)) in c
  {
    var n, letters := |h| - 1, AllLetters(ins, outs);
    var h' := Extended(h, i, K - 1);
    assert AllIn(h', ins);
    LettersAreLetters(strat, ins, outs, h');
    ViolationWord(strat, h, i, K - 1);
    hide IsMonitor, Legal, Word, Extended, AllLetters, WordBounded;
    assert WordBounded(aut, Word(strat, h'), K);
    if Letter(h[n], strat(h)) !in c {
      Punished(aut, letters, c, Word(strat, h'), n, K);
    }
  }

  lemma ViolationWord(strat: Strategy, h: seq<Bits>, i: Bits, m: nat)
    requires h != []
    ensures |Word(strat, Extended(h, i, m))| == |h| + m
    ensures Word(strat, Extended(h, i, m))[..|h| - 1] == Word(strat, h[..|h| - 1])
    ensures Word(strat, Extended(h, i, m))[|h| - 1] == Letter(h[|h| - 1], strat(h))
  {
    var n := |h| - 1;
    var w, w' := Word(strat, h), Word(strat, Extended(h, i, m));
    ExtendedWord(strat, h, i, m);
    assert w == Word(strat, h[..n]) + [Letter(h[n], strat(h))];
    hide Word, Extended;
    assert w'[n] == w'[..|h|][n];
    assert w'[..n] == w'[..|h|][..n];
  }

  lemma Punished(aut: Automaton, letters: set<Letter>, c: set<Letter>, w: seq<Letter>, n: nat, K: int)
    requires IsMonitor(aut, letters, c) && AllLettersIn(w, letters) && |w| == n + K && 1 <= K
    requires AllLettersIn(w[..n], c) && w[n] !in c
    ensures !WordBounded(aut, w, K)
  {
    MonitorAcceptance(aut, letters, c);
    hide IsMonitor, IsAccepting, IsRun;
    TrapVisits(aut, aut.init, 1 - aut.init, n + 1, K);
  }

  lemma MonitorAcceptance(aut: Automaton, letters: set<Letter>, c: set<Letter>)
    requires IsMonitor(aut, letters, c)
    ensures aut.init < 2 && !IsAccepting(aut, aut.init) && IsAccepting(aut, 1 - aut.init)
  {
  }

  lemma LettersAreLetters(strat: Strategy, ins: set<Bits>, outs: set<Bits>, h: seq<Bits>)
    requires Legal(strat, ins, outs, AllLetters(ins, outs)) && AllIn(h, ins)
    ensures AllLettersIn(Word(strat, h), AllLetters(ins, outs))
  {
    WordAt(strat, h);
    forall k | 0 <= k < |h|
      ensures Word(strat, h)[k] in AllLetters(ins, outs)
    {
      var p := h[..k + 1];
      assert AllIn(p, ins) && p != [];
      assert LegalAt(strat, outs, AllLetters(ins, outs), p);
    }
  }

  lemma {:induction false} BoundedObeys(aut: Automaton, strat: Strategy, ins: set<Bits>, outs: set<Bits>,
                                        c: set<Letter>, K: int, h: seq<Bits>)
    requires IsMonitor(aut, AllLetters(ins, outs), c) && 1 <= K && Bounds(strat, aut, ins, K)
    requires Legal(strat, ins, outs, AllLetters(ins, outs)) && AllIn(h, ins)
    ensures AllLettersIn(Word(strat, h), c)
  {
    hide IsMonitor, Legal, Bounds;
    if h != [] {
      var prev := h[..|h| - 1];
      BoundedObeys(aut, strat, ins, outs, c, K, prev);
      WordAt(strat, prev);
      assert Word(strat, h)[..|h| - 1] == Word(strat, prev);
      FirstViolation(aut, strat, ins, outs, c, K, h, h[0]);
    }
  }

  // A strategy bounds the monitor of c, at any bound, exactly when all its letters are in c.
  lemma MonitorBounds(aut: Automaton, strat: Strategy, ins: set<Bits>, outs: set<Bits>, c: set<Letter>, K: int)
    requires IsMonitor(aut, AllLetters(ins, outs), c) && 1 <= K
    requires Legal(strat, ins, outs, AllLetters(ins, outs))
    ensures Bounds(strat, aut, ins, K) <==> Legal(strat, ins, outs, c)
  {
    var letters := AllLetters(ins, outs);
    hide IsMonitor, AllLetters, Visits, IsRun;
    if Bounds(strat, aut, ins, K) {
      forall h | AllIn(h, ins) && h != []
        ensures LegalAt(strat, outs, c, h)
      {
        BoundedObeys(aut, strat, ins, outs, c, K, h);
        assert LegalAt(strat, outs, letters, h);
        WordAt(strat, h);
        assert h[..|h| - 1 + 1] == h;
        assert Word(strat, h)[|h| - 1] in c;
      }
    }
    if Legal(strat, ins, outs, c) {
      forall h, r | AllIn(h, ins) && IsRun(aut, Word(strat, h), r)
        ensures Visits(aut, r) < K
      {
        LettersAreLetters(strat, ins, outs, h);
        LegalLetters(strat, ins, outs, c, h);
        StaysInitial(aut, letters, c, Word(strat, h), r);
      }
    }
  }

  lemma LegalLetters(strat: Strategy, ins: set<Bits>, outs: set<Bits>, c: set<Letter>, h: seq<Bits>)
    requires Legal(strat, ins, outs, c) && AllIn(h, ins)
    ensures AllLettersIn(Word(strat, h), c)
  {
    WordAt(strat, h);
    forall k | 0 <= k < |h|
      ensures Word(strat, h)[k] in c
    {
      var p := h[..k + 1];
      assert AllIn(p, ins) && p != [];
      assert LegalAt(strat, outs, c, p);
    }
  }

  // --- The two treatments agree ------------------------------------------------------------------------

  lemma LegalIsTwofold(strat: Strategy, ins: set<Bits>, outs: set<Bits>, c: set<Letter>)
    ensures Legal(strat, ins, outs, c) ==> Legal(strat, ins, outs, AllLetters(ins, outs))
  {
    if Legal(strat, ins, outs, c) {
      forall h | AllIn(h, ins) && h != []
        ensures LegalAt(strat, outs, AllLetters(ins, outs), h)
      {
        assert LegalAt(strat, outs, c, h);
        assert h[|h| - 1] in ins;
      }
    }
  }

  // Offering only the outputs that satisfy c has the same winner as merging the monitor of c and
  // offering every output.
  lemma FilterEqualsMonitor(a: Automaton, mon: Automaton, m: Automaton, e1: seq<nat>, e2: seq<nat>,
                            ins: set<Bits>, outs: set<Bits>, c: set<Letter>, K: int)
    requires IsMerge(a, mon, m, e1, e2) && IsMonitor(mon, AllLetters(ins, outs), c) && 1 <= K
    requires a.Valid() && m.Valid()
    ensures Realizable(m, ins, outs, AllLetters(ins, outs), K) <==> Realizable(a, ins, outs, c, K)
  {
    var letters := AllLetters(ins, outs);
    hide IsMerge, IsMonitor, Legal, Bounds, AllLetters, Realizable;
    RealizableIffStrategy(m, ins, outs, letters, K);
    RealizableIffStrategy(a, ins, outs, c, K);
    if SomeStrategy(m, ins, outs, letters, K) {
      var strat: Strategy :| Legal(strat, ins, outs, letters) && Bounds(strat, m, ins, K);
      MergeBounds(a, mon, m, e1, e2, strat, ins, K);
      MonitorBounds(mon, strat, ins, outs, c, K);
    }
    if SomeStrategy(a, ins, outs, c, K) {
      var strat: Strategy :| Legal(strat, ins, outs, c) && Bounds(strat, a, ins, K);
      LegalIsTwofold(strat, ins, outs, c);
      MonitorBounds(mon, strat, ins, outs, c, K);
      MergeBounds(a, mon, m, e1, e2, strat, ins, K);
    }
  }

  // --- The automaton built back ------------------------------------------------------------------------

  function MonitorOf(c: set<Letter>, letters: set<Letter>): Automaton {
    Automaton(1, [true, false], [[Edge(0, letters)], [Edge(1, c), Edge(0, letters - c)]])
  }

  lemma MonitorOfIsMonitor(c: set<Letter>, letters: set<Letter>)
    ensures IsMonitor(MonitorOf(c, letters), letters, c) && Saturated(MonitorOf(c, letters), 1, {})
  {
    var aut := MonitorOf(c, letters);
    forall q: nat, l
      ensures Steps(aut, 0, q, l) <==> q == 0 && l in letters
      ensures Steps(aut, 1, q, l) <==> (q == 1 && l in c) || (q == 0 && l in letters && l !in c)
    {
      assert Edge(0, letters) in aut.out[0];
      assert Edge(1, c) in aut.out[1] && Edge(0, letters - c) in aut.out[1];
    }
  }

  // An invariant other than `true` becomes a game that claims to be solved.
  method FinishInvariant(inv: set<Letter>, letters: set<Letter>) returns (game: Option<SafetyGame>)
    ensures game.None? <==> inv == letters
    ensures game.Some? ==> game.value == SafetyGame(MonitorOf(inv, letters), 1, Some([[-1, 0]]), true, letters)
  {
    if inv == letters {
      return None;
    }
    var out := [[], []];
    out := out[1 := out[1] + [Edge(1, inv)]];
    out := out[1 := out[1] + [Edge(0, letters - inv)]];
    out := out[0 := out[0] + [Edge(0, letters)]];
    var safe := seq(2, _ => 0);
    safe := safe[0 := -1];
    assert out[0] == [Edge(0, letters)] && out[1] == [Edge(1, inv), Edge(0, letters - inv)];
    assert out == MonitorOf(inv, letters).out;
    assert safe == [-1, 0];
    return Some(SafetyGame(Automaton(1, [true, false], out), 1, Some([safe]), true, letters));
  }

  // Once the sink is active its counter grows for ever.
  lemma {:induction false} SinkOverflows(aut: Automaton, ins: set<Bits>, outs: set<Bits>, c: set<Letter>,
                                         inv: set<Letter>, K: int, W: iset<Vec>, v: Vec)
    requires IsMonitor(aut, AllLetters(ins, outs), c) && ins != {} && 1 <= K
    requires Stable(ArenaOf(aut, ins, outs, inv), K, Box(2, 2, K), W) && v in W
    ensures v[1 - aut.init] == -1
    decreases K - v[1 - aut.init]
  {
    var other := 1 - aut.init;
    ClosedByLetters(aut, ins, outs, inv, K, W);
    var i :| i in ins;
    hide IsClosed, ArenaOf, Steps, Forward, LetterAction;
    assert InBox(v, 2, 2, K);
    if v[other] != -1 {
      assert Answers(aut, outs, inv, K, W, v, i);
      var o :| o in outs && Letter(i, o) in inv && Forward(v, LetterAction(aut, Letter(i, o)), K) in W;
      var f := Forward(v, LetterAction(aut, Letter(i, o)), K);
      assert InBox(f, 2, 2, K) && Letter(i, o) in AllLetters(ins, outs);
      ForwardAlongLetter(aut, Letter(i, o), v, K, other);
      assert Min(K, v[other] + 1) <= f[other];
      SinkOverflows(aut, ins, outs, c, inv, K, W, f);
    }
  }

  // The monitor's start misses no safe vector, whichever outputs are offered.
  lemma MonitorReady(c: set<Letter>, ins: set<Bits>, outs: set<Bits>, K: int)
    requires ins != {} && 1 <= K
    ensures Ready(SafetyGame(MonitorOf(c, AllLetters(ins, outs)), 1, Some([[-1, 0]]), true, AllLetters(ins, outs)),
                  {}, ins, outs, AllLetters(ins, outs), K)
  {
    var letters := AllLetters(ins, outs);
    var mon := MonitorOf(c, letters);
    var game := SafetyGame(mon, 1, Some([[-1, 0]]), true, letters);
    MonitorOfIsMonitor(c, letters);
    assert mon.init == 1 && mon.Size() == 2;
    assert Leq(InitVec(2, 1), [[-1, 0]][0]);
    hide MonitorOf, IsMonitor, AllLetters, ArenaOf;
    forall v | v in SafeRegion(game, {}, ins, outs, letters, K)
      ensures Contains([[-1, 0]], v)
    {
      var g, R := ArenaOf(mon, ins, outs, letters), Rooted(2, 1, K, {});
      RegionIsGreatest(g, K, R);
      assert Stable(g, K, Box(2, 2, K), Region(g, K, R));
      hide Region, Winning, IsClosed;
      assert v in R;
      SinkOverflows(mon, ins, outs, c, letters, K, Region(g, K, R), v);
      assert Leq(v, [[-1, 0]][0]);
    }
  }

  // --- Only invariants -----------------------------------------------------------------------------------

  ghost predicate EveryInputAnswered(ins: set<Bits>, outs: set<Bits>, c: set<Letter>) {
    forall i :: i in ins ==> HasAnswer(outs, c, i)
  }

  ghost predicate HasAnswer(outs: set<Bits>, c: set<Letter>, i: Bits) {
    exists o :: o in outs && Letter(i, o) in c
  }

  ghost function AnswerFor(outs: set<Bits>, c: set<Letter>, i: Bits): Bits {
    if HasAnswer(outs, c, i) then var o :| o in outs && Letter(i, o) in c; o else []
  }

  ghost function LastAnswer(outs: set<Bits>, c: set<Letter>): Strategy {
    (h: seq<Bits>) => if h == [] then [] else AnswerFor(outs, c, h[|h| - 1])
  }

  // A strategy obeying c exists exactly when no input is without an output satisfying c.
  lemma LegalIffAnswered(ins: set<Bits>, outs: set<Bits>, c: set<Letter>)
    ensures (exists strat: Strategy :: Legal(strat, ins, outs, c)) <==> EveryInputAnswered(ins, outs, c)
  {
    if strat: Strategy :| Legal(strat, ins, outs, c) {
      forall i | i in ins
        ensures HasAnswer(outs, c, i)
      {
        assert AllIn([i], ins);
        assert LegalAt(strat, outs, c, [i]);
      }
    }
    if EveryInputAnswered(ins, outs, c) {
      var strat := LastAnswer(outs, c);
      forall h | AllIn(h, ins) && h != []
        ensures LegalAt(strat, outs, c, h)
      {
        assert HasAnswer(outs, c, h[|h| - 1]);
      }
      assert Legal(strat, ins, outs, c);
    }
  }

  // So the conjunction c of all invariants is realizable, at any bound, exactly under that condition.
  lemma InvariantRealizable(mon: Automaton, ins: set<Bits>, outs: set<Bits>, c: set<Letter>, K: int)
    requires IsMonitor(mon, AllLetters(ins, outs), c) && mon.Valid() && 1 <= K
    ensures Realizable(mon, ins, outs, AllLetters(ins, outs), K) <==> EveryInputAnswered(ins, outs, c)
  {
    var letters := AllLetters(ins, outs);
    hide IsMonitor, Legal, Bounds, AllLetters, Realizable, EveryInputAnswered;
    RealizableIffStrategy(mon, ins, outs, letters, K);
    LegalIffAnswered(ins, outs, c);
    if SomeStrategy(mon, ins, outs, letters, K) {
      var strat: Strategy :| Legal(strat, ins, outs, letters) && Bounds(strat, mon, ins, K);
      MonitorBounds(mon, strat, ins, outs, c, K);
    }
    if strat: Strategy :| Legal(strat, ins, outs, c) {
      LegalIsTwofold(strat, ins, outs, c);
      MonitorBounds(mon, strat, ins, outs, c, K);
    }
  }
}
