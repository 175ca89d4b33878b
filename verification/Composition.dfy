/**
  Merging two safety games into one: the automata are put side by side under a new initial state,
  renamed so that the Boolean states come last, and the vectors of their regions are paired.
*/
module Composition {
  import opened Vectors
  import opened Game
  import opened Automata
  import opened Actioners
  import opened Counting
  import opened Renaming
  import opened Runs
  import opened Merging
  import opened Solver

  // --- The automaton before renaming -------------------------------------------------------------

  function Shifted(es: seq<Edge>, offset: nat): seq<Edge> {
    seq(|es|, j requires 0 <= j < |es| => es[j].(dst := es[j].dst + offset))
  }

  function SideBySide(dest: Automaton, src: Automaton, accepting: bool): Automaton
    requires dest.Valid() && src.Valid()
  {
    var offset := dest.Size() + 1;
    Automaton(dest.Size(), dest.acc + [accepting] + src.acc,
              dest.out + [Shifted(src.out[src.init], offset) + dest.out[dest.init]]
              + seq(src.Size(), s requires 0 <= s < src.Size() => Shifted(src.out[s], offset)))
  }

  lemma SrcOut(dest: Automaton, src: Automaton, accepting: bool, s: nat)
    requires dest.Valid() && src.Valid() && s < src.Size()
    ensures dest.Size() + 1 + s < SideBySide(dest, src, accepting).Size()
    ensures SideBySide(dest, src, accepting).out[dest.Size() + 1 + s] == Shifted(src.out[s], dest.Size() + 1)
  {
    hide Automaton.Valid, Shifted;
  }

  lemma SideBySideValid(dest: Automaton, src: Automaton, accepting: bool)
    requires dest.Valid() && src.Valid()
    ensures SideBySide(dest, src, accepting).Valid()
  {
  }

  lemma ShiftedHas(es: seq<Edge>, offset: nat, q: nat, l: Letter)
    ensures (exists e :: e in Shifted(es, offset) && e.dst == q && l in e.cond) <==>
            (offset <= q && exists e :: e in es && e.dst == q - offset && l in e.cond)
  {
    var es' := Shifted(es, offset);
    if e' :| e' in es' && e'.dst == q && l in e'.cond {
      var j :| 0 <= j < |es'| && es'[j] == e';
      assert es[j] in es && es[j].dst == q - offset && l in es[j].cond;
    }
    if offset <= q {
      if e :| e in es && e.dst == q - offset && l in e.cond {
        var j :| 0 <= j < |es| && es[j] == e;
        assert es'[j] in es' && es'[j].dst == q && l in es'[j].cond;
      }
    }
  }

  lemma SrcSteps(dest: Automaton, src: Automaton, accepting: bool, p: nat, q: nat, l: Letter)
    requires dest.Valid() && src.Valid() && p < src.Size()
    ensures var offset := dest.Size() + 1;
            Steps(SideBySide(dest, src, accepting), offset + p, q, l) <==> offset <= q && Steps(src, p, q - offset, l)
  {
    SrcOut(dest, src, accepting, p);
    hide SideBySide, Shifted, Automaton.Valid;
    ShiftedHas(src.out[p], dest.Size() + 1, q, l);
  }

  lemma NewInitSteps(dest: Automaton, src: Automaton, accepting: bool, q: nat, l: Letter)
    requires dest.Valid() && src.Valid()
    ensures var offset := dest.Size() + 1;
            Steps(SideBySide(dest, src, accepting), dest.Size(), q, l) <==>
              Steps(dest, dest.init, q, l) || (offset <= q && Steps(src, src.init, q - offset, l))
  {
    var offset := dest.Size() + 1;
    ShiftedHas(src.out[src.init], offset, q, l);
    var m := SideBySide(dest, src, accepting);
    var A, B := Shifted(src.out[src.init], offset), dest.out[dest.init];
    hide SideBySide, Shifted;
    assert forall e :: e in m.out[dest.Size()] <==> e in A || e in B;
  }

  // --- The renaming ------------------------------------------------------------------------------

  // Counter states of dest, the new initial state, counter states of src, then the Boolean states.
  function NewName(s: nat, n1: nat, t1: nat, t2: nat): nat
    requires t1 <= n1
  {
    if s < t1 then s
    else if s < n1 then t1 + t2 + 1 + (s - t1)
    else if s == n1 then t1
    else if s - n1 - 1 < t2 then t1 + 1 + (s - n1 - 1)
    else t1 + t2 + 1 + (n1 - t1) + (s - n1 - 1 - t2)
  }

  ghost predicate IsNaming(rename: seq<nat>, n1: nat, t1: nat, n2: nat, t2: nat) {
    t1 <= n1 && |rename| == n1 + 1 + n2 && forall s: nat :: s < |rename| ==> rename[s] == NewName(s, n1, t1, t2)
  }

  lemma NamingIsPermutation(rename: seq<nat>, n1: nat, t1: nat, n2: nat, t2: nat)
    requires IsNaming(rename, n1, t1, n2, t2) && t2 <= n2
    ensures Distinct(rename) && forall s :: 0 <= s < |rename| ==> rename[s] < |rename|
  {
  }

  // Counter states come first, and within each kind the old order is kept.
  lemma NamingKeepsOrder(rename: seq<nat>, n1: nat, t1: nat, n2: nat, t2: nat, s: nat, s': nat)
    requires IsNaming(rename, n1, t1, n2, t2) && t2 <= n2 && s < |rename| && s' < |rename|
    ensures rename[s] < rename[s'] <==>
              if IsCounter(s, n1, t1, t2) == IsCounter(s', n1, t1, t2) then s < s' else IsCounter(s, n1, t1, t2)
  {
  }

  predicate IsCounter(s: nat, n1: nat, t1: nat, t2: nat) {
    s < t1 || s == n1 || (n1 < s && s - n1 - 1 < t2)
  }

  // --- The merged automaton ----------------------------------------------------------------------

  // m is the side-by-side automaton under its final names.
  ghost predicate IsMergeOf(dest: Automaton, t1: nat, src: Automaton, t2: nat, m: Automaton, rename: seq<nat>) {
    && dest.Valid() && src.Valid() && t1 <= dest.Size() && t2 <= src.Size()
    && IsNaming(rename, dest.Size(), t1, src.Size(), t2)
    && exists accepting :: IsRenaming(SideBySide(dest, src, accepting), m, rename)
  }

  ghost function Left(rename: seq<nat>, n1: nat): seq<nat>
    requires n1 < |rename|
  {
    rename[..n1]
  }

  ghost function Right(rename: seq<nat>, n1: nat): seq<nat>
    requires n1 < |rename|
  {
    rename[n1 + 1..]
  }

  lemma MergedShape(dest: Automaton, t1: nat, src: Automaton, t2: nat, m: Automaton, rename: seq<nat>)
    requires IsMergeOf(dest, t1, src, t2, m, rename)
    ensures m.Valid() && Distinct(rename) && m.Size() == |rename| && m.init == rename[dest.Size()]
    ensures forall s :: 0 <= s < |rename| ==> rename[s] < |rename|
  {
    NamingIsPermutation(rename, dest.Size(), t1, src.Size(), t2);
    var accepting :| IsRenaming(SideBySide(dest, src, accepting), m, rename);
    var raw := SideBySide(dest, src, accepting);
    assert raw.init == dest.Size();
    hide SideBySide, NewName, IsNaming;
    RenamingValid(raw, m, rename);
  }

  lemma MergedAcceptance(dest: Automaton, t1: nat, src: Automaton, t2: nat, m: Automaton, rename: seq<nat>)
    requires IsMergeOf(dest, t1, src, t2, m, rename) && |m.acc| == |rename|
    requires forall s :: 0 <= s < |rename| ==> rename[s] < |rename|
    ensures forall s :: 0 <= s < dest.Size() ==> m.acc[rename[s]] == dest.acc[s]
    ensures forall s :: 0 <= s < src.Size() ==> m.acc[rename[dest.Size() + 1 + s]] == src.acc[s]
  {
    var accepting :| IsRenaming(SideBySide(dest, src, accepting), m, rename);
    var raw := SideBySide(dest, src, accepting);
    hide SideBySide, NewName, IsNaming, Shifted, IsRenaming, Automaton.Valid;
    forall s: nat | s < |rename|
      ensures s < |raw.acc| && m.acc[rename[s]] == raw.acc[s]
    {
      AcceptanceRenamed(raw, m, rename, s);
    }
  }

  lemma AcceptanceRenamed(raw: Automaton, m: Automaton, rename: seq<nat>, s: nat)
    requires IsRenaming(raw, m, rename) && s < |rename|
    ensures s < |raw.acc| && rename[s] < |m.acc| && m.acc[rename[s]] == raw.acc[s]
  {
    assert RenamedAt(raw, m, rename, s);
  }

  lemma MergedParts(dest: Automaton, t1: nat, src: Automaton, t2: nat, m: Automaton, rename: seq<nat>)
    requires IsMergeOf(dest, t1, src, t2, m, rename)
    ensures m.Valid() && Distinct(rename) && m.Size() == |rename| && m.init == rename[dest.Size()]
    ensures forall s :: 0 <= s < |rename| ==> rename[s] < |rename|
    ensures forall s :: 0 <= s < dest.Size() ==> m.acc[rename[s]] == dest.acc[s]
    ensures forall s :: 0 <= s < src.Size() ==> m.acc[rename[dest.Size() + 1 + s]] == src.acc[s]
  {
    hide IsMergeOf, Automaton.Valid;
    MergedShape(dest, t1, src, t2, m, rename);
    assert |m.acc| == |rename| by {
      ValidSizes(m);
    }
    MergedAcceptance(dest, t1, src, t2, m, rename);
  }

  lemma ValidSizes(aut: Automaton)
    requires aut.Valid()
    ensures |aut.acc| == aut.Size()
  {
  }

  // Steps of m, in terms of the side-by-side automaton.
  ghost predicate RawStep(raw: Automaton, rename: seq<nat>, p: nat, q': nat, l: Letter) {
    exists q: nat :: q < |rename| && q' == rename[q] && Steps(raw, p, q, l)
  }

  ghost predicate SamePart(a: Automaton, offset: nat, raw: Automaton, p: nat, s: nat, l: Letter) {
    forall q: nat :: Steps(raw, s, q, l) <==> offset <= q && Steps(a, p, q - offset, l)
  }

  lemma SrcPart(dest: Automaton, src: Automaton, accepting: bool, p: nat, l: Letter)
    requires dest.Valid() && src.Valid() && p < src.Size()
    ensures SamePart(src, dest.Size() + 1, SideBySide(dest, src, accepting), p, dest.Size() + 1 + p, l)
  {
    var offset := dest.Size() + 1;
    var s := offset + p;
    hide Steps, SideBySide;
    forall q: nat
      ensures Steps(SideBySide(dest, src, accepting), s, q, l) <==> offset <= q && Steps(src, p, q - offset, l)
    {
      SrcSteps(dest, src, accepting, p, q, l);
    }
  }

  lemma RenamedRaw(raw: Automaton, m: Automaton, rename: seq<nat>, s: nat, q': nat, l: Letter)
    requires IsRenaming(raw, m, rename) && s < |rename|
    ensures Steps(m, rename[s], q', l) <==> RawStep(raw, rename, s, q', l)
  {
    RenamedSteps(raw, m, rename, s, q', l);
  }

  lemma LeftSteps(dest: Automaton, t1: nat, src: Automaton, t2: nat, m: Automaton, rename: seq<nat>, p: nat, q': nat,
                  l: Letter)
    requires IsMergeOf(dest, t1, src, t2, m, rename) && p < dest.Size()
    ensures Steps(m, rename[p], q', l) <==> StepsTo(dest, Left(rename, dest.Size()), p, q', l)
  {
    var accepting :| IsRenaming(SideBySide(dest, src, accepting), m, rename);
    var raw := SideBySide(dest, src, accepting);
    RenamedRaw(raw, m, rename, p, q', l);
    hide Steps, RawStep, SideBySide, IsRenaming, NewName, StepsTo;
    hide SamePart;
  }

  lemma RightSteps(dest: Automaton, t1: nat, src: Automaton, t2: nat, m: Automaton, rename: seq<nat>, p: nat, q': nat,
                   l: Letter)
    requires IsMergeOf(dest, t1, src, t2, m, rename) && p < src.Size()
    ensures Steps(m, rename[dest.Size() + 1 + p], q', l) <==> StepsTo(src, Right(rename, dest.Size()), p, q', l)
  {
    var accepting :| IsRenaming(SideBySide(dest, src, accepting), m, rename);
    var raw := SideBySide(dest, src, accepting);
    var offset := dest.Size() + 1;
    hide Steps, RawStep, SideBySide, IsRenaming, NewName, StepsTo;
    RenamedRaw(raw, m, rename, offset + p, q', l);
    SrcPart(dest, src, accepting, p, l);
    hide SamePart, Automaton.Valid;
  }

  lemma InitStepsLeft(dest: Automaton, src: Automaton, accepting: bool, rename: seq<nat>, q': nat, l: Letter)
    requires dest.Valid() && src.Valid() && |rename| == dest.Size() + 1 + src.Size()
    requires StepsTo(dest, Left(rename, dest.Size()), dest.init, q', l)
    ensures RawStep(SideBySide(dest, src, accepting), rename, dest.Size(), q', l)
  {
    var e1 := Left(rename, dest.Size());
    hide Steps, SideBySide;
    var q: nat :| q < |e1| && q' == e1[q] && Steps(dest, dest.init, q, l);
    NewInitSteps(dest, src, accepting, q, l);
    assert q' == rename[q];
  }

  lemma InitStepsRight(dest: Automaton, src: Automaton, accepting: bool, rename: seq<nat>, q': nat, l: Letter)
    requires dest.Valid() && src.Valid() && |rename| == dest.Size() + 1 + src.Size()
    requires StepsTo(src, Right(rename, dest.Size()), src.init, q', l)
    ensures RawStep(SideBySide(dest, src, accepting), rename, dest.Size(), q', l)
  {
    var e2 := Right(rename, dest.Size());
    var offset := dest.Size() + 1;
    hide Steps, SideBySide;
    var q: nat :| q < |e2| && q' == e2[q] && Steps(src, src.init, q, l);
    NewInitSteps(dest, src, accepting, offset + q, l);
    assert q' == rename[offset + q];
  }

  lemma InitStepsBack(dest: Automaton, src: Automaton, accepting: bool, rename: seq<nat>, q': nat, l: Letter)
    requires dest.Valid() && src.Valid() && |rename| == dest.Size() + 1 + src.Size()
    requires RawStep(SideBySide(dest, src, accepting), rename, dest.Size(), q', l)
    ensures StepsTo(dest, Left(rename, dest.Size()), dest.init, q', l) ||
        StepsTo(src, Right(rename, dest.Size()), src.init, q', l)
  {
    var offset := dest.Size() + 1;
    var e1, e2 := Left(rename, dest.Size()), Right(rename, dest.Size());
    hide Steps, SideBySide;
    var q: nat :| q < |rename| && q' == rename[q] && Steps(SideBySide(dest, src, accepting), dest.Size(), q, l);
    NewInitSteps(dest, src, accepting, q, l);
    if Steps(dest, dest.init, q, l) {
      StepsTarget(dest, dest.init, q, l);
      assert q' == e1[q];
    } else {
      StepsTarget(src, src.init, q - offset, l);
      assert q' == e2[q - offset];
    }
  }

  lemma InitSteps(dest: Automaton, t1: nat, src: Automaton, t2: nat, m: Automaton, rename: seq<nat>, q': nat, l: Letter)
    requires IsMergeOf(dest, t1, src, t2, m, rename)
    ensures Steps(m, rename[dest.Size()], q', l) <==>
              || StepsTo(dest, Left(rename, dest.Size()), dest.init, q', l)
              || StepsTo(src, Right(rename, dest.Size()), src.init, q', l)
  {
    var accepting :| IsRenaming(SideBySide(dest, src, accepting), m, rename);
    var raw := SideBySide(dest, src, accepting);
    RenamedRaw(raw, m, rename, dest.Size(), q', l);
    hide Steps, SideBySide, IsRenaming, NewName, StepsTo, RawStep, Left, Right;
    if StepsTo(dest, Left(rename, dest.Size()), dest.init, q', l) {
      InitStepsLeft(dest, src, accepting, rename, q', l);
    }
    if StepsTo(src, Right(rename, dest.Size()), src.init, q', l) {
      InitStepsRight(dest, src, accepting, rename, q', l);
    }
    if RawStep(raw, rename, dest.Size(), q', l) {
      InitStepsBack(dest, src, accepting, rename, q', l);
    }
  }

  lemma MergeOfTwo(dest: Automaton, t1: nat, src: Automaton, t2: nat, m: Automaton, rename: seq<nat>)
    requires IsMergeOf(dest, t1, src, t2, m, rename)
    ensures dest.Valid() && src.Valid() && |rename| == dest.Size() + 1 + src.Size()
  {
    hide NewName, SideBySide, IsRenaming;
  }

  // The result of the renaming is a merge in the sense of the game.
  lemma MergedIsMerge(dest: Automaton, t1: nat, src: Automaton, t2: nat, m: Automaton, rename: seq<nat>)
    requires IsMergeOf(dest, t1, src, t2, m, rename)
    ensures IsMerge(dest, src, m, Left(rename, dest.Size()), Right(rename, dest.Size()))
  {
    hide StepsTo, Steps, IsMergeOf;
    MergeOfTwo(dest, t1, src, t2, m, rename);
    MergedParts(dest, t1, src, t2, m, rename);
    var e1, e2 := Left(rename, dest.Size()), Right(rename, dest.Size());
    assert e1 + [m.init] + e2 == rename;
    var offset := dest.Size() + 1;
    assert forall s :: 0 <= s < |e2| ==> e2[s] == rename[offset + s];
    forall p: nat, q': nat, l | p < |e1|
      ensures Steps(m, e1[p], q', l) <==> StepsTo(dest, e1, p, q', l)
    {
      LeftSteps(dest, t1, src, t2, m, rename, p, q', l);
    }
    forall p: nat, q': nat, l | p < |e2|
      ensures Steps(m, e2[p], q', l) <==> StepsTo(src, e2, p, q', l)
    {
      RightSteps(dest, t1, src, t2, m, rename, p, q', l);
    }
    forall q': nat, l
      ensures Steps(m, m.init, q', l) <==> StepsTo(dest, e1, dest.init, q', l) || StepsTo(src, e2, src.init, q', l)
    {
      InitSteps(dest, t1, src, t2, m, rename, q', l);
    }
  }

  // --- What saturation becomes ---------------------------------------------------------------------

  // The roots of the parts and the new initial state.
  ghost function MergedRoots(rename: seq<nat>, n1: nat, roots1: set<nat>, roots2: set<nat>): set<nat>
    requires n1 < |rename|
  {
    {rename[n1]}
    + (set r | r in roots1 && r < n1 :: rename[r])
    + (set r | r in roots2 && n1 + 1 + r < |rename| :: rename[n1 + 1 + r])
  }

  // Root, before renaming.
  ghost predicate IsRoot(s: nat, n1: nat, roots1: set<nat>, roots2: set<nat>) {
    (s < n1 && s in roots1) || s == n1 || (n1 < s && s - n1 - 1 in roots2)
  }

  lemma RootsAreRenamed(rename: seq<nat>, n1: nat, roots1: set<nat>, roots2: set<nat>, s: nat)
    requires Distinct(rename) && n1 < |rename| && s < |rename|
    ensures rename[s] in MergedRoots(rename, n1, roots1, roots2) <==> IsRoot(s, n1, roots1, roots2)
  {
    if n1 < s {
      var r := s - n1 - 1;
      assert rename[n1 + 1 + r] == rename[s];
    }
  }

  // An edge of the side-by-side automaton never enters a root, and enters a Boolean state only from
  // a Boolean state or a root.
  lemma SideBySideSaturated(dest: Automaton, t1: nat, roots1: set<nat>, src: Automaton, t2: nat, roots2: set<nat>,
                            accepting: bool, p: nat, j: nat)
    requires dest.Valid() && src.Valid() && Saturated(dest, t1, roots1) && Saturated(src, t2, roots2)
    requires p < SideBySide(dest, src, accepting).Size() && j < |SideBySide(dest, src, accepting).out[p]|
    ensures var q := SideBySide(dest, src, accepting).out[p][j].dst;
            var n1 := dest.Size();
            && !IsRoot(q, n1, roots1, roots2)
            && (!IsCounter(q, n1, t1, t2) ==> !IsCounter(p, n1, t1, t2) || IsRoot(p, n1, roots1, roots2))
  {
  }

  lemma MergedEdge(dest: Automaton, t1: nat, roots1: set<nat>, src: Automaton, t2: nat, roots2: set<nat>,
                   m: Automaton, rename: seq<nat>, p': nat, j: nat)
    requires IsMergeOf(dest, t1, src, t2, m, rename)
    requires Saturated(dest, t1, roots1) && Saturated(src, t2, roots2)
    requires p' < |m.out| && j < |m.out[p']|
    ensures var roots := MergedRoots(rename, dest.Size(), roots1, roots2);
            var q := m.out[p'][j].dst;
            q !in roots && (t1 + t2 + 1 <= q ==> t1 + t2 + 1 <= p' || p' in roots)
  {
    MergedParts(dest, t1, src, t2, m, rename);
    Pigeonhole(rename, p');
    var p: nat :| p < |rename| && rename[p] == p';
    var accepting :| IsRenaming(SideBySide(dest, src, accepting), m, rename);
    var raw := SideBySide(dest, src, accepting);
    assert RenamedAt(raw, m, rename, p);
    assert m.out[p'][j].dst == rename[raw.out[p][j].dst];
    SideBySideSaturated(dest, t1, roots1, src, t2, roots2, accepting, p, j);
    var q := raw.out[p][j].dst;
    hide SideBySide, Saturated, IsRenaming, IsCounter, IsRoot, NewName, MergedRoots;
    RootsAreRenamed(rename, dest.Size(), roots1, roots2, p);
    RootsAreRenamed(rename, dest.Size(), roots1, roots2, q);
  }

  // The merge again has its Boolean states last, entered only from Boolean states and roots.
  lemma MergedSaturated(dest: Automaton, t1: nat, roots1: set<nat>, src: Automaton, t2: nat, roots2: set<nat>,
                        m: Automaton, rename: seq<nat>)
    requires IsMergeOf(dest, t1, src, t2, m, rename)
    requires Saturated(dest, t1, roots1) && Saturated(src, t2, roots2)
    ensures Saturated(m, t1 + t2 + 1, MergedRoots(rename, dest.Size(), roots1, roots2))
  {
    var t := t1 + t2 + 1;
    MergedParts(dest, t1, src, t2, m, rename);
    forall q': nat | t <= q' < |m.acc|
      ensures !m.acc[q']
    {
      Pigeonhole(rename, q');
      var q: nat :| q < |rename| && rename[q] == q';
      if dest.Size() < q {
        var s := q - dest.Size() - 1;
        assert m.acc[rename[dest.Size() + 1 + s]] == src.acc[s];
      }
    }
    hide IsMergeOf, MergedRoots;
    forall p': nat, j: nat | p' < |m.out| && j < |m.out[p']|
      ensures var q := m.out[p'][j].dst;
              q !in MergedRoots(rename, dest.Size(), roots1, roots2) &&
              (t <= q ==> t <= p' || p' in MergedRoots(rename, dest.Size(), roots1, roots2))
    {
      MergedEdge(dest, t1, roots1, src, t2, roots2, m, rename, p', j);
    }
  }

  // --- The regions ---------------------------------------------------------------------------------

  // A game, with the generators of its safe region or of an overestimation of it, and the invariant
  // under which it was solved.
  datatype SafetyGame = SafetyGame(aut: Automaton, threshold: nat, safe: Option<seq<Vec>>, solved: bool,
                                   under: set<Letter>)

  // What position s of the concatenation of u1, the new state and u2 holds.
  function Slot(u1: Vec, u2: Vec, s: nat): int
    requires s < |u1| + 1 + |u2|
  {
    if s < |u1| then u1[s] else if s == |u1| then 0 else u2[s - |u1| - 1]
  }

  ghost predicate IsPairing(v: Vec, u1: Vec, u2: Vec, rename: seq<nat>) {
    && |v| == |rename| == |u1| + 1 + |u2| && (forall s :: 0 <= s < |rename| ==> rename[s] < |rename|)
    && forall s: nat :: s < |rename| ==> v[rename[s]] == Slot(u1, u2, s)
  }

  // F holds the pairings of the first i vectors of F1 with those of F2, and of F1[i] with the first j.
  ghost predicate AllPaired(F: seq<Vec>, F1: seq<Vec>, F2: seq<Vec>, rename: seq<nat>, i: nat, j: nat) {
    forall x: nat, y: nat :: x < |F1| && y < |F2| && (x < i || (x == i && y < j)) ==> PairedIn(F, F1[x], F2[y], rename)
  }

  ghost predicate OnlyPairs(F: seq<Vec>, F1: seq<Vec>, F2: seq<Vec>, rename: seq<nat>) {
    forall k: nat :: k < |F| ==> IsPairOf(F[k], F1, F2, rename)
  }

  ghost predicate PairedIn(F: seq<Vec>, u1: Vec, u2: Vec, rename: seq<nat>) {
    exists k: nat :: k < |F| && IsPairing(F[k], u1, u2, rename)
  }

  ghost predicate IsPairOf(v: Vec, F1: seq<Vec>, F2: seq<Vec>, rename: seq<nat>) {
    exists x: nat, y: nat :: x < |F1| && y < |F2| && IsPairing(v, F1[x], F2[y], rename)
  }

  lemma PairedStays(F: seq<Vec>, v: Vec, u1: Vec, u2: Vec, rename: seq<nat>)
    ensures PairedIn(F, u1, u2, rename) || IsPairing(v, u1, u2, rename) ==> PairedIn(F + [v], u1, u2, rename)
  {
    hide IsPairing;
    var G := F + [v];
    if PairedIn(F, u1, u2, rename) {
      var k: nat :| k < |F| && IsPairing(F[k], u1, u2, rename);
      assert IsPairing(G[k], u1, u2, rename);
    }
    if IsPairing(v, u1, u2, rename) {
      assert IsPairing(G[|F|], u1, u2, rename);
    }
  }

  lemma PairsAppend(F: seq<Vec>, v: Vec, F1: seq<Vec>, F2: seq<Vec>, rename: seq<nat>, i: nat, j: nat)
    requires i < |F1| && j < |F2| && AllPaired(F, F1, F2, rename, i, j) && IsPairing(v, F1[i], F2[j], rename)
    ensures AllPaired(F + [v], F1, F2, rename, i, j + 1)
  {
    hide IsPairing, PairedIn;
    forall x: nat, y: nat | x < |F1| && y < |F2| && (x < i || (x == i && y < j + 1))
      ensures PairedIn(F + [v], F1[x], F2[y], rename)
    {
      PairedStays(F, v, F1[x], F2[y], rename);
    }
  }

  // --- The methods ---------------------------------------------------------------------------------

  method CopyEdges(es: seq<Edge>, offset: nat) returns (r: seq<Edge>)
    ensures r == Shifted(es, offset)
  {
    r := [];
    for j := 0 to |es|
      invariant r == Shifted(es[..j], offset)
    {
      r := r + [es[j].(dst := es[j].dst + offset)];
    }
    assert es[..|es|] == es;
  }

  // The edges added so far: s states of src are copied.
  ghost predicate CopiedUpTo(out: seq<seq<Edge>>, dest: Automaton, src: Automaton, s: nat)
    requires dest.Valid() && src.Valid()
  {
    var offset := dest.Size() + 1;
    && s <= src.Size() && |out| == offset + s && out[..dest.Size()] == dest.out
    && out[dest.Size()] == (if src.init < s then Shifted(src.out[src.init], offset) else [])
    && forall p: nat :: offset <= p < |out| ==> out[p] == Shifted(src.out[p - offset], offset)
  }

  method CopyStates(dest: Automaton, src: Automaton) returns (out: seq<seq<Edge>>)
    requires dest.Valid() && src.Valid()
    ensures CopiedUpTo(out, dest, src, src.Size())
  {
    hide Shifted, Automaton.Valid;
    var newInit, offset := dest.Size(), dest.Size() + 1;
    out := dest.out + [[]];
    for s := 0 to src.Size()
      invariant CopiedUpTo(out, dest, src, s)
    {
      var copied := CopyEdges(src.out[s], offset);
      ghost var before := out;
      out := out + [copied];
      if s == src.init {
        out := out[newInit := out[newInit] + copied];
      }
      assert out[..newInit] == before[..newInit];
    }
  }

  method PutSideBySide(dest: Automaton, src: Automaton) returns (raw: Automaton, accepting: bool)
    requires dest.Valid() && src.Valid()
    ensures raw == SideBySide(dest, src, accepting)
  {
    assert dest.init < dest.Size();
    hide Shifted, Automaton.Valid;
    var newInit := dest.Size();
    var out := CopyStates(dest, src);
    ghost var copied := out;
    for s := 0 to newInit
      invariant out == if dest.init < s then copied[newInit := copied[newInit] + dest.out[dest.init]] else copied
    {
      if s == dest.init {
        assert out[..newInit][s] == dest.out[s];
        out := out[newInit := out[newInit] + out[s]];
      }
    }
    // Whether the new state reads as accepting depends on the edge that ends up first.
    accepting := *;
    raw := Automaton(newInit, dest.acc + [accepting] + src.acc, out);
  }

  // Where the next counter and the next Boolean state go after s states.
  function NextCounter(s: nat, n1: nat, t1: nat, t2: nat): nat {
    if s <= n1 then (if s < t1 then s else t1)
    else t1 + 1 + (if s - n1 - 1 < t2 then s - n1 - 1 else t2)
  }

  function NextBoolean(s: nat, n1: nat, t1: nat, t2: nat): nat
    requires t1 <= n1
  {
    t1 + t2 + 1 + (if s <= t1 then 0 else if s <= n1 then s - t1
                   else if s - n1 - 1 <= t2 then n1 - t1 else n1 - t1 + (s - n1 - 1 - t2))
  }

  method NameStates(n1: nat, t1: nat, n2: nat, t2: nat) returns (rename: seq<nat>)
    requires t1 <= n1 && t2 <= n2
    ensures IsNaming(rename, n1, t1, n2, t2)
  {
    var newInit := n1;
    var indexNonbool, indexBool := 0, t1 + t2 + 1;
    rename := [];
    for s := 0 to n1 + 1 + n2
      invariant |rename| == s && forall x: nat :: x < s ==> rename[x] == NewName(x, n1, t1, t2)
      invariant indexNonbool == NextCounter(s, n1, t1, t2) && indexBool == NextBoolean(s, n1, t1, t2)
    {
      var counter := if s < newInit then s < t1 else if s == newInit then true else s - newInit - 1 < t2;
      if counter {
        rename := rename + [indexNonbool];
        indexNonbool := indexNonbool + 1;
      } else {
        rename := rename + [indexBool];
        indexBool := indexBool + 1;
      }
    }
    assert indexNonbool == t1 + t2 + 1 && indexBool == n1 + 1 + n2;
  }

  class Composer {
    var rename: seq<nat>
    var autSize: nat

    constructor ()
      ensures rename == [] && autSize == 0
    {
      rename, autSize := [], 0;
    }

    method MergeAut(dest: SafetyGame, src: SafetyGame) returns (merged: SafetyGame)
      requires dest.aut.Valid() && src.aut.Valid()
      requires dest.threshold <= dest.aut.Size() && src.threshold <= src.aut.Size()
      modifies this
      ensures IsMergeOf(dest.aut, dest.threshold, src.aut, src.threshold, merged.aut, rename)
      ensures merged == dest.(aut := merged.aut, threshold := dest.threshold + src.threshold + 1)
      ensures autSize == merged.aut.Size()
    {
      hide Automaton.Valid;
      var raw, accepting := PutSideBySide(dest.aut, src.aut);
      SideBySideValid(dest.aut, src.aut, accepting);
      hide SideBySide;
      rename := NameStates(dest.aut.Size(), dest.threshold, src.aut.Size(), src.threshold);
      NamingIsPermutation(rename, dest.aut.Size(), dest.threshold, src.aut.Size(), src.threshold);
      hide NewName, IsNaming, Distinct;
      var m := RenameStates(raw, rename);
      merged := dest.(aut := m, threshold := dest.threshold + src.threshold + 1);
      autSize := m.Size();
    }

    method CombineVectors(m1: Vec, m2: Vec) returns (vec: Vec)
      requires |rename| == autSize == |m1| + 1 + |m2| && Distinct(rename)
      requires forall s :: 0 <= s < |rename| ==> rename[s] < autSize
      ensures IsPairing(vec, m1, m2, rename)
    {
      vec := seq(autSize, _ => 0);
      for i := 0 to |m1|
        invariant |vec| == autSize
        invariant forall s: nat :: s < |rename| ==> vec[rename[s]] == if s < i then Slot(m1, m2, s) else 0
      {
        vec := vec[rename[i] := m1[i]];
      }
      for i := 0 to |m2|
        invariant |vec| == autSize
        invariant forall s: nat :: s < |rename| ==> vec[rename[s]] == if s < |m1| + 1 + i then Slot(m1, m2, s) else 0
      {
        vec := vec[rename[i + |m1| + 1] := m2[i]];
      }
    }

    method MergeSaferegions(F1: seq<Vec>, F2: seq<Vec>, ghost n1: nat, ghost n2: nat) returns (elements: seq<Vec>)
      requires |rename| == autSize == n1 + 1 + n2 && Distinct(rename)
      requires forall s :: 0 <= s < |rename| ==> rename[s] < autSize
      requires HaveDimension(F1, n1) && HaveDimension(F2, n2)
      ensures AllPaired(elements, F1, F2, rename, |F1|, 0) && OnlyPairs(elements, F1, F2, rename)
    {
      hide IsPairing, Distinct;
      elements := [];
      for i := 0 to |F1|
        invariant AllPaired(elements, F1, F2, rename, i, 0) && OnlyPairs(elements, F1, F2, rename)
      {
        for j := 0 to |F2|
          invariant AllPaired(elements, F1, F2, rename, i, j) && OnlyPairs(elements, F1, F2, rename)
        {
          var vec := CombineVectors(F1[i], F2[j]);
          PairsAppend(elements, vec, F1, F2, rename, i, j);
          elements := elements + [vec];
        }
      }
    }
  }

  // --- Nothing safe is lost ------------------------------------------------------------------------

  lemma PairingInBox(v: Vec, u1: Vec, u2: Vec, rename: seq<nat>, n1: nat, t1: nat, n2: nat, t2: nat, K: int)
    requires IsNaming(rename, n1, t1, n2, t2) && t2 <= n2 && 1 <= K
    requires IsPairing(v, u1, u2, rename) && InBox(u1, n1, t1, K) && InBox(u2, n2, t2, K)
    ensures InBox(v, n1 + 1 + n2, t1 + t2 + 1, K)
  {
    NamingIsPermutation(rename, n1, t1, n2, t2);
    hide IsNaming;
    forall x: nat | x < |v|
      ensures -1 <= v[x] <= Top(x, t1 + t2 + 1, K)
    {
      Pigeonhole(rename, x);
      var s: nat :| s < |rename| && rename[s] == x;
      assert v[x] == Slot(u1, u2, s);
    }
  }

  // A vector that never counts at the new state is below a pairing as soon as its restrictions are
  // below the two halves.
  lemma PairingDominates(v: Vec, w: Vec, u1: Vec, u2: Vec, rename: seq<nat>)
    requires IsPairing(w, u1, u2, rename) && Distinct(rename) && |v| == |rename| && v[rename[|u1|]] <= 0
    requires Leq(Restrict(v, Left(rename, |u1|)), u1) && Leq(Restrict(v, Right(rename, |u1|)), u2)
    ensures Leq(v, w)
  {
    var e1, e2 := Left(rename, |u1|), Right(rename, |u1|);
    forall x: nat | x < |v|
      ensures v[x] <= w[x]
    {
      Pigeonhole(rename, x);
      var s: nat :| s < |rename| && rename[s] == x;
      assert w[x] == Slot(u1, u2, s);
      if s < |u1| {
        assert Restrict(v, e1)[s] <= u1[s];
      } else if |u1| < s {
        var k := s - |u1| - 1;
        assert e2[k] == x && Restrict(v, e2)[k] <= u2[k];
      }
    }
  }

  // A game ready to be solved at K under `inv`: its start lies in the box, contains the initial
  // vector and misses no safe vector.
  ghost predicate Ready(game: SafetyGame, roots: set<nat>, ins: set<Bits>, outs: set<Bits>, inv: set<Letter>, K: int) {
    && game.aut.Valid() && Saturated(game.aut, game.threshold, roots) && game.safe.Some?
    && AllInBox(game.safe.value, game.aut.Size(), game.threshold, K)
    && Contains(game.safe.value, InitVec(game.aut.Size(), game.aut.init))
    && Covers(game.safe.value, SafeRegion(game, roots, ins, outs, inv, K))
  }

  ghost function SafeRegion(game: SafetyGame, roots: set<nat>, ins: set<Bits>, outs: set<Bits>, inv: set<Letter>,
                            K: int): iset<Vec> {
    Region(ArenaOf(game.aut, ins, outs, inv), K, Rooted(game.aut.Size(), game.threshold, K, roots))
  }

  lemma StrongerIsHarder(aut: Automaton, ins: set<Bits>, outs: set<Bits>, inv: set<Letter>, inv': set<Letter>)
    requires inv' <= inv
    ensures Weaker(ArenaOf(aut, ins, outs, inv), ArenaOf(aut, ins, outs, inv'))
  {
    hide LetterAction;
    forall A | A in ArenaOf(aut, ins, outs, inv)
      ensures exists A' :: A' in ArenaOf(aut, ins, outs, inv') && A' <= A
    {
      var i :| i in ins && A == Moves(aut, outs, inv, i);
      assert Moves(aut, outs, inv', i) <= A;
    }
  }

  // A region solved before more invariants were known is still a complete start.
  lemma ReadyUnderMore(game: SafetyGame, roots: set<nat>, ins: set<Bits>, outs: set<Bits>, inv: set<Letter>,
                       inv': set<Letter>, K: int)
    requires Ready(game, roots, ins, outs, inv, K) && inv' <= inv
    ensures Ready(game, roots, ins, outs, inv', K)
  {
    StrongerIsHarder(game.aut, ins, outs, inv, inv');
    RegionWeaker(ArenaOf(game.aut, ins, outs, inv), ArenaOf(game.aut, ins, outs, inv'), K,
                 Rooted(game.aut.Size(), game.threshold, K, roots));
    hide Contains, Region, Rooted, ArenaOf;
  }

  lemma PairedCovers(dest: SafetyGame, src: SafetyGame, merged: SafetyGame, rename: seq<nat>, roots1: set<nat>,
                     roots2: set<nat>, ins: set<Bits>, outs: set<Bits>, inv: set<Letter>, K: int, v: Vec)
    requires IsMergeOf(dest.aut, dest.threshold, src.aut, src.threshold, merged.aut, rename) && 1 <= K
    requires merged.threshold == dest.threshold + src.threshold + 1 && merged.safe.Some?
    requires Ready(dest, roots1, ins, outs, inv, K) && Ready(src, roots2, ins, outs, inv, K)
    requires AllPaired(merged.safe.value, dest.safe.value, src.safe.value, rename, |dest.safe.value|, 0)
    requires v in SafeRegion(merged, MergedRoots(rename, dest.aut.Size(), roots1, roots2), ins, outs, inv, K)
    ensures Contains(merged.safe.value, v)
  {
    var n1 := dest.aut.Size();
    var roots := MergedRoots(rename, n1, roots1, roots2);
    var e1, e2 := Left(rename, n1), Right(rename, n1);
    MergedShape(dest.aut, dest.threshold, src.aut, src.threshold, merged.aut, rename);
    MergedIsMerge(dest.aut, dest.threshold, src.aut, src.threshold, merged.aut, rename);
    MergeHasParts(dest.aut, src.aut, merged.aut, e1, e2);
    assert merged.aut.init in roots;
    hide IsMergeOf, IsMerge, IsPart, KeepsKind, ArenaOf, MergedRoots, Saturated, Automaton.Valid, InBox, InitVec;
    RestrictIsSafe(dest.aut, merged.aut, e1, ins, outs, inv, K, dest.threshold, roots1, merged.threshold, roots, v);
    RestrictIsSafe(src.aut, merged.aut, e2, ins, outs, inv, K, src.threshold, roots2, merged.threshold, roots, v);
    WinningIsInside(ArenaOf(merged.aut, ins, outs, inv), K, Rooted(merged.aut.Size(), merged.threshold, K, roots), v);
    hide Winning, Rooted, Restrict, Left, Right;
    assert Contains(dest.safe.value, Restrict(v, e1)) && Contains(src.safe.value, Restrict(v, e2));
    PairedDominates(dest.safe.value, src.safe.value, merged.safe.value, rename, n1, v);
  }

  lemma PairedDominates(F1: seq<Vec>, F2: seq<Vec>, F: seq<Vec>, rename: seq<nat>, n1: nat, v: Vec)
    requires HaveDimension(F1, n1) && AllPaired(F, F1, F2, rename, |F1|, 0)
    requires Distinct(rename) && n1 < |rename| == |v| && rename[n1] < |v| && v[rename[n1]] <= 0
    requires Contains(F1, Restrict(v, Left(rename, n1))) && Contains(F2, Restrict(v, Right(rename, n1)))
    ensures Contains(F, v)
  {
    hide IsPairing, Restrict, Leq, Distinct;
    var i: nat :| i < |F1| && Leq(Restrict(v, Left(rename, n1)), F1[i]);
    var j: nat :| j < |F2| && Leq(Restrict(v, Right(rename, n1)), F2[j]);
    assert PairedIn(F, F1[i], F2[j], rename);
    var k: nat :| k < |F| && IsPairing(F[k], F1[i], F2[j], rename);
    PairingDominates(v, F[k], F1[i], F2[j], rename);
  }

  lemma PairedInBox(F1: seq<Vec>, F2: seq<Vec>, F: seq<Vec>, rename: seq<nat>, n1: nat, t1: nat, n2: nat, t2: nat,
                    K: int)
    requires IsNaming(rename, n1, t1, n2, t2) && t2 <= n2 && 1 <= K
    requires AllInBox(F1, n1, t1, K) && AllInBox(F2, n2, t2, K) && OnlyPairs(F, F1, F2, rename)
    ensures AllInBox(F, n1 + 1 + n2, t1 + t2 + 1, K)
  {
    hide IsPairing, InBox, IsNaming;
    forall k: nat | k < |F|
      ensures InBox(F[k], n1 + 1 + n2, t1 + t2 + 1, K)
    {
      assert IsPairOf(F[k], F1, F2, rename);
      var x: nat, y: nat :| x < |F1| && y < |F2| && IsPairing(F[k], F1[x], F2[y], rename);
      PairingInBox(F[k], F1[x], F2[y], rename, n1, t1, n2, t2, K);
    }
  }

  // The pairing of two vectors that allow the old initial vectors allows the new one.
  lemma PairedContainsInit(F1: seq<Vec>, F2: seq<Vec>, F: seq<Vec>, rename: seq<nat>, n1: nat, n2: nat, t1: nat,
                           t2: nat, K: int)
    requires F1 != [] && F2 != [] && AllInBox(F1, n1, t1, K) && AllInBox(F2, n2, t2, K)
    requires AllPaired(F, F1, F2, rename, |F1|, 0) && Distinct(rename) && |rename| == n1 + 1 + n2
    requires forall s :: 0 <= s < |rename| ==> rename[s] < |rename|
    ensures Contains(F, InitVec(|rename|, rename[n1]))
  {
    assert PairedIn(F, F1[0], F2[0], rename);
    var k: nat :| k < |F| && IsPairing(F[k], F1[0], F2[0], rename);
    var v := InitVec(|rename|, rename[n1]);
    forall s: nat | s < |rename|
      ensures v[rename[s]] <= Slot(F1[0], F2[0], s)
    {
      assert s != n1 ==> v[rename[s]] == -1;
    }
    hide InBox, InitVec, IsPairing;
    InitBelowPairing(v, F[k], F1[0], F2[0], rename);
  }

  lemma InitBelowPairing(v: Vec, w: Vec, u1: Vec, u2: Vec, rename: seq<nat>)
    requires IsPairing(w, u1, u2, rename) && |v| == |rename| && Distinct(rename)
    requires forall s: nat :: s < |rename| ==> v[rename[s]] <= Slot(u1, u2, s)
    ensures Leq(v, w)
  {
    forall x: nat | x < |v|
      ensures v[x] <= w[x]
    {
      Pigeonhole(rename, x);
      var s: nat :| s < |rename| && rename[s] == x;
      assert w[rename[s]] == Slot(u1, u2, s);
    }
  }

  // What the pairing of two regions is, for a merge under this renaming.
  ghost predicate IsPairedMerge(dest: SafetyGame, src: SafetyGame, merged: SafetyGame, rename: seq<nat>) {
    && IsMergeOf(dest.aut, dest.threshold, src.aut, src.threshold, merged.aut, rename)
    && merged.threshold == dest.threshold + src.threshold + 1
    && merged.safe.Some? && dest.safe.Some? && src.safe.Some?
    && AllPaired(merged.safe.value, dest.safe.value, src.safe.value, rename, |dest.safe.value|, 0)
    && OnlyPairs(merged.safe.value, dest.safe.value, src.safe.value, rename)
  }

  lemma MergedStartsAtInit(dest: SafetyGame, src: SafetyGame, merged: SafetyGame, rename: seq<nat>, K: int)
    requires IsPairedMerge(dest, src, merged, rename) && dest.safe.value != [] && src.safe.value != []
    requires AllInBox(dest.safe.value, dest.aut.Size(), dest.threshold, K)
    requires AllInBox(src.safe.value, src.aut.Size(), src.threshold, K)
    ensures merged.aut.Valid()
    ensures Contains(merged.safe.value, InitVec(merged.aut.Size(), merged.aut.init))
  {
    hide Contains, AllInBox, AllPaired, OnlyPairs, Distinct, SideBySide, IsRenaming, InitVec;
    MergedShape(dest.aut, dest.threshold, src.aut, src.threshold, merged.aut, rename);
    hide IsMergeOf, Automaton.Valid;
    MergedSizes(dest, src, merged, rename);
    PairedContainsInit(dest.safe.value, src.safe.value, merged.safe.value, rename,
                       dest.aut.Size(), src.aut.Size(), dest.threshold, src.threshold, K);
  }

  lemma MergedSizes(dest: SafetyGame, src: SafetyGame, merged: SafetyGame, rename: seq<nat>)
    requires IsPairedMerge(dest, src, merged, rename)
    ensures IsNaming(rename, dest.aut.Size(), dest.threshold, src.aut.Size(), src.threshold)
    ensures |rename| == dest.aut.Size() + 1 + src.aut.Size() == merged.aut.Size()
    ensures dest.threshold <= dest.aut.Size() && src.threshold <= src.aut.Size()
  {
    hide AllPaired, OnlyPairs, SideBySide, NewName;
    MergedShape(dest.aut, dest.threshold, src.aut, src.threshold, merged.aut, rename);
  }

  lemma MergedInBox(dest: SafetyGame, src: SafetyGame, merged: SafetyGame, rename: seq<nat>, K: int)
    requires IsPairedMerge(dest, src, merged, rename) && 1 <= K
    requires AllInBox(dest.safe.value, dest.aut.Size(), dest.threshold, K)
    requires AllInBox(src.safe.value, src.aut.Size(), src.threshold, K)
    ensures AllInBox(merged.safe.value, merged.aut.Size(), merged.threshold, K)
  {
    hide AllInBox, AllPaired, OnlyPairs, IsMergeOf, IsNaming;
    MergedSizes(dest, src, merged, rename);
    PairedInBox(dest.safe.value, src.safe.value, merged.safe.value, rename,
                dest.aut.Size(), dest.threshold, src.aut.Size(), src.threshold, K);
  }

  lemma MergedCovers(dest: SafetyGame, src: SafetyGame, merged: SafetyGame, rename: seq<nat>, roots1: set<nat>,
                     roots2: set<nat>, ins: set<Bits>, outs: set<Bits>, inv: set<Letter>, K: int)
    requires IsPairedMerge(dest, src, merged, rename) && 1 <= K && dest.aut.Size() < |rename|
    requires Ready(dest, roots1, ins, outs, inv, K) && Ready(src, roots2, ins, outs, inv, K)
    ensures Covers(merged.safe.value,
                   SafeRegion(merged, MergedRoots(rename, dest.aut.Size(), roots1, roots2), ins, outs, inv, K))
  {
    hide Contains, SafeRegion, MergedRoots, IsMergeOf, AllPaired, OnlyPairs, Ready;
    var roots := MergedRoots(rename, dest.aut.Size(), roots1, roots2);
    forall v | v in SafeRegion(merged, roots, ins, outs, inv, K)
      ensures Contains(merged.safe.value, v)
    {
      PairedCovers(dest, src, merged, rename, roots1, roots2, ins, outs, inv, K, v);
    }
  }

  lemma ReadyParts(game: SafetyGame, roots: set<nat>, ins: set<Bits>, outs: set<Bits>, inv: set<Letter>, K: int)
    requires Ready(game, roots, ins, outs, inv, K)
    ensures game.aut.Valid() && Saturated(game.aut, game.threshold, roots) && game.safe.Some? && game.safe.value != []
    ensures AllInBox(game.safe.value, game.aut.Size(), game.threshold, K)
    ensures Covers(game.safe.value, SafeRegion(game, roots, ins, outs, inv, K))
  {
    hide Contains, SafeRegion, AllInBox, InitVec, Saturated, Covers;
    EmptyContainsNothing(game.safe.value, InitVec(game.aut.Size(), game.aut.init));
  }

  // The merge of two ready games is ready.
  lemma MergedReady(dest: SafetyGame, src: SafetyGame, merged: SafetyGame, rename: seq<nat>, roots1: set<nat>,
                    roots2: set<nat>, ins: set<Bits>, outs: set<Bits>, inv: set<Letter>, K: int)
    requires IsPairedMerge(dest, src, merged, rename) && 1 <= K && dest.aut.Size() < |rename|
    requires Ready(dest, roots1, ins, outs, inv, K) && Ready(src, roots2, ins, outs, inv, K)
    ensures Ready(merged, MergedRoots(rename, dest.aut.Size(), roots1, roots2), ins, outs, inv, K)
  {
    hide Contains, SafeRegion, MergedRoots, Saturated, AllInBox, AllPaired, OnlyPairs, Covers, IsMergeOf, InitVec;
    ReadyParts(dest, roots1, ins, outs, inv, K);
    ReadyParts(src, roots2, ins, outs, inv, K);
    MergedStartsAtInit(dest, src, merged, rename, K);
    MergedInBox(dest, src, merged, rename, K);
    MergedCovers(dest, src, merged, rename, roots1, roots2, ins, outs, inv, K);
    MergedSaturated(dest.aut, dest.threshold, roots1, src.aut, src.threshold, roots2, merged.aut, rename);
  }
}
