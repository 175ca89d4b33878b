/**
  The actioner: turns the transition sets offered for each input into action vectors, merges
  inputs that offer the same ones, and applies an action to a vector in its own buffer.
*/
module Actioners {
  import opened Vectors
  import opened Game
  import opened Automata

  datatype Direction = ToSuccessors | ToPredecessors

  datatype Option<+T> = None | Some(value: T)

  // A transition set together with the input/output letter it was computed for.
  datatype TransIO = TransIO(trans: TransSet, letter: Letter)

  type InputIOs = seq<(set<Bits>, seq<TransIO>)>

  // The letter is kept only when the actioner is built with its IOs.
  datatype Action = Action(vec: ActionVec, io: Option<Letter>)

  datatype InputActions = InputActions(input: set<Bits>, actions: seq<Action>)

  // Conversion to a signed 8-bit vector element.
  function ToElt(x: int): int {
    (x + 128) % 256 - 128
  }

  // One contribution as the machine computes it, in 8-bit elements.
  function PushedElt(x: int, acc: bool, K: int): int {
    Min(ToElt(K), ToElt(x + Bump(acc)))
  }

  // Vectors of a downset have elements up to K - 1.  On them a forward step is computed without
  // overflow exactly for the values of K that an element can hold.
  lemma OverflowBound(K: int)
    requires 1 <= K
    ensures (forall x, acc :: 0 <= x <= K - 1 ==> PushedElt(x, acc, K) == Min(K, x + Bump(acc))) <==> K <= 127
  {
    if 128 <= K {
      assert PushedElt(127, true, K) <= 127 < Min(K, 127 + Bump(true));
    }
  }

  ghost function VecsOf(acts: seq<Action>): set<ActionVec> {
    set j | 0 <= j < |acts| :: acts[j].vec
  }

  ghost function ArenaOfActions(L: seq<InputActions>): Arena {
    set k | 0 <= k < |L| :: VecsOf(L[k].actions)
  }

  ghost function VecsOfIOs(acc: seq<bool>, ios: seq<TransIO>): set<ActionVec> {
    set j | 0 <= j < |ios| :: ActionVecOf(acc, ios[j].trans)
  }

  ghost function ArenaOfIOs(acc: seq<bool>, table: InputIOs): Arena {
    set k | 0 <= k < |table| :: VecsOfIOs(acc, table[k].1)
  }

  predicate FitsAll(L: seq<InputActions>, n: nat) {
    forall k, j :: 0 <= k < |L| && 0 <= j < |L[k].actions| ==> FitsVec(L[k].actions[j].vec, n)
  }

  predicate TableInRange(table: InputIOs, n: nat) {
    forall k, j :: 0 <= k < |table| && 0 <= j < |table[k].1| ==> InRange(table[k].1[j].trans, n)
  }

  // One more still fits an element.
  predicate Elements(m: Vec, n: nat) {
    |m| == n && forall i :: 0 <= i < n ==> -1 <= m[i] <= 126
  }

  lemma {:induction false} PredsIntoInRange(ts: TransSet, q: nat, acc: bool, n: nat)
    requires InRange(ts, n)
    ensures forall j :: 0 <= j < |PredsInto(ts, q, acc)| ==> PredsInto(ts, q, acc)[j].src < n
  {
    if ts != [] {
      PredsIntoInRange(ts[..|ts| - 1], q, acc, n);
    }
  }

  lemma ActionVecFits(acc: seq<bool>, ts: TransSet)
    requires InRange(ts, |acc|)
    ensures FitsVec(ActionVecOf(acc, ts), |acc|)
  {
    var a: ActionVec := ActionVecOf(acc, ts);
    forall p, i | 0 <= p < |acc| && 0 <= i < |a[p]|
      ensures a[p][i].src < |acc|
    {
      PredsIntoInRange(ts, p, acc[p], |acc|);
    }
  }

  // Once the extreme value K is reached the remaining predecessors cannot change it.
  lemma {:induction false} FwdAtSaturated(f: Vec, ps: seq<Pred>, j: nat, K: int)
    requires j <= |ps| && Floor(f) && 1 <= K && FwdAt(f, ps[..j], K) == K
    ensures FwdAt(f, ps, K) == K
    decreases |ps| - j
  {
    if j < |ps| {
      var longer := ps[..j + 1];
      assert longer[..j] == ps[..j];
      FwdAtIsMax(f, longer, K);
      FwdAtSaturated(f, ps, j + 1, K);
    } else {
      assert ps[..j] == ps;
    }
  }

  class Actioner {
    const acc: seq<bool>
    const n: nat
    const threshold: nat
    const includeIOs: bool
    var K: int
    const applyOut: array<int>
    const backwardReset: array<int>
    var actions: seq<InputActions>

    ghost predicate Valid()
      reads this, backwardReset
    {
      && n == |acc| && threshold <= n
      && 1 <= K <= 127
      && applyOut.Length == n && backwardReset.Length == n && applyOut != backwardReset
      && (forall q :: 0 <= q < n ==> backwardReset[q] == Top(q, threshold, K))
      && FitsAll(actions, n)
    }

    constructor (acc: seq<bool>, threshold: nat, table: InputIOs, K: int, includeIOs: bool)
      requires threshold <= |acc| && 1 <= K <= 127 && TableInRange(table, |acc|)
      ensures Valid() && fresh(applyOut) && fresh(backwardReset)
      ensures this.acc == acc && this.threshold == threshold && this.K == K && this.includeIOs == includeIOs
      ensures ArenaOfActions(actions) == ArenaOfIOs(acc, table)
      ensures SourcesOf(acc, table, includeIOs, actions)
      ensures CoversTable(acc, table, includeIOs, actions)
      ensures DistinctActions(actions) && NamedByFirst(acc, table, includeIOs, actions)
    {
      this.acc, this.n, this.threshold, this.includeIOs, this.K := acc, |acc|, threshold, includeIOs, K;
      applyOut := new int[|acc|];
      var reset := new int[|acc|];
      backwardReset := reset;
      actions := [];
      new;
      // Counter states first, then the Boolean ones.
      FillRange(backwardReset, 0, threshold, ToElt(K - 1));
      FillRange(backwardReset, threshold, n - threshold, 0);
      var ioset := MergeInputs(acc, table, includeIOs);
      actions := ioset;
    }

    // Raising K rewrites the counter part of the reset vector only.
    method SetK(newK: int)
      requires Valid() && 1 <= newK <= 127
      modifies this`K, backwardReset
      ensures Valid() && K == newK && actions == old(actions)
    {
      K := ToElt(newK);
      FillRange(backwardReset, 0, threshold, ToElt(K - 1));
    }

    method Apply(m: Vec, a: ActionVec, dir: Direction) returns (r: Vec)
      requires Valid() && FitsVec(a, n) && Elements(m, n)
      modifies applyOut
      ensures Valid()
      ensures r == if dir.ToSuccessors? then Forward(m, a, K) else Backward(m, a, threshold, K)
    {
      if dir.ToSuccessors? {
        FillRange(applyOut, 0, n, -1);
      } else {
        CopyInto(backwardReset, applyOut);
      }
      for p := 0 to |m|
        invariant dir.ToSuccessors? ==> forall i :: 0 <= i < p ==> applyOut[i] == FwdAt(m, a[i], K)
        invariant dir.ToSuccessors? ==> forall i :: p <= i < n ==> applyOut[i] == -1
        invariant dir.ToPredecessors? ==> ReadsBackAs(m, a[..p])
      {
        if dir.ToSuccessors? {
          PushRow(m, a[p], p);
        } else {
          PullRow(m, a, p);
        }
      }
      assert a[..|m|] == a;
      r := applyOut[..];
    }

    // The buffer holds the backward image through the first states only.
    ghost predicate ReadsBackAs(m: Vec, a: ActionVec)
      reads this, applyOut
    {
      applyOut.Length == n && forall i :: 0 <= i < n ==> applyOut[i] == BackAt(m, a, i, Top(i, threshold, K))
    }

    // Forward: the inner loop over the predecessors of p.
    method PushRow(m: Vec, preds: seq<Pred>, p: nat)
      requires Valid() && Elements(m, n) && p < n && applyOut[p] == -1
      requires forall j :: 0 <= j < |preds| ==> preds[j].src < n
      modifies applyOut
      ensures applyOut[p] == FwdAt(m, preds, K)
      ensures forall i :: 0 <= i < n && i != p ==> applyOut[i] == old(applyOut[i])
    {
      var j := 0;
      while j < |preds|
        invariant 0 <= j <= |preds|
        invariant applyOut[p] == FwdAt(m, preds[..j], K)
        invariant forall i :: 0 <= i < n && i != p ==> applyOut[i] == old(applyOut[i])
      {
        var q, final := preds[j].src, preds[j].acc;
        assert preds[..j + 1][..j] == preds[..j];
        if m[q] != -1 {
          applyOut[p] := Max(applyOut[p], Min(K, ToElt(m[q] + ToElt(Bump(final)))));
        }
        j := j + 1;
        // No predecessor can add to the largest possible value.
        if applyOut[p] == K {
          FwdAtSaturated(m, preds, j, K);
          return;
        }
      }
      assert preds[..|preds|] == preds;
    }

    // Backward: the inner loop over the predecessors of p.
    method PullRow(m: Vec, a: ActionVec, p: nat)
      requires Valid() && Elements(m, n) && FitsVec(a, n) && p < n && ReadsBackAs(m, a[..p])
      modifies applyOut
      ensures ReadsBackAs(m, a[..p + 1])
    {
      var preds := a[p];
      for j := 0 to |preds|
        invariant forall i :: 0 <= i < n ==>
                                applyOut[i] == BackVia(preds[..j], i, m[p], BackAt(m, a[..p], i, Top(i, threshold, K)))
      {
        var q, final := preds[j].src, preds[j].acc;
        assert preds[..j + 1][..j] == preds[..j];
        BackFloor(preds[..j], m, a[..p], q, m[p], threshold, K);
        if applyOut[q] != -1 {
          applyOut[q] := Min(applyOut[q], Max(-1, ToElt(m[p] - ToElt(Bump(final)))));
        }
      }
      assert preds[..|preds|] == preds;
      assert a[..p + 1][..p] == a[..p] && a[..p + 1][p] == preds;
    }
  }

  // A backward value never goes below -1, so a component already at -1 can be skipped.
  lemma BackFloor(ps: seq<Pred>, m: Vec, a: ActionVec, q: nat, mp: int, t: nat, K: int)
    requires 1 <= K
    ensures -1 <= BackVia(ps, q, mp, BackAt(m, a, q, Top(q, t, K)))
  {
    BackAtIsMin(m, a, q, Top(q, t, K), -1);
    BackViaIsMin(ps, q, mp, BackAt(m, a, q, Top(q, t, K)), -1);
  }

  method FillRange(a: array<int>, from: nat, count: nat, x: int)
    requires from + count <= a.Length
    modifies a
    ensures forall i :: from <= i < from + count ==> a[i] == x
    ensures forall i :: 0 <= i < a.Length && !(from <= i < from + count) ==> a[i] == old(a[i])
  {
    for i := from to from + count
      invariant forall j :: from <= j < i ==> a[j] == x
      invariant forall j :: 0 <= j < a.Length && !(from <= j < i) ==> a[j] == old(a[j])
    {
      a[i] := x;
    }
  }

  method CopyInto(src: array<int>, dst: array<int>)
    requires src != dst && src.Length == dst.Length
    modifies dst
    ensures forall i :: 0 <= i < dst.Length ==> dst[i] == src[i]
  {
    for i := 0 to src.Length
      invariant forall j :: 0 <= j < i ==> dst[j] == src[j]
    {
      dst[i] := src[i];
    }
  }

  // --- Building the action lists -----------------------------------------------------------

  function ActionOf(acc: seq<bool>, x: TransIO, includeIOs: bool): Action {
    Action(ActionVecOf(acc, x.trans), if includeIOs then Some(x.letter) else None)
  }

  function ActionsOf(acc: seq<bool>, ios: seq<TransIO>, includeIOs: bool): seq<Action> {
    seq(|ios|, j requires 0 <= j < |ios| => ActionOf(acc, ios[j], includeIOs))
  }

  method ComputeActionVec(acc: seq<bool>, ts: TransSet) returns (a: ActionVec)
    requires InRange(ts, |acc|)
    ensures a == ActionVecOf(acc, ts)
  {
    a := seq(|acc|, _ => []);
    for k := 0 to |ts|
      invariant |a| == |acc|
      invariant forall i :: 0 <= i < |acc| ==> a[i] == PredsInto(ts[..k], i, acc[i])
    {
      var p, q := ts[k].0, ts[k].1;
      assert ts[..k + 1][..k] == ts[..k];
      a := a[q := a[q] + [Pred(p, acc[q])]];
    }
    assert ts[..|ts|] == ts;
  }

  method ComputeActionVecs(acc: seq<bool>, ios: seq<TransIO>, includeIOs: bool) returns (fwd: seq<Action>)
    requires forall j :: 0 <= j < |ios| ==> InRange(ios[j].trans, |acc|)
    ensures fwd == ActionsOf(acc, ios, includeIOs)
    ensures forall j :: 0 <= j < |fwd| ==> FitsVec(fwd[j].vec, |acc|)
  {
    fwd := [];
    for j := 0 to |ios|
      invariant fwd == ActionsOf(acc, ios[..j], includeIOs)
      invariant forall i :: 0 <= i < |fwd| ==> FitsVec(fwd[i].vec, |acc|)
    {
      var vec := ComputeActionVec(acc, ios[j].trans);
      ActionVecFits(acc, ios[j].trans);
      fwd := fwd + [Action(vec, if includeIOs then Some(ios[j].letter) else None)];
    }
    assert ios[..|ios|] == ios;
  }

  // No two entries offer the same action list.
  ghost predicate DistinctActions(L: seq<InputActions>) {
    forall x, y :: 0 <= x < y < |L| ==> L[x].actions != L[y].actions
  }

  // Every kept entry is the action list of some input.
  ghost predicate SourcesOf(acc: seq<bool>, table: InputIOs, includeIOs: bool, L: seq<InputActions>) {
    forall x :: 0 <= x < |L| ==>
      exists k :: 0 <= k < |table| && L[x].input == table[k].0 && L[x].actions == ActionsOf(acc, table[k].1, includeIOs)
  }

  // Of the inputs with the same action list, the first in the table gives its name.
  ghost predicate NamedByFirst(acc: seq<bool>, table: InputIOs, includeIOs: bool, L: seq<InputActions>) {
    forall x :: 0 <= x < |L| ==> HasFirstRow(acc, table, includeIOs, L[x])
  }

  ghost predicate HasFirstRow(acc: seq<bool>, table: InputIOs, includeIOs: bool, e: InputActions) {
    exists k :: 0 <= k < |table| && IsFirstRow(acc, table, includeIOs, e, k)
  }

  ghost predicate IsFirstRow(acc: seq<bool>, table: InputIOs, includeIOs: bool, e: InputActions, k: nat)
    requires k < |table|
  {
    && e.input == table[k].0 && e.actions == ActionsOf(acc, table[k].1, includeIOs)
    && forall m :: 0 <= m < k ==> ActionsOf(acc, table[m].1, includeIOs) != e.actions
  }

  lemma NewIsFirst(acc: seq<bool>, table: InputIOs, includeIOs: bool, L: seq<InputActions>, k: nat, entry: InputActions)
    requires k < |table| && CoversTable(acc, table[..k], includeIOs, L) && !HasActions(L, entry.actions)
    requires entry == InputActions(table[k].0, ActionsOf(acc, table[k].1, includeIOs))
    ensures IsFirstRow(acc, table, includeIOs, entry, k)
  {
    forall m | 0 <= m < k
      ensures ActionsOf(acc, table[m].1, includeIOs) != entry.actions
    {
      assert table[..k][m] == table[m];
      assert HasActions(L, ActionsOf(acc, table[..k][m].1, includeIOs));
    }
  }

  lemma InsertKeepsNames(acc: seq<bool>, table: InputIOs, includeIOs: bool, L: seq<InputActions>, pos: nat,
                         entry: InputActions, k: nat)
    requires k < |table| && pos <= |L| && NamedByFirst(acc, table, includeIOs, L)
    requires IsFirstRow(acc, table, includeIOs, entry, k)
    ensures NamedByFirst(acc, table, includeIOs, L[..pos] + [entry] + L[pos..])
  {
    assert HasFirstRow(acc, table, includeIOs, entry);
    hide HasFirstRow;
    var L' := L[..pos] + [entry] + L[pos..];
    assert forall x :: 0 <= x < |L'| ==> L'[x] == if x < pos then L[x] else if x == pos then entry else L[x - 1];
  }

  // Every input's action list is kept, perhaps under the name of another input.
  ghost predicate CoversTable(acc: seq<bool>, table: InputIOs, includeIOs: bool, L: seq<InputActions>) {
    forall k :: 0 <= k < |table| ==> HasActions(L, ActionsOf(acc, table[k].1, includeIOs))
  }

  ghost predicate HasActions(L: seq<InputActions>, acts: seq<Action>) {
    exists x :: 0 <= x < |L| && L[x].actions == acts
  }

  lemma VecsOfComputed(acc: seq<bool>, ios: seq<TransIO>, includeIOs: bool)
    ensures VecsOf(ActionsOf(acc, ios, includeIOs)) == VecsOfIOs(acc, ios)
  {
    var acts := ActionsOf(acc, ios, includeIOs);
    forall a
      ensures a in VecsOf(acts) <==> a in VecsOfIOs(acc, ios)
    {
      if a in VecsOf(acts) {
        var j :| 0 <= j < |acts| && a == acts[j].vec;
        assert a == ActionVecOf(acc, ios[j].trans);
      }
      if a in VecsOfIOs(acc, ios) {
        var j :| 0 <= j < |ios| && a == ActionVecOf(acc, ios[j].trans);
        assert a == acts[j].vec;
      }
    }
  }

  lemma ArenaHas(L: seq<InputActions>, x: nat)
    requires x < |L|
    ensures VecsOf(L[x].actions) in ArenaOfActions(L)
  {
  }

  lemma ArenaOfIOsSnoc(acc: seq<bool>, table: InputIOs, k: nat)
    requires k < |table|
    ensures ArenaOfIOs(acc, table[..k + 1]) == ArenaOfIOs(acc, table[..k]) + {VecsOfIOs(acc, table[k].1)}
  {
    var A, B := ArenaOfIOs(acc, table[..k + 1]), ArenaOfIOs(acc, table[..k]) + {VecsOfIOs(acc, table[k].1)};
    forall V
      ensures V in A <==> V in B
    {
      if V in A {
        var i :| 0 <= i < k + 1 && V == VecsOfIOs(acc, table[..k + 1][i].1);
        if i < k {
          assert table[..k][i] == table[..k + 1][i];
        }
      }
      if V in B {
        if V in ArenaOfIOs(acc, table[..k]) {
          var i :| 0 <= i < k && V == VecsOfIOs(acc, table[..k][i].1);
          assert table[..k + 1][i] == table[..k][i];
        } else {
          assert table[..k + 1][k] == table[k];
        }
      }
    }
  }

  lemma ArenaInsert(L: seq<InputActions>, pos: nat, entry: InputActions)
    requires pos <= |L|
    ensures ArenaOfActions(L[..pos] + [entry] + L[pos..]) == ArenaOfActions(L) + {VecsOf(entry.actions)}
  {
    var L' := L[..pos] + [entry] + L[pos..];
    var A, B := ArenaOfActions(L'), ArenaOfActions(L) + {VecsOf(entry.actions)};
    forall V
      ensures V in A <==> V in B
    {
      if V in A {
        var i :| 0 <= i < |L'| && V == VecsOf(L'[i].actions);
        if i < pos {
          assert L'[i] == L[i];
        } else if i > pos {
          assert L'[i] == L[i - 1];
        }
      }
      if V in B {
        if V in ArenaOfActions(L) {
          var i :| 0 <= i < |L| && V == VecsOf(L[i].actions);
          assert L'[if i < pos then i else i + 1] == L[i];
        } else {
          assert L'[pos] == entry;
        }
      }
    }
  }

  lemma CoversInsert(acc: seq<bool>, table: InputIOs, includeIOs: bool, L: seq<InputActions>, pos: nat,
                     entry: InputActions)
    requires pos <= |L| && CoversTable(acc, table, includeIOs, L)
    ensures CoversTable(acc, table, includeIOs, L[..pos] + [entry] + L[pos..])
  {
    var L' := L[..pos] + [entry] + L[pos..];
    forall k | 0 <= k < |table|
      ensures HasActions(L', ActionsOf(acc, table[k].1, includeIOs))
    {
      assert HasActions(L, ActionsOf(acc, table[k].1, includeIOs));
      var x :| 0 <= x < |L| && L[x].actions == ActionsOf(acc, table[k].1, includeIOs);
      assert L'[if x < pos then x else x + 1] == L[x];
    }
  }

  lemma CoversSnoc(acc: seq<bool>, table: InputIOs, includeIOs: bool, L: seq<InputActions>, k: nat)
    requires k < |table| && CoversTable(acc, table[..k], includeIOs, L)
    requires HasActions(L, ActionsOf(acc, table[k].1, includeIOs))
    ensures CoversTable(acc, table[..k + 1], includeIOs, L)
  {
    var longer := table[..k + 1];
    forall i | 0 <= i < |longer|
      ensures HasActions(L, ActionsOf(acc, longer[i].1, includeIOs))
    {
      if i < k {
        assert table[..k][i] == longer[i];
      }
    }
  }

  // The action lists of the first k inputs have been merged into L.
  ghost predicate MergedUpTo(acc: seq<bool>, table: InputIOs, includeIOs: bool, k: nat, L: seq<InputActions>)
    requires k <= |table|
  {
    && FitsAll(L, |acc|)
    && ArenaOfActions(L) == ArenaOfIOs(acc, table[..k])
    && SourcesOf(acc, table, includeIOs, L) && NamedByFirst(acc, table, includeIOs, L)
    && CoversTable(acc, table[..k], includeIOs, L)
    && DistinctActions(L)
  }

  lemma NothingMerged(acc: seq<bool>, table: InputIOs, includeIOs: bool)
    ensures MergedUpTo(acc, table, includeIOs, 0, [])
  {
    assert ArenaOfActions([]) == {} == ArenaOfIOs(acc, table[..0]);
  }

  // The list is there already.
  lemma MergedAgain(acc: seq<bool>, table: InputIOs, includeIOs: bool, k: nat, L: seq<InputActions>)
    requires k < |table| && MergedUpTo(acc, table, includeIOs, k, L)
    requires HasActions(L, ActionsOf(acc, table[k].1, includeIOs))
    ensures MergedUpTo(acc, table, includeIOs, k + 1, L)
  {
    var x :| 0 <= x < |L| && L[x].actions == ActionsOf(acc, table[k].1, includeIOs);
    hide ArenaOfActions, ArenaOfIOs, SourcesOf, CoversTable, DistinctActions, FitsAll, ActionsOf, VecsOf, VecsOfIOs;
    hide NamedByFirst;
    VecsOfComputed(acc, table[k].1, includeIOs);
    ArenaOfIOsSnoc(acc, table, k);
    ArenaHas(L, x);
    CoversSnoc(acc, table, includeIOs, L, k);
  }

  // A new list is put anywhere.
  lemma MergedNew(acc: seq<bool>, table: InputIOs, includeIOs: bool, k: nat, L: seq<InputActions>, pos: nat,
                  entry: InputActions)
    requires k < |table| && pos <= |L| && MergedUpTo(acc, table, includeIOs, k, L)
    requires entry == InputActions(table[k].0, ActionsOf(acc, table[k].1, includeIOs))
    requires !HasActions(L, entry.actions) && FitsAll([entry], |acc|)
    ensures MergedUpTo(acc, table, includeIOs, k + 1, L[..pos] + [entry] + L[pos..])
  {
    var L' := L[..pos] + [entry] + L[pos..];
    InsertKeepsEntries(acc, table, includeIOs, L, pos, entry, k);
    NewIsFirst(acc, table, includeIOs, L, k, entry);
    InsertKeepsNames(acc, table, includeIOs, L, pos, entry, k);
    hide NamedByFirst, IsFirstRow, ArenaOfActions, ArenaOfIOs, SourcesOf, CoversTable, DistinctActions, FitsAll;
    hide ActionsOf, VecsOf, VecsOfIOs;
    VecsOfComputed(acc, table[k].1, includeIOs);
    ArenaOfIOsSnoc(acc, table, k);
    ArenaInsert(L, pos, entry);
    CoversInsert(acc, table[..k], includeIOs, L, pos, entry);
    assert L'[pos] == entry;
    assert HasActions(L', entry.actions);
    CoversSnoc(acc, table, includeIOs, L', k);
  }

  // What holds of every entry, and of every two.
  lemma InsertKeepsEntries(acc: seq<bool>, table: InputIOs, includeIOs: bool, L: seq<InputActions>, pos: nat,
                           entry: InputActions, k: nat)
    requires k < |table| && pos <= |L| && FitsAll(L, |acc|) && SourcesOf(acc, table, includeIOs, L) &&
        DistinctActions(L)
    requires entry == InputActions(table[k].0, ActionsOf(acc, table[k].1, includeIOs))
    requires !HasActions(L, entry.actions) && FitsAll([entry], |acc|)
    ensures FitsAll(L[..pos] + [entry] + L[pos..], |acc|)
    ensures SourcesOf(acc, table, includeIOs, L[..pos] + [entry] + L[pos..])
    ensures DistinctActions(L[..pos] + [entry] + L[pos..])
  {
    hide FitsVec, ActionsOf;
    var L' := L[..pos] + [entry] + L[pos..];
    assert [entry][0] == entry;
    forall x | 0 <= x < |L'|
      ensures L'[x] == if x < pos then L[x] else if x == pos then entry else L[x - 1]
    {
    }
    forall x, j | 0 <= x < |L'| && 0 <= j < |L'[x].actions|
      ensures FitsVec(L'[x].actions[j].vec, |acc|)
    {
    }
  }

  // Inputs that offer the same action list are one and the same to the solver.
  method MergeInputs(acc: seq<bool>, table: InputIOs, includeIOs: bool) returns (ioset: seq<InputActions>)
    requires TableInRange(table, |acc|)
    ensures FitsAll(ioset, |acc|)
    ensures ArenaOfActions(ioset) == ArenaOfIOs(acc, table)
    ensures SourcesOf(acc, table, includeIOs, ioset)
    ensures CoversTable(acc, table, includeIOs, ioset)
    ensures DistinctActions(ioset) && NamedByFirst(acc, table, includeIOs, ioset)
  {
    ioset := [];
    hide FitsVec, MergedUpTo, ActionsOf;
    NothingMerged(acc, table, includeIOs);
    for k := 0 to |table|
      invariant MergedUpTo(acc, table, includeIOs, k, ioset)
    {
      var fwd := ComputeActionVecs(acc, table[k].1, includeIOs);
      var entry := InputActions(table[k].0, fwd);
      // A sorted set keeps one entry per action list; where it puts a new one does not matter.
      if exists x | 0 <= x < |ioset| :: ioset[x].actions == fwd {
        MergedAgain(acc, table, includeIOs, k, ioset);
      } else {
        var pos :| 0 <= pos <= |ioset|;
        MergedNew(acc, table, includeIOs, k, ioset, pos, entry);
        ioset := ioset[..pos] + [entry] + ioset[pos..];
      }
    }
    AllMerged(acc, table, includeIOs, ioset);
  }

  lemma AllMerged(acc: seq<bool>, table: InputIOs, includeIOs: bool, L: seq<InputActions>)
    requires MergedUpTo(acc, table, includeIOs, |table|, L)
    ensures FitsAll(L, |acc|) && ArenaOfActions(L) == ArenaOfIOs(acc, table) && SourcesOf(acc, table, includeIOs, L)
    ensures CoversTable(acc, table, includeIOs, L) && DistinctActions(L) && NamedByFirst(acc, table, includeIOs, L)
  {
    assert table[..|table|] == table;
  }
}
