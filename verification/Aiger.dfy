/**
  And-inverter graphs: translation of decision diagrams with structural hashing of gates and a
  cache that also recognises complements.  Literals are even for a variable, odd for its negation.
*/
module Aiger {
  import opened Automata

  // Diagrams are compared structurally, which is what their ids do for shared diagrams.
  datatype Bdd = False | True | Node(v: nat, low: Bdd, high: Bdd)

  function Not(f: Bdd): Bdd {
    match f
    case False => True
    case True => False
    case Node(v, low, high) => Node(v, Not(low), Not(high))
  }

  // Position of a diagram variable among the inputs followed by the latches.
  function IndexOf(vars: seq<nat>, v: nat): nat {
    if vars == [] || vars[0] == v then 0 else 1 + IndexOf(vars[1..], v)
  }

  lemma {:induction false} IndexOfFirst(vars: seq<nat>, v: nat)
    ensures IndexOf(vars, v) <= |vars|
    ensures v in vars <==> IndexOf(vars, v) < |vars|
    ensures forall k :: 0 <= k < IndexOf(vars, v) ==> vars[k] != v
    ensures v in vars ==> vars[IndexOf(vars, v)] == v
  {
    if vars != [] && vars[0] != v {
      IndexOfFirst(vars[1..], v);
    }
  }

  lemma {:induction false} IndexOfUnique(vars: seq<nat>, v: nat, k: nat)
    requires k <= |vars| && (k < |vars| ==> vars[k] == v) && forall j :: 0 <= j < k ==> vars[j] != v
    ensures IndexOf(vars, v) == k
  {
    if vars != [] && vars[0] != v {
      IndexOfUnique(vars[1..], v, k - 1);
    }
  }

  // env[k] is the value of the k-th input or latch.
  function Eval(f: Bdd, vars: seq<nat>, env: Bits): bool {
    match f
    case False => false
    case True => true
    case Node(v, low, high) =>
      if IndexOf(vars, v) < |env| && env[IndexOf(vars, v)] then Eval(high, vars, env) else Eval(low, vars, env)
  }

  lemma {:induction false} EvalNot(f: Bdd, vars: seq<nat>, env: Bits)
    ensures Eval(Not(f), vars, env) == !Eval(f, vars, env)
  {
    match f
    case False =>
    case True =>
    case Node(v, low, high) =>
      EvalNot(low, vars, env);
      EvalNot(high, vars, env);
  }

  lemma {:induction false} NotTwice(f: Bdd)
    ensures Not(Not(f)) == f && Not(f).Node? == f.Node?
  {
    match f
    case False =>
    case True =>
    case Node(v, low, high) =>
      NotTwice(low);
      NotTwice(high);
  }

  // The diagram or its complement has been translated.
  predicate Cached(cache: map<Bdd, nat>, f: Bdd) {
    f in cache || Not(f) in cache
  }

  // What has been translated serves the complement as well.
  lemma ComplementCached(cache: map<Bdd, nat>, f: Bdd)
    ensures Cached(cache, Not(f)) <==> Cached(cache, f)
  {
    NotTwice(f);
  }

  // g occurs in f.
  predicate Occurs(g: Bdd, f: Bdd) {
    g == f || (f.Node? && (Occurs(g, f.low) || Occurs(g, f.high)))
  }

  function Depth(f: Bdd): nat {
    match f
    case False => 0
    case True => 0
    case Node(v, low, high) => 1 + if Depth(low) < Depth(high) then Depth(high) else Depth(low)
  }

  lemma {:induction false} OccursDepth(g: Bdd, f: Bdd)
    requires Occurs(g, f)
    ensures Depth(g) <= Depth(f)
  {
    if g != f {
      if Occurs(g, f.low) {
        OccursDepth(g, f.low);
      } else {
        OccursDepth(g, f.high);
      }
    }
  }

  // Earlier entries stay, and new ones are for diagrams that occur in f.
  ghost predicate CacheGrows(cache: map<Bdd, nat>, cache': map<Bdd, nat>, f: Bdd) {
    && (forall g :: g in cache ==> g in cache' && cache'[g] == cache[g])
    && (forall g :: g in cache' ==> g in cache || Occurs(g, f))
  }

  // A constant, a diagram or the complement of one already translated costs nothing; everything else
  // is cached afterwards, at no more than three gates for every diagram newly cached.
  ghost predicate Reuses(f: Bdd, defs: Defs, cache: map<Bdd, nat>, defs': Defs, cache': map<Bdd, nat>, r: nat) {
    && (!f.Node? ==> r == (if f == True then 1 else 0))
    && (!f.Node? || Cached(cache, f) ==> defs' == defs && cache' == cache)
    && (f.Node? && f in cache ==> r == cache[f])
    && (f.Node? ==> if f in cache' then r == cache'[f] else Not(f) in cache' && r == Flip(cache'[Not(f)]))
    && CacheGrows(cache, cache', f) && |defs'| - |defs| <= 3 * (|cache'| - |cache|)
  }

  lemma ReuseGrows(f: Bdd, defs: Defs, cache: map<Bdd, nat>, defs': Defs, cache': map<Bdd, nat>, r: nat)
    requires Reuses(f, defs, cache, defs', cache', r)
    ensures CacheGrows(cache, cache', f) && |defs'| - |defs| <= 3 * (|cache'| - |cache|)
  {
    hide CacheGrows, Cached, Not;
  }

  // Asking again for the diagram, or for its complement, leaves the graph as it is.
  lemma AskedAgain(f: Bdd, defs: Defs, cache: map<Bdd, nat>, d1: Defs, c1: map<Bdd, nat>, r1: nat,
                   d2: Defs, c2: map<Bdd, nat>, r2: nat, complement: bool)
    requires Reuses(f, defs, cache, d1, c1, r1)
    requires Reuses(if complement then Not(f) else f, d1, c1, d2, c2, r2)
    ensures d2 == d1 && c2 == c1
    ensures !complement ==> r2 == r1
  {
    NotTwice(f);
    hide CacheGrows;
  }

  // The branches leave their parent out of the cache.
  lemma ParentStaysOut(cache: map<Bdd, nat>, cache': map<Bdd, nat>, cache'': map<Bdd, nat>, f: Bdd)
    requires f.Node? && f !in cache && CacheGrows(cache, cache', f.low) && CacheGrows(cache', cache'', f.high)
    ensures f !in cache'' && CacheGrows(cache, cache'', f)
  {
    if f in cache'' {
      if Occurs(f, f.high) {
        OccursDepth(f, f.high);
      } else {
        OccursDepth(f, f.low);
      }
    }
  }

  lemma ParentCached(cache: map<Bdd, nat>, cache': map<Bdd, nat>, f: Bdd, r: nat)
    requires CacheGrows(cache, cache', f) && f !in cache && f !in cache'
    ensures CacheGrows(cache, cache'[f := r], f) && |cache'[f := r]| == |cache'| + 1
  {
    hide Occurs;
    assert Occurs(f, f) by {
      OccursItself(f);
    }
    var longer := cache'[f := r];
    assert longer.Keys == cache'.Keys + {f};
    assert |longer| == |longer.Keys| && |cache'| == |cache'.Keys|;
  }

  lemma OccursItself(f: Bdd)
    ensures Occurs(f, f)
  {
  }

  predicate Supported(f: Bdd, vars: seq<nat>) {
    match f
    case False => true
    case True => true
    case Node(v, low, high) => v in vars && Supported(low, vars) && Supported(high, vars)
  }

  // --- Meaning of literals -----------------------------------------------------------------------

  // Inputs of the gates, in creation order.
  type Defs = seq<(nat, nat)>

  // Variable 0 is false, then come inputs and latches, then gates.
  ghost function VarValue(defs: Defs, env: Bits, v: nat): bool
    decreases v
  {
    if v == 0 then false
    else if v <= |env| then env[v - 1]
    else if v - |env| - 1 < |defs| then
      var (a, b) := defs[v - |env| - 1];
      a / 2 < v && b / 2 < v && LitOf(a, VarValue(defs, env, a / 2)) && LitOf(b, VarValue(defs, env, b / 2))
    else false
  }

  function LitOf(lit: nat, value: bool): bool {
    if lit % 2 == 0 then value else !value
  }

  ghost function LitValue(defs: Defs, env: Bits, lit: nat): bool {
    LitOf(lit, VarValue(defs, env, lit / 2))
  }

  function Flip(lit: nat): nat {
    if lit % 2 == 0 then lit + 1 else lit - 1
  }

  // Literals that exist already keep their value when gates are added.
  lemma {:induction false} ValueKept(defs: Defs, defs': Defs, env: Bits, v: nat)
    requires defs <= defs' && v <= |env| + |defs|
    ensures VarValue(defs', env, v) == VarValue(defs, env, v)
    decreases v
  {
    if |env| < v {
      var (a, b) := defs[v - |env| - 1];
      assert defs'[v - |env| - 1] == (a, b);
      if a / 2 < v && b / 2 < v {
        ValueKept(defs, defs', env, a / 2);
        ValueKept(defs, defs', env, b / 2);
      }
    }
  }

  // The literal stands for the diagram under every assignment of the inputs and latches.
  ghost predicate Means(defs: Defs, vars: seq<nat>, lit: nat, f: Bdd) {
    && lit / 2 <= |vars| + |defs|
    && forall env: Bits :: |env| == |vars| ==> LitValue(defs, env, lit) == Eval(f, vars, env)
  }

  lemma MeansKept(defs: Defs, defs': Defs, vars: seq<nat>, lit: nat, f: Bdd)
    requires defs <= defs' && Means(defs, vars, lit, f)
    ensures Means(defs', vars, lit, f)
  {
    hide VarValue, Eval;
    forall env: Bits | |env| == |vars|
      ensures LitValue(defs', env, lit) == Eval(f, vars, env)
    {
      ValueKept(defs, defs', env, lit / 2);
    }
  }

  // The literal is the conjunction of two others.
  ghost predicate IsAnd(defs: Defs, n: nat, lit: nat, i1: nat, i2: nat) {
    && lit / 2 <= n + |defs|
    && forall env: Bits :: |env| == n ==>
        LitValue(defs, env, lit) == (LitValue(defs, env, i1) && LitValue(defs, env, i2))
  }

  // The shortcuts of the gate constructor.
  lemma ConstantFolding(defs: Defs, n: nat, i1: nat, i2: nat)
    requires i1 / 2 <= n + |defs| && i2 / 2 <= n + |defs|
    ensures i1 == 0 ==> IsAnd(defs, n, 0, i1, i2)
    ensures i1 == 1 ==> IsAnd(defs, n, i2, i1, i2)
    ensures i1 == i2 ==> IsAnd(defs, n, i1, i1, i2)
    ensures i2 == Flip(i1) ==> IsAnd(defs, n, 0, i1, i2)
  {
    forall env: Bits | |env| == n
      ensures LitValue(defs, env, 0) == false && LitValue(defs, env, 1) == true
      ensures i2 == Flip(i1) ==> LitValue(defs, env, i2) == !LitValue(defs, env, i1)
    {
    }
    hide VarValue;
  }

  lemma GateIsAnd(defs: Defs, n: nat, j: nat)
    requires j < |defs| && defs[j].0 / 2 < n + j + 1 && defs[j].1 / 2 < n + j + 1
    ensures IsAnd(defs, n, 2 * (n + j + 1), defs[j].0, defs[j].1)
  {
    forall env: Bits | |env| == n
      ensures LitValue(defs, env, 2 * (n + j + 1)) == (LitValue(defs, env, defs[j].0) && LitValue(defs, env, defs[j].1))
    {
      assert 2 * (n + j + 1) / 2 == n + j + 1;
    }
  }

  lemma AndSymmetric(defs: Defs, n: nat, lit: nat, i1: nat, i2: nat)
    requires IsAnd(defs, n, lit, i1, i2)
    ensures IsAnd(defs, n, lit, i2, i1)
  {
    hide LitValue;
  }

  // !( !(low & !x) & !(high & x) ) is the diagram's branching on x.
  lemma BranchMeans(defs: Defs, vars: seq<nat>, f: Bdd, x: nat, low: nat, high: nat, lowG: nat, highG: nat, out: nat)
    requires f.Node? && f.v in vars && x == 2 * (1 + IndexOf(vars, f.v))
    requires Means(defs, vars, low, f.low) && Means(defs, vars, high, f.high)
    requires IsAnd(defs, |vars|, lowG, low, Flip(x)) && IsAnd(defs, |vars|, highG, high, x)
    requires IsAnd(defs, |vars|, out, Flip(lowG), Flip(highG))
    ensures Means(defs, vars, Flip(out), f)
  {
    IndexOfFirst(vars, f.v);
    forall env: Bits | |env| == |vars|
      ensures LitValue(defs, env, Flip(out)) == Eval(f, vars, env)
    {
      assert LitValue(defs, env, x) == env[IndexOf(vars, f.v)];
    }
    hide VarValue, Eval;
  }

  // --- The graph under construction ---------------------------------------------------------------

  ghost predicate GatesOk(n: nat, defs: Defs, gates: map<(nat, nat), nat>) {
    && (forall j :: 0 <= j < |defs| ==> GateOk(n, defs, gates, j))
    && (forall k :: k in gates ==> k in defs)
  }

  // Gate j is recorded once, with ordered inputs that were created before it.
  ghost predicate GateOk(n: nat, defs: Defs, gates: map<(nat, nat), nat>, j: nat)
    requires j < |defs|
  {
    && defs[j] in gates && gates[defs[j]] == 2 * (n + j + 1)
    && 2 <= defs[j].0 < defs[j].1 && defs[j].1 / 2 <= n + j && defs[j].1 != Flip(defs[j].0)
  }

  // What asking for the conjunction of i1 <= i2 returns, and the gates there are afterwards.
  ghost predicate IsGateFor(defs: Defs, gates: map<(nat, nat), nat>, next: nat, i1: nat, i2: nat, r: nat, defs': Defs) {
    if i1 == 0 || i2 == Flip(i1) then r == 0 && defs' == defs
    else if i1 == 1 || i1 == i2 then r == i2 && defs' == defs
    else if (i1, i2) in gates then r == gates[(i1, i2)] && defs' == defs
    else r == next && defs' == defs + [(i1, i2)]
  }

  class AigerGraph {
    const inputs: seq<nat>
    const latches: seq<nat>
    var latchesId: seq<nat>
    var outputs: seq<nat>
    var vi: nat
    var cache: map<Bdd, nat>
    var gates: map<(nat, nat), nat>
    ghost var defs: Defs

    function Vars(): seq<nat> {
      inputs + latches
    }

    ghost predicate Valid()
      reads this
    {
      && vi == 2 * (1 + |inputs| + |latches| + |defs|)
      && GatesOk(|inputs| + |latches|, defs, gates)
      && (forall f :: f in cache ==> Means(defs, Vars(), cache[f], f))
    }

    constructor (inputs: seq<nat>, latches: seq<nat>, nOutputs: nat)
      ensures Valid() && this.inputs == inputs && this.latches == latches
      ensures defs == [] && cache == map[] && |latchesId| == |latches| && |outputs| == nOutputs
    {
      this.inputs, this.latches := inputs, latches;
      latchesId := seq(|latches|, _ => 0);
      outputs := seq(nOutputs, _ => 0);
      vi := 2 + 2 * |inputs| + 2 * |latches|;
      cache, gates, defs := map[], map[], [];
    }

    method AddGate(x: nat, y: nat) returns (r: nat)
      requires Valid() && x < vi && y < vi
      modifies this`vi, this`gates, this`defs
      ensures Valid() && old(defs) <= defs && r < vi
      ensures |defs| <= |old(defs)| + 1
      ensures IsAnd(defs, |inputs| + |latches|, r, x, y)
      ensures IsGateFor(old(defs), old(gates), old(vi), if x <= y then x else y, if x <= y then y else x, r, defs)
    {
      hide IsAnd, Means;
      var i1, i2 := if x > y then y else x, if x > y then x else y;
      ghost var n := |inputs| + |latches|;
      ConstantFolding(defs, n, i1, i2);
      if i1 == 0 {
        r := 0;
      } else if i1 == 1 {
        r := i2;
      } else if i1 == i2 {
        r := i1;
      } else if i2 == Flip(i1) {
        r := 0;
      } else if (i1, i2) in gates {
        r := gates[(i1, i2)];
        ghost var j :| 0 <= j < |defs| && defs[j] == (i1, i2);
        assert GateOk(n, defs, gates, j);
        GateIsAnd(defs, n, j);
      } else {
        r := NewGate(i1, i2);
      }
      if x > y {
        AndSymmetric(defs, n, r, i1, i2);
      }
    }

    // A gate that does not exist yet.
    method NewGate(i1: nat, i2: nat) returns (r: nat)
      requires Valid() && 2 <= i1 < i2 < vi && i2 != Flip(i1) && (i1, i2) !in gates
      modifies this`vi, this`gates, this`defs
      ensures Valid() && defs == old(defs) + [(i1, i2)] && old(vi) == r < vi
      ensures IsAnd(defs, |inputs| + |latches|, r, i1, i2)
    {
      hide IsAnd, Means;
      ghost var n := |inputs| + |latches|;
      r := vi;
      vi := vi + 2;
      gates := gates[(i1, i2) := r];
      GateAdded(n, defs, old(gates), (i1, i2));
      CacheKept(defs, defs + [(i1, i2)], Vars(), cache);
      defs := defs + [(i1, i2)];
      GateIsAnd(defs, n, |defs| - 1);
    }

    method BddVarToGate(v: nat) returns (g: nat)
      requires v in Vars()
      ensures g == 2 * (1 + IndexOf(Vars(), v))
    {
      var k := 0;
      while k < |inputs| && inputs[k] != v
        invariant k <= |inputs| && forall j :: 0 <= j < k ==> inputs[j] != v
      {
        k := k + 1;
      }
      if k < |inputs| {
        IndexOfUnique(Vars(), v, k);
        return 2 + 2 * k;
      }
      k := 0;
      while k < |latches| && latches[k] != v
        invariant k <= |latches| && forall j :: 0 <= j < k ==> latches[j] != v
      {
        k := k + 1;
      }
      assert forall j :: 0 <= j < |inputs| + k ==> Vars()[j] != v;
      IndexOfUnique(Vars(), v, |inputs| + k);
      return 2 + 2 * |inputs| + 2 * k;
    }

    method Bdd2Aig(f: Bdd) returns (r: nat)
      requires Valid() && Supported(f, Vars())
      modifies this`vi, this`gates, this`defs, this`cache
      ensures Valid() && old(defs) <= defs && r < vi
      ensures Means(defs, Vars(), r, f)
      ensures Reuses(f, old(defs), old(cache), defs, cache, r)
      decreases f, 1
    {
      if f == False {
        return 0;
      }
      if f == True {
        return 1;
      }
      hide Means, GatesOk, IsAnd, IndexOf, Occurs, Not;
      if f in cache {
        return cache[f];
      }
      if Not(f) in cache {
        FlipMeans(defs, Vars(), cache[Not(f)], f);
        return Flip(cache[Not(f)]);
      }
      r := Branch(f);
      ParentCached(old(cache), cache, f, r);
      cache := cache[f := r];
    }

    // The branching case: low and high diagrams, then three gates.
    method Branch(f: Bdd) returns (r: nat)
      requires Valid() && f.Node? && Supported(f, Vars()) && f !in cache
      modifies this`vi, this`gates, this`defs, this`cache
      ensures Valid() && old(defs) <= defs && r < vi
      ensures Means(defs, Vars(), r, f)
      ensures f !in cache && CacheGrows(old(cache), cache, f)
      ensures |defs| - |old(defs)| <= 3 * (|cache| - |old(cache)|) + 3
      decreases f, 0
    {
      hide Means, IsAnd, IndexOf, Occurs, Not, CacheGrows, IsGateFor, Supported, Flip, AigerGraph.Valid;
      ghost var c0 := cache;
      SupportedParts(f, Vars());
      var gate := BddVarToGate(f.v);
      GateInRange(Vars(), f.v, gate);
      var low, lowG := AndWith(f.low, Flip(gate));
      ghost var d1, c1 := defs, cache;
      var high, highG := AndWith(f.high, gate);
      ParentStaysOut(c0, c1, cache, f);
      ghost var d2 := defs;
      FlipInRange(lowG);
      FlipInRange(highG);
      var out := AddGate(Flip(lowG), Flip(highG));
      FlipInRange(out);
      BranchDone(d1, d2, defs, Vars(), f, gate, low, high, lowG, highG, out);
      r := Flip(out);
    }

    lemma FlipInRange(lit: nat)
      requires Valid() && lit < vi
      ensures Flip(lit) < vi
    {
    }

    // One branch, translated and conjoined with the literal that selects it.
    method AndWith(branch: Bdd, x: nat) returns (lit: nat, r: nat)
      requires Valid() && Supported(branch, Vars()) && x / 2 <= |Vars()|
      modifies this`vi, this`gates, this`defs, this`cache
      ensures Valid() && old(defs) <= defs && lit < vi && r < vi && old(vi) <= vi
      ensures Means(defs, Vars(), lit, branch) && IsAnd(defs, |inputs| + |latches|, r, lit, x)
      ensures CacheGrows(old(cache), cache, branch)
      ensures |defs| - |old(defs)| <= 3 * (|cache| - |old(cache)|) + 1
      decreases branch, 2
    {
      hide Means, GatesOk, IsAnd, IndexOf, CacheGrows, IsGateFor, Reuses, Supported;
      ghost var d0, c0 := defs, cache;
      lit := Bdd2Aig(branch);
      ReuseGrows(branch, d0, c0, defs, cache, lit);
      ghost var d1 := defs;
      r := AddGate(lit, x);
      MeansKept(d1, defs, Vars(), lit, branch);
    }

    method AddLatch(i: nat, func: Bdd)
      requires Valid() && Supported(func, Vars()) && i < |latchesId|
      modifies this
      ensures Valid() && old(defs) <= defs && outputs == old(outputs)
      ensures |latchesId| == old(|latchesId|) && Means(defs, Vars(), latchesId[i], func)
      ensures Reuses(func, old(defs), old(cache), defs, cache, latchesId[i])
      ensures forall j :: 0 <= j < |latchesId| && j != i ==> latchesId[j] == old(latchesId)[j]
    {
      var lit := Bdd2Aig(func);
      latchesId := latchesId[i := lit];
    }

    method AddOutput(i: nat, func: Bdd)
      requires Valid() && Supported(func, Vars()) && i < |outputs|
      modifies this
      ensures Valid() && old(defs) <= defs && latchesId == old(latchesId)
      ensures |outputs| == old(|outputs|) && Means(defs, Vars(), outputs[i], func)
      ensures Reuses(func, old(defs), old(cache), defs, cache, outputs[i])
      ensures forall j :: 0 <= j < |outputs| && j != i ==> outputs[j] == old(outputs)[j]
    {
      var lit := Bdd2Aig(func);
      outputs := outputs[i := lit];
    }
  }

  lemma GateAdded(n: nat, defs: Defs, gates: map<(nat, nat), nat>, k: (nat, nat))
    requires GatesOk(n, defs, gates) && k !in gates
    requires 2 <= k.0 < k.1 && k.1 / 2 <= n + |defs| && k.1 != Flip(k.0)
    ensures GatesOk(n, defs + [k], gates[k := 2 * (n + |defs| + 1)])
  {
    var defs', gates' := defs + [k], gates[k := 2 * (n + |defs| + 1)];
    forall j | 0 <= j < |defs'|
      ensures GateOk(n, defs', gates', j)
    {
      if j < |defs| {
        assert GateOk(n, defs, gates, j);
        assert defs'[j] == defs[j];
      }
    }
    forall p | p in gates'
      ensures p in defs'
    {
      if p == k {
        assert defs'[|defs|] == k;
      }
    }
  }

  lemma CacheKept(defs: Defs, defs': Defs, vars: seq<nat>, cache: map<Bdd, nat>)
    requires defs <= defs' && forall f :: f in cache ==> Means(defs, vars, cache[f], f)
    ensures forall f :: f in cache ==> Means(defs', vars, cache[f], f)
  {
    hide Means;
    forall f | f in cache
      ensures Means(defs', vars, cache[f], f)
    {
      MeansKept(defs, defs', vars, cache[f], f);
    }
  }

  // A cached complement is reused negated.
  lemma FlipMeans(defs: Defs, vars: seq<nat>, lit: nat, f: Bdd)
    requires Means(defs, vars, lit, Not(f))
    ensures Means(defs, vars, Flip(lit), f)
  {
    hide VarValue;
    forall env: Bits | |env| == |vars|
      ensures LitValue(defs, env, Flip(lit)) == Eval(f, vars, env)
    {
      EvalNot(f, vars, env);
    }
  }

  lemma GateInRange(vars: seq<nat>, v: nat, gate: nat)
    requires v in vars && gate == 2 * (1 + IndexOf(vars, v))
    ensures Flip(gate) == gate + 1 && gate + 1 < 2 * (1 + |vars|)
  {
    IndexOfFirst(vars, v);
  }

  lemma AndKept(defs: Defs, defs': Defs, n: nat, lit: nat, i1: nat, i2: nat)
    requires defs <= defs' && IsAnd(defs, n, lit, i1, i2) && i1 / 2 <= n + |defs| && i2 / 2 <= n + |defs|
    ensures IsAnd(defs', n, lit, i1, i2)
  {
    hide VarValue;
    forall env: Bits | |env| == n
      ensures LitValue(defs', env, lit) == (LitValue(defs', env, i1) && LitValue(defs', env, i2))
    {
      ValueKept(defs, defs', env, lit / 2);
      ValueKept(defs, defs', env, i1 / 2);
      ValueKept(defs, defs', env, i2 / 2);
    }
  }

  lemma BranchDone(d1: Defs, d2: Defs, d3: Defs, vars: seq<nat>, f: Bdd, gate: nat, low: nat, high: nat,
                   lowG: nat, highG: nat, out: nat)
    requires d1 <= d2 <= d3 && f.Node? && f.v in vars && gate == 2 * (1 + IndexOf(vars, f.v))
    requires Means(d1, vars, low, f.low) && IsAnd(d1, |vars|, lowG, low, Flip(gate))
    requires Means(d2, vars, high, f.high) && IsAnd(d2, |vars|, highG, high, gate)
    requires IsAnd(d3, |vars|, out, Flip(lowG), Flip(highG))
    ensures Means(d3, vars, Flip(out), f)
  {
    GateInRange(vars, f.v, gate);
    hide Means, IsAnd, IndexOf;
    BranchKept(d1, d2, d3, vars, f, gate, low, high, lowG, highG);
    BranchMeans(d3, vars, f, gate, low, high, lowG, highG, out);
  }

  // What the two branches established still holds at the end.
  lemma BranchKept(d1: Defs, d2: Defs, d3: Defs, vars: seq<nat>, f: Bdd,
                   gate: nat, low: nat, high: nat, lowG: nat, highG: nat)
    requires d1 <= d2 <= d3 && f.Node? && Flip(gate) / 2 <= |vars| && gate / 2 <= |vars|
    requires Means(d1, vars, low, f.low) && IsAnd(d1, |vars|, lowG, low, Flip(gate))
    requires Means(d2, vars, high, f.high) && IsAnd(d2, |vars|, highG, high, gate)
    ensures Means(d3, vars, low, f.low) && Means(d3, vars, high, f.high)
    ensures IsAnd(d3, |vars|, lowG, low, Flip(gate)) && IsAnd(d3, |vars|, highG, high, gate)
  {
    assert d1 <= d3;
    assert low / 2 <= |vars| + |d1| && high / 2 <= |vars| + |d2|;
    hide Means, IsAnd;
    MeansKept(d1, d3, vars, low, f.low);
    MeansKept(d2, d3, vars, high, f.high);
    AndKept(d1, d3, |vars|, lowG, low, Flip(gate));
    AndKept(d2, d3, |vars|, highG, high, gate);
  }

  lemma SupportedParts(f: Bdd, vars: seq<nat>)
    requires f.Node? && Supported(f, vars)
    ensures f.v in vars && Supported(f.low, vars) && Supported(f.high, vars)
  {
  }

  // --- The header -----------------------------------------------------------------------------------

  // No two gates share an input pair, and every gate only refers to earlier literals.
  lemma GatesAreDistinct(n: nat, defs: Defs, gates: map<(nat, nat), nat>)
    requires GatesOk(n, defs, gates)
    ensures forall j :: 0 <= j < |defs| ==> defs[j] in gates
    ensures forall j, k :: 0 <= j < k < |defs| ==> defs[j] != defs[k] && gates[defs[j]] != gates[defs[k]]
    ensures forall j :: 0 <= j < |defs| ==> defs[j].0 < gates[defs[j]] && defs[j].1 < gates[defs[j]]
  {
    forall j | 0 <= j < |defs|
      ensures defs[j] in gates && gates[defs[j]] == 2 * (n + j + 1) && defs[j].0 < defs[j].1 < gates[defs[j]]
    {
      assert GateOk(n, defs, gates, j);
    }
  }

  lemma {:induction false} CountKeys(defs: Defs, keys: set<(nat, nat)>)
    requires forall j, k :: 0 <= j < k < |defs| ==> defs[j] != defs[k]
    requires forall p :: p in keys <==> p in defs
    ensures |keys| == |defs|
  {
    if defs != [] {
      var init, last := defs[..|defs| - 1], defs[|defs| - 1];
      assert defs == init + [last] && last !in init;
      CountKeys(init, keys - {last});
    } else {
      assert keys == {};
    }
  }

  // M = I + L + A, as the ASCII format demands.
  lemma HeaderCount(aig: AigerGraph)
    requires aig.Valid()
    ensures (aig.vi - 2) / 2 == |aig.inputs| + |aig.latches| + |aig.gates|
  {
    hide Means;
    var n := |aig.inputs| + |aig.latches|;
    GatesAreDistinct(n, aig.defs, aig.gates);
    forall p | p in aig.defs
      ensures p in aig.gates.Keys
    {
      var j :| 0 <= j < |aig.defs| && aig.defs[j] == p;
      assert GateOk(n, aig.defs, aig.gates, j);
    }
    CountKeys(aig.defs, aig.gates.Keys);
  }
}
