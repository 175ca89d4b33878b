/**
  The finished and-inverter graph simulated as a sequential circuit: it follows the extracted
  functions, hence the strategy table, hence no run of the automaton reaches K.
*/
module AigerController {
  import opened Automata
  import opened Runs
  import opened Controller
  import opened Extraction
  import opened TransitionEncoding
  import opened Aiger

  // Builds outputs and latches one after the other, as `synthesis` does.
  method BuildGraph(inputs: seq<nat>, latches: seq<nat>, gs: seq<Bdd>, fs: seq<Bdd>) returns (aig: AigerGraph)
    requires |fs| == |latches|
    requires forall j :: 0 <= j < |gs| ==> Supported(gs[j], inputs + latches)
    requires forall j :: 0 <= j < |fs| ==> Supported(fs[j], inputs + latches)
    ensures aig.Valid() && aig.inputs == inputs && aig.latches == latches
    ensures |aig.outputs| == |gs| && forall j :: 0 <= j < |gs| ==> Means(aig.defs, aig.Vars(), aig.outputs[j], gs[j])
    ensures |aig.latchesId| == |fs| && forall j :: 0 <= j < |fs| ==>
        Means(aig.defs, aig.Vars(), aig.latchesId[j], fs[j])
  {
    hide Means, GatesOk;
    aig := new AigerGraph(inputs, latches, |gs|);
    for i := 0 to |gs|
      invariant fresh(aig) && aig.Valid() && |aig.outputs| == |gs| && |aig.latchesId| == |latches|
      invariant forall j :: 0 <= j < i ==> Means(aig.defs, aig.Vars(), aig.outputs[j], gs[j])
    {
      ghost var defs, outputs := aig.defs, aig.outputs;
      aig.AddOutput(i, gs[i]);
      AllKept(defs, aig.defs, aig.Vars(), outputs, gs, i);
    }
    for i := 0 to |fs|
      invariant fresh(aig) && aig.Valid() && |aig.outputs| == |gs| && |aig.latchesId| == |latches|
      invariant forall j :: 0 <= j < |gs| ==> Means(aig.defs, aig.Vars(), aig.outputs[j], gs[j])
      invariant forall j :: 0 <= j < i ==> Means(aig.defs, aig.Vars(), aig.latchesId[j], fs[j])
    {
      ghost var defs, outputs, ids := aig.defs, aig.outputs, aig.latchesId;
      aig.AddLatch(i, fs[i]);
      AllKept(defs, aig.defs, aig.Vars(), outputs, gs, |gs|);
      AllKept(defs, aig.defs, aig.Vars(), ids, fs, i);
    }
  }

  lemma AllKept(defs: Defs, defs': Defs, vars: seq<nat>, lits: seq<nat>, fs: seq<Bdd>, m: nat)
    requires defs <= defs' && m <= |fs| && m <= |lits|
    requires forall j :: 0 <= j < m ==> Means(defs, vars, lits[j], fs[j])
    ensures forall j :: 0 <= j < m ==> Means(defs', vars, lits[j], fs[j])
  {
    hide Means;
    forall j | 0 <= j < m
      ensures Means(defs', vars, lits[j], fs[j])
    {
      MeansKept(defs, defs', vars, lits[j], fs[j]);
    }
  }

  // --- Simulation ---------------------------------------------------------------------------------

  datatype Net = Net(defs: Defs, nLatches: nat, outputs: seq<nat>, latches: seq<nat>) {
    ghost function Values(lits: seq<nat>, env: Bits): Bits {
      seq(|lits|, j requires 0 <= j < |lits| => LitValue(defs, env, lits[j]))
    }

    // Latches start at zero; inputs come before latches in the assignment.
    ghost function StateBits(h: seq<Bits>): Bits {
      if h == [] then seq(nLatches, _ => false) else Values(latches, h[|h| - 1] + StateBits(h[..|h| - 1]))
    }

    ghost function Strat(): Strategy {
      (h: seq<Bits>) => if h == [] then [] else Values(outputs, h[|h| - 1] + StateBits(h[..|h| - 1]))
    }
  }

  // The diagram denotes the function, input bits first.
  ghost predicate Represents(f: Bdd, vars: seq<nat>, G: set<Valuation>, ni: nat, nl: nat) {
    forall i: Bits, s: Bits :: |i| == ni && |s| == nl ==> Eval(f, vars, i + s) == ((s, i) in G)
  }

  // The literals denote the functions.
  ghost predicate Realizes(defs: Defs, vars: seq<nat>, lits: seq<nat>, fs: seq<Bdd>, Gs: seq<set<Valuation>>, ni: nat,
                           nl: nat) {
    && |lits| == |fs| == |Gs| && |vars| == ni + nl
    && forall j :: 0 <= j < |lits| ==> Means(defs, vars, lits[j], fs[j]) && Represents(fs[j], vars, Gs[j], ni, nl)
  }

  lemma ValuesRealize(net: Net, vars: seq<nat>, lits: seq<nat>, fs: seq<Bdd>, Gs: seq<set<Valuation>>, ni: nat, nl: nat,
                      i: Bits, s: Bits)
    requires Realizes(net.defs, vars, lits, fs, Gs, ni, nl) && |i| == ni && |s| == nl
    ensures net.Values(lits, i + s) == ValueAt(Gs, (s, i))
  {
    hide LitValue, Eval;
    forall j | 0 <= j < |lits|
      ensures LitValue(net.defs, i + s, lits[j]) == ((s, i) in Gs[j])
    {
      assert Means(net.defs, vars, lits[j], fs[j]) && Represents(fs[j], vars, Gs[j], ni, nl);
    }
  }

  lemma ValueAtLength(Gs: seq<set<Valuation>>, x: Valuation)
    ensures |ValueAt(Gs, x)| == |Gs|
  {
  }

  lemma {:induction false} NetFollowsCircuit(net: Net, c: Circuit, vars: seq<nat>, gs: seq<Bdd>, fs: seq<Bdd>,
                                             ins: set<Bits>, ni: nat, h: seq<Bits>)
    requires Realizes(net.defs, vars, net.outputs, gs, c.outputs, ni, c.bits)
    requires Realizes(net.defs, vars, net.latches, fs, c.latches, ni, c.bits)
    requires net.nLatches == c.bits == |c.latches| && (forall i :: i in ins ==> |i| == ni) && AllIn(h, ins)
    ensures net.StateBits(h) == c.StateBits(h) && |net.StateBits(h)| == c.bits
    ensures net.Strat()(h) == c.Strat()(h)
  {
    hide Realizes, ValueAt;
    if h == [] {
      EncodeZero(c.bits);
    } else {
      var prev, i := h[..|h| - 1], h[|h| - 1];
      NetFollowsCircuit(net, c, vars, gs, fs, ins, ni, prev);
      hide Encode, Net.Values;
      ValuesRealize(net, vars, net.outputs, gs, c.outputs, ni, c.bits, i, net.StateBits(prev));
      ValuesRealize(net, vars, net.latches, fs, c.latches, ni, c.bits, i, net.StateBits(prev));
      ValueAtLength(c.latches, (c.StateBits(prev), i));
    }
  }

  // The circuit written out keeps every run below K, for every input sequence.
  lemma NetIsSafe(s: Synthesized, c: Circuit, net: Net, vars: seq<nat>, gs: seq<Bdd>, fs: seq<Bdd>, ni: nat)
    requires s.Valid() && |s.states| <= Pow2(c.bits) && c.Refines(TableEncoding(s.transitions, c.bits))
    requires Realizes(net.defs, vars, net.outputs, gs, c.outputs, ni, c.bits)
    requires Realizes(net.defs, vars, net.latches, fs, c.latches, ni, c.bits)
    requires net.nLatches == c.bits == |c.latches| && forall i :: i in s.ins ==> |i| == ni
    ensures Legal(net.Strat(), s.ins, s.outs, s.inv) && Bounds(net.Strat(), s.aut, s.ins, s.K)
  {
    CircuitIsSafe(s, c);
    hide Synthesized.Valid, Circuit.Refines, Circuit.Strat, Net.Strat, Realizes, Legal, Bounds, TableEncoding;
    forall h | AllIn(h, s.ins) && h != []
      ensures net.Strat()(h) == c.Strat()(h)
    {
      NetFollowsCircuit(net, c, vars, gs, fs, s.ins, ni, h);
    }
    AgreeingStrategies(net.Strat(), c.Strat(), s.aut, s.ins, s.outs, s.inv, s.K);
  }
}
