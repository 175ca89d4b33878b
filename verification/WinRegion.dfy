/**
  The output bits that describe the successor vector of an unsafe move, and the reader that
  turns them back into the vector.  Each component has a sign bit followed by its value, most
  significant bit first.
*/
module WinRegion {
  import opened Vectors
  import opened TransitionEncoding

  // Bit j of v, what conjoining v with the mask 1 << j tests.
  function BitOf(v: nat, j: nat): bool {
    if j == 0 then v % 2 == 1 else BitOf(v / 2, j - 1)
  }

  // The first output of a component, at comp * vecBits.
  function Base(comp: nat, vecBits: nat): nat {
    if comp == 0 then 0 else Base(comp - 1, vecBits) + vecBits
  }

  lemma {:induction false} BaseIs(comp: nat, vecBits: nat)
    ensures Base(comp, vecBits) == comp * vecBits
  {
    if comp > 0 {
      BaseIs(comp - 1, vecBits);
      assert comp * vecBits == (comp - 1) * vecBits + vecBits;
    }
  }

  lemma {:induction false} BitOfIs(v: nat, j: nat)
    ensures BitOf(v, j) <==> v / Pow2(j) % 2 == 1
  {
    if j > 0 {
      BitOfIs(v / 2, j - 1);
      HalvedQuotient(v, Pow2(j - 1));
    }
  }

  lemma {:induction false} BaseFits(comp: nat, vecBits: nat, dim: nat)
    requires comp < dim
    ensures Base(comp, vecBits) + vecBits <= Base(dim, vecBits)
    decreases dim
  {
    if comp < dim - 1 {
      BaseFits(comp, vecBits, dim - 1);
    }
  }

  lemma {:induction false} Pow2Grows(j: nat, k: nat)
    requires j <= k
    ensures Pow2(j) <= Pow2(k)
    decreases k
  {
    if j < k {
      Pow2Grows(j, k - 1);
    }
  }

  lemma {:induction false} HighBitsZero(v: nat, k: nat, j: nat)
    requires v < Pow2(k) && k <= j
    ensures !BitOf(v, j)
    decreases j
  {
    if j > 0 {
      HighBitsZero(v / 2, if k == 0 then 0 else k - 1, j - 1);
    }
  }

  // What the bits of one component mean: the sign first, then bit j at position vecBits-1-j.
  predicate EncodesComponent(bits: seq<bool>, base: nat, vecBits: nat, v: int)
    requires 1 <= vecBits && base + vecBits <= |bits|
  {
    && (bits[base] <==> v == -1)
    && forall x :: base < x < base + vecBits ==> (bits[x] <==> 0 <= v && BitOf(v, base + vecBits - 1 - x))
  }

  // Where the assertion on the bit counter inside the mask loop holds at every round.
  predicate CounterStaysPositive(v: int, vecBits: nat) {
    v <= 0 || (2 <= vecBits && v < Pow2(vecBits - 2))
  }

  // The mask loop for one component.  `strict` tells whether the assertion on the bit counter
  // inside the loop would have held at every round.
  method EncodeComponent(flags: array<bool>, base: nat, vecBits: nat, v: int) returns (strict: bool)
    requires 1 <= vecBits && base + vecBits <= flags.Length && -1 <= v < Pow2(vecBits - 1)
    requires forall b :: base <= b < base + vecBits ==> !flags[b]
    modifies flags
    ensures EncodesComponent(flags[..], base, vecBits, v)
    ensures forall b :: 0 <= b < flags.Length && !(base <= b < base + vecBits) ==> flags[b] == old(flags[b])
    ensures strict <==> CounterStaysPositive(v, vecBits)
  {
    strict := true;
    if v == -1 {
      flags[base] := true;
    } else {
      var mask, k: nat := 1, 0;
      var cbit: nat := vecBits - 1;
      while mask <= v
        invariant mask == Pow2(k) && k + cbit == vecBits - 1
        invariant 0 < k ==> Pow2(k - 1) <= v
        invariant strict <==> k == 0 || 1 <= cbit
        invariant forall x :: base + cbit < x < base + vecBits ==> (flags[x] <==> BitOf(v, base + vecBits - 1 - x))
        invariant forall b :: base <= b <= base + cbit ==> !flags[b]
        invariant forall b :: 0 <= b < flags.Length && !(base <= b < base + vecBits) ==> flags[b] == old(flags[b])
        decreases v - mask
      {
        if BitOf(v, k) {
          flags[base + cbit] := true;
        }
        mask := 2 * mask;
        k := k + 1;
        cbit := cbit - 1;
        strict := strict && 1 <= cbit;
      }
      forall x | base < x <= base + cbit
        ensures flags[x] <==> BitOf(v, base + vecBits - 1 - x)
      {
        HighBitsZero(v, k, base + vecBits - 1 - x);
      }
      StrictExact(v, k, cbit, vecBits);
    }
  }

  lemma StrictExact(v: nat, k: nat, cbit: nat, vecBits: nat)
    requires 1 <= vecBits && k + cbit == vecBits - 1 && v < Pow2(k) && (0 < k ==> Pow2(k - 1) <= v)
    ensures (k == 0 || 1 <= cbit) <==> CounterStaysPositive(v, vecBits)
  {
    if 0 < k && 1 <= cbit {
      Pow2Grows(k, vecBits - 2);
    }
    if 0 < k && cbit == 0 {
      assert Pow2(0) == 1;
      Pow2Grows(0, k - 1);
    }
  }

  // Every component of the successor vector is written at its own place.
  predicate EncodesVector(bits: seq<bool>, vecBits: nat, v: Vec, m: nat)
    requires 1 <= vecBits && m <= |v| && |bits| == Base(|v|, vecBits)
  {
    forall comp :: 0 <= comp < m ==>
                     Base(comp, vecBits) + vecBits <= |bits| &&
                         EncodesComponent(bits, Base(comp, vecBits), vecBits, v[comp])
  }

  method EncodeSuccessor(v: Vec, vecBits: nat) returns (bits: seq<bool>)
    requires 1 <= vecBits && forall i :: 0 <= i < |v| ==> -1 <= v[i] < Pow2(vecBits - 1)
    ensures |bits| == Base(|v|, vecBits) && EncodesVector(bits, vecBits, v, |v|)
  {
    var flags := new bool[Base(|v|, vecBits)](_ => false);
    for comp := 0 to |v|
      invariant Base(comp, vecBits) <= flags.Length
      invariant EncodesVector(flags[..], vecBits, v, comp)
      invariant forall b :: Base(comp, vecBits) <= b < flags.Length ==> !flags[b]
    {
      BaseFits(comp, vecBits, |v|);
      hide Base;
      ghost var before := flags[..];
      var _ := EncodeComponent(flags, Base(comp, vecBits), vecBits, v[comp]);
      EarlierKept(before, flags[..], vecBits, v, comp);
    }
    bits := flags[..];
  }

  lemma EarlierKept(bits: seq<bool>, bits': seq<bool>, vecBits: nat, v: Vec, m: nat)
    requires 1 <= vecBits && m < |v| && |bits| == |bits'| == Base(|v|, vecBits) && EncodesVector(bits, vecBits, v, m)
    requires Base(m, vecBits) + vecBits <= |bits'| && EncodesComponent(bits', Base(m, vecBits), vecBits, v[m])
    requires forall b :: 0 <= b < Base(m, vecBits) ==> bits'[b] == bits[b]
    ensures EncodesVector(bits', vecBits, v, m + 1)
  {
    forall comp | 0 <= comp < m
      ensures Base(comp, vecBits) + vecBits <= |bits'| && EncodesComponent(bits', Base(comp, vecBits), vecBits, v[comp])
    {
      BaseFits(comp, vecBits, m);
      hide Base;
      assert EncodesComponent(bits, Base(comp, vecBits), vecBits, v[comp]);
    }
  }

  // --- Reading ------------------------------------------------------------------------------------

  // The value carried by bits 0..m-1 of v.
  function LowBits(v: nat, m: nat): nat {
    if m == 0 then 0 else LowBits(v, m - 1) + (if BitOf(v, m - 1) then Pow2(m - 1) else 0)
  }

  lemma {:induction false} LowBitsHalved(v: nat, m: nat)
    requires 0 < m
    ensures LowBits(v, m) == v % 2 + 2 * LowBits(v / 2, m - 1)
  {
    if m > 1 {
      LowBitsHalved(v, m - 1);
    } else {
      assert LowBits(v, 1) == LowBits(v, 0) + (if BitOf(v, 0) then Pow2(0) else 0);
    }
  }

  lemma {:induction false} LowBitsAreAll(v: nat, m: nat)
    requires v < Pow2(m)
    ensures LowBits(v, m) == v
  {
    if m > 0 {
      LowBitsHalved(v, m);
      LowBitsAreAll(v / 2, m - 1);
    }
  }

  // One component, as the reader adds it up.
  method InterpComponent(outputs: seq<bool>, base: nat, kbits: nat, ghost v: int) returns (value: int)
    requires 1 <= kbits && base + kbits <= |outputs| && -1 <= v < Pow2(kbits - 1)
    requires EncodesComponent(outputs, base, kbits, v)
    ensures value == v
  {
    value := 0;
    if outputs[base] {
      value := -1;
      // Nothing else may be set: the reader asserts it.
      assert forall x :: base < x < base + kbits ==> !outputs[x];
    }
    ghost var n := if v < 0 then 0 else v;
    LowBitsAreAll(n, kbits - 1);
    hide BitOf, Pow2;
    for b := 1 to kbits
      invariant v < 0 ==> value == -1
      invariant 0 <= v ==> value + LowBits(n, kbits - b) == v
    {
      var j := kbits - (b + 1);
      assert outputs[base + b] <==> 0 <= v && BitOf(v, j);
      if outputs[base + b] {
        value := value + Pow2(j);
      }
    }
  }

  method InterpOutput(safe: bool, outputs: seq<bool>, dim: nat, kbits: nat, ghost v: Vec)
    returns (isSafe: bool, vec: Vec)
    requires 1 <= kbits && |v| == dim && |outputs| == Base(dim, kbits)
    requires !safe ==> EncodesVector(outputs, kbits, v, dim) && forall i :: 0 <= i < dim ==>
        -1 <= v[i] < Pow2(kbits - 1)
    ensures isSafe == safe
    ensures safe ==> vec == Fill(dim, 0)
    ensures !safe ==> vec == v
  {
    vec := Fill(dim, 0);
    if safe {
      return true, vec;
    }
    for i := 0 to dim
      invariant |vec| == dim && forall k :: 0 <= k < i ==> vec[k] == v[k]
    {
      BaseFits(i, kbits, dim);
      assert EncodesComponent(outputs, Base(i, kbits), kbits, v[i]);
      hide Base, EncodesComponent;
      var value := InterpComponent(outputs, Base(i, kbits), kbits, v[i]);
      vec := vec[i := value];
    }
    isSafe := false;
  }

  // Writing the successor of an unsafe move and reading it back returns the same vector.
  method RoundTrip(v: Vec, vecBits: nat) returns (vec: Vec)
    requires 1 <= vecBits && forall i :: 0 <= i < |v| ==> -1 <= v[i] < Pow2(vecBits - 1)
    ensures vec == v
  {
    hide Base, EncodesVector;
    var bits := EncodeSuccessor(v, vecBits);
    var safe;
    safe, vec := InterpOutput(false, bits, |v|, vecBits, v);
  }

  // The number of bits chosen for a final bound K fits every value below K, and K itself unless
  // it is a power of two.
  lemma VecBitsFit(K: nat)
    requires 1 <= K
    ensures K <= Pow2(MappingBits(K))
    ensures (exists b: nat :: K == Pow2(b)) <==> K == Pow2(MappingBits(K))
  {
    MappingBitsFit(K);
    if exists b: nat :: K == Pow2(b) {
      var b: nat :| K == Pow2(b);
      if b < MappingBits(K) {
        Pow2Grows(b, MappingBits(K) - 1);
      } else {
        Pow2Grows(MappingBits(K), b);
      }
    }
  }

  // With the number of bits chosen for K >= 2 the assertion always fails on some vector: on the largest
  // element K - 1 of a region, on K, and on exactly the values of the upper half of the range.
  lemma LargestValueTripsAssertion(K: nat, v: nat)
    requires 2 <= K && v < Pow2(MappingBits(K))
    ensures CounterStaysPositive(v, MappingBits(K) + 1) <==> v < Pow2(MappingBits(K) - 1)
    ensures v == K - 1 || v == K ==> !CounterStaysPositive(v, MappingBits(K) + 1)
    ensures K - 1 < Pow2(MappingBits(K))
  {
    MappingBitsFit(K);
  }
}
