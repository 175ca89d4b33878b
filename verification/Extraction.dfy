/**
  One-by-one extraction of functions from a relation: each output in turn becomes a function of
  the remaining variables, and the relation is narrowed to it before the next one is chosen.
*/
module Extraction {
  import opened Automata

  // Pairs of a valuation x of the fixed variables and a valuation of the variables to extract.
  type Relation<X(==)> = set<(X, Bits)>

  ghost function Domain<X>(R: Relation<X>): set<X> {
    set p | p in R :: p.0
  }

  // What a list of functions, each given by the valuations where it is true, yields at x.
  function ValueAt<X(==)>(fs: seq<set<X>>, x: X): Bits {
    seq(|fs|, i requires 0 <= i < |fs| => x in fs[i])
  }

  ghost predicate HasWidth<X>(R: Relation<X>, U: set<X>, k: nat) {
    forall p :: p in R ==> p.0 in U && |p.1| == k
  }

  // The first bits are already those of the functions chosen so far.
  ghost predicate Agrees<X>(R: Relation<X>, fs: seq<set<X>>, k: nat)
    requires |fs| <= k
  {
    forall p, j :: p in R && 0 <= j < |fs| && |p.1| == k ==> (p.1[j] <==> p.0 in fs[j])
  }

  // Valuations that allow bit i to be `b`.
  function Allowing<X(==)>(R: Relation<X>, i: nat, b: bool): set<X> {
    set p | p in R && i < |p.1| && p.1[i] == b :: p.0
  }

  function Restrict<X(==)>(R: Relation<X>, i: nat, g: set<X>): Relation<X> {
    set p | p in R && i < |p.1| && (p.1[i] <==> p.0 in g)
  }

  // "Can be true" and "cannot be false" are both right choices: neither loses a valuation.
  lemma ChoiceKeepsDomain<X>(U: set<X>, R: Relation<X>, k: nat, i: nat, g: set<X>)
    requires HasWidth(R, U, k) && i < k
    requires g == Allowing(R, i, true) || g == U - Allowing(R, i, false)
    ensures Domain(Restrict(R, i, g)) == Domain(R)
  {
    forall x | x in Domain(R)
      ensures x in Domain(Restrict(R, i, g))
    {
      var p :| p in R && p.0 == x;
      assert x in Allowing(R, i, p.1[i]);
      assert x in Allowing(R, i, x in g);
      var q :| q in R && i < |q.1| && q.1[i] == (x in g) && q.0 == x;
      assert q in Restrict(R, i, g);
    }
  }

  // The graph of the functions over a domain.
  ghost function Graph<X>(D: set<X>, fs: seq<set<X>>): Relation<X> {
    set x | x in D :: (x, ValueAt(fs, x))
  }

  lemma AgreesIsGraph<X>(U: set<X>, R: Relation<X>, fs: seq<set<X>>)
    requires HasWidth(R, U, |fs|) && Agrees(R, fs, |fs|)
    ensures R == Graph(Domain(R), fs)
  {
    forall p | p in R
      ensures p == (p.0, ValueAt(fs, p.0))
    {
      assert |p.1| == |fs| && forall j :: 0 <= j < |fs| ==> p.1[j] == ValueAt(fs, p.0)[j];
      assert p.1 == ValueAt(fs, p.0);
    }
    hide ValueAt;
    forall p | p in Graph(Domain(R), fs)
      ensures p in R
    {
      var x :| x in Domain(R) && p == (x, ValueAt(fs, x));
      var q :| q in R && q.0 == x;
      assert q == p;
    }
    forall p | p in R
      ensures p in Graph(Domain(R), fs)
    {
      assert p.0 in Domain(R) && p == (p.0, ValueAt(fs, p.0));
    }
  }

  // With the functions before it, bit i can have value b at x.
  ghost predicate Possible<X>(R0: Relation<X>, fs: seq<set<X>>, i: nat, x: X, b: bool)
    requires i <= |fs|
  {
    exists p :: p in R0 && p.0 == x && i < |p.1| && p.1[i] == b && FirstBits(p, fs[..i])
  }

  ghost predicate FirstBits<X>(p: (X, Bits), fs: seq<set<X>>) {
    |fs| <= |p.1| && forall j :: 0 <= j < |fs| ==> (p.1[j] <==> p.0 in fs[j])
  }

  // Function i holds where its bit can be true, or everywhere but where it can be false.
  ghost predicate IsCandidate<X(!new)>(U: set<X>, R0: Relation<X>, fs: seq<set<X>>, i: nat)
    requires i < |fs|
  {
    || (forall x :: x in fs[i] <==> Possible(R0, fs, i, x, true))
    || (forall x :: x in fs[i] <==> x in U && !Possible(R0, fs, i, x, false))
  }

  ghost predicate AllCandidates<X(!new)>(U: set<X>, R0: Relation<X>, fs: seq<set<X>>) {
    forall i :: 0 <= i < |fs| ==> IsCandidate(U, R0, fs, i)
  }

  // The relation has been narrowed to the functions so far.
  ghost predicate IsNarrowed<X(!new)>(R: Relation<X>, R0: Relation<X>, fs: seq<set<X>>) {
    forall p :: p in R <==> p in R0 && FirstBits(p, fs)
  }

  lemma NarrowedNext<X(!new)>(U: set<X>, R: Relation<X>, R0: Relation<X>, fs: seq<set<X>>, g: set<X>, k: nat)
    requires IsNarrowed(R, R0, fs) && AllCandidates(U, R0, fs) && HasWidth(R0, U, k) && |fs| < k
    requires g == Allowing(R, |fs|, true) || g == U - Allowing(R, |fs|, false)
    ensures IsNarrowed(Restrict(R, |fs|, g), R0, fs + [g]) && AllCandidates(U, R0, fs + [g])
  {
    var fs', n := fs + [g], |fs|;
    forall p
      ensures p in Restrict(R, n, g) <==> p in R0 && FirstBits(p, fs')
    {
      BitsNext(p, fs, g);
    }
    assert fs'[..n] == fs;
    assert IsCandidate(U, R0, fs', n) by {
      forall x, b
        ensures x in Allowing(R, n, b) <==> Possible(R0, fs', n, x, b)
      {
        hide FirstBits;
        if x in Allowing(R, n, b) {
          var p :| p in R && n < |p.1| && p.1[n] == b && p.0 == x;
          assert p in R0 && FirstBits(p, fs'[..n]);
        }
      }
      hide Possible, Allowing;
    }
    forall i | 0 <= i < n
      ensures IsCandidate(U, R0, fs', i)
    {
      assert IsCandidate(U, R0, fs, i);
      assert fs'[..i] == fs[..i];
      hide FirstBits;
    }
  }

  lemma BitsNext<X>(p: (X, Bits), fs: seq<set<X>>, g: set<X>)
    ensures FirstBits(p, fs + [g]) <==> FirstBits(p, fs) && |fs| < |p.1| && (p.1[|fs|] <==> p.0 in g)
  {
    var fs' := fs + [g];
    if FirstBits(p, fs') {
      assert forall j :: 0 <= j < |fs| ==> fs'[j] == fs[j];
    }
  }

  // Whichever of the two candidates is taken each time, the result is a total choice of functions
  // inside the relation: same domain, refined to a graph.
  method ExtractFunctions<X(==,!new)>(U: set<X>, R0: Relation<X>, k: nat) returns (fs: seq<set<X>>, R: Relation<X>)
    requires HasWidth(R0, U, k)
    ensures |fs| == k
    ensures R <= R0 && R == Graph(Domain(R0), fs)
    ensures AllCandidates(U, R0, fs)
  {
    fs, R := [], R0;
    hide ValueAt, IsCandidate, Possible;
    while |fs| < k
      invariant |fs| <= k && R <= R0
      invariant HasWidth(R, U, k) && Agrees(R, fs, k)
      invariant Domain(R) == Domain(R0)
      invariant IsNarrowed(R, R0, fs) && AllCandidates(U, R0, fs)
      decreases k - |fs|
    {
      var i := |fs|;
      var pos := Allowing(R, i, true);
      var neg := U - Allowing(R, i, false);
      // The source takes the one with the smaller diagram.
      var takePos: bool := *;
      var g := if takePos then pos else neg;
      ChoiceKeepsDomain(U, R, k, i, g);
      NarrowedNext(U, R, R0, fs, g, k);
      hide IsNarrowed, AllCandidates, HasWidth, Agrees, Domain, Allowing;
      fs, R := fs + [g], Restrict(R, i, g);
    }
    hide IsNarrowed;
    AgreesIsGraph(U, R, fs);
  }

  // --- Outputs, then latches ------------------------------------------------------------------

  // Triples of (state, input), output and next state.
  type Encoding<X(==)> = set<(X, Bits, Bits)>

  function WithoutNext<X(==)>(E: Encoding<X>): Relation<X> {
    set e | e in E :: (e.0, e.1)
  }

  function WithoutOutputs<X(==)>(E: Encoding<X>): Relation<X> {
    set e | e in E :: (e.0, e.2)
  }

  // The next states that remain once the outputs are functions.
  ghost function NextGiven<X>(E: Encoding<X>, gs: seq<set<X>>): Relation<X> {
    set e | e in E && e.1 == ValueAt(gs, e.0) :: (e.0, e.2)
  }

  ghost function Sources<X>(E: Encoding<X>): set<X> {
    set e | e in E :: e.0
  }

  ghost predicate Encodes<X>(E: Encoding<X>, U: set<X>, no: nat, nb: nat) {
    forall e :: e in E ==> e.0 in U && |e.1| == no && |e.2| == nb
  }

  // The outputs and the latches become functions that satisfy the encoding jointly.
  method FixOutputsAndLatches<X(==,!new)>(U: set<X>, E: Encoding<X>, no: nat, nb: nat)
    returns (gs: seq<set<X>>, fs: seq<set<X>>)
    requires Encodes(E, U, no, nb)
    ensures |gs| == no && |fs| == nb
    ensures forall x :: x in Sources(E) ==> (x, ValueAt(gs, x), ValueAt(fs, x)) in E
    ensures AllCandidates(U, WithoutNext(E), gs) && AllCandidates(U, NextGiven(E, gs), fs)
  {
    hide ValueAt, AllCandidates;
    var wosucc := WithoutNext(E);
    assert HasWidth(wosucc, U, no);
    var w;
    gs, w := ExtractFunctions(U, wosucc, no);
    var E1 := set e | e in E && (e.0, e.1) in w;
    var outless := WithoutOutputs(E1);
    assert outless == NextGiven(E, gs);
    assert HasWidth(outless, U, nb);
    var l;
    fs, l := ExtractFunctions(U, outless, nb);
    forall x | x in Sources(E)
      ensures (x, ValueAt(gs, x), ValueAt(fs, x)) in E
    {
    }
  }
}
