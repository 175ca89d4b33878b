/**
  The K-bounded safety game on counter vectors: the forward and backward transformers of one
  action, the sets of vectors from which the controller can stay inside a region for ever,
  and what raising K does to them.
*/
module Game {
  import opened Vectors

  // An incoming transition of some state p: its source, and whether p is accepting.
  datatype Pred = Pred(src: nat, acc: bool)

  // Indexed by destination state, as the action vectors of the actioner.
  type ActionVec = seq<seq<Pred>>

  // One set of alternatives (the outputs) per class of inputs.
  type Arena = set<set<ActionVec>>

  function Bump(acc: bool): int {
    if acc then 1 else 0
  }

  // --- Forward ---------------------------------------------------------------------------

  function FwdAt(f: Vec, ps: seq<Pred>, K: int): int {
    if ps == [] then -1
    else
      var r := FwdAt(f, ps[..|ps| - 1], K);
      var e := ps[|ps| - 1];
      if At(f, e.src) == -1 then r else Max(r, Min(K, At(f, e.src) + Bump(e.acc)))
  }

  function Forward(f: Vec, a: ActionVec, K: int): Vec {
    seq(|a|, p requires 0 <= p < |a| => FwdAt(f, a[p], K))
  }

  predicate Active(f: Vec, e: Pred) {
    At(f, e.src) != -1
  }

  // What an active predecessor contributes.
  function Pushed(f: Vec, e: Pred, K: int): int {
    Min(K, At(f, e.src) + Bump(e.acc))
  }

  predicate Floor(f: Vec) {
    forall i :: 0 <= i < |f| ==> -1 <= f[i]
  }

  // FwdAt is the maximum contribution of the active predecessors, -1 when there is none.
  lemma {:induction false} FwdAtIsMax(f: Vec, ps: seq<Pred>, K: int)
    requires Floor(f) && 0 <= K
    ensures -1 <= FwdAt(f, ps, K) <= K
    ensures forall e :: e in ps && Active(f, e) ==> Pushed(f, e, K) <= FwdAt(f, ps, K)
    ensures FwdAt(f, ps, K) != -1 ==> exists e :: e in ps && Active(f, e) && FwdAt(f, ps, K) == Pushed(f, e, K)
  {
    if ps != [] {
      var init, last := ps[..|ps| - 1], ps[|ps| - 1];
      FwdAtIsMax(f, init, K);
      assert ps == init + [last];
      if FwdAt(f, ps, K) != -1 {
        if Active(f, last) && FwdAt(f, ps, K) == Pushed(f, last, K) {
        } else {
          var e :| e in init && Active(f, e) && FwdAt(f, init, K) == Pushed(f, e, K);
          assert e in ps && FwdAt(f, ps, K) == Pushed(f, e, K);
        }
      }
    }
  }

  lemma ForwardFloor(f: Vec, a: ActionVec, K: int)
    requires Floor(f) && 0 <= K
    ensures Floor(Forward(f, a, K)) && |Forward(f, a, K)| == |a|
  {
    forall p | 0 <= p < |a|
      ensures -1 <= Forward(f, a, K)[p]
    {
      FwdAtIsMax(f, a[p], K);
    }
  }

  lemma FwdAtMonotone(f: Vec, g: Vec, ps: seq<Pred>, K: int)
    requires Floor(f) && Leq(f, g) && 0 <= K
    ensures FwdAt(f, ps, K) <= FwdAt(g, ps, K)
  {
    assert Floor(g) by {
      assert forall i :: 0 <= i < |g| ==> f[i] <= g[i];
    }
    FwdAtIsMax(f, ps, K);
    FwdAtIsMax(g, ps, K);
    if FwdAt(f, ps, K) != -1 {
      var e :| e in ps && Active(f, e) && FwdAt(f, ps, K) == Pushed(f, e, K);
      assert At(f, e.src) <= At(g, e.src);
      assert Active(g, e);
    }
  }

  lemma ForwardMonotone(f: Vec, g: Vec, a: ActionVec, K: int)
    requires Floor(f) && Leq(f, g) && 0 <= K
    ensures Leq(Forward(f, a, K), Forward(g, a, K))
  {
    forall p | 0 <= p < |a|
      ensures Forward(f, a, K)[p] <= Forward(g, a, K)[p]
    {
      FwdAtMonotone(f, g, a[p], K);
    }
  }

  // --- Backward --------------------------------------------------------------------------

  // The value a source must not exceed because of an edge into a state bounded by `mp`.
  function Allowed(mp: int, acc: bool): int {
    Max(-1, mp - Bump(acc))
  }

  function BackVia(ps: seq<Pred>, q: nat, mp: int, start: int): int {
    if ps == [] then start
    else
      var r := BackVia(ps[..|ps| - 1], q, mp, start);
      var e := ps[|ps| - 1];
      if e.src == q then Min(r, Allowed(mp, e.acc)) else r
  }

  function BackAt(m: Vec, a: ActionVec, q: nat, start: int): int {
    if a == [] then start
    else BackVia(a[|a| - 1], q, At(m, |a| - 1), BackAt(m, a[..|a| - 1], q, start))
  }

  function Backward(m: Vec, a: ActionVec, t: nat, K: int): Vec {
    seq(|m|, q requires 0 <= q < |m| => BackAt(m, a, q, Top(q, t, K)))
  }

  lemma {:induction false} BackViaIsMin(ps: seq<Pred>, q: nat, mp: int, start: int, x: int)
    ensures x <= BackVia(ps, q, mp, start) <==>
            x <= start && forall e :: e in ps && e.src == q ==> x <= Allowed(mp, e.acc)
  {
    if ps != [] {
      var init, last := ps[..|ps| - 1], ps[|ps| - 1];
      BackViaIsMin(init, q, mp, start, x);
      assert ps == init + [last];
    }
  }

  // x is below the backward image at q iff it is below the reset value and every edge out of q allows it.
  lemma {:induction false} BackAtIsMin(m: Vec, a: ActionVec, q: nat, start: int, x: int)
    ensures x <= BackAt(m, a, q, start) <==>
            x <= start && forall p, e :: 0 <= p < |a| && e in a[p] && e.src == q ==> x <= Allowed(At(m, p), e.acc)
  {
    if a != [] {
      var n := |a| - 1;
      BackAtIsMin(m, a[..n], q, start, x);
      BackViaIsMin(a[n], q, At(m, n), BackAt(m, a[..n], q, start), x);
      assert forall p :: 0 <= p < n ==> a[..n][p] == a[p];
      if x <= BackAt(m, a, q, start) {
        forall p, e | 0 <= p < |a| && e in a[p] && e.src == q
          ensures x <= Allowed(At(m, p), e.acc)
        {
          if p < n {
            assert e in a[..n][p];
          }
        }
      }
    }
  }

  predicate FitsVec(a: ActionVec, n: nat) {
    |a| == n && forall p, j :: 0 <= p < n && 0 <= j < |a[p]| ==> a[p][j].src < n
  }

  lemma BackwardInBox(m: Vec, a: ActionVec, n: nat, t: nat, K: int)
    requires InBox(m, n, t, K) && 1 <= K
    ensures InBox(Backward(m, a, t, K), n, t, K)
  {
    forall q | 0 <= q < n
      ensures -1 <= Backward(m, a, t, K)[q] <= Top(q, t, K)
    {
      BackAtIsMin(m, a, q, Top(q, t, K), -1);
      BackAtIsMin(m, a, q, Top(q, t, K), BackAt(m, a, q, Top(q, t, K)));
    }
  }

  // If the forward image stays below m, every edge out of q allows f[q].
  lemma BelowBackwardAt(f: Vec, m: Vec, a: ActionVec, n: nat, t: nat, K: int, q: nat)
    requires FitsVec(a, n) && InBox(f, n, t, K) && InBox(m, n, t, K) && 1 <= K && q < n
    requires forall p :: 0 <= p < n ==> FwdAt(f, a[p], K) <= m[p]
    ensures f[q] <= BackAt(m, a, q, Top(q, t, K))
  {
    forall p, e | 0 <= p < |a| && e in a[p] && e.src == q
      ensures f[q] <= Allowed(At(m, p), e.acc)
    {
      FwdAtIsMax(f, a[p], K);
    }
    BackAtIsMin(m, a, q, Top(q, t, K), f[q]);
  }

  // If every source stays below the backward image, so does what it pushes.
  lemma BelowForwardAt(f: Vec, m: Vec, a: ActionVec, n: nat, t: nat, K: int, p: nat)
    requires FitsVec(a, n) && InBox(f, n, t, K) && InBox(m, n, t, K) && 1 <= K && p < n
    requires forall q :: 0 <= q < n ==> f[q] <= BackAt(m, a, q, Top(q, t, K))
    ensures FwdAt(f, a[p], K) <= m[p]
  {
    FwdAtIsMax(f, a[p], K);
    if FwdAt(f, a[p], K) != -1 {
      var e :| e in a[p] && Active(f, e) && FwdAt(f, a[p], K) == Pushed(f, e, K);
      BackAtIsMin(m, a, e.src, Top(e.src, t, K), f[e.src]);
    }
  }

  // The Galois connection on the box: forward(f) <= m iff f <= backward(m).
  lemma Galois(f: Vec, m: Vec, a: ActionVec, n: nat, t: nat, K: int)
    requires FitsVec(a, n) && InBox(f, n, t, K) && InBox(m, n, t, K) && 1 <= K
    ensures Leq(Forward(f, a, K), m) <==> Leq(f, Backward(m, a, t, K))
  {
    hide FwdAt, BackAt;
    var fw, bw := Forward(f, a, K), Backward(m, a, t, K);
    if Leq(fw, m) {
      forall q | 0 <= q < n
        ensures f[q] <= bw[q]
      {
        assert forall p :: 0 <= p < n ==> fw[p] <= m[p];
        BelowBackwardAt(f, m, a, n, t, K, q);
      }
    }
    if Leq(f, bw) {
      forall p | 0 <= p < n
        ensures fw[p] <= m[p]
      {
        assert forall q :: 0 <= q < n ==> f[q] <= bw[q];
        BelowForwardAt(f, m, a, n, t, K, p);
      }
    }
  }

  // --- Regions ---------------------------------------------------------------------------

  ghost predicate CanStay(A: set<ActionVec>, K: int, S: iset<Vec>, v: Vec) {
    exists a :: a in A && Forward(v, a, K) in S
  }

  ghost predicate IsClosed(g: Arena, K: int, S: iset<Vec>) {
    forall v, A :: v in S && A in g ==> CanStay(A, K, S, v)
  }

  ghost predicate Stable(g: Arena, K: int, R: iset<Vec>, S: iset<Vec>) {
    S <= R && IsClosed(g, K, S)
  }

  // v belongs to the greatest subset of R closed under "for every input, some output stays inside".
  ghost predicate Winning(g: Arena, K: int, R: iset<Vec>, v: Vec) {
    exists S :: Stable(g, K, R, S) && v in S
  }

  ghost function Region(g: Arena, K: int, R: iset<Vec>): iset<Vec> {
    iset v | Winning(g, K, R, v)
  }

  // The union of all closed subsets is closed, so Region is the greatest one.
  lemma RegionIsGreatest(g: Arena, K: int, R: iset<Vec>)
    ensures Stable(g, K, R, Region(g, K, R))
    ensures forall S :: Stable(g, K, R, S) ==> S <= Region(g, K, R)
  {
    var W := Region(g, K, R);
    forall v, A | v in W && A in g
      ensures CanStay(A, K, W, v)
    {
      var S :| Stable(g, K, R, S) && v in S;
      assert CanStay(A, K, S, v);
      var a :| a in A && Forward(v, a, K) in S;
      assert Forward(v, a, K) in W;
    }
  }

  // Allowing fewer outputs can only shrink the region.
  ghost predicate Weaker(g: Arena, g': Arena) {
    forall A :: A in g ==> exists A' :: A' in g' && A' <= A
  }

  lemma RegionWeaker(g: Arena, g': Arena, K: int, R: iset<Vec>)
    requires Weaker(g, g')
    ensures Region(g', K, R) <= Region(g, K, R)
  {
    RegionIsGreatest(g', K, R);
    var W := Region(g', K, R);
    forall v, A | v in W && A in g
      ensures CanStay(A, K, W, v)
    {
      var A' :| A' in g' && A' <= A;
      assert CanStay(A', K, W, v);
    }
    assert Stable(g, K, R, W);
  }

  // --- Well-formed arenas and raising K ----------------------------------------------------

  // What saturation and merging guarantee: Boolean states (>= t) are not accepting and are only
  // entered from Boolean states or from `roots`, and nothing enters a root.
  predicate RespectsAt(p: nat, e: Pred, t: nat, roots: set<nat>) {
    && p !in roots
    && (t <= p ==> !e.acc && (t <= e.src || e.src in roots))
  }

  ghost predicate RespectsBooleans(a: ActionVec, t: nat, roots: set<nat>) {
    forall p: nat, e :: p < |a| && e in a[p] ==> RespectsAt(p, e, t, roots)
  }

  ghost predicate ProperArena(g: Arena, n: nat, t: nat, roots: set<nat>) {
    forall A, a :: A in g && a in A ==> FitsVec(a, n) && RespectsBooleans(a, t, roots)
  }

  // Vectors of the box that have never counted at a root.
  ghost function Rooted(n: nat, t: nat, K: int, roots: set<nat>): iset<Vec> {
    iset v: Vec | InBox(v, n, t, K) && forall r :: r in roots ==> At(v, r) <= 0
  }

  function Shift(v: Vec, t: nat, Kinc: int): Vec {
    seq(|v|, i requires 0 <= i < |v| => if i < t then Max(-1, v[i] - Kinc) else -1)
  }

  lemma ShiftSimulatesAt(v: Vec, u: Vec, ps: seq<Pred>, p: nat, n: nat, t: nat, roots: set<nat>, K: int, Kinc: int)
    requires forall e :: e in ps ==> e.src < n && RespectsAt(p, e, t, roots)
    requires 1 <= K && 1 <= Kinc
    requires v in Rooted(n, t, K + Kinc, roots) && Floor(u) && Leq(u, Shift(v, t, Kinc))
    ensures FwdAt(u, ps, K) <= if p < t then Max(-1, FwdAt(v, ps, K + Kinc) - Kinc) else -1
  {
    FwdAtIsMax(u, ps, K);
    FwdAtIsMax(v, ps, K + Kinc);
    if FwdAt(u, ps, K) != -1 {
      var e :| e in ps && Active(u, e) && FwdAt(u, ps, K) == Pushed(u, e, K);
      assert 0 <= u[e.src] <= Shift(v, t, Kinc)[e.src];
      assert At(v, e.src) == v[e.src] >= u[e.src] + Kinc;
      assert Active(v, e);
    }
  }

  // Lowering K by Kinc is simulated by Shift.
  lemma ShiftSimulates(v: Vec, u: Vec, a: ActionVec, n: nat, t: nat, roots: set<nat>, K: int, Kinc: int)
    requires FitsVec(a, n) && RespectsBooleans(a, t, roots) && 1 <= K && 1 <= Kinc
    requires v in Rooted(n, t, K + Kinc, roots) && Floor(u) && Leq(u, Shift(v, t, Kinc))
    ensures Leq(Forward(u, a, K), Shift(Forward(v, a, K + Kinc), t, Kinc))
  {
    forall p | 0 <= p < n
      ensures FwdAt(u, a[p], K) <= Shift(Forward(v, a, K + Kinc), t, Kinc)[p]
    {
      ShiftSimulatesAt(v, u, a[p], p, n, t, roots, K, Kinc);
    }
  }

  lemma WinningDownward(g: Arena, n: nat, t: nat, roots: set<nat>, K: int, u: Vec, v: Vec)
    requires ProperArena(g, n, t, roots) && 1 <= K
    requires Winning(g, K, Rooted(n, t, K, roots), v) && Floor(u) && Leq(u, v)
    ensures Winning(g, K, Rooted(n, t, K, roots), u)
  {
    var R := Rooted(n, t, K, roots);
    RegionIsGreatest(g, K, R);
    var W := Region(g, K, R);
    var S := iset x: Vec | Floor(x) && exists y :: y in W && Leq(x, y);
    forall x, A | x in S && A in g
      ensures CanStay(A, K, S, x)
    {
      var y :| y in W && Leq(x, y);
      assert CanStay(A, K, W, y);
      var a :| a in A && Forward(y, a, K) in W;
      ForwardMonotone(x, y, a, K);
      ForwardFloor(x, a, K);
      assert Forward(x, a, K) in S;
    }
    forall x | x in S
      ensures x in R
    {
      var y :| y in W && Leq(x, y);
      assert y in R;
    }
    assert Stable(g, K, R, S);
  }

  // The vectors that lie below a lowered vector of W.
  ghost function BelowShifted(W: iset<Vec>, t: nat, Kinc: int): iset<Vec> {
    iset u: Vec | Floor(u) && exists w :: w in W && Leq(u, Shift(w, t, Kinc))
  }

  lemma BelowShiftedStays(A: set<ActionVec>, n: nat, t: nat, roots: set<nat>, K: int, Kinc: int, W: iset<Vec>, u: Vec,
                          w: Vec)
    requires forall a :: a in A ==> FitsVec(a, n) && RespectsBooleans(a, t, roots)
    requires 1 <= K && 1 <= Kinc && w in Rooted(n, t, K + Kinc, roots)
    requires Floor(u) && Leq(u, Shift(w, t, Kinc)) && CanStay(A, K + Kinc, W, w)
    ensures CanStay(A, K, BelowShifted(W, t, Kinc), u)
  {
    hide Forward, Shift, FitsVec, RespectsBooleans, Leq;
    var a :| a in A && Forward(w, a, K + Kinc) in W;
    ShiftSimulates(w, u, a, n, t, roots, K, Kinc);
    ForwardFloor(u, a, K);
    assert Forward(u, a, K) in BelowShifted(W, t, Kinc);
  }

  lemma BelowShiftedInside(n: nat, t: nat, roots: set<nat>, K: int, Kinc: int, u: Vec, w: Vec)
    requires 1 <= K && 1 <= Kinc && w in Rooted(n, t, K + Kinc, roots) && Floor(u) && Leq(u, Shift(w, t, Kinc))
    ensures u in Rooted(n, t, K, roots)
  {
    forall r | r in roots
      ensures At(u, r) <= 0
    {
      if r < n {
        assert At(w, r) <= 0;
      }
    }
  }

  // Shifting a vector that is safe at K + Kinc gives one that is safe at K: nothing safe at the
  // larger bound is missed by adding Kinc to what is safe at the smaller one.
  lemma ShiftOfSafeIsSafe(g: Arena, n: nat, t: nat, roots: set<nat>, K: int, Kinc: int, v: Vec)
    requires ProperArena(g, n, t, roots) && 1 <= K && 1 <= Kinc
    requires Winning(g, K + Kinc, Rooted(n, t, K + Kinc, roots), v)
    ensures Winning(g, K, Rooted(n, t, K, roots), Shift(v, t, Kinc))
  {
    var R, R' := Rooted(n, t, K, roots), Rooted(n, t, K + Kinc, roots);
    RegionIsGreatest(g, K + Kinc, R');
    var W := Region(g, K + Kinc, R');
    var S := BelowShifted(W, t, Kinc);
    hide Rooted, Shift, Leq, CanStay, FitsVec, RespectsBooleans;
    forall u | u in S
      ensures u in R
      ensures forall A :: A in g ==> CanStay(A, K, S, u)
    {
      var w :| w in W && Leq(u, Shift(w, t, Kinc));
      BelowShiftedInside(n, t, roots, K, Kinc, u, w);
      forall A | A in g
        ensures CanStay(A, K, S, u)
      {
        BelowShiftedStays(A, n, t, roots, K, Kinc, W, u, w);
      }
    }
    assert Stable(g, K, R, S);
    ShiftedIsFloor(v, t, Kinc);
    assert v in W;
    assert Shift(v, t, Kinc) in S;
  }

  lemma ShiftedIsFloor(v: Vec, t: nat, Kinc: int)
    ensures Floor(Shift(v, t, Kinc)) && Leq(Shift(v, t, Kinc), Shift(v, t, Kinc))
  {
  }

  function Raise(v: Vec, t: nat, Kinc: int): Vec {
    seq(|v|, i requires 0 <= i < |v| => if i < t then v[i] + Kinc else 0)
  }

  // Raising is the least change that lowering undoes.
  lemma ShiftRaise(v: Vec, m: Vec, n: nat, t: nat, K: int, Kinc: int)
    requires InBox(v, n, t, K + Kinc) && InBox(m, n, t, K) && 1 <= K
    ensures Leq(Shift(v, t, Kinc), m) <==> Leq(v, Raise(m, t, Kinc))
  {
    forall i | 0 <= i < n
      ensures Shift(v, t, Kinc)[i] <= m[i] <==> v[i] <= Raise(m, t, Kinc)[i]
    {
      assert -1 <= m[i];
    }
  }

  // Capping Boolean components at 0 loses nothing: on rooted vectors the boxed game and the game
  // that only asks every counter to stay below K have the same winner.
  lemma BooleanBoxExact(g: Arena, n: nat, t: nat, roots: set<nat>, K: int, v: Vec)
    requires ProperArena(g, n, t, roots) && 1 <= K
    requires v in Rooted(n, t, K, roots)
    ensures Winning(g, K, Rooted(n, t, K, roots), v) <==> Winning(g, K, Box(n, n, K), v)
  {
    var R, B := Rooted(n, t, K, roots), Box(n, n, K);
    assert R <= B;
    RegionIsGreatest(g, K, B);
    var W := Region(g, K, B);
    var S := W * R;
    forall u, A | u in S && A in g
      ensures CanStay(A, K, S, u)
    {
      assert CanStay(A, K, W, u);
      var a :| a in A && Forward(u, a, K) in W;
      ForwardStaysRooted(u, a, n, t, roots, K);
    }
    assert Stable(g, K, R, S);
  }

  lemma ForwardStaysRooted(u: Vec, a: ActionVec, n: nat, t: nat, roots: set<nat>, K: int)
    requires FitsVec(a, n) && RespectsBooleans(a, t, roots) && 1 <= K
    requires u in Rooted(n, t, K, roots) && InBox(Forward(u, a, K), n, n, K)
    ensures Forward(u, a, K) in Rooted(n, t, K, roots)
  {
    var f := Forward(u, a, K);
    forall p | 0 <= p < n
      ensures t <= p || p in roots ==> f[p] <= 0
    {
      FwdAtIsMax(u, a[p], K);
      if f[p] != -1 {
        var e :| e in a[p] && Active(u, e) && f[p] == Pushed(u, e, K);
        assert RespectsAt(p, e, t, roots);
        assert u[e.src] <= Top(e.src, t, K);
        if t <= p && e.src in roots {
          assert At(u, e.src) <= 0;
        }
      }
    }
  }
}
