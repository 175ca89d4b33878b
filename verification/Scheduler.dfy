/**
  The master process: hands out formula and solve jobs, merges results, gathers invariants, and
  stops when the game is lost or no work is left.  Workers report in any order.
*/
module Scheduler {
  import opened Automata
  import opened Actioners
  import opened Game
  import opened Vectors
  import opened Pickers
  import opened Solver
  import opened Runs
  import opened Counting
  import opened Merging
  import opened Composition
  import opened Invariants
  import opened Jobs
  import opened Ledgers
  import opened KBoundedSafetyAut
  import opened Controller
  import opened Synthesis
  import opened TransitionEncoding

  // A worker computes one job under the invariant it was sent, or has been released.
  datatype Worker = Busy(job: Job, inv: set<Letter>) | Released

  function BusyCount(workers: seq<Worker>): nat {
    if workers == [] then 0 else BusyCount(workers[..|workers| - 1]) + (if workers[|workers| - 1].Busy? then 1 else 0)
  }

  lemma {:induction false} BusyExists(workers: seq<Worker>)
    ensures BusyCount(workers) > 0 <==> exists w :: 0 <= w < |workers| && workers[w].Busy?
  {
    if workers != [] {
      var n := |workers| - 1;
      BusyExists(workers[..n]);
      if BusyCount(workers[..n]) > 0 {
        var w :| 0 <= w < n && workers[..n][w].Busy?;
        assert workers[w].Busy?;
      }
      if w :| 0 <= w < |workers| && workers[w].Busy? {
        if w < n {
          assert workers[..n][w].Busy?;
        }
      }
    }
  }

  lemma {:induction false} ReleaseCount(workers: seq<Worker>, w: nat, x: Worker)
    requires w < |workers| && workers[w].Busy?
    ensures BusyCount(workers[w := x]) == BusyCount(workers) - (if x.Busy? then 0 else 1)
  {
    var n := |workers| - 1;
    if w < n {
      ReleaseCount(workers[..n], w, x);
      assert workers[w := x][..n] == workers[..n][w := x];
    } else {
      assert workers[w := x][..n] == workers[..n];
    }
  }

  // Outstanding jobs are queued or held by a worker, each exactly once.  Worker `hole` has just
  // reported and holds nothing.
  ghost predicate Located(jobs: map<nat, Job>, pending: seq<Job>, queue: seq<nat>, workers: seq<Worker>, held: seq<nat>,
                          hole: int) {
    && |queue| == |pending| && |held| == |workers|
    && (forall k :: 0 <= k < |queue| ==> queue[k] in jobs && jobs[queue[k]] == pending[k])
    && (forall w :: 0 <= w < |held| && Holds(workers, w, hole) ==>
        held[w] in jobs && jobs[held[w]] == workers[w].job && held[w] !in queue)
    && Distinct(queue) && HeldOnce(workers, held, hole)
    && (forall t :: t in jobs ==> t in queue || HeldBySome(workers, held, hole, t))
  }

  predicate Holds(workers: seq<Worker>, w: int, hole: int) {
    0 <= w < |workers| && w != hole && workers[w].Busy?
  }

  // No job is held by two workers.
  ghost predicate HeldOnce(workers: seq<Worker>, held: seq<nat>, hole: int)
    requires |held| == |workers|
  {
    forall w, w' :: 0 <= w < w' < |held| && Holds(workers, w, hole) && Holds(workers, w', hole) ==> held[w] != held[w']
  }

  ghost predicate HeldBySome(workers: seq<Worker>, held: seq<nat>, hole: int, t: nat)
    requires |held| == |workers|
  {
    exists w :: 0 <= w < |held| && Holds(workers, w, hole) && held[w] == t
  }

  // The job a worker reports on is no longer outstanding.
  lemma Reported(jobs: map<nat, Job>, pending: seq<Job>, queue: seq<nat>, workers: seq<Worker>, held: seq<nat>, w: nat)
    requires Located(jobs, pending, queue, workers, held, -1) && w < |workers| && workers[w].Busy?
    ensures Located(jobs - {held[w]}, pending, queue, workers, held, w)
  {
    assert Holds(workers, w, -1);
    var jobs' := jobs - {held[w]};
    forall x | 0 <= x < |held| && Holds(workers, x, w)
      ensures held[x] in jobs' && jobs'[held[x]] == workers[x].job && held[x] !in queue
    {
      assert Holds(workers, x, -1);
    }
    forall x, y | 0 <= x < y < |held| && Holds(workers, x, w) && Holds(workers, y, w)
      ensures held[x] != held[y]
    {
      assert Holds(workers, x, -1) && Holds(workers, y, -1);
    }
    forall t | t in jobs'
      ensures t in queue || HeldBySome(workers, held, w, t)
    {
      if t !in queue {
        assert HeldBySome(workers, held, -1, t);
        var x :| 0 <= x < |held| && Holds(workers, x, -1) && held[x] == t;
        assert Holds(workers, x, w);
      }
    }
  }

  // A new job goes to the end of the queue under a new ticket.
  lemma Enqueued(jobs: map<nat, Job>, pending: seq<Job>, queue: seq<nat>, workers: seq<Worker>, held: seq<nat>,
                 hole: int, t: nat, job: Job)
    requires Located(jobs, pending, queue, workers, held, hole) && t !in jobs
    ensures Located(jobs[t := job], pending + [job], queue + [t], workers, held, hole)
  {
    var jobs', queue' := jobs[t := job], queue + [t];
    assert t !in queue;
    forall u | u in jobs'
      ensures u in queue' || HeldBySome(workers, held, hole, u)
    {
      if u == t {
        assert queue'[|queue|] == t;
      } else if u in queue {
        var k :| 0 <= k < |queue| && queue[k] == u;
        assert queue'[k] == u;
      }
    }
  }

  // The first job of the queue goes to the free worker.
  lemma Dispatched(jobs: map<nat, Job>, pending: seq<Job>, queue: seq<nat>, workers: seq<Worker>, held: seq<nat>,
                   w: nat, x: Worker)
    requires Located(jobs, pending, queue, workers, held, w) && w < |workers| && pending != []
    requires x.Busy? && x.job == pending[0]
    ensures Located(jobs, pending[1..], queue[1..], workers[w := x], held[w := queue[0]], -1)
  {
    var workers', held', queue' := workers[w := x], held[w := queue[0]], queue[1..];
    assert queue == [queue[0]] + queue';
    forall y | 0 <= y < |held'| && Holds(workers', y, -1)
      ensures held'[y] in jobs && jobs[held'[y]] == workers'[y].job && held'[y] !in queue'
    {
      if y != w {
        assert Holds(workers, y, w);
      }
    }
    forall y, z | 0 <= y < z < |held'| && Holds(workers', y, -1) && Holds(workers', z, -1)
      ensures held'[y] != held'[z]
    {
      if y == w {
        assert Holds(workers, z, w);
      } else if z == w {
        assert Holds(workers, y, w);
      } else {
        assert Holds(workers, y, w) && Holds(workers, z, w);
      }
    }
    forall t | t in jobs
      ensures t in queue' || HeldBySome(workers', held', -1, t)
    {
      if t == queue[0] {
        assert Holds(workers', w, -1) && held'[w] == t;
      } else if t !in queue {
        assert HeldBySome(workers, held, w, t);
        var y :| 0 <= y < |held| && Holds(workers, y, w) && held[y] == t;
        assert Holds(workers', y, -1) && held'[y] == t;
      }
    }
  }

  lemma LetGo(jobs: map<nat, Job>, queue: seq<nat>, workers: seq<Worker>, held: seq<nat>, w: nat)
    requires Located(jobs, [], queue, workers, held, w) && w < |workers|
    ensures Located(jobs, [], queue, workers[w := Released], held, -1)
  {
    var workers' := workers[w := Released];
    forall y | 0 <= y < |held| && Holds(workers', y, -1)
      ensures Holds(workers, y, w)
    {
    }
    forall t | t in jobs
      ensures t in queue || HeldBySome(workers', held, -1, t)
    {
      if t !in queue {
        assert HeldBySome(workers, held, w, t);
        var y :| 0 <= y < |held| && Holds(workers, y, w) && held[y] == t;
        assert Holds(workers', y, -1);
      }
    }
  }

  // --- Merging two solved games ----------------------------------------------------------------------------

  lemma MergedStands(s: Spec, dest: SafetyGame, src: SafetyGame, merged: SafetyGame, rename: seq<nat>, ids1: set<nat>,
                     ids2: set<nat>)
    requires IsMergeOf(dest.aut, dest.threshold, src.aut, src.threshold, merged.aut, rename) && 1 <= s.K
    requires s.Stands(dest.aut, ids1) && s.Stands(src.aut, ids2)
    ensures s.Stands(merged.aut, ids1 + ids2)
  {
    MergedIsMerge(dest.aut, dest.threshold, src.aut, src.threshold, merged.aut, rename);
    hide IsMerge, Spec.Stands, IsMergeOf;
    StandsForBoth(s, dest.aut, src.aut, merged.aut, Left(rename, dest.aut.Size()), Right(rename, dest.aut.Size()), ids1,
                  ids2);
  }

  lemma MergedOk(s: Spec, dest: SafetyGame, src: SafetyGame, merged: SafetyGame, rename: seq<nat>,
                 roots1: set<nat>, roots2: set<nat>, ids1: set<nat>, ids2: set<nat>)
    requires s.Valid() && GameOk(s, dest, roots1, ids1) && GameOk(s, src, roots2, ids2)
    requires IsPairedMerge(dest, src, merged, rename) && !merged.solved && dest.aut.Size() < |rename|
    ensures GameOk(s, merged, MergedRoots(rename, dest.aut.Size(), roots1, roots2), ids1 + ids2)
  {
    hide IsMergeOf, Ready, AllPaired, OnlyPairs, Spec.Stands, Spec.FinalInvariant, Spec.ValidFormula, IsSolved;
    MergedReady(dest, src, merged, rename, roots1, roots2, s.ins, s.outs, s.FinalInvariant(), s.K);
    MergedStands(s, dest, src, merged, rename, ids1, ids2);
  }

  lemma MergeSetup(dest: SafetyGame, src: SafetyGame, merged: SafetyGame, rename: seq<nat>)
    requires IsMergeOf(dest.aut, dest.threshold, src.aut, src.threshold, merged.aut, rename)
    ensures |rename| == dest.aut.Size() + 1 + src.aut.Size() == merged.aut.Size() && Distinct(rename)
    ensures forall k :: 0 <= k < |rename| ==> rename[k] < |rename|
  {
    MergedShape(dest.aut, dest.threshold, src.aut, src.threshold, merged.aut, rename);
    hide NewName;
  }

  lemma GameParts(s: Spec, game: SafetyGame, roots: set<nat>, ids: set<nat>)
    requires GameOk(s, game, roots, ids)
    ensures game.aut.Valid() && game.threshold <= game.aut.Size() && game.safe.Some?
    ensures HaveDimension(game.safe.value, game.aut.Size())
  {
    hide Spec.Stands, IsSolved, Spec.FinalInvariant;
    ReadyParts(game, roots, s.ins, s.outs, s.FinalInvariant(), s.K);
  }

  method Compose(dest: SafetyGame, src: SafetyGame) returns (merged: SafetyGame, ghost rename: seq<nat>)
    requires dest.aut.Valid() && dest.threshold <= dest.aut.Size() && dest.safe.Some?
    requires src.aut.Valid() && src.threshold <= src.aut.Size() && src.safe.Some?
    requires HaveDimension(dest.safe.value, dest.aut.Size()) && HaveDimension(src.safe.value, src.aut.Size())
    ensures IsPairedMerge(dest, src, merged, rename) && !merged.solved && dest.aut.Size() < |rename|
  {
    hide IsMergeOf, AllPaired, OnlyPairs, Automaton.Valid, Distinct, HaveDimension;
    var composer := new Composer();
    var joined := composer.MergeAut(dest, src);
    MergeSetup(dest, src, joined, composer.rename);
    var safe := composer.MergeSaferegions(dest.safe.value, src.safe.value, dest.aut.Size(), src.aut.Size());
    merged := joined.(safe := Some(safe), solved := false);
    rename := composer.rename;
  }

  // The two games side by side, and all pairs of their safe vectors, not yet solved.
  ghost predicate IsJoined(dest: SafetyGame, src: SafetyGame, merged: SafetyGame) {
    !merged.solved && exists rename :: IsPairedMerge(dest, src, merged, rename)
  }

  // A solved game is stored when there is no other, else joined with the stored one to a new job.
  ghost predicate StoredOrJoined(stored: Option<SafetyGame>, pending: seq<Job>, game: SafetyGame,
                                 stored': Option<SafetyGame>, pending': seq<Job>) {
    if stored.None? then stored' == Some(game) && pending' == pending
    else && stored'.None? && |pending'| == |pending| + 1 && pending' == pending + [pending'[|pending|]]
         && pending'[|pending|].SolveJob? && IsJoined(stored.value, game, pending'[|pending|].game)
  }

  method Join(s: Spec, dest: SafetyGame, src: SafetyGame,
              ghost roots1: set<nat>, ghost roots2: set<nat>, ghost ids1: set<nat>, ghost ids2: set<nat>)
    returns (merged: SafetyGame, ghost roots: set<nat>)
    requires s.Valid() && GameOk(s, dest, roots1, ids1) && GameOk(s, src, roots2, ids2)
    ensures GameOk(s, merged, roots, ids1 + ids2) && IsJoined(dest, src, merged)
  {
    hide GameOk, IsPairedMerge, Automaton.Valid, HaveDimension, MergedRoots, Spec.Valid;
    GameParts(s, dest, roots1, ids1);
    GameParts(s, src, roots2, ids2);
    ghost var rename;
    merged, rename := Compose(dest, src);
    assert IsJoined(dest, src, merged);
    roots := MergedRoots(rename, dest.aut.Size(), roots1, roots2);
    MergedOk(s, dest, src, merged, rename, roots1, roots2, ids1, ids2);
  }

  // --- Facts about what is outstanding -------------------------------------------------------------------------

  // The formula a formula job was made for.
  ghost function OwnerOf(L: Ledger, t: nat): nat
    requires HasOwner(L, t)
  {
    var id: nat :| id < |L.place| && L.place[id] == Waiting(t); id
  }

  lemma FormulaJobKnown(s: Spec, L: Ledger, t: nat)
    requires LedgerOk(s, L) && t in L.jobs && L.jobs[t].FormulaJob?
    ensures HasOwner(L, t)
    ensures var id := OwnerOf(L, t);
            id < |s.formulas| && L.jobs[t].f == s.formulas[id] && s.ValidFormula(s.formulas[id])
  {
    hide GamesOk, Spec.ValidFormula, Spec.IsGameFormula, Spec.InvariantOf;
    assert HasOwner(L, t);
    assert PlaceOk(s, L, OwnerOf(L, t));
  }

  lemma SolveJobKnown(s: Spec, L: Ledger, t: nat)
    requires LedgerOk(s, L) && t in L.jobs && L.jobs[t].SolveJob?
    ensures t in L.roots && GameOk(s, L.jobs[t].game, L.roots[t], L.IdsOf(t))
  {
    hide Accounted, GameOk, Spec.InvariantOf, Spec.Valid;
    assert TicketOk(s, L, t);
  }

  lemma InvariantCovers(s: Spec, L: Ledger)
    requires LedgerOk(s, L)
    ensures s.FinalInvariant() <= L.inv <= s.Letters()
  {
    hide GamesOk, Accounted, AllLetters, Spec.Condition, Spec.Valid;
  }

  // An empty conjunction of invariants allows no output at all.
  lemma EmptyInvariantLoses(s: Spec, L: Ledger)
    requires LedgerOk(s, L) && L.inv == {}
    ensures !s.IsRealizable()
  {
    InvariantCovers(s, L);
    hide GamesOk, Accounted, Spec.FinalInvariant, Spec.ValidFormula, Spec.InvariantOf;
    if strat: Strategy :| s.Realizes(strat) {
      FinalInvariantIsDemanded(s, strat);
      EmptyNotLegal(s, strat);
    }
  }

  lemma EmptyNotLegal(s: Spec, strat: Strategy)
    requires s.Valid()
    ensures !Legal(strat, s.ins, s.outs, {})
  {
    hide Spec.ValidFormula;
    var i :| i in s.ins;
    assert AllIn([i], s.ins);
    assert !LegalAt(strat, s.outs, {}, [i]);
  }

  // A worker process is started with the first job of the queue.
  lemma Spawned(jobs: map<nat, Job>, pending: seq<Job>, queue: seq<nat>, workers: seq<Worker>, held: seq<nat>,
                x: Worker)
    requires Located(jobs, pending, queue, workers, held, -1) && pending != [] && x.Busy? && x.job == pending[0]
    ensures Located(jobs, pending[1..], queue[1..], workers + [x], held + [queue[0]], -1)
  {
    var n := |workers|;
    var workers', held' := workers + [Released], held + [0];
    OneMoreReleased(jobs, pending, queue, workers, held);
    hide Located;
    Dispatched(jobs, pending, queue, workers', held', n, x);
    assert workers'[n := x] == workers + [x];
    assert |held| == n ==> held'[n := queue[0]] == held + [queue[0]];
    LocatedLengths(jobs, pending, queue, workers, held, -1);
  }

  lemma LocatedLengths(jobs: map<nat, Job>, pending: seq<Job>, queue: seq<nat>, workers: seq<Worker>, held: seq<nat>,
                       hole: int)
    requires Located(jobs, pending, queue, workers, held, hole)
    ensures |queue| == |pending| && |held| == |workers|
  {
  }

  lemma OneMoreReleased(jobs: map<nat, Job>, pending: seq<Job>, queue: seq<nat>, workers: seq<Worker>, held: seq<nat>)
    requires Located(jobs, pending, queue, workers, held, -1)
    ensures Located(jobs, pending, queue, workers + [Released], held + [0], |workers|)
  {
    var workers', held', n := workers + [Released], held + [0], |workers|;
    forall w | 0 <= w < |held'| && Holds(workers', w, n)
      ensures Holds(workers, w, -1) && held'[w] == held[w] && workers'[w] == workers[w]
    {
    }
    forall t | t in jobs
      ensures t in queue || HeldBySome(workers', held', n, t)
    {
      if t !in queue {
        assert HeldBySome(workers, held, -1, t);
        var w :| 0 <= w < |held| && Holds(workers, w, -1) && held[w] == t;
        assert Holds(workers', w, n) && held'[w] == t;
      }
    }
  }

  // --- The first ledger -------------------------------------------------------------------------------------------

  ghost function Start(s: Spec): Ledger {
    Ledger(map k: nat | k < |s.formulas| :: FormulaJob(s.formulas[k]), map[],
           seq(|s.formulas|, k requires 0 <= k < |s.formulas| => Waiting(k)), None, {}, s.Letters(), |s.formulas|)
  }

  lemma StartOk(s: Spec)
    requires s.Valid()
    ensures LedgerOk(s, Start(s)) && Balanced(Start(s), 0)
  {
    var L := Start(s);
    hide Spec.ValidFormula, Spec.IsGameFormula, Spec.Condition, AllLetters;
    assert L.AbsorbedIds() == {} && L.Converted() == {} && L.SolveTickets() == {};
    assert L.inv == s.InvariantOf({});
    forall t | t in L.jobs
      ensures HasOwner(L, t)
    {
      assert L.place[t] == Waiting(t);
    }
  }

  lemma StartLocated(s: Spec, pending: seq<Job>)
    requires |pending| == |s.formulas| && forall k :: 0 <= k < |pending| ==> pending[k] == FormulaJob(s.formulas[k])
    ensures Located(Start(s).jobs, pending, Range(0, |s.formulas|), [], [], -1)
  {
    var queue := Range(0, |s.formulas|);
    forall t | t in Start(s).jobs
      ensures t in queue
    {
      assert queue[t] == t;
    }
  }

  lemma SomeLetter(s: Spec)
    requires s.Valid()
    ensures s.Letters() != {}
  {
    hide Spec.ValidFormula;
    var i :| i in s.ins;
    var o :| o in s.outs;
    assert Letter(i, o) in s.Letters();
  }

  // --- The scheduler ------------------------------------------------------------------------------------------------

  class CompositionMt {
    const s: Spec
    var pendingJobs: seq<Job>
    var storedResult: Option<SafetyGame>
    var losing: bool
    var inv: set<Letter>
    var workers: seq<Worker>
    ghost var ledger: Ledger
    ghost var queue: seq<nat>
    ghost var held: seq<nat>
    ghost var solves: nat

    // The books agree with the fields, and giving up is justified.
    ghost predicate BooksOk()
      reads this
    {
      && LedgerOk(s, ledger) && Balanced(ledger, solves)
      && ledger.stored == storedResult && ledger.inv == inv
      && (losing <== inv == {}) && (losing ==> Hopeless(s))
    }

    // Besides, every outstanding job is in the queue or with one worker; `hole` has just reported.
    ghost predicate Consistent(hole: int)
      reads this
    {
      && BooksOk() && Located(ledger.jobs, pendingJobs, queue, workers, held, hole)
      && forall w :: 0 <= w < |workers| && workers[w].Busy? ==> s.FinalInvariant() <= workers[w].inv
    }

    // Workers are released only once the queue is empty.
    predicate Drained()
      reads this
    {
      (exists w :: 0 <= w < |workers| && workers[w].Released?) ==> pendingJobs == []
    }

    constructor (s: Spec)
      requires s.Valid()
      ensures this.s == s && Consistent(-1) && !losing && workers == [] && |pendingJobs| == |s.formulas| && solves == 0
      ensures forall k :: 0 <= k < |pendingJobs| ==> pendingJobs[k] == FormulaJob(s.formulas[k])
      ensures storedResult.None? && inv == s.Letters()
    {
      hide LedgerOk, Balanced, Located, AllLetters;
      this.s := s;
      pendingJobs, storedResult, losing, inv, workers := [], None, false, s.Letters(), [];
      ledger, queue, held, solves := Start(s), Range(0, |s.formulas|), [], 0;
      new;
      for k := 0 to |s.formulas|
        invariant this.s == s && storedResult == None && !losing && inv == s.Letters() && workers == []
        invariant ledger == Start(s) && queue == Range(0, |s.formulas|) && held == [] && solves == 0
        invariant |pendingJobs| == k && forall j :: 0 <= j < k ==> pendingJobs[j] == FormulaJob(s.formulas[j])
      {
        AddFormula(s.formulas[k]);
      }
      StartOk(s);
      StartLocated(s, pendingJobs);
      SomeLetter(s);
    }

    method Enqueue(p: Job)
      modifies this`pendingJobs
      ensures pendingJobs == old(pendingJobs) + [p]
    {
      pendingJobs := pendingJobs + [p];
    }

    method Dequeue() returns (p: Option<Job>)
      modifies this`pendingJobs
      ensures old(pendingJobs) == [] ==> p == None && pendingJobs == []
      ensures old(pendingJobs) != [] ==> p == Some(old(pendingJobs)[0]) && pendingJobs == old(pendingJobs)[1..]
    {
      if pendingJobs == [] {
        return None;
      }
      p := Some(pendingJobs[0]);
      pendingJobs := pendingJobs[1..];
    }

    method AddFormula(f: Formula)
      modifies this`pendingJobs
      ensures pendingJobs == old(pendingJobs) + [FormulaJob(f)]
    {
      Enqueue(FormulaJob(f));
    }

    method AddInvariant(c: set<Letter>)
      modifies this`inv, this`losing
      ensures inv == old(inv) * c && losing == (old(losing) || inv == {})
    {
      inv := inv * c;
      if inv == {} {
        losing := true;
      }
    }

    // A solved game becomes the stored result, or is merged with it into a new solve job.
    method AddResult(game: SafetyGame, ghost w: nat)
      requires Consistent(-1) && !losing && w < |workers| && workers[w].Busy? && workers[w].job.SolveJob?
      requires w < |held| && held[w] in ledger.jobs && ledger.jobs[held[w]] == workers[w].job && held[w] in ledger.roots
      requires game.solved && GameOk(s, game, ledger.roots[held[w]], ledger.IdsOf(held[w]))
      modifies this`storedResult, this`pendingJobs, this`ledger, this`queue, this`solves
      ensures Consistent(w) && ledger.Work() < old(ledger.Work())
      ensures StoredOrJoined(old(storedResult), old(pendingJobs), game, storedResult, pendingJobs)
      ensures solves == old(solves) + 1
    {
      hide LedgerOk, Balanced, Located, GameOk, IsJoined;
      ghost var t, L := held[w], ledger;
      Reported(L.jobs, pendingJobs, queue, workers, held, w);
      LedgerValid(s, L);
      if storedResult.None? {
        StoreOk(s, L, t, game, solves);
        storedResult := Some(game);
        ledger := Store(L, t, game);
      } else {
        StoredKnown(s, L);
        var merged;
        ghost var roots;
        merged, roots := Join(s, storedResult.value, game, L.storedRoots, L.roots[t], L.StoredIds(), L.IdsOf(t));
        assert L.StoredIds() + L.IdsOf(t) == L.IdsOf(t) + L.StoredIds();
        MergeOk(s, L, t, merged, roots, solves);
        Enqueued(L.jobs - {t}, pendingJobs, queue, workers, held, w, L.next, SolveJob(merged));
        Enqueue(SolveJob(merged));
        storedResult := None;
        ledger, queue := MergeIn(L, t, merged, roots), queue + [L.next];
      }
      solves := solves + 1;
    }

    // An unsolved game becomes a solve job.
    method AddGame(game: SafetyGame, ghost w: nat)
      requires Consistent(-1) && !losing && w < |workers| && workers[w].Busy? && workers[w].job.FormulaJob?
      requires w < |held| && held[w] in ledger.jobs && ledger.jobs[held[w]] == workers[w].job
      requires s.IsGameFormula(workers[w].job.f) && FormulaReport(s, workers[w].job.f, GameReport(game))
      modifies this`pendingJobs, this`ledger, this`queue
      ensures Consistent(w) && ledger.Work() < old(ledger.Work())
      ensures pendingJobs == old(pendingJobs) + [SolveJob(game)]
    {
      hide LedgerOk, Balanced, Located, Spec.IsGameFormula, FormulaReport;
      ghost var t, L := held[w], ledger;
      Reported(L.jobs, pendingJobs, queue, workers, held, w);
      FormulaJobKnown(s, L, t);
      ghost var id := OwnerOf(L, t);
      NewGameOk(s, id, game);
      ConvertOk(s, L, t, id, game, solves);
      LedgerValid(s, L);
      Enqueued(L.jobs - {t}, pendingJobs, queue, workers, held, w, L.next, SolveJob(game));
      Enqueue(SolveJob(game));
      ledger, queue := Convert(L, t, id, game), queue + [L.next];
    }

    // A formula that asks nothing leaves no trace outside the books.
    ghost method DropTrivial(w: nat)
      requires Consistent(-1) && !losing && w < |workers| && workers[w].Busy? && workers[w].job.FormulaJob?
      requires w < |held| && held[w] in ledger.jobs && ledger.jobs[held[w]] == workers[w].job
      requires !s.IsGameFormula(workers[w].job.f) && s.Letters() == s.Condition(workers[w].job.f)
      modifies this`ledger
      ensures Consistent(w) && ledger.Work() < old(ledger.Work())
    {
      hide LedgerOk, Balanced, Located, Spec.IsGameFormula, Spec.Condition;
      var t, L := held[w], ledger;
      Reported(L.jobs, pendingJobs, queue, workers, held, w);
      FormulaJobKnown(s, L, t);
      InvariantCovers(s, L);
      AbsorbOk(s, L, t, OwnerOf(L, t), solves);
      assert L.inv * s.Letters() == L.inv;
      ledger := Absorb(L, t, OwnerOf(L, t), L.inv);
    }

    // An invariant is absorbed.
    method Absorbs(c: set<Letter>, ghost w: nat)
      requires Consistent(-1) && !losing && w < |workers| && workers[w].Busy? && workers[w].job.FormulaJob?
      requires w < |held| && held[w] in ledger.jobs && ledger.jobs[held[w]] == workers[w].job
      requires !s.IsGameFormula(workers[w].job.f) && c == s.Condition(workers[w].job.f)
      modifies this`inv, this`losing, this`ledger
      ensures Consistent(w) && ledger.Work() < old(ledger.Work())
      ensures inv == old(inv) * c && (losing <==> inv == {})
    {
      hide LedgerOk, Balanced, Located, Spec.IsGameFormula, Spec.Condition;
      ghost var t, L := held[w], ledger;
      Reported(L.jobs, pendingJobs, queue, workers, held, w);
      FormulaJobKnown(s, L, t);
      ghost var id := OwnerOf(L, t);
      AbsorbOk(s, L, t, id, solves);
      AddInvariant(c);
      ledger := Absorb(L, t, id, L.inv * c);
      if inv == {} {
        EmptyInvariantLoses(s, ledger);
        InvariantCovers(s, ledger);
      }
    }

    // What the main loop does with one report.
    method Handle(r: Report, ghost w: nat)
      requires Consistent(-1) && !losing && w < |workers| && workers[w].Busy? && ReportFits(w, r)
      modifies this`storedResult, this`pendingJobs, this`inv, this`losing, this`ledger, this`queue, this`solves
      ensures losing ==> Hopeless(s)
      ensures !losing ==> Consistent(w) && ledger.Work() < old(ledger.Work()) && |pendingJobs| <= |old(pendingJobs)| + 1
      ensures inv == (if r.InvariantReport? then old(inv) * r.condition else old(inv))
      ensures losing <==> (r.InvariantReport? && inv == {}) || (r.GameReport? && r.game.safe.None?)
      ensures if r.GameReport? && r.game.safe.Some? && r.game.solved
              then StoredOrJoined(old(storedResult), old(pendingJobs), r.game, storedResult, pendingJobs)
              else storedResult == old(storedResult) &&
                   pendingJobs == old(pendingJobs) +
                                  (if r.GameReport? && r.game.safe.Some? then [SolveJob(r.game)] else [])
    {
      hide LedgerOk, Balanced, Located, GameOk, FormulaReport, SolveReport, Spec.IsRealizable, Spec.Games;
      hide Spec.FinalInvariant;
      LedgerValid(s, ledger);
      ReportKind(s, ledger, held[w], workers[w], r);
      match r
      case GameReport(game) =>
        if game.safe.Some? {
          if game.solved {
            AddResult(game, w);
          } else {
            AddGame(game, w);
          }
        } else {
          SolvesNeedGames(s, ledger, solves, held[w]);
          losing := true;
        }
      case InvariantReport(condition) =>
        Absorbs(condition, w);
      case NullReport =>
        DropTrivial(w);
    }

    ghost predicate ReportFits(w: nat, r: Report)
      requires w < |workers| && workers[w].Busy?
      reads this
    {
      && w < |held| && held[w] in ledger.jobs && ledger.jobs[held[w]] == workers[w].job
      && FitsJob(s, ledger, held[w], workers[w], r)
    }

    // The worker that reported gets the next job, or is released when the queue is empty.
    method Dispatch(w: nat) returns (released: bool)
      requires Consistent(w) && !losing && w < |workers| && workers[w].Busy?
      requires (exists x :: 0 <= x < |workers| && workers[x].Released?) ==> |pendingJobs| <= 1
      modifies this`pendingJobs, this`workers, this`queue, this`held
      ensures Consistent(-1) && Drained()
      ensures released <==> old(pendingJobs) == []
      ensures workers == old(workers)[w := if released then Released else Busy(old(pendingJobs)[0], inv)]
      ensures pendingJobs == if released then [] else old(pendingJobs)[1..]
      ensures BusyCount(workers) == old(BusyCount(workers)) - (if released then 1 else 0)
    {
      hide LedgerOk, Balanced, Located;
      ghost var pending := pendingJobs;
      InvariantCovers(s, ledger);
      LocatedLengths(ledger.jobs, pendingJobs, queue, workers, held, w);
      var newJob := Dequeue();
      if newJob.None? {
        LetGo(ledger.jobs, queue, workers, held, w);
        ReleaseCount(workers, w, Released);
        workers := workers[w := Released];
        released := true;
      } else {
        var x := Busy(newJob.value, inv);
        Dispatched(ledger.jobs, pending, queue, workers, held, w, x);
        ReleaseCount(workers, w, x);
        workers, held, queue := workers[w := x], held[w := queue[0]], queue[1..];
        released := false;
      }
    }

    method SpawnWorker()
      requires Consistent(-1) && !losing && pendingJobs != []
      modifies this`pendingJobs, this`workers, this`queue, this`held
      ensures Consistent(-1) && pendingJobs == old(pendingJobs)[1..]
      ensures workers == old(workers) + [Busy(old(pendingJobs)[0], inv)]
    {
      hide LedgerOk, Balanced, Located;
      ghost var pending := pendingJobs;
      InvariantCovers(s, ledger);
      LocatedLengths(ledger.jobs, pendingJobs, queue, workers, held, -1);
      var job := Dequeue();
      var x := Busy(job.value, inv);
      Spawned(ledger.jobs, pending, queue, workers, held, x);
      workers, held, queue := workers + [x], held + [queue[0]], queue[1..];
    }

    // Starts the worker processes, each with its first job.
    method SpawnWorkers(count: nat)
      requires Consistent(-1) && !losing && workers == [] && count <= |pendingJobs|
      modifies this`pendingJobs, this`workers, this`queue, this`held
      ensures Consistent(-1) && |workers| == count == BusyCount(workers)
      ensures forall w :: 0 <= w < count ==> workers[w] == Busy(old(pendingJobs)[w], inv)
      ensures pendingJobs == old(pendingJobs)[count..]
    {
      hide CompositionMt.Consistent;
      for i := 0 to count
        invariant Consistent(-1) && !losing && |workers| == i == BusyCount(workers)
        invariant forall w :: 0 <= w < i ==> workers[w] == Busy(old(pendingJobs)[w], inv)
        invariant pendingJobs == old(pendingJobs)[i..]
      {
        SpawnWorker();
      }
    }

    // The report worker w will make, whenever it is read.
    method WorkerReport(w: nat) returns (r: Report)
      requires Consistent(-1) && w < |workers| && workers[w].Busy?
      ensures ReportFits(w, r)
    {
      hide LedgerOk, Balanced, Located, FormulaReport, SolveReport, GameOk;
      LedgerValid(s, ledger);
      HeldKnown(ledger.jobs, pendingJobs, queue, workers, held, w);
      ghost var t := held[w];
      if workers[w].job.FormulaJob? {
        FormulaJobKnown(s, ledger, t);
      } else {
        SolveJobKnown(s, ledger, t);
      }
      r := BeChild(s, workers[w].job, workers[w].inv, if t in ledger.roots then ledger.roots[t]
                   else {}, ledger.IdsOf(t));
    }

    // Reports are handled in any order until the game is lost or every worker is released.
    method RunWorkers(workerCount: int, hardware: nat)
      requires Consistent(-1) && !losing && workers == [] && pendingJobs != [] && 1 <= hardware
      modifies this
      ensures losing ==> Hopeless(s)
      ensures !losing ==> BooksOk() && ledger.jobs == map[] && pendingJobs == []
      ensures !losing ==> ledger.StoredIds() == s.Games() && inv == s.FinalInvariant()
      ensures !losing && s.Games() != {} ==> storedResult.Some? && solves == 2 * |s.Games()| - 1
      ensures !losing && s.Games() == {} ==> storedResult.None? && solves == 0
      ensures |workers| == Min(Min(if workerCount <= 0 then hardware else workerCount, 255), |old(pendingJobs)|)
    {
      hide StoredOrJoined;
      hide LedgerOk, Balanced, Located, CompositionMt.ReportFits, Hopeless, Spec.Games, Spec.FinalInvariant;
      var count := if workerCount <= 0 then hardware else workerCount;
      count := Min(count, 255);
      count := Min(count, |pendingJobs|);
      SpawnWorkers(count);
      var activeWorkers := count;
      while activeWorkers > 0
        invariant Consistent(-1) && !losing && Drained()
        invariant activeWorkers == BusyCount(workers) && 0 < |workers| == count
        decreases ledger.Work()
      {
        BusyExists(workers);
        var w :| 0 <= w < |workers| && workers[w].Busy?;
        var r := WorkerReport(w);
        Handle(r, w);
        if losing {
          return;
        }
        var released := Dispatch(w);
        if released {
          activeWorkers := activeWorkers - 1;
        }
      }
      BusyExists(workers);
      assert workers[0].Released?;
      NothingOutstanding(ledger.jobs, queue, workers, held);
      AtTheEnd(s, ledger, solves);
    }

    // The verdict on the stored result: solved once more unless it was solved under all invariants.
    method Epilogue() returns (realizable: bool)
      requires if losing then Hopeless(s) else BooksOk() && ledger.jobs == map[]
      modifies this`storedResult
      ensures s.Games() != {} ==> (realizable <==> s.IsRealizable())
      ensures s.Games() == {} ==> (realizable <==> !losing)
      ensures realizable ==> storedResult.Some? && storedResult.value.safe.Some? && storedResult.value.under == inv
      ensures realizable ==> inv == s.FinalInvariant()
      ensures losing ==> !realizable && storedResult == old(storedResult)
      ensures !losing && old(storedResult).Some? ==> FinallySolved(s, old(storedResult).value, inv, storedResult)
      ensures realizable && (s.Games() != {} || EveryInputAnswered(s.ins, s.outs, inv)) ==>
          Decided(s, storedResult.value)
    {
      hide LedgerOk, Balanced, GameOk, Spec.IsRealizable, Spec.FinalInvariant, Spec.Games, IsSolved, Spec.Stands;
      hide Spec.Valid;
      hide Decided, DummyAutomaton, EveryInputAnswered, Ledger.StoredIds, SomeStrategy, SolvedUnder;
      if losing {
        return false;
      }
      AtTheEnd(s, ledger, solves);
      LedgerValid(s, ledger);
      if storedResult.None? {
        var aut := DummyAutomaton(s.Letters());
        storedResult := Some(SafetyGame(aut, 0, Some([[0]]), true, inv));
        DummyIsDecided(s, storedResult.value);
        return true;
      }
      StoredKnown(s, ledger);
      var game := storedResult.value;
      if !game.solved || game.under != inv {
        game := SolveGame(s, game, inv, ledger.storedRoots, ledger.StoredIds());
        storedResult := Some(game);
      }
      FinalVerdict(s, game, ledger.storedRoots, ledger.StoredIds());
      realizable := game.safe.Some?;
    }

    // The controller of the final region satisfies every formula.
    method BuildController(no: nat) returns (c: Circuit)
      requires s.Valid() && storedResult.Some? && Decided(s, storedResult.value) && inv == s.FinalInvariant()
      requires AllHaveWidth(s.outs, no)
      ensures s.Realizes(c.Strat()) && |c.outputs| == no && |c.latches| == c.bits
    {
      hide Spec.FinalInvariant, Spec.Games, Spec.Stands, Spec.ValidFormula, Spec.Realizes, IsClosedDown, ArenaOf;
      hide AllInBox, Contains, InitVec, Explored;
      hide AllHaveWidth, Legal, Bounds, Synthesized.Built, Circuit.Refines, TableEncoding, Circuit.Strat;
      var r := storedResult.value;
      var circuit, table, visits := Synthesize(r.aut, r.threshold, s.K, s.ins, s.outs, inv, r.safe.value, no, s.K);
      WinningRealizes(s, r.aut, s.Games(), circuit.Strat());
      c := circuit;
    }

    method Run(workerCount: int, hardware: nat) returns (realizable: bool)
      requires Consistent(-1) && !losing && workers == [] && pendingJobs != [] && 1 <= hardware
      modifies this
      ensures s.Games() != {} ==> (realizable <==> s.IsRealizable())
      ensures s.Games() == {} ==> (realizable <==> s.FinalInvariant() != {})
      ensures realizable ==> inv == s.FinalInvariant() && storedResult.Some? && s.Valid()
      ensures realizable && (s.Games() != {} || EveryInputAnswered(s.ins, s.outs, s.FinalInvariant())) ==>
                Decided(s, storedResult.value)
    {
      hide LedgerOk, Balanced, Spec.IsRealizable, Spec.FinalInvariant, Spec.Games, IsSolved, Decided;
      hide EveryInputAnswered, Located;
      LedgerValid(s, ledger);
      hide CompositionMt.Consistent;
      RunWorkers(workerCount, hardware);
      realizable := Epilogue();
    }

    // The whole run with synthesis requested.  With invariants only, an input they leave without an
    // output makes the search for a transition abort.
    method RunAndSynthesize(workerCount: int, hardware: nat, no: nat) returns (controller: Option<Circuit>)
      requires Consistent(-1) && !losing && workers == [] && pendingJobs != [] && 1 <= hardware
      requires AllHaveWidth(s.outs, no)
      requires s.Games() != {} || s.FinalInvariant() == {} || EveryInputAnswered(s.ins, s.outs, s.FinalInvariant())
      modifies this
      ensures controller.Some? <==> s.IsRealizable()
      ensures controller.Some? ==> s.Realizes(controller.value.Strat())
    {
      hide LedgerOk, Balanced, Spec.FinalInvariant, Spec.Games, IsSolved, Decided, EveryInputAnswered, Located;
      hide Spec.Realizes;
      LedgerValid(s, ledger);
      if s.Games() == {} {
        OnlyInvariantsVerdict(s);
      }
      hide CompositionMt.Consistent, AllHaveWidth, Spec.Valid, Spec.IsRealizable;
      var realizable := Run(workerCount, hardware);
      if !realizable {
        return None;
      }
      var c := BuildController(no);
      controller := Some(c);
    }
  }

  // A game solved under another invariant, or not at all, is solved once more under the final one.
  ghost predicate FinallySolved(s: Spec, game: SafetyGame, inv: set<Letter>, stored: Option<SafetyGame>) {
    && stored.Some?
    && if game.solved && game.under == inv then stored.value == game
       else && stored.value == game.(safe := stored.value.safe, solved := true, under := inv)
            && SolvedUnder(s, game, inv, stored.value.safe)
  }

  // A region closed under all invariants, of a game that stands for all formulas that became games.
  ghost predicate Decided(s: Spec, game: SafetyGame) {
    && s.Stands(game.aut, s.Games()) && IsSolved(s, game) && game.under == s.FinalInvariant()
    && game.threshold <= game.aut.Size()
    && AllInBox(game.safe.value, game.aut.Size(), game.threshold, s.K)
    && Contains(game.safe.value, InitVec(game.aut.Size(), game.aut.init))
  }

  // What stands in for the game when there are only invariants.
  function DummyAutomaton(letters: set<Letter>): Automaton {
    Automaton(0, [false], [[Edge(0, letters)]])
  }

  lemma {:induction false} DummyNeverVisits(letters: set<Letter>, w: seq<Letter>, r: seq<nat>)
    requires IsRun(DummyAutomaton(letters), w, r)
    ensures Visits(DummyAutomaton(letters), r) == 0
  {
    if w != [] {
      DummyNeverVisits(letters, w[..|w| - 1], r[..|w|]);
    }
  }

  lemma DummyStands(s: Spec)
    requires s.Valid()
    ensures s.Stands(DummyAutomaton(s.Letters()), {})
  {
    var aut := DummyAutomaton(s.Letters());
    forall w, r | IsRun(aut, w, r)
      ensures Visits(aut, r) == 0
    {
      DummyNeverVisits(s.Letters(), w, r);
    }
    hide IsRun, Visits, DummyAutomaton;
  }

  lemma DummyStays(letters: set<Letter>, l: Letter, K: int)
    requires 1 <= K
    ensures Contains([[0]], Forward([0], LetterAction(DummyAutomaton(letters), l), K))
  {
    var aut, v := DummyAutomaton(letters), [0];
    ForwardAlongLetter(aut, l, v, K, 0);
    assert Leq(Forward(v, LetterAction(aut, l), K), [[0]][0]);
  }

  // The region of the dummy game is closed when every input has an output.
  lemma DummyIsDecided(s: Spec, game: SafetyGame)
    requires s.Valid() && s.Games() == {}
    requires game == SafetyGame(DummyAutomaton(s.Letters()), 0, Some([[0]]), true, s.FinalInvariant())
    ensures EveryInputAnswered(s.ins, s.outs, s.FinalInvariant()) ==> Decided(s, game)
  {
    if EveryInputAnswered(s.ins, s.outs, s.FinalInvariant()) {
      var F, aut := [[0]], game.aut;
      var g := ArenaOf(aut, s.ins, s.outs, s.FinalInvariant());
      DummyStands(s);
      assert Leq(InitVec(1, 0), F[0]);
      hide Forward, LetterAction, Spec.Valid, Spec.Stands, Spec.FinalInvariant;
      forall A | A in g
        ensures !Loses(A, F, F[0], s.K)
      {
        var i :| i in s.ins && A == Moves(aut, s.outs, s.FinalInvariant(), i);
        assert HasAnswer(s.outs, s.FinalInvariant(), i);
        var o :| o in s.outs && Letter(i, o) in s.FinalInvariant();
        DummyStays(s.Letters(), Letter(i, o), s.K);
        assert LetterAction(aut, Letter(i, o)) in A;
      }
      assert Answered(g, F, F[0], s.K);
      GeneratorsSuffice(g, F, 1, 0, s.K);
    }
  }

  // The final region is nonempty exactly when the formulas are realizable.
  lemma FinalVerdict(s: Spec, game: SafetyGame, roots: set<nat>, ids: set<nat>)
    requires s.Valid() && s.Games() <= ids && s.Stands(game.aut, ids)
    requires game.safe.Some? ==> GameOk(s, game, roots, ids) && game.solved && game.under == s.FinalInvariant()
    requires game.safe.None? ==> !SomeStrategy(game.aut, s.ins, s.outs, s.FinalInvariant(), s.K)
    ensures game.safe.Some? <==> s.IsRealizable()
    ensures game.safe.Some? ==> IsSolved(s, game) && (ids == s.Games() ==> Decided(s, game))
  {
    hide Spec.Valid, Spec.Games, Spec.Stands, Spec.IsRealizable, Spec.FinalInvariant, SomeStrategy, IsClosedDown;
    hide ArenaOf;
    hide Saturated, AllInBox, Contains, InitVec, Covers;
    WholeGame(s, game.aut, ids);
    if game.safe.Some? {
      SaturatedThreshold(game.aut, game.threshold, roots);
      SolvedWins(s, game, roots);
    }
  }

  lemma SolvedWins(s: Spec, game: SafetyGame, roots: set<nat>)
    requires s.Valid() && Ready(game, roots, s.ins, s.outs, s.FinalInvariant(), s.K) && IsSolved(s, game)
    ensures SomeStrategy(game.aut, s.ins, s.outs, game.under, s.K)
  {
    hide Saturated, AllInBox, Contains, InitVec, Covers, IsClosedDown, ArenaOf, SafeRegion, Spec.FinalInvariant;
    hide SomeStrategy;
    hide Spec.ValidFormula;
    SaturatedThreshold(game.aut, game.threshold, roots);
    ClosedIsRealizable(game.aut, game.threshold, s.ins, s.outs, game.under, game.safe.value, s.K);
  }

  lemma HeldKnown(jobs: map<nat, Job>, pending: seq<Job>, queue: seq<nat>, workers: seq<Worker>, held: seq<nat>, w: nat)
    requires Located(jobs, pending, queue, workers, held, -1) && w < |workers| && workers[w].Busy?
    ensures w < |held| && held[w] in jobs && jobs[held[w]] == workers[w].job
  {
    assert Holds(workers, w, -1);
  }

  lemma NothingOutstanding(jobs: map<nat, Job>, queue: seq<nat>, workers: seq<Worker>, held: seq<nat>)
    requires Located(jobs, [], queue, workers, held, -1) && forall w :: 0 <= w < |workers| ==> !workers[w].Busy?
    ensures jobs == map[]
  {
    forall t
      ensures t !in jobs
    {
      assert !HeldBySome(workers, held, -1, t);
    }
  }

  // Giving up is right: no strategy realizes the formulas, and with invariants only they contradict
  // each other.
  ghost predicate Hopeless(s: Spec) {
    !s.IsRealizable() && (s.Games() == {} ==> s.FinalInvariant() == {})
  }

  lemma SolvesNeedGames(s: Spec, L: Ledger, solves: nat, t: nat)
    requires LedgerOk(s, L) && Balanced(L, solves) && t in L.jobs && L.jobs[t].SolveJob?
    ensures s.Games() != {}
  {
    hide GamesOk, Spec.Valid, Spec.InvariantOf, Spec.IsGameFormula;
    assert t in L.SolveTickets();
    assert L.Converted() != {};
    var id :| id in L.Converted();
    assert PlaceOk(s, L, id);
    assert id in s.Games();
  }

  // The report is one that BeChild makes for the job of ticket t.
  ghost predicate FitsJob(s: Spec, L: Ledger, t: nat, x: Worker, r: Report) {
    x.Busy? &&
    match x.job
    case FormulaJob(f) => FormulaReport(s, f, r)
    case SolveJob(game) => t in L.roots && SolveReport(s, game, x.inv, L.roots[t], L.IdsOf(t), r)
  }

  // Reading a report without knowing which kind of job it answers.
  lemma ReportKind(s: Spec, L: Ledger, t: nat, x: Worker, r: Report)
    requires LedgerOk(s, L) && x.Busy? && t in L.jobs && L.jobs[t] == x.job && FitsJob(s, L, t, x, r)
    ensures r.GameReport? && r.game.safe.Some? && r.game.solved ==>
              x.job.SolveJob? && t in L.roots && GameOk(s, r.game, L.roots[t], L.IdsOf(t))
    ensures r.GameReport? && r.game.safe.Some? && !r.game.solved ==>
        x.job.FormulaJob? && s.IsGameFormula(x.job.f) && FormulaReport(s, x.job.f, r)
    ensures r.GameReport? && r.game.safe.None? ==> x.job.SolveJob? && !s.IsRealizable()
    ensures r.InvariantReport? ==> x.job.FormulaJob? && !s.IsGameFormula(x.job.f) && r.condition == s.Condition(x.job.f)
    ensures r.NullReport? ==> x.job.FormulaJob? && !s.IsGameFormula(x.job.f) && s.Letters() == s.Condition(x.job.f)
  {
    LedgerValid(s, L);
    match x.job
    case FormulaJob(f) =>
      FormulaJobKnown(s, L, t);
      hide LedgerOk, Spec.IsRealizable, LooksInvariant, LeavesOutside, Saturated, Spec.FinalInvariant, AllLetters;
      hide LastCond;
    case SolveJob(game) =>
      SolveJobKnown(s, L, t);
      hide LedgerOk, Spec.IsRealizable, Ready, Spec.Stands, IsSolved, SomeStrategy, Spec.FinalInvariant, Spec.Valid;
      if r.game.safe.None? {
        LosingPart(s, game.aut, L.IdsOf(t));
      }
  }

  lemma LedgerValid(s: Spec, L: Ledger)
    requires LedgerOk(s, L)
    ensures s.Valid() && L.next !in L.jobs
  {
    hide GamesOk, Spec.Valid, Spec.InvariantOf, Spec.IsGameFormula;
  }

  lemma StoredKnown(s: Spec, L: Ledger)
    requires LedgerOk(s, L) && L.stored.Some?
    ensures GameOk(s, L.stored.value, L.storedRoots, L.StoredIds()) && L.stored.value.solved
    ensures s.Stands(L.stored.value.aut, L.StoredIds()) && L.stored.value.safe.Some?
  {
    hide Accounted, Spec.Valid, Spec.InvariantOf, Spec.Stands, IsSolved, Saturated, AllInBox, Contains, Covers;
  }

  lemma NewGameOk(s: Spec, id: nat, game: SafetyGame)
    requires id < |s.formulas| && s.IsGameFormula(s.formulas[id]) && FormulaReport(s, s.formulas[id], GameReport(game))
    ensures GameOk(s, game, {}, {id})
  {
    hide Ready, Spec.Stands, IsSolved, LooksInvariant, Spec.FinalInvariant;
    StandsForOne(s, id);
  }

  // --- Only invariants ----------------------------------------------------------------------------------------------

  // Without any game nothing is solved, and the verdict only says that the invariants are satisfied
  // by some letter.  It is right exactly when they contradict each other outright or leave an output
  // for every input.
  lemma OnlyInvariantsVerdict(s: Spec)
    requires s.Valid() && s.Games() == {}
    ensures (s.FinalInvariant() != {} <==> s.IsRealizable()) <==>
              s.FinalInvariant() == {} || EveryInputAnswered(s.ins, s.outs, s.FinalInvariant())
  {
    OnlyInvariants(s);
    var i :| i in s.ins;
    hide Spec.IsRealizable, Spec.FinalInvariant, Spec.ValidFormula, Spec.Games;
    if EveryInputAnswered(s.ins, s.outs, s.FinalInvariant()) {
      assert HasAnswer(s.outs, s.FinalInvariant(), i);
    }
  }

  lemma MonitorLooksInvariant(c: set<Letter>, letters: set<Letter>)
    requires c <= letters
    ensures var aut := MonitorOf(c, letters);
            aut.Valid() && LooksInvariant(aut, letters) && LastCond(aut.out[aut.init], aut.init) == Some(c)
  {
    var aut := MonitorOf(c, letters);
    var es := aut.out[1];
    assert es[..1] == [Edge(1, c)];
    assert LastCond(es[..1], 1) == Some(c);
    assert LastCond(es, 1) == Some(c) && LastCond(es, 0) == Some(letters - c);
    assert letters - (letters - c) == c;
  }

  // One input, one output, and the formulas G(i -> o) and G(i -> !o).
  function Values(): set<Bits> {
    {[false], [true]}
  }

  function Demanding(o: bool): set<Letter> {
    set l | l in AllLetters(Values(), Values()) && (l.input == [true] ==> l.output == [o])
  }

  function Conflict(): Spec {
    var letters := AllLetters(Values(), Values());
    Spec([Translated(MonitorOf(Demanding(true), letters), 1), Translated(MonitorOf(Demanding(false), letters), 1)],
         Values(), Values(), 1)
  }

  // They are declared realizable although the input i has no answer.
  lemma ConflictMisjudged()
    ensures Conflict().Valid() && Conflict().Games() == {}
    ensures Conflict().FinalInvariant() != {} && !Conflict().IsRealizable()
  {
    var s, letters := Conflict(), AllLetters(Values(), Values());
    ConflictIsValid();
    hide Spec.IsRealizable, MonitorOf, LooksInvariant, LeavesOutside, LastCond, Saturated;
    OnlyInvariants(s);
    assert s.Condition(s.formulas[0]) == Demanding(true) && s.Condition(s.formulas[1]) == Demanding(false);
    var quiet := Letter([false], [false]);
    assert quiet in letters;
    assert quiet in s.FinalInvariant();
    assert !HasAnswer(s.outs, s.FinalInvariant(), [true]);
    assert [true] in s.ins;
  }

  lemma ConflictIsValid()
    ensures Conflict().Valid() && Conflict().Games() == {}
    ensures forall id :: 0 <= id < 2 ==>
              Conflict().IsInvariantFormula(Conflict().formulas[id]) &&
              Conflict().Condition(Conflict().formulas[id]) == Demanding(id == 0)
  {
    var s, letters := Conflict(), AllLetters(Values(), Values());
    hide MonitorOf, LooksInvariant, LeavesOutside, IsMonitor, LastCond, Saturated, AllLetters;
    forall id | 0 <= id < 2
      ensures s.IsInvariantFormula(s.formulas[id]) && s.Condition(s.formulas[id]) == Demanding(id == 0)
      ensures s.ValidFormula(s.formulas[id])
    {
      MonitorLooksInvariant(Demanding(id == 0), letters);
      MonitorOfIsMonitor(Demanding(id == 0), letters);
      RecognisedIsMonitor(MonitorOf(Demanding(id == 0), letters), letters, Demanding(id == 0));
    }
  }
}
