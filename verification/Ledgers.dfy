/**
  Bookkeeping for the master process: where every formula of the conjunction currently is.  A
  ledger is specification only; the scheduler carries one along to state what it never loses.
*/
module Ledgers {
  import opened Automata
  import opened Actioners
  import opened Composition
  import opened Jobs

  // A formula waits in a formula job, takes part in the game of a solve job, is part of the stored
  // result, or was absorbed as an invariant or a trivial formula.
  datatype Place = Waiting(ticket: nat) | InGame(ticket: nat) | Stored | Absorbed

  // Outstanding jobs by ticket, the roots of their games, and the place of every formula.
  datatype Ledger = Ledger(jobs: map<nat, Job>, roots: map<nat, set<nat>>, place: seq<Place>,
                           stored: Option<SafetyGame>, storedRoots: set<nat>, inv: set<Letter>, next: nat) {
    function IdsOf(t: nat): set<nat> {
      set id: nat | id < |place| && place[id] == InGame(t)
    }

    function StoredIds(): set<nat> {
      set id: nat | id < |place| && place[id] == Stored
    }

    function AbsorbedIds(): set<nat> {
      set id: nat | id < |place| && place[id] == Absorbed
    }

    // Formulas that have become games.
    function Converted(): set<nat> {
      set id: nat | id < |place| && (place[id].InGame? || place[id].Stored?)
    }

    function SolveTickets(): set<nat> {
      set t | t in jobs && jobs[t].SolveJob?
    }

    function FormulaTickets(): set<nat> {
      set t | t in jobs && jobs[t].FormulaJob?
    }

    function Kept(): nat {
      if stored.Some? then 1 else 0
    }

    // Strictly smaller after every report.
    function Work(): nat {
      3 * |FormulaTickets()| + 2 * |SolveTickets()| + Kept()
    }
  }

  // Every formula is in exactly one place, and that place is what it says.
  ghost predicate PlaceOk(s: Spec, L: Ledger, id: nat)
    requires id < |L.place| == |s.formulas|
  {
    match L.place[id]
    case Waiting(t) => t in L.jobs && L.jobs[t] == FormulaJob(s.formulas[id])
    case InGame(t) => t in L.jobs && L.jobs[t].SolveJob? && s.IsGameFormula(s.formulas[id])
    case Stored => L.stored.Some? && s.IsGameFormula(s.formulas[id])
    case Absorbed => !s.IsGameFormula(s.formulas[id])
  }

  ghost predicate Accounted(s: Spec, L: Ledger) {
    && |L.place| == |s.formulas|
    && (forall id :: 0 <= id < |L.place| ==> PlaceOk(s, L, id))
    && (forall t :: t in L.jobs ==> t < L.next)
    && (forall t :: t in L.jobs && L.jobs[t].FormulaJob? ==> HasOwner(L, t))
    && OneEach(L)
  }

  ghost predicate HasOwner(L: Ledger, t: nat) {
    exists id: nat :: id < |L.place| && L.place[id] == Waiting(t)
  }

  // No two formulas wait in the same job.
  ghost predicate OneEach(L: Ledger) {
    forall id: nat, id': nat ::
      id < |L.place| && id' < |L.place| && L.place[id].Waiting? && L.place[id'] == L.place[id] ==> id == id'
  }

  ghost predicate TicketOk(s: Spec, L: Ledger, t: nat) {
    t in L.jobs && L.jobs[t].SolveJob? ==> t in L.roots && GameOk(s, L.jobs[t].game, L.roots[t], L.IdsOf(t))
  }

  ghost predicate GamesOk(s: Spec, L: Ledger) {
    && (forall t :: t in L.jobs ==> TicketOk(s, L, t))
    && (L.stored.Some? ==> L.stored.value.solved && GameOk(s, L.stored.value, L.storedRoots, L.StoredIds()))
  }

  ghost predicate LedgerOk(s: Spec, L: Ledger) {
    s.Valid() && Accounted(s, L) && GamesOk(s, L) && L.inv == s.InvariantOf(L.AbsorbedIds())
  }

  // --- Reports -------------------------------------------------------------------------------------------

  ghost function Absorb(L: Ledger, t: nat, id: nat, inv: set<Letter>): Ledger
    requires id < |L.place|
  {
    L.(jobs := L.jobs - {t}, place := L.place[id := Absorbed], inv := inv)
  }

  ghost function Convert(L: Ledger, t: nat, id: nat, game: SafetyGame): Ledger
    requires id < |L.place|
  {
    L.(jobs := (L.jobs - {t})[L.next := SolveJob(game)], roots := L.roots[L.next := {}],
       place := L.place[id := InGame(L.next)], next := L.next + 1)
  }

  // The formulas of job t, and with `both` also those of the stored result, move on.
  ghost function Moved(place: seq<Place>, t: nat, both: bool, to: Place): seq<Place> {
    seq(|place|, id requires 0 <= id < |place| =>
          if place[id] == InGame(t) || (both && place[id] == Stored) then to else place[id])
  }

  ghost function Store(L: Ledger, t: nat, game: SafetyGame): Ledger
    requires t in L.roots
  {
    L.(jobs := L.jobs - {t}, place := Moved(L.place, t, false, Stored), stored := Some(game), storedRoots := L.roots[t])
  }

  ghost function MergeIn(L: Ledger, t: nat, game: SafetyGame, roots: set<nat>): Ledger {
    L.(jobs := (L.jobs - {t})[L.next := SolveJob(game)], roots := L.roots[L.next := roots],
       place := Moved(L.place, t, true, InGame(L.next)), stored := None, next := L.next + 1)
  }

  // --- Accounting is kept ------------------------------------------------------------------------------------

  lemma AbsorbAccounts(s: Spec, L: Ledger, t: nat, id: nat, inv: set<Letter>)
    requires Accounted(s, L) && id < |L.place| && L.place[id] == Waiting(t) && !s.IsGameFormula(s.formulas[id])
    ensures Accounted(s, Absorb(L, t, id, inv))
  {
    var L' := Absorb(L, t, id, inv);
    hide Spec.IsGameFormula;
    assert PlaceOk(s, L, id);
    forall x: nat | x < |L'.place|
      ensures PlaceOk(s, L', x)
    {
      assert PlaceOk(s, L, x);
    }
    forall u | u in L'.jobs && L'.jobs[u].FormulaJob?
      ensures HasOwner(L', u)
    {
      assert HasOwner(L, u);
      var x: nat :| x < |L.place| && L.place[x] == Waiting(u);
      assert L'.place[x] == Waiting(u);
    }
  }

  lemma ConvertAccounts(s: Spec, L: Ledger, t: nat, id: nat, game: SafetyGame)
    requires Accounted(s, L) && id < |L.place| && L.place[id] == Waiting(t) && s.IsGameFormula(s.formulas[id])
    ensures Accounted(s, Convert(L, t, id, game))
  {
    var L' := Convert(L, t, id, game);
    hide Spec.IsGameFormula;
    assert PlaceOk(s, L, id);
    forall x: nat | x < |L'.place|
      ensures PlaceOk(s, L', x)
    {
      assert PlaceOk(s, L, x);
    }
    forall u | u in L'.jobs && L'.jobs[u].FormulaJob?
      ensures HasOwner(L', u)
    {
      assert HasOwner(L, u);
      var x: nat :| x < |L.place| && L.place[x] == Waiting(u);
      assert L'.place[x] == Waiting(u);
    }
  }

  lemma StoreAccounts(s: Spec, L: Ledger, t: nat, game: SafetyGame)
    requires Accounted(s, L) && t in L.jobs && L.jobs[t].SolveJob? && t in L.roots
    ensures Accounted(s, Store(L, t, game))
  {
    var L' := Store(L, t, game);
    hide Spec.IsGameFormula;
    forall x: nat | x < |L'.place|
      ensures PlaceOk(s, L', x)
    {
      assert PlaceOk(s, L, x);
    }
    forall u | u in L'.jobs && L'.jobs[u].FormulaJob?
      ensures HasOwner(L', u)
    {
      assert HasOwner(L, u);
      var x: nat :| x < |L.place| && L.place[x] == Waiting(u);
      assert L'.place[x] == Waiting(u);
    }
  }

  lemma MergeAccounts(s: Spec, L: Ledger, t: nat, game: SafetyGame, roots: set<nat>)
    requires Accounted(s, L) && t in L.jobs && L.jobs[t].SolveJob?
    ensures Accounted(s, MergeIn(L, t, game, roots))
  {
    var L' := MergeIn(L, t, game, roots);
    hide Spec.IsGameFormula;
    forall x: nat | x < |L'.place|
      ensures PlaceOk(s, L', x)
    {
      assert PlaceOk(s, L, x);
    }
    forall u | u in L'.jobs && L'.jobs[u].FormulaJob?
      ensures HasOwner(L', u)
    {
      assert HasOwner(L, u);
      var x: nat :| x < |L.place| && L.place[x] == Waiting(u);
      assert L'.place[x] == Waiting(u);
    }
  }

  // --- Games stay good --------------------------------------------------------------------------------------

  lemma NewTicketUnused(s: Spec, L: Ledger)
    requires Accounted(s, L)
    ensures L.next !in L.jobs && L.IdsOf(L.next) == {}
  {
    hide Spec.IsGameFormula;
    forall id: nat | id < |L.place|
      ensures L.place[id] != InGame(L.next)
    {
      assert PlaceOk(s, L, id);
    }
  }

  lemma AbsorbGames(s: Spec, L: Ledger, t: nat, id: nat, inv: set<Letter>)
    requires Accounted(s, L) && GamesOk(s, L) && id < |L.place| && L.place[id] == Waiting(t)
    ensures GamesOk(s, Absorb(L, t, id, inv))
  {
    var L' := Absorb(L, t, id, inv);
    hide GameOk, Accounted;
    assert L'.StoredIds() == L.StoredIds();
    forall u | u in L'.jobs
      ensures TicketOk(s, L', u)
    {
      assert TicketOk(s, L, u);
      assert L'.IdsOf(u) == L.IdsOf(u);
    }
  }

  lemma ConvertGames(s: Spec, L: Ledger, t: nat, id: nat, game: SafetyGame)
    requires Accounted(s, L) && GamesOk(s, L) && id < |L.place| && L.place[id] == Waiting(t)
    requires GameOk(s, game, {}, {id})
    ensures GamesOk(s, Convert(L, t, id, game))
  {
    var L' := Convert(L, t, id, game);
    NewTicketUnused(s, L);
    hide GameOk, Accounted;
    assert L'.StoredIds() == L.StoredIds();
    forall u | u in L'.jobs
      ensures TicketOk(s, L', u)
    {
      if u == L.next {
        IdsOfNew(L, L', id);
      } else {
        assert TicketOk(s, L, u);
        assert L'.IdsOf(u) == L.IdsOf(u);
      }
    }
  }

  lemma IdsOfNew(L: Ledger, L': Ledger, id: nat)
    requires L.IdsOf(L.next) == {} && id < |L.place| && L'.place == L.place[id := InGame(L.next)]
    ensures L'.IdsOf(L.next) == {id}
  {
    forall x: nat | x in L'.IdsOf(L.next)
      ensures x == id
    {
      assert x !in L.IdsOf(L.next);
    }
    assert id in L'.IdsOf(L.next);
  }

  lemma NothingStored(s: Spec, L: Ledger)
    requires Accounted(s, L) && L.stored.None?
    ensures L.StoredIds() == {}
  {
    hide Spec.IsGameFormula;
    forall id: nat | id < |L.place|
      ensures L.place[id] != Stored
    {
      assert PlaceOk(s, L, id);
    }
  }

  lemma StoreGames(s: Spec, L: Ledger, t: nat, game: SafetyGame)
    requires Accounted(s, L) && GamesOk(s, L) && t in L.roots && L.stored.None?
    requires game.solved && GameOk(s, game, L.roots[t], L.IdsOf(t))
    ensures GamesOk(s, Store(L, t, game))
  {
    var L' := Store(L, t, game);
    NothingStored(s, L);
    hide GameOk, Accounted;
    StoredNow(L, L', t);
    forall u | u in L'.jobs
      ensures TicketOk(s, L', u)
    {
      assert TicketOk(s, L, u);
      assert L'.IdsOf(u) == L.IdsOf(u);
    }
  }

  lemma StoredNow(L: Ledger, L': Ledger, t: nat)
    requires L.StoredIds() == {} && L'.place == Moved(L.place, t, false, Stored)
    ensures L'.StoredIds() == L.IdsOf(t)
  {
    forall id: nat
      ensures id in L'.StoredIds() <==> id in L.IdsOf(t)
    {
      assert id !in L.StoredIds();
    }
  }

  lemma MergeGames(s: Spec, L: Ledger, t: nat, game: SafetyGame, roots: set<nat>)
    requires Accounted(s, L) && GamesOk(s, L) && GameOk(s, game, roots, L.IdsOf(t) + L.StoredIds())
    ensures GamesOk(s, MergeIn(L, t, game, roots))
  {
    var L' := MergeIn(L, t, game, roots);
    NewTicketUnused(s, L);
    hide GameOk, Accounted;
    forall u | u in L'.jobs
      ensures TicketOk(s, L', u)
    {
      if u == L.next {
        MergedNow(L, L', t);
      } else {
        assert TicketOk(s, L, u);
        assert L'.IdsOf(u) == L.IdsOf(u);
      }
    }
  }

  lemma MergedNow(L: Ledger, L': Ledger, t: nat)
    requires L.IdsOf(L.next) == {} && L'.place == Moved(L.place, t, true, InGame(L.next))
    ensures L'.IdsOf(L.next) == L.IdsOf(t) + L.StoredIds()
  {
    forall id: nat
      ensures id in L'.IdsOf(L.next) <==> id in L.IdsOf(t) + L.StoredIds()
    {
      assert id !in L.IdsOf(L.next);
    }
  }

  // --- The invariant is the conjunction of what was absorbed ----------------------------------------------------

  lemma AbsorbInvariant(s: Spec, L: Ledger, t: nat, id: nat)
    requires id < |L.place| == |s.formulas| && L.inv == s.InvariantOf(L.AbsorbedIds())
    ensures var inv := L.inv * s.Condition(s.formulas[id]);
            inv == s.InvariantOf(Absorb(L, t, id, inv).AbsorbedIds())
  {
    var L' := Absorb(L, t, id, L.inv * s.Condition(s.formulas[id]));
    assert L'.AbsorbedIds() == L.AbsorbedIds() + {id};
    hide AllLetters, Spec.Condition, Absorb;
  }

  // Formulas on their way from game to game leave what was absorbed alone.
  lemma MovedKeepsAbsorbed(L: Ledger, L': Ledger, t: nat, both: bool, to: Place)
    requires !to.Absorbed? && L'.place == Moved(L.place, t, both, to)
    ensures L'.AbsorbedIds() == L.AbsorbedIds()
  {
    forall id: nat
      ensures id in L'.AbsorbedIds() <==> id in L.AbsorbedIds()
    {
    }
  }

  lemma ConvertKeepsAbsorbed(L: Ledger, t: nat, id: nat, game: SafetyGame)
    requires id < |L.place| && L.place[id].Waiting?
    ensures Convert(L, t, id, game).AbsorbedIds() == L.AbsorbedIds()
  {
  }

  lemma WaitingJob(s: Spec, L: Ledger, t: nat, id: nat)
    requires Accounted(s, L) && id < |L.place| && L.place[id] == Waiting(t)
    ensures |L.place| == |s.formulas| && t in L.jobs && L.jobs[t].FormulaJob?
  {
    hide Spec.IsGameFormula;
    assert PlaceOk(s, L, id);
  }

  // --- Counting ---------------------------------------------------------------------------------------------------

  // After `solves` solver runs: each game formula needs one, and each merge one more.
  ghost predicate Balanced(L: Ledger, solves: nat) {
    solves == 2 * |L.Converted()| - 2 * |L.SolveTickets()| - L.Kept()
  }

  lemma AbsorbCounts(L: Ledger, t: nat, id: nat, inv: set<Letter>, solves: nat)
    requires id < |L.place| && L.place[id] == Waiting(t) && t in L.jobs && L.jobs[t].FormulaJob? && Balanced(L, solves)
    ensures Balanced(Absorb(L, t, id, inv), solves) && Absorb(L, t, id, inv).Work() < L.Work()
  {
    var L' := Absorb(L, t, id, inv);
    assert L'.Converted() == L.Converted();
    assert L'.SolveTickets() == L.SolveTickets();
    assert L'.FormulaTickets() == L.FormulaTickets() - {t};
  }

  lemma ConvertCounts(L: Ledger, t: nat, id: nat, game: SafetyGame, solves: nat)
    requires id < |L.place| && L.place[id] == Waiting(t) && t in L.jobs && L.jobs[t].FormulaJob? && Balanced(L, solves)
    requires L.next !in L.jobs
    ensures Balanced(Convert(L, t, id, game), solves) && Convert(L, t, id, game).Work() < L.Work()
  {
    var L' := Convert(L, t, id, game);
    assert L'.Converted() == L.Converted() + {id};
    assert L'.SolveTickets() == L.SolveTickets() + {L.next};
    assert L'.FormulaTickets() == L.FormulaTickets() - {t};
  }

  lemma StoreCounts(L: Ledger, t: nat, game: SafetyGame, solves: nat)
    requires t in L.jobs && L.jobs[t].SolveJob? && t in L.roots && L.stored.None? && Balanced(L, solves)
    ensures Balanced(Store(L, t, game), solves + 1) && Store(L, t, game).Work() < L.Work()
  {
    var L' := Store(L, t, game);
    assert L'.Converted() == L.Converted();
    assert L'.SolveTickets() == L.SolveTickets() - {t};
    assert L'.FormulaTickets() == L.FormulaTickets();
  }

  lemma MergeCounts(L: Ledger, t: nat, game: SafetyGame, roots: set<nat>, solves: nat)
    requires t in L.jobs && L.jobs[t].SolveJob? && L.stored.Some? && L.next !in L.jobs && Balanced(L, solves)
    ensures Balanced(MergeIn(L, t, game, roots), solves + 1) && MergeIn(L, t, game, roots).Work() < L.Work()
  {
    var L' := MergeIn(L, t, game, roots);
    assert L'.Converted() == L.Converted();
    assert L'.SolveTickets() == L.SolveTickets() - {t} + {L.next};
    assert L'.FormulaTickets() == L.FormulaTickets();
  }

  // --- All together -------------------------------------------------------------------------------------------------

  lemma AbsorbOk(s: Spec, L: Ledger, t: nat, id: nat, solves: nat)
    requires LedgerOk(s, L) && Balanced(L, solves) && id < |L.place| && L.place[id] == Waiting(t)
    requires !s.IsGameFormula(s.formulas[id])
    ensures var L' := Absorb(L, t, id, L.inv * s.Condition(s.formulas[id]));
            LedgerOk(s, L') && Balanced(L', solves) && L'.Work() < L.Work()
  {
    hide Accounted, GamesOk, Balanced, Spec.Valid, Spec.InvariantOf, Spec.IsGameFormula, Spec.Condition;
    hide Ledger.AbsorbedIds, Ledger.Work;
    WaitingJob(s, L, t, id);
    var inv := L.inv * s.Condition(s.formulas[id]);
    AbsorbAccounts(s, L, t, id, inv);
    AbsorbGames(s, L, t, id, inv);
    AbsorbInvariant(s, L, t, id);
    AbsorbCounts(L, t, id, inv, solves);
  }

  lemma ConvertOk(s: Spec, L: Ledger, t: nat, id: nat, game: SafetyGame, solves: nat)
    requires LedgerOk(s, L) && Balanced(L, solves) && id < |L.place| && L.place[id] == Waiting(t)
    requires s.IsGameFormula(s.formulas[id]) && GameOk(s, game, {}, {id})
    ensures var L' := Convert(L, t, id, game);
            LedgerOk(s, L') && Balanced(L', solves) && L'.Work() < L.Work()
  {
    hide Accounted, GamesOk, Balanced, Spec.Valid, Spec.InvariantOf, Spec.IsGameFormula, GameOk, Ledger.AbsorbedIds;
    hide Ledger.Work;
    WaitingJob(s, L, t, id);
    ConvertAccounts(s, L, t, id, game);
    ConvertGames(s, L, t, id, game);
    ConvertKeepsAbsorbed(L, t, id, game);
    NewTicketUnused(s, L);
    ConvertCounts(L, t, id, game, solves);
  }

  lemma StoreOk(s: Spec, L: Ledger, t: nat, game: SafetyGame, solves: nat)
    requires LedgerOk(s, L) && Balanced(L, solves) && t in L.jobs && L.jobs[t].SolveJob? && t in L.roots &&
        L.stored.None?
    requires game.solved && GameOk(s, game, L.roots[t], L.IdsOf(t))
    ensures LedgerOk(s, Store(L, t, game)) && Balanced(Store(L, t, game), solves + 1) &&
        Store(L, t, game).Work() < L.Work()
  {
    hide Accounted, GamesOk, Balanced, Spec.Valid, Spec.InvariantOf, GameOk, Ledger.AbsorbedIds, Ledger.Work, Moved;
    StoreAccounts(s, L, t, game);
    StoreGames(s, L, t, game);
    MovedKeepsAbsorbed(L, Store(L, t, game), t, false, Stored);
    StoreCounts(L, t, game, solves);
  }

  lemma MergeOk(s: Spec, L: Ledger, t: nat, game: SafetyGame, roots: set<nat>, solves: nat)
    requires LedgerOk(s, L) && Balanced(L, solves) && t in L.jobs && L.jobs[t].SolveJob? && L.stored.Some?
    requires GameOk(s, game, roots, L.IdsOf(t) + L.StoredIds())
    ensures var L' := MergeIn(L, t, game, roots);
            LedgerOk(s, L') && Balanced(L', solves + 1) && L'.Work() < L.Work()
  {
    hide Accounted, GamesOk, Balanced, Spec.Valid, Spec.InvariantOf, GameOk, Ledger.AbsorbedIds, Ledger.Work, Moved;
    MergeAccounts(s, L, t, game, roots);
    MergeGames(s, L, t, game, roots);
    MovedKeepsAbsorbed(L, MergeIn(L, t, game, roots), t, true, InGame(L.next));
    NewTicketUnused(s, L);
    MergeCounts(L, t, game, roots, solves);
  }

  // --- The end -----------------------------------------------------------------------------------

  // When no job is outstanding every game formula is in the one stored result, which took 2g - 1
  // solver runs, and the invariant is complete.
  lemma AtTheEnd(s: Spec, L: Ledger, solves: nat)
    requires LedgerOk(s, L) && Balanced(L, solves) && L.jobs == map[]
    ensures L.StoredIds() == s.Games() == L.Converted()
    ensures s.Games() != {} ==> L.stored.Some? && solves == 2 * |s.Games()| - 1
    ensures s.Games() == {} ==> L.stored.None? && solves == 0
    ensures L.inv == s.FinalInvariant()
  {
    hide GamesOk, Spec.InvariantOf, Spec.IsGameFormula, Spec.FinalInvariant, Spec.ValidFormula;
    assert L.SolveTickets() == {};
    forall id: nat
      ensures id in L.StoredIds() <==> id in s.Games()
      ensures id in L.Converted() <==> id in s.Games()
      ensures id < |s.formulas| ==> id in L.AbsorbedIds() || s.IsGameFormula(s.formulas[id])
    {
      assert id < |L.place| ==> PlaceOk(s, L, id);
    }
    if s.Games() != {} {
      var id :| id in s.Games();
      assert id in L.StoredIds() && PlaceOk(s, L, id);
    }
    CompleteInvariant(s, L.AbsorbedIds());
  }
}
