/**
 Whole runs of engine operations: deletion and correction are permanent, and the indexes keep
 agreeing with the canonical table they speed up.
 */
module EngineRuns {
  import opened Records
  import opened VectorStore
  import opened OpLog
  import opened Canonical
  import opened Lexical
  import opened Surfaces
  import opened Deletion
  import opened Engine
  import opened Resolver

  datatype Step =
    | Write(rec: Record, gen: int, now: int, ticks: nat -> Attempt)
    | Update(id: Id, content: string, now: int, ticks: nat -> Attempt)
    | Correct(oldId: Id, rec: Record, rel: Relation, now: int, env: PurgeEnv, ticks: nat -> Attempt)
    | Merge(primary: Id, dups: seq<Id>, now: int, env: PurgeEnv)
    | Delete(id: Id, mode: Mode, dependents: bool, jobId: nat, now: int, envs: nat -> PurgeEnv)
    | RetryDeletion(jobId: nat, mode: Mode, now: int, envs: nat -> PurgeEnv)
    | Reindex(gen: int, ids: seq<Id>, ticks: nat -> Attempt)
    | Promote(gen: int)
    | Migrate(gen: int, ids: seq<Id>, ticks: nat -> Attempt)
    | PatchStatus(id: Id, status: Status, now: int)
    | Link(parent: Id, child: Id, rel: Relation)
    | PutArtifact(id: Id, blob: string)
    | RebuildLexical
    | Disturb(fts: Postings, coord: Coord)

  /**
   One operation. Disturb stands for anything other writers, crashes or a rebuilt backend may
   do to the indexes and the log; Migrate is reindex and promote with nothing in between.
   */
  ghost function Apply(s: Setup, w: World, st: Step): World {
    match st
    case Write(rec, gen, now, ticks) => MemoryWritten(s, w, rec, gen, now, ticks)
    case Update(id, content, now, ticks) =>
      var r := ContentUpdated(s, w, id, content, now, ticks);
      if r.Some? then r.value else w
    case Correct(oldId, rec, rel, now, env, ticks) => Corrected(s, w, oldId, rec, rel, now, env, ticks).0
    case Merge(primary, dups, now, env) => RecordsMerged(s, w, primary, dups, now, env).0
    case Delete(id, mode, dependents, jobId, now, envs) => AfterDeletion(s, w, id, mode, dependents, jobId, envs, now)
    case RetryDeletion(jobId, mode, now, envs) =>
      var r := DeletionRetried(s, w, jobId, mode, envs, now);
      if r.Some? then r.value else w
    case Reindex(gen, ids, ticks) => Reindexed(s, w, gen, ids, ticks)
    case Promote(gen) => w.(generation := gen)
    case Migrate(gen, ids, ticks) => Reindexed(s, w, gen, ids, ticks).(generation := gen)
    case PatchStatus(id, status, now) => w.(canon := WithStatus(w.canon, id, status, now))
    case Link(parent, child, rel) =>
      if CanLink(w.canon, parent, child) then w.(canon := Linked(w.canon, Edge(parent, child, rel))) else w
    case PutArtifact(id, blob) =>
      w.(artifacts := w.artifacts[id := (if id in w.artifacts then w.artifacts[id] else []) + [blob]])
    case RebuildLexical => w.(fts := Rebuilt(w.canon))
    case Disturb(fts, coord) => w.(fts := fts, coord := coord)
  }

  ghost function RunAll(s: Setup, w: World, steps: seq<Step>): World {
    if |steps| == 0 then w else Apply(s, RunAll(s, w, steps[..|steps| - 1]), steps[|steps| - 1])
  }

  // ---- canonical effects ----

  /** The operation stores a record under this id, which a caller may choose. */
  predicate Reuses(st: Step, id: Id) {
    (st.Write? || st.Correct?) && st.rec.id == id
  }

  /**
   The operation gives the id an active row: by patching the status of the row it has, or by
   storing a record under it. A correction of an id by itself ends superseded.
   */
  predicate Revives(c: Canon, st: Step, id: Id) {
    match st
    case PatchStatus(i, status, now) => i == id && id in c.records && IsActive(status)
    case Write(rec, gen, now, ticks) => rec.id == id && IsActive(rec.status)
    case Correct(oldId, rec, rel, now, env, ticks) => rec.id == id != oldId && IsActive(rec.status)
    case _ => false
  }

  /** A duplicate that a merge took: superseded, and linked below the primary. */
  predicate MergedAway(c: Canon, r: Canon, primary: Id, i: Id) {
    && i != primary && i !in c.tombs
    && i in r.records && r.records[i].status == Superseded
    && Edge(primary, i, Supersedes) in r.deps
  }

  /** Marks change statuses to SUPERSEDED and add edges; nothing else. */
  ghost predicate OnlyMarks(c: Canon, r: Canon) {
    && r.tombs == c.tombs && r.records.Keys == c.records.Keys && c.deps <= r.deps
    && (Keyed(c) ==> Keyed(r))
    && (forall i :: i in c.records ==>
          || r.records[i] == c.records[i]
          || (r.records[i].status == Superseded && r.records[i].content == c.records[i].content))
  }

  lemma {:induction false} MergeOnlyMarks(c: Canon, primary: Id, dups: seq<Id>, n: nat, now: int)
    requires n <= |dups|
    ensures OnlyMarks(c, MergeMarks(c, primary, dups, n, now).0)
  {
    if n > 0 {
      MergeOnlyMarks(c, primary, dups, n - 1, now);
      var d := dups[n - 1];
      OnlyMarksOne(c, MergeMarks(c, primary, dups, n - 1, now).0, d, Edge(primary, d, Supersedes), now);
    }
  }

  lemma {:induction false} MergeMarksEffect(c: Canon, primary: Id, dups: seq<Id>, n: nat, now: int)
    requires n <= |dups|
    ensures var (r, removed, ok) := MergeMarks(c, primary, dups, n, now);
            && OnlyMarks(c, r)
            && (forall i :: i in removed ==> MergedAway(c, r, primary, i) && i in dups[..n])
            && (forall i :: i in c.records && i !in dups[..n] ==> r.records[i] == c.records[i])
            && (primary in c.records ==> r.records[primary] == c.records[primary])
  {
    MergeOnlyMarks(c, primary, dups, n, now);
    if n > 0 {
      MergeMarksEffect(c, primary, dups, n - 1, now);
      hide OnlyMarks, Keyed;
      assert dups[..n] == dups[..n - 1] + [dups[n - 1]];
    }
  }

  lemma OnlyMarksOne(c: Canon, before: Canon, d: Id, e: Edge, now: int)
    requires OnlyMarks(c, before)
    ensures OnlyMarks(c, WithStatus(before, d, Superseded, now))
    ensures OnlyMarks(c, Linked(WithStatus(before, d, Superseded, now), e))
  {
  }

  lemma PurgeKeepsCanon(s: Setup, w: World, ids: set<Id>, env: PurgeEnv)
    ensures Purge(s, w, ids, env).0.canon == w.canon && Purge(s, w, ids, env).0.generation == w.generation
  {
  }

  /** The canonical table of a deletion, from the flow's own guarantees. */
  lemma DeletionCanon(s: Setup, w: World, ids: set<Id>, mode: Mode, envs: nat -> PurgeEnv, now: int)
    requires ids <= w.canon.tombs.Keys && ids != {}
    ensures OthersUntouched(w.canon, PurgeAndVerify(s, w, ids, mode, envs, 0, now).canon, ids)
    ensures PurgeAndVerify(s, w, ids, mode, envs, 0, now).generation == w.generation
  {
    var k := FlowOutcome(s, w, ids, mode, envs, 0, now);
  }

  /** What every operation, with whatever arguments and failures, does to one record. */
  ghost predicate Evolves(c: Canon, r: Canon, st: Step, i: Id) {
    && (i in c.tombs ==> i in r.tombs)
    && (i in c.records && i !in r.records ==> i in r.tombs)
    && (i in r.records && i !in c.records ==> Reuses(st, i))
    && (ActiveIn(r, i) && !ActiveIn(c, i) ==> Revives(c, st, i))
  }

  predicate ActiveIn(c: Canon, i: Id) {
    i in c.records && IsActive(c.records[i].status)
  }

  lemma MergeEvolves(s: Setup, w: World, st: Step)
    requires Keyed(w.canon) && st.Merge?
    ensures Keyed(Apply(s, w, st).canon)
    ensures forall i :: Evolves(w.canon, Apply(s, w, st).canon, st, i)
  {
    var (canon, removed, ok) := MergeMarks(w.canon, st.primary, st.dups, |st.dups|, st.now);
    MergeMarksEffect(w.canon, st.primary, st.dups, |st.dups|, st.now);
    PurgeKeepsCanon(s, w.(canon := canon), removed, st.env);
    assert Apply(s, w, st).canon == canon;
  }

  lemma CorrectEvolves(s: Setup, w: World, st: Step)
    requires Keyed(w.canon) && st.Correct?
    ensures Keyed(Apply(s, w, st).canon)
    ensures forall i :: Evolves(w.canon, Apply(s, w, st).canon, st, i)
  {
    hide PurgeVectors;
    var marked := WithStatus(Written(w.canon, st.rec, st.now), st.oldId, StatusAfter(st.rel), st.now);
    assert Apply(s, w, st).canon == marked
        || Apply(s, w, st).canon == Linked(marked, Edge(st.rec.id, st.oldId, st.rel));
  }

  lemma DeleteEvolves(s: Setup, w: World, st: Step)
    requires Keyed(w.canon) && st.Delete?
    ensures Keyed(Apply(s, w, st).canon)
    ensures forall i :: Evolves(w.canon, Apply(s, w, st).canon, st, i)
  {
    var ids := DeletionIds(w.canon, st.id, st.dependents);
    var marked := AllTombstoned(w.canon, ids, st.mode, st.jobId, st.now);
    DeletionCanon(s, w.(canon := marked), ids, st.mode, st.envs, st.now);
    TombstonedEvolves(w.canon, marked, Apply(s, w, st).canon, ids, st);
  }

  lemma TombstonedEvolves(c: Canon, marked: Canon, r: Canon, ids: set<Id>, st: Step)
    requires Keyed(c) && st.Delete? && marked == AllTombstoned(c, ids, st.mode, st.jobId, st.now)
    requires OthersUntouched(marked, r, ids)
    ensures Keyed(r)
    ensures forall i :: Evolves(c, r, st, i)
  {
  }

  lemma RetryEvolves(s: Setup, w: World, st: Step)
    requires Keyed(w.canon) && st.RetryDeletion?
    ensures Keyed(Apply(s, w, st).canon)
    ensures forall i :: Evolves(w.canon, Apply(s, w, st).canon, st, i)
  {
    if JobIds(w.canon, st.jobId) != {} {
      DeletionCanon(s, w, JobIds(w.canon, st.jobId), st.mode, st.envs, st.now);
    }
  }

  lemma OthersEvolve(s: Setup, w: World, st: Step)
    requires Keyed(w.canon) && !st.Merge? && !st.Correct? && !st.Delete? && !st.RetryDeletion?
    ensures Keyed(Apply(s, w, st).canon)
    ensures forall i :: Evolves(w.canon, Apply(s, w, st).canon, st, i)
  {
  }

  lemma CanonEvolves(s: Setup, w: World, st: Step)
    requires Keyed(w.canon)
    ensures Keyed(Apply(s, w, st).canon)
    ensures forall i :: Evolves(w.canon, Apply(s, w, st).canon, st, i)
  {
    match st
    case Merge(_, _, _, _) => MergeEvolves(s, w, st);
    case Correct(_, _, _, _, _, _) => CorrectEvolves(s, w, st);
    case Delete(_, _, _, _, _, _) => DeleteEvolves(s, w, st);
    case RetryDeletion(_, _, _, _) => RetryEvolves(s, w, st);
    case _ => OthersEvolve(s, w, st);
  }

  /** No operation drops an edge between two rows that stay. */
  lemma StepKeepsEdges(s: Setup, w: World, st: Step)
    requires Keyed(w.canon)
    ensures EdgesKept(w.canon, Apply(s, w, st).canon)
  {
    hide PurgeAndVerify, PurgeVectors, Drained;
    match st
    case Merge(primary, dups, now, env) =>
      MergeMarksEffect(w.canon, primary, dups, |dups|, now);
    case Delete(id, mode, dependents, jobId, now, envs) =>
      var ids := DeletionIds(w.canon, id, dependents);
      DeletionCanon(s, w.(canon := AllTombstoned(w.canon, ids, mode, jobId, now)), ids, mode, envs, now);
    case RetryDeletion(jobId, mode, now, envs) =>
      if JobIds(w.canon, jobId) != {} {
        DeletionCanon(s, w, JobIds(w.canon, jobId), mode, envs, now);
      }
    case _ =>
  }

  /** Both ends of the edge have their rows after every step. */
  ghost predicate EndsStay(s: Setup, w: World, steps: seq<Step>, e: Edge) {
    |steps| > 0 ==>
      && EndsStay(s, w, steps[..|steps| - 1], e)
      && e.parent in RunAll(s, w, steps).canon.records && e.child in RunAll(s, w, steps).canon.records
  }

  lemma {:induction false} EdgeStays(s: Setup, w: World, steps: seq<Step>, e: Edge)
    requires Keyed(w.canon) && e in w.canon.deps && EndsStay(s, w, steps, e)
    ensures e in RunAll(s, w, steps).canon.deps
  {
    hide Apply;
    if |steps| > 0 {
      var init := steps[..|steps| - 1];
      EdgeStays(s, w, init, e);
      TombstonesOnlyGrow(s, w, init);
      StepKeepsEdges(s, RunAll(s, w, init), steps[|steps| - 1]);
    }
  }

  // ---- deletion is permanent ----

  /** No operation, however it fails and whatever it is given, loses a tombstone. */
  lemma {:induction false} TombstonesOnlyGrow(s: Setup, w: World, steps: seq<Step>)
    requires Keyed(w.canon)
    ensures Keyed(RunAll(s, w, steps).canon)
    ensures w.canon.tombs.Keys <= RunAll(s, w, steps).canon.tombs.Keys
  {
    if |steps| > 0 {
      var before := RunAll(s, w, steps[..|steps| - 1]);
      TombstonesOnlyGrow(s, w, steps[..|steps| - 1]);
      CanonEvolves(s, before, steps[|steps| - 1]);
      forall i | i in w.canon.tombs
        ensures i in RunAll(s, w, steps).canon.tombs
      {
        assert Evolves(before.canon, RunAll(s, w, steps).canon, steps[|steps| - 1], i);
      }
    }
  }

  /** Once tombstoned, never recalled: after any run, for any candidates, in any list. */
  lemma DeletedIsNeverRecalled(
    s: Setup, w: World, steps: seq<Step>, id: Id, cs: seq<Candidate>, q: Request, cat: Category)
    requires Keyed(w.canon) && id in w.canon.tombs
    ensures !Told(RunAll(s, w, steps).canon, cs, q, cat, id)
  {
    var c := RunAll(s, w, steps).canon;
    TombstonesOnlyGrow(s, w, steps);
    if Told(c, cs, q, cat, id) {
      ToldIsRouted(c, cs, q, cat, id);
    }
  }

  /** One committed change of the canonical tables, by whichever writer. */
  datatype Commit =
    | Put(rec: Record, now: int)
    | Mark(id: Id, status: Status, now: int)
    | AddEdge(edge: Edge)
    | Bury(id: Id, mode: Mode, jobId: nat, state: DeletionState, now: int)
    | Progress(id: Id, state: DeletionState, at: Option<int>)
    | Erase(id: Id)

  function Committed(c: Canon, k: Commit): Canon {
    match k
    case Put(rec, now) => Written(c, rec, now)
    case Mark(id, status, now) => WithStatus(c, id, status, now)
    case AddEdge(e) => if CanLink(c, e.parent, e.child) then Linked(c, e) else c
    case Bury(id, mode, jobId, state, now) => Tombstoned(c, id, mode, jobId, state, now)
    case Progress(id, state, at) => WithTombState(c, id, state, at)
    case Erase(id) => Erased(c, id)
  }

  function AllCommitted(c: Canon, ks: seq<Commit>): Canon {
    if ks == [] then c else Committed(AllCommitted(c, ks[..|ks| - 1]), ks[|ks| - 1])
  }

  /** Recall between any two commits of any interleaved writers refuses a tombstoned id. */
  lemma {:induction false} DeletedUnderAnyInterleaving(
    c: Canon, ks: seq<Commit>, id: Id, cs: seq<Candidate>, q: Request, cat: Category)
    requires Keyed(c) && id in c.tombs
    ensures Keyed(AllCommitted(c, ks)) && id in AllCommitted(c, ks).tombs
    ensures !Told(AllCommitted(c, ks), cs, q, cat, id)
  {
    hide Told;
    if ks != [] {
      DeletedUnderAnyInterleaving(c, ks[..|ks| - 1], id, cs, q, cat);
    }
    if Told(AllCommitted(c, ks), cs, q, cat, id) {
      ToldIsRouted(AllCommitted(c, ks), cs, q, cat, id);
    }
  }

  // ---- what hard deletion promises ----

  lemma StoresItsRecord(s: Setup, w: World, st: Step)
    requires st.Write? || st.Correct?
    ensures st.rec.id in Apply(s, w, st).canon.records
    ensures Revives(w.canon, st, st.rec.id) ==> IsActive(Apply(s, w, st).canon.records[st.rec.id].status)
  {
    hide PurgeVectors, IndexedVia;
  }

  /** An erased row stays gone in one step exactly when the step does not store under its id. */
  lemma StaysErasedIff(s: Setup, w: World, st: Step, id: Id)
    requires Keyed(w.canon) && id in w.canon.tombs && id !in w.canon.records
    ensures id in Apply(s, w, st).canon.tombs
    ensures id !in Apply(s, w, st).canon.records <==> !Reuses(st, id)
  {
    hide Apply;
    CanonEvolves(s, w, st);
    assert Evolves(w.canon, Apply(s, w, st).canon, st, id);
    if Reuses(st, id) {
      StoresItsRecord(s, w, st);
    }
  }

  ghost predicate AlwaysErased(s: Setup, w: World, steps: seq<Step>, id: Id) {
    && id !in RunAll(s, w, steps).canon.records
    && (|steps| > 0 ==> AlwaysErased(s, w, steps[..|steps| - 1], id))
  }

  predicate NeverReused(steps: seq<Step>, id: Id) {
    |steps| > 0 ==> NeverReused(steps[..|steps| - 1], id) && !Reuses(steps[|steps| - 1], id)
  }

  /**
   A hard-deleted row stays gone throughout a run exactly when no step of it stores a record
   under that id; the tombstone, which `write` never consults, does not prevent it.
   */
  lemma {:induction false} HardDeletedStaysGoneIff(s: Setup, w: World, steps: seq<Step>, id: Id)
    requires Keyed(w.canon) && id in w.canon.tombs && id !in w.canon.records
    ensures AlwaysErased(s, w, steps, id) <==> NeverReused(steps, id)
  {
    hide Apply, Reuses;
    if |steps| > 0 {
      var init := steps[..|steps| - 1];
      HardDeletedStaysGoneIff(s, w, init, id);
      TombstonesOnlyGrow(s, w, init);
      if AlwaysErased(s, w, init, id) {
        StaysErasedIff(s, RunAll(s, w, init), steps[|steps| - 1], id);
      }
    }
  }

  /** What resurrection looks like: the row is back as written, and recall still refuses it. */
  lemma Resurrected(s: Setup, w: World, st: Step, cs: seq<Candidate>, q: Request, cat: Category)
    requires Keyed(w.canon) && st.Write? && st.rec.id in w.canon.tombs && st.rec.id !in w.canon.records
    ensures st.rec.id in Apply(s, w, st).canon.records
    ensures Apply(s, w, st).canon.records[st.rec.id] == st.rec.(updatedAt := st.now)
    ensures !Told(Apply(s, w, st).canon, cs, q, cat, st.rec.id)
  {
    var c := Apply(s, w, st).canon;
    StaysErasedIff(s, w, st, st.rec.id);
    assert c.records[st.rec.id] == st.rec.(updatedAt := st.now);
    if Told(c, cs, q, cat, st.rec.id) {
      ToldIsRouted(c, cs, q, cat, st.rec.id);
    }
  }

  // ---- correction is permanent ----

  /** Known to the store, and neither active nor able to become so by itself. */
  predicate Retired(c: Canon, id: Id) {
    if id in c.records then !IsActive(c.records[id].status) else id in c.tombs
  }

  /** One step leaves a retired record retired exactly when it does not revive it. */
  lemma StaysRetiredIff(s: Setup, w: World, st: Step, id: Id)
    requires Keyed(w.canon) && Retired(w.canon, id)
    ensures Retired(Apply(s, w, st).canon, id) <==> !Revives(w.canon, st, id)
  {
    hide Apply;
    CanonEvolves(s, w, st);
    assert Evolves(w.canon, Apply(s, w, st).canon, st, id);
    if Revives(w.canon, st, id) {
      if st.PatchStatus? {
        assert IsActive(Apply(s, w, st).canon.records[id].status) by {
          PatchSetsStatus(s, w, st);
        }
      } else {
        StoresItsRecord(s, w, st);
      }
    }
  }

  lemma PatchSetsStatus(s: Setup, w: World, st: Step)
    requires st.PatchStatus? && st.id in w.canon.records
    ensures st.id in Apply(s, w, st).canon.records && Apply(s, w, st).canon.records[st.id].status == st.status
  {
  }

  ghost predicate AlwaysRetired(s: Setup, w: World, steps: seq<Step>, id: Id) {
    && Retired(RunAll(s, w, steps).canon, id)
    && (|steps| > 0 ==> AlwaysRetired(s, w, steps[..|steps| - 1], id))
  }

  ghost predicate NeverRevived(s: Setup, w: World, steps: seq<Step>, id: Id) {
    |steps| > 0 ==>
      && NeverRevived(s, w, steps[..|steps| - 1], id)
      && !Revives(RunAll(s, w, steps[..|steps| - 1]).canon, steps[|steps| - 1], id)
  }

  /** A retired record stays retired throughout a run exactly when no step of it revives it. */
  lemma {:induction false} RetiredStaysRetiredIff(s: Setup, w: World, steps: seq<Step>, id: Id)
    requires Keyed(w.canon) && Retired(w.canon, id)
    ensures AlwaysRetired(s, w, steps, id) <==> NeverRevived(s, w, steps, id)
  {
    hide Apply, Retired, Revives;
    if |steps| > 0 {
      var init := steps[..|steps| - 1];
      RetiredStaysRetiredIff(s, w, init, id);
      TombstonesOnlyGrow(s, w, init);
      if AlwaysRetired(s, w, init, id) {
        StaysRetiredIff(s, RunAll(s, w, init), steps[|steps| - 1], id);
      }
    }
  }

  /** What a correction that completes leaves of the two records. */
  lemma CorrectionRetires(
    s: Setup, w: World, oldId: Id, rec: Record, rel: Relation, now: int, env: PurgeEnv, ticks: nat -> Attempt)
    requires Keyed(w.canon)
    ensures var (r, ok) := Corrected(s, w, oldId, rec, rel, now, env, ticks);
            && (ok <==> oldId in w.canon.records || oldId == rec.id)
            && (ok ==>
                  && Retired(r.canon, oldId)
                  && r.canon.records[oldId].status == (if rel == Supersedes then Superseded else Contradicted)
                  && Edge(rec.id, oldId, rel) in r.canon.deps)
            && (oldId != rec.id ==> rec.id in r.canon.records && r.canon.records[rec.id] == rec.(updatedAt := now))
  {
    hide PurgeVectors, IndexedVia;
  }

  lemma CorrectionStepRetires(s: Setup, w: World, st: Step)
    requires Keyed(w.canon) && st.Correct? && (st.oldId in w.canon.records || st.oldId == st.rec.id)
    ensures Keyed(Apply(s, w, st).canon) && Retired(Apply(s, w, st).canon, st.oldId)
    ensures Edge(st.rec.id, st.oldId, st.rel) in Apply(s, w, st).canon.deps
  {
    CanonEvolves(s, w, st);
    CorrectionRetires(s, w, st.oldId, st.rec, st.rel, st.now, st.env, st.ticks);
    hide Corrected;
  }

  lemma RetiredIsNoTruth(c: Canon, id: Id, cs: seq<Candidate>, q: Request, cat: Category)
    requires Keyed(c) && Retired(c, id) && Truth(cat)
    ensures !Told(c, cs, q, cat, id)
  {
    if Told(c, cs, q, cat, id) {
      TruthIsCurrent(c, cs, q, cat, id);
    }
  }

  /** The record that corrected another one still stands against it. */
  lemma ReplacementStands(
    c: Canon, newId: Id, oldId: Id, rel: Relation, cs: seq<Candidate>, q: Request, cat: Category)
    requires Keyed(c) && Truth(cat) && (rel == Supersedes || rel == Contradicts)
    requires Edge(newId, oldId, rel) in c.deps && Current(c, newId)
    ensures !Told(c, cs, q, cat, oldId)
  {
    assert rel == Supersedes ==> newId in SupersedersOf(c, oldId);
    assert rel == Contradicts ==> newId in ContradictorsOf(c, oldId);
    if Told(c, cs, q, cat, oldId) {
      TruthIsCurrent(c, cs, q, cat, oldId);
    }
  }

  /** What a correction relies on at the end of a run: the old row untouched, or the new one standing. */
  ghost predicate StillCorrected(s: Setup, corrected: World, steps: seq<Step>, oldId: Id, newId: Id, rel: Relation) {
    || NeverRevived(s, corrected, steps, oldId)
    || (&& (rel == Supersedes || rel == Contradicts)
        && EndsStay(s, corrected, steps, Edge(newId, oldId, rel))
        && Current(RunAll(s, corrected, steps).canon, newId))
  }

  /**
   Correction is permanent: once it completes, in every later state and for every candidate
   list, the old record is not told as truth, however confident or salient it was. For that to
   happen somebody has to revive it, and besides the new record has to be no longer current, or
   one of the two rows to have been erased in between.
   */
  lemma CorrectionIsPermanent(
    s: Setup, w: World, correction: Step, corrected: World, steps: seq<Step>, cs: seq<Candidate>, q: Request,
    cat: Category)
    requires Keyed(w.canon) && correction.Correct? && Truth(cat)
    requires correction.oldId in w.canon.records || correction.oldId == correction.rec.id
    requires corrected == Apply(s, w, correction)
    requires StillCorrected(s, corrected, steps, correction.oldId, correction.rec.id, correction.rel)
    ensures !Told(RunAll(s, corrected, steps).canon, cs, q, cat, correction.oldId)
  {
    hide Told, Apply, Retired;
    var oldId, newId, rel := correction.oldId, correction.rec.id, correction.rel;
    CorrectionStepRetires(s, w, correction);
    TombstonesOnlyGrow(s, corrected, steps);
    if NeverRevived(s, corrected, steps, oldId) {
      RetiredStaysRetiredIff(s, corrected, steps, oldId);
      RetiredIsNoTruth(RunAll(s, corrected, steps).canon, oldId, cs, q, cat);
    } else {
      EdgeStays(s, corrected, steps, Edge(newId, oldId, rel));
      ReplacementStands(RunAll(s, corrected, steps).canon, newId, oldId, rel, cs, q, cat);
    }
  }

  // ---- the indexes agree with the table ----

  /** Every index has this content, and this hash live in the active generation. */
  ghost predicate Found(s: Setup, w: World, id: Id, content: string, hash: string) {
    id in w.fts && w.fts[id] == content && ServedEverywhere(s, w.coord.idx, id, w.generation, hash)
  }

  ghost predicate Indexed(s: Setup, w: World, id: Id)
    requires id in w.canon.records
  {
    Found(s, w, id, w.canon.records[id].content, w.canon.records[id].contentHash)
  }

  /** Every current record is found under its current content in every index. */
  ghost predicate Coherent(s: Setup, w: World) {
    && Keyed(w.canon)
    && WellWired(s, w.coord.idx)
    && AllFinished(w.coord.log)
    && forall id :: Current(w.canon, id) ==> Indexed(s, w, id)
  }

  ghost predicate PurgeSmooth(env: PurgeEnv) {
    forall k :: AllComplete(env.ticks(k))
  }

  /** The handlers succeed, a reindex fits into one drain, and nobody else touches the indexes. */
  ghost predicate Smooth(s: Setup, st: Step) {
    match st
    case Write(rec, gen, now, ticks) => AllComplete(ticks)
    case Update(id, content, now, ticks) => AllComplete(ticks)
    case Correct(oldId, rec, rel, now, env, ticks) => PurgeSmooth(env) && AllComplete(ticks)
    case Merge(primary, dups, now, env) => PurgeSmooth(env)
    case Delete(id, mode, dependents, jobId, now, envs) => forall k: nat :: PurgeSmooth(envs(k))
    case RetryDeletion(jobId, mode, now, envs) => forall k: nat :: PurgeSmooth(envs(k))
    case Reindex(gen, ids, ticks) => AllComplete(ticks) && |ids| * |s.names| <= MAX_STEPS
    case Migrate(gen, ids, ticks) => AllComplete(ticks) && |ids| * |s.names| <= MAX_STEPS
    case Disturb(fts, coord) => false
    case _ => true
  }

  /** Storing this record makes it current. */
  predicate MakesCurrent(c: Canon, rec: Record) {
    IsActive(rec.status) && rec.id !in c.tombs
  }

  /** The generation serves every current record, those among `ids` aside. */
  ghost predicate ServesAllBut(s: Setup, w: World, gen: int, ids: seq<Id>) {
    forall id :: Current(w.canon, id) ==>
      id in ids || ServedEverywhere(s, w.coord.idx, id, gen, w.canon.records[id].contentHash)
  }

  /**
   What a caller can check before the operation, and what decides whether the indexes keep up
   with it:
   - a current record written into another generation is stored with that hash in the active one;
   - a correction of an id that is no record brings a record the indexes have already;
   - a status patch activates only a record that the indexes have as it is;
   - the promoted generation serves every current record, as reindexed if it was.
   */
  ghost predicate KeepsUp(s: Setup, w: World, st: Step) {
    match st
    case Write(rec, gen, now, ticks) =>
      gen != w.generation && MakesCurrent(w.canon, rec) ==>
        StoredEverywhere(s, w.coord.idx, rec.id, w.generation, rec.contentHash)
    case Correct(oldId, rec, rel, now, env, ticks) =>
      oldId !in w.canon.records && oldId != rec.id && MakesCurrent(w.canon, rec) ==>
        Found(s, w, rec.id, rec.content, rec.contentHash)
    case PatchStatus(id, status, now) =>
      IsActive(status) && id in w.canon.records && id !in w.canon.tombs ==> Indexed(s, w, id)
    case Promote(gen) => ServesAllBut(s, w, gen, [])
    case Migrate(gen, ids, ticks) => ServesAllBut(s, w, gen, ids)
    case _ => true
  }

  /** A write keeps the indexes coherent exactly when the active generation has its row then. */
  lemma WrittenCoherentIff(s: Setup, w: World, rec: Record, gen: int, now: int, ticks: nat -> Attempt)
    requires Keyed(w.canon) && WellWired(s, w.coord.idx) && AllFinished(w.coord.log) && AllComplete(ticks)
    requires forall id :: Current(w.canon, id) && id != rec.id ==> Indexed(s, w, id)
    ensures Coherent(s, MemoryWritten(s, w, rec, gen, now, ticks))
            <==> KeepsUp(s, w, Write(rec, gen, now, ticks))
  {
    var r := MemoryWritten(s, w, rec, gen, now, ticks);
    var written := r.canon.records[rec.id];
    WriteIsIndexed(s, w.coord, written, gen, ticks);
    hide IndexedVia;
    var row := VectorRow(written, gen);
    UpsertServes(s, w.coord.idx, r.coord.idx, row);
    UpsertServesIff(s, w.coord.idx, r.coord.idx, row, rec.id, w.generation, rec.contentHash);
    forall id | Current(r.canon, id) && id != rec.id
      ensures Indexed(s, r, id)
    {
      assert Current(w.canon, id);
    }
    assert Current(r.canon, rec.id) <==> MakesCurrent(w.canon, rec);
  }

  /** A purge disturbs no record outside the purged ids. */
  lemma PurgeCoherent(s: Setup, w: World, ids: set<Id>, env: PurgeEnv, except: set<Id>)
    requires Keyed(w.canon) && WellWired(s, w.coord.idx) && AllFinished(w.coord.log) && PurgeSmooth(env)
    requires ids <= except && forall id :: Current(w.canon, id) && id !in except ==> Indexed(s, w, id)
    ensures var r := Purge(s, w, ids, env).0;
            && r.canon == w.canon && r.generation == w.generation
            && WellWired(s, r.coord.idx) && AllFinished(r.coord.log)
            && forall id :: Current(r.canon, id) && id !in except ==> Indexed(s, r, id)
  {
    var r := Purge(s, w, ids, env).0;
    PurgeSucceeds(s, w, ids, env);
    PurgeKeepsCanon(s, w, ids, env);
    forall id | Current(r.canon, id) && id !in except
      ensures Indexed(s, r, id)
    {
      assert Indexed(s, w, id);
      RemoveServes(s, w.coord.idx, r.coord.idx, ids, id, w.generation, w.canon.records[id].contentHash);
    }
  }

  lemma CorrectedCoherent(
    s: Setup, w: World, oldId: Id, rec: Record, rel: Relation, now: int, env: PurgeEnv, ticks: nat -> Attempt)
    requires Coherent(s, w) && (oldId in w.canon.records || oldId == rec.id)
    requires PurgeSmooth(env) && AllComplete(ticks)
    ensures Coherent(s, Corrected(s, w, oldId, rec, rel, now, env, ticks).0)
  {
    hide PurgeVectors, IndexedVia;
    var written := Written(w.canon, rec, now).records[rec.id];
    var marked := WithStatus(Written(w.canon, rec, now), oldId, StatusAfter(rel), now);
    var linked := w.(canon := Linked(marked, Edge(rec.id, oldId, rel)), fts := w.fts[rec.id := written.content]);
    forall id | Current(linked.canon, id) && id !in {oldId, rec.id}
      ensures Indexed(s, linked, id)
    {
      assert Current(w.canon, id) && Indexed(s, w, id);
    }
    PurgeCoherent(s, linked, {oldId}, env, {oldId, rec.id});
    var purged := Purge(s, linked, {oldId}, env).0;
    assert purged.fts == linked.fts - {oldId};
    VectorsCatchUp(s, purged, oldId, written, ticks);
  }

  /** The last step of a correction: the new record's row reaches the vector stores. */
  lemma VectorsCatchUp(s: Setup, w: World, oldId: Id, rec: Record, ticks: nat -> Attempt)
    requires Keyed(w.canon) && WellWired(s, w.coord.idx) && AllFinished(w.coord.log) && AllComplete(ticks)
    requires !Current(w.canon, oldId)
    requires oldId != rec.id ==>
               && rec.id in w.canon.records && w.canon.records[rec.id] == rec
               && rec.id in w.fts && w.fts[rec.id] == rec.content
    requires forall id :: Current(w.canon, id) && id !in {oldId, rec.id} ==> Indexed(s, w, id)
    ensures Coherent(s, w.(coord := IndexedVia(s, w.coord, rec, w.generation, ticks)))
  {
    var r := w.(coord := IndexedVia(s, w.coord, rec, w.generation, ticks));
    WriteIsIndexed(s, w.coord, rec, w.generation, ticks);
    UpsertServes(s, w.coord.idx, r.coord.idx, VectorRow(rec, w.generation));
    hide IndexedVia;
    forall id | Current(r.canon, id)
      ensures Indexed(s, r, id)
    {
      if id != rec.id {
        assert Indexed(s, w, id);
      }
    }
  }

  /**
   A correction of what is no record stores the new belief and stops before indexing it, so
   the indexes keep up exactly when they have that record already.
   */
  lemma CorrectionCoherentIff(
    s: Setup, w: World, oldId: Id, rec: Record, rel: Relation, now: int, env: PurgeEnv, ticks: nat -> Attempt)
    requires Coherent(s, w) && PurgeSmooth(env) && AllComplete(ticks)
    ensures Coherent(s, Corrected(s, w, oldId, rec, rel, now, env, ticks).0)
            <==> KeepsUp(s, w, Correct(oldId, rec, rel, now, env, ticks))
  {
    if oldId in w.canon.records || oldId == rec.id {
      CorrectedCoherent(s, w, oldId, rec, rel, now, env, ticks);
    } else {
      var r := w.(canon := Written(w.canon, rec, now));
      assert r == Corrected(s, w, oldId, rec, rel, now, env, ticks).0;
      forall id | Current(r.canon, id) && id != rec.id
        ensures Indexed(s, r, id)
      {
        assert Current(w.canon, id) && Indexed(s, w, id);
      }
      assert Current(r.canon, rec.id) <==> MakesCurrent(w.canon, rec);
    }
  }

  lemma MergedCoherent(s: Setup, w: World, primary: Id, dups: seq<Id>, now: int, env: PurgeEnv)
    requires Coherent(s, w) && PurgeSmooth(env)
    ensures Coherent(s, RecordsMerged(s, w, primary, dups, now, env).0)
  {
    var (canon, removed, ok) := MergeMarks(w.canon, primary, dups, |dups|, now);
    MergeMarksEffect(w.canon, primary, dups, |dups|, now);
    var marked := w.(canon := canon);
    forall id | Current(marked.canon, id)
      ensures Current(w.canon, id) && Indexed(s, marked, id) && id !in removed
    {
      assert Indexed(s, w, id);
    }
    if ok && removed != {} {
      PurgeCoherent(s, marked, removed, env, removed);
    }
  }

  lemma AttemptCoherent(
    s: Setup, w: World, ids: set<Id>, mode: Mode, env: PurgeEnv, state: DeletionState, at: Option<int>)
    requires Coherent(s, w) && ids <= w.canon.tombs.Keys && PurgeSmooth(env)
    ensures Coherent(s, InState(Attempted(s, w, ids, mode, env).0, ids, state, at))
    ensures ids <= InState(Attempted(s, w, ids, mode, env).0, ids, state, at).canon.tombs.Keys
  {
    var deleting := InState(w, ids, IndexDeleting, None);
    forall id | Current(deleting.canon, id)
      ensures Indexed(s, deleting, id) && id !in ids
    {
      assert Current(w.canon, id) && Indexed(s, w, id);
    }
    PurgeCoherent(s, deleting, ids, env, ids);
    var purged := Purge(s, deleting, ids, env).0;
    var tried := Attempted(s, w, ids, mode, env).0;
    var r := InState(tried, ids, state, at);
    forall id | Current(r.canon, id)
      ensures Indexed(s, r, id)
    {
      assert Current(purged.canon, id) && Indexed(s, purged, id);
    }
  }

  lemma {:induction false} FlowCoherent(
    s: Setup, w: World, ids: set<Id>, mode: Mode, envs: nat -> PurgeEnv, attempt: nat, now: int)
    requires Coherent(s, w) && ids <= w.canon.tombs.Keys && attempt <= s.maxRetries
    requires forall k: nat :: PurgeSmooth(envs(k))
    ensures Coherent(s, PurgeAndVerify(s, w, ids, mode, envs, attempt, now))
    decreases s.maxRetries - attempt
  {
    hide Attempted;
    var (tried, verified) := Attempted(s, w, ids, mode, envs(attempt));
    if verified {
      AttemptCoherent(s, w, ids, mode, envs(attempt), Verified, Some(now));
    } else if attempt < s.maxRetries {
      AttemptCoherent(s, w, ids, mode, envs(attempt), PartiallyFailed, None);
      FlowCoherent(s, InState(tried, ids, PartiallyFailed, None), ids, mode, envs, attempt + 1, now);
    } else {
      AttemptCoherent(s, w, ids, mode, envs(attempt), ManualAttention, None);
    }
  }

  lemma DeletedCoherent(
    s: Setup, w: World, id: Id, mode: Mode, dependents: bool, jobId: nat, now: int, envs: nat -> PurgeEnv)
    requires Coherent(s, w) && forall k: nat :: PurgeSmooth(envs(k))
    ensures Coherent(s, AfterDeletion(s, w, id, mode, dependents, jobId, envs, now))
  {
    var ids := DeletionIds(w.canon, id, dependents);
    var marked := w.(canon := AllTombstoned(w.canon, ids, mode, jobId, now));
    forall i | Current(marked.canon, i)
      ensures Indexed(s, marked, i)
    {
      assert Current(w.canon, i) && Indexed(s, w, i);
    }
    FlowCoherent(s, marked, ids, mode, envs, 0, now);
  }

  // ---- reindexing ----

  /** Every record still served with its current hash, and the first `n` ids served in `gen`. */
  ghost predicate Refreshed(s: Setup, c: Canon, idx: Indexes, after: Indexes, gen: int, ids: seq<Id>, n: nat)
    requires n <= |ids|
  {
    && after.Keys == idx.Keys
    && (forall i, g :: i in c.records && ServedEverywhere(s, idx, i, g, c.records[i].contentHash)
          ==> ServedEverywhere(s, after, i, g, c.records[i].contentHash))
    && (forall k :: 0 <= k < n && ids[k] in c.records && ids[k] !in c.tombs
          ==> ServedEverywhere(s, after, ids[k], gen, c.records[ids[k]].contentHash))
    && (forall i, g, hash :: i !in ids[..n] && ServedEverywhere(s, after, i, g, hash)
          ==> ServedEverywhere(s, idx, i, g, hash))
  }

  lemma {:induction false} QueueReindex(s: Setup, c: Coord, canon: Canon, gen: int, ids: seq<Id>, n: nat)
    returns (after: Indexes)
    requires Keyed(canon) && WellWired(s, c.idx) && AllFinished(c.log) && n <= |ids|
    ensures Queued(ReindexOps(s, c, canon, gen, ids, n), |c.log|, after)
    ensures ReindexOps(s, c, canon, gen, ids, n).idx == c.idx
    ensures |ReindexOps(s, c, canon, gen, ids, n).log| <= |c.log| + n * |s.names|
    ensures Refreshed(s, canon, c.idx, after, gen, ids, n)
  {
    if n == 0 {
      after := c.idx;
    } else {
      var before := QueueReindex(s, c, canon, gen, ids, n - 1);
      var queued := ReindexOps(s, c, canon, gen, ids, n - 1);
      var id := ids[n - 1];
      assert n * |s.names| == (n - 1) * |s.names| + |s.names|;
      if id !in canon.records || id in canon.tombs {
        after := before;
      } else {
        var rec := canon.records[id];
        after := QueueUpserts(s, queued, |c.log|, before, rec, gen, |s.names|);
        RefreshOne(s, canon, c.idx, before, after, gen, ids, n);
      }
    }
  }

  lemma RefreshOne(s: Setup, c: Canon, idx: Indexes, before: Indexes, after: Indexes, gen: int, ids: seq<Id>, n: nat)
    requires 0 < n <= |ids| && Keyed(c) && ids[n - 1] in c.records
    requires Refreshed(s, c, idx, before, gen, ids, n - 1)
    requires UpsertedInto(s, before, after, VectorRow(c.records[ids[n - 1]], gen), |s.names|)
    ensures Refreshed(s, c, idx, after, gen, ids, n)
  {
    var row := VectorRow(c.records[ids[n - 1]], gen);
    UpsertServes(s, before, after, row);
    assert ids[..n] == ids[..n - 1] + [ids[n - 1]];
    forall i, g, hash | i !in ids[..n] && ServedEverywhere(s, after, i, g, hash)
      ensures ServedEverywhere(s, before, i, g, hash)
    {
      UpsertServesIff(s, before, after, row, i, g, hash);
    }
  }

  lemma ReindexedCoherent(s: Setup, w: World, gen: int, ids: seq<Id>, ticks: nat -> Attempt)
    requires Coherent(s, w) && AllComplete(ticks) && |ids| * |s.names| <= MAX_STEPS
    ensures Coherent(s, Reindexed(s, w, gen, ids, ticks))
    ensures var r := Reindexed(s, w, gen, ids, ticks);
            forall k :: 0 <= k < |ids| && ids[k] in w.canon.records && ids[k] !in w.canon.tombs
              ==> ServedEverywhere(s, r.coord.idx, ids[k], gen, w.canon.records[ids[k]].contentHash)
    ensures var r := Reindexed(s, w, gen, ids, ticks);
            forall id :: Current(w.canon, id) && id !in ids ==>
              (ServedEverywhere(s, r.coord.idx, id, gen, w.canon.records[id].contentHash)
               <==> ServedEverywhere(s, w.coord.idx, id, gen, w.canon.records[id].contentHash))
  {
    assert ids[..|ids|] == ids;
    var after := QueueReindex(s, w.coord, w.canon, gen, ids, |ids|);
    DrainQueue(s, ReindexOps(s, w.coord, w.canon, gen, ids, |ids|), |w.coord.log|, after, ticks);
    var r := Reindexed(s, w, gen, ids, ticks);
    forall id | Current(r.canon, id)
      ensures Indexed(s, r, id)
    {
      assert Indexed(s, w, id);
    }
  }

  /**
   Reindexing and promoting keeps the indexes coherent exactly when each current record was
   reindexed or served by that generation before.
   */
  lemma MigratedCoherentIff(s: Setup, w: World, gen: int, ids: seq<Id>, ticks: nat -> Attempt)
    requires Coherent(s, w) && AllComplete(ticks) && |ids| * |s.names| <= MAX_STEPS
    ensures Coherent(s, Reindexed(s, w, gen, ids, ticks).(generation := gen)) <==> ServesAllBut(s, w, gen, ids)
  {
    ReindexedCoherent(s, w, gen, ids, ticks);
    var reindexed := Reindexed(s, w, gen, ids, ticks);
    assert reindexed.canon == w.canon && reindexed.fts == w.fts;
    PromotedCoherentIff(s, reindexed, gen);
    hide Reindexed;
    forall id | Current(w.canon, id) && id in ids
      ensures ServedEverywhere(s, reindexed.coord.idx, id, gen, w.canon.records[id].contentHash)
    {
      var k :| 0 <= k < |ids| && ids[k] == id;
    }
  }

  lemma PromotedCoherentIff(s: Setup, w: World, gen: int)
    requires Coherent(s, w)
    ensures Coherent(s, w.(generation := gen)) <==> ServesAllBut(s, w, gen, [])
  {
    var r := w.(generation := gen);
    forall id | Current(w.canon, id)
      ensures Indexed(s, r, id) <==> ServedEverywhere(s, w.coord.idx, id, gen, w.canon.records[id].contentHash)
    {
      assert Indexed(s, w, id);
    }
  }

  lemma PatchedCoherentIff(s: Setup, w: World, id: Id, status: Status, now: int)
    requires Coherent(s, w)
    ensures Coherent(s, Apply(s, w, PatchStatus(id, status, now))) <==> KeepsUp(s, w, PatchStatus(id, status, now))
  {
    var r := Apply(s, w, PatchStatus(id, status, now));
    forall i | Current(r.canon, i) && i != id
      ensures Indexed(s, r, i)
    {
      assert Current(w.canon, i) && Indexed(s, w, i);
    }
    if id in w.canon.records {
      assert Indexed(s, r, id) <==> Indexed(s, w, id);
    }
  }

  lemma UpdatedCoherent(s: Setup, w: World, id: Id, content: string, now: int, ticks: nat -> Attempt)
    requires Coherent(s, w) && AllComplete(ticks)
    ensures Coherent(s, Apply(s, w, Update(id, content, now, ticks)))
  {
    if id in w.canon.records {
      var updated := w.canon.records[id].(content := content, contentHash := s.hash(content));
      var dropped := w.(fts := w.fts - {id});
      forall i | Current(dropped.canon, i) && i != updated.id
        ensures Indexed(s, dropped, i)
      {
        assert Indexed(s, w, i);
      }
      WrittenCoherentIff(s, dropped, updated, w.generation, now, ticks);
    }
  }

  lemma OthersCoherent(s: Setup, w: World, st: Step)
    requires Coherent(s, w) && (st.Link? || st.PutArtifact? || st.RebuildLexical?)
    ensures Coherent(s, Apply(s, w, st))
  {
    var r := Apply(s, w, st);
    forall id | Current(r.canon, id)
      ensures Indexed(s, r, id)
    {
      assert Current(w.canon, id) && Indexed(s, w, id);
    }
  }

  /** Each operation with succeeding handlers keeps coherence exactly when the indexes keep up. */
  lemma StepCoherentIff(s: Setup, w: World, st: Step, r: World)
    requires Coherent(s, w) && Smooth(s, st) && r == Apply(s, w, st)
    ensures Coherent(s, r) <==> KeepsUp(s, w, st)
  {
    hide Coherent, MemoryWritten, Corrected, Reindexed, PurgeAndVerify, RecordsMerged;
    match st
    case Write(rec, gen, now, ticks) =>
      assert Coherent(s, r) <==> KeepsUp(s, w, st) by {
        WriteStepIff(s, w, rec, gen, now, ticks);
      }
    case Update(id, content, now, ticks) => UpdatedCoherent(s, w, id, content, now, ticks);
    case Correct(oldId, rec, rel, now, env, ticks) => CorrectionCoherentIff(s, w, oldId, rec, rel, now, env, ticks);
    case Merge(primary, dups, now, env) => MergedCoherent(s, w, primary, dups, now, env);
    case Delete(id, mode, dependents, jobId, now, envs) =>
      DeletedCoherent(s, w, id, mode, dependents, jobId, now, envs);
    case RetryDeletion(jobId, mode, now, envs) => RetriedCoherent(s, w, jobId, mode, now, envs);
    case Reindex(gen, ids, ticks) => ReindexedCoherent(s, w, gen, ids, ticks);
    case Promote(gen) => PromotedCoherentIff(s, w, gen);
    case Migrate(gen, ids, ticks) => MigratedCoherentIff(s, w, gen, ids, ticks);
    case PatchStatus(id, status, now) => PatchedCoherentIff(s, w, id, status, now);
    case _ => OthersCoherent(s, w, st);
  }

  lemma WriteStepIff(s: Setup, w: World, rec: Record, gen: int, now: int, ticks: nat -> Attempt)
    requires Coherent(s, w) && AllComplete(ticks)
    ensures Coherent(s, MemoryWritten(s, w, rec, gen, now, ticks)) <==> KeepsUp(s, w, Write(rec, gen, now, ticks))
  {
    WrittenCoherentIff(s, w, rec, gen, now, ticks);
  }

  lemma RetriedCoherent(s: Setup, w: World, jobId: nat, mode: Mode, now: int, envs: nat -> PurgeEnv)
    requires Coherent(s, w) && forall k: nat :: PurgeSmooth(envs(k))
    ensures Coherent(s, Apply(s, w, RetryDeletion(jobId, mode, now, envs)))
  {
    hide PurgeAndVerify;
    if JobIds(w.canon, jobId) != {} {
      FlowCoherent(s, w, JobIds(w.canon, jobId), mode, envs, 0, now);
    }
  }

  /** Coherent at every moment of the run. */
  ghost predicate AlwaysCoherent(s: Setup, w: World, steps: seq<Step>) {
    && Coherent(s, RunAll(s, w, steps))
    && (|steps| > 0 ==> AlwaysCoherent(s, w, steps[..|steps| - 1]))
  }

  ghost predicate AlwaysKeepsUp(s: Setup, w: World, steps: seq<Step>) {
    |steps| > 0 ==>
      && AlwaysKeepsUp(s, w, steps[..|steps| - 1])
      && KeepsUp(s, RunAll(s, w, steps[..|steps| - 1]), steps[|steps| - 1])
  }

  /**
   Index coherence over runs, exactly: from any coherent state and with succeeding handlers,
   every current record is found in every index at every moment if and only if each operation
   met its condition when it started.
   */
  lemma {:induction false} CoherentRunsIff(s: Setup, w: World, steps: seq<Step>)
    requires Coherent(s, w) && forall k :: 0 <= k < |steps| ==> Smooth(s, steps[k])
    ensures AlwaysCoherent(s, w, steps) <==> AlwaysKeepsUp(s, w, steps)
  {
    hide Coherent, Apply, KeepsUp, Smooth;
    if |steps| > 0 {
      var init := steps[..|steps| - 1];
      CoherentRunsIff(s, w, init);
      if AlwaysCoherent(s, w, init) {
        StepCoherentIff(s, RunAll(s, w, init), steps[|steps| - 1], RunAll(s, w, steps));
      }
    }
  }

  /** What one store cannot return from the active generation is not indexed. */
  lemma NotLiveNotIndexed(s: Setup, w: World, id: Id, n: nat)
    requires id in w.canon.records && n < |s.names|
    requires s.names[n] in w.coord.idx && (id, w.generation) !in w.coord.idx[s.names[n]].byKey
    ensures id !in Live(w.coord.idx[s.names[n]], w.generation) && !Indexed(s, w, id)
    ensures Current(w.canon, id) ==> !Coherent(s, w)
  {
    ServesIsLive(w.coord.idx[s.names[n]], id, w.generation, w.canon.records[id].contentHash);
  }

  lemma WriteLeavesGeneration(s: Setup, w: World, rec: Record, gen: int, now: int, ticks: nat -> Attempt, n: nat)
    requires Coherent(s, w) && AllComplete(ticks) && MakesCurrent(w.canon, rec) && gen != w.generation
    requires n < |s.names| && s.names[n] in w.coord.idx && (rec.id, gen) !in w.coord.idx[s.names[n]].byKey
    ensures var r := MemoryWritten(s, w, rec, w.generation, now, ticks);
            && Current(r.canon, rec.id)
            && s.names[n] in r.coord.idx && (rec.id, gen) !in r.coord.idx[s.names[n]].byKey
  {
    WriteIsIndexed(s, w.coord, rec.(updatedAt := now), w.generation, ticks);
    hide IndexedVia, Indexed;
  }

  /** Promotion too early: a record just written is lost to a generation no store has it in. */
  lemma EarlyPromotionLosesRecord(
    s: Setup, w: World, rec: Record, gen: int, now: int, ticks: nat -> Attempt, n: nat, promoted: World)
    requires Coherent(s, w) && AllComplete(ticks) && MakesCurrent(w.canon, rec) && gen != w.generation
    requires n < |s.names| && s.names[n] in w.coord.idx && (rec.id, gen) !in w.coord.idx[s.names[n]].byKey
    requires promoted == Apply(s, Apply(s, w, Write(rec, w.generation, now, ticks)), Promote(gen))
    ensures Current(promoted.canon, rec.id) && s.names[n] in promoted.coord.idx
    ensures rec.id !in Live(promoted.coord.idx[s.names[n]], gen) && !Coherent(s, promoted)
  {
    hide Coherent, Live, MemoryWritten;
    var r := MemoryWritten(s, w, rec, w.generation, now, ticks);
    WriteLeavesGeneration(s, w, rec, gen, now, ticks, n);
    NotLiveNotIndexed(s, r.(generation := gen), rec.id, n);
  }

  /** A concrete one: a first write into generation 1, then promotion of generation 2. */
  lemma EarlyPromotionExample(hash: string -> string)
    ensures var s := Setup(Config(3, 100), ["hot"], hash, 3);
            var w := World(Canon(map[], {}, map[]), map[], Coord([], map["hot" := Index(map[], {})]), map[], 1);
            var rec := Record(7, Fact, Option.None, L1, "tea", "h", Active, Option.None, Option.None, Normal,
                              Option.None, Option.None, 0);
            var write := Write(rec, 1, 0, (k: nat) => Attempt(0, 0, Completes));
            && Coherent(s, w) && Coherent(s, RunAll(s, w, [write]))
            && !Coherent(s, RunAll(s, w, [write, Promote(2)]))
  {
    hide IndexedVia;
    var s := Setup(Config(3, 100), ["hot"], hash, 3);
    var w := World(Canon(map[], {}, map[]), map[], Coord([], map["hot" := Index(map[], {})]), map[], 1);
    var rec := Record(7, Fact, Option.None, L1, "tea", "h", Active, Option.None, Option.None, Normal,
                      Option.None, Option.None, 0);
    var ticks := (k: nat) => Attempt(0, 0, Completes);
    var write := Write(rec, 1, 0, ticks);
    assert Coherent(s, w);
    WriteStepIff(s, w, rec, 1, 0, ticks);
    assert s.names[0] == "hot";
    hide Coherent, MemoryWritten;
    var written := Apply(s, w, write);
    EarlyPromotionLosesRecord(s, w, rec, 2, 0, ticks, 0, Apply(s, written, Promote(2)));
    assert [write][..0] == [] && [write, Promote(2)][..1] == [write];
    assert RunAll(s, w, [write]) == written;
    assert RunAll(s, w, [write, Promote(2)]) == Apply(s, written, Promote(2));
  }
}
