/**
 Convergence: with handlers that fail or raise at will, drains that run out of steps, crashes and
 manual retries in between, the log keeps everything that the indexes still owe. Whenever all of
 it is DONE, every current record is found in every index, as if nothing had ever failed.
 */
module EngineConvergence {
  import opened Records
  import opened VectorStore
  import opened OpLog
  import opened CoordinatorRuns
  import opened Canonical
  import opened Lexical
  import opened Surfaces
  import opened Deletion
  import opened Engine
  import opened Resolver
  import opened EngineRuns

  // ---- what the log promises ----

  /** The indexes once everything logged is applied, in log order. */
  function EndOf(c: Coord, idx0: Indexes): Indexes {
    AppliedFrom(c.log, 0, idx0)
  }

  /** The state as it will be then, if nothing else happens. */
  function Ideal(w: World, idx0: Indexes): World {
    w.(coord := Coord(w.coord.log, EndOf(w.coord, idx0)))
  }

  lemma {:induction false} AppliedFromKeys(log: seq<OpRow>, p: nat, idx: Indexes)
    ensures AppliedFrom(log, p, idx).Keys == idx.Keys
    decreases |log| - p
  {
    if p < |log| {
      AppliedFromKeys(log, p + 1, Applied(log[p].op, idx));
    }
  }

  lemma EndOfAppend(c: Coord, idx0: Indexes, opType: OpType, ids: set<Id>, name: string, payload: seq<VectorRecord>)
    ensures EndOf(Append(c, opType, ids, name, payload), idx0)
         == Applied(Operation(FreshOpId(c.log), opType, ids, name, payload), EndOf(c, idx0))
  {
    AppendIsFresh(c, opType, ids, name, payload);
    AppliedSnoc(c.log, 0, idx0, OpRow(Operation(FreshOpId(c.log), opType, ids, name, payload), Pending, 0, None));
  }

  /** A drain, however it goes, changes no logged operation. */
  lemma {:induction false} DrainKeepsOps(cfg: Config, c: Coord, env: nat -> Attempt, k: nat, fuel: nat)
    ensures SameOps(c.log, Drain(cfg, c, env, k, fuel).0.log)
    decreases fuel
  {
    if fuel > 0 && Select(c.log, env(k).now).Some? {
      var i := Select(c.log, env(k).now).value;
      var next := ApplyAt(cfg, c, i, env(k));
      assert SameOps(c.log, next.log);
      DrainKeepsOps(cfg, next, env, k + 1, fuel - 1);
    }
  }

  lemma EndOfDrained(cfg: Config, c: Coord, env: nat -> Attempt, fuel: nat, idx0: Indexes)
    ensures EndOf(Drained(cfg, c, env, fuel), idx0) == EndOf(c, idx0)
  {
    DrainKeepsOps(cfg, c, env, 0, fuel);
    AppliedFromOps(c.log, Drained(cfg, c, env, fuel).log, 0, idx0);
  }

  // ---- the log of an honest run ----

  /** These events, honestly acknowledged and with safe retries, lead to this coordinator at rest. */
  ghost predicate LeadsTo(cfg: Config, idx0: Indexes, evs: seq<Event>, c: Coord) {
    && SafeRun(cfg, Init(idx0), false, evs) && Honest(evs)
    && var m := Run(cfg, Init(idx0), evs);
       m.up && m.flight.None? && Coord(m.log, m.idx) == c
  }

  ghost predicate Honored(cfg: Config, idx0: Indexes, c: Coord) {
    exists evs :: LeadsTo(cfg, idx0, evs, c)
  }

  lemma HonoredAtStart(cfg: Config, idx0: Indexes)
    ensures Honored(cfg, idx0, Coord([], idx0))
  {
    assert LeadsTo(cfg, idx0, [], Coord([], idx0));
  }

  lemma HonoredAppend(
    cfg: Config, idx0: Indexes, c: Coord, opType: OpType, ids: set<Id>, name: string, payload: seq<VectorRecord>)
    requires Honored(cfg, idx0, c) && PayloadIds(payload) <= ids
    ensures Honored(cfg, idx0, Append(c, opType, ids, name, payload))
  {
    var evs :| LeadsTo(cfg, idx0, evs, c);
    var e := Enqueue(Operation(FreshOpId(c.log), opType, ids, name, payload));
    RunSnoc(cfg, Init(idx0), evs, e);
    assert (evs + [e])[..|evs|] == evs;
    hide Run, Enqueued, FreshOpId, Shape;
    assert LeadsTo(cfg, idx0, evs + [e], Append(c, opType, ids, name, payload));
  }

  lemma HonoredDrained(cfg: Config, idx0: Indexes, c: Coord, env: nat -> Attempt, fuel: nat)
    requires Honored(cfg, idx0, c)
    ensures Honored(cfg, idx0, Drained(cfg, c, env, fuel))
  {
    hide Run, CoordinatorRuns.Step, Shape, Drain;
    var before :| LeadsTo(cfg, idx0, before, c);
    var m := Run(cfg, Init(idx0), before);
    var evs := DrainIsRun(cfg, m, env, 0, fuel);
    AttemptsAreSafe(cfg, m, false, evs);
    SafeRunConcat(cfg, Init(idx0), false, before, evs);
    RunConcat(cfg, Init(idx0), before, evs);
    hide SafeRun;
    assert LeadsTo(cfg, idx0, before + evs, Drained(cfg, c, env, fuel));
  }

  /** Once all is DONE the indexes are what the log promised. */
  lemma HonoredWhenDone(cfg: Config, idx0: Indexes, c: Coord)
    requires Honored(cfg, idx0, c) && forall r :: r in c.log ==> r.state == Done
    ensures c.idx == EndOf(c, idx0)
  {
    var evs :| LeadsTo(cfg, idx0, evs, c);
    DrainedRunAppliesWholeLog(cfg, false, idx0, evs);
  }

  // ---- what each operation adds to the log ----

  /** Still an honest log, over the same stores. */
  ghost predicate Kept(s: Setup, idx0: Indexes, c: Coord) {
    Honored(s.cfg, idx0, c) && WellWired(s, idx0)
  }

  lemma {:induction false} UpsertsKept(s: Setup, idx0: Indexes, c: Coord, rec: Record, gen: int, n: nat)
    requires Kept(s, idx0, c) && n <= |s.names|
    ensures Kept(s, idx0, Upserts(s, c, rec, gen, n))
    ensures UpsertedInto(s, EndOf(c, idx0), EndOf(Upserts(s, c, rec, gen, n), idx0), VectorRow(rec, gen), n)
  {
    hide Honored, EndOf;
    if n > 0 {
      var row, name := VectorRow(rec, gen), s.names[n - 1];
      UpsertsKept(s, idx0, c, rec, gen, n - 1);
      var before := Upserts(s, c, rec, gen, n - 1);
      assert PayloadIds([row]) == {rec.id};
      HonoredAppend(s.cfg, idx0, before, UpsertIndex, {rec.id}, name, [row]);
      EndOfAppend(before, idx0, UpsertIndex, {rec.id}, name, [row]);
      EndKeys(c, idx0);
      EndKeys(before, idx0);
      OneUpsertApplied(FreshOpId(before.log), rec.id, name, row, EndOf(before, idx0));
      OneMoreUpsert(s, EndOf(c, idx0), EndOf(before, idx0), row, n);
    }
  }

  lemma EndKeys(c: Coord, idx0: Indexes)
    ensures EndOf(c, idx0).Keys == idx0.Keys
  {
    AppliedFromKeys(c.log, 0, idx0);
  }

  lemma OneUpsertApplied(opId: nat, id: Id, name: string, row: VectorRecord, idx: Indexes)
    requires name in idx
    ensures Applied(Operation(opId, UpsertIndex, {id}, name, [row]), idx) == idx[name := UpsertOne(idx[name], row)]
  {
    assert [row][..0] == [];
    assert Upserted(idx[name], [row]) == UpsertOne(idx[name], row);
  }

  lemma IndexedViaKept(s: Setup, idx0: Indexes, c: Coord, rec: Record, gen: int, ticks: nat -> Attempt)
    requires Kept(s, idx0, c)
    ensures Kept(s, idx0, IndexedVia(s, c, rec, gen, ticks))
    ensures UpsertedInto(s, EndOf(c, idx0), EndOf(IndexedVia(s, c, rec, gen, ticks), idx0),
                         VectorRow(rec, gen), |s.names|)
  {
    hide Honored, EndOf, Upserts, Drained;
    UpsertsKept(s, idx0, c, rec, gen, |s.names|);
    HonoredDrained(s.cfg, idx0, Upserts(s, c, rec, gen, |s.names|), ticks, MAX_STEPS);
    EndOfDrained(s.cfg, Upserts(s, c, rec, gen, |s.names|), ticks, MAX_STEPS, idx0);
  }

  lemma {:induction false} PurgeKept(
    s: Setup, idx0: Indexes, c: Coord, ids: set<Id>, ticks: nat -> nat -> Attempt, n: nat)
    requires Kept(s, idx0, c) && n <= |s.names|
    ensures Kept(s, idx0, PurgeVectors(s, c, ids, ticks, n).0)
    ensures RemovedFrom(s, EndOf(c, idx0), EndOf(PurgeVectors(s, c, ids, ticks, n).0, idx0), ids, n)
  {
    hide Honored, EndOf, Drained, Append;
    if n > 0 {
      PurgeKept(s, idx0, c, ids, ticks, n - 1);
      var before := PurgeVectors(s, c, ids, ticks, n - 1).0;
      var name := s.names[n - 1];
      var queued := Append(before, RemoveIndex, ids, name, []);
      HonoredAppend(s.cfg, idx0, before, RemoveIndex, ids, name, []);
      HonoredDrained(s.cfg, idx0, queued, ticks(n - 1), MAX_STEPS);
      EndOfAppend(before, idx0, RemoveIndex, ids, name, []);
      EndOfDrained(s.cfg, queued, ticks(n - 1), MAX_STEPS, idx0);
      EndKeys(c, idx0);
      EndKeys(before, idx0);
      OneMoreRemoved(s, EndOf(c, idx0), EndOf(before, idx0), ids, n);
    }
  }

  lemma OneMoreRemoved(s: Setup, idx: Indexes, before: Indexes, ids: set<Id>, n: nat)
    requires 0 < n <= |s.names| && WellWired(s, idx) && RemovedFrom(s, idx, before, ids, n - 1)
    ensures var name := s.names[n - 1];
            RemovedFrom(s, idx, before[name := Removed(before[name], ids)], ids, n)
  {
    assert s.names[..n] == s.names[..n - 1] + [s.names[n - 1]];
    assert s.names[n - 1] !in s.names[..n - 1];
  }

  lemma {:induction false} ReindexKept(s: Setup, idx0: Indexes, c: Coord, canon: Canon, gen: int, ids: seq<Id>, n: nat)
    requires Kept(s, idx0, c) && Keyed(canon) && n <= |ids|
    ensures Kept(s, idx0, ReindexOps(s, c, canon, gen, ids, n))
    ensures Refreshed(s, canon, EndOf(c, idx0), EndOf(ReindexOps(s, c, canon, gen, ids, n), idx0), gen, ids, n)
  {
    hide Honored, EndOf, Upserts;
    if n > 0 {
      ReindexKept(s, idx0, c, canon, gen, ids, n - 1);
      var before, id := ReindexOps(s, c, canon, gen, ids, n - 1), ids[n - 1];
      if id in canon.records && id !in canon.tombs {
        UpsertsKept(s, idx0, before, canon.records[id], gen, |s.names|);
        var after := ReindexOps(s, c, canon, gen, ids, n);
        RefreshOne(s, canon, EndOf(c, idx0), EndOf(before, idx0), EndOf(after, idx0), gen, ids, n);
      } else {
        assert ids[..n] == ids[..n - 1] + [id];
      }
    }
  }

  // ---- agreement of a state with its own indexes ----

  /** Every current record is found; nothing is said about what is still pending. */
  ghost predicate Agrees(s: Setup, w: World) {
    && Keyed(w.canon) && WellWired(s, w.coord.idx)
    && forall id :: Current(w.canon, id) ==> Indexed(s, w, id)
  }

  /** `r` is `v` after one record was stored, posted and upserted everywhere. */
  ghost predicate Stored(s: Setup, v: World, r: World, rec: Record, gen: int) {
    && r.canon.records == v.canon.records[rec.id := rec] && r.canon.tombs == v.canon.tombs
    && r.fts == v.fts[rec.id := rec.content] && r.generation == v.generation
    && UpsertedInto(s, v.coord.idx, r.coord.idx, VectorRow(rec, gen), |s.names|)
  }

  lemma StoredAgreesIff(s: Setup, v: World, r: World, rec: Record, gen: int)
    requires Keyed(v.canon) && WellWired(s, v.coord.idx) && Stored(s, v, r, rec, gen)
    requires forall id :: Current(v.canon, id) && id != rec.id ==> Indexed(s, v, id)
    ensures Agrees(s, r) <==> (gen != v.generation && MakesCurrent(v.canon, rec) ==>
              StoredEverywhere(s, v.coord.idx, rec.id, v.generation, rec.contentHash))
  {
    var row := VectorRow(rec, gen);
    UpsertServes(s, v.coord.idx, r.coord.idx, row);
    UpsertServesIff(s, v.coord.idx, r.coord.idx, row, rec.id, v.generation, rec.contentHash);
    forall id | Current(r.canon, id) && id != rec.id
      ensures Indexed(s, r, id)
    {
      assert Current(v.canon, id);
    }
    assert Current(r.canon, rec.id) <==> MakesCurrent(v.canon, rec);
  }

  /** `r` is `v` after a purge of the ids. */
  ghost predicate PurgedOf(s: Setup, v: World, r: World, ids: set<Id>) {
    && r.canon == v.canon && r.generation == v.generation && r.fts == v.fts - ids
    && RemovedFrom(s, v.coord.idx, r.coord.idx, ids, |s.names|)
  }

  lemma PurgedAgrees(s: Setup, v: World, r: World, ids: set<Id>, except: set<Id>)
    requires WellWired(s, v.coord.idx) && PurgedOf(s, v, r, ids) && ids <= except
    requires forall id :: Current(v.canon, id) && id !in except ==> Indexed(s, v, id)
    ensures WellWired(s, r.coord.idx)
    ensures forall id :: Current(r.canon, id) && id !in except ==> Indexed(s, r, id)
  {
    forall id | Current(r.canon, id) && id !in except
      ensures Indexed(s, r, id)
    {
      assert Indexed(s, v, id);
      RemoveServes(s, v.coord.idx, r.coord.idx, ids, id, v.generation, v.canon.records[id].contentHash);
    }
  }

  lemma PurgeFollows(s: Setup, idx0: Indexes, w: World, ids: set<Id>, env: PurgeEnv)
    requires Kept(s, idx0, w.coord)
    ensures var r := Purge(s, w, ids, env).0;
            Kept(s, idx0, r.coord) && PurgedOf(s, Ideal(w, idx0), Ideal(r, idx0), ids)
  {
    hide Honored, EndOf, PurgeVectors;
    PurgeKept(s, idx0, w.coord, ids, env.ticks, |s.names|);
  }

  lemma IdealWired(s: Setup, idx0: Indexes, w: World)
    requires Kept(s, idx0, w.coord)
    ensures WellWired(s, Ideal(w, idx0).coord.idx)
  {
    EndKeys(w.coord, idx0);
  }

  // ---- each operation, with handlers that do anything ----

  lemma WriteFollows(s: Setup, idx0: Indexes, w: World, rec: Record, gen: int, now: int, ticks: nat -> Attempt)
    requires Kept(s, idx0, w.coord)
    ensures var r := MemoryWritten(s, w, rec, gen, now, ticks);
            && Kept(s, idx0, r.coord)
            && Stored(s, Ideal(w, idx0), Ideal(r, idx0), rec.(updatedAt := now), gen)
  {
    hide Honored, EndOf, IndexedVia;
    IndexedViaKept(s, idx0, w.coord, rec.(updatedAt := now), gen, ticks);
  }

  lemma WriteAgreesIff(s: Setup, idx0: Indexes, w: World, rec: Record, gen: int, now: int, ticks: nat -> Attempt)
    requires Kept(s, idx0, w.coord) && Agrees(s, Ideal(w, idx0))
    ensures var r := MemoryWritten(s, w, rec, gen, now, ticks);
            && Kept(s, idx0, r.coord)
            && (Agrees(s, Ideal(r, idx0)) <==> KeepsUp(s, Ideal(w, idx0), Write(rec, gen, now, ticks)))
  {
    WriteFollows(s, idx0, w, rec, gen, now, ticks);
    hide Kept, Ideal, Stored, MemoryWritten, Found;
    var r := MemoryWritten(s, w, rec, gen, now, ticks);
    StoredAgreesIff(s, Ideal(w, idx0), Ideal(r, idx0), rec.(updatedAt := now), gen);
  }

  lemma UpdateAgrees(s: Setup, idx0: Indexes, w: World, id: Id, content: string, now: int, ticks: nat -> Attempt)
    requires Kept(s, idx0, w.coord) && Agrees(s, Ideal(w, idx0))
    ensures var r := Apply(s, w, Update(id, content, now, ticks));
            Kept(s, idx0, r.coord) && Agrees(s, Ideal(r, idx0))
  {
    if id in w.canon.records {
      var updated := w.canon.records[id].(content := content, contentHash := s.hash(content));
      var dropped := w.(fts := w.fts - {id});
      WriteFollows(s, idx0, dropped, updated, w.generation, now, ticks);
      hide Kept, EndOf, Stored, MemoryWritten;
      forall i | Current(dropped.canon, i) && i != updated.id
        ensures Indexed(s, Ideal(dropped, idx0), i)
      {
        assert Indexed(s, Ideal(w, idx0), i);
      }
      var r := MemoryWritten(s, dropped, updated, w.generation, now, ticks);
      StoredAgreesIff(s, Ideal(dropped, idx0), Ideal(r, idx0), updated.(updatedAt := now), w.generation);
    }
  }

  /** The state in which a correction that completes purges the old record. */
  function LinkedFor(w: World, oldId: Id, rec: Record, rel: Relation, now: int): World {
    var marked := WithStatus(Written(w.canon, rec, now), oldId, StatusAfter(rel), now);
    w.(canon := Linked(marked, Edge(rec.id, oldId, rel)), fts := w.fts[rec.id := rec.content])
  }

  lemma CorrectFollows(
    s: Setup, idx0: Indexes, w: World, oldId: Id, rec: Record, rel: Relation, now: int, env: PurgeEnv,
    ticks: nat -> Attempt)
    requires Kept(s, idx0, w.coord) && (oldId in w.canon.records || oldId == rec.id)
    ensures var linked := LinkedFor(w, oldId, rec, rel, now);
            var purged := Purge(s, linked, {oldId}, env).0;
            var r := Corrected(s, w, oldId, rec, rel, now, env, ticks).0;
            && Kept(s, idx0, r.coord)
            && PurgedOf(s, Ideal(linked, idx0), Ideal(purged, idx0), {oldId})
            && r == purged.(coord := r.coord)
            && UpsertedInto(s, Ideal(purged, idx0).coord.idx, Ideal(r, idx0).coord.idx,
                            VectorRow(rec, w.generation), |s.names|)
  {
    hide Honored, EndOf, PurgeVectors, IndexedVia;
    var linked := LinkedFor(w, oldId, rec, rel, now);
    PurgeFollows(s, idx0, linked, {oldId}, env);
    IndexedViaKept(s, idx0, Purge(s, linked, {oldId}, env).0.coord, rec.(updatedAt := now), w.generation, ticks);
  }

  /** Purge of the old row, then the new row's vectors. */
  lemma CatchesUp(s: Setup, linked: World, purged: World, r: World, oldId: Id, rec: Record)
    requires Keyed(linked.canon) && WellWired(s, linked.coord.idx) && PurgedOf(s, linked, purged, {oldId})
    requires rec.id in linked.canon.records && !Current(linked.canon, oldId)
    requires oldId != rec.id ==>
               && linked.canon.records[rec.id].contentHash == rec.contentHash
               && linked.canon.records[rec.id].content == rec.content
               && rec.id in linked.fts && linked.fts[rec.id] == rec.content
    requires forall id :: Current(linked.canon, id) && id !in {oldId, rec.id} ==> Indexed(s, linked, id)
    requires r == purged.(coord := r.coord)
    requires UpsertedInto(s, purged.coord.idx, r.coord.idx, VectorRow(rec, linked.generation), |s.names|)
    ensures Agrees(s, r)
  {
    PurgedAgrees(s, linked, purged, {oldId}, {oldId, rec.id});
    UpsertServes(s, purged.coord.idx, r.coord.idx, VectorRow(rec, linked.generation));
    forall id | Current(r.canon, id)
      ensures Indexed(s, r, id)
    {
      if id != rec.id {
        assert Indexed(s, purged, id);
      }
    }
  }

  lemma LinkedReady(s: Setup, v: World, linked: World, oldId: Id, rec: Record, rel: Relation, now: int)
    requires Agrees(s, v) && linked == LinkedFor(v, oldId, rec, rel, now)
    ensures Keyed(linked.canon) && WellWired(s, linked.coord.idx) && linked.generation == v.generation
    ensures rec.id in linked.canon.records && !Current(linked.canon, oldId)
    ensures oldId != rec.id ==>
              && linked.canon.records[rec.id].contentHash == rec.contentHash
              && linked.canon.records[rec.id].content == rec.content
              && rec.id in linked.fts && linked.fts[rec.id] == rec.content
    ensures forall id :: Current(linked.canon, id) && id !in {oldId, rec.id} ==> Indexed(s, linked, id)
  {
    forall id | Current(linked.canon, id) && id !in {oldId, rec.id}
      ensures Indexed(s, linked, id)
    {
      assert Current(v.canon, id) && Indexed(s, v, id);
    }
  }

  lemma CorrectAgreesIff(
    s: Setup, idx0: Indexes, w: World, oldId: Id, rec: Record, rel: Relation, now: int, env: PurgeEnv,
    ticks: nat -> Attempt)
    requires Kept(s, idx0, w.coord) && Agrees(s, Ideal(w, idx0))
    ensures var r := Corrected(s, w, oldId, rec, rel, now, env, ticks).0;
            && Kept(s, idx0, r.coord)
            && (Agrees(s, Ideal(r, idx0))
                <==> KeepsUp(s, Ideal(w, idx0), Correct(oldId, rec, rel, now, env, ticks)))
  {
    hide Kept, EndOf;
    var r := Corrected(s, w, oldId, rec, rel, now, env, ticks).0;
    if oldId in w.canon.records || oldId == rec.id {
      CorrectFollows(s, idx0, w, oldId, rec, rel, now, env, ticks);
      var linked := LinkedFor(w, oldId, rec, rel, now);
      assert Ideal(linked, idx0) == LinkedFor(Ideal(w, idx0), oldId, rec, rel, now);
      hide Corrected, PurgedOf, Purge, Ideal, LinkedFor, Agrees, Found;
      LinkedReady(s, Ideal(w, idx0), Ideal(linked, idx0), oldId, rec, rel, now);
      CatchesUp(s, Ideal(linked, idx0), Ideal(Purge(s, linked, {oldId}, env).0, idx0), Ideal(r, idx0), oldId, rec);
    } else {
      assert r == w.(canon := Written(w.canon, rec, now));
      hide Corrected;
      StopsEarlyIff(s, Ideal(w, idx0), Ideal(r, idx0), rec, now);
    }
  }

  lemma StopsEarlyIff(s: Setup, v: World, r: World, rec: Record, now: int)
    requires Agrees(s, v) && r == v.(canon := Written(v.canon, rec, now))
    ensures Agrees(s, r) <==> (MakesCurrent(v.canon, rec) ==> Found(s, v, rec.id, rec.content, rec.contentHash))
  {
    forall id | Current(r.canon, id) && id != rec.id
      ensures Indexed(s, r, id)
    {
      assert Current(v.canon, id) && Indexed(s, v, id);
    }
    assert Current(r.canon, rec.id) <==> MakesCurrent(v.canon, rec);
  }

  lemma MergeAgrees(s: Setup, idx0: Indexes, w: World, primary: Id, dups: seq<Id>, now: int, env: PurgeEnv)
    requires Kept(s, idx0, w.coord) && Agrees(s, Ideal(w, idx0))
    ensures var r := RecordsMerged(s, w, primary, dups, now, env).0;
            Kept(s, idx0, r.coord) && Agrees(s, Ideal(r, idx0))
  {
    hide Kept, EndOf, Purge;
    var (canon, removed, ok) := MergeMarks(w.canon, primary, dups, |dups|, now);
    MergeMarksEffect(w.canon, primary, dups, |dups|, now);
    hide MergeMarks;
    var marked := w.(canon := canon);
    forall id | Current(marked.canon, id)
      ensures Current(w.canon, id) && Indexed(s, Ideal(marked, idx0), id) && id !in removed
    {
      assert Indexed(s, Ideal(w, idx0), id);
    }
    if ok && removed != {} {
      PurgeFollows(s, idx0, marked, removed, env);
      PurgedAgrees(s, Ideal(marked, idx0), Ideal(Purge(s, marked, removed, env).0, idx0), removed, removed);
    }
  }

  /** One attempt of a deletion, whatever its purge answers and whichever state it leaves behind. */
  lemma AttemptAgrees(
    s: Setup, idx0: Indexes, w: World, ids: set<Id>, mode: Mode, env: PurgeEnv, state: DeletionState, at: Option<int>)
    requires Kept(s, idx0, w.coord) && Agrees(s, Ideal(w, idx0)) && ids <= w.canon.tombs.Keys
    ensures var r := InState(Attempted(s, w, ids, mode, env).0, ids, state, at);
            Kept(s, idx0, r.coord) && Agrees(s, Ideal(r, idx0)) && ids <= r.canon.tombs.Keys
  {
    hide Kept, EndOf, Purge;
    var deleting := InState(w, ids, IndexDeleting, None);
    PurgeFollows(s, idx0, deleting, ids, env);
    var purged := Purge(s, deleting, ids, env).0;
    forall id | Current(deleting.canon, id)
      ensures Indexed(s, Ideal(deleting, idx0), id) && id !in ids
    {
      assert Current(w.canon, id) && Indexed(s, Ideal(w, idx0), id);
    }
    PurgedAgrees(s, Ideal(deleting, idx0), Ideal(purged, idx0), ids, ids);
    var tried := Attempted(s, w, ids, mode, env).0;
    assert tried == purged || tried == HardErased(purged, ids);
    hide Attempted, Agrees;
    AgreesAfterAttempt(s, idx0, purged, tried, ids, state, at);
  }

  lemma AgreesAfterAttempt(
    s: Setup, idx0: Indexes, purged: World, tried: World, ids: set<Id>, state: DeletionState, at: Option<int>)
    requires Agrees(s, Ideal(purged, idx0)) && (tried == purged || tried == HardErased(purged, ids))
    ensures Agrees(s, Ideal(InState(tried, ids, state, at), idx0))
  {
    hide EndOf;
    var r := InState(tried, ids, state, at);
    forall id | Current(r.canon, id)
      ensures Indexed(s, Ideal(r, idx0), id)
    {
      assert Current(purged.canon, id) && Indexed(s, Ideal(purged, idx0), id);
    }
  }

  lemma {:induction false} FlowAgrees(
    s: Setup, idx0: Indexes, w: World, ids: set<Id>, mode: Mode, envs: nat -> PurgeEnv, attempt: nat, now: int)
    requires Kept(s, idx0, w.coord) && Agrees(s, Ideal(w, idx0)) && ids <= w.canon.tombs.Keys
    ensures var r := PurgeAndVerify(s, w, ids, mode, envs, attempt, now);
            Kept(s, idx0, r.coord) && Agrees(s, Ideal(r, idx0))
    decreases s.maxRetries - attempt
  {
    hide Attempted, InState, Kept, Ideal, Agrees;
    var (tried, verified) := Attempted(s, w, ids, mode, envs(attempt));
    if verified {
      AttemptAgrees(s, idx0, w, ids, mode, envs(attempt), Verified, Some(now));
    } else if attempt < s.maxRetries {
      AttemptAgrees(s, idx0, w, ids, mode, envs(attempt), PartiallyFailed, None);
      FlowAgrees(s, idx0, InState(tried, ids, PartiallyFailed, None), ids, mode, envs, attempt + 1, now);
    } else {
      AttemptAgrees(s, idx0, w, ids, mode, envs(attempt), ManualAttention, None);
    }
  }

  lemma DeleteAgrees(
    s: Setup, idx0: Indexes, w: World, id: Id, mode: Mode, dependents: bool, jobId: nat, now: int,
    envs: nat -> PurgeEnv)
    requires Kept(s, idx0, w.coord) && Agrees(s, Ideal(w, idx0))
    ensures var r := AfterDeletion(s, w, id, mode, dependents, jobId, envs, now);
            Kept(s, idx0, r.coord) && Agrees(s, Ideal(r, idx0))
  {
    hide Kept, EndOf, PurgeAndVerify;
    var ids := DeletionIds(w.canon, id, dependents);
    var marked := w.(canon := AllTombstoned(w.canon, ids, mode, jobId, now));
    forall i | Current(marked.canon, i)
      ensures Indexed(s, Ideal(marked, idx0), i)
    {
      assert Current(w.canon, i) && Indexed(s, Ideal(w, idx0), i);
    }
    FlowAgrees(s, idx0, marked, ids, mode, envs, 0, now);
  }

  lemma RetryAgrees(
    s: Setup, idx0: Indexes, w: World, jobId: nat, mode: Mode, now: int, envs: nat -> PurgeEnv)
    requires Kept(s, idx0, w.coord) && Agrees(s, Ideal(w, idx0))
    ensures var r := Apply(s, w, RetryDeletion(jobId, mode, now, envs));
            Kept(s, idx0, r.coord) && Agrees(s, Ideal(r, idx0))
  {
    hide Kept, EndOf, PurgeAndVerify;
    if JobIds(w.canon, jobId) != {} {
      FlowAgrees(s, idx0, w, JobIds(w.canon, jobId), mode, envs, 0, now);
    }
  }

  lemma ReindexFollows(s: Setup, idx0: Indexes, w: World, gen: int, ids: seq<Id>, ticks: nat -> Attempt)
    requires Kept(s, idx0, w.coord) && Keyed(w.canon)
    ensures var r := Reindexed(s, w, gen, ids, ticks);
            && Kept(s, idx0, r.coord) && r == w.(coord := r.coord)
            && Refreshed(s, w.canon, Ideal(w, idx0).coord.idx, Ideal(r, idx0).coord.idx, gen, ids, |ids|)
  {
    hide Honored, EndOf, Drained, ReindexOps;
    var queued := ReindexOps(s, w.coord, w.canon, gen, ids, |ids|);
    ReindexKept(s, idx0, w.coord, w.canon, gen, ids, |ids|);
    HonoredDrained(s.cfg, idx0, queued, ticks, MAX_STEPS);
    EndOfDrained(s.cfg, queued, ticks, MAX_STEPS, idx0);
  }

  /** A reindex of any length; promoted at once or not. */
  lemma ReindexAgreesIff(s: Setup, idx0: Indexes, w: World, gen: int, ids: seq<Id>, ticks: nat -> Attempt)
    requires Kept(s, idx0, w.coord) && Agrees(s, Ideal(w, idx0))
    ensures var r := Reindexed(s, w, gen, ids, ticks);
            && Kept(s, idx0, r.coord) && Agrees(s, Ideal(r, idx0))
            && (Agrees(s, Ideal(r, idx0).(generation := gen)) <==> ServesAllBut(s, Ideal(w, idx0), gen, ids))
  {
    hide Honored, EndOf;
    ReindexFollows(s, idx0, w, gen, ids, ticks);
    hide Reindexed;
    RefreshedAgreesIff(s, Ideal(w, idx0), Ideal(Reindexed(s, w, gen, ids, ticks), idx0), gen, ids);
  }

  lemma RefreshedAgreesIff(s: Setup, v: World, r: World, gen: int, ids: seq<Id>)
    requires Agrees(s, v) && r == v.(coord := r.coord)
    requires Refreshed(s, v.canon, v.coord.idx, r.coord.idx, gen, ids, |ids|)
    ensures Agrees(s, r)
    ensures Agrees(s, r.(generation := gen)) <==> ServesAllBut(s, v, gen, ids)
  {
    var promoted := r.(generation := gen);
    assert ids[..|ids|] == ids;
    forall id | Current(v.canon, id)
      ensures Indexed(s, r, id)
      ensures Indexed(s, promoted, id) <==>
                id in ids || ServedEverywhere(s, v.coord.idx, id, gen, v.canon.records[id].contentHash)
    {
      assert Indexed(s, v, id);
      if id in ids {
        var k :| 0 <= k < |ids| && ids[k] == id;
        assert ServedEverywhere(s, r.coord.idx, ids[k], gen, v.canon.records[ids[k]].contentHash);
      }
    }
  }

  lemma PromoteAgreesIff(s: Setup, v: World, gen: int)
    requires Agrees(s, v)
    ensures Agrees(s, v.(generation := gen)) <==> ServesAllBut(s, v, gen, [])
  {
    var r := v.(generation := gen);
    forall id | Current(v.canon, id)
      ensures Indexed(s, r, id) <==> ServedEverywhere(s, v.coord.idx, id, gen, v.canon.records[id].contentHash)
    {
      assert Indexed(s, v, id);
    }
  }

  lemma PatchAgreesIff(s: Setup, v: World, id: Id, status: Status, now: int)
    requires Agrees(s, v)
    ensures Agrees(s, v.(canon := WithStatus(v.canon, id, status, now)))
            <==> KeepsUp(s, v, PatchStatus(id, status, now))
  {
    var r := v.(canon := WithStatus(v.canon, id, status, now));
    forall i | Current(r.canon, i) && i != id
      ensures Indexed(s, r, i)
    {
      assert Current(v.canon, i) && Indexed(s, v, i);
    }
    if id in v.canon.records {
      assert Indexed(s, r, id) <==> Indexed(s, v, id);
    }
  }

  lemma OthersAgree(s: Setup, idx0: Indexes, w: World, st: EngineRuns.Step)
    requires Agrees(s, Ideal(w, idx0)) && (st.Link? || st.PutArtifact? || st.RebuildLexical?)
    ensures Apply(s, w, st).coord == w.coord && Agrees(s, Ideal(Apply(s, w, st), idx0))
  {
    hide EndOf;
    var r := Apply(s, w, st);
    forall id | Current(r.canon, id)
      ensures Indexed(s, Ideal(r, idx0), id)
    {
      assert Current(w.canon, id) && Indexed(s, Ideal(w, idx0), id);
    }
  }

  /** Each operation, whatever its handlers do, keeps the promise exactly under its condition. */
  lemma StepAgreesIff(s: Setup, idx0: Indexes, w: World, st: EngineRuns.Step, r: World)
    requires Kept(s, idx0, w.coord) && Agrees(s, Ideal(w, idx0))
    requires !st.Disturb? && r == Apply(s, w, st)
    ensures Kept(s, idx0, r.coord)
    ensures Agrees(s, Ideal(r, idx0)) <==> KeepsUp(s, Ideal(w, idx0), st)
  {
    hide Agrees, Kept, EndOf, MemoryWritten, Corrected, Reindexed, PurgeAndVerify, RecordsMerged;
    match st
    case Write(rec, gen, now, ticks) => WriteAgreesIff(s, idx0, w, rec, gen, now, ticks);
    case Update(id, content, now, ticks) => UpdateAgrees(s, idx0, w, id, content, now, ticks);
    case Correct(oldId, rec, rel, now, env, ticks) =>
      CorrectAgreesIff(s, idx0, w, oldId, rec, rel, now, env, ticks);
    case Merge(primary, dups, now, env) => MergeAgrees(s, idx0, w, primary, dups, now, env);
    case Delete(id, mode, dependents, jobId, now, envs) =>
      DeleteAgrees(s, idx0, w, id, mode, dependents, jobId, now, envs);
    case RetryDeletion(jobId, mode, now, envs) => RetryAgrees(s, idx0, w, jobId, mode, now, envs);
    case Reindex(gen, ids, ticks) => ReindexAgreesIff(s, idx0, w, gen, ids, ticks);
    case Promote(gen) => PromoteAgreesIff(s, Ideal(w, idx0), gen);
    case Migrate(gen, ids, ticks) => ReindexAgreesIff(s, idx0, w, gen, ids, ticks);
    case PatchStatus(id, status, now) => PatchAgreesIff(s, Ideal(w, idx0), id, status, now);
    case _ => OthersAgree(s, idx0, w, st);
  }

  // ---- runs ----

  /** Between two operations the coordinator goes on: attempts, crashes, recoveries, safe retries. */
  datatype Move = Op(st: EngineRuns.Step) | Tend

  predicate NothingNew(evs: seq<Event>) {
    forall e :: e in evs ==> !e.Enqueue?
  }

  ghost predicate Tended(cfg: Config, idx0: Indexes, c: Coord, r: Coord) {
    exists before, more :: LeadsTo(cfg, idx0, before, c) && NothingNew(more) && LeadsTo(cfg, idx0, before + more, r)
  }

  ghost predicate Moves(s: Setup, idx0: Indexes, w: World, mv: Move, r: World) {
    match mv
    case Op(st) => !st.Disturb? && r == Apply(s, w, st)
    case Tend => r == w.(coord := r.coord) && Tended(s.cfg, idx0, w.coord, r.coord)
  }

  /** The states of one run, from first to last. */
  ghost predicate Trace(s: Setup, idx0: Indexes, ws: seq<World>, mvs: seq<Move>) {
    |ws| == |mvs| + 1 && forall k :: 0 <= k < |mvs| ==> Moves(s, idx0, ws[k], mvs[k], ws[k + 1])
  }

  lemma {:induction false} NothingNewKeepsOps(cfg: Config, m: Machine, evs: seq<Event>)
    requires Shape(m) && NothingNew(evs)
    ensures SameOps(m.log, Run(cfg, m, evs).log)
  {
    hide Shape, CoordinatorRuns.Step;
    if evs != [] {
      assert evs[|evs| - 1] in evs;
      NothingNewKeepsOps(cfg, m, evs[..|evs| - 1]);
      EventKeepsOps(cfg, Run(cfg, m, evs[..|evs| - 1]), evs[|evs| - 1]);
    }
  }

  lemma EventKeepsOps(cfg: Config, m: Machine, e: Event)
    requires Shape(m) && !e.Enqueue?
    ensures SameOps(m.log, CoordinatorRuns.Step(cfg, m, e).log)
  {
    hide Conflicts, Applied;
  }

  lemma TendedKeepsEnd(cfg: Config, idx0: Indexes, c: Coord, r: Coord)
    requires Tended(cfg, idx0, c, r)
    ensures Honored(cfg, idx0, r) && EndOf(r, idx0) == EndOf(c, idx0)
  {
    hide Run, CoordinatorRuns.Step, Shape, SafeRun;
    var before, more :| LeadsTo(cfg, idx0, before, c) && NothingNew(more) && LeadsTo(cfg, idx0, before + more, r);
    RunConcat(cfg, Init(idx0), before, more);
    NothingNewKeepsOps(cfg, Run(cfg, Init(idx0), before), more);
    AppliedFromOps(c.log, r.log, 0, idx0);
  }

  lemma MoveAgreesIff(s: Setup, idx0: Indexes, w: World, mv: Move, r: World)
    requires Kept(s, idx0, w.coord) && Agrees(s, Ideal(w, idx0)) && Moves(s, idx0, w, mv, r)
    ensures Kept(s, idx0, r.coord)
    ensures Agrees(s, Ideal(r, idx0)) <==> (mv.Op? ==> KeepsUp(s, Ideal(w, idx0), mv.st))
  {
    hide Agrees, EndOf, KeepsUp, Honored;
    match mv
    case Op(st) => StepAgreesIff(s, idx0, w, st, r);
    case Tend =>
      TendedKeepsEnd(s.cfg, idx0, w.coord, r.coord);
      SameEndAgrees(s, idx0, w, r);
  }

  lemma SameEndAgrees(s: Setup, idx0: Indexes, w: World, r: World)
    requires Agrees(s, Ideal(w, idx0)) && r == w.(coord := r.coord) && EndOf(r.coord, idx0) == EndOf(w.coord, idx0)
    ensures Agrees(s, Ideal(r, idx0))
  {
    hide EndOf;
    forall id | Current(r.canon, id)
      ensures Indexed(s, Ideal(r, idx0), id)
    {
      assert Indexed(s, Ideal(w, idx0), id);
    }
  }

  lemma DoneIsCoherent(s: Setup, idx0: Indexes, w: World)
    requires Kept(s, idx0, w.coord) && forall r :: r in w.coord.log ==> r.state == Done
    ensures w.coord.idx == EndOf(w.coord, idx0)
    ensures Coherent(s, w) <==> Agrees(s, Ideal(w, idx0))
  {
    HonoredWhenDone(s.cfg, idx0, w.coord);
    assert forall i :: 0 <= i < |w.coord.log| ==> w.coord.log[i] in w.coord.log;
    hide EndOf, Honored;
    assert Ideal(w, idx0) == w;
  }

  ghost predicate AllPromised(s: Setup, idx0: Indexes, ws: seq<World>) {
    forall k :: 0 <= k < |ws| ==> Agrees(s, Ideal(ws[k], idx0))
  }

  /** Each operation met its condition, against what the log promised at that moment. */
  ghost predicate AllKeepUp(s: Setup, idx0: Indexes, ws: seq<World>, mvs: seq<Move>)
    requires |mvs| <= |ws|
  {
    forall k :: 0 <= k < |mvs| && mvs[k].Op? ==> KeepsUp(s, Ideal(ws[k], idx0), mvs[k].st)
  }

  /** Whatever handlers, drains, crashes and retries do, the promise stands exactly under the conditions. */
  lemma {:induction false} PromiseStandsIff(s: Setup, idx0: Indexes, ws: seq<World>, mvs: seq<Move>)
    requires Trace(s, idx0, ws, mvs) && Kept(s, idx0, ws[0].coord) && Agrees(s, Ideal(ws[0], idx0))
    ensures AllPromised(s, idx0, ws) <==> AllKeepUp(s, idx0, ws, mvs)
    ensures AllPromised(s, idx0, ws) ==> Kept(s, idx0, ws[|mvs|].coord)
  {
    hide Kept, Agrees, KeepsUp, Moves, Ideal;
    var n := |mvs|;
    if n > 0 {
      PromiseStandsIff(s, idx0, ws[..n], mvs[..n - 1]);
      assert Moves(s, idx0, ws[n - 1], mvs[n - 1], ws[n - 1 + 1]);
      assert AllPromised(s, idx0, ws) <==> AllPromised(s, idx0, ws[..n]) && Agrees(s, Ideal(ws[n], idx0));
      var keepsUp := mvs[n - 1].Op? ==> KeepsUp(s, Ideal(ws[n - 1], idx0), mvs[n - 1].st);
      assert AllKeepUp(s, idx0, ws, mvs) <==> AllKeepUp(s, idx0, ws[..n], mvs[..n - 1]) && keepsUp;
      if AllPromised(s, idx0, ws[..n]) {
        assert ws[..n][n - 1] == ws[n - 1];
        MoveAgreesIff(s, idx0, ws[n - 1], mvs[n - 1], ws[n]);
      }
    }
  }

  /**
   Convergence. If each operation met its condition when it started and everything logged is
   DONE, the indexes are exactly what the log in order amounts to, and every current record is
   found in every one of them, whatever failed on the way.
   */
  lemma RunConverges(s: Setup, idx0: Indexes, ws: seq<World>, mvs: seq<Move>, last: World)
    requires Trace(s, idx0, ws, mvs) && Kept(s, idx0, ws[0].coord) && Agrees(s, Ideal(ws[0], idx0))
    requires AllKeepUp(s, idx0, ws, mvs)
    requires last == ws[|mvs|] && forall r :: r in last.coord.log ==> r.state == Done
    ensures last.coord.idx == EndOf(last.coord, idx0)
    ensures Coherent(s, last)
  {
    hide Kept, Agrees, EndOf, KeepsUp, Moves, Coherent, Ideal;
    PromiseStandsIff(s, idx0, ws, mvs);
    DoneIsCoherent(s, idx0, last);
  }
}
