/**
 The managed surfaces (strata/deletion/managed_surfaces.py): every index or artifact that
 mirrors canonical content, how ids are purged from all of them, and how their absence is
 checked. Vector removal goes through the Write Coordinator.
 */
module Surfaces {
  import opened Records
  import opened VectorStore
  import opened OpLog
  import opened Canonical
  import opened Lexical
  import opened Coordinator

  /** The step limit of `run_until_idle` when a caller gives none. */
  const MAX_STEPS: nat := 10_000

  /** What is wired once: coordinator settings, vector store names in order, content hash. */
  datatype Setup = Setup(cfg: Config, names: seq<string>, hash: string -> string, maxRetries: nat)

  datatype World = World(
    canon: Canon,
    fts: Postings,
    coord: Coord,
    artifacts: map<Id, seq<string>>,
    generation: int)

  /**
   What one purge meets: the attempts of each store's drain, and the answers of any further
   registered surface, which may fail to remove ids and may still hold them.
   */
  datatype PurgeEnv = PurgeEnv(ticks: nat -> nat -> Attempt, failed: set<Id>, present: set<Id>)

  /** Every store has its handler, no name is used twice, and one write fits into one drain. */
  predicate WellWired(s: Setup, idx: Indexes) {
    && |s.names| <= MAX_STEPS
    && (forall n :: 0 <= n < |s.names| ==> s.names[n] in idx)
    && (forall m, n :: 0 <= m < n < |s.names| ==> s.names[m] != s.names[n])
  }

  function FreshOpId(log: seq<OpRow>): (id: nat)
    ensures forall i :: 0 <= i < |log| ==> log[i].op.opId < id
  {
    if log == [] then 0
    else
      var before := FreshOpId(log[..|log| - 1]);
      var last := log[|log| - 1].op.opId;
      if last >= before then last + 1 else before
  }

  function Append(c: Coord, opType: OpType, ids: set<Id>, target: string, payload: seq<VectorRecord>): Coord {
    c.(log := Enqueued(c.log, Operation(FreshOpId(c.log), opType, ids, target, payload)))
  }

  lemma AppendIsFresh(c: Coord, opType: OpType, ids: set<Id>, target: string, payload: seq<VectorRecord>)
    ensures Append(c, opType, ids, target, payload).log
            == c.log + [OpRow(Operation(FreshOpId(c.log), opType, ids, target, payload), Pending, 0, None)]
  {
    var id := FreshOpId(c.log);
    forall r | r in c.log
      ensures r.op.opId != id
    {
      var k :| 0 <= k < |c.log| && c.log[k] == r;
    }
  }

  /** One coordinated removal: enqueue a barrier remove, then drive the coordinator. */
  function RemoveVia(s: Setup, c: Coord, name: string, ids: set<Id>, ticks: nat -> Attempt): Coord {
    Drained(s.cfg, Append(c, RemoveIndex, ids, name, []), ticks, MAX_STEPS)
  }

  function StillIn(idx: Indexes, name: string, ids: set<Id>): set<Id> {
    set i | i in ids && name in idx && Contains(idx[name], i)
  }

  /** Purge the first `n` vector stores; the set is the ids some store did not let go. */
  function PurgeVectors(s: Setup, c: Coord, ids: set<Id>, ticks: nat -> nat -> Attempt, n: nat): (Coord, set<Id>)
    requires n <= |s.names|
  {
    if n == 0 then (c, {})
    else
      var (before, failed) := PurgeVectors(s, c, ids, ticks, n - 1);
      var after := RemoveVia(s, before, s.names[n - 1], ids, ticks(n - 1));
      (after, failed + StillIn(after.idx, s.names[n - 1], ids))
  }

  /** The whole registry: lexical, every vector store, artifacts, and any further surface. */
  function Purge(s: Setup, w: World, ids: set<Id>, env: PurgeEnv): (World, set<Id>) {
    var (coord, failed) := PurgeVectors(s, w.coord, ids, env.ticks, |s.names|);
    (w.(fts := w.fts - ids, coord := coord, artifacts := w.artifacts - ids), failed + env.failed * ids)
  }

  /** No surface can bring the id back. */
  predicate AbsentEverywhere(s: Setup, w: World, id: Id, present: set<Id>) {
    && id !in w.fts
    && (forall n :: 0 <= n < |s.names| ==> s.names[n] in w.coord.idx ==> !Contains(w.coord.idx[s.names[n]], id))
    && id !in w.artifacts
    && id !in present
  }

  predicate SurfacesClear(s: Setup, w: World, ids: set<Id>, present: set<Id>) {
    forall i :: i in ids ==> AbsentEverywhere(s, w, i, present)
  }

  // ---- what a purge changes ----

  ghost predicate AllComplete(ticks: nat -> Attempt) {
    forall k :: ticks(k).outcome == Completes
  }

  /** On a drained log with succeeding handlers, one remove is appended, applied and done. */
  lemma RemoveViaSucceeds(s: Setup, c: Coord, name: string, ids: set<Id>, ticks: nat -> Attempt)
    requires AllFinished(c.log) && name in c.idx && AllComplete(ticks)
    ensures var after := RemoveVia(s, c, name, ids, ticks);
            && after.log == c.log + [OpRow(Operation(FreshOpId(c.log), RemoveIndex, ids, name, []), Done, 0, None)]
            && after.idx == c.idx[name := Removed(c.idx[name], ids)]
  {
    var a := Append(c, RemoveIndex, ids, name, []);
    AppendIsFresh(c, RemoveIndex, ids, name, []);
    var p := |c.log|;
    DrainWholeTail(s.cfg, a, ticks, p, MAX_STEPS);
    var after := Drained(s.cfg, a, ticks, MAX_STEPS);
    assert AppliedFrom(a.log, p, a.idx) == Applied(a.log[p].op, a.idx) by {
      assert AppliedFrom(a.log, p + 1, Applied(a.log[p].op, a.idx)) == Applied(a.log[p].op, a.idx);
    }
    DrainOfOneKeepsRow(s.cfg, a, ticks);
    assert after.log == c.log + [a.log[p].(state := Done)];
  }

  /** A drain changes only state, attempts and due time of a row; a first success only the state. */
  lemma DrainOfOneKeepsRow(cfg: Config, c: Coord, ticks: nat -> Attempt)
    requires c.log != [] && AllComplete(ticks)
    requires var p := |c.log| - 1; FreshTail(c.log, p) && Acknowledged(c.log[p].op, c.idx.Keys, Completes)
    ensures Drained(cfg, c, ticks, MAX_STEPS).log == c.log[|c.log| - 1 := c.log[|c.log| - 1].(state := Done)]
  {
    var p := |c.log| - 1;
    assert Eligible(c.log, p, ticks(0).now);
    assert Select(c.log, ticks(0).now) == Some(p);
    var next := ApplyAt(cfg, c, p, ticks(0));
    assert AllFinished(next.log);
    assert Select(next.log, ticks(1).now) == None;
    assert Drain(cfg, next, ticks, 1, MAX_STEPS - 1) == (next, 1);
    assert Drain(cfg, c, ticks, 0, MAX_STEPS) == Drain(cfg, next, ticks, 1, MAX_STEPS - 1);
  }

  predicate IsDoneRemove(row: OpRow, ids: set<Id>, name: string) {
    row.state == Done && row.op.opType == RemoveIndex && row.op.ids == ids && row.op.target == name
  }

  /** The rows a successful purge adds: one finished barrier remove per vector store. */
  predicate RemovesAdded(s: Setup, log: seq<OpRow>, after: seq<OpRow>, ids: set<Id>, n: nat)
    requires n <= |s.names|
  {
    && |after| == |log| + n
    && after[..|log|] == log
    && forall k :: |log| <= k < |after| ==> IsDoneRemove(after[k], ids, s.names[k - |log|])
  }

  predicate RemovedFrom(s: Setup, idx: Indexes, after: Indexes, ids: set<Id>, n: nat)
    requires n <= |s.names|
  {
    && after.Keys == idx.Keys
    && forall name :: name in idx ==>
         after[name] == if name in s.names[..n] then Removed(idx[name], ids) else idx[name]
  }

  ghost predicate CleanPurge(s: Setup, c: Coord, after: Coord, ids: set<Id>, n: nat)
    requires n <= |s.names|
  {
    && AllFinished(after.log)
    && RemovesAdded(s, c.log, after.log, ids, n)
    && RemovedFrom(s, c.idx, after.idx, ids, n)
  }

  /**
   From a drained log with succeeding handlers every store's removal is one barrier remove
   that is applied within the purge, and nothing is left to report.
   */
  lemma {:induction false} PurgeVectorsSucceeds(s: Setup, c: Coord, ids: set<Id>, ticks: nat -> nat -> Attempt, n: nat)
    requires n <= |s.names| && WellWired(s, c.idx) && AllFinished(c.log)
    requires forall k :: AllComplete(ticks(k))
    ensures PurgeVectors(s, c, ids, ticks, n).1 == {}
    ensures CleanPurge(s, c, PurgeVectors(s, c, ids, ticks, n).0, ids, n)
  {
    hide Drain;
    if n > 0 {
      PurgeVectorsSucceeds(s, c, ids, ticks, n - 1);
      OneMoreRemove(s, c, PurgeVectors(s, c, ids, ticks, n - 1).0, ids, ticks(n - 1), n);
    }
  }

  lemma OneMoreRemove(s: Setup, c: Coord, before: Coord, ids: set<Id>, ticks: nat -> Attempt, n: nat)
    requires 0 < n <= |s.names| && WellWired(s, c.idx) && AllComplete(ticks)
    requires CleanPurge(s, c, before, ids, n - 1)
    ensures var after := RemoveVia(s, before, s.names[n - 1], ids, ticks);
            CleanPurge(s, c, after, ids, n) && StillIn(after.idx, s.names[n - 1], ids) == {}
  {
    var name := s.names[n - 1];
    RemoveViaSucceeds(s, before, name, ids, ticks);
    var after := RemoveVia(s, before, name, ids, ticks);
    RowAdded(s, c, before, after, ids, n, after.log[|before.log|]);
    assert after.idx[name] == Removed(before.idx[name], ids);
  }

  lemma RowAdded(s: Setup, c: Coord, before: Coord, after: Coord, ids: set<Id>, n: nat, row: OpRow)
    requires 0 < n <= |s.names| && WellWired(s, c.idx)
    requires CleanPurge(s, c, before, ids, n - 1)
    requires after.log == before.log + [row] && IsDoneRemove(row, ids, s.names[n - 1])
    requires after.idx == before.idx[s.names[n - 1] := Removed(before.idx[s.names[n - 1]], ids)]
    ensures CleanPurge(s, c, after, ids, n)
  {
    assert s.names[..n] == s.names[..n - 1] + [s.names[n - 1]];
    assert s.names[n - 1] !in s.names[..n - 1];
    assert after.log[..|c.log|] == before.log[..|c.log|];
  }

  lemma PurgeSucceeds(s: Setup, w: World, ids: set<Id>, env: PurgeEnv)
    requires WellWired(s, w.coord.idx) && AllFinished(w.coord.log)
    requires forall k :: AllComplete(env.ticks(k))
    ensures var (after, failed) := Purge(s, w, ids, env);
            && failed == env.failed * ids
            && AllFinished(after.coord.log)
            && RemovesAdded(s, w.coord.log, after.coord.log, ids, |s.names|)
            && RemovedFrom(s, w.coord.idx, after.coord.idx, ids, |s.names|)
            && SurfacesClear(s, after, ids, {})
  {
    PurgeVectorsSucceeds(s, w.coord, ids, env.ticks, |s.names|);
    assert s.names[..|s.names|] == s.names;
    var (after, failed) := Purge(s, w, ids, env);
    forall i | i in ids
      ensures AbsentEverywhere(s, after, i, {})
    {
      forall n | 0 <= n < |s.names|
        ensures !Contains(after.coord.idx[s.names[n]], i)
      {
        assert s.names[n] in s.names;
      }
    }
  }

  /**
   What the vector stores report: an id failed exactly when some store still had a live row of
   it, in some generation, after that store's own removal was driven.
   */
  lemma {:induction false} PurgeReports(s: Setup, c: Coord, ids: set<Id>, ticks: nat -> nat -> Attempt, n: nat, id: Id)
    requires n <= |s.names|
    ensures id in PurgeVectors(s, c, ids, ticks, n).1 <==>
              exists m, gen :: 0 <= m < n && id in ids && StillLive(s, c, ids, ticks, m, id, gen)
  {
    hide Drained, Append, Live;
    if n > 0 {
      PurgeReports(s, c, ids, ticks, n - 1, id);
      var idx, name := PurgeVectors(s, c, ids, ticks, n).0.idx, s.names[n - 1];
      if name in idx {
        ContainsIsLive(idx[name], id);
        if id in ids && Contains(idx[name], id) {
          var gen :| id in Live(idx[name], gen);
          assert StillLive(s, c, ids, ticks, n - 1, id, gen);
        }
      }
    }
  }

  predicate StillLive(
    s: Setup, c: Coord, ids: set<Id>, ticks: nat -> nat -> Attempt, m: nat, id: Id, gen: int)
    requires m < |s.names|
  {
    var idx := PurgeVectors(s, c, ids, ticks, m + 1).0.idx;
    s.names[m] in idx && id in Live(idx[s.names[m]], gen)
  }

  // ---- the objects ----

  /** Derived artifacts by record id (DerivedArtifactSurface). */
  class ArtifactSurface {
    var byId: map<Id, seq<string>>

    constructor ()
      ensures byId == map[]
    {
      byId := map[];
    }

    method Put(id: Id, blob: string)
      modifies this
      ensures byId == old(byId)[id := (if id in old(byId) then old(byId)[id] else []) + [blob]]
    {
      byId := byId[id := (if id in byId then byId[id] else []) + [blob]];
    }

    method Remove(ids: set<Id>)
      modifies this
      ensures byId == old(byId) - ids
    {
      byId := byId - ids;
    }
  }

  class SurfaceRegistry {
    const setup: Setup
    const lexical: LexicalStore
    const coordinator: WriteCoordinator
    const artifacts: ArtifactSurface

    constructor (setup: Setup, lexical: LexicalStore, coordinator: WriteCoordinator, artifacts: ArtifactSurface)
      ensures this.setup == setup && this.lexical == lexical
      ensures this.coordinator == coordinator && this.artifacts == artifacts
    {
      this.setup, this.lexical, this.coordinator, this.artifacts := setup, lexical, coordinator, artifacts;
    }

    /** Every vector store is registered with the coordinator under its name. */
    ghost predicate Valid()
      reads coordinator`handlers
    {
      && coordinator.Valid()
      && coordinator.cfg == setup.cfg
      && forall n :: 0 <= n < |setup.names| ==> setup.names[n] in coordinator.handlers
    }

    /** CoordinatedVectorSurface.remove for one store; the answer is what is still there. */
    method RemoveFrom(n: nat, ids: set<Id>, ticks: nat -> Attempt) returns (still: set<Id>)
      requires Valid() && n < |setup.names|
      modifies coordinator`log, coordinator.Stores()
      ensures Valid() && coordinator.handlers == old(coordinator.handlers)
      ensures coordinator.Model() == RemoveVia(setup, old(coordinator.Model()), setup.names[n], ids, ticks)
      ensures still == StillIn(coordinator.IndexMap(), setup.names[n], ids)
      ensures forall i :: i in still <==>
                i in ids && exists gen :: i in Live(coordinator.handlers[setup.names[n]].Model(), gen)
    {
      coordinator.Enqueue(Operation(FreshOpId(coordinator.log), RemoveIndex, ids, setup.names[n], []));
      assert coordinator.IndexMap() == old(coordinator.IndexMap());
      var applied := coordinator.RunUntilIdle(ticks, MAX_STEPS);
      var store := coordinator.handlers[setup.names[n]];
      still := set i | i in ids && Contains(store.Model(), i);
      forall i
        ensures Contains(store.Model(), i) <==> exists gen :: i in Live(store.Model(), gen)
      {
        ContainsIsLive(store.Model(), i);
      }
    }

    /** Remove the ids from every surface; the answer is the ids some surface did not let go. */
    method Purge(ids: set<Id>, env: PurgeEnv) returns (failed: set<Id>)
      requires Valid()
      modifies lexical, artifacts, coordinator`log, coordinator.Stores()
      ensures Valid() && coordinator.handlers == old(coordinator.handlers)
      ensures lexical.postings == old(lexical.postings) - ids && artifacts.byId == old(artifacts.byId) - ids
      ensures coordinator.Model() == PurgeVectors(setup, old(coordinator.Model()), ids, env.ticks, |setup.names|).0
      ensures failed
           == PurgeVectors(setup, old(coordinator.Model()), ids, env.ticks, |setup.names|).1 + env.failed * ids
    {
      hide PurgeVectors;
      lexical.Remove(ids);
      failed := PurgeStores(ids, env.ticks);
      artifacts.Remove(ids);
      failed := failed + env.failed * ids;
    }

    /** The vector stores' turn of a purge. */
    method PurgeStores(ids: set<Id>, ticks: nat -> nat -> Attempt) returns (failed: set<Id>)
      requires Valid()
      modifies coordinator`log, coordinator.Stores()
      ensures Valid() && coordinator.handlers == old(coordinator.handlers)
      ensures (coordinator.Model(), failed)
           == PurgeVectors(setup, old(coordinator.Model()), ids, ticks, |setup.names|)
    {
      hide RemoveVia, StillIn;
      failed := {};
      for n := 0 to |setup.names|
        invariant Valid() && coordinator.handlers == old(coordinator.handlers)
        invariant (coordinator.Model(), failed) == PurgeVectors(setup, old(coordinator.Model()), ids, ticks, n)
      {
        var still := RemoveFrom(n, ids, ticks(n));
        failed := failed + still;
      }
    }

    /** Whether no surface still holds any of the ids. */
    method Verify(ids: set<Id>, present: set<Id>) returns (clear: bool)
      requires Valid()
      ensures clear <==> forall i :: i in ids ==>
        && i !in lexical.postings && i !in artifacts.byId && i !in present
        && forall n :: 0 <= n < |setup.names| ==> !Contains(coordinator.IndexMap()[setup.names[n]], i)
      ensures clear ==> forall i, n, gen :: i in ids && 0 <= n < |setup.names| ==>
                i !in Live(coordinator.handlers[setup.names[n]].Model(), gen)
    {
      var inLexical := exists i :: i in ids && i in lexical.postings;
      var elsewhere := exists i :: i in ids && (i in artifacts.byId || i in present);
      if inLexical || elsewhere {
        return false;
      }
      for n := 0 to |setup.names|
        invariant forall i, m :: i in ids && 0 <= m < n ==> !Contains(coordinator.IndexMap()[setup.names[m]], i)
      {
        var store := coordinator.handlers[setup.names[n]];
        if exists i :: i in ids && Contains(store.Model(), i) {
          return false;
        }
      }
      forall i, n, gen | i in ids && 0 <= n < |setup.names|
        ensures i !in Live(coordinator.handlers[setup.names[n]].Model(), gen)
      {
        assert coordinator.IndexMap()[setup.names[n]] == coordinator.handlers[setup.names[n]].Model();
        ContainsIsLive(coordinator.IndexMap()[setup.names[n]], i);
      }
      return true;
    }
  }
}
