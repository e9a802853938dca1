/**
 What one engine operation leaves behind, told in rows, postings and what a search can return:
 the canonical part for every handler behaviour, the searches for handlers that succeed.
 */
module EngineOutcomes {
  import opened Records
  import opened VectorStore
  import opened OpLog
  import opened Canonical
  import opened Lexical
  import opened Surfaces
  import opened Deletion
  import opened Engine
  import opened Resolver
  import opened EngineRuns

  /** A search of this generation of this store can return the id, with this hash. */
  predicate Returns(idx: Indexes, name: string, gen: int, id: Id, hash: string) {
    name in idx && id in Live(idx[name], gen) && Live(idx[name], gen)[id].contentHash == hash
  }

  lemma ServedIsReturned(s: Setup, idx: Indexes, id: Id, gen: int, hash: string, n: nat)
    requires ServedEverywhere(s, idx, id, gen, hash) && n < |s.names| && s.names[n] in idx
    ensures Returns(idx, s.names[n], gen, id, hash)
  {
    ServesIsLive(idx[s.names[n]], id, gen, hash);
  }

  // ---- writing and updating ----

  /** A write stores the row, posts its content and, with a drained log, reaches every store. */
  lemma WriteOutcome(s: Setup, w: World, rec: Record, gen: int, now: int, ticks: nat -> Attempt, r: World)
    requires r == MemoryWritten(s, w, rec, gen, now, ticks)
    ensures r.canon.records == w.canon.records[rec.id := rec.(updatedAt := now)]
    ensures r.canon.deps == w.canon.deps && r.canon.tombs == w.canon.tombs
    ensures r.fts == w.fts[rec.id := rec.content]
    ensures r.artifacts == w.artifacts && r.generation == w.generation
    ensures WellWired(s, w.coord.idx) && AllFinished(w.coord.log) && AllComplete(ticks) ==>
              forall n :: 0 <= n < |s.names| ==> Returns(r.coord.idx, s.names[n], gen, rec.id, rec.contentHash)
  {
    if WellWired(s, w.coord.idx) && AllFinished(w.coord.log) && AllComplete(ticks) {
      WriteIsIndexed(s, w.coord, rec.(updatedAt := now), gen, ticks);
      hide IndexedVia;
      UpsertServes(s, w.coord.idx, r.coord.idx, VectorRow(rec, gen));
      forall n | 0 <= n < |s.names|
        ensures Returns(r.coord.idx, s.names[n], gen, rec.id, rec.contentHash)
      {
        ServedIsReturned(s, r.coord.idx, rec.id, gen, rec.contentHash, n);
      }
    }
  }

  /**
   A content update: the row keeps everything but content, hash and time stamp, the posting is
   the new content, and every store comes to serve the new hash in the active generation. An
   unknown id changes nothing.
   */
  lemma UpdateOutcome(s: Setup, w: World, id: Id, content: string, now: int, ticks: nat -> Attempt)
    requires Keyed(w.canon)
    ensures ContentUpdated(s, w, id, content, now, ticks).Some? <==> id in w.canon.records
    ensures id in w.canon.records ==>
              var r := ContentUpdated(s, w, id, content, now, ticks).value;
              var row := w.canon.records[id].(content := content, contentHash := s.hash(content), updatedAt := now);
              && r.canon.records == w.canon.records[id := row]
              && r.canon.deps == w.canon.deps && r.canon.tombs == w.canon.tombs
              && r.fts == w.fts[id := content]
              && r.artifacts == w.artifacts && r.generation == w.generation
              && (WellWired(s, w.coord.idx) && AllFinished(w.coord.log) && AllComplete(ticks) ==>
                    forall n :: 0 <= n < |s.names| ==>
                      Returns(r.coord.idx, s.names[n], w.generation, id, s.hash(content)))
  {
    if id in w.canon.records {
      var updated := w.canon.records[id].(content := content, contentHash := s.hash(content));
      var dropped := w.(fts := w.fts - {id});
      WriteOutcome(s, dropped, updated, w.generation, now, ticks,
                   MemoryWritten(s, dropped, updated, w.generation, now, ticks));
      hide MemoryWritten, Returns;
      assert (w.fts - {id})[id := content] == w.fts[id := content];
    }
  }

  // ---- correcting ----

  /**
   A correction that completes replaces the old record on every surface: its posting and
   artifacts go, whatever the handlers do; with handlers that succeed no search of any
   generation returns it, and every store serves the new one.
   */
  lemma CorrectionOutcome(
    s: Setup, w: World, oldId: Id, rec: Record, rel: Relation, now: int, env: PurgeEnv, ticks: nat -> Attempt, r: World)
    requires oldId in w.canon.records && oldId != rec.id
    requires r == Corrected(s, w, oldId, rec, rel, now, env, ticks).0
    ensures r.fts == w.fts[rec.id := rec.content] - {oldId} && r.artifacts == w.artifacts - {oldId}
    ensures forall i :: i in w.canon.records && i != oldId && i != rec.id ==>
              i in r.canon.records && r.canon.records[i] == w.canon.records[i]
    ensures WellWired(s, w.coord.idx) && AllFinished(w.coord.log) && PurgeSmooth(env) && AllComplete(ticks) ==>
              forall n :: 0 <= n < |s.names| ==>
                && Returns(r.coord.idx, s.names[n], w.generation, rec.id, rec.contentHash)
                && forall gen :: oldId !in Live(r.coord.idx[s.names[n]], gen)
  {
    hide PurgeVectors, IndexedVia, Live;
    if WellWired(s, w.coord.idx) && AllFinished(w.coord.log) && PurgeSmooth(env) && AllComplete(ticks) {
      var marked := WithStatus(Written(w.canon, rec, now), oldId, StatusAfter(rel), now);
      var linked := w.(canon := Linked(marked, Edge(rec.id, oldId, rel)), fts := w.fts[rec.id := rec.content]);
      var purged := Purge(s, linked, {oldId}, env).0;
      PurgeSucceeds(s, linked, {oldId}, env);
      WriteIsIndexed(s, purged.coord, rec.(updatedAt := now), w.generation, ticks);
      assert r == purged.(coord := r.coord);
      hide Purge, Corrected;
      NewServedOldGone(s, w.coord.idx, purged.coord.idx, r.coord.idx, oldId, VectorRow(rec, w.generation));
    }
  }

  /** A correction that keeps history in the indexes changes the same rows but purges nothing. */
  lemma HistoryKept(
    s: Setup, w: World, oldId: Id, rec: Record, rel: Relation, now: int, env: PurgeEnv, r: World)
    requires oldId in w.canon.records
    requires r == Replaced(s, w, oldId, rec, rel, true, now, env).0
    ensures r.canon == Replaced(s, w, oldId, rec, rel, false, now, env).0.canon
    ensures r.fts == w.fts[rec.id := rec.content] && r.artifacts == w.artifacts && r.coord == w.coord
  {
    hide PurgeVectors;
  }

  lemma NewServedOldGone(s: Setup, idx: Indexes, purged: Indexes, after: Indexes, oldId: Id, row: VectorRecord)
    requires WellWired(s, idx) && row.id != oldId
    requires RemovedFrom(s, idx, purged, {oldId}, |s.names|) && UpsertedInto(s, purged, after, row, |s.names|)
    ensures forall n :: 0 <= n < |s.names| ==>
              && Returns(after, s.names[n], row.generation, row.id, row.contentHash)
              && forall gen :: oldId !in Live(after[s.names[n]], gen)
  {
    assert s.names[..|s.names|] == s.names;
    UpsertServes(s, purged, after, row);
    forall n | 0 <= n < |s.names|
      ensures Returns(after, s.names[n], row.generation, row.id, row.contentHash)
      ensures forall gen :: oldId !in Live(after[s.names[n]], gen)
    {
      assert s.names[n] in s.names;
      ServedIsReturned(s, after, row.id, row.generation, row.contentHash, n);
    }
  }

  // ---- merging ----

  /** Which duplicates a merge takes: those that are neither the primary nor tombstoned. */
  lemma {:induction false} MergeTakes(c: Canon, primary: Id, dups: seq<Id>, n: nat, now: int)
    requires n <= |dups|
    ensures var (r, removed, ok) := MergeMarks(c, primary, dups, n, now);
            && (ok <==> forall k :: 0 <= k < n ==>
                  dups[k] == primary || dups[k] in c.tombs || (dups[k] in c.records && primary in c.records))
            && (ok ==> forall i :: i in removed <==> i in dups[..n] && i != primary && i !in c.tombs)
  {
    hide Linked;
    if n > 0 {
      MergeTakes(c, primary, dups, n - 1, now);
      MergeMarksEffect(c, primary, dups, n - 1, now);
      assert dups[..n] == dups[..n - 1] + [dups[n - 1]];
    }
  }

  /**
   A merge completes exactly when every duplicate it takes, and then the primary too, has a row.
   Each one taken ends superseded, linked below the primary, without posting or artifact and, with
   handlers that succeed, out of every search; every other record stays as it was. A merge that
   stops has purged nothing.
   */
  lemma MergeOutcome(s: Setup, w: World, primary: Id, dups: seq<Id>, now: int, env: PurgeEnv, r: World, ok: bool)
    requires (r, ok) == RecordsMerged(s, w, primary, dups, now, env)
    ensures ok <==> forall d :: d in dups ==>
              d == primary || d in w.canon.tombs || (d in w.canon.records && primary in w.canon.records)
    ensures ok ==> forall d :: d in dups && d != primary && d !in w.canon.tombs ==>
              && d in r.canon.records && r.canon.records[d].status == Superseded
              && r.canon.records[d].content == w.canon.records[d].content
              && Edge(primary, d, Supersedes) in r.canon.deps
              && d !in r.fts && d !in r.artifacts
    ensures ok && WellWired(s, w.coord.idx) && AllFinished(w.coord.log) && PurgeSmooth(env) ==>
              forall d, n, gen :: d in dups && d != primary && d !in w.canon.tombs && 0 <= n < |s.names| ==>
                s.names[n] in r.coord.idx && d !in Live(r.coord.idx[s.names[n]], gen)
    ensures forall i :: i in w.canon.records && (i == primary || i !in dups) ==>
              i in r.canon.records && r.canon.records[i] == w.canon.records[i]
    ensures r.canon.tombs == w.canon.tombs && r.canon.records.Keys == w.canon.records.Keys
    ensures !ok ==> r.fts == w.fts && r.artifacts == w.artifacts && r.coord == w.coord
  {
    var (canon, removed, done) := MergeMarks(w.canon, primary, dups, |dups|, now);
    assert dups[..|dups|] == dups;
    MergeMarksEffect(w.canon, primary, dups, |dups|, now);
    MergeTakes(w.canon, primary, dups, |dups|, now);
    hide MergeMarks, PurgeVectors, Live;
    var marked := w.(canon := canon);
    assert ok == done && r.canon == canon;
    if ok && removed != {} && WellWired(s, w.coord.idx) && AllFinished(w.coord.log) && PurgeSmooth(env) {
      PurgeSucceeds(s, marked, removed, env);
      hide Purge;
      RemovedNotLive(s, w.coord.idx, r.coord.idx, removed);
    }
  }

  lemma RemovedNotLive(s: Setup, idx: Indexes, after: Indexes, ids: set<Id>)
    requires WellWired(s, idx) && RemovedFrom(s, idx, after, ids, |s.names|)
    ensures forall d, n, gen :: d in ids && 0 <= n < |s.names| ==>
              s.names[n] in after && d !in Live(after[s.names[n]], gen)
  {
    assert s.names[..|s.names|] == s.names;
    forall n | 0 <= n < |s.names|
      ensures s.names[n] in after && after[s.names[n]] == Removed(idx[s.names[n]], ids)
    {
      assert s.names[n] in s.names;
    }
  }

  // ---- retrying a deletion ----

  /**
   Attempting a job again: an error exactly when no tombstone carries the job; otherwise all its
   ids end VERIFIED, and then no search, posting, artifact or, in hard mode, row has them, or all
   end in MANUAL_ATTENTION; everything else stays as it was.
   */
  lemma RetryOutcome(
    s: Setup, w: World, jobId: nat, mode: Mode, envs: nat -> PurgeEnv, now: int, ids: set<Id>, r: Option<World>)
    returns (k: nat)
    requires forall i :: i in ids <==> i in w.canon.tombs && w.canon.tombs[i].jobId == jobId
    requires r == DeletionRetried(s, w, jobId, mode, envs, now)
    ensures r.None? <==> ids == {}
    ensures r.Some? ==>
              && r.value.canon.tombs.Keys == w.canon.tombs.Keys
              && (forall i :: i in w.canon.tombs && i !in ids ==> r.value.canon.tombs[i] == w.canon.tombs[i])
              && (forall i :: i in w.canon.records && i !in ids ==>
                    i in r.value.canon.records && r.value.canon.records[i] == w.canon.records[i])
    ensures r.Some? && (exists i :: i in ids && r.value.canon.tombs[i].state != ManualAttention) ==>
              && (forall i :: i in ids ==>
                    && r.value.canon.tombs[i].state == Verified
                    && i !in r.value.fts && i !in r.value.artifacts && i !in envs(k).present
                    && (mode == Hard ==> i !in r.value.canon.records))
              && (forall i, n, gen :: i in ids && 0 <= n < |s.names| && s.names[n] in r.value.coord.idx ==>
                    i !in Live(r.value.coord.idx[s.names[n]], gen))
  {
    assert JobIds(w.canon, jobId) == ids;
    k := 0;
    if ids != {} {
      hide PurgeAndVerify, Succeeded, EndsAt, NotRetrievable;
      k := FlowOutcome(s, w, ids, mode, envs, 0, now);
      if Succeeded(s, w, ids, mode, envs, 0, k) {
        ClearIsNotLive(s, r.value, ids, mode, envs(k).present);
      }
    }
  }
}
