/**
 A reindex that does not fit into one drain: the drain applies the first MAX_STEPS upserts and
 leaves the rest pending, so exactly the records at the front of the list are served in the new
 generation, and promoting it loses the others.
 */
module EngineReindex {
  import opened Records
  import opened VectorStore
  import opened OpLog
  import opened Canonical
  import opened Surfaces
  import opened Engine
  import opened Resolver
  import opened EngineRuns

  // ---- what the queue looks like ----

  /** Upserts exactly one row. */
  predicate UpsertsOne(op: Operation) {
    op.opType == UpsertIndex && |op.payload| == 1
  }

  /** Behind position `from`, one upsert of this row per store, in the order of the stores. */
  predicate OnePerStore(s: Setup, log: seq<OpRow>, from: nat, row: VectorRecord) {
    && from <= |log| <= from + |s.names|
    && forall j :: from <= j < |log| ==>
         UpsertsOne(log[j].op) && log[j].op.payload[0] == row && log[j].op.target == s.names[j - from]
  }

  /** Behind position `from`, upserts of the current rows of records with these ids only. */
  predicate UpsertsAmong(log: seq<OpRow>, from: nat, c: Canon, gen: int, ids: seq<Id>) {
    forall j :: from <= j < |log| ==> UpsertsOne(log[j].op) && RowOf(c, gen, ids, log[j].op.payload[0])
  }

  predicate RowOf(c: Canon, gen: int, ids: seq<Id>, row: VectorRecord) {
    row.id in ids && row.id in c.records && row == VectorRow(c.records[row.id], gen)
  }

  lemma {:induction false} UpsertRows(s: Setup, c: Coord, rec: Record, gen: int, n: nat)
    requires n <= |s.names|
    ensures var log := Upserts(s, c, rec, gen, n).log;
            && |log| == |c.log| + n && log[..|c.log|] == c.log
            && OnePerStore(s, log, |c.log|, VectorRow(rec, gen))
  {
    hide Enqueued, FreshOpId;
    if n > 0 {
      UpsertRows(s, c, rec, gen, n - 1);
      var before := Upserts(s, c, rec, gen, n - 1);
      AppendIsFresh(before, UpsertIndex, {rec.id}, s.names[n - 1], [VectorRow(rec, gen)]);
      var log := Upserts(s, c, rec, gen, n).log;
      OneMoreRow(s, |c.log|, before.log, log, VectorRow(rec, gen), log[|before.log|]);
    }
  }

  lemma OneMoreRow(s: Setup, from: nat, before: seq<OpRow>, log: seq<OpRow>, row: VectorRecord, last: OpRow)
    requires OnePerStore(s, before, from, row) && log == before + [last] && |before| - from < |s.names|
    requires last.op.opType == UpsertIndex && last.op.payload == [row] && last.op.target == s.names[|before| - from]
    ensures OnePerStore(s, log, from, row) && log[..from] == before[..from]
  {
  }

  /** The ids a reindex takes: the existing, untombstoned ones, in order and as often as given. */
  function Taken(c: Canon, ids: seq<Id>): (r: seq<Id>)
    ensures AllTaken(c, r)
    ensures forall id :: id in r <==> id in ids && id in c.records && id !in c.tombs
  {
    if ids == [] then []
    else
      var id := ids[|ids| - 1];
      assert ids == ids[..|ids| - 1] + [id];
      Taken(c, ids[..|ids| - 1]) + if id in c.records && id !in c.tombs then [id] else []
  }

  predicate AllTaken(c: Canon, ids: seq<Id>) {
    forall k :: 0 <= k < |ids| ==> ids[k] in c.records && ids[k] !in c.tombs
  }

  lemma {:induction false} SkippedDoNotMatter(s: Setup, c: Coord, canon: Canon, gen: int, ids: seq<Id>, n: nat)
    requires n <= |ids|
    ensures ReindexOps(s, c, canon, gen, ids, n)
         == ReindexOps(s, c, canon, gen, Taken(canon, ids[..n]), |Taken(canon, ids[..n])|)
  {
    if n > 0 {
      SkippedDoNotMatter(s, c, canon, gen, ids, n - 1);
      var before, after, id := Taken(canon, ids[..n - 1]), Taken(canon, ids[..n]), ids[n - 1];
      assert ids[..n][..n - 1] == ids[..n - 1];
      assert after == before + if id in canon.records && id !in canon.tombs then [id] else [];
      hide Append, Upserts, Taken, AllTaken;
      if after != before {
        OpsOfPrefix(s, c, canon, gen, after, before, |before|);
      }
    }
  }

  lemma {:induction false} OpsOfPrefix(s: Setup, c: Coord, canon: Canon, gen: int, a: seq<Id>, b: seq<Id>, n: nat)
    requires n <= |a| && n <= |b| && forall k :: 0 <= k < n ==> a[k] == b[k]
    ensures ReindexOps(s, c, canon, gen, a, n) == ReindexOps(s, c, canon, gen, b, n)
  {
    hide Upserts;
    if n > 0 {
      OpsOfPrefix(s, c, canon, gen, a, b, n - 1);
    }
  }

  /** A reindex does what reindexing only the taken ids does. */
  lemma ReindexedTaken(s: Setup, w: World, gen: int, ids: seq<Id>, ticks: nat -> Attempt)
    ensures Reindexed(s, w, gen, ids, ticks) == Reindexed(s, w, gen, Taken(w.canon, ids), ticks)
  {
    hide Drained, ReindexOps;
    assert ids[..|ids|] == ids;
    SkippedDoNotMatter(s, w.coord, w.canon, gen, ids, |ids|);
  }

  /** Behind the first `a` records' upserts come those of the next ones, up to `b`. */
  lemma {:induction false} ReindexRows(s: Setup, c: Coord, canon: Canon, gen: int, ids: seq<Id>, a: nat, b: nat)
    requires a <= b <= |ids| && AllTaken(canon, ids) && Keyed(canon)
    ensures var front, log := ReindexOps(s, c, canon, gen, ids, a).log, ReindexOps(s, c, canon, gen, ids, b).log;
            && |front| <= |log| == |front| + (b - a) * |s.names| && log[..|front|] == front
            && UpsertsAmong(log, |front|, canon, gen, ids[a..b])
    decreases b
  {
    hide Append;
    if a < b {
      ReindexRows(s, c, canon, gen, ids, a, b - 1);
      var before := ReindexOps(s, c, canon, gen, ids, b - 1);
      UpsertRows(s, before, canon.records[ids[b - 1]], gen, |s.names|);
      hide Upserts, UpsertsAmong, OnePerStore;
      var front, log := ReindexOps(s, c, canon, gen, ids, a).log, ReindexOps(s, c, canon, gen, ids, b).log;
      assert (b - a) * |s.names| == (b - 1 - a) * |s.names| + |s.names|;
      MoreAmong(s, front, before.log, log, canon, gen, ids, a, b);
    }
  }

  lemma MoreAmong(
    s: Setup, front: seq<OpRow>, before: seq<OpRow>, log: seq<OpRow>, c: Canon, gen: int, ids: seq<Id>, a: nat, b: nat)
    requires a < b <= |ids| && Keyed(c) && ids[b - 1] in c.records
    requires |front| <= |before| && before[..|front|] == front
    requires UpsertsAmong(before, |front|, c, gen, ids[a..b - 1])
    requires |before| <= |log| && log[..|before|] == before
    requires OnePerStore(s, log, |before|, VectorRow(c.records[ids[b - 1]], gen))
    ensures log[..|front|] == front && UpsertsAmong(log, |front|, c, gen, ids[a..b])
  {
    assert ids[a..b] == ids[a..b - 1] + [ids[b - 1]];
    assert log[..|front|] == log[..|before|][..|front|];
    forall j | |front| <= j < |before|
      ensures log[j] == before[j]
    {
      assert log[j] == log[..|before|][j];
    }
  }

  // ---- what a part of the queue does ----

  lemma {:induction false} AppliedSplit(log: seq<OpRow>, p: nat, mid: nat, idx: Indexes)
    requires p <= mid <= |log|
    ensures AppliedFrom(log, p, idx) == AppliedFrom(log, mid, AppliedFrom(log[..mid], p, idx))
    decreases mid - p
  {
    if p < mid {
      AppliedSplit(log, p + 1, mid, Applied(log[p].op, idx));
    }
  }

  /** Upserts of other ids leave one id's row and mark alone. */
  lemma {:induction false} RowUntouched(log: seq<OpRow>, p: nat, idx: Indexes, name: string, id: Id, gen: int)
    requires p <= |log| && name in idx
    requires forall j :: p <= j < |log| ==>
               UpsertsOne(log[j].op) && (log[j].op.target == name ==> log[j].op.payload[0].id != id)
    ensures var after := AppliedFrom(log, p, idx);
            && name in after
            && ((id, gen) in after[name].byKey <==> (id, gen) in idx[name].byKey)
            && ((id, gen) in idx[name].byKey ==> after[name].byKey[(id, gen)] == idx[name].byKey[(id, gen)])
            && (id in after[name].deleted <==> id in idx[name].deleted)
    decreases |log| - p
  {
    if p < |log| {
      UntouchedByOne(log[p].op, idx, name, id, gen);
      hide Applied;
      RowUntouched(log, p + 1, Applied(log[p].op, idx), name, id, gen);
    }
  }

  lemma UntouchedByOne(op: Operation, idx: Indexes, name: string, id: Id, gen: int)
    requires name in idx && UpsertsOne(op) && (op.target == name ==> op.payload[0].id != id)
    ensures var after := Applied(op, idx);
            && name in after
            && ((id, gen) in after[name].byKey <==> (id, gen) in idx[name].byKey)
            && ((id, gen) in idx[name].byKey ==> after[name].byKey[(id, gen)] == idx[name].byKey[(id, gen)])
            && (id in after[name].deleted <==> id in idx[name].deleted)
  {
    if op.target == name {
      assert op.payload[..0] == [];
      assert Upserted(idx[name], op.payload) == UpsertOne(idx[name], op.payload[0]);
    }
  }

  // ---- who is served ----

  /** What the first MAX_STEPS upserts leave. */
  lemma ReindexReaches(s: Setup, w: World, gen: int, ids: seq<Id>, ticks: nat -> Attempt)
    requires Coherent(s, w) && AllComplete(ticks)
    ensures var log := ReindexOps(s, w.coord, w.canon, gen, ids, |ids|).log;
            && |w.coord.log| <= |log|
            && Reindexed(s, w, gen, ids, ticks).coord.idx
               == AppliedFrom(log[..Reach(log, |w.coord.log|, MAX_STEPS)], |w.coord.log|, w.coord.idx)
  {
    var after := QueueReindex(s, w.coord, w.canon, gen, ids, |ids|);
    DrainFreshTail(s.cfg, ReindexOps(s, w.coord, w.canon, gen, ids, |ids|), ticks, |w.coord.log|, 0, MAX_STEPS);
  }

  /** A served row stays served under upserts of other ids and of the same row. */
  lemma {:induction false} StaysServed(log: seq<OpRow>, p: nat, idx: Indexes, name: string, row: VectorRecord)
    requires p <= |log| && name in idx && Serves(idx[name], row.id, row.generation, row.contentHash)
    requires forall j :: p <= j < |log| ==>
               UpsertsOne(log[j].op) && (log[j].op.payload[0].id == row.id ==> log[j].op.payload[0] == row)
    ensures var after := AppliedFrom(log, p, idx);
            name in after && Serves(after[name], row.id, row.generation, row.contentHash)
    decreases |log| - p
  {
    if p < |log| {
      var op := log[p].op;
      var next := Applied(op, idx);
      assert next.Keys == idx.Keys && Serves(next[name], row.id, row.generation, row.contentHash) by {
        assert op.payload[..0] == [];
        assert op.target == name && name in idx ==>
          Upserted(idx[name], op.payload) == UpsertOne(idx[name], op.payload[0]);
      }
      hide Applied, Serves;
      StaysServed(log, p + 1, Applied(op, idx), name, row);
    }
  }

  lemma ServedStays(
    s: Setup, log: seq<OpRow>, p: nat, mid: nat, idx: Indexes, front: Indexes, c: Canon, gen: int, rest: seq<Id>,
    id: Id)
    requires p <= mid <= |log| && front == AppliedFrom(log[..mid], p, idx) && WellWired(s, front)
    requires Keyed(c) && id in c.records && UpsertsAmong(log, mid, c, gen, rest)
    requires ServedEverywhere(s, front, id, gen, c.records[id].contentHash)
    ensures ServedEverywhere(s, AppliedFrom(log, p, idx), id, gen, c.records[id].contentHash)
  {
    AppliedSplit(log, p, mid, idx);
    hide AppliedFrom, UpsertsOne;
    forall n | 0 <= n < |s.names|
      ensures var after := AppliedFrom(log, p, idx);
              s.names[n] in after && Serves(after[s.names[n]], id, gen, c.records[id].contentHash)
    {
      StaysServed(log, mid, front, s.names[n], VectorRow(c.records[id], gen));
    }
  }

  /** The queue up to the upserts of the taken id at `k`, and what is behind them. */
  lemma QueueUpTo(s: Setup, w: World, gen: int, ids: seq<Id>, k: nat, log: seq<OpRow>) returns (front: Indexes)
    requires Coherent(s, w) && AllTaken(w.canon, ids) && k < |ids|
    requires log == ReindexOps(s, w.coord, w.canon, gen, ids, |ids|).log
    ensures var p := |w.coord.log|;
            var mid := p + (k + 1) * |s.names|;
            && p <= mid <= |log|
            && front == AppliedFrom(log[..mid], p, w.coord.idx) && WellWired(s, front)
            && UpsertsAmong(log, mid, w.canon, gen, ids[k + 1..])
            && ServedEverywhere(s, front, ids[k], gen, w.canon.records[ids[k]].contentHash)
  {
    hide Append, Upserts, UpsertsAmong, Indexed, ServedEverywhere, AppliedFrom, Acknowledged;
    front := QueueReindex(s, w.coord, w.canon, gen, ids, k + 1);
    ReindexRows(s, w.coord, w.canon, gen, ids, 0, k + 1);
    ReindexRows(s, w.coord, w.canon, gen, ids, k + 1, |ids|);
    assert ids[k + 1..|ids|] == ids[k + 1..];
  }

  /** All upserts of the first `k + 1` taken ids fit: the one at `k` is served everywhere. */
  lemma FrontIsServed(s: Setup, w: World, gen: int, ids: seq<Id>, ticks: nat -> Attempt, k: nat)
    requires Coherent(s, w) && AllComplete(ticks) && AllTaken(w.canon, ids) && k < |ids|
    requires (k + 1) * |s.names| <= MAX_STEPS
    ensures ServedEverywhere(s, Reindexed(s, w, gen, ids, ticks).coord.idx, ids[k], gen,
                             w.canon.records[ids[k]].contentHash)
  {
    hide Append, Upserts, Indexed, ServedEverywhere, AppliedFrom, Drained;
    var log, p := ReindexOps(s, w.coord, w.canon, gen, ids, |ids|).log, |w.coord.log|;
    ReindexReaches(s, w, gen, ids, ticks);
    var front := QueueUpTo(s, w, gen, ids, k, log);
    var end, mid := Reach(log, p, MAX_STEPS), p + (k + 1) * |s.names|;
    assert log[..end][..mid] == log[..mid];
    ServedStays(s, log[..end], p, mid, w.coord.idx, front, w.canon, gen, ids[k + 1..], ids[k]);
  }

  /** In front of the last upsert of an id's first occurrence nothing writes it into the last store. */
  lemma RowsBefore(s: Setup, w: World, gen: int, ids: seq<Id>, k: nat, log: seq<OpRow>)
    requires Coherent(s, w) && AllTaken(w.canon, ids) && |s.names| > 0
    requires k < |ids| && ids[k] !in ids[..k]
    requires log == ReindexOps(s, w.coord, w.canon, gen, ids, |ids|).log
    ensures |w.coord.log| + (k + 1) * |s.names| <= |log|
    ensures forall j :: |w.coord.log| <= j < |w.coord.log| + (k + 1) * |s.names| - 1 ==>
              && UpsertsOne(log[j].op)
              && (log[j].op.target == s.names[|s.names| - 1] ==> log[j].op.payload[0].id != ids[k])
  {
    hide Append, Upserts, Indexed, OnePerStore, UpsertsAmong, UpsertsOne, AllFinished, RowOf;
    var rec := w.canon.records[ids[k]];
    var before := ReindexOps(s, w.coord, w.canon, gen, ids, k);
    var after := ReindexOps(s, w.coord, w.canon, gen, ids, k + 1);
    ReindexRows(s, w.coord, w.canon, gen, ids, 0, k);
    UpsertRows(s, before, rec, gen, |s.names|);
    assert after == Upserts(s, before, rec, gen, |s.names|);
    ReindexRows(s, w.coord, w.canon, gen, ids, k + 1, |ids|);
    assert |after.log| == |w.coord.log| + (k + 1) * |s.names|;
    assert ids[0..k] == ids[..k];
    RowsUntilLast(s, before.log, after.log, log, |w.coord.log|, w.canon, gen, ids[..k], VectorRow(rec, gen));
  }

  lemma RowsUntilLast(
    s: Setup, before: seq<OpRow>, after: seq<OpRow>, log: seq<OpRow>, p: nat, c: Canon, gen: int, ids: seq<Id>,
    row: VectorRecord)
    requires p <= |before| && UpsertsAmong(before, p, c, gen, ids) && row.id !in ids && |s.names| > 0
    requires |after| == |before| + |s.names| && after[..|before|] == before && OnePerStore(s, after, |before|, row)
    requires |after| <= |log| && log[..|after|] == after
    requires forall m, n :: 0 <= m < n < |s.names| ==> s.names[m] != s.names[n]
    ensures forall j :: p <= j < |after| - 1 ==>
              && UpsertsOne(log[j].op)
              && (log[j].op.target == s.names[|s.names| - 1] ==> log[j].op.payload[0].id != row.id)
  {
    forall j | p <= j < |after| - 1
      ensures UpsertsOne(log[j].op)
      ensures log[j].op.target == s.names[|s.names| - 1] ==> log[j].op.payload[0].id != row.id
    {
      assert log[j] == log[..|after|][j] == after[j];
      if j < |before| {
        assert after[j] == after[..|before|][j] == before[j];
      }
    }
  }

  /** The last upsert of an id's first occurrence does not fit: the last store never gets its row. */
  lemma TailIsMissing(s: Setup, w: World, gen: int, ids: seq<Id>, ticks: nat -> Attempt, k: nat)
    requires Coherent(s, w) && AllComplete(ticks) && AllTaken(w.canon, ids)
    requires k < |ids| && ids[k] !in ids[..k] && (k + 1) * |s.names| > MAX_STEPS
    requires (ids[k], gen) !in w.coord.idx[s.names[|s.names| - 1]].byKey
    ensures var after := Reindexed(s, w, gen, ids, ticks).coord.idx;
            var last := s.names[|s.names| - 1];
            last in after && (ids[k], gen) !in after[last].byKey
  {
    hide Append, Upserts, Indexed, ServedEverywhere, AppliedFrom, Drained, UpsertsOne;
    var log, p := ReindexOps(s, w.coord, w.canon, gen, ids, |ids|).log, |w.coord.log|;
    ReindexReaches(s, w, gen, ids, ticks);
    RowsBefore(s, w, gen, ids, k, log);
    RowUntouched(log[..Reach(log, p, MAX_STEPS)], p, w.coord.idx, s.names[|s.names| - 1], ids[k], gen);
  }

  /** Position `k` of the ids that a reindex of this list takes is the first occurrence of `id`. */
  predicate FirstTaken(c: Canon, ids: seq<Id>, id: Id, k: nat) {
    var taken := Taken(c, ids);
    k < |taken| && taken[k] == id && id !in taken[..k]
  }

  /** No store has a row of the id in that generation. */
  predicate NowhereIn(s: Setup, idx: Indexes, id: Id, gen: int) {
    forall n :: 0 <= n < |s.names| && s.names[n] in idx ==> (id, gen) !in idx[s.names[n]].byKey
  }

  /**
   Who a reindex of any list serves: of the records that no store had in that generation,
   exactly those whose upserts, and all before them, are among the first MAX_STEPS. Missing and
   tombstoned ids take no place in that count, repeated ones take as many as they occur.
   */
  lemma ServedByReindexIff(s: Setup, w: World, gen: int, ids: seq<Id>, ticks: nat -> Attempt, id: Id, k: nat)
    requires Coherent(s, w) && AllComplete(ticks) && FirstTaken(w.canon, ids, id, k)
    requires NowhereIn(s, w.coord.idx, id, gen)
    ensures ServedEverywhere(s, Reindexed(s, w, gen, ids, ticks).coord.idx, id, gen, w.canon.records[id].contentHash)
            <==> (k + 1) * |s.names| <= 10_000
  {
    hide Reindexed, Indexed;
    ReindexedTaken(s, w, gen, ids, ticks);
    var taken := Taken(w.canon, ids);
    if (k + 1) * |s.names| <= MAX_STEPS {
      FrontIsServed(s, w, gen, taken, ticks, k);
    } else {
      assert |s.names| > 0;
      TailIsMissing(s, w, gen, taken, ticks, k);
    }
  }

  /**
   Promotion right after such a reindex loses every record behind the limit: no search of the
   generation now served finds it in the last store, and the indexes do not agree on it.
   */
  lemma OverflowLosesRecord(
    s: Setup, w: World, gen: int, ids: seq<Id>, ticks: nat -> Attempt, id: Id, k: nat, promoted: World)
    requires Coherent(s, w) && AllComplete(ticks) && FirstTaken(w.canon, ids, id, k)
    requires NowhereIn(s, w.coord.idx, id, gen) && (k + 1) * |s.names| > 10_000
    requires promoted == Apply(s, w, Migrate(gen, ids, ticks))
    ensures |s.names| > 0 && s.names[|s.names| - 1] in promoted.coord.idx
    ensures id !in Live(promoted.coord.idx[s.names[|s.names| - 1]], promoted.generation)
    ensures id in promoted.canon.records && promoted.canon.records[id] == w.canon.records[id]
    ensures !Indexed(s, promoted, id)
  {
    hide Indexed, Drained, ReindexOps, Live, Taken;
    assert |s.names| > 0;
    ReindexedTaken(s, w, gen, ids, ticks);
    TailIsMissing(s, w, gen, Taken(w.canon, ids), ticks, k);
    NotLiveNotIndexed(s, promoted, id, |s.names| - 1);
  }
}
