/**
 The memory engine (strata/engine.py and the gateway calls over it): what each operation does
 to the canonical tables, the indexes, the log and the active generation.
 */
module Engine {
  import opened Records
  import opened VectorStore
  import opened OpLog
  import opened Canonical
  import opened Lexical
  import opened Surfaces
  import opened Deletion
  import opened Coordinator
  import Resolver

  function VectorRow(rec: Record, gen: int): VectorRecord {
    VectorRecord(rec.id, rec.contentHash, gen)
  }

  /** One upsert per vector store, for the first `n` stores. */
  function Upserts(s: Setup, c: Coord, rec: Record, gen: int, n: nat): Coord
    requires n <= |s.names|
  {
    if n == 0 then c
    else Append(Upserts(s, c, rec, gen, n - 1), UpsertIndex, {rec.id}, s.names[n - 1], [VectorRow(rec, gen)])
  }

  function IndexedVia(s: Setup, c: Coord, rec: Record, gen: int, ticks: nat -> Attempt): Coord {
    Drained(s.cfg, Upserts(s, c, rec, gen, |s.names|), ticks, MAX_STEPS)
  }

  /** Canonical row, then posting, then one coordinated upsert per vector store. */
  function MemoryWritten(s: Setup, w: World, rec: Record, gen: int, now: int, ticks: nat -> Attempt): World {
    var canon := Written(w.canon, rec, now);
    var written := canon.records[rec.id];
    w.(canon := canon, fts := w.fts[written.id := written.content],
       coord := IndexedVia(s, w.coord, written, gen, ticks))
  }

  /** A content update keeps id and status; None is the unknown-id error. */
  function ContentUpdated(s: Setup, w: World, id: Id, content: string, now: int, ticks: nat -> Attempt): Option<World> {
    if id !in w.canon.records then None
    else
      var updated := w.canon.records[id].(content := content, contentHash := s.hash(content));
      Some(MemoryWritten(s, w.(fts := w.fts - {id}), updated, w.generation, now, ticks))
  }

  /** Correct through the deletion service, then index the new record's vectors. */
  function Corrected(
    s: Setup, w: World, oldId: Id, rec: Record, rel: Relation, now: int,
    env: PurgeEnv, ticks: nat -> Attempt): (World, bool)
  {
    var (replaced, ok) := Replaced(s, w, oldId, rec, rel, false, now, env);
    if !ok then (replaced, false)
    else
      var written := Written(w.canon, rec, now).records[rec.id];
      (replaced.(coord := IndexedVia(s, replaced.coord, written, w.generation, ticks)), true)
  }

  /** Mark and link the first `n` duplicates; a missing record stops the loop with an error. */
  function MergeMarks(c: Canon, primary: Id, dups: seq<Id>, n: nat, now: int): (Canon, set<Id>, bool)
    requires n <= |dups|
  {
    if n == 0 then (c, {}, true)
    else
      var (before, removed, ok) := MergeMarks(c, primary, dups, n - 1, now);
      var d := dups[n - 1];
      if !ok then (before, removed, false)
      else if d == primary || d in before.tombs then (before, removed, true)
      else
        var marked := WithStatus(before, d, Superseded, now);
        if !CanLink(marked, primary, d) then (marked, removed, false)
        else (Linked(marked, Edge(primary, d, Supersedes)), removed + {d}, true)
  }

  function RecordsMerged(s: Setup, w: World, primary: Id, dups: seq<Id>, now: int, env: PurgeEnv): (World, bool) {
    var (canon, removed, ok) := MergeMarks(w.canon, primary, dups, |dups|, now);
    var marked := w.(canon := canon);
    if !ok then (marked, false)
    else if removed == {} then (marked, true)
    else (Purge(s, marked, removed, env).0, true)
  }

  /** Upserts for the existing, untombstoned records among the first `n` ids. */
  function ReindexOps(s: Setup, c: Coord, canon: Canon, gen: int, ids: seq<Id>, n: nat): Coord
    requires n <= |ids|
  {
    if n == 0 then c
    else
      var before := ReindexOps(s, c, canon, gen, ids, n - 1);
      var id := ids[n - 1];
      if id !in canon.records || id in canon.tombs then before
      else Upserts(s, before, canon.records[id], gen, |s.names|)
  }

  function Reindexed(s: Setup, w: World, gen: int, ids: seq<Id>, ticks: nat -> Attempt): World {
    w.(coord := Drained(s.cfg, ReindexOps(s, w.coord, w.canon, gen, ids, |ids|), ticks, MAX_STEPS))
  }

  /** Attempting a job again purges and verifies the ids whose tombstone carries it. */
  function DeletionRetried(s: Setup, w: World, jobId: nat, mode: Mode, env: nat -> PurgeEnv, now: int): Option<World> {
    var ids := JobIds(w.canon, jobId);
    if ids == {} then None else Some(PurgeAndVerify(s, w, ids, mode, env, 0, now))
  }

  // ---- a queue of upserts behind a drained log ----

  /** Behind position `p` only fresh operations that will succeed, leading to `goal`. */
  ghost predicate Queued(c: Coord, p: nat, goal: Indexes) {
    && FreshTail(c.log, p)
    && (forall i :: p <= i < |c.log| ==> Acknowledged(c.log[i].op, c.idx.Keys, Completes))
    && AppliedFrom(c.log, p, c.idx) == goal
    && goal.Keys == c.idx.Keys
  }

  lemma {:induction false} AppliedSnoc(log: seq<OpRow>, p: nat, idx: Indexes, row: OpRow)
    requires p <= |log|
    ensures AppliedFrom(log + [row], p, idx) == Applied(row.op, AppliedFrom(log, p, idx))
    decreases |log| - p
  {
    if p < |log| {
      AppliedSnoc(log, p + 1, Applied(log[p].op, idx), row);
    } else {
      assert AppliedFrom(log + [row], p + 1, Applied(row.op, idx)) == Applied(row.op, idx);
    }
  }

  lemma QueueOne(c: Coord, p: nat, goal: Indexes, rec: Record, gen: int, name: string)
    requires Queued(c, p, goal) && name in c.idx
    ensures Queued(Append(c, UpsertIndex, {rec.id}, name, [VectorRow(rec, gen)]), p,
                   goal[name := UpsertOne(goal[name], VectorRow(rec, gen))])
  {
    var row := VectorRow(rec, gen);
    var after := Append(c, UpsertIndex, {rec.id}, name, [row]);
    AppendIsFresh(c, UpsertIndex, {rec.id}, name, [row]);
    AppliedSnoc(c.log, p, c.idx, after.log[|c.log|]);
    assert [row][..0] == [];
    assert Upserted(goal[name], [row]) == UpsertOne(goal[name], row);
    assert row in [row] && PayloadIds([row]) == {rec.id};
  }

  /** Every store after one row was upserted into the first `n` of them. */
  ghost predicate UpsertedInto(s: Setup, idx: Indexes, after: Indexes, row: VectorRecord, n: nat)
    requires n <= |s.names|
  {
    && after.Keys == idx.Keys
    && forall name :: name in idx ==>
         after[name] == if name in s.names[..n] then UpsertOne(idx[name], row) else idx[name]
  }

  lemma {:induction false} QueueUpserts(s: Setup, c: Coord, p: nat, goal: Indexes, rec: Record, gen: int, n: nat)
    returns (after: Indexes)
    requires WellWired(s, c.idx) && Queued(c, p, goal) && n <= |s.names|
    ensures Queued(Upserts(s, c, rec, gen, n), p, after)
    ensures Upserts(s, c, rec, gen, n).idx == c.idx && |Upserts(s, c, rec, gen, n).log| == |c.log| + n
    ensures UpsertedInto(s, goal, after, VectorRow(rec, gen), n)
  {
    if n == 0 {
      after := goal;
    } else {
      var before := QueueUpserts(s, c, p, goal, rec, gen, n - 1);
      var name := s.names[n - 1];
      var queued := Upserts(s, c, rec, gen, n - 1);
      QueueOne(queued, p, before, rec, gen, name);
      AppendIsFresh(queued, UpsertIndex, {rec.id}, name, [VectorRow(rec, gen)]);
      after := before[name := UpsertOne(before[name], VectorRow(rec, gen))];
      OneMoreUpsert(s, goal, before, VectorRow(rec, gen), n);
    }
  }

  lemma OneMoreUpsert(s: Setup, idx: Indexes, before: Indexes, row: VectorRecord, n: nat)
    requires 0 < n <= |s.names| && WellWired(s, idx) && UpsertedInto(s, idx, before, row, n - 1)
    ensures var name := s.names[n - 1];
            UpsertedInto(s, idx, before[name := UpsertOne(before[name], row)], row, n)
  {
    assert s.names[..n] == s.names[..n - 1] + [s.names[n - 1]];
    assert s.names[n - 1] !in s.names[..n - 1];
  }

  lemma DrainQueue(s: Setup, c: Coord, p: nat, goal: Indexes, ticks: nat -> Attempt)
    requires Queued(c, p, goal) && AllComplete(ticks) && |c.log| - p <= MAX_STEPS
    ensures var after := Drained(s.cfg, c, ticks, MAX_STEPS);
            after.idx == goal && AllFinished(after.log)
  {
    DrainWholeTail(s.cfg, c, ticks, p, MAX_STEPS);
  }

  /** A write reaches every vector store within its own drain. */
  lemma WriteIsIndexed(s: Setup, c: Coord, rec: Record, gen: int, ticks: nat -> Attempt)
    requires WellWired(s, c.idx) && AllFinished(c.log) && AllComplete(ticks)
    ensures var after := IndexedVia(s, c, rec, gen, ticks);
            && AllFinished(after.log)
            && UpsertedInto(s, c.idx, after.idx, VectorRow(rec, gen), |s.names|)
  {
    var goal := QueueUpserts(s, c, |c.log|, c.idx, rec, gen, |s.names|);
    DrainQueue(s, Upserts(s, c, rec, gen, |s.names|), |c.log|, goal, ticks);
  }

  // ---- which rows a search can return ----

  /** The id is live in the generation with exactly this content hash. */
  predicate Serves(ix: Index, id: Id, gen: int, hash: string) {
    (id, gen) in ix.byKey && id !in ix.deleted && ix.byKey[(id, gen)].contentHash == hash
  }

  lemma ServesIsLive(ix: Index, id: Id, gen: int, hash: string)
    ensures Serves(ix, id, gen, hash) <==> id in Live(ix, gen) && Live(ix, gen)[id].contentHash == hash
  {
    if id in Live(ix, gen) {
      var k :| k in ix.byKey && k.1 == gen && k.0 !in ix.deleted && k.0 == id;
      assert k == (id, gen);
    }
  }

  ghost predicate ServedEverywhere(s: Setup, idx: Indexes, id: Id, gen: int, hash: string) {
    forall n :: 0 <= n < |s.names| && s.names[n] in idx ==> Serves(idx[s.names[n]], id, gen, hash)
  }

  lemma UpsertServes(s: Setup, idx: Indexes, after: Indexes, row: VectorRecord)
    requires UpsertedInto(s, idx, after, row, |s.names|)
    ensures ServedEverywhere(s, after, row.id, row.generation, row.contentHash)
    ensures forall id, gen, hash :: ServedEverywhere(s, idx, id, gen, hash) ==>
              (id != row.id || hash == row.contentHash) ==> ServedEverywhere(s, after, id, gen, hash)
  {
    assert s.names[..|s.names|] == s.names;
    assert forall n :: 0 <= n < |s.names| ==> s.names[n] in s.names;
  }

  /** The row is stored with this hash, marked deleted or not. */
  ghost predicate StoredEverywhere(s: Setup, idx: Indexes, id: Id, gen: int, hash: string) {
    forall n :: 0 <= n < |s.names| && s.names[n] in idx ==>
      (id, gen) in idx[s.names[n]].byKey && idx[s.names[n]].byKey[(id, gen)].contentHash == hash
  }

  /** One upsert serves its row, revives the id's rows of other generations, and nothing else. */
  lemma UpsertServesIff(s: Setup, idx: Indexes, after: Indexes, row: VectorRecord, id: Id, gen: int, hash: string)
    requires UpsertedInto(s, idx, after, row, |s.names|)
    ensures id != row.id ==> (ServedEverywhere(s, after, id, gen, hash) <==> ServedEverywhere(s, idx, id, gen, hash))
    ensures id == row.id && gen != row.generation ==>
              (ServedEverywhere(s, after, id, gen, hash) <==> StoredEverywhere(s, idx, id, gen, hash))
  {
    assert s.names[..|s.names|] == s.names;
    forall n | 0 <= n < |s.names| && s.names[n] in idx
      ensures after[s.names[n]] == UpsertOne(idx[s.names[n]], row)
    {
      assert s.names[n] in s.names;
    }
  }

  lemma RemoveServes(s: Setup, idx: Indexes, after: Indexes, ids: set<Id>, id: Id, gen: int, hash: string)
    requires RemovedFrom(s, idx, after, ids, |s.names|) && id !in ids
    requires ServedEverywhere(s, idx, id, gen, hash)
    ensures ServedEverywhere(s, after, id, gen, hash)
  {
  }

  // ---- the table of generations ----

  datatype GenerationStatus = Serving | Shadow | Retired

  /** `INSERT OR IGNORE` of one generation. */
  function Registered(
    table: map<int, GenerationStatus>, gen: int, status: GenerationStatus): map<int, GenerationStatus>
  {
    if gen in table then table else table[gen := status]
  }

  /** What is active is retired, and the row of `gen` activated if there is one. */
  function Promoted(table: map<int, GenerationStatus>, gen: int): map<int, GenerationStatus> {
    map g | g in table :: if g == gen then Serving else if table[g] == Serving then Retired else table[g]
  }

  /** The table names exactly the generation that the engine serves from. */
  predicate NamesServed(table: map<int, GenerationStatus>, active: int) {
    active in table && forall g :: g in table ==> (table[g] == Serving <==> g == active)
  }

  /**
   A promotion makes the table name what is served exactly when the generation was registered; a
   restart does so exactly when the table says nothing else already. So an engine that is opened
   with its default generation after a promotion disagrees with its own table.
   */
  lemma TableNamesServedIff(table: map<int, GenerationStatus>, gen: int)
    ensures NamesServed(Promoted(table, gen), gen) <==> gen in table
    ensures NamesServed(Registered(table, gen, Serving), gen) <==>
              forall g :: g in table ==> (table[g] == Serving <==> g == gen)
    ensures forall active :: NamesServed(table, active) ==> NamesServed(Registered(table, gen, Shadow), active)
  {
    var restarted := Registered(table, gen, Serving);
    if NamesServed(restarted, gen) {
      forall g | g in table
        ensures table[g] == Serving <==> g == gen
      {
        assert g in restarted && restarted[g] == table[g];
      }
    }
  }

  // ---- what recall feeds the resolver ----

  /**
   What one store's search contributes: at most `topK` distinct live fitting rows of the
   generation, best first, each reported with its score and stored hash; a row is missing only if
   `topK` rows that score no less are there.
   */
  ghost predicate StoreHits(
    hits: seq<Resolver.Candidate>, ix: Index, gen: int, score: VectorRecord -> real, topK: nat,
    fits: VectorRecord -> bool)
  {
    && |hits| <= topK
    && (forall i, j :: 0 <= i < j < |hits| ==> hits[i].id != hits[j].id && hits[i].score >= hits[j].score)
    && (forall i :: 0 <= i < |hits| ==> IsHit(hits[i], ix, gen, score, fits))
    && (forall id | id in Live(ix, gen) && fits(Live(ix, gen)[id]) ::
          || (exists i :: 0 <= i < |hits| && hits[i].id == id)
          || (|hits| == topK && forall i :: 0 <= i < |hits| ==> hits[i].score >= score(Live(ix, gen)[id])))
  }

  predicate IsHit(
    h: Resolver.Candidate, ix: Index, gen: int, score: VectorRecord -> real, fits: VectorRecord -> bool)
  {
    && h.id in Live(ix, gen) && fits(Live(ix, gen)[h.id])
    && h.score == score(Live(ix, gen)[h.id]) && h.contentHash == Some(Live(ix, gen)[h.id].contentHash)
  }

  function Flat(hits: seq<seq<Resolver.Candidate>>): seq<Resolver.Candidate> {
    if hits == [] then [] else Flat(hits[..|hits| - 1]) + hits[|hits| - 1]
  }

  /** The stores' hits, one after the other: the hits of store `n` follow those of the stores before it. */
  lemma {:induction false} FlatMeaning(hits: seq<seq<Resolver.Candidate>>, n: nat, i: nat)
    requires n < |hits| && i < |hits[n]|
    ensures |Flat(hits[..n])| + i < |Flat(hits)| && Flat(hits)[|Flat(hits[..n])| + i] == hits[n][i]
  {
    var last := |hits| - 1;
    if n < last {
      FlatMeaning(hits[..last], n, i);
      assert hits[..last][..n] == hits[..n];
    }
  }

  /** Nothing else is among them. */
  lemma {:induction false} FlatSound(hits: seq<seq<Resolver.Candidate>>, k: nat) returns (n: nat, i: nat)
    requires k < |Flat(hits)|
    ensures n < |hits| && i < |hits[n]| && hits[n][i] == Flat(hits)[k] && k == |Flat(hits[..n])| + i
  {
    var last := |hits| - 1;
    if k < |Flat(hits[..last])| {
      n, i := FlatSound(hits[..last], k);
      assert hits[..last][..n] == hits[..n];
    } else {
      n, i := last, k - |Flat(hits[..last])|;
    }
  }

  /** The ranked postings joined to active, untombstoned rows, with the canonical hash. */
  function Joined(c: Canon, ranking: seq<(Id, real)>): seq<Resolver.Candidate> {
    if ranking == [] then []
    else
      var (id, rank) := ranking[|ranking| - 1];
      Joined(c, ranking[..|ranking| - 1]) +
        if Current(c, id) then [Resolver.Candidate(id, -rank, Some(c.records[id].contentHash))] else []
  }

  /** The lexical hits: the join, cut at `topK`. */
  function LexicalHits(c: Canon, ranking: seq<(Id, real)>, topK: nat): seq<Resolver.Candidate> {
    var joined := Joined(c, ranking);
    if |joined| <= topK then joined else joined[..topK]
  }

  /** Of the ranked ids below `r`, those that a full-text search returns. */
  function Returned(c: Canon, ranking: seq<(Id, real)>, r: nat): set<nat>
    requires r <= |ranking|
  {
    set m: nat | m < r && ranking[m].0 in c.records && ranking[m].0 !in c.tombs
                 && c.records[ranking[m].0].status in {Active, Reinforced}
  }

  lemma {:induction false} JoinedPrefix(c: Canon, ranking: seq<(Id, real)>, r: nat)
    requires r <= |ranking|
    ensures Joined(c, ranking[..r]) <= Joined(c, ranking)
  {
    if r < |ranking| {
      assert ranking[..|ranking| - 1][..r] == ranking[..r];
      JoinedPrefix(c, ranking[..|ranking| - 1], r);
    } else {
      assert ranking[..r] == ranking;
    }
  }

  lemma {:induction false} JoinedSize(c: Canon, ranking: seq<(Id, real)>, r: nat)
    requires r <= |ranking|
    ensures |Joined(c, ranking[..r])| == |Returned(c, ranking, r)|
    decreases r
  {
    if r > 0 {
      JoinedSize(c, ranking, r - 1);
      assert ranking[..r][..r - 1] == ranking[..r - 1];
      assert Returned(c, ranking, r)
          == Returned(c, ranking, r - 1) + (if Current(c, ranking[r - 1].0) then {r - 1} else {});
    }
  }

  /** A candidate made of a ranked posting whose record is in the table, active and not deleted. */
  predicate IsLexicalHit(c: Canon, posting: (Id, real), h: Resolver.Candidate) {
    && posting.0 in c.records && posting.0 !in c.tombs
    && (c.records[posting.0].status == Active || c.records[posting.0].status == Reinforced)
    && h == Resolver.Candidate(posting.0, -posting.1, Some(c.records[posting.0].contentHash))
  }

  /** The candidate is made of the posting with exactly `k` returned ones before it. */
  ghost predicate ComesFrom(c: Canon, ranking: seq<(Id, real)>, h: Resolver.Candidate, k: nat) {
    exists r: nat :: r < |ranking| && k == |Returned(c, ranking, r)| && IsLexicalHit(c, ranking[r], h)
  }

  /** Each posting that a full-text search returns has its place in the join. */
  lemma JoinedMeaning(c: Canon, ranking: seq<(Id, real)>, r: nat)
    requires r < |ranking| && r in Returned(c, ranking, |ranking|)
    ensures |Returned(c, ranking, r)| < |Joined(c, ranking)|
    ensures IsLexicalHit(c, ranking[r], Joined(c, ranking)[|Returned(c, ranking, r)|])
  {
    JoinedSize(c, ranking, r);
    JoinedPrefix(c, ranking, r + 1);
    assert ranking[..r + 1][..r] == ranking[..r];
    var front := Joined(c, ranking[..r + 1]);
    assert front == Joined(c, ranking)[..|front|];
  }

  /** Each hit of the join comes from the posting with that many returned ones before it. */
  lemma {:induction false} JoinedSound(c: Canon, ranking: seq<(Id, real)>, k: nat) returns (r: nat)
    requires k < |Joined(c, ranking)|
    ensures r < |ranking| && IsLexicalHit(c, ranking[r], Joined(c, ranking)[k])
    ensures k == |Returned(c, ranking, r)|
  {
    var n := |ranking| - 1;
    JoinedSize(c, ranking, n);
    if k < |Joined(c, ranking[..n])| {
      r := JoinedSound(c, ranking[..n], k);
      assert Returned(c, ranking, r) == Returned(c, ranking[..n], r);
    } else {
      r := n;
    }
  }

  /**
   The lexical half of recall: the first `topK` ranked postings whose records are in the table,
   active and not deleted, each in its place with the negated rank and the canonical hash, and
   nothing else.
   */
  lemma LexicalMeaning(c: Canon, ranking: seq<(Id, real)>, topK: nat, hits: seq<Resolver.Candidate>)
    requires hits == LexicalHits(c, ranking, topK)
    ensures |hits| <= topK
    ensures forall r: nat :: r in Returned(c, ranking, |ranking|) && |Returned(c, ranking, r)| < topK ==>
              && |Returned(c, ranking, r)| < |hits|
              && IsLexicalHit(c, ranking[r], hits[|Returned(c, ranking, r)|])
    ensures forall k: nat :: k < |hits| ==> ComesFrom(c, ranking, hits[k], k)
  {
    hide Joined, IsLexicalHit;
    forall r: nat | r in Returned(c, ranking, |ranking|)
      ensures |Returned(c, ranking, r)| < |Joined(c, ranking)|
      ensures IsLexicalHit(c, ranking[r], Joined(c, ranking)[|Returned(c, ranking, r)|])
    {
      JoinedMeaning(c, ranking, r);
    }
    forall k: nat | k < |hits|
      ensures ComesFrom(c, ranking, hits[k], k)
    {
      var r := JoinedSound(c, ranking, k);
    }
  }

  // ---- the engine object ----

  class MemoryEngine {
    const deletion: DeletionService
    const resolver: Resolver.BeliefResolver
    var activeGeneration: int
    /** The embedding_generations table, by generation number. */
    var generations: map<int, GenerationStatus>

    /**
     Registers the active generation unless the table has it already, and a handler with the
     coordinator for every vector store.
     */
    constructor (deletion: DeletionService, resolver: Resolver.BeliefResolver,
                 stores: map<string, InMemoryVectorStore>, activeGeneration: int,
                 generations: map<int, GenerationStatus>)
      requires deletion.registry.lexical.store == deletion.store == resolver.store
      requires deletion.registry.coordinator.cfg == deletion.registry.setup.cfg
      requires deletion.registry.coordinator.handlers == map[]
      requires forall n :: 0 <= n < |deletion.registry.setup.names| ==> deletion.registry.setup.names[n] in stores
      requires forall m, n :: 0 <= m < n < |deletion.registry.setup.names| ==>
                 stores[deletion.registry.setup.names[m]] != stores[deletion.registry.setup.names[n]]
      modifies deletion.registry.coordinator`handlers
      ensures Valid() && this.deletion == deletion && this.resolver == resolver
      ensures this.activeGeneration == activeGeneration
      ensures this.generations == Registered(generations, activeGeneration, Serving)
      ensures this.generations == if activeGeneration in generations then generations
                                  else generations[activeGeneration := Serving]
      ensures forall n :: 0 <= n < |deletion.registry.setup.names| ==>
                deletion.registry.coordinator.handlers[deletion.registry.setup.names[n]]
                == stores[deletion.registry.setup.names[n]]
    {
      this.deletion, this.resolver, this.activeGeneration := deletion, resolver, activeGeneration;
      this.generations := Registered(generations, activeGeneration, Serving);
      new;
      var coord, names := deletion.registry.coordinator, deletion.registry.setup.names;
      for n := 0 to |names|
        invariant this.activeGeneration == activeGeneration
        invariant this.generations == Registered(generations, activeGeneration, Serving)
        invariant coord.Valid()
        invariant coord.handlers.Keys == set m | 0 <= m < n :: names[m]
        invariant forall m :: 0 <= m < n ==> coord.handlers[names[m]] == stores[names[m]]
      {
        coord.RegisterHandler(names[n], stores[names[n]]);
      }
    }

    ghost predicate Valid()
      reads deletion.registry.coordinator`handlers
    {
      deletion.Valid() && resolver.store == deletion.store
    }

    ghost function World(): World
      reads this`activeGeneration, deletion.store, deletion.registry.lexical, deletion.registry.artifacts
      reads deletion.registry.coordinator`log, deletion.registry.coordinator`handlers
      reads deletion.registry.coordinator.Stores()
    {
      deletion.State(activeGeneration)
    }

    /** Enqueue one upsert per vector store; nothing is applied yet. */
    method EnqueueVectorUpsert(rec: Record, gen: int)
      requires Valid()
      modifies deletion.registry.coordinator`log
      ensures Valid()
      ensures deletion.registry.coordinator.Model()
           == Upserts(deletion.registry.setup, old(deletion.registry.coordinator.Model()), rec, gen,
                      |deletion.registry.setup.names|)
    {
      hide Enqueued, FreshOpId;
      var coord, names := deletion.registry.coordinator, deletion.registry.setup.names;
      for n := 0 to |names|
        invariant coord.Valid() && coord.IndexMap() == old(coord.IndexMap())
        invariant Coord(coord.log, old(coord.IndexMap()))
               == Upserts(deletion.registry.setup, old(coord.Model()), rec, gen, n)
      {
        coord.Enqueue(Operation(FreshOpId(coord.log), UpsertIndex, {rec.id}, names[n], [VectorRow(rec, gen)]));
        assert coord.IndexMap() == old(coord.IndexMap());
      }
    }

    /** Enqueue the upserts of one record and drive the coordinator. */
    method IndexVectors(rec: Record, gen: int, ticks: nat -> Attempt)
      requires Valid()
      modifies deletion.registry.coordinator`log, deletion.registry.coordinator.Stores()
      ensures Valid() && deletion.registry.coordinator.handlers == old(deletion.registry.coordinator.handlers)
      ensures deletion.registry.coordinator.Model()
           == IndexedVia(deletion.registry.setup, old(deletion.registry.coordinator.Model()), rec, gen, ticks)
    {
      hide Drain, Upserts;
      EnqueueVectorUpsert(rec, gen);
      var applied := deletion.registry.coordinator.RunUntilIdle(ticks, MAX_STEPS);
    }

    method WriteMemory(rec: Record, generation: Option<int>, now: int, ticks: nat -> Attempt) returns (written: Record)
      requires Valid()
      modifies deletion.store, deletion.registry.lexical
      modifies deletion.registry.coordinator`log, deletion.registry.coordinator.Stores()
      ensures Valid() && deletion.registry.coordinator.handlers == old(deletion.registry.coordinator.handlers)
      ensures written == rec.(updatedAt := now)
      ensures World() == MemoryWritten(deletion.registry.setup, old(World()), rec,
                if generation.Some? then generation.value else old(activeGeneration), now, ticks)
    {
      hide IndexedVia;
      var gen := if generation.Some? then generation.value else activeGeneration;
      written := deletion.store.Write(rec, now);
      deletion.registry.lexical.Index(written);
      assert deletion.registry.coordinator.Model() == old(deletion.registry.coordinator.Model());
      IndexVectors(written, gen, ticks);
    }

    /** `update_memory` with new content; false is the unknown-id error. */
    method UpdateMemory(id: Id, content: string, now: int, ticks: nat -> Attempt) returns (ok: bool)
      requires Valid()
      modifies deletion.store, deletion.registry.lexical
      modifies deletion.registry.coordinator`log, deletion.registry.coordinator.Stores()
      ensures Valid() && deletion.registry.coordinator.handlers == old(deletion.registry.coordinator.handlers)
      ensures var r := ContentUpdated(deletion.registry.setup, old(World()), id, content, now, ticks);
              ok == r.Some? && World() == (if r.Some? then r.value else old(World()))
      ensures ok <==> id in old(deletion.store.records)
      ensures ok && Resolver.Keyed(old(deletion.store.Model())) ==>
                && id in deletion.store.records && id in deletion.registry.lexical.postings
                && deletion.store.records[id] == old(deletion.store.records)[id].(
                     content := content, contentHash := deletion.registry.setup.hash(content), updatedAt := now)
                && deletion.registry.lexical.postings[id] == content
    {
      hide MemoryWritten;
      if id !in deletion.store.records {
        return false;
      }
      var rec := deletion.store.records[id];
      deletion.registry.lexical.Remove({id});
      var written := WriteMemory(
        rec.(content := content, contentHash := deletion.registry.setup.hash(content)), None, now, ticks);
      ok := true;
      WrittenRow(deletion.registry.setup, old(World()).(fts := old(deletion.registry.lexical.postings) - {id}),
                 rec.(content := content, contentHash := deletion.registry.setup.hash(content)),
                 activeGeneration, now, ticks, World());
    }

    method Correct(oldId: Id, rec: Record, rel: Relation, now: int, env: PurgeEnv, ticks: nat -> Attempt)
      returns (ok: bool)
      requires Valid()
      modifies deletion.store, deletion.registry.lexical, deletion.registry.artifacts
      modifies deletion.registry.coordinator`log, deletion.registry.coordinator.Stores()
      ensures Valid() && deletion.registry.coordinator.handlers == old(deletion.registry.coordinator.handlers)
      ensures (World(), ok) == Corrected(deletion.registry.setup, old(World()), oldId, rec, rel, now, env, ticks)
    {
      hide Replaced, IndexedVia;
      ok := deletion.Correct(oldId, rec, rel, false, now, env, activeGeneration);
      if ok {
        IndexVectors(rec.(updatedAt := now), activeGeneration, ticks);
      }
    }

    method DeleteMemory(id: Id, mode: Mode, jobId: nat, envs: nat -> PurgeEnv, now: int)
      requires Valid()
      modifies deletion.store, deletion.registry.lexical, deletion.registry.artifacts
      modifies deletion.registry.coordinator`log, deletion.registry.coordinator.Stores()
      ensures Valid() && deletion.registry.coordinator.handlers == old(deletion.registry.coordinator.handlers)
      ensures World() == AfterDeletion(deletion.registry.setup, old(World()), id, mode, true, jobId, envs, now)
    {
      deletion.RequestDeletion(id, mode, true, jobId, envs, now, activeGeneration);
    }

    /** Supersede the duplicates by the primary, then purge them; false is the missing-record error. */
    method MergeRecords(primary: Id, dups: seq<Id>, now: int, env: PurgeEnv) returns (ok: bool)
      requires Valid()
      modifies deletion.store, deletion.registry.lexical, deletion.registry.artifacts
      modifies deletion.registry.coordinator`log, deletion.registry.coordinator.Stores()
      ensures Valid() && deletion.registry.coordinator.handlers == old(deletion.registry.coordinator.handlers)
      ensures (World(), ok) == RecordsMerged(deletion.registry.setup, old(World()), primary, dups, now, env)
    {
      hide Purge, MergeMarks;
      var removed, marked := MarkDuplicates(primary, dups, now);
      if !marked {
        return false;
      }
      if removed != {} {
        var failed := deletion.PurgeSurfaces(removed, env, activeGeneration);
      }
      ok := true;
    }

    /** The loop of a merge: mark and link each duplicate, stopping at the first missing record. */
    method MarkDuplicates(primary: Id, dups: seq<Id>, now: int) returns (removed: set<Id>, ok: bool)
      modifies deletion.store
      ensures (deletion.store.Model(), removed, ok)
           == MergeMarks(old(deletion.store.Model()), primary, dups, |dups|, now)
    {
      var store := deletion.store;
      removed, ok := {}, true;
      for n := 0 to |dups|
        invariant (store.Model(), removed, ok) == MergeMarks(old(store.Model()), primary, dups, n, now) && ok
      {
        var d := dups[n];
        if d == primary || d in store.tombs {
          continue;
        }
        store.SetStatus(d, Superseded, now);
        ok := store.AddDependency(primary, d, Supersedes);
        if !ok {
          MergeStops(old(store.Model()), primary, dups, n + 1, now);
          return;
        }
        removed := removed + {d};
      }
    }

    /** Re-embed the given records into a generation, straight from the canonical rows. */
    method ReindexInto(gen: int, ids: seq<Id>, ticks: nat -> Attempt)
      requires Valid()
      modifies deletion.registry.coordinator`log, deletion.registry.coordinator.Stores()
      ensures Valid() && deletion.registry.coordinator.handlers == old(deletion.registry.coordinator.handlers)
      ensures World() == Reindexed(deletion.registry.setup, old(World()), gen, ids, ticks)
    {
      hide Drain, Upserts;
      var coord := deletion.registry.coordinator;
      for n := 0 to |ids|
        invariant Valid() && coord.handlers == old(coord.handlers)
        invariant coord.Model()
               == ReindexOps(deletion.registry.setup, old(coord.Model()), deletion.store.Model(), gen, ids, n)
      {
        if ids[n] in deletion.store.records && ids[n] !in deletion.store.tombs {
          EnqueueVectorUpsert(deletion.store.records[ids[n]], gen);
        }
      }
      var applied := coord.RunUntilIdle(ticks, MAX_STEPS);
    }

    /**
     Search every vector store, add the lexical hits, resolve. `ranking` is what the full-text
     index ranks for the query; the rows joined to it are active, untombstoned and cut at `topK`.
     */
    method Recall(score: VectorRecord -> real, fits: VectorRecord -> bool, ranking: seq<(Id, real)>, topK: nat,
                  generation: Option<int>, q: Resolver.Request)
      returns (b: Resolver.Bundle, hits: seq<seq<Resolver.Candidate>>)
      requires Valid()
      ensures |hits| == |deletion.registry.setup.names|
      ensures var gen := if generation.Some? then generation.value else activeGeneration;
              forall n :: 0 <= n < |hits| ==>
                StoreHits(hits[n], deletion.registry.coordinator.IndexMap()[deletion.registry.setup.names[n]],
                          gen, score, topK, fits)
      ensures b == Resolver.Resolved(deletion.store.Model(),
                                     Flat(hits) + LexicalHits(deletion.store.Model(), ranking, topK), q)
    {
      hide StoreHits;
      var gen := if generation.Some? then generation.value else activeGeneration;
      var coord, names := deletion.registry.coordinator, deletion.registry.setup.names;
      var cs: seq<Resolver.Candidate> := [];
      hits := [];
      for n := 0 to |names|
        invariant |hits| == n && cs == Flat(hits)
        invariant forall m :: 0 <= m < n ==> StoreHits(hits[m], coord.IndexMap()[names[m]], gen, score, topK, fits)
      {
        var more := HitsOf(coord.handlers[names[n]], score, fits, topK, gen);
        hits := hits + [more];
        assert hits[..n] + [more] == hits && hits[..|hits| - 1] == hits[..n];
        cs := cs + more;
      }
      var lexical := LexicalSearch(ranking, topK);
      b := resolver.Resolve(cs + lexical, q);
    }

    /** The rows that the full-text search joins, up to `topK`. */
    method LexicalSearch(ranking: seq<(Id, real)>, topK: nat) returns (lexical: seq<Resolver.Candidate>)
      ensures lexical == LexicalHits(deletion.store.Model(), ranking, topK)
    {
      var store := deletion.store;
      lexical := [];
      for r := 0 to |ranking|
        invariant lexical == LexicalHits(store.Model(), ranking[..r], topK)
      {
        assert ranking[..r + 1][..r] == ranking[..r];
        var id := ranking[r].0;
        if |lexical| < topK && id in store.records && id !in store.tombs && IsActive(store.records[id].status) {
          lexical := lexical + [Resolver.Candidate(id, -ranking[r].1, Some(store.records[id].contentHash))];
        }
      }
      assert ranking[..|ranking|] == ranking;
    }

    method HitsOf(
      store: InMemoryVectorStore, score: VectorRecord -> real, fits: VectorRecord -> bool, topK: nat, gen: int)
      returns (cs: seq<Resolver.Candidate>)
      ensures StoreHits(cs, store.Model(), gen, score, topK, fits)
    {
      var hits := store.Search(score, topK, Some(gen), fits);
      ghost var ix := store.Model();
      cs := [];
      for h := 0 to |hits|
        invariant |cs| == h
        invariant forall i :: 0 <= i < h ==> cs[i].id == hits[i].0 && IsHit(cs[i], ix, gen, score, fits)
      {
        var (id, g) := hits[h];
        assert hits[h] in hits && g == gen && id in Live(ix, gen);
        cs := cs + [Resolver.Candidate(id, score(store.byKey[hits[h]]), Some(store.byKey[hits[h]].contentHash))];
      }
      assert forall i :: 0 <= i < |hits| ==> hits[i] in hits && hits[i] == (cs[i].id, gen);
      forall id | id in Live(ix, gen) && fits(Live(ix, gen)[id]) && (forall i :: 0 <= i < |cs| ==> cs[i].id != id)
        ensures |cs| == topK && forall i :: 0 <= i < |cs| ==> cs[i].score >= score(Live(ix, gen)[id])
      {
        assert (id, gen) !in hits && (id, gen) in store.byKey;
        var least := score(store.byKey[(id, gen)]);
        assert forall i :: 0 <= i < |hits| ==> hits[i] in hits && score(store.byKey[hits[i]]) >= least;
      }
    }

    method OpenShadowGeneration(gen: int)
      modifies this`generations
      ensures generations == Registered(old(generations), gen, Shadow)
      ensures generations == if gen in old(generations) then old(generations) else old(generations)[gen := Shadow]
    {
      generations := Registered(generations, gen, Shadow);
    }

    /** Retire what is active, activate the row of `gen` if there is one, and serve from `gen`. */
    method PromoteGeneration(gen: int)
      requires Valid()
      modifies this`activeGeneration, this`generations
      ensures World() == old(World()).(generation := gen)
      ensures generations == Promoted(old(generations), gen) && generations.Keys == old(generations).Keys
      ensures gen in generations ==> generations[gen] == Serving
      ensures forall g :: g in generations && g != gen ==>
                generations[g] == if old(generations)[g] == Serving then Retired else old(generations)[g]
    {
      generations := map g | g in generations :: if generations[g] == Serving then Retired else generations[g];
      if gen in generations {
        generations := generations[gen := Serving];
      }
      activeGeneration := gen;
    }
  }

  lemma WrittenRow(s: Setup, w: World, rec: Record, gen: int, now: int, ticks: nat -> Attempt, r: World)
    requires r == MemoryWritten(s, w, rec, gen, now, ticks)
    ensures rec.id in r.canon.records && r.canon.records[rec.id] == rec.(updatedAt := now)
    ensures rec.id in r.fts && r.fts[rec.id] == rec.content
  {
    hide IndexedVia;
  }

  /** Once a duplicate fails, the remaining ones are not looked at. */
  lemma {:induction false} MergeStops(c: Canon, primary: Id, dups: seq<Id>, n: nat, now: int)
    requires n <= |dups| && !MergeMarks(c, primary, dups, n, now).2
    ensures MergeMarks(c, primary, dups, |dups|, now) == MergeMarks(c, primary, dups, n, now)
    decreases |dups| - n
  {
    if n < |dups| {
      MergeStops(c, primary, dups, n + 1, now);
    }
  }
}
