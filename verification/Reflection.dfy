/**
 Background reflection (strata/reflection/engine.py): consolidating duplicate L1 facts and
 flagging unresolved contradictions. It changes records only through the engine's merge.
 */
module Reflection {
  import opened Records
  import opened OpLog
  import opened Canonical
  import opened Surfaces
  import opened Engine
  import opened Diversity
  import opened Buffer
  import opened Resolver
  import opened EngineRuns

  const CLUSTER_THRESHOLD: real := 0.6

  datatype ProposalKind = MergeFacts | ClarifyConflict

  datatype ProposalState = Proposed | UserReviewRequired | Rejected | Applied

  datatype Proposal = Proposal(kind: ProposalKind, recordIds: seq<Id>, confidence: real, state: ProposalState)

  /** A merge as proposed: the record to keep, the ones to supersede, and how sure we are. */
  datatype Plan = Plan(primary: Id, dups: seq<Id>, confidence: real)

  // ---- inputs ----

  /** An L1 fact that is current and below the reflection ceiling. */
  predicate IsReflectable(c: Canon, id: Id, allowed: Record -> bool) {
    && Current(c, id)
    && c.records[id].tier == L1 && c.records[id].recordType == Fact
    && allowed(c.records[id])
  }

  /** The reflectable facts in the row order of the query. */
  function Facts(c: Canon, rows: seq<Id>, allowed: Record -> bool): seq<Record> {
    if rows == [] then []
    else
      var id := rows[|rows| - 1];
      Facts(c, rows[..|rows| - 1], allowed) + if IsReflectable(c, id, allowed) then [c.records[id]] else []
  }

  /** `rows` lists every record once, in whatever order the query returned them. */
  predicate Enumerates(c: Canon, rows: seq<Id>) {
    && (forall i, j :: 0 <= i < j < |rows| ==> rows[i] != rows[j])
    && (forall id :: id in c.records ==> id in rows)
  }

  // ---- planning one cluster ----

  function Salience(r: Record): real {
    if r.salience.Some? then r.salience.value else 0.0
  }

  predicate LessInformative(a: Record, b: Record) {
    Salience(a) < Salience(b) || (Salience(a) == Salience(b) && |a.content| < |b.content|)
  }

  /** The first record of greatest salience and, among those, of greatest length. */
  function Best(members: seq<Record>): (r: Record)
    requires members != []
    ensures r in members && forall m :: m in members ==> !LessInformative(r, m)
  {
    if |members| == 1 then members[0]
    else
      var before := Best(members[..|members| - 1]);
      var last := members[|members| - 1];
      assert members == members[..|members| - 1] + [last];
      if LessInformative(before, last) then last else before
  }

  function OthersOf(ids: seq<Id>, primary: Id): (r: seq<Id>)
    ensures forall i :: i in r <==> i in ids && i != primary
  {
    if ids == [] then []
    else OthersOf(ids[..|ids| - 1], primary) + if ids[|ids| - 1] != primary then [ids[|ids| - 1]] else []
  }

  function Hashes(members: seq<Record>): set<string> {
    set m | m in members :: m.contentHash
  }

  function RowsOf(byId: map<Id, Record>, ids: seq<Id>): (r: seq<Record>)
    requires forall i :: i in ids ==> i in byId
    ensures |r| == |ids| && forall k :: 0 <= k < |ids| ==> r[k] == byId[ids[k]]
  {
    seq(|ids|, k requires 0 <= k < |ids| => byId[ids[k]])
  }

  function PlanFor(byId: map<Id, Record>, cluster: Cluster): Plan
    requires cluster.recordIds != [] && forall i :: i in cluster.recordIds ==> i in byId
  {
    var members := RowsOf(byId, cluster.recordIds);
    var primary := Best(members).id;
    var dups := OthersOf(cluster.recordIds, primary);
    var confidence :=
      if |Hashes(members)| < |members| then 0.95
      else if 0.6 + 0.1 * |dups| as real < 0.89 then 0.6 + 0.1 * |dups| as real
      else 0.89;
    Plan(primary, dups, confidence)
  }

  predicate Resolves(c: Canon, cs: seq<Cluster>) {
    forall k :: 0 <= k < |cs| ==>
      cs[k].recordIds != [] && forall i :: i in cs[k].recordIds ==> i in c.records
  }

  /** Merge, one after the other, the first `n` clusters whose plan is confident enough. */
  function MergedClusters(
    s: Setup, w: World, c: Canon, cs: seq<Cluster>, threshold: real, n: nat, now: int, envs: nat -> PurgeEnv): World
    requires n <= |cs| && Resolves(c, cs)
  {
    if n == 0 then w
    else
      var before := MergedClusters(s, w, c, cs, threshold, n - 1, now, envs);
      var plan := PlanFor(c.records, cs[n - 1]);
      if plan.confidence >= threshold then RecordsMerged(s, before, plan.primary, plan.dups, now, envs(n - 1)).0
      else before
  }

  function WorthyClusters(tok: Tokenizer, c: Canon, rows: seq<Id>, allowed: Record -> bool): seq<Cluster> {
    ReviewWorthy(Clusters(tok, Facts(c, rows, allowed), CLUSTER_THRESHOLD))
  }

  /** The state after `consolidate`: everything is planned on the facts as they were at the start. */
  function Consolidated(
    s: Setup, w: World, tok: Tokenizer, rows: seq<Id>, allowed: Record -> bool, threshold: real, now: int,
    envs: nat -> PurgeEnv): World
    requires Keyed(w.canon)
  {
    var cs := WorthyClusters(tok, w.canon, rows, allowed);
    WorthyResolve(tok, w.canon, rows, allowed);
    MergedClusters(s, w, w.canon, cs, threshold, |cs|, now, envs)
  }

  // ---- the clusters are made of the facts ----

  lemma {:induction false} FactsAre(c: Canon, rows: seq<Id>, allowed: Record -> bool)
    requires Keyed(c)
    ensures forall r :: r in Facts(c, rows, allowed) ==>
              r.id in rows && IsReflectable(c, r.id, allowed) && r == c.records[r.id]
    ensures forall id :: id in rows && IsReflectable(c, id, allowed) ==> c.records[id] in Facts(c, rows, allowed)
  {
    if rows != [] {
      FactsAre(c, rows[..|rows| - 1], allowed);
    }
  }

  /** Which rows are reflected on: active, undeleted L1 facts that the policy allows. */
  lemma FactsMeaning(c: Canon, rows: seq<Id>, allowed: Record -> bool, rec: Record)
    requires Keyed(c)
    ensures rec in Facts(c, rows, allowed) <==>
              && rec.id in rows && rec.id in c.records && rec == c.records[rec.id] && rec.id !in c.tombs
              && (rec.status == Active || rec.status == Reinforced)
              && rec.tier == L1 && rec.recordType == Fact && allowed(rec)
  {
    FactsAre(c, rows, allowed);
  }

  /** Facts come in the row order of the query. */
  lemma {:induction false} FactsInOrder(c: Canon, rows: seq<Id>, allowed: Record -> bool, j: nat, k: nat)
    returns (a: nat, b: nat)
    requires Keyed(c) && j < k < |Facts(c, rows, allowed)|
    ensures a < b < |rows|
    ensures rows[a] == Facts(c, rows, allowed)[j].id && rows[b] == Facts(c, rows, allowed)[k].id
  {
    var n := |rows| - 1;
    var before := Facts(c, rows[..n], allowed);
    if k < |before| {
      a, b := FactsInOrder(c, rows[..n], allowed, j, k);
    } else {
      FactsAre(c, rows[..n], allowed);
      assert before[j] in before;
      a, b :| 0 <= a < n && rows[..n][a] == before[j].id && b == n;
    }
  }

  predicate DistinctRecords(rs: seq<Record>) {
    forall i, j :: 0 <= i < j < |rs| ==> rs[i].id != rs[j].id
  }

  lemma {:induction false} FactsDistinct(c: Canon, rows: seq<Id>, allowed: Record -> bool)
    requires Keyed(c) && forall i, j :: 0 <= i < j < |rows| ==> rows[i] != rows[j]
    ensures DistinctRecords(Facts(c, rows, allowed))
  {
    if rows != [] {
      var init := rows[..|rows| - 1];
      FactsDistinct(c, init, allowed);
      FactsAre(c, init, allowed);
      var facts := Facts(c, init, allowed);
      forall i | 0 <= i < |facts|
        ensures facts[i].id != rows[|rows| - 1]
      {
        assert facts[i] in facts;
      }
    }
  }

  lemma ClusterIdsResolve(tok: Tokenizer, c: Canon, rows: seq<Id>, allowed: Record -> bool, k: nat)
    requires Keyed(c)
    requires k < |Clusters(tok, Facts(c, rows, allowed), CLUSTER_THRESHOLD)|
    ensures forall i :: i in Clusters(tok, Facts(c, rows, allowed), CLUSTER_THRESHOLD)[k].recordIds ==>
              IsReflectable(c, i, allowed)
  {
    var facts := Facts(c, rows, allowed);
    ClustersPartition(tok, facts, CLUSTER_THRESHOLD, k);
    FactsAre(c, rows, allowed);
    forall i | i in Members(tok, facts, CLUSTER_THRESHOLD, k)
      ensures IsReflectable(c, i, allowed)
    {
      var p := MemberLands(tok, facts, CLUSTER_THRESHOLD, k, i);
      assert facts[p] in facts;
    }
  }

  lemma WorthyResolve(tok: Tokenizer, c: Canon, rows: seq<Id>, allowed: Record -> bool)
    requires Keyed(c)
    ensures Resolves(c, WorthyClusters(tok, c, rows, allowed))
  {
    var clusters := Clusters(tok, Facts(c, rows, allowed), CLUSTER_THRESHOLD);
    var cs := ReviewWorthy(clusters);
    forall k | 0 <= k < |cs|
      ensures cs[k].recordIds != [] && forall i :: i in cs[k].recordIds ==> i in c.records
    {
      assert cs[k] in cs;
      var j :| 0 <= j < |clusters| && clusters[j] == cs[k];
      ClusterIdsResolve(tok, c, rows, allowed, j);
    }
  }

  predicate DisjointClusters(cs: seq<Cluster>) {
    forall a, b, i :: 0 <= a < b < |cs| && i in cs[a].recordIds ==> i !in cs[b].recordIds
  }

  lemma {:induction false} WorthyDisjoint(cs: seq<Cluster>)
    requires DisjointClusters(cs)
    ensures DisjointClusters(ReviewWorthy(cs))
  {
    if cs != [] {
      var n := |cs| - 1;
      WorthyDisjoint(cs[..n]);
      var before := ReviewWorthy(cs[..n]);
      forall a, i | 0 <= a < |before| && i in before[a].recordIds
        ensures i !in cs[n].recordIds
      {
        assert before[a] in before;
        var j :| 0 <= j < n && cs[..n][j] == before[a];
        assert i in cs[j].recordIds;
      }
    }
  }

  lemma ClustersDisjoint(tok: Tokenizer, facts: seq<Record>, t: real)
    requires DistinctRecords(facts)
    ensures DisjointClusters(Clusters(tok, facts, t))
  {
    var cs := Clusters(tok, facts, t);
    forall a, b, i | 0 <= a < b < |cs| && i in cs[a].recordIds
      ensures i !in cs[b].recordIds
    {
      ClustersPartition(tok, facts, t, a);
      ClustersPartition(tok, facts, t, b);
      if i in Members(tok, facts, t, b) {
        OneHome(tok, facts, t, a, b, i);
      }
    }
  }

  lemma OneHome(tok: Tokenizer, facts: seq<Record>, t: real, a: nat, b: nat, i: Id)
    requires DistinctRecords(facts)
    requires i in Members(tok, facts, t, a) && i in Members(tok, facts, t, b)
    ensures a == b
  {
    var p := MemberLands(tok, facts, t, a, i);
    var q := MemberLands(tok, facts, t, b, i);
    assert facts[p].id == facts[q].id;
  }

  // ---- what the merges do ----

  predicate AutoMerged(c: Canon, cluster: Cluster, threshold: real) {
    && cluster.recordIds != []
    && (forall i :: i in cluster.recordIds ==> i in c.records)
    && PlanFor(c.records, cluster).confidence >= threshold
  }

  /** The fate of one merged cluster: the primary as it was, everyone else superseded by it. */
  ghost predicate KeepsOne(c: Canon, r: Canon, cluster: Cluster)
    requires cluster.recordIds != [] && forall i :: i in cluster.recordIds ==> i in c.records
  {
    var primary := PlanFor(c.records, cluster).primary;
    && primary in cluster.recordIds
    && primary in r.records && r.records[primary] == c.records[primary]
    && forall i :: i in cluster.recordIds && i != primary ==> MergedAway(c, r, primary, i)
  }

  lemma PlanIsInside(c: Canon, cluster: Cluster)
    requires Keyed(c)
    requires cluster.recordIds != [] && forall i :: i in cluster.recordIds ==> i in c.records
    ensures var plan := PlanFor(c.records, cluster);
            && plan.primary in cluster.recordIds
            && forall i :: i in plan.dups <==> i in cluster.recordIds && i != plan.primary
  {
    var ids := cluster.recordIds;
    var members := RowsOf(c.records, ids);
    var k :| 0 <= k < |members| && members[k] == Best(members);
    assert ids[k] in ids;
  }

  /** The first of the most informative ones. */
  lemma {:induction false} BestIsFirst(members: seq<Record>) returns (k: nat)
    requires members != []
    ensures k < |members| && members[k] == Best(members)
    ensures forall j :: 0 <= j < k ==> LessInformative(members[j], members[k])
    ensures forall j :: 0 <= j < |members| ==> !LessInformative(members[k], members[j])
  {
    hide Salience;
    var n := |members| - 1;
    if n == 0 {
      k := 0;
    } else {
      var m := BestIsFirst(members[..n]);
      k := if LessInformative(members[m], members[n]) then n else m;
    }
  }

  lemma {:induction false} OthersInOrder(ids: seq<Id>, k: nat)
    requires k < |ids| && forall i, j :: 0 <= i < j < |ids| ==> ids[i] != ids[j]
    ensures OthersOf(ids, ids[k]) == ids[..k] + ids[k + 1..]
  {
    var n := |ids| - 1;
    var init := ids[..n];
    if k < n {
      OthersInOrder(init, k);
      assert ids[..k] == init[..k] && ids[k + 1..] == init[k + 1..] + [ids[n]];
    } else {
      NoneLeftOut(init, ids[k]);
      assert ids[..k] + ids[k + 1..] == init;
    }
  }

  lemma {:induction false} NoneLeftOut(ids: seq<Id>, x: Id)
    requires x !in ids
    ensures OthersOf(ids, x) == ids
  {
    if ids != [] {
      NoneLeftOut(ids[..|ids| - 1], x);
    }
  }

  /**
   The plan for a cluster in terms of the rows: the primary at `k` has the greatest salience,
   missing counting as none, then the longest content, and no earlier member equals it in both;
   the others follow in their order; the confidence is 0.95 if two members share a hash and
   otherwise 0.6 plus 0.1 per duplicate, up to 0.89.
   */
  lemma PlanMeaning(byId: map<Id, Record>, cluster: Cluster) returns (k: nat)
    requires cluster.recordIds != [] && forall i :: i in cluster.recordIds ==> i in byId && byId[i].id == i
    requires forall i, j :: 0 <= i < j < |cluster.recordIds| ==> cluster.recordIds[i] != cluster.recordIds[j]
    ensures var plan, ids := PlanFor(byId, cluster), cluster.recordIds;
            && k < |ids| && plan.primary == ids[k] && plan.dups == ids[..k] + ids[k + 1..]
    ensures var ids := cluster.recordIds;
            forall j :: 0 <= j < |ids| && j != k ==>
              var a := if byId[ids[j]].salience.Some? then byId[ids[j]].salience.value else 0.0;
              var b := if byId[ids[k]].salience.Some? then byId[ids[k]].salience.value else 0.0;
              && a <= b
              && (a == b ==> |byId[ids[j]].content| <= |byId[ids[k]].content|)
              && (a == b && |byId[ids[j]].content| == |byId[ids[k]].content| ==> j > k)
    ensures var plan, ids := PlanFor(byId, cluster), cluster.recordIds;
            if exists p, q :: 0 <= p < q < |ids| && byId[ids[p]].contentHash == byId[ids[q]].contentHash then
              plan.confidence == 0.95
            else
              && plan.confidence <= 0.89 && plan.confidence <= 0.6 + 0.1 * (|ids| - 1) as real
              && (plan.confidence == 0.89 || plan.confidence == 0.6 + 0.1 * (|ids| - 1) as real)
  {
    hide Best, OthersOf;
    var ids := cluster.recordIds;
    var members := RowsOf(byId, ids);
    k := BestIsFirst(members);
    OthersInOrder(ids, k);
    if p, q :| 0 <= p < q < |ids| && byId[ids[p]].contentHash == byId[ids[q]].contentHash {
      RepeatedHash(members, p, q);
    } else {
      DistinctHashes(members);
    }
  }

  /** Marking facts that exist and are not deleted always completes. */
  lemma {:induction false} MergeCompletes(c: Canon, primary: Id, dups: seq<Id>, n: nat, now: int)
    requires n <= |dups| && primary in c.records
    requires forall i :: i in dups ==> i in c.records && i !in c.tombs && i != primary
    ensures var (r, removed, ok) := MergeMarks(c, primary, dups, n, now);
            ok && removed == (set i | i in dups[..n])
  {
    if n > 0 {
      MergeCompletes(c, primary, dups, n - 1, now);
      MergeMarksEffect(c, primary, dups, n - 1, now);
      assert dups[..n] == dups[..n - 1] + [dups[n - 1]];
      assert dups[n - 1] in dups;
    }
  }

  /** One merge at canonical level. */
  ghost predicate OneMerge(c: Canon, r: Canon, primary: Id, dups: seq<Id>) {
    && r.tombs == c.tombs && r.records.Keys == c.records.Keys && c.deps <= r.deps
    && (forall i :: i in c.records && i !in dups ==> r.records[i] == c.records[i])
    && (forall i :: i in dups ==> MergedAway(c, r, primary, i))
  }

  lemma MergeIsOneMerge(s: Setup, w: World, primary: Id, dups: seq<Id>, now: int, env: PurgeEnv)
    requires primary in w.canon.records
    requires forall i :: i in dups ==> i in w.canon.records && i !in w.canon.tombs && i != primary
    ensures OneMerge(w.canon, RecordsMerged(s, w, primary, dups, now, env).0.canon, primary, dups)
  {
    var (canon, removed, ok) := MergeMarks(w.canon, primary, dups, |dups|, now);
    MergeCompletes(w.canon, primary, dups, |dups|, now);
    MergeMarksEffect(w.canon, primary, dups, |dups|, now);
    assert dups[..|dups|] == dups;
    PurgeKeepsCanon(s, w.(canon := canon), removed, env);
  }

  /** After the first `n` clusters: each merged one keeps one, nothing else changed. */
  ghost predicate MergedSoFar(c: Canon, r: Canon, cs: seq<Cluster>, threshold: real, n: nat)
    requires n <= |cs| && Resolves(c, cs)
  {
    && r.tombs == c.tombs && r.records.Keys == c.records.Keys && c.deps <= r.deps
    && (forall k :: 0 <= k < n && AutoMerged(c, cs[k], threshold) ==> KeepsOne(c, r, cs[k]))
    && (forall i :: i in c.records && Untouched(c, cs, threshold, n, i) ==> r.records[i] == c.records[i])
  }

  predicate Untouched(c: Canon, cs: seq<Cluster>, threshold: real, n: nat, i: Id)
    requires n <= |cs|
  {
    forall k :: 0 <= k < n && AutoMerged(c, cs[k], threshold) ==> i !in cs[k].recordIds
  }

  lemma {:induction false} MergesKeepOneEach(
    s: Setup, w: World, c: Canon, cs: seq<Cluster>, threshold: real, n: nat, now: int, envs: nat -> PurgeEnv)
    requires n <= |cs| && Resolves(c, cs) && Keyed(c) && DisjointClusters(cs) && w.canon == c
    requires forall k, i :: 0 <= k < |cs| && i in cs[k].recordIds ==> i !in c.tombs
    ensures MergedSoFar(c, MergedClusters(s, w, c, cs, threshold, n, now, envs).canon, cs, threshold, n)
  {
    hide PlanFor, Resolves, RecordsMerged;
    if n > 0 {
      MergesKeepOneEach(s, w, c, cs, threshold, n - 1, now, envs);
      var before := MergedClusters(s, w, c, cs, threshold, n - 1, now, envs);
      ClusterStep(s, before, c, cs, threshold, n, now, envs(n - 1));
    }
  }

  lemma ClusterStep(
    s: Setup, before: World, c: Canon, cs: seq<Cluster>, threshold: real, n: nat, now: int, env: PurgeEnv)
    requires 0 < n <= |cs| && Resolves(c, cs) && Keyed(c) && DisjointClusters(cs)
    requires forall k, i :: 0 <= k < |cs| && i in cs[k].recordIds ==> i !in c.tombs
    requires MergedSoFar(c, before.canon, cs, threshold, n - 1)
    ensures var plan := PlanFor(c.records, cs[n - 1]);
            var after := if plan.confidence >= threshold
                         then RecordsMerged(s, before, plan.primary, plan.dups, now, env).0 else before;
            MergedSoFar(c, after.canon, cs, threshold, n)
  {
    hide RecordsMerged, PlanFor, KeepsOne, OneMerge;
    var plan := PlanFor(c.records, cs[n - 1]);
    PlanIsInside(c, cs[n - 1]);
    if plan.confidence >= threshold {
      MergeIsOneMerge(s, before, plan.primary, plan.dups, now, env);
      var after := RecordsMerged(s, before, plan.primary, plan.dups, now, env).0;
      OneMoreCluster(c, before.canon, after.canon, cs, threshold, n);
    } else {
      forall i | i in c.records && Untouched(c, cs, threshold, n, i)
        ensures Untouched(c, cs, threshold, n - 1, i)
      {
      }
    }
  }

  lemma OneMoreCluster(c: Canon, before: Canon, after: Canon, cs: seq<Cluster>, threshold: real, n: nat)
    requires 0 < n <= |cs| && Resolves(c, cs) && Keyed(c) && DisjointClusters(cs)
    requires MergedSoFar(c, before, cs, threshold, n - 1) && AutoMerged(c, cs[n - 1], threshold)
    requires var plan := PlanFor(c.records, cs[n - 1]); OneMerge(before, after, plan.primary, plan.dups)
    ensures MergedSoFar(c, after, cs, threshold, n)
  {
    var plan := PlanFor(c.records, cs[n - 1]);
    PlanIsInside(c, cs[n - 1]);
    forall i | i in cs[n - 1].recordIds
      ensures before.records[i] == c.records[i]
    {
      assert Untouched(c, cs, threshold, n - 1, i);
    }
    forall k | 0 <= k < n - 1 && AutoMerged(c, cs[k], threshold)
      ensures KeepsOne(c, after, cs[k])
    {
      assert KeepsOne(c, before, cs[k]);
      assert forall i :: i in cs[k].recordIds ==> i !in plan.dups;
    }
    forall i | i in c.records && Untouched(c, cs, threshold, n, i)
      ensures after.records[i] == c.records[i]
    {
      assert i !in cs[n - 1].recordIds;
      assert Untouched(c, cs, threshold, n - 1, i);
    }
  }

  /** The merge of the next cluster does not fail on a missing record. */
  lemma MergeOfClusterCompletes(
    s: Setup, w: World, c: Canon, cs: seq<Cluster>, threshold: real, n: nat, now: int, envs: nat -> PurgeEnv)
    requires n < |cs| && Resolves(c, cs) && Keyed(c) && DisjointClusters(cs) && w.canon == c
    requires forall k, i :: 0 <= k < |cs| && i in cs[k].recordIds ==> i !in c.tombs
    ensures var plan := PlanFor(c.records, cs[n]);
            var before := MergedClusters(s, w, c, cs, threshold, n, now, envs);
            RecordsMerged(s, before, plan.primary, plan.dups, now, envs(n)).1
  {
    hide MergedClusters, PlanFor, Purge;
    MergesKeepOneEach(s, w, c, cs, threshold, n, now, envs);
    PlanIsInside(c, cs[n]);
    var plan := PlanFor(c.records, cs[n]);
    var before := MergedClusters(s, w, c, cs, threshold, n, now, envs);
    MergeCompletes(before.canon, plan.primary, plan.dups, |plan.dups|, now);
  }

  // ---- theorems ----

  /** The clusters to be merged are disjoint sets of existing, undeleted facts. */
  lemma ConsolidationSound(tok: Tokenizer, c: Canon, rows: seq<Id>, allowed: Record -> bool)
    requires Keyed(c) && Enumerates(c, rows)
    ensures var cs := WorthyClusters(tok, c, rows, allowed);
            && Resolves(c, cs) && DisjointClusters(cs)
            && forall k, i :: 0 <= k < |cs| && i in cs[k].recordIds ==> i !in c.tombs
  {
    var facts := Facts(c, rows, allowed);
    var clusters := Clusters(tok, facts, CLUSTER_THRESHOLD);
    var cs := WorthyClusters(tok, c, rows, allowed);
    FactsDistinct(c, rows, allowed);
    ClustersDisjoint(tok, facts, CLUSTER_THRESHOLD);
    WorthyDisjoint(clusters);
    WorthyResolve(tok, c, rows, allowed);
    forall k, i | 0 <= k < |cs| && i in cs[k].recordIds
      ensures i !in c.tombs
    {
      assert cs[k] in cs;
      var j :| 0 <= j < |clusters| && clusters[j] == cs[k];
      ClusterIdsResolve(tok, c, rows, allowed, j);
    }
  }

  /**
   Consolidation outcome: every auto-merged cluster keeps exactly its primary, the other
   members are superseded with an edge from it, and no other record and no tombstone changes.
   */
  lemma ConsolidationOutcome(
    s: Setup, w: World, tok: Tokenizer, rows: seq<Id>, allowed: Record -> bool, threshold: real, now: int,
    envs: nat -> PurgeEnv)
    requires Keyed(w.canon) && Enumerates(w.canon, rows)
    ensures var cs := WorthyClusters(tok, w.canon, rows, allowed);
            && Resolves(w.canon, cs) && DisjointClusters(cs)
            && MergedSoFar(w.canon, Consolidated(s, w, tok, rows, allowed, threshold, now, envs).canon,
                           cs, threshold, |cs|)
  {
    var cs := WorthyClusters(tok, w.canon, rows, allowed);
    ConsolidationSound(tok, w.canon, rows, allowed);
    MergesKeepOneEach(s, w, w.canon, cs, threshold, |cs|, now, envs);
  }

  /** The same record by record. */
  lemma ConsolidationMeaning(
    s: Setup, w: World, tok: Tokenizer, rows: seq<Id>, allowed: Record -> bool, threshold: real, now: int,
    envs: nat -> PurgeEnv, cs: seq<Cluster>, r: Canon, i: Id)
    requires Keyed(w.canon) && Enumerates(w.canon, rows) && i in w.canon.records
    requires cs == WorthyClusters(tok, w.canon, rows, allowed)
    requires r == Consolidated(s, w, tok, rows, allowed, threshold, now, envs).canon
    ensures Resolves(w.canon, cs) && i in r.records && r.tombs == w.canon.tombs && w.canon.deps <= r.deps
    ensures forall k :: 0 <= k < |cs| && i in cs[k].recordIds ==>
              var plan := PlanFor(w.canon.records, cs[k]);
              if plan.confidence < threshold || i == plan.primary then r.records[i] == w.canon.records[i]
              else r.records[i].status == Superseded && Edge(plan.primary, i, Supersedes) in r.deps
    ensures (forall k :: 0 <= k < |cs| ==> i !in cs[k].recordIds) ==> r.records[i] == w.canon.records[i]
  {
    ConsolidationOutcome(s, w, tok, rows, allowed, threshold, now, envs);
    hide Consolidated, WorthyClusters, PlanFor, MergedSoFar;
    forall k | 0 <= k < |cs| && i in cs[k].recordIds
      ensures MergedAs(w.canon, r, cs[k], threshold, i)
    {
      MemberMeaning(w.canon, r, cs, threshold, k, i);
    }
    RestMeaning(w.canon, r, cs, threshold, i);
  }

  /** The fate of one member: itself unless its cluster is merged under another primary. */
  predicate MergedAs(c: Canon, r: Canon, cluster: Cluster, threshold: real, i: Id)
    requires cluster.recordIds != [] && forall j :: j in cluster.recordIds ==> j in c.records
    requires i in c.records && i in r.records
  {
    var plan := PlanFor(c.records, cluster);
    if plan.confidence < threshold || i == plan.primary then r.records[i] == c.records[i]
    else r.records[i].status == Superseded && Edge(plan.primary, i, Supersedes) in r.deps
  }

  lemma MemberMeaning(c: Canon, r: Canon, cs: seq<Cluster>, threshold: real, k: nat, i: Id)
    requires Resolves(c, cs) && DisjointClusters(cs) && MergedSoFar(c, r, cs, threshold, |cs|)
    requires k < |cs| && i in cs[k].recordIds
    ensures i in c.records && i in r.records && MergedAs(c, r, cs[k], threshold, i)
  {
    if AutoMerged(c, cs[k], threshold) {
      assert KeepsOne(c, r, cs[k]);
      if i != PlanFor(c.records, cs[k]).primary {
        assert MergedAway(c, r, PlanFor(c.records, cs[k]).primary, i);
      }
    } else {
      hide PlanFor;
      assert Untouched(c, cs, threshold, |cs|, i);
    }
  }

  lemma RestMeaning(c: Canon, r: Canon, cs: seq<Cluster>, threshold: real, i: Id)
    requires Resolves(c, cs) && MergedSoFar(c, r, cs, threshold, |cs|) && i in c.records
    ensures i in r.records && r.tombs == c.tombs && c.deps <= r.deps
    ensures (forall k :: 0 <= k < |cs| ==> i !in cs[k].recordIds) ==> r.records[i] == c.records[i]
  {
    hide PlanFor;
    if forall k :: 0 <= k < |cs| ==> i !in cs[k].recordIds {
      assert Untouched(c, cs, threshold, |cs|, i);
    }
  }

  /** The stored hash is a function of the content, as every constructor of a record makes it. */
  predicate HashesFollowContent(c: Canon) {
    forall i, j :: i in c.records && j in c.records && c.records[i].content == c.records[j].content
      ==> c.records[i].contentHash == c.records[j].contentHash
  }

  lemma {:induction false} RepeatedHash(members: seq<Record>, p: nat, q: nat)
    requires p < q < |members| && members[p].contentHash == members[q].contentHash
    ensures |Hashes(members)| < |members|
  {
    var rest := members[..q] + members[q + 1..];
    assert Hashes(members) == Hashes(rest) by {
      forall m | m in members
        ensures m.contentHash in Hashes(rest)
      {
        var k :| 0 <= k < |members| && members[k] == m;
        var at := if k == q then p else if k < q then k else k - 1;
        assert rest[at] in rest && rest[at].contentHash == m.contentHash;
      }
      forall m | m in rest
        ensures m in members
      {
      }
    }
    HashesAtMost(rest);
  }

  lemma {:induction false} HashesAtMost(members: seq<Record>)
    ensures |Hashes(members)| <= |members|
  {
    if members == [] {
      assert Hashes(members) == {};
    } else {
      var n := |members| - 1;
      HashesAtMost(members[..n]);
      assert Hashes(members) == Hashes(members[..n]) + {members[n].contentHash} by {
        assert members == members[..n] + [members[n]];
      }
    }
  }

  lemma {:induction false} DistinctHashes(members: seq<Record>)
    requires forall p, q :: 0 <= p < q < |members| ==> members[p].contentHash != members[q].contentHash
    ensures |Hashes(members)| == |members|
  {
    if members == [] {
      assert Hashes(members) == {};
    } else {
      var n := |members| - 1;
      DistinctHashes(members[..n]);
      assert Hashes(members) == Hashes(members[..n]) + {members[n].contentHash} by {
        assert members == members[..n] + [members[n]];
      }
      assert members[n].contentHash !in Hashes(members[..n]);
    }
  }

  /** Two members of the list share a content hash. */
  predicate HasExactDuplicate(members: seq<Record>) {
    exists p, q :: 0 <= p < q < |members| && members[p].contentHash == members[q].contentHash
  }

  /** With a threshold between 0.89 and 0.95, a cluster is merged unasked only for an exact duplicate. */
  lemma AutoMergeIffExact(c: Canon, cluster: Cluster, threshold: real)
    requires cluster.recordIds != [] && forall i :: i in cluster.recordIds ==> i in c.records
    requires 0.89 < threshold <= 0.95
    ensures AutoMerged(c, cluster, threshold) <==> HasExactDuplicate(RowsOf(c.records, cluster.recordIds))
  {
    var members := RowsOf(c.records, cluster.recordIds);
    if HasExactDuplicate(members) {
      var p, q :| 0 <= p < q < |members| && members[p].contentHash == members[q].contentHash;
      RepeatedHash(members, p, q);
    } else {
      DistinctHashes(members);
    }
  }

  /** Two facts with equal content are members of one cluster, and that cluster is auto-merged. */
  lemma EqualFactsMerged(
    tok: Tokenizer, c: Canon, rows: seq<Id>, allowed: Record -> bool, threshold: real, i: Id, j: Id) returns (k: nat)
    requires Keyed(c) && Enumerates(c, rows) && HashesFollowContent(c) && threshold <= 0.95
    requires IsReflectable(c, i, allowed) && IsReflectable(c, j, allowed) && i != j
    requires c.records[i].content == c.records[j].content
    ensures var cs := WorthyClusters(tok, c, rows, allowed);
            k < |cs| && AutoMerged(c, cs[k], threshold) && i in cs[k].recordIds && j in cs[k].recordIds
  {
    hide PlanFor, Facts, Clusters;
    var t := CLUSTER_THRESHOLD;
    var facts := Facts(c, rows, allowed);
    FactsAre(c, rows, allowed);
    var p :| 0 <= p < |facts| && facts[p] == c.records[i];
    var q :| 0 <= q < |facts| && facts[q] == c.records[j];
    var h := Home(tok, facts, t, p);
    if p < q {
      EqualTokensShareCluster(tok, facts, t, p, q);
    } else {
      EqualTokensShareCluster(tok, facts, t, q, p);
    }
    HomeIsClose(tok, facts, t, p);
    ClustersPartition(tok, facts, t, h);
    LandedIsMember(tok, facts, t, h, p);
    LandedIsMember(tok, facts, t, h, q);
    var cluster := Clusters(tok, facts, t)[h];
    ClusterIdsResolve(tok, c, rows, allowed, h);
    ExactDuplicates(c, cluster, i, j);
    assert cluster in WorthyClusters(tok, c, rows, allowed);
    k :| 0 <= k < |WorthyClusters(tok, c, rows, allowed)| && WorthyClusters(tok, c, rows, allowed)[k] == cluster;
  }

  lemma ExactDuplicates(c: Canon, cluster: Cluster, i: Id, j: Id)
    requires i in cluster.recordIds && j in cluster.recordIds && i != j
    requires forall x :: x in cluster.recordIds ==> x in c.records
    requires c.records[i].contentHash == c.records[j].contentHash
    ensures |cluster.recordIds| >= 2 && PlanFor(c.records, cluster).confidence == 0.95
  {
    var ids := cluster.recordIds;
    var members := RowsOf(c.records, ids);
    var p :| 0 <= p < |ids| && ids[p] == i;
    var q :| 0 <= q < |ids| && ids[q] == j;
    if p < q {
      RepeatedHash(members, p, q);
    } else {
      RepeatedHash(members, q, p);
    }
  }

  ghost predicate NoDuplicateFacts(c: Canon, allowed: Record -> bool) {
    forall i, j :: IsReflectable(c, i, allowed) && IsReflectable(c, j, allowed) && i != j ==>
      c.records[i].content != c.records[j].content
  }

  /** Consolidation removes duplicates: no two reflectable facts have equal content afterwards. */
  lemma NoDuplicateFactsLeft(
    s: Setup, w: World, tok: Tokenizer, rows: seq<Id>, allowed: Record -> bool, threshold: real, now: int,
    envs: nat -> PurgeEnv)
    requires Keyed(w.canon) && Enumerates(w.canon, rows) && HashesFollowContent(w.canon) && threshold <= 0.95
    ensures NoDuplicateFacts(Consolidated(s, w, tok, rows, allowed, threshold, now, envs).canon, allowed)
    ensures var c := Consolidated(s, w, tok, rows, allowed, threshold, now, envs).canon;
            forall i, j |
              && i in c.records && i !in c.tombs && c.records[i].status in {Active, Reinforced}
              && c.records[i].tier == L1 && c.records[i].recordType == Fact && allowed(c.records[i])
              && j in c.records && j !in c.tombs && c.records[j].status in {Active, Reinforced}
              && c.records[j].tier == L1 && c.records[j].recordType == Fact && allowed(c.records[j]) ::
              i != j ==> c.records[i].content != c.records[j].content
  {
    var c := w.canon;
    var cs := WorthyClusters(tok, c, rows, allowed);
    var r := Consolidated(s, w, tok, rows, allowed, threshold, now, envs).canon;
    ConsolidationOutcome(s, w, tok, rows, allowed, threshold, now, envs);
    hide Consolidated, WorthyClusters, MergedSoFar, Resolves;
    forall i, j | IsReflectable(r, i, allowed) && IsReflectable(r, j, allowed) && i != j
      ensures r.records[i].content != r.records[j].content
    {
      StillReflectable(c, r, cs, threshold, i);
      StillReflectable(c, r, cs, threshold, j);
      if c.records[i].content == c.records[j].content {
        EqualFactsKeepOne(tok, c, r, rows, allowed, threshold, i, j);
      }
    }
  }

  /**
   What the worthy clusters are: two or more undeleted L1 facts each, every one at least 0.6
   similar to the text that founded its cluster.
   */
  lemma WorthyMeaning(tok: Tokenizer, c: Canon, rows: seq<Id>, allowed: Record -> bool, k: nat, i: Id)
    requires Keyed(c) && Enumerates(c, rows) && k < |WorthyClusters(tok, c, rows, allowed)|
    requires i in WorthyClusters(tok, c, rows, allowed)[k].recordIds
    ensures |WorthyClusters(tok, c, rows, allowed)[k].recordIds| >= 2
    ensures i in c.records && i !in c.tombs && c.records[i].tier == L1 && c.records[i].recordType == Fact
    ensures Similarity(tok, c.records[i].content, WorthyClusters(tok, c, rows, allowed)[k].representative) >= 0.6
  {
    var facts := Facts(c, rows, allowed);
    var clusters, cs := Clusters(tok, facts, CLUSTER_THRESHOLD), WorthyClusters(tok, c, rows, allowed);
    assert cs[k] in cs;
    var h :| 0 <= h < |clusters| && clusters[h] == cs[k];
    ClusterIdsResolve(tok, c, rows, allowed, h);
    ClustersPartition(tok, facts, CLUSTER_THRESHOLD, h);
    var p := MemberLands(tok, facts, CLUSTER_THRESHOLD, h, i);
    HomeIsClose(tok, facts, CLUSTER_THRESHOLD, p);
    FactsAre(c, rows, allowed);
    assert facts[p] in facts;
  }

  /** Founding texts of different clusters are less than 0.6 similar, the later to the earlier. */
  lemma FoundersApart(tok: Tokenizer, c: Canon, rows: seq<Id>, allowed: Record -> bool, a: nat, b: nat)
    requires a < b < |Clusters(tok, Facts(c, rows, allowed), CLUSTER_THRESHOLD)|
    ensures var cs := Clusters(tok, Facts(c, rows, allowed), CLUSTER_THRESHOLD);
            Similarity(tok, cs[b].representative, cs[a].representative) < 0.6
  {
    RepresentativesApart(tok, Facts(c, rows, allowed), CLUSTER_THRESHOLD, a, b);
  }

  lemma EqualFactsKeepOne(
    tok: Tokenizer, c: Canon, r: Canon, rows: seq<Id>, allowed: Record -> bool, threshold: real, i: Id, j: Id)
    requires Keyed(c) && Enumerates(c, rows) && HashesFollowContent(c) && threshold <= 0.95
    requires IsReflectable(c, i, allowed) && IsReflectable(c, j, allowed) && i != j
    requires c.records[i].content == c.records[j].content
    requires var cs := WorthyClusters(tok, c, rows, allowed); Resolves(c, cs) && MergedSoFar(c, r, cs, threshold, |cs|)
    ensures i in r.records && j in r.records
    ensures !(IsActive(r.records[i].status) && IsActive(r.records[j].status))
  {
    var cs := WorthyClusters(tok, c, rows, allowed);
    var k := EqualFactsMerged(tok, c, rows, allowed, threshold, i, j);
    assert KeepsOne(c, r, cs[k]);
    var other := if i == PlanFor(c.records, cs[k]).primary then j else i;
    assert MergedAway(c, r, PlanFor(c.records, cs[k]).primary, other);
  }

  /** A record that is active after the merges is exactly the record it was before. */
  lemma StillReflectable(c: Canon, r: Canon, cs: seq<Cluster>, threshold: real, i: Id)
    requires Resolves(c, cs) && MergedSoFar(c, r, cs, threshold, |cs|)
    requires i in r.records && IsActive(r.records[i].status)
    ensures i in c.records && r.records[i] == c.records[i]
  {
    if !Untouched(c, cs, threshold, |cs|, i) {
      var k :| 0 <= k < |cs| && AutoMerged(c, cs[k], threshold) && i in cs[k].recordIds;
      assert KeepsOne(c, r, cs[k]);
    }
  }

  // ---- the reflection object ----

  function ProposalFor(plan: Plan, threshold: real): Proposal {
    Proposal(MergeFacts, [plan.primary] + plan.dups, plan.confidence,
             if plan.confidence >= threshold then Applied else UserReviewRequired)
  }

  /** A proposal keeps the primary first, and is applied or left for review by its confidence. */
  lemma ProposalMeaning(plan: Plan, threshold: real)
    ensures var p := ProposalFor(plan, threshold);
            && p.kind == MergeFacts && p.confidence == plan.confidence
            && p.recordIds != [] && p.recordIds[0] == plan.primary && p.recordIds[1..] == plan.dups
            && (p.state == Applied <==> plan.confidence >= threshold)
            && (p.state == UserReviewRequired <==> plan.confidence < threshold)
  {
  }

  /** Two current records that contradict each other. */
  predicate OpenContradiction(c: Canon, a: Id, b: Id) {
    Current(c, a) && Current(c, b) && b in ContradictorsOf(c, a)
  }

  function Pair(p: Proposal): set<Id> {
    set i | i in p.recordIds
  }

  /** The proposals are exactly the contradictions found among `rows`, each pair once. */
  ghost predicate Audited(c: Canon, found: seq<Proposal>, rows: set<Id>) {
    && (forall k :: 0 <= k < |found| ==> IsConflict(c, found[k]))
    && (forall j, k :: 0 <= j < k < |found| ==> Pair(found[j]) != Pair(found[k]))
    && (forall a, b :: a in rows && OpenContradiction(c, a, b) ==> Flagged(found, {a, b}))
  }

  ghost predicate IsConflict(c: Canon, p: Proposal) {
    && p.kind == ClarifyConflict && p.state == UserReviewRequired && p.confidence == 0.5
    && |p.recordIds| == 2
    && OpenContradiction(c, p.recordIds[0], p.recordIds[1])
  }

  predicate Flagged(found: seq<Proposal>, pair: set<Id>) {
    exists k :: 0 <= k < |found| && Pair(found[k]) == pair
  }

  /** Each conflict names first the record whose row came first. */
  ghost predicate InRowOrder(found: seq<Proposal>, rows: seq<Id>) {
    forall k :: 0 <= k < |found| ==> NamedInOrder(found[k], rows)
  }

  ghost predicate NamedInOrder(p: Proposal, rows: seq<Id>) {
    |p.recordIds| == 2 && exists n :: 0 <= n < |rows| && rows[n] == p.recordIds[0] && p.recordIds[1] !in rows[..n]
  }

  class ReflectionEngine {
    const engine: MemoryEngine
    var proposals: seq<Proposal>

    constructor (engine: MemoryEngine)
      ensures this.engine == engine && proposals == []
    {
      this.engine := engine;
      proposals := [];
    }

    method ReflectableFacts(rows: seq<Id>, allowed: Record -> bool) returns (facts: seq<Record>)
      ensures facts == Facts(engine.deletion.store.Model(), rows, allowed)
    {
      var store := engine.deletion.store;
      facts := [];
      for n := 0 to |rows|
        invariant facts == Facts(store.Model(), rows[..n], allowed)
      {
        assert rows[..n + 1][..n] == rows[..n];
        if rows[n] !in store.records || rows[n] in store.tombs {
          continue;
        }
        var rec := store.records[rows[n]];
        if rec.tier != L1 || rec.recordType != Fact || !IsActive(rec.status) || !allowed(rec) {
          continue;
        }
        facts := facts + [rec];
      }
      assert rows[..|rows|] == rows;
    }

    /** Apply a proposal that is neither applied nor rejected; a conflict only asks for review. */
    method ApplyProposal(p: nat, now: int, env: PurgeEnv)
      requires engine.Valid() && p < |proposals| && proposals[p].recordIds != []
      modifies this`proposals, engine.deletion.store
      modifies engine.deletion.registry.lexical, engine.deletion.registry.artifacts
      modifies engine.deletion.registry.coordinator`log, engine.deletion.registry.coordinator.Stores()
      ensures engine.Valid()
      ensures engine.deletion.registry.coordinator.handlers == old(engine.deletion.registry.coordinator.handlers)
      ensures var was := old(proposals)[p];
              var open := was.state != Applied && was.state != Rejected;
              && (open && was.kind == MergeFacts ==>
                    var (merged, ok) := RecordsMerged(engine.deletion.registry.setup, old(engine.World()),
                                          was.recordIds[0], was.recordIds[1..], now, env);
                    && engine.World() == merged
                    && proposals == if ok then old(proposals)[p := was.(state := Applied)] else old(proposals))
              && (open && was.kind == ClarifyConflict ==>
                    && engine.World() == old(engine.World())
                    && proposals == old(proposals)[p := was.(state := UserReviewRequired)])
              && (!open ==> engine.World() == old(engine.World()) && proposals == old(proposals))
    {
      hide RecordsMerged;
      var prop := proposals[p];
      if prop.state == Applied || prop.state == Rejected {
        return;
      }
      match prop.kind {
        case MergeFacts =>
          var ok := engine.MergeRecords(prop.recordIds[0], prop.recordIds[1..], now, env);
          if ok {
            proposals := proposals[p := prop.(state := Applied)];
          }
        case ClarifyConflict =>
          proposals := proposals[p := prop.(state := UserReviewRequired)];
      }
    }

    /** Cluster the facts once, propose a merge per worthy cluster, apply the confident ones. */
    method Consolidate(
      tok: Tokenizer, rows: seq<Id>, allowed: Record -> bool, threshold: real, now: int, envs: nat -> PurgeEnv)
      requires engine.Valid() && Keyed(engine.deletion.store.Model()) && Enumerates(engine.deletion.store.Model(), rows)
      modifies this`proposals, engine.deletion.store
      modifies engine.deletion.registry.lexical, engine.deletion.registry.artifacts
      modifies engine.deletion.registry.coordinator`log, engine.deletion.registry.coordinator.Stores()
      ensures engine.Valid()
      ensures engine.World() == Consolidated(engine.deletion.registry.setup, old(engine.World()),
                tok, rows, allowed, threshold, now, envs)
      ensures var cs := WorthyClusters(tok, old(engine.deletion.store.Model()), rows, allowed);
              && Resolves(old(engine.deletion.store.Model()), cs)
              && proposals == old(proposals) +
                   seq(|cs|, k requires 0 <= k < |cs| && Resolves(old(engine.deletion.store.Model()), cs) =>
                     ProposalFor(PlanFor(old(engine.deletion.store.records), cs[k]), threshold))
    {
      hide RecordsMerged, PlanFor, ProposalFor, Clusters, Facts, ReviewWorthy, Keyed, Enumerates, DisjointClusters;
      hide Resolves;
      ghost var c := engine.deletion.store.Model();
      ghost var w := engine.World();
      var byId := engine.deletion.store.records;
      var facts := ReflectableFacts(rows, allowed);
      var clusters := ClusterL1(tok, facts, CLUSTER_THRESHOLD);
      var cs := ReviewWorthy(clusters);
      ConsolidationSound(tok, c, rows, allowed);
      ghost var proposed := [];
      for n := 0 to |cs|
        invariant engine.Valid()
        invariant engine.deletion.registry.coordinator.handlers == old(engine.deletion.registry.coordinator.handlers)
        invariant proposals == old(proposals) + proposed && |proposed| == n
        invariant forall k :: 0 <= k < n ==> proposed[k] == ProposalFor(PlanFor(byId, cs[k]), threshold)
        invariant engine.World() == MergedClusters(engine.deletion.registry.setup, w, c, cs, threshold, n, now, envs)
      {
        MergeOfClusterCompletes(engine.deletion.registry.setup, w, c, cs, threshold, n, now, envs);
        Propose(PlanFor(byId, cs[n]), threshold, now, envs(n));
        proposed := proposed + [ProposalFor(PlanFor(byId, cs[n]), threshold)];
      }
    }

    /** Record one merge proposal and apply it when it is confident enough. */
    method Propose(plan: Plan, threshold: real, now: int, env: PurgeEnv)
      requires engine.Valid()
      requires RecordsMerged(engine.deletion.registry.setup, engine.World(), plan.primary, plan.dups, now, env).1
      modifies this`proposals, engine.deletion.store
      modifies engine.deletion.registry.lexical, engine.deletion.registry.artifacts
      modifies engine.deletion.registry.coordinator`log, engine.deletion.registry.coordinator.Stores()
      ensures engine.Valid()
      ensures engine.deletion.registry.coordinator.handlers == old(engine.deletion.registry.coordinator.handlers)
      ensures proposals == old(proposals) + [ProposalFor(plan, threshold)]
      ensures engine.World() ==
        if plan.confidence >= threshold then
          RecordsMerged(engine.deletion.registry.setup, old(engine.World()), plan.primary, plan.dups, now, env).0
        else old(engine.World())
    {
      hide RecordsMerged;
      var p := |proposals|;
      proposals := proposals + [Proposal(MergeFacts, [plan.primary] + plan.dups, plan.confidence, Proposed)];
      assert engine.World() == old(engine.World());
      assert proposals[p].recordIds[1..] == plan.dups;
      if plan.confidence >= threshold {
        ApplyProposal(p, now, env);
      } else {
        proposals := proposals[p := proposals[p].(state := UserReviewRequired)];
      }
    }

    /** Flag every unresolved contradiction between current records, each pair once. */
    method ContradictionAudit(rows: seq<Id>) returns (found: seq<Proposal>)
      requires Enumerates(engine.deletion.store.Model(), rows)
      modifies this`proposals
      ensures Audited(engine.deletion.store.Model(), found, engine.deletion.store.records.Keys)
      ensures InRowOrder(found, rows)
      ensures proposals == old(proposals) + found
    {
      var store := engine.deletion.store;
      found := [];
      ghost var done: set<Id> := {};
      for n := 0 to |rows|
        invariant Audited(store.Model(), found, done) && InRowOrder(found, rows)
        invariant forall k :: 0 <= k < n ==> rows[k] in done
        invariant proposals == old(proposals)
      {
        var a := rows[n];
        if Current(store.Model(), a) {
          ghost var before := found;
          found := AuditOne(a, found, done);
          forall k | |before| <= k < |found|
            ensures NamedInOrder(found[k], rows)
          {
            assert rows[n] == found[k].recordIds[0] && found[k].recordIds[1] !in rows[..n];
          }
        }
        done := done + {a};
      }
      assert store.records.Keys <= done;
      proposals := proposals + found;
    }

    /** The inner loop of the audit: the contradictors of one current record. */
    method AuditOne(a: Id, before: seq<Proposal>, ghost done: set<Id>) returns (found: seq<Proposal>)
      requires Current(engine.deletion.store.Model(), a)
      requires Audited(engine.deletion.store.Model(), before, done)
      ensures Audited(engine.deletion.store.Model(), found, done + {a})
      ensures |before| <= |found| && found[..|before|] == before
      ensures forall k :: |before| <= k < |found| ==> found[k].recordIds[0] == a && found[k].recordIds[1] !in done
    {
      var c := engine.deletion.store.Model();
      found := before;
      var all := ContradictorsOf(c, a);
      var rest := all;
      while rest != {}
        invariant rest <= all
        invariant Audited(c, found, done)
        invariant |before| <= |found| && found[..|before|] == before
        invariant forall k :: |before| <= k < |found| ==>
          |found[k].recordIds| == 2 && found[k].recordIds[0] == a && found[k].recordIds[1] !in done
        invariant forall b :: b in all - rest && Current(c, b) ==> Flagged(found, {a, b})
      {
        var b :| b in rest;
        if Current(c, b) && !Flagged(found, {a, b}) {
          var prop := Proposal(ClarifyConflict, [a, b], 0.5, UserReviewRequired);
          assert Pair(prop) == {a, b};
          assert OpenContradiction(c, b, a) && {b, a} == {a, b};
          AuditGrows(c, found, done, prop);
          found := found + [prop];
        }
        rest := rest - {b};
      }
    }
  }

  /** Active and not deleted. */
  predicate Standing(c: Canon, id: Id) {
    id in c.records && id !in c.tombs && (c.records[id].status == Active || c.records[id].status == Reinforced)
  }

  /** An audit reports only pairs of standing records joined by a contradicts edge, in either direction. */
  lemma AuditSound(c: Canon, found: seq<Proposal>, rows: set<Id>, k: nat)
    requires Audited(c, found, rows) && k < |found|
    ensures |found[k].recordIds| == 2 && found[k].kind == ClarifyConflict
    ensures found[k].state == UserReviewRequired && found[k].confidence == 0.5
    ensures Standing(c, found[k].recordIds[0]) && Standing(c, found[k].recordIds[1])
    ensures || Edge(found[k].recordIds[0], found[k].recordIds[1], Contradicts) in c.deps
            || Edge(found[k].recordIds[1], found[k].recordIds[0], Contradicts) in c.deps
  {
    assert IsConflict(c, found[k]);
  }

  /** It reports every such pair, whichever end its edge starts from, */
  lemma AuditComplete(c: Canon, found: seq<Proposal>, e: Edge) returns (k: nat)
    requires Audited(c, found, c.records.Keys)
    requires e in c.deps && e.rel == Contradicts && Standing(c, e.parent) && Standing(c, e.child)
    ensures k < |found| && e.parent in found[k].recordIds && e.child in found[k].recordIds
  {
    assert OpenContradiction(c, e.parent, e.child);
    k :| 0 <= k < |found| && Pair(found[k]) == {e.parent, e.child};
    assert e.parent in Pair(found[k]) && e.child in Pair(found[k]);
  }

  /** and none twice, in either order. */
  lemma AuditOnce(c: Canon, found: seq<Proposal>, rows: set<Id>, j: nat, k: nat, a: Id, b: Id)
    requires Audited(c, found, rows) && j < k < |found| && found[j].recordIds == [a, b]
    ensures found[k].recordIds != [a, b] && found[k].recordIds != [b, a]
  {
    assert Pair(found[j]) == {a, b};
    assert forall p: Proposal :: p.recordIds == [a, b] || p.recordIds == [b, a] ==> Pair(p) == {a, b};
  }

  lemma AuditGrows(c: Canon, found: seq<Proposal>, rows: set<Id>, p: Proposal)
    requires Audited(c, found, rows) && IsConflict(c, p) && !Flagged(found, Pair(p))
    ensures Audited(c, found + [p], rows)
    ensures forall pair :: Flagged(found, pair) || pair == Pair(p) ==> Flagged(found + [p], pair)
  {
    var after := found + [p];
    forall pair | Flagged(found, pair) || pair == Pair(p)
      ensures Flagged(after, pair)
    {
      if Flagged(found, pair) {
        var k :| 0 <= k < |found| && Pair(found[k]) == pair;
        assert Pair(after[k]) == pair;
      } else {
        assert Pair(after[|found|]) == pair;
      }
    }
    forall k | 0 <= k < |found|
      ensures Pair(found[k]) != Pair(p)
    {
    }
  }
}
