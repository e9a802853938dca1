/**
 Recall completeness: what a coherent state lets recall find, and the only ways in which a record
 that recall may tell is not told.
 */
module EngineRecall {
  import opened Records
  import opened VectorStore
  import opened Canonical
  import opened Diversity
  import opened Surfaces
  import opened Engine
  import opened Resolver
  import opened EngineRuns

  /**
   Recall may tell this record: its status is active, it is not deleted, it is valid now and
   permitted, an index can report its hash, and no such active, undeleted record supersedes or
   contradicts it.
   */
  ghost predicate Tellable(c: Canon, id: Id, q: Request) {
    && Usable(c, id, q)
    && forall e :: e in c.deps && Stands(c, if e.child == id then e.parent else e.child) ==>
         && !(e.rel == Supersedes && e.child == id)
         && !(e.rel == Contradicts && (e.child == id || e.parent == id))
  }

  predicate Stands(c: Canon, id: Id) {
    id in c.records && id !in c.tombs && (c.records[id].status == Active || c.records[id].status == Reinforced)
  }

  predicate Usable(c: Canon, id: Id, q: Request) {
    && Stands(c, id)
    && (c.records[id].validFrom.Some? ==> c.records[id].validFrom.value <= q.now)
    && (c.records[id].validUntil.Some? ==> q.now < c.records[id].validUntil.value)
    && q.permit(c.records[id])
    && c.records[id].contentHash != ""
  }

  /** The list is full, and full of records that do not rank below this one. */
  ghost predicate OutOfBudget(c: Canon, cs: seq<Candidate>, q: Request, cat: Category, id: Id) {
    var es := Field(Resolved(c, cs, q), cat);
    && cat in q.budgets && |es| == q.budgets[cat]
    && forall k :: 0 <= k < |es| ==> Precedes(ShortlistFor(c, cs, q), es[k].id, id)
  }

  /** `a` stands before `b` in the list and does not rank below it. */
  predicate Precedes(xs: seq<Item>, a: Id, b: Id) {
    exists j, i :: 0 <= j < i < |xs| && xs[j].0.id == a && xs[i].0.id == b && !Lower(xs[j], xs[i])
  }

  /** A similar record that does not rank below this one was kept in its place. */
  ghost predicate TooSimilar(c: Canon, cs: seq<Candidate>, q: Request, id: Id) {
    var ranked := Rank(Survivors(c, MergedAll(cs), q));
    && q.diversity
    && exists j, i :: 0 <= j < i < |ranked| && Shadows(c, cs, q, ranked[j], ranked[i]) && ranked[i].0.id == id
  }

  predicate Shadows(c: Canon, cs: seq<Candidate>, q: Request, kept: Item, dropped: Item) {
    && kept in ShortlistFor(c, cs, q) && !Lower(kept, dropped)
    && Similarity(q.tok, dropped.0.content, kept.0.content) >= q.threshold
  }

  /**
   A record that recall may tell and whose canonical hash some candidate reports is in its list,
   unless the list is full of records that do not rank below it or a similar one that does not
   rank below it was kept instead.
   */
  lemma CandidateIsTold(c: Canon, id: Id, score: real, cs: seq<Candidate>, q: Request)
    requires Keyed(c) && Tellable(c, id, q)
    requires Resolver.Candidate(id, score, Some(c.records[id].contentHash)) in cs
    ensures Route(c, c.records[id]).Some?
    ensures var cat := Route(c, c.records[id]).value;
            Told(c, cs, q, cat, id) || OutOfBudget(c, cs, q, cat, id) || TooSimilar(c, cs, q, id)
  {
    hide MergedAll, Shortlist, Listed, Similarity, Lower;
    var x := CandidateSurvives(c, id, score, cs, q);
    var cat := Route(c, c.records[id]).value;
    var survivors := Survivors(c, MergedAll(cs), q);
    var r := PlaceOf(Rank(survivors), survivors, x);
    if x in ShortlistFor(c, cs, q) {
      var i :| 0 <= i < |ShortlistFor(c, cs, q)| && ShortlistFor(c, cs, q)[i] == x;
      ListedUnlessFull(c, cs, q, cat, i);
    } else {
      DroppedForSimilar(c, cs, q, r);
    }
  }

  /** Its hash among the reported ones, a usable record survives whatever stale hits are merged with it. */
  lemma CandidateSurvives(c: Canon, id: Id, score: real, cs: seq<Candidate>, q: Request) returns (x: Item)
    requires Keyed(c) && Usable(c, id, q)
    requires Resolver.Candidate(id, score, Some(c.records[id].contentHash)) in cs
    ensures x in Survivors(c, MergedAll(cs), q) && x.0 == c.records[id]
  {
    var hit := Resolver.Candidate(id, score, Some(c.records[id].contentHash));
    MergeMeaning(cs);
    var ms := MergedAll(cs);
    var p := Find(ms, id);
    assert Find(ms, hit.id) < |ms|;
    assert Summarises(cs, ms[p]);
    assert c.records[id].contentHash in ms[p].hashes by {
      assert c.records[id].contentHash in Reported(hit);
    }
    SurvivorListed(c, ms, q, p);
    x := (c.records[id], ms[p]);
  }

  /**
   What a coherent index finds, recall keeps: a current, valid, permitted record that any
   vector store returns survives hydration, whatever stale hits are merged with it.
   */
  lemma FoundIsKept(s: Setup, w: World, n: nat, id: Id, score: real, cs: seq<Candidate>, q: Request)
    requires Coherent(s, w) && n < |s.names| && Usable(w.canon, id, q)
    ensures id in Live(w.coord.idx[s.names[n]], w.generation)
    ensures var hit := Live(w.coord.idx[s.names[n]], w.generation)[id];
            Resolver.Candidate(id, score, Some(hit.contentHash)) in cs ==>
              exists x :: x in Survivors(w.canon, MergedAll(cs), q) && x.0 == w.canon.records[id]
  {
    var hash := w.canon.records[id].contentHash;
    assert Indexed(s, w, id);
    ServesIsLive(w.coord.idx[s.names[n]], id, w.generation, hash);
    if Resolver.Candidate(id, score, Some(hash)) in cs {
      var x := CandidateSurvives(w.canon, id, score, cs, q);
    }
  }

  lemma PlaceOf(ranked: seq<Item>, xs: seq<Item>, x: Item) returns (r: nat)
    requires ranked == Rank(xs) && x in xs
    ensures r < |ranked| && ranked[r] == x
  {
    assert x in multiset(ranked);
    r :| 0 <= r < |ranked| && ranked[r] == x;
  }

  lemma ListedUnlessFull(c: Canon, cs: seq<Candidate>, q: Request, cat: Category, i: nat)
    requires Keyed(c) && i < |ShortlistFor(c, cs, q)| && Route(c, ShortlistFor(c, cs, q)[i].0) == Some(cat)
    ensures var id := ShortlistFor(c, cs, q)[i].0.id;
            Told(c, cs, q, cat, id) || OutOfBudget(c, cs, q, cat, id)
  {
    var xs := ShortlistFor(c, cs, q);
    var id := xs[i].0.id;
    if !Told(c, cs, q, cat, id) {
      OnlyRankCrowdsOut(c, cs, q, cat, i);
      hide ShortlistFor, Resolved, Lower;
      var es := Field(Resolved(c, cs, q), cat);
      forall k | 0 <= k < |es|
        ensures Precedes(xs, es[k].id, id)
      {
      }
    }
  }

  lemma DroppedForSimilar(c: Canon, cs: seq<Candidate>, q: Request, r: nat)
    requires r < |Rank(Survivors(c, MergedAll(cs), q))|
    requires Rank(Survivors(c, MergedAll(cs), q))[r] !in ShortlistFor(c, cs, q)
    ensures TooSimilar(c, cs, q, Rank(Survivors(c, MergedAll(cs), q))[r].0.id)
  {
    var survivors := Survivors(c, MergedAll(cs), q);
    assert q.diversity;
    var j := DiversityDropsForBetter(survivors, q, r);
    hide Shortlist, Lower, Rank;
    assert Shadows(c, cs, q, Rank(survivors)[j], Rank(survivors)[r]);
  }

  /**
   Recall completeness. In a coherent state every record that recall may tell is live in every
   store under its current hash; and recall tells it under its route, or else every store's search
   for which it fits is full, its list is full, or a similar record that it does not outrank took
   its place.
   */
  lemma RecallIsComplete(
    s: Setup, w: World, n: nat, id: Id, hits: seq<seq<Candidate>>, lexical: seq<Candidate>, cs: seq<Candidate>,
    q: Request, score: VectorRecord -> real, topK: nat, fits: VectorRecord -> bool)
    requires Coherent(s, w) && n < |s.names| && Tellable(w.canon, id, q)
    requires |hits| == |s.names| && cs == Flat(hits) + lexical
    requires StoreHits(hits[n], w.coord.idx[s.names[n]], w.generation, score, topK, fits)
    ensures Route(w.canon, w.canon.records[id]).Some?
    ensures id in Live(w.coord.idx[s.names[n]], w.generation)
    ensures var row := Live(w.coord.idx[s.names[n]], w.generation)[id];
            var cat := Route(w.canon, w.canon.records[id]).value;
            && row.contentHash == w.canon.records[id].contentHash
            && (fits(row) ==>
                  || Told(w.canon, cs, q, cat, id)
                  || OutOfBudget(w.canon, cs, q, cat, id)
                  || TooSimilar(w.canon, cs, q, id)
                  || (|hits[n]| == topK && forall i :: 0 <= i < topK ==> hits[n][i].score >= score(row)))
  {
    assert Indexed(s, w, id);
    ServesIsLive(w.coord.idx[s.names[n]], id, w.generation, w.canon.records[id].contentHash);
    var row := Live(w.coord.idx[s.names[n]], w.generation)[id];
    if i :| 0 <= i < |hits[n]| && hits[n][i].id == id {
      FlatMeaning(hits, n, i);
      assert cs[|Flat(hits[..n])| + i] == hits[n][i];
      CandidateIsTold(w.canon, id, score(row), cs, q);
    }
  }

  /**
   The same for a record that only the full-text index finds, in any state: it is told unless
   `topK` rows are ranked before it, its list is full, or a similar record was kept.
   */
  lemma FullTextIsComplete(
    c: Canon, id: Id, r: nat, ranking: seq<(Id, real)>, topK: nat, vector: seq<Candidate>, q: Request)
    requires Keyed(c) && Tellable(c, id, q) && r < |ranking| && ranking[r].0 == id
    requires |set m: nat | m < r && ranking[m].0 in c.records && ranking[m].0 !in c.tombs
                           && c.records[ranking[m].0].status in {Active, Reinforced}| < topK
    ensures var cs, cat := vector + LexicalHits(c, ranking, topK), Route(c, c.records[id]);
            && cat.Some?
            && (Told(c, cs, q, cat.value, id) || OutOfBudget(c, cs, q, cat.value, id) || TooSimilar(c, cs, q, id))
  {
    hide Told, Route, Joined;
    var hit := Resolver.Candidate(id, -ranking[r].1, Some(c.records[id].contentHash));
    LexicalMeaning(c, ranking, topK, LexicalHits(c, ranking, topK));
    assert r in Returned(c, ranking, |ranking|);
    assert Returned(c, ranking, r) == set m: nat | m < r && ranking[m].0 in c.records && ranking[m].0 !in c.tombs
                                                  && c.records[ranking[m].0].status in {Active, Reinforced};
    assert LexicalHits(c, ranking, topK)[|Returned(c, ranking, r)|] == hit;
    CandidateIsTold(c, id, hit.score, vector + LexicalHits(c, ranking, topK), q);
  }
}
