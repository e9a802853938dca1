/**
 The in-memory vector store (strata/vector/fake.py): rows keyed by (id, generation) and one
 soft-delete mark per id. Vectors and similarity scores are not part of this model; what it
 keeps is which row is stored, with which content hash, and whether it is live.
 */
module VectorStore {
  import opened Records

  datatype VectorRecord = VectorRecord(id: Id, contentHash: string, generation: int)

  datatype Index = Index(byKey: map<(Id, int), VectorRecord>, deleted: set<Id>)

  function UpsertOne(ix: Index, rec: VectorRecord): Index {
    Index(ix.byKey[(rec.id, rec.generation) := rec], ix.deleted - {rec.id})
  }

  function Upserted(ix: Index, recs: seq<VectorRecord>): Index {
    if recs == [] then ix else UpsertOne(Upserted(ix, recs[..|recs| - 1]), recs[|recs| - 1])
  }

  function Removed(ix: Index, ids: set<Id>): Index {
    Index(ix.byKey, ix.deleted + ids)
  }

  function Purged(ix: Index): Index {
    var kept := map k | k in ix.byKey && k.0 !in ix.deleted :: ix.byKey[k];
    Index(kept, ix.deleted - (set k | k in ix.byKey :: k.0))
  }

  function PayloadIds(recs: seq<VectorRecord>): set<Id> {
    set r | r in recs :: r.id
  }

  /** Present in some generation and not soft-deleted: what deletion verification asks. */
  predicate Contains(ix: Index, id: Id) {
    id !in ix.deleted && exists k :: k in ix.byKey && k.0 == id
  }

  /** The rows a search of generation `gen` may return, whatever the query vector is. */
  function Live(ix: Index, gen: int): (rows: map<Id, VectorRecord>) {
    map k | k in ix.byKey && k.1 == gen && k.0 !in ix.deleted :: k.0 := ix.byKey[k]
  }

  // ---- algebra of the two mutations ----

  /** The rows a payload leaves behind: for each key the last record that carries it. */
  function KeyMap(recs: seq<VectorRecord>): map<(Id, int), VectorRecord> {
    if recs == [] then map[]
    else
      var last := recs[|recs| - 1];
      KeyMap(recs[..|recs| - 1])[(last.id, last.generation) := last]
  }

  /** A payload is one overwrite of its keys and one clearing of its soft-delete marks. */
  lemma {:induction false} UpsertedForm(ix: Index, recs: seq<VectorRecord>)
    ensures Upserted(ix, recs) == Index(ix.byKey + KeyMap(recs), ix.deleted - PayloadIds(recs))
  {
    if recs == [] {
    } else {
      var init := recs[..|recs| - 1];
      UpsertedForm(ix, init);
      var last := recs[|recs| - 1];
      assert (ix.byKey + KeyMap(init))[(last.id, last.generation) := last] == ix.byKey + KeyMap(recs);
      assert PayloadIds(recs) == PayloadIds(init) + {recs[|recs| - 1].id} by {
        assert recs == init + [recs[|recs| - 1]];
      }
    }
  }

  lemma {:induction false} KeyMapIds(recs: seq<VectorRecord>)
    ensures forall k :: k in KeyMap(recs) ==> k.0 in PayloadIds(recs)
  {
    if recs == [] {
    } else {
      var init := recs[..|recs| - 1];
      KeyMapIds(init);
      assert recs == init + [recs[|recs| - 1]];
    }
  }

  /** Upserts of disjoint id sets commute. */
  lemma UpsertsCommute(ix: Index, a: seq<VectorRecord>, b: seq<VectorRecord>)
    requires PayloadIds(a) !! PayloadIds(b)
    ensures Upserted(Upserted(ix, a), b) == Upserted(Upserted(ix, b), a)
  {
    UpsertedForm(ix, a);
    UpsertedForm(ix, b);
    UpsertedForm(Upserted(ix, a), b);
    UpsertedForm(Upserted(ix, b), a);
    assert ix.byKey + KeyMap(a) + KeyMap(b) == ix.byKey + KeyMap(b) + KeyMap(a) by {
      assert KeyMap(a).Keys !! KeyMap(b).Keys by {
        KeyMapIds(a);
        KeyMapIds(b);
      }
      OverlaysCommute(ix.byKey, KeyMap(a), KeyMap(b));
    }
    assert ix.deleted - PayloadIds(a) - PayloadIds(b) == ix.deleted - PayloadIds(b) - PayloadIds(a);
  }

  /** An upsert and a removal of disjoint id sets commute. */
  lemma UpsertRemoveCommute(ix: Index, a: seq<VectorRecord>, ids: set<Id>)
    requires PayloadIds(a) !! ids
    ensures Upserted(Removed(ix, ids), a) == Removed(Upserted(ix, a), ids)
  {
    UpsertedForm(ix, a);
    UpsertedForm(Removed(ix, ids), a);
    assert ix.deleted + ids - PayloadIds(a) == ix.deleted - PayloadIds(a) + ids;
  }

  lemma OverlaysCommute<K, V>(m: map<K, V>, a: map<K, V>, b: map<K, V>)
    requires a.Keys !! b.Keys
    ensures m + a + b == m + b + a
  {
  }

  /** Replaying a payload that has just been applied changes nothing. */
  lemma UpsertReplay(ix: Index, a: seq<VectorRecord>)
    ensures Upserted(Upserted(ix, a), a) == Upserted(ix, a)
  {
    UpsertedForm(ix, a);
    UpsertedForm(Upserted(ix, a), a);
  }

  /**
   What a payload leaves, record by record: of each (id, generation) the last one, with the id's
   soft-delete mark cleared; rows and marks it does not name stay.
   */
  lemma {:induction false} UpsertMeaning(ix: Index, recs: seq<VectorRecord>, n: nat, key: (Id, int), id: Id)
    ensures n < |recs| && recs[n].id == key.0 && recs[n].generation == key.1
            && (forall m :: n < m < |recs| ==> recs[m].id != key.0 || recs[m].generation != key.1)
            ==> key in Upserted(ix, recs).byKey && Upserted(ix, recs).byKey[key] == recs[n]
    ensures n < |recs| ==> recs[n].id !in Upserted(ix, recs).deleted
    ensures (forall m :: 0 <= m < |recs| ==> recs[m].id != key.0 || recs[m].generation != key.1) ==>
              && (key in Upserted(ix, recs).byKey <==> key in ix.byKey)
              && (key in ix.byKey ==> Upserted(ix, recs).byKey[key] == ix.byKey[key])
    ensures (forall m :: 0 <= m < |recs| ==> recs[m].id != id) ==>
              (id in Upserted(ix, recs).deleted <==> id in ix.deleted)
  {
    if recs != [] {
      UpsertMeaning(ix, recs[..|recs| - 1], n, key, id);
    }
  }

  /** A presence answer is about what some search can return. */
  lemma ContainsIsLive(ix: Index, id: Id)
    ensures Contains(ix, id) <==> exists gen :: id in Live(ix, gen)
  {
    if Contains(ix, id) {
      var k :| k in ix.byKey && k.0 == id;
      assert id in Live(ix, k.1);
    }
  }

  /** Compaction leaves no soft-deleted row, and forgets the marks that had rows and no others. */
  lemma PurgeDropsDead(ix: Index)
    ensures forall k :: k in Purged(ix).byKey <==> k in ix.byKey && k.0 !in ix.deleted
    ensures forall id :: id in Purged(ix).deleted <==> id in ix.deleted && forall gen :: (id, gen) !in ix.byKey
    ensures Purged(Purged(ix)) == Purged(ix)
  {
    var stored := set k | k in ix.byKey :: k.0;
    forall id | id in stored
      ensures exists gen :: (id, gen) in ix.byKey
    {
      var k :| k in ix.byKey && k.0 == id;
      var gen := k.1;
      assert k == (id, gen) && (id, gen) in ix.byKey;
    }
    forall id, gen | (id, gen) in ix.byKey
      ensures id in stored
    {
      assert (id, gen).0 == id;
    }
    var p := Purged(ix);
    assert Purged(p).byKey == p.byKey;
  }

  /** Compaction is invisible: no live row and no presence answer changes. */
  lemma PurgeKeepsLive(ix: Index, gen: int, id: Id)
    ensures Live(Purged(ix), gen) == Live(ix, gen)
    ensures Contains(Purged(ix), id) == Contains(ix, id)
  {
    var p := Purged(ix);
    forall i
      ensures i in Live(p, gen) <==> i in Live(ix, gen)
      ensures i in Live(p, gen) ==> Live(p, gen)[i] == Live(ix, gen)[i]
    {
      assert (i, gen) in p.byKey && i !in p.deleted <==> (i, gen) in ix.byKey && i !in ix.deleted;
    }
    if Contains(ix, id) {
      var k :| k in ix.byKey && k.0 == id;
      assert k in p.byKey;
    }
  }

  // ---- the mutable store ----

  class InMemoryVectorStore {
    var byKey: map<(Id, int), VectorRecord>
    var deleted: set<Id>

    constructor ()
      ensures Model() == Index(map[], {})
    {
      byKey, deleted := map[], {};
    }

    function Model(): Index
      reads this
    {
      Index(byKey, deleted)
    }

    method Upsert(recs: seq<VectorRecord>) returns (acks: set<Id>)
      modifies this
      ensures Model() == Upserted(old(Model()), recs)
      ensures acks == set r | r in recs :: r.id
    {
      acks := {};
      for n := 0 to |recs|
        invariant Model() == Upserted(old(Model()), recs[..n])
        invariant acks == PayloadIds(recs[..n])
      {
        var rec := recs[n];
        byKey := byKey[(rec.id, rec.generation) := rec];
        deleted := deleted - {rec.id};
        acks := acks + {rec.id};
        assert recs[..n + 1] == recs[..n] + [rec];
        assert recs[..n + 1][..n] == recs[..n];
      }
      assert recs[..|recs|] == recs;
    }

    method Remove(ids: set<Id>) returns (acks: set<Id>)
      modifies this
      ensures Model() == Removed(old(Model()), ids)
      ensures byKey == old(byKey) && deleted == old(deleted) + ids
      ensures acks == ids
    {
      acks := {};
      var rest := ids;
      while rest != {}
        invariant rest <= ids && acks == ids - rest
        invariant Model() == Removed(old(Model()), acks)
      {
        var i :| i in rest;
        deleted := deleted + {i};
        acks := acks + {i};
        rest := rest - {i};
      }
    }

    /**
     The `topK` best rows among those that are live, in the generation if one is given, and
     fitting, in descending score. `score` stands for the similarity to the query vector, `fits`
     for the metadata filters and the dimension test.
     */
    method Search(score: VectorRecord -> real, topK: nat, generation: Option<int>, fits: VectorRecord -> bool)
      returns (hits: seq<(Id, int)>)
      ensures |hits| <= topK
      ensures forall k :: k in hits ==>
                && k in byKey && k.0 !in deleted && fits(byKey[k])
                && (generation.Some? ==> k.1 == generation.value)
                && k.0 in Live(Model(), k.1)
      ensures forall m, n :: 0 <= m < n < |hits| ==>
                && hits[m] != hits[n]
                && hits[m] in byKey && hits[n] in byKey && score(byKey[hits[m]]) >= score(byKey[hits[n]])
      ensures forall k | k in byKey && k.0 !in deleted && fits(byKey[k]) && k !in hits ::
                (generation.None? || k.1 == generation.value) ==>
                  |hits| == topK && forall h :: h in hits ==> h in byKey && score(byKey[h]) >= score(byKey[k])
      ensures forall gen, id | id in Live(Model(), gen) && fits(Live(Model(), gen)[id]) && (id, gen) !in hits ::
                (generation.None? || gen == generation.value) ==> |hits| == topK
    {
      hits := [];
      var rest := set k | k in byKey && Matches(k, generation, fits);
      while |hits| < topK && rest != {}
        invariant |hits| <= topK
        invariant forall k :: k in rest || k in hits <==> Matches(k, generation, fits)
        invariant forall k :: k in hits ==> k !in rest
        invariant forall m, n :: 0 <= m < n < |hits| ==> hits[m] != hits[n] && Outranks(hits[m], hits[n], score)
        invariant forall h, k :: h in hits && k in rest ==> Outranks(h, k, score)
        decreases |rest|
      {
        var best := BestOf(rest, score);
        hits := hits + [best];
        rest := rest - {best};
      }
      forall k | k in byKey && k.0 !in deleted && fits(byKey[k]) && k !in hits
                 && (generation.None? || k.1 == generation.value)
        ensures |hits| == topK && forall h :: h in hits ==> h in byKey && score(byKey[h]) >= score(byKey[k])
      {
        assert Matches(k, generation, fits) && k in rest;
        assert forall h :: h in hits ==> Outranks(h, k, score);
      }
    }

    predicate Matches(key: (Id, int), generation: Option<int>, fits: VectorRecord -> bool)
      reads this
    {
      key in byKey && key.0 !in deleted && (generation.Some? ==> key.1 == generation.value) && fits(byKey[key])
    }

    predicate Outranks(a: (Id, int), b: (Id, int), score: VectorRecord -> real)
      reads this
    {
      a in byKey && b in byKey && score(byKey[a]) >= score(byKey[b])
    }

    method BestOf(keys: set<(Id, int)>, score: VectorRecord -> real) returns (best: (Id, int))
      requires keys != {} && keys <= byKey.Keys
      ensures best in keys && forall k :: k in keys ==> Outranks(best, k, score)
    {
      best :| best in keys;
      var rest := keys - {best};
      while rest != {}
        invariant rest <= keys && best in keys
        invariant forall k :: k in keys - rest ==> Outranks(best, k, score)
      {
        var k :| k in rest;
        var held := best;
        if score(byKey[k]) > score(byKey[best]) {
          best := k;
        }
        assert forall x :: x in keys - rest ==> Outranks(held, x, score) && Outranks(best, x, score);
        rest := rest - {k};
      }
    }

    method PurgeDeleted() returns (n: nat)
      modifies this
      ensures Model() == Purged(old(Model()))
      ensures n == |old(byKey)| - |byKey|
    {
      var keys := set k | k in byKey && k.0 in deleted;
      var gone := set k | k in keys :: k.0;
      n := |keys|;
      var kept := map k | k in byKey && k !in keys :: byKey[k];
      assert kept.Keys == byKey.Keys - keys;
      byKey := kept;
      deleted := deleted - gone;
    }
  }
}
