/**
 The lexical index as what it is derived from: one posting, a copy of the content, per record
 id (strata/lexical/fts.py). Tokenisation and ranking are not part of this model.
 */
module Lexical {
  import opened Records
  import opened Canonical

  type Postings = map<Id, string>

  /** What `rebuild` leaves: a posting for every canonical row, deleted and superseded included. */
  function Rebuilt(c: Canon): Postings {
    map i | i in c.records :: c.records[i].content
  }

  class LexicalStore {
    const store: CanonicalStore
    var postings: Postings

    constructor (store: CanonicalStore)
      ensures this.store == store && postings == map[]
    {
      this.store := store;
      postings := map[];
    }

    method Index(rec: Record)
      modifies this
      ensures postings == old(postings)[rec.id := rec.content]
    {
      postings := postings - {rec.id};
      postings := postings[rec.id := rec.content];
    }

    method Remove(ids: set<Id>)
      modifies this
      ensures postings == old(postings) - ids
    {
      postings := postings - ids;
    }

    method Rebuild()
      modifies this
      ensures postings == Rebuilt(store.Model())
      ensures postings.Keys == store.records.Keys
      ensures forall i :: i in store.records ==> postings[i] == store.records[i].content
    {
      postings := map[];
      var rest := store.records.Keys;
      while rest != {}
        invariant rest <= store.records.Keys
        invariant postings == map i | i in store.records.Keys - rest :: store.records[i].content
      {
        var i :| i in rest;
        postings := postings[i := store.records[i].content];
        rest := rest - {i};
      }
    }
  }
}
