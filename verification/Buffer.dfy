/**
 The L1.5 aggregation buffer (strata/reflection/buffer.py): greedy single-pass clustering of
 records by token-Jaccard similarity to each cluster's first member.
 */
module Buffer {
  import opened Records
  import opened Diversity

  datatype Cluster = Cluster(recordIds: seq<Id>, representative: string)

  /** The first cluster at or after `from` that `text` resembles, or |cs| when there is none. */
  function FirstMatch(tok: Tokenizer, cs: seq<Cluster>, text: string, t: real, from: nat): (h: nat)
    requires from <= |cs|
    ensures from <= h <= |cs|
    ensures forall c :: from <= c < h ==> Similarity(tok, text, cs[c].representative) < t
    ensures h < |cs| ==> Similarity(tok, text, cs[h].representative) >= t
    decreases |cs| - from
  {
    if from == |cs| || Similarity(tok, text, cs[from].representative) >= t then from
    else FirstMatch(tok, cs, text, t, from + 1)
  }

  function Placed(tok: Tokenizer, cs: seq<Cluster>, rec: Record, t: real): seq<Cluster> {
    var h := FirstMatch(tok, cs, rec.content, t, 0);
    if h < |cs| then cs[h := cs[h].(recordIds := cs[h].recordIds + [rec.id])]
    else cs + [Cluster([rec.id], rec.content)]
  }

  function Clusters(tok: Tokenizer, records: seq<Record>, t: real): seq<Cluster> {
    if records == [] then []
    else Placed(tok, Clusters(tok, records[..|records| - 1], t), records[|records| - 1], t)
  }

  method ClusterL1(tok: Tokenizer, records: seq<Record>, t: real) returns (clusters: seq<Cluster>)
    ensures clusters == Clusters(tok, records, t)
  {
    clusters := [];
    for i := 0 to |records|
      invariant clusters == Clusters(tok, records[..i], t)
    {
      assert records[..i + 1][..i] == records[..i];
      var rec, placed, c := records[i], false, 0;
      ghost var before := clusters;
      while c < |clusters| && !placed
        invariant c <= |before|
        invariant !placed ==> clusters == before
                              && FirstMatch(tok, before, rec.content, t, 0)
                                  == FirstMatch(tok, before, rec.content, t, c)
        invariant placed ==> c < |before| && clusters == Placed(tok, before, rec, t)
        decreases |before| - c, !placed
      {
        if Similarity(tok, rec.content, clusters[c].representative) >= t {
          clusters := clusters[c := clusters[c].(recordIds := clusters[c].recordIds + [rec.id])];
          placed := true;
        } else {
          c := c + 1;
        }
      }
      if !placed {
        clusters := clusters + [Cluster([rec.id], rec.content)];
      }
    }
    assert records[..|records|] == records;
  }

  function ReviewWorthy(clusters: seq<Cluster>): (r: seq<Cluster>)
    ensures forall c :: c in r <==> c in clusters && |c.recordIds| >= 2
  {
    if clusters == [] then []
    else
      var last := clusters[|clusters| - 1];
      ReviewWorthy(clusters[..|clusters| - 1]) + if |last.recordIds| >= 2 then [last] else []
  }

  /** They stay in order. */
  lemma {:induction false} WorthyInOrder(clusters: seq<Cluster>, j: nat, k: nat) returns (a: nat, b: nat)
    requires j < k < |ReviewWorthy(clusters)|
    ensures a < b < |clusters|
    ensures clusters[a] == ReviewWorthy(clusters)[j] && clusters[b] == ReviewWorthy(clusters)[k]
  {
    var n := |clusters| - 1;
    var before := ReviewWorthy(clusters[..n]);
    if k < |before| {
      a, b := WorthyInOrder(clusters[..n], j, k);
    } else {
      assert before[j] in before;
      a, b :| 0 <= a < n && clusters[..n][a] == before[j] && b == n;
    }
  }

  // ---- where each record goes ----

  /** The number of the cluster that record `i` joins or seeds. */
  function Home(tok: Tokenizer, records: seq<Record>, t: real, i: nat): nat
    requires i < |records|
  {
    FirstMatch(tok, Clusters(tok, records[..i], t), records[i].content, t, 0)
  }

  predicate Seeds(tok: Tokenizer, records: seq<Record>, t: real, i: nat)
    requires i < |records|
  {
    Home(tok, records, t, i) == |Clusters(tok, records[..i], t)|
  }

  /** The ids, in input order, of the records whose home is cluster `c`. */
  function Members(tok: Tokenizer, records: seq<Record>, t: real, c: nat): seq<Id> {
    if records == [] then []
    else
      var n := |records| - 1;
      Members(tok, records[..n], t, c) + if Home(tok, records, t, n) == c then [records[n].id] else []
  }

  /** Clusters are only ever appended to, and a representative never changes. */
  lemma {:induction false} ClustersGrow(tok: Tokenizer, records: seq<Record>, t: real, m: nat)
    requires m <= |records|
    ensures var early, late := Clusters(tok, records[..m], t), Clusters(tok, records, t);
            && |early| <= |late|
            && forall c :: 0 <= c < |early| ==> late[c].representative == early[c].representative
    decreases |records|
  {
    if m == |records| {
      assert records[..m] == records;
    } else {
      var n := |records| - 1;
      assert records[..n][..m] == records[..m];
      ClustersGrow(tok, records[..n], t, m);
    }
  }

  /** The cluster a record went to, and what it has in common with the representative. */
  lemma HomeIsClose(tok: Tokenizer, records: seq<Record>, t: real, i: nat)
    requires i < |records|
    ensures var cs, h := Clusters(tok, records, t), Home(tok, records, t, i);
            && h < |cs|
            && (if Seeds(tok, records, t, i) then cs[h].representative == records[i].content
                else Similarity(tok, records[i].content, cs[h].representative) >= t)
            && (t <= 1.0 ==> Similarity(tok, records[i].content, cs[h].representative) >= t)
            && (forall c :: 0 <= c < h ==> Similarity(tok, records[i].content, cs[c].representative) < t)
  {
    assert records[..i + 1][..i] == records[..i];
    ClustersGrow(tok, records, t, i + 1);
    ClustersGrow(tok, records[..i + 1], t, i);
  }

  /** Every record lands in exactly one cluster: its home. */
  lemma {:induction false} ClustersPartition(tok: Tokenizer, records: seq<Record>, t: real, c: nat)
    ensures c < |Clusters(tok, records, t)| ==>
              Clusters(tok, records, t)[c].recordIds == Members(tok, records, t, c)
    ensures c >= |Clusters(tok, records, t)| ==> Members(tok, records, t, c) == []
  {
    if records == [] {
    } else {
      var n := |records| - 1;
      ClustersPartition(tok, records[..n], t, c);
    }
  }

  ghost predicate LandsIn(tok: Tokenizer, records: seq<Record>, t: real, c: nat, i: nat) {
    i < |records| && Home(tok, records, t, i) == c
  }

  lemma {:induction false} MemberLands(tok: Tokenizer, records: seq<Record>, t: real, c: nat, id: Id) returns (i: nat)
    requires id in Members(tok, records, t, c)
    ensures LandsIn(tok, records, t, c, i) && records[i].id == id
  {
    var n := |records| - 1;
    if id in Members(tok, records[..n], t, c) {
      i := MemberLands(tok, records[..n], t, c, id);
      assert records[..n][..i] == records[..i];
    } else {
      i := n;
    }
  }

  /** A cluster lists its members in input order. */
  lemma {:induction false} MembersInOrder(tok: Tokenizer, records: seq<Record>, t: real, c: nat, j: nat, k: nat)
    returns (a: nat, b: nat)
    requires j < k < |Members(tok, records, t, c)|
    ensures a < b < |records|
    ensures records[a].id == Members(tok, records, t, c)[j] && records[b].id == Members(tok, records, t, c)[k]
  {
    hide Home;
    var n := |records| - 1;
    var before := Members(tok, records[..n], t, c);
    if k < |before| {
      a, b := MembersInOrder(tok, records[..n], t, c, j, k);
    } else {
      assert before[j] in before;
      a := MemberLands(tok, records[..n], t, c, before[j]);
      b := n;
    }
  }

  lemma {:induction false} LandedIsMember(tok: Tokenizer, records: seq<Record>, t: real, c: nat, i: nat)
    requires LandsIn(tok, records, t, c, i)
    ensures records[i].id in Members(tok, records, t, c)
  {
    hide Clusters;
    var n := |records| - 1;
    if i < n {
      assert records[..n][..i] == records[..i];
      LandedIsMember(tok, records[..n], t, c, i);
    }
  }

  /** Representatives of different clusters are below the threshold of each other. */
  lemma {:induction false} RepresentativesApart(tok: Tokenizer, records: seq<Record>, t: real, a: nat, b: nat)
    requires a < b < |Clusters(tok, records, t)|
    ensures var cs := Clusters(tok, records, t);
            Similarity(tok, cs[b].representative, cs[a].representative) < t
  {
    var n := |records| - 1;
    var before := Clusters(tok, records[..n], t);
    assert records[..n + 1][..n] == records[..n];
    ClustersGrow(tok, records, t, n);
    if b < |before| {
      RepresentativesApart(tok, records[..n], t, a, b);
    }
  }

  /** Two records with equal token sets share a cluster, although the list grows in between. */
  lemma EqualTokensShareCluster(tok: Tokenizer, records: seq<Record>, t: real, i: nat, j: nat)
    requires i < j < |records| && t <= 1.0
    requires tok(records[i].content) == tok(records[j].content)
    ensures Home(tok, records, t, i) == Home(tok, records, t, j)
  {
    var upTo := records[..j];
    assert upTo[i] == records[i] && upTo[..i] == records[..i];
    HomeIsClose(tok, upTo, t, i);
  }

  lemma SeedsDiffer(tok: Tokenizer, records: seq<Record>, t: real, i: nat, j: nat)
    requires i < j < |records|
    requires Seeds(tok, records, t, i) && Seeds(tok, records, t, j)
    ensures Home(tok, records, t, i) < Home(tok, records, t, j)
  {
    var upTo := records[..j];
    assert upTo[i] == records[i] && upTo[..i] == records[..i];
    HomeIsClose(tok, upTo, t, i);
  }

  /** Cluster diameter: two records of one cluster are at least 2t - 1 similar. */
  lemma ClusterDiameter(tok: Tokenizer, records: seq<Record>, t: real, i: nat, j: nat)
    requires i < j < |records|
    requires Home(tok, records, t, i) == Home(tok, records, t, j)
    ensures Similarity(tok, records[i].content, records[j].content) >= 2.0 * t - 1.0
  {
    HomeIsClose(tok, records, t, i);
    HomeIsClose(tok, records, t, j);
    var rep := Clusters(tok, records, t)[Home(tok, records, t, i)].representative;
    if Seeds(tok, records, t, i) && Seeds(tok, records, t, j) {
      SeedsDiffer(tok, records, t, i, j);
    }
    JaccardSymmetric(tok(rep), tok(records[j].content));
    JaccardTriangle(tok(records[i].content), tok(rep), tok(records[j].content));
  }
}
