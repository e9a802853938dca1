/**
 The resolver (strata/resolver/resolver.py): from retrieval candidates to a belief bundle, by
 merging, hydrating against the canonical tables, ranking, routing and trimming. Nothing is
 assumed of the candidates, so a stale index is just another candidate list.
 */
module Resolver {
  import opened Records
  import opened Canonical
  import opened Diversity

  datatype Candidate = Candidate(id: Id, score: real, contentHash: Option<string>)

  datatype Merged = Merged(id: Id, bestScore: real, hashes: set<string>, evidence: nat)

  type Item = (Record, Merged)

  datatype Category = CurrentBelief | RecentContext | InteractionGuidance | OpenConflict | Hypothesis | PolicyFlag

  datatype Label = Low | Medium | High

  /** What the bundle says about an entry's status. */
  datatype Standing = AsRecorded(status: Status) | Hypothetical | PolicyOnly | InConflict

  datatype Entry = Entry(
    id: Id, category: Category, claim: string, confidence: Label, standing: Standing,
    validFrom: Option<int>, validUntil: Option<int>, cautiously: bool)

  datatype Bundle = Bundle(
    currentBeliefs: seq<Entry>,
    recentContext: seq<Entry>,
    interactionGuidance: seq<Entry>,
    openConflicts: seq<Entry>,
    hypotheses: seq<Entry>,
    policyFlags: seq<Entry>)

  datatype Request = Request(
    now: int, permit: Record -> bool, budgets: map<Category, nat>,
    diversity: bool, threshold: real, tok: Tokenizer)

  function Field(b: Bundle, cat: Category): seq<Entry> {
    match cat
    case CurrentBelief => b.currentBeliefs
    case RecentContext => b.recentContext
    case InteractionGuidance => b.interactionGuidance
    case OpenConflict => b.openConflicts
    case Hypothesis => b.hypotheses
    case PolicyFlag => b.policyFlags
  }

  // ---- merging ----

  /** The hash a candidate reports; an empty one counts as none. */
  function Reported(c: Candidate): set<string> {
    if c.contentHash.Some? && c.contentHash.value != "" then {c.contentHash.value} else {}
  }

  /** Position of `id` in the merged list, or its length. */
  function Find(ms: seq<Merged>, id: Id): (p: nat)
    ensures p <= |ms|
    ensures p < |ms| ==> ms[p].id == id
    ensures forall k :: 0 <= k < p ==> ms[k].id != id
  {
    if ms == [] then 0
    else if ms[0].id == id then 0
    else 1 + Find(ms[1..], id)
  }

  function Max(a: real, b: real): real {
    if a >= b then a else b
  }

  function MergeOne(ms: seq<Merged>, c: Candidate): seq<Merged> {
    var p := Find(ms, c.id);
    if p == |ms| then ms + [Merged(c.id, c.score, Reported(c), 1)]
    else ms[p := Merged(c.id, Max(ms[p].bestScore, c.score), ms[p].hashes + Reported(c), ms[p].evidence + 1)]
  }

  function MergedAll(cs: seq<Candidate>): seq<Merged> {
    if cs == [] then [] else MergeOne(MergedAll(cs[..|cs| - 1]), cs[|cs| - 1])
  }

  predicate DistinctIds(ms: seq<Merged>) {
    forall i, j :: 0 <= i < j < |ms| ==> ms[i].id != ms[j].id
  }

  /** How often `id` is a candidate. */
  function Evidence(cs: seq<Candidate>, id: Id): nat {
    if cs == [] then 0
    else Evidence(cs[..|cs| - 1], id) + if cs[|cs| - 1].id == id then 1 else 0
  }

  /** What a merged row says about its id, measured against the candidate list. */
  ghost predicate Summarises(cs: seq<Candidate>, m: Merged) {
    && m.evidence == Evidence(cs, m.id)
    && (forall c :: c in cs && c.id == m.id ==> c.score <= m.bestScore)
    && (exists c :: c in cs && c.id == m.id && c.score == m.bestScore)
    && (forall h :: h in m.hashes <==> exists c :: c in cs && c.id == m.id && h in Reported(c))
  }

  /** Merging: one row per candidate id, with its best score, its hashes and its repetitions. */
  lemma {:induction false} MergeMeaning(cs: seq<Candidate>)
    ensures var ms := MergedAll(cs);
            && DistinctIds(ms)
            && (forall k :: 0 <= k < |ms| ==> Summarises(cs, ms[k]))
            && (forall c :: c in cs ==> Find(ms, c.id) < |ms|)
  {
    hide Summarises;
    if cs == [] {
    } else {
      var init, c := cs[..|cs| - 1], cs[|cs| - 1];
      assert cs == init + [c];
      MergeMeaning(init);
      var before, ms := MergedAll(init), MergedAll(cs);
      var p := Find(before, c.id);
      forall k | 0 <= k < |ms|
        ensures Summarises(cs, ms[k])
      {
        if k == p {
          if p == |before| {
            NoCandidateOf(init, before, c.id);
          }
          SummaryOfMerged(init, c, before, ms[k]);
        } else {
          SummaryKept(init, c, before[k]);
        }
      }
      forall d | d in cs
        ensures Find(ms, d.id) < |ms|
      {
        var q := Find(before, d.id);
        if d == c {
          assert ms[p].id == c.id;
        } else {
          assert ms[q].id == d.id;
        }
      }
    }
  }

  /** Merged rows stand in the order in which their ids first occur. */
  lemma {:induction false} MergedInOrder(cs: seq<Candidate>, i: nat, j: nat) returns (a: nat)
    requires i < j < |MergedAll(cs)|
    ensures a < |cs| && cs[a].id == MergedAll(cs)[i].id
    ensures forall b :: 0 <= b <= a ==> cs[b].id != MergedAll(cs)[j].id
  {
    hide Find;
    var n := |cs| - 1;
    var before := MergedAll(cs[..n]);
    if j < |before| {
      a := MergedInOrder(cs[..n], i, j);
      assert forall b :: 0 <= b <= a ==> cs[..n][b] == cs[b];
    } else {
      MergeMeaning(cs[..n]);
      NoCandidateOf(cs[..n], before, cs[n].id);
      assert Summarises(cs[..n], before[i]);
      a :| 0 <= a < n && cs[..n][a].id == before[i].id;
      assert forall b :: 0 <= b <= a ==> cs[..n][b] in cs[..n] && cs[..n][b] == cs[b];
    }
  }

  lemma {:induction false} NoEvidence(cs: seq<Candidate>, id: Id)
    requires forall c :: c in cs ==> c.id != id
    ensures Evidence(cs, id) == 0
  {
    if cs != [] {
      assert cs[|cs| - 1] in cs;
      NoEvidence(cs[..|cs| - 1], id);
    }
  }

  /** Evidence counts candidates: none, one, or two at different positions. */
  lemma {:induction false} EvidenceMeaning(cs: seq<Candidate>, id: Id)
    ensures Evidence(cs, id) == |set i: nat | i < |cs| && cs[i].id == id|
    ensures Evidence(cs, id) >= 2 <==> exists i, j :: 0 <= i < j < |cs| && cs[i].id == id && cs[j].id == id
  {
    EvidenceCounts(cs, id, |cs|);
    assert cs[..|cs|] == cs;
    var at := set i: nat | i < |cs| && cs[i].id == id;
    if i, j :| 0 <= i < j < |cs| && cs[i].id == id && cs[j].id == id {
      assert {i, j} <= at;
      SubsetSize({i, j}, at);
    }
    if |at| >= 2 {
      var x :| x in at;
      assert |at - {x}| >= 1;
      var y :| y in at - {x};
      assert cs[x].id == id && cs[y].id == id;
      if x < y {
        assert 0 <= x < y < |cs|;
      } else {
        assert 0 <= y < x < |cs|;
      }
    }
  }

  lemma {:induction false} EvidenceCounts(cs: seq<Candidate>, id: Id, n: nat)
    requires n <= |cs|
    ensures Evidence(cs[..n], id) == |set i: nat | i < n && cs[i].id == id|
  {
    if n > 0 {
      EvidenceCounts(cs, id, n - 1);
      assert cs[..n][..n - 1] == cs[..n - 1];
      assert (set i: nat | i < n && cs[i].id == id)
          == (set i: nat | i < n - 1 && cs[i].id == id) + (if cs[n - 1].id == id then {n - 1} else {});
    }
  }

  lemma NoCandidateOf(cs: seq<Candidate>, ms: seq<Merged>, id: Id)
    requires forall c :: c in cs ==> Find(ms, c.id) < |ms|
    requires Find(ms, id) == |ms|
    ensures forall c :: c in cs ==> c.id != id
    ensures Evidence(cs, id) == 0
  {
    NoEvidence(cs, id);
  }

  lemma SummaryKept(init: seq<Candidate>, c: Candidate, m: Merged)
    requires Summarises(init, m) && m.id != c.id
    ensures Summarises(init + [c], m)
  {
    var cs := init + [c];
    assert cs[..|cs| - 1] == init;
    assert forall d :: d in cs && d.id == m.id ==> d in init;
    assert forall d :: d in init ==> d in cs;
  }

  lemma SummaryOfMerged(init: seq<Candidate>, c: Candidate, before: seq<Merged>, m: Merged)
    requires var p := Find(before, c.id);
             if p == |before| then
               m == Merged(c.id, c.score, Reported(c), 1) && Evidence(init, c.id) == 0
               && forall d :: d in init ==> d.id != c.id
             else
               Summarises(init, before[p]) && m == MergeOne(before, c)[p]
    ensures Summarises(init + [c], m)
  {
    var cs := init + [c];
    assert cs[..|cs| - 1] == init;
    assert c in cs && forall d :: d in init ==> d in cs;
    var p := Find(before, c.id);
    if p < |before| {
      var best :| best in init && best.id == c.id && best.score == before[p].bestScore;
      assert (if before[p].bestScore >= c.score then best else c).score == m.bestScore;
    }
  }

  // ---- hydration ----

  predicate TimeValid(rec: Record, now: int) {
    && (rec.validFrom.Some? ==> now >= rec.validFrom.value)
    && (rec.validUntil.Some? ==> now < rec.validUntil.value)
  }

  /** Backed by a row, not deleted, hash-consistent, valid now and permitted. */
  predicate Survives(c: Canon, m: Merged, q: Request) {
    && m.id in c.records
    && m.id !in c.tombs
    && (m.hashes != {} ==> c.records[m.id].contentHash in m.hashes)
    && TimeValid(c.records[m.id], q.now)
    && q.permit(c.records[m.id])
  }

  function Survivors(c: Canon, ms: seq<Merged>, q: Request): seq<Item> {
    if ms == [] then []
    else
      var m := ms[|ms| - 1];
      Survivors(c, ms[..|ms| - 1], q) + if Survives(c, m, q) then [(c.records[m.id], m)] else []
  }

  // ---- ranking ----

  function Weight(s: Status): real {
    if s == Reinforced then 1.1 else if s == Active then 1.0 else 0.0
  }

  function Confidence(r: Record): real {
    if r.confidence.Some? then r.confidence.value else 0.0
  }

  /** Strictly lower in rank: status weight, confidence, recency, score, evidence, in turn. */
  predicate Lower(a: Item, b: Item) {
    var wa, wb := Weight(a.0.status), Weight(b.0.status);
    wa < wb || (wa == wb && (
      Confidence(a.0) < Confidence(b.0) || (Confidence(a.0) == Confidence(b.0) && (
        a.0.updatedAt < b.0.updatedAt || (a.0.updatedAt == b.0.updatedAt && (
          a.1.bestScore < b.1.bestScore || (a.1.bestScore == b.1.bestScore &&
            a.1.evidence < b.1.evidence)))))))
  }

  predicate Ranked(xs: seq<Item>) {
    forall i, j :: 0 <= i < j < |xs| ==> !Lower(xs[i], xs[j])
  }

  predicate Distinct(xs: seq<Item>) {
    forall i, j :: 0 <= i < j < |xs| ==> xs[i].0.id != xs[j].0.id
  }

  /** Put `x` behind everything it does not outrank: a stable descending insertion. */
  function Insert(xs: seq<Item>, x: Item): seq<Item> {
    if xs == [] then [x]
    else
      var last := xs[|xs| - 1];
      if Lower(last, x) then Insert(xs[..|xs| - 1], x) + [last] else xs + [x]
  }

  lemma {:induction false} InsertContents(xs: seq<Item>, x: Item)
    ensures multiset(Insert(xs, x)) == multiset(xs) + multiset{x}
  {
    hide Lower;
    if xs != [] {
      InsertContents(xs[..|xs| - 1], x);
      assert xs == xs[..|xs| - 1] + [xs[|xs| - 1]];
    }
  }

  function Rank(xs: seq<Item>): (r: seq<Item>)
    ensures multiset(r) == multiset(xs)
  {
    if xs == [] then []
    else
      assert xs == xs[..|xs| - 1] + [xs[|xs| - 1]];
      InsertContents(Rank(xs[..|xs| - 1]), xs[|xs| - 1]);
      Insert(Rank(xs[..|xs| - 1]), xs[|xs| - 1])
  }

  lemma {:induction false} InsertRanked(xs: seq<Item>, x: Item)
    requires Ranked(xs)
    ensures Ranked(Insert(xs, x))
  {
    hide Weight, Confidence;
    if xs != [] {
      var n := |xs| - 1;
      if Lower(xs[n], x) {
        InsertRanked(xs[..n], x);
        var r := Insert(xs[..n], x);
        InsertContents(xs[..n], x);
        forall i | 0 <= i < |r|
          ensures !Lower(r[i], xs[n])
        {
          assert r[i] in multiset(r);
          assert r[i] == x || r[i] in xs[..n];
        }
      } else {
        forall i | 0 <= i < n
          ensures !Lower(xs[i], x)
        {
          assert !Lower(xs[i], xs[n]);
        }
      }
    }
  }

  /** Ranking is a permutation in descending order. */
  lemma {:induction false} RankRanks(xs: seq<Item>)
    ensures Ranked(Rank(xs)) && multiset(Rank(xs)) == multiset(xs)
  {
    if xs != [] {
      RankRanks(xs[..|xs| - 1]);
      InsertRanked(Rank(xs[..|xs| - 1]), xs[|xs| - 1]);
    }
  }

  /**
   What the ranking means for two items, the better first: a reinforced record comes before an
   active one and that before any other; within a class the more confident, then the more
   recently updated, then the better scored, then the one with more evidence.
   */
  lemma RankMeaning(xs: seq<Item>, i: nat, j: nat, a: Item, b: Item)
    requires i < j < |Rank(xs)| && a == Rank(xs)[i] && b == Rank(xs)[j]
    ensures b.0.status == Reinforced ==> a.0.status == Reinforced
    ensures b.0.status == Active ==> a.0.status == Active || a.0.status == Reinforced
    ensures var sameClass := a.0.status == b.0.status
                             || (a.0.status !in {Active, Reinforced} && b.0.status !in {Active, Reinforced});
            var x := if a.0.confidence.Some? then a.0.confidence.value else 0.0;
            var y := if b.0.confidence.Some? then b.0.confidence.value else 0.0;
            sameClass ==>
              && x >= y
              && (x == y ==> a.0.updatedAt >= b.0.updatedAt)
              && (x == y && a.0.updatedAt == b.0.updatedAt ==> a.1.bestScore >= b.1.bestScore)
              && (x == y && a.0.updatedAt == b.0.updatedAt && a.1.bestScore == b.1.bestScore ==>
                    a.1.evidence >= b.1.evidence)
  {
    RankRanks(xs);
    assert !Lower(Rank(xs)[i], Rank(xs)[j]);
  }

  /** Ranking is stable: an item stays before every later one that does not outrank it. */
  lemma {:induction false} RankStable(xs: seq<Item>, i: nat, j: nat) returns (p: nat, r: nat)
    requires i < j < |xs| && !Lower(xs[i], xs[j])
    ensures p < r < |Rank(xs)| && Rank(xs)[p] == xs[i] && Rank(xs)[r] == xs[j]
  {
    hide Lower, Insert;
    var n := |xs| - 1;
    var before := Rank(xs[..n]);
    var place := InsertPlace(before, xs[n]);
    assert Rank(xs) == before[..place] + [xs[n]] + before[place..];
    if j < n {
      var p', r' := RankStable(xs[..n], i, j);
      p := if p' < place then p' else p' + 1;
      r := if r' < place then r' else r' + 1;
    } else {
      p := PlaceInRank(xs[..n], i);
      r := place;
    }
  }

  lemma PlaceInRank(xs: seq<Item>, i: nat) returns (p: nat)
    requires i < |xs|
    ensures p < |Rank(xs)| && Rank(xs)[p] == xs[i]
  {
    assert xs[i] in multiset(Rank(xs));
    p :| 0 <= p < |Rank(xs)| && Rank(xs)[p] == xs[i];
  }

  /** Where an item is inserted: behind everything it does not outrank. */
  lemma {:induction false} InsertPlace(xs: seq<Item>, x: Item) returns (place: nat)
    ensures place <= |xs| && Insert(xs, x) == xs[..place] + [x] + xs[place..]
    ensures forall k :: place <= k < |xs| ==> Lower(xs[k], x)
  {
    hide Lower;
    if xs != [] && Lower(xs[|xs| - 1], x) {
      var n := |xs| - 1;
      place := InsertPlace(xs[..n], x);
      assert xs[place..] == xs[..n][place..] + [xs[n]];
    } else {
      place := |xs|;
    }
  }

  function Contents(xs: seq<Item>): seq<string> {
    seq(|xs|, i requires 0 <= i < |xs| => xs[i].0.content)
  }

  /** The ranked list, thinned by the diversity filter when asked for. */
  function Shortlist(xs: seq<Item>, q: Request): seq<Item> {
    var ranked := Rank(xs);
    if q.diversity then Pick(ranked, Kept(q.tok, Contents(ranked), q.threshold)) else ranked
  }

  // ---- routing ----

  predicate SupersededByActive(c: Canon, id: Id) {
    exists p :: p in SupersedersOf(c, id) && Current(c, p)
  }

  predicate ActivelyContradicted(c: Canon, id: Id) {
    exists p :: p in ContradictorsOf(c, id) && Current(c, p)
  }

  function CategoryFor(rec: Record): Category {
    if rec.subtype == Some("interaction_guidance") || (rec.tier == L3 && rec.subtype == Some("guidance")) then
      InteractionGuidance
    else if rec.tier in {L0, L2} || rec.recordType == Episode then RecentContext
    else CurrentBelief
  }

  /** The list a record goes to, if any. */
  function Route(c: Canon, rec: Record): Option<Category> {
    if rec.recordType == Reflection then Some(Hypothesis)
    else if rec.recordType == Guardrail || rec.tier == L4 then Some(PolicyFlag)
    else if !IsActive(rec.status) || SupersededByActive(c, rec.id) then None
    else if ActivelyContradicted(c, rec.id) then Some(OpenConflict)
    else Some(CategoryFor(rec))
  }

  /** The record is active and not deleted. */
  predicate InForce(c: Canon, id: Id) {
    id in c.records && id !in c.tombs && (c.records[id].status == Active || c.records[id].status == Reinforced)
  }

  /**
   Where a record is told, by its own fields and the edges at it: reflections are hypotheses,
   guardrails and L4 rules are policy, and of the rest only active records that nothing in force
   supersedes are told at all, as open conflicts if something in force contradicts them.
   */
  lemma RouteMeaning(c: Canon, rec: Record, superseded: bool, contradicted: bool)
    requires superseded <==> exists p :: InForce(c, p) && Edge(p, rec.id, Supersedes) in c.deps
    requires contradicted <==> exists p ::
               InForce(c, p) && (Edge(p, rec.id, Contradicts) in c.deps || Edge(rec.id, p, Contradicts) in c.deps)
    ensures Route(c, rec) == Some(Hypothesis) <==> rec.recordType == Reflection
    ensures Route(c, rec) == Some(PolicyFlag) <==>
              rec.recordType == Guardrail || (rec.tier == L4 && rec.recordType != Reflection)
    ensures var plain := rec.recordType != Reflection && rec.recordType != Guardrail && rec.tier != L4;
            var told := plain && (rec.status == Active || rec.status == Reinforced) && !superseded;
            var guidance := rec.subtype == Some("interaction_guidance")
                            || (rec.tier == L3 && rec.subtype == Some("guidance"));
            var recent := rec.tier == L0 || rec.tier == L2 || rec.recordType == Episode;
            && (Route(c, rec) == None <==> plain && !told)
            && (Route(c, rec) == Some(OpenConflict) <==> told && contradicted)
            && (Route(c, rec) == Some(InteractionGuidance) <==> told && !contradicted && guidance)
            && (Route(c, rec) == Some(RecentContext) <==> told && !contradicted && !guidance && recent)
            && (Route(c, rec) == Some(CurrentBelief) <==> told && !contradicted && !guidance && !recent)
  {
    assert superseded <==> SupersededByActive(c, rec.id) by {
      SupersededMeans(c, rec.id);
    }
    assert contradicted <==> ActivelyContradicted(c, rec.id) by {
      ContradictedMeans(c, rec.id);
    }
    hide SupersededByActive, ActivelyContradicted;
  }

  lemma SupersededMeans(c: Canon, id: Id)
    ensures SupersededByActive(c, id) <==> exists p :: InForce(c, p) && Edge(p, id, Supersedes) in c.deps
  {
    if SupersededByActive(c, id) {
      var p :| p in SupersedersOf(c, id) && Current(c, p);
      assert InForce(c, p) && Edge(p, id, Supersedes) in c.deps;
    }
    if p :| InForce(c, p) && Edge(p, id, Supersedes) in c.deps {
      assert p in SupersedersOf(c, id) && Current(c, p);
    }
  }

  lemma ContradictedMeans(c: Canon, id: Id)
    ensures ActivelyContradicted(c, id) <==> exists p ::
              InForce(c, p) && (Edge(p, id, Contradicts) in c.deps || Edge(id, p, Contradicts) in c.deps)
  {
    if ActivelyContradicted(c, id) {
      var p :| p in ContradictorsOf(c, id) && Current(c, p);
      assert InForce(c, p) && (Edge(p, id, Contradicts) in c.deps || Edge(id, p, Contradicts) in c.deps);
    }
    if p :| InForce(c, p) && (Edge(p, id, Contradicts) in c.deps || Edge(id, p, Contradicts) in c.deps) {
      assert p in ContradictorsOf(c, id) && Current(c, p);
    }
  }

  // ---- entries ----

  /** Repeated evidence or high salience lifts the confidence label by one. */
  predicate Lifted(x: Item) {
    x.1.evidence >= 2 || (x.0.salience.Some? && x.0.salience.value >= 0.8)
  }

  function ConfidenceLabel(x: Item): Label {
    var base := if x.0.confidence.None? then 1
                else if x.0.confidence.value < 0.4 then 0
                else if x.0.confidence.value >= 0.75 then 2
                else 1;
    var level := if Lifted(x) then base + 1 else base;
    if level == 0 then Low else if level == 1 then Medium else High
  }

  function StandingFor(rec: Record, cat: Category): Standing {
    match cat
    case OpenConflict => InConflict
    case Hypothesis => Hypothetical
    case PolicyFlag => PolicyOnly
    case _ => AsRecorded(rec.status)
  }

  function EntryOf(x: Item, cat: Category): Entry {
    Entry(x.0.id, cat, x.0.content, ConfidenceLabel(x), StandingFor(x.0, cat),
          x.0.validFrom, x.0.validUntil, cat == Hypothesis || cat == OpenConflict)
  }

  /** The entries of one category, in rank order, before trimming. */
  function Listed(c: Canon, xs: seq<Item>, cat: Category): seq<Entry> {
    if xs == [] then []
    else
      var x := xs[|xs| - 1];
      Listed(c, xs[..|xs| - 1], cat) + if Route(c, x.0) == Some(cat) then [EntryOf(x, cat)] else []
  }

  function Trimmed(es: seq<Entry>, budgets: map<Category, nat>, cat: Category): (r: seq<Entry>)
    ensures r <= es
    ensures cat in budgets ==> |r| <= budgets[cat]
    ensures |r| < |es| ==> cat in budgets && |r| == budgets[cat]
  {
    if cat in budgets && |es| > budgets[cat] then es[..budgets[cat]] else es
  }

  function ListedBundle(c: Canon, xs: seq<Item>): Bundle {
    Bundle(Listed(c, xs, CurrentBelief), Listed(c, xs, RecentContext), Listed(c, xs, InteractionGuidance),
           Listed(c, xs, OpenConflict), Listed(c, xs, Hypothesis), Listed(c, xs, PolicyFlag))
  }

  function TrimmedBundle(b: Bundle, budgets: map<Category, nat>): Bundle {
    Bundle(Trimmed(b.currentBeliefs, budgets, CurrentBelief), Trimmed(b.recentContext, budgets, RecentContext),
           Trimmed(b.interactionGuidance, budgets, InteractionGuidance),
           Trimmed(b.openConflicts, budgets, OpenConflict), Trimmed(b.hypotheses, budgets, Hypothesis),
           Trimmed(b.policyFlags, budgets, PolicyFlag))
  }

  function ShortlistFor(c: Canon, cs: seq<Candidate>, q: Request): seq<Item> {
    Shortlist(Survivors(c, MergedAll(cs), q), q)
  }

  function Resolved(c: Canon, cs: seq<Candidate>, q: Request): Bundle {
    TrimmedBundle(ListedBundle(c, ShortlistFor(c, cs, q)), q.budgets)
  }

  // ---- what the pipeline keeps ----

  ghost predicate Backed(c: Canon, cs: seq<Candidate>, q: Request, x: Item) {
    && Survives(c, x.1, q)
    && x.0 == c.records[x.1.id]
    && Summarises(cs, x.1)
  }

  /** Every key of the records table is the id of its row. */
  predicate Keyed(c: Canon) {
    forall i :: i in c.records ==> c.records[i].id == i
  }

  lemma {:induction false} SurvivorsBacked(c: Canon, cs: seq<Candidate>, ms: seq<Merged>, q: Request)
    requires DistinctIds(ms) && Keyed(c)
    requires forall k :: 0 <= k < |ms| ==> Summarises(cs, ms[k])
    ensures Distinct(Survivors(c, ms, q))
    ensures forall x :: x in Survivors(c, ms, q) ==> Backed(c, cs, q, x) && x.1 in ms
  {
    if ms != [] {
      var n := |ms| - 1;
      SurvivorsBacked(c, cs, ms[..n], q);
      forall i | 0 <= i < |Survivors(c, ms[..n], q)|
        ensures Survivors(c, ms[..n], q)[i].1.id != ms[n].id
      {
        assert Survivors(c, ms[..n], q)[i].1 in ms[..n];
      }
    }
  }

  lemma {:induction false} InsertDistinct(xs: seq<Item>, x: Item)
    requires Distinct(xs) && forall y :: y in xs ==> y.0.id != x.0.id
    ensures Distinct(Insert(xs, x))
  {
    hide Lower;
    if xs != [] && Lower(xs[|xs| - 1], x) {
      var n := |xs| - 1;
      InsertDistinct(xs[..n], x);
      var r := Insert(xs[..n], x);
      InsertContents(xs[..n], x);
      forall i | 0 <= i < |r|
        ensures r[i].0.id != xs[n].0.id
      {
        assert r[i] in multiset(r);
        assert r[i] == x || r[i] in xs[..n];
      }
    }
  }

  lemma {:induction false} RankDistinct(xs: seq<Item>)
    requires Distinct(xs)
    ensures Distinct(Rank(xs))
    ensures forall x :: x in Rank(xs) <==> x in xs
  {
    if xs != [] {
      var n := |xs| - 1;
      RankDistinct(xs[..n]);
      InsertDistinct(Rank(xs[..n]), xs[n]);
    }
    assert forall x :: x in Rank(xs) <==> x in multiset(Rank(xs));
  }

  lemma ShortlistBacked(c: Canon, cs: seq<Candidate>, q: Request)
    requires Keyed(c)
    ensures var xs := ShortlistFor(c, cs, q);
            && Distinct(xs)
            && Ranked(xs)
            && forall k :: 0 <= k < |xs| ==> Backed(c, cs, q, xs[k])
  {
    hide Summarises, MergedAll, Survives;
    MergeMeaning(cs);
    var survivors := Survivors(c, MergedAll(cs), q);
    SurvivorsBacked(c, cs, MergedAll(cs), q);
    RankDistinct(survivors);
    RankRanks(survivors);
    assert forall k :: 0 <= k < |Rank(survivors)| ==> Rank(survivors)[k] in Rank(survivors);
  }

  /** An entry of a category list comes from a shortlisted item routed there. */
  lemma {:induction false} ListedFrom(c: Canon, xs: seq<Item>, cat: Category, k: nat) returns (i: nat)
    requires k < |Listed(c, xs, cat)|
    ensures i < |xs| && Route(c, xs[i].0) == Some(cat)
    ensures Listed(c, xs, cat)[k] == EntryOf(xs[i], cat)
  {
    var n := |xs| - 1;
    if k < |Listed(c, xs[..n], cat)| {
      i := ListedFrom(c, xs[..n], cat, k);
    } else {
      i := n;
    }
  }

  lemma {:induction false} ListedDistinct(c: Canon, xs: seq<Item>, cat: Category, j: nat, k: nat)
    requires Distinct(xs) && j < k < |Listed(c, xs, cat)|
    ensures Listed(c, xs, cat)[j].id != Listed(c, xs, cat)[k].id
  {
    var n := |xs| - 1;
    if k < |Listed(c, xs[..n], cat)| {
      ListedDistinct(c, xs[..n], cat, j, k);
    } else {
      var i := ListedFrom(c, xs[..n], cat, j);
      assert xs[..n][i] == xs[i];
    }
  }

  // ---- theorems about every bundle ----

  /**
   Whatever the candidates, an entry repeats an untombstoned, valid, permitted row; and if any
   candidate for it reports a hash, some candidate reports the row's own.
   */
  lemma EntryIsCanonical(c: Canon, cs: seq<Candidate>, q: Request, cat: Category, k: nat)
    requires Keyed(c) && k < |Field(Resolved(c, cs, q), cat)|
    ensures var e := Field(Resolved(c, cs, q), cat)[k];
            && e.category == cat
            && e.id in c.records && e.id !in c.tombs
            && e.claim == c.records[e.id].content
            && e.standing == (if cat == OpenConflict then InConflict
                              else if cat == Hypothesis then Hypothetical
                              else if cat == PolicyFlag then PolicyOnly
                              else AsRecorded(c.records[e.id].status))
            && e.validFrom == c.records[e.id].validFrom && e.validUntil == c.records[e.id].validUntil
            && (e.cautiously <==> cat == Hypothesis || cat == OpenConflict)
            && (c.records[e.id].validFrom.Some? ==> c.records[e.id].validFrom.value <= q.now)
            && (c.records[e.id].validUntil.Some? ==> q.now < c.records[e.id].validUntil.value)
            && q.permit(c.records[e.id])
            && Route(c, c.records[e.id]) == Some(cat)
            && (exists d :: d in cs && d.id == e.id)
            && ((exists d :: d in cs && d.id == e.id && d.contentHash.Some? && d.contentHash.value != "")
                ==> exists d :: d in cs && d.id == e.id && d.contentHash == Some(c.records[e.id].contentHash))
  {
    var xs := ShortlistFor(c, cs, q);
    ShortlistBacked(c, cs, q);
    var i := ListedFrom(c, xs, cat, k);
    var m := xs[i].1;
    assert Backed(c, cs, q, xs[i]);
    HashIsReported(c, cs, q, m);
    hide Summarises, Reported, Listed, Shortlist;
  }

  /** A survivor whose id some candidate reports a hash for has its own hash reported. */
  lemma HashIsReported(c: Canon, cs: seq<Candidate>, q: Request, m: Merged)
    requires Survives(c, m, q) && Summarises(cs, m)
    ensures exists d :: d in cs && d.id == m.id
    ensures (exists d :: d in cs && d.id == m.id && d.contentHash.Some? && d.contentHash.value != "")
            ==> exists d :: d in cs && d.id == m.id && d.contentHash == Some(c.records[m.id].contentHash)
  {
    if d :| d in cs && d.id == m.id && d.contentHash.Some? && d.contentHash.value != "" {
      assert d.contentHash.value in Reported(d) && d.contentHash.value in m.hashes;
      var own :| own in cs && own.id == m.id && c.records[m.id].contentHash in Reported(own);
      assert own.contentHash == Some(c.records[m.id].contentHash);
    }
  }

  /**
   Hydration keeps an id exactly when some candidate names it, its row is there, untombstoned,
   valid now and permitted, and either no candidate for it reports a hash or one reports the
   row's own. An empty hash is none.
   */
  lemma SurvivesIff(c: Canon, cs: seq<Candidate>, q: Request, id: Id)
    requires Keyed(c)
    ensures (exists x :: x in Survivors(c, MergedAll(cs), q) && x.0.id == id) <==>
              && (exists d :: d in cs && d.id == id)
              && id in c.records && id !in c.tombs
              && (c.records[id].validFrom.Some? ==> c.records[id].validFrom.value <= q.now)
              && (c.records[id].validUntil.Some? ==> q.now < c.records[id].validUntil.value)
              && q.permit(c.records[id])
              && (HashReported(cs, id) ==> ReportsHash(cs, id, c.records[id].contentHash))
  {
    MergeMeaning(cs);
    var ms := MergedAll(cs);
    SurvivorsBacked(c, cs, ms, q);
    var p := Find(ms, id);
    if p < |ms| {
      assert Summarises(cs, ms[p]);
      HashesOf(cs, ms[p]);
      if id in c.records && Survives(c, ms[p], q) {
        SurvivorListed(c, ms, q, p);
      }
    }
    forall x | x in Survivors(c, ms, q) && x.0.id == id
      ensures p < |ms| && x.1 == ms[p]
    {
    }
  }

  lemma {:induction false} SurvivorsInOrder(c: Canon, ms: seq<Merged>, q: Request, i: nat, j: nat)
    returns (a: nat, b: nat)
    requires i < j < |Survivors(c, ms, q)|
    ensures a < b < |ms| && Survivors(c, ms, q)[i].1 == ms[a] && Survivors(c, ms, q)[j].1 == ms[b]
  {
    hide Survives;
    var n := |ms| - 1;
    var before := Survivors(c, ms[..n], q);
    if j < |before| {
      a, b := SurvivorsInOrder(c, ms[..n], q, i, j);
    } else {
      a := SurvivorOf(c, ms[..n], q, i);
      b := n;
    }
  }

  lemma {:induction false} SurvivorOf(c: Canon, ms: seq<Merged>, q: Request, i: nat) returns (a: nat)
    requires i < |Survivors(c, ms, q)|
    ensures a < |ms| && Survivors(c, ms, q)[i].1 == ms[a]
  {
    hide Survives;
    var n := |ms| - 1;
    if i < |Survivors(c, ms[..n], q)| {
      a := SurvivorOf(c, ms[..n], q, i);
    } else {
      a := n;
    }
  }

  /** What survives stands in the order in which the ids first occur among the candidates. */
  lemma CandidatesInOrder(c: Canon, cs: seq<Candidate>, q: Request, xs: seq<Item>, i: nat, j: nat) returns (a: nat)
    requires Keyed(c) && xs == Survivors(c, MergedAll(cs), q) && i < j < |xs|
    ensures a < |cs| && cs[a].id == xs[i].0.id && forall b :: 0 <= b <= a ==> cs[b].id != xs[j].0.id
  {
    MergeMeaning(cs);
    SurvivorsBacked(c, cs, MergedAll(cs), q);
    var m, n := SurvivorsInOrder(c, MergedAll(cs), q, i, j);
    a := MergedInOrder(cs, m, n);
    assert xs[i] in xs && xs[j] in xs;
  }

  /** Some candidate for the id reports a hash that is not empty. */
  predicate HashReported(cs: seq<Candidate>, id: Id) {
    exists d :: d in cs && d.id == id && d.contentHash.Some? && d.contentHash.value != ""
  }

  predicate ReportsHash(cs: seq<Candidate>, id: Id, hash: string) {
    hash != "" && exists d :: d in cs && d.id == id && d.contentHash == Some(hash)
  }

  lemma HashesOf(cs: seq<Candidate>, m: Merged)
    requires Summarises(cs, m)
    ensures m.hashes != {} <==> HashReported(cs, m.id)
    ensures forall h :: h in m.hashes <==> ReportsHash(cs, m.id, h)
  {
    if h :| h in m.hashes {
      var d :| d in cs && d.id == m.id && h in Reported(d);
      assert d.contentHash == Some(h) && h != "";
    }
    forall h
      ensures h in m.hashes <==> ReportsHash(cs, m.id, h)
    {
      if h in m.hashes {
        var d :| d in cs && d.id == m.id && h in Reported(d);
        assert d.contentHash == Some(h) && h != "";
      }
      if ReportsHash(cs, m.id, h) {
        var d :| d in cs && d.id == m.id && d.contentHash == Some(h);
        assert h in Reported(d);
      }
    }
    if d :| d in cs && d.id == m.id && d.contentHash.Some? && d.contentHash.value != "" {
      assert d.contentHash.value in Reported(d) && d.contentHash.value in m.hashes;
    }
  }

  lemma {:induction false} SurvivorListed(c: Canon, ms: seq<Merged>, q: Request, p: nat)
    requires p < |ms| && Survives(c, ms[p], q)
    ensures (c.records[ms[p].id], ms[p]) in Survivors(c, ms, q)
  {
    if p < |ms| - 1 {
      SurvivorListed(c, ms[..|ms| - 1], q, p);
    }
  }

  /**
   What the confidence label means, in terms of the row and of how often the id is a candidate:
   low only for weak records nothing speaks for, high only for strong ones or with support.
   */
  lemma LabelMeaning(c: Canon, cs: seq<Candidate>, q: Request, cat: Category, k: nat, e: Entry, rec: Record)
    requires Keyed(c) && k < |Field(Resolved(c, cs, q), cat)| && e == Field(Resolved(c, cs, q), cat)[k]
    requires e.id in c.records && rec == c.records[e.id]
    ensures var weak := rec.confidence.Some? && rec.confidence.value < 0.4;
            var strong := rec.confidence.Some? && rec.confidence.value >= 0.75;
            var repeated := exists i, j :: 0 <= i < j < |cs| && cs[i].id == e.id && cs[j].id == e.id;
            var supported := repeated || (rec.salience.Some? && rec.salience.value >= 0.8);
            && (e.confidence == High <==> strong || (supported && !weak))
            && (e.confidence == Low <==> weak && !supported)
  {
    hide Listed, Shortlist;
    var xs := ShortlistFor(c, cs, q);
    ShortlistBacked(c, cs, q);
    var i := ListedFrom(c, xs, cat, k);
    assert Backed(c, cs, q, xs[i]);
    EvidenceMeaning(cs, e.id);
  }

  /** Each id occurs at most once over all six lists. */
  lemma IdsOccurOnce(c: Canon, cs: seq<Candidate>, q: Request, b: Bundle, cat: Category, cat': Category, j: nat, k: nat)
    requires Keyed(c) && b == Resolved(c, cs, q)
    requires j < |Field(b, cat)| && k < |Field(b, cat')| && Field(b, cat)[j].id == Field(b, cat')[k].id
    ensures cat == cat' && j == k
  {
    var xs := ShortlistFor(c, cs, q);
    ShortlistBacked(c, cs, q);
    EntryIsCanonical(c, cs, q, cat, j);
    EntryIsCanonical(c, cs, q, cat', k);
    if j < k {
      ListedDistinct(c, xs, cat, j, k);
    } else if k < j {
      ListedDistinct(c, xs, cat, k, j);
    }
  }

  /** The bundle for these candidates tells `id` under this category. */
  ghost predicate Told(c: Canon, cs: seq<Candidate>, q: Request, cat: Category, id: Id) {
    Shows(Field(Resolved(c, cs, q), cat), id)
  }

  predicate Shows(es: seq<Entry>, id: Id) {
    exists k :: 0 <= k < |es| && es[k].id == id
  }

  predicate Truth(cat: Category) {
    cat in {CurrentBelief, RecentContext, InteractionGuidance}
  }

  /** Whatever the candidates, only undeleted records are told, under the category of their route. */
  lemma ToldIsRouted(c: Canon, cs: seq<Candidate>, q: Request, cat: Category, id: Id)
    requires Keyed(c) && Told(c, cs, q, cat, id)
    ensures id in c.records && id !in c.tombs && Route(c, c.records[id]) == Some(cat)
  {
    var es := Field(Resolved(c, cs, q), cat);
    var k :| 0 <= k < |es| && es[k].id == id;
    EntryIsCanonical(c, cs, q, cat, k);
  }

  /** Only current records that no current record supersedes or contradicts are told as truth. */
  lemma TruthIsCurrent(c: Canon, cs: seq<Candidate>, q: Request, cat: Category, id: Id)
    requires Keyed(c) && Truth(cat) && Told(c, cs, q, cat, id)
    ensures Current(c, id) && !SupersededByActive(c, id) && !ActivelyContradicted(c, id)
    ensures id in c.records && id !in c.tombs
    ensures c.records[id].status == Active || c.records[id].status == Reinforced
    ensures forall p :: InForce(c, p) ==>
              && Edge(p, id, Supersedes) !in c.deps
              && Edge(p, id, Contradicts) !in c.deps && Edge(id, p, Contradicts) !in c.deps
  {
    ToldIsRouted(c, cs, q, cat, id);
    SupersededMeans(c, id);
    ContradictedMeans(c, id);
  }

  /** No two records told as truth contradict or supersede each other. */
  lemma BundleCoherent(c: Canon, cs: seq<Candidate>, q: Request, cat: Category, cat': Category, a: Id, b: Id)
    requires Keyed(c) && Truth(cat) && Truth(cat')
    requires Told(c, cs, q, cat, a) && Told(c, cs, q, cat', b)
    ensures Edge(a, b, Contradicts) !in c.deps && Edge(b, a, Contradicts) !in c.deps
    ensures Edge(a, b, Supersedes) !in c.deps && Edge(b, a, Supersedes) !in c.deps
  {
    TruthIsCurrent(c, cs, q, cat, a);
    TruthIsCurrent(c, cs, q, cat', b);
    assert Edge(a, b, Contradicts) in c.deps ==> b in ContradictorsOf(c, a);
    assert Edge(b, a, Contradicts) in c.deps ==> b in ContradictorsOf(c, a);
    assert Edge(a, b, Supersedes) in c.deps ==> a in SupersedersOf(c, b);
    assert Edge(b, a, Supersedes) in c.deps ==> b in SupersedersOf(c, a);
  }

  /**
   A shortlisted record missing from the list it was routed to was crowded out: that list is
   full, and full of records that do not rank below it.
   */
  lemma OnlyRankCrowdsOut(c: Canon, cs: seq<Candidate>, q: Request, cat: Category, i: nat)
    requires Keyed(c) && i < |ShortlistFor(c, cs, q)|
    requires Route(c, ShortlistFor(c, cs, q)[i].0) == Some(cat)
    requires forall k :: 0 <= k < |Field(Resolved(c, cs, q), cat)| ==>
               Field(Resolved(c, cs, q), cat)[k].id != ShortlistFor(c, cs, q)[i].0.id
    ensures var xs := ShortlistFor(c, cs, q);
            var es := Field(Resolved(c, cs, q), cat);
            && cat in q.budgets && |es| == q.budgets[cat]
            && forall k :: 0 <= k < |es| ==>
                 exists j :: 0 <= j < i && xs[j].0.id == es[k].id && !Lower(xs[j], xs[i])
  {
    var xs := ShortlistFor(c, cs, q);
    var es := Field(Resolved(c, cs, q), cat);
    ShortlistBacked(c, cs, q);
    var at := PositionOf(c, xs, cat, i);
    forall k | 0 <= k < |es|
      ensures es[k] != Listed(c, xs, cat)[at]
    {
    }
    forall k | 0 <= k < |es|
      ensures exists j :: 0 <= j < i && xs[j].0.id == es[k].id && !Lower(xs[j], xs[i])
    {
      var j := EarlierListed(c, xs, cat, i, at, k);
      assert xs[j].0.id == es[k].id;
    }
  }

  /** Where a routed item stands in its category list. */
  lemma {:induction false} PositionOf(c: Canon, xs: seq<Item>, cat: Category, i: nat) returns (at: nat)
    requires i < |xs| && Route(c, xs[i].0) == Some(cat)
    ensures at == |Listed(c, xs[..i], cat)| && at < |Listed(c, xs, cat)|
    ensures Listed(c, xs, cat)[at] == EntryOf(xs[i], cat)
    ensures Listed(c, xs, cat)[..at] == Listed(c, xs[..i], cat)
  {
    var n := |xs| - 1;
    if i == n {
      at := |Listed(c, xs[..n], cat)|;
    } else {
      at := PositionOf(c, xs[..n], cat, i);
      assert xs[..n][..i] == xs[..i];
      assert Listed(c, xs, cat)[..at] == Listed(c, xs[..n], cat)[..at];
    }
  }

  lemma EarlierListed(c: Canon, xs: seq<Item>, cat: Category, i: nat, at: nat, k: nat) returns (j: nat)
    requires i < |xs| && at == |Listed(c, xs[..i], cat)| && at <= |Listed(c, xs, cat)|
    requires Listed(c, xs, cat)[..at] == Listed(c, xs[..i], cat) && k < at
    ensures j < i && xs[j].0.id == Listed(c, xs, cat)[k].id
  {
    assert Listed(c, xs, cat)[k] == Listed(c, xs, cat)[..at][k];
    j := ListedFrom(c, xs[..i], cat, k);
  }

  /** Diversity drops an item only in favour of a similar item that does not rank below it. */
  lemma DiversityDropsForBetter(xs: seq<Item>, q: Request, i: nat) returns (j: nat)
    requires q.diversity && i < |Rank(xs)| && Rank(xs)[i] !in Shortlist(xs, q)
    ensures j < i && Rank(xs)[j] in Shortlist(xs, q) && !Lower(Rank(xs)[j], Rank(xs)[i])
    ensures Similarity(q.tok, Rank(xs)[i].0.content, Rank(xs)[j].0.content) >= q.threshold
  {
    RankRanks(xs);
    var ranked := Rank(xs);
    var kept := Kept(q.tok, Contents(ranked), q.threshold);
    forall p | 0 <= p < |kept|
      ensures kept[p] != i
    {
      assert Shortlist(xs, q)[p] == ranked[kept[p]];
    }
    var k := DroppedIsCovered(q.tok, Contents(ranked), q.threshold, i);
    j := kept[k];
    assert Shortlist(xs, q)[k] == ranked[j];
  }

  /** Where diversity is asked for, shortlisted texts are pairwise below the threshold. */
  lemma ShortlistIsDiverse(xs: seq<Item>, q: Request, j: nat, k: nat)
    requires q.diversity && j < k < |Shortlist(xs, q)|
    ensures Similarity(q.tok, Shortlist(xs, q)[k].0.content, Shortlist(xs, q)[j].0.content) < q.threshold
  {
    var texts := Contents(Rank(xs));
    KeptAreApart(q.tok, texts, q.threshold);
    var kept := Pick(texts, Kept(q.tok, texts, q.threshold));
    assert Similarity(q.tok, kept[k], kept[j]) < q.threshold;
  }

  /** So no two entries of a bundle, of one list or of two, tell similar texts. */
  lemma BundleIsDiverse(
    c: Canon, cs: seq<Candidate>, q: Request, b: Bundle, cat: Category, cat': Category, j: nat, k: nat)
    requires Keyed(c) && q.diversity && b == Resolved(c, cs, q)
    requires j < |Field(b, cat)| && k < |Field(b, cat')| && (cat != cat' || j != k)
    ensures Similarity(q.tok, Field(b, cat)[j].claim, Field(b, cat')[k].claim) < q.threshold
  {
    hide Listed, Shortlist, Similarity;
    var xs := ShortlistFor(c, cs, q);
    var m := ListedFrom(c, xs, cat, j);
    var n := ListedFrom(c, xs, cat', k);
    if m == n {
      IdsOccurOnce(c, cs, q, b, cat, cat', j, k);
    }
    SimilarityMeaning(q.tok, xs[m].0.content, xs[n].0.content);
    ShortlistIsDiverse(Survivors(c, MergedAll(cs), q), q, if m < n then m else n, if m < n then n else m);
  }

  // ---- the resolver object ----

  /** `r` is `b` with the item appended to the list it is routed to. */
  ghost predicate Extends(c: Canon, b: Bundle, x: Item, r: Bundle) {
    forall cat :: Field(r, cat) == Field(b, cat) + if Route(c, x.0) == Some(cat) then [EntryOf(x, cat)] else []
  }

  lemma ListedGrows(c: Canon, xs: seq<Item>, i: nat, b: Bundle, r: Bundle)
    requires i < |xs| && b == ListedBundle(c, xs[..i]) && Extends(c, b, xs[i], r)
    ensures r == ListedBundle(c, xs[..i + 1])
  {
    assert xs[..i + 1][..i] == xs[..i];
    forall cat
      ensures Field(r, cat) == Listed(c, xs[..i + 1], cat)
    {
      assert Field(b, cat) == Listed(c, xs[..i], cat);
    }
    assert Field(r, CurrentBelief) == r.currentBeliefs && Field(r, RecentContext) == r.recentContext;
    assert Field(r, InteractionGuidance) == r.interactionGuidance && Field(r, OpenConflict) == r.openConflicts;
    assert Field(r, Hypothesis) == r.hypotheses && Field(r, PolicyFlag) == r.policyFlags;
  }

  class BeliefResolver {
    const store: CanonicalStore

    constructor (store: CanonicalStore)
      ensures this.store == store
    {
      this.store := store;
    }

    method Merge(cs: seq<Candidate>) returns (ms: seq<Merged>)
      ensures ms == MergedAll(cs)
    {
      ms := [];
      for i := 0 to |cs|
        invariant ms == MergedAll(cs[..i])
      {
        assert cs[..i + 1][..i] == cs[..i];
        var c := cs[i];
        var p := Find(ms, c.id);
        if p == |ms| {
          ms := ms + [Merged(c.id, c.score, Reported(c), 1)];
        } else {
          var best := if c.score > ms[p].bestScore then c.score else ms[p].bestScore;
          ms := ms[p := Merged(c.id, best, ms[p].hashes + Reported(c), ms[p].evidence + 1)];
        }
      }
      assert cs[..|cs|] == cs;
    }

    method HydrateAndFilter(ms: seq<Merged>, q: Request) returns (xs: seq<Item>)
      ensures xs == Survivors(store.Model(), ms, q)
    {
      xs := [];
      for i := 0 to |ms|
        invariant xs == Survivors(store.Model(), ms[..i], q)
      {
        assert ms[..i + 1][..i] == ms[..i];
        var m := ms[i];
        if m.id !in store.records || m.id in store.tombs {
          continue;
        }
        var rec := store.records[m.id];
        if m.hashes != {} && rec.contentHash !in m.hashes {
          continue;
        }
        if !TimeValid(rec, q.now) || !q.permit(rec) {
          continue;
        }
        xs := xs + [(rec, m)];
      }
      assert ms[..|ms|] == ms;
    }

    /** One pass over the ranked survivors, appending each to the list it is routed to. */
    method BuildBundle(xs: seq<Item>, q: Request) returns (b: Bundle)
      ensures b == TrimmedBundle(ListedBundle(store.Model(), Shortlist(xs, q)), q.budgets)
    {
      var ranked := Rank(xs);
      if q.diversity {
        var kept := Diversify(q.tok, Contents(ranked), q.threshold);
        ranked := Pick(ranked, kept);
      }
      b := Bundle([], [], [], [], [], []);
      for i := 0 to |ranked|
        invariant b == ListedBundle(store.Model(), ranked[..i])
      {
        ghost var before := b;
        b := Place(b, ranked[i]);
        ListedGrows(store.Model(), ranked, i, before, b);
      }
      assert ranked[..|ranked|] == ranked;
      b := TrimmedBundle(b, q.budgets);
    }

    /** The body of the routing loop: append the record to the one list it belongs to, if any. */
    method Place(b: Bundle, x: Item) returns (r: Bundle)
      ensures Extends(store.Model(), b, x, r)
    {
      hide ConfidenceLabel, StandingFor;
      var rec := x.0;
      if rec.recordType == Reflection {
        return b.(hypotheses := b.hypotheses + [EntryOf(x, Hypothesis)]);
      }
      if rec.recordType == Guardrail || rec.tier == L4 {
        return b.(policyFlags := b.policyFlags + [EntryOf(x, PolicyFlag)]);
      }
      if !IsActive(rec.status) {
        return b;
      }
      var superseded := AnyCurrent(SupersedersOf(store.Model(), rec.id));
      if superseded {
        return b;
      }
      var contradicted := AnyCurrent(ContradictorsOf(store.Model(), rec.id));
      if contradicted {
        return b.(openConflicts := b.openConflicts + [EntryOf(x, OpenConflict)]);
      }
      match CategoryFor(rec) {
        case InteractionGuidance =>
          r := b.(interactionGuidance := b.interactionGuidance + [EntryOf(x, InteractionGuidance)]);
        case RecentContext =>
          r := b.(recentContext := b.recentContext + [EntryOf(x, RecentContext)]);
        case _ =>
          r := b.(currentBeliefs := b.currentBeliefs + [EntryOf(x, CurrentBelief)]);
      }
    }

    /** Whether one of the linked records is active and not deleted. */
    method AnyCurrent(linked: set<Id>) returns (r: bool)
      ensures r <==> exists p :: p in linked && Current(store.Model(), p)
    {
      var rest := linked;
      while rest != {}
        invariant rest <= linked
        invariant forall p :: p in linked - rest ==> !Current(store.Model(), p)
      {
        var p :| p in rest;
        if p in store.records && IsActive(store.records[p].status) && p !in store.tombs {
          return true;
        }
        rest := rest - {p};
      }
      return false;
    }

    method Resolve(cs: seq<Candidate>, q: Request) returns (b: Bundle)
      ensures b == Resolved(store.Model(), cs, q)
    {
      var ms := Merge(cs);
      var xs := HydrateAndFilter(ms, q);
      b := BuildBundle(xs, q);
    }
  }
}
