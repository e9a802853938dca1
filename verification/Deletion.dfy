/**
 The deletion flow (strata/deletion/flows.py and verify.py): tombstone the whole component
 first, then purge and verify every surface, with bounded retries and escalation.
 */
module Deletion {
  import opened Records
  import opened VectorStore
  import opened OpLog
  import opened Canonical
  import opened Lexical
  import opened Surfaces

  // ---- what the loops over ids do to the tables ----

  function AllTombstoned(c: Canon, ids: set<Id>, mode: Mode, jobId: nat, now: int): Canon {
    var records := map i | i in c.records ::
      if i in ids then c.records[i].(status := Deleted, updatedAt := now) else c.records[i];
    var tombs := map i | i in c.tombs.Keys + ids ::
      if i !in ids then c.tombs[i]
      else if i in c.tombs then c.tombs[i].(mode := mode, state := CanonicalTombstoned)
      else Tombstone(mode, CanonicalTombstoned, jobId, None);
    Canon(records, c.deps, tombs)
  }

  function AllInState(c: Canon, ids: set<Id>, state: DeletionState, verifiedAt: Option<int>): Canon {
    c.(tombs := map i | i in c.tombs ::
      if i !in ids then c.tombs[i]
      else if verifiedAt.Some? then c.tombs[i].(state := state, verifiedAt := verifiedAt)
      else c.tombs[i].(state := state))
  }

  function AllErased(c: Canon, ids: set<Id>): Canon {
    var kept := set e | e in c.deps && e.parent !in ids && e.child !in ids;
    Canon(c.records - ids, kept, c.tombs)
  }

  /** Hard mode: erase the rows, then rebuild the lexical shadow from what is left. */
  function HardErased(w: World, ids: set<Id>): World {
    var canon := AllErased(w.canon, ids);
    w.(canon := canon, fts := Rebuilt(canon))
  }

  /** `verify_not_retrievable`: gone from every surface, and canonically blocked or gone. */
  predicate NotRetrievable(s: Setup, w: World, ids: set<Id>, mode: Mode, present: set<Id>) {
    && SurfacesClear(s, w, ids, present)
    && forall i :: i in ids ==> i in w.canon.tombs && (mode == Hard ==> i !in w.canon.records)
  }

  function InState(w: World, ids: set<Id>, state: DeletionState, verifiedAt: Option<int>): World {
    w.(canon := AllInState(w.canon, ids, state, verifiedAt))
  }

  /** One attempt: purge, erase in hard mode, verify. The flag says the deletion is verified. */
  function Attempted(s: Setup, w: World, ids: set<Id>, mode: Mode, env: PurgeEnv): (World, bool) {
    var (purged, failed) := Purge(s, InState(w, ids, IndexDeleting, None), ids, env);
    if failed != {} then (purged, false)
    else
      var erased := if mode == Hard then HardErased(purged, ids) else purged;
      (erased, NotRetrievable(s, erased, ids, mode, env.present))
  }

  function PurgeAndVerify(
    s: Setup, w: World, ids: set<Id>, mode: Mode, env: nat -> PurgeEnv, attempt: nat, now: int): World
    decreases s.maxRetries - attempt
  {
    var (tried, verified) := Attempted(s, w, ids, mode, env(attempt));
    if verified then InState(tried, ids, Verified, Some(now))
    else if attempt < s.maxRetries then
      PurgeAndVerify(s, InState(tried, ids, PartiallyFailed, None), ids, mode, env, attempt + 1, now)
    else InState(tried, ids, ManualAttention, None)
  }

  /** The ids of one deletion: the record and, with dependents, its whole component. */
  ghost function DeletionIds(c: Canon, id: Id, dependents: bool): set<Id> {
    if dependents then {id} + Component(c.deps, id) else {id}
  }

  ghost function AfterDeletion(
    s: Setup, w: World, id: Id, mode: Mode, dependents: bool, jobId: nat, env: nat -> PurgeEnv, now: int): World
  {
    var ids := DeletionIds(w.canon, id, dependents);
    PurgeAndVerify(s, w.(canon := AllTombstoned(w.canon, ids, mode, jobId, now)), ids, mode, env, 0, now)
  }

  // ---- correction ----

  function StatusAfter(rel: Relation): Status {
    if rel == Supersedes then Superseded else Contradicted
  }

  /**
   A correction writes the new row and marks the old one before the edge is added; when the
   old id is no record the edge fails and the rest of the operation is skipped.
   */
  function Replaced(
    s: Setup, w: World, oldId: Id, rec: Record, rel: Relation, keepHistory: bool, now: int,
    env: PurgeEnv): (World, bool)
  {
    var marked := WithStatus(Written(w.canon, rec, now), oldId, StatusAfter(rel), now);
    if !CanLink(marked, rec.id, oldId) then (w.(canon := marked), false)
    else
      var linked := w.(canon := Linked(marked, Edge(rec.id, oldId, rel)), fts := w.fts[rec.id := rec.content]);
      (if keepHistory then linked else Purge(s, linked, {oldId}, env).0, true)
  }

  // ---- jobs ----

  function JobIds(c: Canon, jobId: nat): set<Id> {
    set i | i in c.tombs && c.tombs[i].jobId == jobId
  }

  /** Least complete state first. */
  const ROLL_UP := [ManualAttention, PartiallyFailed, IndexDeleting, CanonicalTombstoned, Requested, Verified]

  /** Every state has its place in that order. */
  function Rank(st: DeletionState): (r: nat)
    ensures r < |ROLL_UP| && ROLL_UP[r] == st
  {
    match st
    case ManualAttention => 0
    case PartiallyFailed => 1
    case IndexDeleting => 2
    case CanonicalTombstoned => 3
    case Requested => 4
    case Verified => 5
  }

  /** The first state of `order` that occurs. */
  function FirstIn(order: seq<DeletionState>, states: set<DeletionState>): Option<DeletionState> {
    if order == [] then None
    else if order[0] in states then Some(order[0])
    else FirstIn(order[1..], states)
  }

  /** A job's state is its least complete member's; None is the unknown-job error. */
  function JobState(c: Canon, jobId: nat): Option<DeletionState> {
    FirstIn(ROLL_UP, JobStates(c, jobId))
  }

  function JobStates(c: Canon, jobId: nat): set<DeletionState> {
    set i | i in JobIds(c, jobId) :: c.tombs[i].state
  }

  datatype JobStatus = JobStatus(ids: set<Id>, mode: Mode, state: DeletionState, verified: bool)

  lemma {:induction false} FirstInFinds(order: seq<DeletionState>, states: set<DeletionState>, st: DeletionState)
    requires st in order && states == {st}
    ensures FirstIn(order, states) == Some(st)
  {
    if order[0] != st {
      FirstInFinds(order[1..], states, st);
    }
  }

  lemma {:induction false} FirstInNone(order: seq<DeletionState>)
    ensures FirstIn(order, {}) == None
  {
    if order != [] {
      FirstInNone(order[1..]);
    }
  }

  // ---- outcome ----

  ghost predicate Holds(c: Canon, ids: set<Id>, state: DeletionState) {
    forall i :: i in ids ==> i in c.tombs && c.tombs[i].state == state
  }

  /** Everything outside `ids` is as it was in the canonical tables. */
  ghost predicate OthersUntouched(before: Canon, after: Canon, ids: set<Id>) {
    && after.tombs.Keys == before.tombs.Keys
    && (forall i :: i in before.tombs ==>
          after.tombs[i].jobId == before.tombs[i].jobId && after.tombs[i].mode == before.tombs[i].mode)
    && (forall i :: i in before.tombs && i !in ids ==> after.tombs[i] == before.tombs[i])
    && (forall i :: i !in ids ==> (i in after.records <==> i in before.records))
    && (forall i :: i in after.records ==> i in before.records && after.records[i] == before.records[i])
    && (forall e :: e in before.deps && e.parent !in ids && e.child !in ids ==> e in after.deps)
    && after.deps <= before.deps
    && EdgesKept(before, after)
  }

  /** An edge is lost only together with the row at one of its ends. */
  ghost predicate EdgesKept(before: Canon, after: Canon) {
    forall e :: e in before.deps ==> e in after.deps || e.parent !in after.records || e.child !in after.records
  }

  /** The state in which attempt `k` of a flow starts, when all before it failed. */
  function AtAttempt(
    s: Setup, w: World, ids: set<Id>, mode: Mode, env: nat -> PurgeEnv, attempt: nat, k: nat): World
    decreases k - attempt
  {
    if k <= attempt then w
    else
      AtAttempt(s, InState(Attempted(s, w, ids, mode, env(attempt)).0, ids, PartiallyFailed, None),
                ids, mode, env, attempt + 1, k)
  }

  predicate Succeeded(
    s: Setup, w: World, ids: set<Id>, mode: Mode, env: nat -> PurgeEnv, attempt: nat, k: nat)
  {
    Attempted(s, AtAttempt(s, w, ids, mode, env, attempt, k), ids, mode, env(k)).1
  }

  /** Attempt `k` is the first that verified, or else the last allowed; the flow ends with it. */
  ghost predicate EndsAt(
    s: Setup, w: World, ids: set<Id>, mode: Mode, env: nat -> PurgeEnv, attempt: nat, k: nat)
  {
    && attempt <= k <= s.maxRetries
    && (forall j :: attempt <= j < k ==> !Succeeded(s, w, ids, mode, env, attempt, j))
    && (Succeeded(s, w, ids, mode, env, attempt, k) || k == s.maxRetries)
  }

  /** VERIFIED is last in the order, so a job rolls up to it only when every row did. */
  lemma VerifiedIffAll(c: Canon, jobId: nat, n: nat)
    requires n < |ROLL_UP| && ROLL_UP[n] in JobStates(c, jobId)
    requires forall m :: 0 <= m < n ==> ROLL_UP[m] !in JobStates(c, jobId)
    ensures ROLL_UP[n] == Verified <==> Holds(c, JobIds(c, jobId), Verified)
  {
    var row :| row in JobIds(c, jobId) && c.tombs[row].state == ROLL_UP[n];
    forall i | i in JobIds(c, jobId)
      ensures ROLL_UP[n] == Verified ==> c.tombs[i].state == Verified
    {
      assert c.tombs[i].state in JobStates(c, jobId) && ROLL_UP[Rank(c.tombs[i].state)] in JobStates(c, jobId);
    }
  }

  /** A job stands where its least complete row stands. */
  lemma JobStateMeaning(c: Canon, jobId: nat, has: DeletionState -> bool)
    requires forall st :: has(st) <==> exists i :: i in c.tombs && c.tombs[i].jobId == jobId && c.tombs[i].state == st
    ensures JobState(c, jobId) ==
              if has(ManualAttention) then Some(ManualAttention)
              else if has(PartiallyFailed) then Some(PartiallyFailed)
              else if has(IndexDeleting) then Some(IndexDeleting)
              else if has(CanonicalTombstoned) then Some(CanonicalTombstoned)
              else if has(Requested) then Some(Requested)
              else if has(Verified) then Some(Verified)
              else None
  {
    var states := JobStates(c, jobId);
    forall st
      ensures st in states <==> has(st)
    {
      if has(st) {
        var i :| i in c.tombs && c.tombs[i].jobId == jobId && c.tombs[i].state == st;
        assert i in JobIds(c, jobId);
      }
    }
    FirstInSkips(ROLL_UP, states, 0);
  }

  /** The first state of the order that occurs, position by position. */
  lemma {:induction false} FirstInSkips(order: seq<DeletionState>, states: set<DeletionState>, n: nat)
    requires n <= |order| && |order| == 6
    ensures FirstIn(order[n..], states) ==
              if n <= 0 && order[0] in states then Some(order[0])
              else if n <= 1 && order[1] in states then Some(order[1])
              else if n <= 2 && order[2] in states then Some(order[2])
              else if n <= 3 && order[3] in states then Some(order[3])
              else if n <= 4 && order[4] in states then Some(order[4])
              else if n <= 5 && order[5] in states then Some(order[5])
              else None
    decreases |order| - n
  {
    if n < |order| {
      assert order[n..][1..] == order[n + 1..];
      FirstInSkips(order, states, n + 1);
    }
  }

  lemma UntouchedTransitive(a: Canon, b: Canon, c: Canon, ids: set<Id>)
    requires OthersUntouched(a, b, ids) && OthersUntouched(b, c, ids)
    ensures OthersUntouched(a, c, ids)
  {
  }

  lemma StateUntouched(c: Canon, ids: set<Id>, state: DeletionState, at: Option<int>)
    requires ids <= c.tombs.Keys
    ensures OthersUntouched(c, AllInState(c, ids, state, at), ids)
    ensures Holds(AllInState(c, ids, state, at), ids, state)
  {
  }

  lemma EraseUntouched(c: Canon, ids: set<Id>)
    ensures OthersUntouched(c, AllErased(c, ids), ids)
  {
  }

  /** Setting tombstone states does not bring anything back. */
  lemma StateKeepsCleared(
    s: Setup, w: World, ids: set<Id>, mode: Mode, present: set<Id>, state: DeletionState, at: Option<int>)
    requires NotRetrievable(s, w, ids, mode, present)
    ensures NotRetrievable(s, InState(w, ids, state, at), ids, mode, present)
  {
    forall i | i in ids
      ensures AbsentEverywhere(s, InState(w, ids, state, at), i, present)
    {
      assert AbsentEverywhere(s, w, i, present);
    }
  }

  lemma AttemptCanon(s: Setup, w: World, ids: set<Id>, mode: Mode, env: PurgeEnv)
    ensures var (tried, verified) := Attempted(s, w, ids, mode, env);
            var deleting := AllInState(w.canon, ids, IndexDeleting, None);
            && (tried.canon == deleting || (mode == Hard && tried.canon == AllErased(deleting, ids)))
            && tried.generation == w.generation
            && (verified ==> NotRetrievable(s, tried, ids, mode, env.present))
  {
    var (purged, failed) := Purge(s, InState(w, ids, IndexDeleting, None), ids, env);
    assert purged.canon == AllInState(w.canon, ids, IndexDeleting, None);
  }

  lemma CanonUntouched(c: Canon, tried: Canon, ids: set<Id>, state: DeletionState, at: Option<int>)
    requires ids <= c.tombs.Keys
    requires var deleting := AllInState(c, ids, IndexDeleting, None);
             tried == deleting || tried == AllErased(deleting, ids)
    ensures OthersUntouched(c, AllInState(tried, ids, state, at), ids)
  {
    var deleting := AllInState(c, ids, IndexDeleting, None);
    StateUntouched(c, ids, IndexDeleting, None);
    if tried != deleting {
      EraseUntouched(deleting, ids);
      UntouchedTransitive(c, deleting, tried, ids);
    }
    StateUntouched(tried, ids, state, at);
    UntouchedTransitive(c, tried, AllInState(tried, ids, state, at), ids);
  }

  lemma AttemptUntouched(
    s: Setup, w: World, ids: set<Id>, mode: Mode, env: PurgeEnv, state: DeletionState, at: Option<int>)
    requires ids <= w.canon.tombs.Keys
    ensures var (tried, verified) := Attempted(s, w, ids, mode, env);
            var r := InState(tried, ids, state, at);
            && OthersUntouched(w.canon, r.canon, ids)
            && Holds(r.canon, ids, state)
            && (mode == Logical ==> r.canon.records == w.canon.records && r.canon.deps == w.canon.deps)
            && r.generation == w.generation
            && (at.Some? ==> forall i :: i in ids ==> r.canon.tombs[i].verifiedAt == at)
            && (verified ==> NotRetrievable(s, r, ids, mode, env.present))
  {
    AttemptCanon(s, w, ids, mode, env);
    var (tried, verified) := Attempted(s, w, ids, mode, env);
    CanonUntouched(w.canon, tried.canon, ids, state, at);
    StateUntouched(tried.canon, ids, state, at);
    if verified {
      StateKeepsCleared(s, tried, ids, mode, env.present, state, at);
    }
  }

  /**
   For arbitrary surfaces the flow ends with all ids VERIFIED or all in MANUAL_ATTENTION. It is
   VERIFIED exactly when its last attempt `k` verified, and then the answers that cleared the
   ids were the answers of that very attempt.
   */
  lemma {:induction false} FlowOutcome(
    s: Setup, w: World, ids: set<Id>, mode: Mode, env: nat -> PurgeEnv, attempt: nat, now: int)
    returns (k: nat)
    requires ids <= w.canon.tombs.Keys && attempt <= s.maxRetries && ids != {}
    ensures EndsAt(s, w, ids, mode, env, attempt, k)
    ensures var r := PurgeAndVerify(s, w, ids, mode, env, attempt, now);
            var verified := Succeeded(s, w, ids, mode, env, attempt, k);
            && OthersUntouched(w.canon, r.canon, ids)
            && Holds(r.canon, ids, if verified then Verified else ManualAttention)
            && (Holds(r.canon, ids, Verified) <==> verified)
            && (verified ==> NotRetrievable(s, r, ids, mode, env(k).present))
            && (verified ==> forall i :: i in ids ==> r.canon.tombs[i].verifiedAt == Some(now))
            && (mode == Logical ==> r.canon.records == w.canon.records && r.canon.deps == w.canon.deps)
            && r.generation == w.generation
    decreases s.maxRetries - attempt
  {
    hide Attempted, OthersUntouched, NotRetrievable, InState;
    var (tried, verified) := Attempted(s, w, ids, mode, env(attempt));
    if verified {
      AttemptUntouched(s, w, ids, mode, env(attempt), Verified, Some(now));
      k := attempt;
    } else if attempt < s.maxRetries {
      AttemptUntouched(s, w, ids, mode, env(attempt), PartiallyFailed, None);
      var next := InState(tried, ids, PartiallyFailed, None);
      assert ids <= next.canon.tombs.Keys;
      k := FlowOutcome(s, next, ids, mode, env, attempt + 1, now);
      UntouchedTransitive(w.canon, next.canon, PurgeAndVerify(s, next, ids, mode, env, attempt + 1, now).canon, ids);
      assert forall j :: attempt < j <= k ==>
        (Succeeded(s, w, ids, mode, env, attempt, j) <==> Succeeded(s, next, ids, mode, env, attempt + 1, j));
    } else {
      AttemptUntouched(s, w, ids, mode, env(attempt), ManualAttention, None);
      k := attempt;
      var i :| i in ids;
      assert InState(tried, ids, ManualAttention, None).canon.tombs[i].state != Verified;
    }
  }

  /** The flow never looks beyond attempt `maxRetries`: at most maxRetries + 1 purges. */
  lemma {:induction false} FlowBounded(
    s: Setup, w: World, ids: set<Id>, mode: Mode, env: nat -> PurgeEnv, env': nat -> PurgeEnv, attempt: nat, now: int)
    requires attempt <= s.maxRetries && forall k: nat :: attempt <= k <= s.maxRetries ==> env(k) == env'(k)
    ensures PurgeAndVerify(s, w, ids, mode, env, attempt, now) == PurgeAndVerify(s, w, ids, mode, env', attempt, now)
    decreases s.maxRetries - attempt
  {
    hide Attempted;
    if attempt < s.maxRetries {
      var tried := Attempted(s, w, ids, mode, env(attempt)).0;
      FlowBounded(s, InState(tried, ids, PartiallyFailed, None), ids, mode, env, env', attempt + 1, now);
    }
  }

  /**
   One attempt: nothing is erased unless every surface let go; in hard mode then exactly the rows
   of the ids go and the postings are those of the rows left; and it verifies exactly when no
   surface can bring an id back and every id is tombstoned and, in hard mode, without a row.
   */
  lemma AttemptMeaning(s: Setup, w: World, ids: set<Id>, mode: Mode, env: PurgeEnv, tried: World, failed: set<Id>)
    requires tried == Attempted(s, w, ids, mode, env).0
    requires failed == Purge(s, InState(w, ids, IndexDeleting, None), ids, env).1
    ensures failed != {} ==> !Attempted(s, w, ids, mode, env).1
    ensures failed != {} || mode == Logical ==> tried.canon.records == w.canon.records && tried.fts == w.fts - ids
    ensures failed == {} && mode == Hard ==>
              && tried.canon.records == w.canon.records - ids
              && (forall e :: e in tried.canon.deps <==> e in w.canon.deps && e.parent !in ids && e.child !in ids)
              && tried.fts == map i | i in w.canon.records && i !in ids :: w.canon.records[i].content
    ensures tried.artifacts == w.artifacts - ids
    ensures failed == {} ==> (Attempted(s, w, ids, mode, env).1 <==> forall i :: i in ids ==>
              && i !in tried.fts && i !in tried.artifacts && i !in env.present && i in tried.canon.tombs
              && (mode == Hard ==> i !in tried.canon.records)
              && forall n, gen :: 0 <= n < |s.names| && s.names[n] in tried.coord.idx ==>
                   i !in Live(tried.coord.idx[s.names[n]], gen))
  {
    hide PurgeVectors, Live;
    forall i, n | i in ids && 0 <= n < |s.names| && s.names[n] in tried.coord.idx
      ensures Contains(tried.coord.idx[s.names[n]], i) <==> exists gen :: i in Live(tried.coord.idx[s.names[n]], gen)
    {
      ContainsIsLive(tried.coord.idx[s.names[n]], i);
    }
  }

  lemma ClearIsNotLive(s: Setup, w: World, ids: set<Id>, mode: Mode, present: set<Id>)
    requires NotRetrievable(s, w, ids, mode, present)
    ensures forall i :: i in ids ==>
              && i !in w.fts && i !in w.artifacts && i !in present
              && i in w.canon.tombs && (mode == Hard ==> i !in w.canon.records)
    ensures forall i, n, gen :: i in ids && 0 <= n < |s.names| && s.names[n] in w.coord.idx ==>
              i !in Live(w.coord.idx[s.names[n]], gen)
  {
    forall i, n, gen | i in ids && 0 <= n < |s.names| && s.names[n] in w.coord.idx
      ensures i !in Live(w.coord.idx[s.names[n]], gen)
    {
      assert AbsentEverywhere(s, w, i, present);
      ContainsIsLive(w.coord.idx[s.names[n]], i);
    }
    forall i | i in ids
      ensures i !in w.fts && i !in w.artifacts && i !in present
    {
      assert AbsentEverywhere(s, w, i, present);
    }
  }

  /**
   Deletion outcome: the record's whole component ends tombstoned in this mode, all of it
   VERIFIED or all of it in MANUAL_ATTENTION, whatever the surfaces answer; `k` is the attempt
   that decided. VERIFIED leaves no id that any search of any generation of any store returns,
   nor a posting, an artifact or, in hard mode, a row.
   */
  lemma DeletionOutcome(
    s: Setup, w: World, id: Id, mode: Mode, dependents: bool, jobId: nat, env: nat -> PurgeEnv, now: int,
    ids: set<Id>, marked: World, r: World)
    returns (k: nat)
    requires ids == if dependents then Component(w.canon.deps, id) else {id}
    requires marked == w.(canon := AllTombstoned(w.canon, ids, mode, jobId, now))
    requires r == AfterDeletion(s, w, id, mode, dependents, jobId, env, now)
    ensures EndsAt(s, marked, ids, mode, env, 0, k) && id in ids
    ensures r.canon.tombs.Keys == w.canon.tombs.Keys + ids
    ensures forall i :: i in ids ==>
              && r.canon.tombs[i].mode == mode
              && r.canon.tombs[i].jobId == if i in w.canon.tombs then w.canon.tombs[i].jobId else jobId
    ensures forall i :: i in w.canon.tombs && i !in ids ==> r.canon.tombs[i] == w.canon.tombs[i]
    ensures Succeeded(s, marked, ids, mode, env, 0, k) ==>
              && (forall i :: i in ids ==>
                    && r.canon.tombs[i].state == Verified && r.canon.tombs[i].verifiedAt == Some(now)
                    && i !in r.fts && i !in r.artifacts && i !in env(k).present
                    && (mode == Hard ==> i !in r.canon.records))
              && (forall i, n, gen :: i in ids && 0 <= n < |s.names| && s.names[n] in r.coord.idx ==>
                    i !in Live(r.coord.idx[s.names[n]], gen))
    ensures !Succeeded(s, marked, ids, mode, env, 0, k) ==>
              forall i :: i in ids ==> r.canon.tombs[i].state == ManualAttention
    ensures forall i :: i in r.canon.records && i in ids ==>
              i in w.canon.records && r.canon.records[i] == w.canon.records[i].(status := Deleted, updatedAt := now)
    ensures mode == Logical ==> r.canon.records.Keys == w.canon.records.Keys && r.canon.deps == w.canon.deps
    ensures forall i :: i !in ids ==>
              && (i in r.canon.records <==> i in w.canon.records)
              && (i in w.canon.records ==> r.canon.records[i] == w.canon.records[i])
  {
    ConnectedSelf(w.canon.deps, id);
    assert ids == DeletionIds(w.canon, id, dependents);
    hide Succeeded, NotRetrievable, PurgeAndVerify, AllTombstoned, Component;
    k := FlowOutcome(s, marked, ids, mode, env, 0, now);
    MarkedOutcome(w.canon, marked.canon, r.canon, ids, mode, jobId, now);
    hide OthersUntouched;
    if Succeeded(s, marked, ids, mode, env, 0, k) {
      ClearIsNotLive(s, r, ids, mode, env(k).present);
    }
  }

  lemma MarkedOutcome(c: Canon, marked: Canon, r: Canon, ids: set<Id>, mode: Mode, jobId: nat, now: int)
    requires marked == AllTombstoned(c, ids, mode, jobId, now) && OthersUntouched(marked, r, ids)
    ensures r.tombs.Keys == c.tombs.Keys + ids
    ensures forall i :: i in ids ==>
              r.tombs[i].mode == mode && r.tombs[i].jobId == if i in c.tombs then c.tombs[i].jobId else jobId
    ensures forall i :: i in c.tombs && i !in ids ==> r.tombs[i] == c.tombs[i]
    ensures forall i :: i in r.records && i in ids ==>
              i in c.records && r.records[i] == c.records[i].(status := Deleted, updatedAt := now)
    ensures marked.records.Keys == c.records.Keys && marked.deps == c.deps
    ensures forall i :: i !in ids ==>
              (i in r.records <==> i in c.records) && (i in c.records ==> r.records[i] == c.records[i])
  {
  }

  /**
   The returned job id answers `deletion_status` exactly when the deletion tombstoned
   something new; deleting what is deleted already yields a job nobody can look up.
   */
  lemma JobKnownIff(
    s: Setup, w: World, id: Id, mode: Mode, dependents: bool, jobId: nat, env: nat -> PurgeEnv, now: int,
    ids: set<Id>, r: World)
    requires JobIds(w.canon, jobId) == {} && ids == DeletionIds(w.canon, id, dependents)
    requires r == AfterDeletion(s, w, id, mode, dependents, jobId, env, now)
    ensures JobIds(r.canon, jobId) == ids - w.canon.tombs.Keys
    ensures JobState(r.canon, jobId).Some? <==> !(ids <= w.canon.tombs.Keys)
    ensures JobState(r.canon, jobId).Some? ==>
              (JobState(r.canon, jobId) == Some(Verified) <==> Holds(r.canon, ids, Verified))
  {
    var start := w.(canon := AllTombstoned(w.canon, ids, mode, jobId, now));
    var k := FlowOutcome(s, start, ids, mode, env, 0, now);
    JobRows(w.canon, start.canon, r.canon, ids, mode, jobId, now);
    if JobIds(r.canon, jobId) == {} {
      FirstInNone(ROLL_UP);
      assert JobStates(r.canon, jobId) == {};
    } else {
      RollUp(r.canon, jobId, if Holds(r.canon, ids, Verified) then Verified else ManualAttention);
    }
  }

  lemma JobRows(c: Canon, marked: Canon, r: Canon, ids: set<Id>, mode: Mode, jobId: nat, now: int)
    requires marked == AllTombstoned(c, ids, mode, jobId, now) && OthersUntouched(marked, r, ids)
    requires JobIds(c, jobId) == {}
    ensures JobIds(r, jobId) == ids - c.tombs.Keys
  {
    forall i
      ensures i in JobIds(r, jobId) <==> i in ids - c.tombs.Keys
    {
      assert i in c.tombs ==> i !in JobIds(c, jobId);
    }
  }

  lemma RollUp(c: Canon, jobId: nat, state: DeletionState)
    requires JobIds(c, jobId) != {} && forall i :: i in JobIds(c, jobId) ==> c.tombs[i].state == state
    requires state in ROLL_UP
    ensures JobState(c, jobId) == Some(state)
  {
    var states := JobStates(c, jobId);
    var i :| i in JobIds(c, jobId);
    assert c.tombs[i].state in states;
    assert states == {state};
    FirstInFinds(ROLL_UP, states, state);
  }

  /** A drained log, handlers that succeed, and no further surface in the way. */
  ghost predicate ClearWay(s: Setup, w: World, env: PurgeEnv) {
    && WellWired(s, w.coord.idx) && AllFinished(w.coord.log)
    && (forall k :: AllComplete(env.ticks(k)))
    && env.failed == {} && env.present == {}
  }

  /** Deletion through the coordinator: with a clear way the first attempt decides, and verifies. */
  lemma DeletionVerifiesAtOnce(
    s: Setup, w: World, id: Id, mode: Mode, dependents: bool, jobId: nat, env: nat -> PurgeEnv, now: int,
    ids: set<Id>, marked: World)
    requires ClearWay(s, w, env(0)) && ids == DeletionIds(w.canon, id, dependents)
    requires marked == w.(canon := AllTombstoned(w.canon, ids, mode, jobId, now))
    ensures EndsAt(s, marked, ids, mode, env, 0, 0) && Succeeded(s, marked, ids, mode, env, 0, 0)
    ensures AfterDeletion(s, w, id, mode, dependents, jobId, env, now)
         == InState(Attempted(s, marked, ids, mode, env(0)).0, ids, Verified, Some(now))
  {
    AttemptSucceeds(s, marked, ids, mode, env(0));
    hide Attempted;
  }

  /**
   What that first attempt did: each vector store got exactly one barrier remove, applied and
   done, and no surface contains any id of the component.
   */
  lemma DeletionClearsSurfaces(
    s: Setup, w: World, id: Id, mode: Mode, dependents: bool, jobId: nat, env: nat -> PurgeEnv, now: int,
    ids: set<Id>, r: World)
    requires ClearWay(s, w, env(0)) && ids == DeletionIds(w.canon, id, dependents)
    requires r == AfterDeletion(s, w, id, mode, dependents, jobId, env, now)
    ensures Holds(r.canon, ids, Verified) && NotRetrievable(s, r, ids, mode, {})
    ensures AllFinished(r.coord.log) && RemovesAdded(s, w.coord.log, r.coord.log, ids, |s.names|)
    ensures RemovedFrom(s, w.coord.idx, r.coord.idx, ids, |s.names|)
  {
    var marked := w.(canon := AllTombstoned(w.canon, ids, mode, jobId, now));
    AttemptSucceeds(s, marked, ids, mode, env(0));
    hide Attempted;
    var tried := Attempted(s, marked, ids, mode, env(0)).0;
    StateKeepsCleared(s, tried, ids, mode, {}, Verified, Some(now));
    StateUntouched(tried.canon, ids, Verified, Some(now));
  }

  /** One attempt against a drained log and succeeding handlers verifies. */
  lemma AttemptSucceeds(s: Setup, w: World, ids: set<Id>, mode: Mode, env: PurgeEnv)
    requires WellWired(s, w.coord.idx) && AllFinished(w.coord.log) && ids <= w.canon.tombs.Keys
    requires (forall k :: AllComplete(env.ticks(k))) && env.failed == {} && env.present == {}
    ensures var (tried, verified) := Attempted(s, w, ids, mode, env);
            && verified && NotRetrievable(s, tried, ids, mode, {})
            && ids <= tried.canon.tombs.Keys
            && AllFinished(tried.coord.log)
            && RemovesAdded(s, w.coord.log, tried.coord.log, ids, |s.names|)
            && RemovedFrom(s, w.coord.idx, tried.coord.idx, ids, |s.names|)
  {
    hide PurgeVectors;
    var start := InState(w, ids, IndexDeleting, None);
    PurgeSucceeds(s, start, ids, env);
    PurgedIsClear(s, Purge(s, start, ids, env).0, ids, mode);
  }

  lemma PurgedIsClear(s: Setup, purged: World, ids: set<Id>, mode: Mode)
    requires SurfacesClear(s, purged, ids, {}) && ids <= purged.canon.tombs.Keys
    ensures NotRetrievable(s, if mode == Hard then HardErased(purged, ids) else purged, ids, mode, {})
  {
    var erased := if mode == Hard then HardErased(purged, ids) else purged;
    forall i | i in ids
      ensures AbsentEverywhere(s, erased, i, {})
    {
      assert AbsentEverywhere(s, purged, i, {});
    }
  }

  // ---- the service object ----

  lemma TombstoneOneMore(c: Canon, done: set<Id>, i: Id, mode: Mode, jobId: nat, now: int)
    requires i !in done
    ensures Tombstoned(AllTombstoned(c, done, mode, jobId, now), i, mode, jobId, CanonicalTombstoned, now)
            == AllTombstoned(c, done + {i}, mode, jobId, now)
  {
  }

  lemma StateOneMore(c: Canon, done: set<Id>, i: Id, state: DeletionState, at: Option<int>)
    requires i !in done
    ensures WithTombState(AllInState(c, done, state, at), i, state, at) == AllInState(c, done + {i}, state, at)
  {
  }

  lemma EraseOneMore(c: Canon, done: set<Id>, i: Id)
    ensures Erased(AllErased(c, done), i) == AllErased(c, done + {i})
  {
  }

  class DeletionService {
    const store: CanonicalStore
    const registry: SurfaceRegistry

    constructor (store: CanonicalStore, registry: SurfaceRegistry)
      ensures this.store == store && this.registry == registry
    {
      this.store, this.registry := store, registry;
    }

    ghost predicate Valid()
      reads registry.coordinator`handlers
    {
      registry.Valid() && registry.lexical.store == store
    }

    /** The whole state; `gen` is the engine's active generation, which this service never sees. */
    ghost function State(gen: int): World
      reads store, registry.lexical, registry.artifacts
      reads registry.coordinator`log, registry.coordinator`handlers, registry.coordinator.Stores()
    {
      World(store.Model(), registry.lexical.postings, registry.coordinator.Model(), registry.artifacts.byId, gen)
    }

    method TombstoneAll(ids: set<Id>, mode: Mode, jobId: nat, now: int)
      modifies store
      ensures store.Model() == AllTombstoned(old(store.Model()), ids, mode, jobId, now)
    {
      var rest := ids;
      assert store.Model() == AllTombstoned(store.Model(), {}, mode, jobId, now);
      while rest != {}
        invariant rest <= ids
        invariant store.Model() == AllTombstoned(old(store.Model()), ids - rest, mode, jobId, now)
      {
        var i :| i in rest;
        TombstoneOneMore(old(store.Model()), ids - rest, i, mode, jobId, now);
        store.MarkDeleted(i, mode, jobId, CanonicalTombstoned, now);
        assert ids - (rest - {i}) == ids - rest + {i};
        rest := rest - {i};
      }
      assert ids - {} == ids;
    }

    method SetStates(ids: set<Id>, state: DeletionState, at: Option<int>)
      modifies store
      ensures store.Model() == AllInState(old(store.Model()), ids, state, at)
    {
      var rest := ids;
      assert store.Model() == AllInState(store.Model(), {}, state, at);
      while rest != {}
        invariant rest <= ids
        invariant store.Model() == AllInState(old(store.Model()), ids - rest, state, at)
      {
        var i :| i in rest;
        StateOneMore(old(store.Model()), ids - rest, i, state, at);
        store.SetTombstoneState(i, state, at);
        assert ids - (rest - {i}) == ids - rest + {i};
        rest := rest - {i};
      }
      assert ids - {} == ids;
    }

    method HardErase(ids: set<Id>, ghost gen: int)
      requires Valid()
      modifies store, registry.lexical
      ensures State(gen) == HardErased(old(State(gen)), ids)
    {
      EraseRows(ids);
      registry.lexical.Rebuild();
    }

    method EraseRows(ids: set<Id>)
      modifies store
      ensures store.Model() == AllErased(old(store.Model()), ids)
    {
      var rest := ids;
      assert store.Model() == AllErased(store.Model(), {});
      while rest != {}
        invariant rest <= ids
        invariant store.Model() == AllErased(old(store.Model()), ids - rest)
      {
        var i :| i in rest;
        EraseOneMore(old(store.Model()), ids - rest, i);
        store.HardDelete(i);
        assert ids - (rest - {i}) == ids - rest + {i};
        rest := rest - {i};
      }
      assert ids - {} == ids;
    }

    method Verify(ids: set<Id>, mode: Mode, present: set<Id>, ghost gen: int) returns (ok: bool)
      requires Valid()
      ensures ok == NotRetrievable(registry.setup, State(gen), ids, mode, present)
      ensures ok ==> forall i, n, g :: i in ids && 0 <= n < |registry.setup.names| ==>
                i !in Live(registry.coordinator.handlers[registry.setup.names[n]].Model(), g)
    {
      var clear := registry.Verify(ids, present);
      if !clear {
        return false;
      }
      ok := forall i :: i in ids ==> i in store.tombs && (mode == Hard ==> i !in store.records);
    }

    method PurgeSurfaces(ids: set<Id>, env: PurgeEnv, ghost gen: int) returns (failed: set<Id>)
      requires Valid()
      modifies registry.lexical, registry.artifacts, registry.coordinator`log, registry.coordinator.Stores()
      ensures Valid() && registry.coordinator.handlers == old(registry.coordinator.handlers)
      ensures (State(gen), failed) == Purge(registry.setup, old(State(gen)), ids, env)
    {
      hide PurgeVectors;
      failed := registry.Purge(ids, env);
    }

    /** One attempt: mark, purge, erase in hard mode, verify. */
    method Attempt(ids: set<Id>, mode: Mode, env: PurgeEnv, ghost gen: int) returns (verified: bool)
      requires Valid()
      modifies store, registry.lexical, registry.artifacts, registry.coordinator`log, registry.coordinator.Stores()
      ensures Valid() && registry.coordinator.handlers == old(registry.coordinator.handlers)
      ensures (State(gen), verified) == Attempted(registry.setup, old(State(gen)), ids, mode, env)
      ensures store.tombs.Keys == old(store.tombs.Keys)
    {
      hide Purge, NotRetrievable, InState, HardErased;
      MarkAll(ids, IndexDeleting, None, gen);
      var failed := PurgeSurfaces(ids, env, gen);
      if failed != {} {
        AttemptCanon(registry.setup, old(State(gen)), ids, mode, env);
        return false;
      }
      if mode == Hard {
        HardErase(ids, gen);
      }
      verified := Verify(ids, mode, env.present, gen);
      AttemptCanon(registry.setup, old(State(gen)), ids, mode, env);
    }

    /** Canonical-first: no surface is touched for an id that is not tombstoned yet. */
    method PurgeAndVerifyFrom(
      ids: set<Id>, mode: Mode, envs: nat -> PurgeEnv, attempt: nat, now: int, ghost gen: int)
      requires Valid() && ids <= store.tombs.Keys
      modifies store, registry.lexical, registry.artifacts, registry.coordinator`log, registry.coordinator.Stores()
      ensures Valid() && registry.coordinator.handlers == old(registry.coordinator.handlers)
      ensures State(gen) == PurgeAndVerify(registry.setup, old(State(gen)), ids, mode, envs, attempt, now)
      decreases registry.setup.maxRetries - attempt
    {
      hide Attempted, InState;
      var verified := Attempt(ids, mode, envs(attempt), gen);
      if verified {
        MarkAll(ids, Verified, Some(now), gen);
      } else if attempt < registry.setup.maxRetries {
        MarkAll(ids, PartiallyFailed, None, gen);
        PurgeAndVerifyFrom(ids, mode, envs, attempt + 1, now, gen);
      } else {
        MarkAll(ids, ManualAttention, None, gen);
      }
    }

    method MarkAll(ids: set<Id>, state: DeletionState, at: Option<int>, ghost gen: int)
      requires Valid()
      modifies store
      ensures State(gen) == InState(old(State(gen)), ids, state, at)
      ensures store.tombs.Keys == old(store.tombs.Keys)
    {
      SetStates(ids, state, at);
    }

    /** Tombstone the record and its component first; only then touch a surface. */
    method RequestDeletion(
      id: Id, mode: Mode, dependents: bool, jobId: nat, envs: nat -> PurgeEnv, now: int, ghost gen: int)
      requires Valid()
      modifies store, registry.lexical, registry.artifacts, registry.coordinator`log, registry.coordinator.Stores()
      ensures Valid() && registry.coordinator.handlers == old(registry.coordinator.handlers)
      ensures State(gen) == AfterDeletion(registry.setup, old(State(gen)), id, mode, dependents, jobId, envs, now)
    {
      hide PurgeAndVerify;
      var ids := {id};
      if dependents {
        var found := store.DependencyGraph(id);
        ids := ids + found;
      }
      assert ids == DeletionIds(store.Model(), id, dependents);
      TombstoneAll(ids, mode, jobId, now);
      PurgeAndVerifyFrom(ids, mode, envs, 0, now, gen);
    }

    /** Attempt a known job again, in the mode of one of its rows; false is the unknown-job error. */
    method Retry(jobId: nat, envs: nat -> PurgeEnv, now: int, ghost gen: int) returns (known: bool, row: Id)
      requires Valid()
      modifies store, registry.lexical, registry.artifacts, registry.coordinator`log, registry.coordinator.Stores()
      ensures Valid() && registry.coordinator.handlers == old(registry.coordinator.handlers)
      ensures known <==> JobIds(old(store.Model()), jobId) != {}
      ensures !known ==> State(gen) == old(State(gen))
      ensures known ==> row in JobIds(old(store.Model()), jobId)
      ensures known ==> State(gen) == PurgeAndVerify(registry.setup, old(State(gen)),
                JobIds(old(store.Model()), jobId), old(store.tombs)[row].mode, envs, 0, now)
    {
      var ids := JobIds(store.Model(), jobId);
      if ids == {} {
        return false, 0;
      }
      row :| row in ids;
      PurgeAndVerifyFrom(ids, store.tombs[row].mode, envs, 0, now, gen);
      known := true;
    }

    /**
     The job's ids, the mode of one of its rows and the least complete state among them, which is
     VERIFIED only if every row is; None is the unknown-job error.
     */
    method DeletionStatus(jobId: nat) returns (status: Option<JobStatus>)
      ensures status.None? <==> JobIds(store.Model(), jobId) == {}
      ensures status.Some? ==>
                && status.value.ids == JobIds(store.Model(), jobId)
                && Some(status.value.state) == JobState(store.Model(), jobId)
                && (status.value.verified <==> Holds(store.Model(), status.value.ids, DeletionState.Verified))
                && exists i :: i in status.value.ids && store.tombs[i].mode == status.value.mode
    {
      var ids := JobIds(store.Model(), jobId);
      if ids == {} {
        return None;
      }
      var states := JobStates(store.Model(), jobId);
      var row: Id :| row in ids;
      assert ROLL_UP[Rank(store.tombs[row].state)] in states;
      for n := 0 to |ROLL_UP|
        invariant FirstIn(ROLL_UP, states) == FirstIn(ROLL_UP[n..], states)
        invariant forall m :: 0 <= m < n ==> ROLL_UP[m] !in states
      {
        if ROLL_UP[n] in states {
          VerifiedIffAll(store.Model(), jobId, n);
          return Some(JobStatus(ids, store.tombs[row].mode, ROLL_UP[n], ROLL_UP[n] == DeletionState.Verified));
        }
      }
      assert false;
    }

    /** The canonical part of a correction: new row, old status, edge. */
    method RecordReplacement(oldId: Id, rec: Record, rel: Relation, now: int) returns (written: Record, ok: bool)
      modifies store
      ensures written == rec.(updatedAt := now)
      ensures var marked := WithStatus(Written(old(store.Model()), rec, now), oldId, StatusAfter(rel), now);
              && ok == CanLink(marked, rec.id, oldId)
              && store.Model() == if ok then Linked(marked, Edge(rec.id, oldId, rel)) else marked
    {
      written := store.Write(rec, now);
      store.SetStatus(oldId, if rel == Supersedes then Superseded else Contradicted, now);
      ok := store.AddDependency(written.id, oldId, rel);
    }

    method Correct(
      oldId: Id, rec: Record, rel: Relation, keepHistory: bool, now: int, env: PurgeEnv, ghost gen: int)
      returns (ok: bool)
      requires Valid()
      modifies store, registry.lexical, registry.artifacts, registry.coordinator`log, registry.coordinator.Stores()
      ensures Valid() && registry.coordinator.handlers == old(registry.coordinator.handlers)
      ensures (State(gen), ok) == Replaced(registry.setup, old(State(gen)), oldId, rec, rel, keepHistory, now, env)
    {
      hide Purge, Linked, WithStatus;
      var written: Record;
      written, ok := RecordReplacement(oldId, rec, rel, now);
      if !ok {
        return;
      }
      registry.lexical.Index(written);
      if !keepHistory {
        var failed := PurgeSurfaces({oldId}, env, gen);
      }
    }
  }
}
