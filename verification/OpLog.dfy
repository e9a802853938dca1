/**
 The durable operation log of the Write Coordinator (strata/coordinator/coordinator.py and
 ops.py): what a row is, when a row may run, what one attempt does to the log and to the
 vector indexes. The log holds its rows in `seq` order, so `seq` is the position.
 */
module OpLog {
  import opened Records
  import opened VectorStore

  datatype OpType = UpsertIndex | RemoveIndex | TombstoneOp | ReindexPromote | HardPurge

  datatype OpState = Pending | InProgress | PartialFailure | Done | Failed

  datatype Operation = Operation(
    opId: nat, opType: OpType, ids: set<Id>, target: string, payload: seq<VectorRecord>)

  datatype OpRow = OpRow(op: Operation, state: OpState, attempts: nat, nextAt: Option<int>)

  datatype Config = Config(maxAttempts: int, backoffBase: nat)

  /** The vector indexes by the name their handler is registered under. */
  type Indexes = map<string, Index>

  /** How a handler call ends: as written, with an exception before or after its effect. */
  datatype Outcome = Completes | RaiseBefore | RaiseAfter

  /** Everything one `apply_next` takes from outside: two clock readings and the outcome. */
  datatype Attempt = Attempt(now: int, later: int, outcome: Outcome)

  datatype Coord = Coord(log: seq<OpRow>, idx: Indexes)

  predicate IsDestructive(t: OpType) {
    t in {RemoveIndex, TombstoneOp, ReindexPromote, HardPurge}
  }

  predicate Finished(s: OpState) {
    s == Done || s == Failed
  }

  /** Two operations that must take effect in log order. */
  predicate Conflicts(a: Operation, b: Operation) {
    IsDestructive(a.opType) || IsDestructive(b.opType) || !(a.ids !! b.ids)
  }

  predicate Blocked(op: Operation, earlier: seq<OpRow>) {
    && earlier != []
    && (|| (exists e :: e in earlier && IsDestructive(e.op.opType))
        || IsDestructive(op.opType)
        || (exists e :: e in earlier && !(op.ids !! e.op.ids)))
  }

  predicate Runnable(row: OpRow, now: int) {
    && (row.state == Pending || row.state == PartialFailure)
    && (row.nextAt.Some? ==> row.nextAt.value <= now)
  }

  predicate Eligible(log: seq<OpRow>, i: nat, now: int) {
    && i < |log|
    && Runnable(log[i], now)
    && forall k :: 0 <= k < i && !Finished(log[k].state) ==> !Conflicts(log[k].op, log[i].op)
  }

  /** The lowest eligible position at or above `i`. */
  function SelectFrom(log: seq<OpRow>, i: nat, now: int): (r: Option<nat>)
    ensures r.Some? ==> i <= r.value && Eligible(log, r.value, now)
    ensures forall k :: i <= k < (if r.Some? then r.value else |log|) ==> !Eligible(log, k, now)
    decreases |log| - i
  {
    if i >= |log| then None
    else if Eligible(log, i, now) then Some(i)
    else SelectFrom(log, i + 1, now)
  }

  /** The operation to apply next: the lowest eligible one. */
  function Select(log: seq<OpRow>, now: int): (r: Option<nat>)
    ensures r.Some? ==> Eligible(log, r.value, now)
    ensures forall k :: 0 <= k < (if r.Some? then r.value else |log|) ==> !Eligible(log, k, now)
  {
    SelectFrom(log, 0, now)
  }

  /**
   The choice in terms of the rows: it is pending or partly failed, its backoff is over, and it
   passes an unfinished row only if both are upserts without a common id. Every row in front of
   it fails one of these tests.
   */
  lemma SelectMeaning(log: seq<OpRow>, now: int)
    ensures var r := Select(log, now);
            r.Some? ==>
              && r.value < |log|
              && (log[r.value].state == Pending || log[r.value].state == PartialFailure)
              && (log[r.value].nextAt.Some? ==> log[r.value].nextAt.value <= now)
              && forall k :: 0 <= k < r.value && log[k].state != Done && log[k].state != Failed ==>
                   && log[k].op.opType == UpsertIndex && log[r.value].op.opType == UpsertIndex
                   && log[k].op.ids !! log[r.value].op.ids
    ensures var r := Select(log, now);
            forall j :: 0 <= j < (if r.Some? then r.value else |log|) ==>
              || (log[j].state != Pending && log[j].state != PartialFailure)
              || (log[j].nextAt.Some? && log[j].nextAt.value > now)
              || exists k :: 0 <= k < j && log[k].state in {Pending, InProgress, PartialFailure}
                   && (|| log[k].op.opType != UpsertIndex || log[j].op.opType != UpsertIndex
                       || !(log[k].op.ids !! log[j].op.ids))
  {
    var r := Select(log, now);
    forall k | 0 <= k < |log| && !Finished(log[k].state)
      ensures log[k].state in {Pending, InProgress, PartialFailure}
    {
    }
    forall j | 0 <= j < (if r.Some? then r.value else |log|) && Runnable(log[j], now)
      ensures exists k :: 0 <= k < j && log[k].state in {Pending, InProgress, PartialFailure}
                && (|| log[k].op.opType != UpsertIndex || log[j].op.opType != UpsertIndex
                    || !(log[k].op.ids !! log[j].op.ids))
    {
      assert !Eligible(log, j, now);
      var k :| 0 <= k < j && !Finished(log[k].state) && Conflicts(log[k].op, log[j].op);
    }
  }

  function Enqueued(log: seq<OpRow>, op: Operation): seq<OpRow> {
    if exists r :: r in log && r.op.opId == op.opId then log
    else log + [OpRow(op, Pending, 0, None)]
  }

  function Recovered(log: seq<OpRow>): seq<OpRow> {
    seq(|log|, i requires 0 <= i < |log| =>
      if log[i].state == InProgress then log[i].(state := Pending) else log[i])
  }

  function Retried(log: seq<OpRow>, opId: nat): seq<OpRow> {
    seq(|log|, i requires 0 <= i < |log| =>
      if log[i].op.opId == opId && (log[i].state == PartialFailure || log[i].state == Failed)
      then log[i].(state := Pending, nextAt := None) else log[i])
  }

  // ---- handlers ----

  /** The vector handler can apply upserts, removals and hard purges; it raises on the rest. */
  predicate Applicable(op: Operation, targets: set<string>) {
    op.target in targets && op.opType in {UpsertIndex, RemoveIndex, HardPurge}
  }

  function Applied(op: Operation, idx: Indexes): Indexes {
    if !Applicable(op, idx.Keys) then idx
    else if op.opType == UpsertIndex then idx[op.target := Upserted(idx[op.target], op.payload)]
    else idx[op.target := Removed(idx[op.target], op.ids)]
  }

  predicate Acknowledged(op: Operation, targets: set<string>, outcome: Outcome) {
    && Applicable(op, targets)
    && outcome == Completes
    && (op.opType == UpsertIndex ==> op.ids <= PayloadIds(op.payload))
  }

  function AfterHandler(op: Operation, idx: Indexes, outcome: Outcome): Indexes {
    if outcome == RaiseBefore then idx else Applied(op, idx)
  }

  // ---- attempts ----

  function Pow2(n: nat): (p: nat)
    ensures p >= 1
  {
    if n == 0 then 1 else 2 * Pow2(n - 1)
  }

  function Backoff(cfg: Config, attempts: nat): nat
    requires attempts > 0
  {
    cfg.backoffBase * Pow2(attempts - 1)
  }

  /** The row after its handler returned (`acked`) or failed (`!acked`) at time `later`. */
  function Settled(cfg: Config, row: OpRow, acked: bool, later: int): OpRow {
    if acked then row.(state := Done)
    else if row.attempts + 1 >= cfg.maxAttempts then row.(state := Failed, attempts := row.attempts + 1)
    else row.(state := PartialFailure, attempts := row.attempts + 1,
              nextAt := Some(later + Backoff(cfg, row.attempts + 1)))
  }

  function ApplyAt(cfg: Config, c: Coord, i: nat, a: Attempt): Coord
    requires i < |c.log|
  {
    var op := c.log[i].op;
    var acked := Acknowledged(op, c.idx.Keys, a.outcome);
    Coord(c.log[i := Settled(cfg, c.log[i], acked, a.later)], AfterHandler(op, c.idx, a.outcome))
  }

  /** `run_until_idle`: apply until nothing is eligible or `fuel` steps are done. */
  function Drain(cfg: Config, c: Coord, env: nat -> Attempt, k: nat, fuel: nat): (r: (Coord, nat))
    ensures r.1 >= k
    decreases fuel
  {
    if fuel == 0 then (c, k)
    else
      match Select(c.log, env(k).now)
      case None => (c, k)
      case Some(i) => Drain(cfg, ApplyAt(cfg, c, i, env(k)), env, k + 1, fuel - 1)
  }

  function Drained(cfg: Config, c: Coord, env: nat -> Attempt, maxSteps: nat): Coord {
    Drain(cfg, c, env, 0, maxSteps).0
  }

  predicate AllFinished(log: seq<OpRow>) {
    forall i :: 0 <= i < |log| ==> Finished(log[i].state)
  }

  predicate NoneInProgress(log: seq<OpRow>) {
    forall i :: 0 <= i < |log| ==> log[i].state != InProgress
  }

  // ---- progress of the drain ----

  /** Attempts a row can still consume. */
  function RowWork(cfg: Config, row: OpRow): nat {
    if Finished(row.state) then 0
    else if cfg.maxAttempts - row.attempts > 1 then cfg.maxAttempts - row.attempts
    else 1
  }

  function Work(cfg: Config, log: seq<OpRow>): nat {
    if log == [] then 0 else Work(cfg, log[..|log| - 1]) + RowWork(cfg, log[|log| - 1])
  }

  lemma {:induction false} WorkOfUpdate(cfg: Config, log: seq<OpRow>, i: nat, row: OpRow)
    requires i < |log|
    ensures Work(cfg, log[i := row]) == Work(cfg, log) - RowWork(cfg, log[i]) + RowWork(cfg, row)
  {
    var n := |log| - 1;
    var after := log[i := row];
    if i == n {
      assert after[..n] == log[..n];
    } else {
      WorkOfUpdate(cfg, log[..n], i, row);
      assert after[..n] == log[..n][i := row];
    }
  }

  /** Every `apply_next` that returns an operation consumes work, whatever its handler does. */
  lemma ApplyConsumesWork(cfg: Config, c: Coord, now: int, a: Attempt)
    requires Select(c.log, now).Some?
    ensures Work(cfg, ApplyAt(cfg, c, Select(c.log, now).value, a).log) < Work(cfg, c.log)
  {
    var i := Select(c.log, now).value;
    WorkOfUpdate(cfg, c.log, i, Settled(cfg, c.log[i], Acknowledged(c.log[i].op, c.idx.Keys, a.outcome), a.later));
  }

  lemma {:induction false} WorkZero(cfg: Config, log: seq<OpRow>)
    ensures Work(cfg, log) == 0 <==> AllFinished(log)
  {
    if log == [] {
    } else {
      var n := |log| - 1;
      WorkZero(cfg, log[..n]);
      assert log == log[..n] + [log[n]];
      assert forall i :: 0 <= i < n ==> log[..n][i] == log[i];
      if AllFinished(log) {
        assert AllFinished(log[..n]);
      }
    }
  }

  /** A drain with as much fuel as there is work stops because nothing is eligible any more. */
  lemma {:induction false} DrainStops(cfg: Config, c: Coord, env: nat -> Attempt, k: nat, fuel: nat)
    requires Work(cfg, c.log) <= fuel
    ensures var (after, steps) := Drain(cfg, c, env, k, fuel);
            && steps - k <= Work(cfg, c.log)
            && Select(after.log, env(steps).now) == None
    decreases fuel
  {
    WorkZero(cfg, c.log);
    if Select(c.log, env(k).now).Some? {
      ApplyConsumesWork(cfg, c, env(k).now, env(k));
      var i := Select(c.log, env(k).now).value;
      assert fuel > 0;
      DrainStops(cfg, ApplyAt(cfg, c, i, env(k)), env, k + 1, fuel - 1);
    }
  }

  /** No unfinished operation is still in backoff. */
  predicate AllDue(log: seq<OpRow>, now: int) {
    forall i :: 0 <= i < |log| && !Finished(log[i].state) && log[i].nextAt.Some? ==> log[i].nextAt.value <= now
  }

  /** The scheduler never deadlocks: it is idle only when every operation is finished. */
  lemma {:induction false} NoDeadlock(log: seq<OpRow>, now: int)
    requires NoneInProgress(log) && AllDue(log, now)
    ensures Select(log, now) == None <==> AllFinished(log)
  {
    if !AllFinished(log) {
      var n := LowestUnfinished(log, 0);
      assert Runnable(log[n], now);
      assert Eligible(log, n, now);
    }
  }

  lemma LowestUnfinished(log: seq<OpRow>, from: nat) returns (n: nat)
    requires from <= |log| && exists i :: from <= i < |log| && !Finished(log[i].state)
    requires forall i :: 0 <= i < from ==> Finished(log[i].state)
    ensures n < |log| && !Finished(log[n].state) && forall i :: 0 <= i < n ==> Finished(log[i].state)
    decreases |log| - from
  {
    if !Finished(log[from].state) {
      n := from;
    } else {
      n := LowestUnfinished(log, from + 1);
    }
  }

  /** Each clock reading of the drain comes after every backoff then pending. */
  ghost predicate Patient(cfg: Config, c: Coord, env: nat -> Attempt, k: nat, fuel: nat)
    decreases fuel
  {
    fuel > 0 ==>
      && AllDue(c.log, env(k).now)
      && (var s := Select(c.log, env(k).now);
          s.Some? ==> Patient(cfg, ApplyAt(cfg, c, s.value, env(k)), env, k + 1, fuel - 1))
  }

  /** As time advances past the backoffs, every operation ends done or failed. */
  lemma {:induction false} PatientDrainFinishes(cfg: Config, c: Coord, env: nat -> Attempt, k: nat, fuel: nat)
    requires NoneInProgress(c.log) && Work(cfg, c.log) <= fuel && Patient(cfg, c, env, k, fuel)
    ensures AllFinished(Drain(cfg, c, env, k, fuel).0.log)
    decreases fuel
  {
    WorkZero(cfg, c.log);
    if fuel > 0 {
      NoDeadlock(c.log, env(k).now);
      var s := Select(c.log, env(k).now);
      if s.Some? {
        ApplyConsumesWork(cfg, c, env(k).now, env(k));
        PatientDrainFinishes(cfg, ApplyAt(cfg, c, s.value, env(k)), env, k + 1, fuel - 1);
      }
    }
  }

  // ---- the good case: a tail of fresh operations on a drained log ----

  predicate FreshTail(log: seq<OpRow>, p: nat) {
    && p <= |log|
    && (forall i :: 0 <= i < p ==> Finished(log[i].state))
    && (forall i :: p <= i < |log| ==> log[i].state == Pending && log[i].nextAt == None)
  }

  function AppliedFrom(log: seq<OpRow>, p: nat, idx: Indexes): Indexes
    decreases |log| - p
  {
    if p >= |log| then idx else AppliedFrom(log, p + 1, Applied(log[p].op, idx))
  }

  lemma AppliedKeys(op: Operation, idx: Indexes)
    ensures Applied(op, idx).Keys == idx.Keys
  {
  }

  ghost predicate Succeeds(log: seq<OpRow>, p: nat, targets: set<string>, env: nat -> Attempt) {
    && (forall k :: env(k).outcome == Completes)
    && (forall i :: p <= i < |log| ==> Acknowledged(log[i].op, targets, Completes))
  }

  /** Where a drain of `fuel` steps through a fresh tail stops. */
  function Reach(log: seq<OpRow>, p: nat, fuel: nat): nat
    requires p <= |log|
  {
    if |log| - p <= fuel then |log| else p + fuel
  }

  /**
   With succeeding handlers one drain applies exactly the first `fuel` operations of a fresh
   tail, in log order, and leaves the rest of it as it was.
   */
  lemma {:induction false} DrainFreshTail(cfg: Config, c: Coord, env: nat -> Attempt, p: nat, k: nat, fuel: nat)
    requires FreshTail(c.log, p) && Succeeds(c.log, p, c.idx.Keys, env)
    ensures var after := Drain(cfg, c, env, k, fuel).0;
            var end := Reach(c.log, p, fuel);
            && |after.log| == |c.log|
            && (forall i :: 0 <= i < |c.log| ==> after.log[i].op == c.log[i].op)
            && (forall i :: p <= i < end ==> after.log[i].state == Done)
            && (forall i :: 0 <= i < p || end <= i < |c.log| ==> after.log[i] == c.log[i])
            && after.idx == AppliedFrom(c.log[..end], p, c.idx)
    decreases |c.log| - p
  {
    hide Select, ApplyAt, Applied, Acknowledged;
    if p == |c.log| {
      NothingSelected(c.log, env(k).now);
    } else if fuel > 0 {
      DrainFreshHead(cfg, c, env, p, k, fuel);
      hide FreshTail, Succeeds, Drain;
      var next := Coord(c.log[p := c.log[p].(state := Done)], Applied(c.log[p].op, c.idx));
      DrainFreshTail(cfg, next, env, p + 1, k + 1, fuel - 1);
      var end := Reach(c.log, p, fuel);
      AppliedFromOps(next.log[..end], c.log[..end], p + 1, next.idx);
    }
  }

  /** A fresh tail that fits is applied completely. */
  lemma DrainWholeTail(cfg: Config, c: Coord, env: nat -> Attempt, p: nat, fuel: nat)
    requires FreshTail(c.log, p) && Succeeds(c.log, p, c.idx.Keys, env) && |c.log| - p <= fuel
    ensures var after := Drain(cfg, c, env, 0, fuel).0;
            && AllFinished(after.log)
            && |after.log| == |c.log|
            && (forall i :: 0 <= i < |c.log| ==> after.log[i].op == c.log[i].op)
            && (forall i :: 0 <= i < p ==> after.log[i] == c.log[i])
            && after.idx == AppliedFrom(c.log, p, c.idx)
  {
    DrainFreshTail(cfg, c, env, p, 0, fuel);
    hide Drain;
    assert c.log[..|c.log|] == c.log;
  }

  /** The first step of that drain. */
  lemma DrainFreshHead(cfg: Config, c: Coord, env: nat -> Attempt, p: nat, k: nat, fuel: nat)
    requires FreshTail(c.log, p) && Succeeds(c.log, p, c.idx.Keys, env) && p < |c.log| && fuel > 0
    ensures var next := Coord(c.log[p := c.log[p].(state := Done)], Applied(c.log[p].op, c.idx));
            && Drain(cfg, c, env, k, fuel) == Drain(cfg, next, env, k + 1, fuel - 1)
            && FreshTail(next.log, p + 1) && Succeeds(next.log, p + 1, next.idx.Keys, env)
  {
    HeadSelected(c.log, p, env(k).now);
    HeadSucceeds(cfg, c, p, env(k));
    AppliedKeys(c.log[p].op, c.idx);
    hide Select, ApplyAt, Applied, Acknowledged;
  }

  lemma NothingSelected(log: seq<OpRow>, now: int)
    requires AllFinished(log)
    ensures Select(log, now) == None
  {
    if Select(log, now).Some? {
      assert false;
    }
  }

  /** The first of a fresh tail is what the scheduler picks. */
  lemma HeadSelected(log: seq<OpRow>, p: nat, now: int)
    requires FreshTail(log, p) && p < |log|
    ensures Select(log, now) == Some(p)
  {
    assert Eligible(log, p, now);
    assert forall k :: 0 <= k < p ==> !Eligible(log, k, now);
  }

  lemma HeadSucceeds(cfg: Config, c: Coord, p: nat, a: Attempt)
    requires p < |c.log| && a.outcome == Completes && Acknowledged(c.log[p].op, c.idx.Keys, Completes)
    ensures ApplyAt(cfg, c, p, a) == Coord(c.log[p := c.log[p].(state := Done)], Applied(c.log[p].op, c.idx))
  {
  }

  lemma {:induction false} AppliedFromOps(a: seq<OpRow>, b: seq<OpRow>, p: nat, idx: Indexes)
    requires |a| == |b| && forall i :: p <= i < |a| ==> a[i].op == b[i].op
    ensures AppliedFrom(a, p, idx) == AppliedFrom(b, p, idx)
    decreases |a| - p
  {
    if p < |a| {
      AppliedFromOps(a, b, p + 1, Applied(a[p].op, idx));
    }
  }
}
