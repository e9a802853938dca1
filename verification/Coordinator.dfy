/**
 The Write Coordinator object (strata/coordinator/coordinator.py): the log table it owns, the
 vector stores its handlers write to, and the methods that change both. Every method is
 specified by the functions of OpLog.
 */
module Coordinator {
  import opened Records
  import opened VectorStore
  import opened OpLog

  class WriteCoordinator {
    const cfg: Config
    var log: seq<OpRow>
    /** A handler is a closure over one vector store, registered under the store's name. */
    var handlers: map<string, InMemoryVectorStore>

    constructor (cfg: Config)
      ensures Valid() && this.cfg == cfg && log == [] && handlers == map[]
    {
      this.cfg := cfg;
      log, handlers := [], map[];
    }

    /** Two targets never share one vector store. */
    ghost predicate Valid()
      reads this`handlers
    {
      forall a, b :: a in handlers && b in handlers && handlers[a] == handlers[b] ==> a == b
    }

    ghost function Stores(): set<object>
      reads this`handlers
    {
      set n | n in handlers :: handlers[n]
    }

    ghost function IndexMap(): (idx: Indexes)
      reads this`handlers, Stores()
      ensures idx.Keys == handlers.Keys
    {
      map n | n in handlers :: handlers[n].Model()
    }

    ghost function Model(): Coord
      reads this`log, this`handlers, Stores()
    {
      Coord(log, IndexMap())
    }

    method RegisterHandler(name: string, store: InMemoryVectorStore)
      requires Valid() && store !in Stores()
      modifies this`handlers
      ensures Valid() && handlers == old(handlers)[name := store]
    {
      handlers := handlers[name := store];
    }

    /** Append to the log; an operation id that is already there is ignored. */
    method Enqueue(op: Operation)
      requires Valid()
      modifies this`log
      ensures Valid() && log == Enqueued(old(log), op)
      ensures log == old(log) || log == old(log) + [OpRow(op, Pending, 0, None)]
      ensures log == old(log) <==> exists k :: 0 <= k < |old(log)| && old(log)[k].op.opId == op.opId
    {
      for n := 0 to |log|
        invariant forall k :: 0 <= k < n ==> log[k].op.opId != op.opId
        invariant log == old(log)
      {
        if log[n].op.opId == op.opId {
          assert log[n] in log;
          return;
        }
      }
      log := log + [OpRow(op, Pending, 0, None)];
    }

    /** After a crash every interrupted operation is pending again; the answer counts them. */
    method Recover() returns (n: nat)
      requires Valid()
      modifies this`log
      ensures Valid() && log == Recovered(old(log))
      ensures |log| == |old(log)| && forall k :: 0 <= k < |log| ==>
                log[k] == if old(log)[k].state == InProgress then old(log)[k].(state := Pending) else old(log)[k]
      ensures n == |set k: nat | k < |old(log)| && old(log)[k].state == InProgress|
    {
      n := 0;
      var rows := [];
      for i := 0 to |log|
        invariant log == old(log)
        invariant |rows| == i && forall k :: 0 <= k < i ==> rows[k] == Recovered(log)[k]
        invariant n == |InterruptedIn(log, i)|
      {
        assert InterruptedIn(log, i + 1) == InterruptedIn(log, i) + (if log[i].state == InProgress then {i} else {});
        if log[i].state == InProgress {
          rows := rows + [log[i].(state := Pending)];
          n := n + 1;
        } else {
          rows := rows + [log[i]];
        }
      }
      assert rows == Recovered(log);
      assert InterruptedIn(log, |log|) == set k: nat | k < |log| && log[k].state == InProgress;
      log := rows;
    }

    /** The scan of `_select_eligible`, carrying the not-done rows seen so far. */
    method SelectEligible(now: int) returns (r: Option<nat>)
      requires Valid()
      ensures r == Select(log, now)
    {
      var earlier: seq<OpRow> := [];
      for i := 0 to |log|
        invariant forall e :: e in earlier <==> exists k :: 0 <= k < i && log[k] == e && !Finished(e.state)
        invariant forall k :: 0 <= k < i ==> !Eligible(log, k, now)
      {
        var row := log[i];
        if !Finished(row.state) {
          BlockedIsConflict(row.op, earlier);
          assert (exists e :: e in earlier && Conflicts(e.op, row.op))
                 <==> exists k :: 0 <= k < i && !Finished(log[k].state) && Conflicts(log[k].op, row.op);
          if Runnable(row, now) && !Blocked(row.op, earlier) {
            assert Eligible(log, i, now);
            return Some(i);
          }
          earlier := earlier + [row];
        }
      }
      return None;
    }

    /** One handler call; the answer is the acknowledged ids, or None when it raised. */
    method RunHandler(op: Operation, outcome: Outcome) returns (acks: Option<set<Id>>)
      requires Valid()
      modifies Stores()
      ensures Valid() && handlers == old(handlers) && log == old(log)
      ensures IndexMap() == AfterHandler(op, old(IndexMap()), outcome)
      ensures op.target in handlers && outcome != RaiseBefore ==>
                handlers[op.target].Model() == match op.opType
                  case UpsertIndex => Upserted(old(handlers[op.target].Model()), op.payload)
                  case RemoveIndex => Removed(old(handlers[op.target].Model()), op.ids)
                  case HardPurge => Removed(old(handlers[op.target].Model()), op.ids)
                  case TombstoneOp => old(handlers[op.target].Model())
                  case ReindexPromote => old(handlers[op.target].Model())
      ensures forall t :: t in handlers && (t != op.target || outcome == RaiseBefore) ==>
                handlers[t].Model() == old(handlers[t].Model())
      ensures acks.Some? <==>
                && op.target in handlers && outcome == Completes
                && op.opType != TombstoneOp && op.opType != ReindexPromote
      ensures acks.Some? ==> acks.value == if op.opType == UpsertIndex then PayloadIds(op.payload) else op.ids
      ensures (acks.Some? && op.ids <= acks.value) == Acknowledged(op, handlers.Keys, outcome)
    {
      if op.target !in handlers || outcome == RaiseBefore {
        return None;
      }
      var store := handlers[op.target];
      var done := {};
      match op.opType {
        case UpsertIndex => done := store.Upsert(op.payload);
        case RemoveIndex => done := store.Remove(op.ids);
        case HardPurge => done := store.Remove(op.ids);
        case TombstoneOp => return None;
        case ReindexPromote => return None;
      }
      acks := if outcome == Completes then Some(done) else None;
    }

    /** Apply the next eligible operation; None when there is none. */
    method ApplyNext(a: Attempt) returns (done: Option<nat>)
      requires Valid()
      modifies this`log, Stores()
      ensures Valid() && handlers == old(handlers)
      ensures match Select(old(log), a.now)
              case None => done == None && Model() == old(Model())
              case Some(i) => done == Some(old(log)[i].op.opId) && Model() == ApplyAt(cfg, old(Model()), i, a)
    {
      var s := SelectEligible(a.now);
      match s {
        case None => return None;
        case Some(i) =>
          done := ApplyRow(i, a);
      }
    }

    /** The part of `apply_next` after the choice: mark, call the handler, settle. */
    method ApplyRow(i: nat, a: Attempt) returns (done: Option<nat>)
      requires Valid() && i < |log|
      modifies this`log, Stores()
      ensures Valid() && handlers == old(handlers)
      ensures done == Some(old(log)[i].op.opId) && Model() == ApplyAt(cfg, old(Model()), i, a)
    {
      var row := log[i];
      ghost var idx := IndexMap();
      log := log[i := row.(state := InProgress)];
      assert IndexMap() == idx;
      var acks := RunHandler(row.op, a.outcome);
      ghost var after := IndexMap();
      var settled := FailOrFinish(row, acks.Some? && row.op.ids <= acks.value, a.later);
      log := log[i := settled];
      assert IndexMap() == after;
      assert log == old(log)[i := settled];
      return Some(row.op.opId);
    }

    /** `_finish` or `_fail_or_retry`: the row's next state, attempt count and due time. */
    method FailOrFinish(row: OpRow, acked: bool, later: int) returns (r: OpRow)
      ensures r == Settled(cfg, row, acked, later)
      ensures acked ==> r == row.(state := Done)
      ensures !acked && row.attempts + 1 >= cfg.maxAttempts ==> r == row.(state := Failed, attempts := row.attempts + 1)
      ensures !acked && row.attempts + 1 < cfg.maxAttempts ==>
                r == row.(state := PartialFailure, attempts := row.attempts + 1,
                          nextAt := Some(later + cfg.backoffBase * Pow2(row.attempts)))
    {
      if acked {
        return row.(state := Done);
      }
      var attempts := row.attempts + 1;
      if attempts >= cfg.maxAttempts {
        return row.(state := Failed, attempts := attempts);
      }
      var backoff := cfg.backoffBase * Pow2(attempts - 1);
      return row.(state := PartialFailure, attempts := attempts, nextAt := Some(later + backoff));
    }

    /** Apply until nothing is eligible, at most `maxSteps` times. */
    method RunUntilIdle(env: nat -> Attempt, maxSteps: nat) returns (applied: nat)
      requires Valid()
      modifies this`log, Stores()
      ensures Valid() && handlers == old(handlers)
      ensures (Model(), applied) == Drain(cfg, old(Model()), env, 0, maxSteps)
    {
      hide ApplyAt, Select;
      applied := 0;
      while applied < maxSteps
        invariant Valid() && handlers == old(handlers) && applied <= maxSteps
        invariant Drain(cfg, Model(), env, applied, maxSteps - applied) == Drain(cfg, old(Model()), env, 0, maxSteps)
      {
        var done := ApplyNext(env(applied));
        if done.None? {
          break;
        }
        applied := applied + 1;
      }
    }

    /** Put a failed or partly failed operation back in the queue, due at once. */
    method Retry(opId: nat)
      requires Valid()
      modifies this`log
      ensures Valid() && log == Retried(old(log), opId)
      ensures |log| == |old(log)| && forall k :: 0 <= k < |log| ==>
                log[k] == if old(log)[k].op.opId == opId && old(log)[k].state in {PartialFailure, Failed}
                          then old(log)[k].(state := Pending, nextAt := None) else old(log)[k]
    {
      var rows := [];
      for i := 0 to |log|
        invariant log == old(log)
        invariant |rows| == i && forall k :: 0 <= k < i ==> rows[k] == Retried(log, opId)[k]
      {
        if log[i].op.opId == opId && (log[i].state == PartialFailure || log[i].state == Failed) {
          rows := rows + [log[i].(state := Pending, nextAt := None)];
        } else {
          rows := rows + [log[i]];
        }
      }
      assert rows == Retried(log, opId);
      log := rows;
    }

    /** How many operations are neither done nor failed. */
    method PendingCount() returns (n: nat)
      requires Valid()
      ensures n == |set k: nat | k < |log| && log[k].state in {Pending, InProgress, PartialFailure}|
      ensures n == 0 <==> AllFinished(log)
    {
      n := 0;
      for i := 0 to |log|
        invariant n == |UnfinishedIn(log, i)|
      {
        assert UnfinishedIn(log, i + 1) == UnfinishedIn(log, i) + (if Finished(log[i].state) then {} else {i});
        if !Finished(log[i].state) {
          n := n + 1;
        }
      }
      assert UnfinishedIn(log, |log|)
          == set k: nat | k < |log| && log[k].state in {Pending, InProgress, PartialFailure};
      assert UnfinishedIn(log, |log|) == {} <==> AllFinished(log) by {
        assert forall i :: 0 <= i < |log| && !Finished(log[i].state) ==> i in UnfinishedIn(log, |log|);
      }
    }
  }

  /** The positions below `n` that were being applied. */
  function InterruptedIn(log: seq<OpRow>, n: nat): set<nat>
    requires n <= |log|
  {
    set i: nat | i < n && log[i].state == InProgress
  }

  /** The positions below `n` that are not over. */
  function UnfinishedIn(log: seq<OpRow>, n: nat): set<nat>
    requires n <= |log|
  {
    set i: nat | i < n && !Finished(log[i].state)
  }

  /** The three tests of `_blocked` say: some earlier not-done row conflicts. */
  lemma BlockedIsConflict(op: Operation, earlier: seq<OpRow>)
    ensures Blocked(op, earlier) <==> exists e :: e in earlier && Conflicts(e.op, op)
  {
    if earlier != [] && IsDestructive(op.opType) {
      assert earlier[0] in earlier && Conflicts(earlier[0].op, op);
    }
  }
}
