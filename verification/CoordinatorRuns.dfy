/**
 The Write Coordinator as a machine that can be interrupted anywhere: enqueue, begin an
 operation, handler effect, settle, crash, recover, manual retry, in any interleaving and with
 arbitrary clock readings and handler behaviour. The theorems are about every run.
 */
module CoordinatorRuns {
  import opened Records
  import opened VectorStore
  import opened OpLog

  /** The operation in flight: chosen, and perhaps already returned with `acked`. */
  datatype Flight = Flight(pos: nat, returned: Option<bool>)

  /** `effects` lists, in real order, the position of every handler effect, repeats included. */
  datatype Machine = Machine(
    log: seq<OpRow>,
    idx: Indexes,
    up: bool,
    flight: Option<Flight>,
    effects: seq<nat>,
    waited: seq<nat>,
    retried: set<nat>)

  datatype Event =
    | Enqueue(op: Operation)
    | Begin(now: int)
    | Handle(effect: bool, acked: bool)
    | Settle(later: int)
    | Crash
    | Recover
    | Retry(opId: nat)

  function Init(idx: Indexes): (m: Machine)
    ensures Shape(m)
  {
    Machine([], idx, true, None, [], [], {})
  }

  /** One event; an event that is not enabled leaves the machine as it is. */
  function Step(cfg: Config, m: Machine, e: Event): (r: Machine)
    requires Shape(m)
    ensures Shape(r)
  {
    match e
    case Enqueue(op) =>
      if !m.up then m
      else
        var log := Enqueued(m.log, op);
        m.(log := log, waited := if |log| > |m.log| then m.waited + [0] else m.waited)
    case Begin(now) =>
      if !m.up || m.flight.Some? then m
      else (
        match Select(m.log, now)
        case None => m
        case Some(i) => m.(log := m.log[i := m.log[i].(state := InProgress)], flight := Some(Flight(i, None))))
    case Handle(effect, acked) =>
      if !m.up || m.flight.None? || m.flight.value.returned.Some? then m
      else
        var i := m.flight.value.pos;
        m.(idx := if effect then Applied(m.log[i].op, m.idx) else m.idx,
           effects := if effect then m.effects + [i] else m.effects,
           flight := Some(Flight(i, Some(acked))))
    case Settle(later) =>
      if !m.up || m.flight.None? || m.flight.value.returned.None? then m
      else
        var i := m.flight.value.pos;
        var row := Settled(cfg, m.log[i], m.flight.value.returned.value, later);
        m.(log := m.log[i := row], flight := None,
           waited := m.waited[i := m.waited[i] +
             if row.state == PartialFailure then Backoff(cfg, row.attempts) else 0])
    case Crash => m.(up := false, flight := None)
    case Recover => if m.up then m else m.(log := Recovered(m.log), up := true)
    case Retry(opId) => if !m.up then m else m.(log := Retried(m.log, opId), retried := m.retried + {opId})
  }

  /** A whole run, event by event. */
  function Run(cfg: Config, m: Machine, evs: seq<Event>): (r: Machine)
    requires Shape(m)
    ensures Shape(r)
  {
    if evs == [] then m
    else Step(cfg, Run(cfg, m, evs[..|evs| - 1]), evs[|evs| - 1])
  }

  predicate InLog(effects: seq<nat>, log: seq<OpRow>) {
    forall p :: 0 <= p < |effects| ==> effects[p] < |log|
  }

  /** At most one operation is in progress, and it is the one in flight. */
  predicate Shape(m: Machine) {
    && |m.waited| == |m.log|
    && InLog(m.effects, m.log)
    && (forall i, j :: 0 <= i < j < |m.log| ==> m.log[i].state != InProgress || m.log[j].state != InProgress)
    && (m.flight.Some? ==>
          && m.up
          && m.flight.value.pos < |m.log|
          && m.log[m.flight.value.pos].state == InProgress)
    && (m.up && m.flight.None? ==> NoneInProgress(m.log))
  }

  // ---- what the theorems say ----

  predicate UniqueIds(log: seq<OpRow>) {
    forall i, j :: 0 <= i < j < |log| ==> log[i].op.opId != log[j].op.opId
  }

  /** An upsert touches no id it does not declare. */
  predicate WellFormed(op: Operation) {
    PayloadIds(op.payload) <= op.ids
  }

  /** Started as far as ordering can see: in progress now, or its effect is in the index. */
  predicate Began(m: Machine, j: nat)
    requires j < |m.log|
  {
    m.log[j].state == InProgress || j in m.effects
  }

  /** Two operations on common ids of one store: the order of their effects matters. */
  predicate Clash(a: Operation, b: Operation) {
    a.target == b.target && !(a.ids !! b.ids)
  }

  /**
   The pairs a run keeps in log order: strictly every pair the scheduler holds apart, or, if
   retries are free to break the barriers of other stores, at least the clashing ones.
   */
  predicate Tied(strict: bool, a: Operation, b: Operation) {
    if strict then Conflicts(a, b) else Clash(a, b)
  }

  /** No operation began before every earlier operation it is tied to was over. */
  ghost predicate Ordered(m: Machine, strict: bool) {
    forall i, j :: 0 <= i < j < |m.log| && Tied(strict, m.log[i].op, m.log[j].op) && Began(m, j)
      ==> Finished(m.log[i].state)
  }

  /** Effects of tied operations happened in log order, repeats included. */
  ghost predicate Serialized(m: Machine, strict: bool)
    requires Shape(m)
  {
    forall p, q :: 0 <= p < q < |m.effects| && Tied(strict, m.log[m.effects[p]].op, m.log[m.effects[q]].op)
      ==> m.effects[p] <= m.effects[q]
  }

  /** Log order: apply, in `seq` order and once each, the operations in `took`. */
  ghost function Replay(log: seq<OpRow>, n: nat, took: seq<nat>, idx: Indexes): Indexes
    requires n <= |log|
  {
    if n == 0 then idx
    else
      var before := Replay(log, n - 1, took, idx);
      if n - 1 in took then Applied(log[n - 1].op, before) else before
  }

  /** Real order: apply every effect that happened, as often as it happened. */
  ghost function Happened(log: seq<OpRow>, effects: seq<nat>, idx: Indexes): Indexes
    requires InLog(effects, log)
  {
    if effects == [] then idx
    else Applied(log[effects[|effects| - 1]].op, Happened(log, effects[..|effects| - 1], idx))
  }

  ghost predicate Inv(m: Machine, strict: bool, idx0: Indexes)
    requires Shape(m)
  {
    && UniqueIds(m.log)
    && (forall i :: 0 <= i < |m.log| ==> WellFormed(m.log[i].op))
    && Ordered(m, strict)
    && Serialized(m, strict)
    && m.idx == Replay(m.log, |m.log|, m.effects, idx0)
    && m.idx == Happened(m.log, m.effects, idx0)
  }

  /**
   What a caller has to respect: declared ids, and never reviving a FAILED operation behind
   the back of a later operation that it is tied to and that has already begun.
   */
  ghost predicate Safe(m: Machine, strict: bool, e: Event) {
    match e
    case Enqueue(op) => WellFormed(op)
    case Retry(opId) => SafeRetry(m, strict, opId)
    case _ => true
  }

  ghost predicate SafeRetry(m: Machine, strict: bool, opId: nat) {
    forall i, j :: 0 <= i < j < |m.log| && m.log[i].op.opId == opId && m.log[i].state == Failed ==>
      Tied(strict, m.log[i].op, m.log[j].op) ==> !Began(m, j)
  }

  ghost predicate SafeRun(cfg: Config, m: Machine, strict: bool, evs: seq<Event>)
    requires Shape(m)
  {
    evs != [] ==>
      && SafeRun(cfg, m, strict, evs[..|evs| - 1])
      && Safe(Run(cfg, m, evs[..|evs| - 1]), strict, evs[|evs| - 1])
  }

  /**
   A crash loses only what was in memory: after recovery the interrupted operation is pending
   again with the attempts it had, whether or not its handler took effect, and can be begun anew;
   every other row and the indexes are as the crash found them.
   */
  lemma CrashThenRecover(cfg: Config, m: Machine)
    requires Shape(m) && m.up
    ensures var down := Step(cfg, m, Crash);
            var r := Step(cfg, down, Recover);
            && (forall e :: e != Recover ==> Step(cfg, down, e) == down)
            && r.up && r.flight == None && r.idx == m.idx && r.effects == m.effects
            && NoneInProgress(r.log)
            && r.log == if m.flight.None? then m.log
                        else m.log[m.flight.value.pos := m.log[m.flight.value.pos].(state := Pending)]
  {
    assert Recovered(m.log) == if m.flight.None? then m.log
      else m.log[m.flight.value.pos := m.log[m.flight.value.pos].(state := Pending)];
  }

  // ---- algebra of effects ----

  /** Operations that do not clash commute on every index, removals included. */
  lemma AppliedCommute(a: Operation, b: Operation, idx: Indexes)
    requires WellFormed(a) && WellFormed(b) && !Clash(a, b)
    ensures Applied(a, Applied(b, idx)) == Applied(b, Applied(a, idx))
  {
    if Applicable(a, idx.Keys) && Applicable(b, idx.Keys) && a.target == b.target {
      EffectsCommute(a, b, idx[a.target]);
    }
  }

  /** What an applicable operation does to the one store it names. */
  function Effect(op: Operation, ix: Index): Index {
    if op.opType == UpsertIndex then Upserted(ix, op.payload) else Removed(ix, op.ids)
  }

  lemma EffectsCommute(a: Operation, b: Operation, ix: Index)
    requires WellFormed(a) && WellFormed(b) && a.ids !! b.ids
    ensures Effect(a, Effect(b, ix)) == Effect(b, Effect(a, ix))
  {
    if a.opType == UpsertIndex && b.opType == UpsertIndex {
      UpsertsCommute(ix, a.payload, b.payload);
    } else if a.opType == UpsertIndex {
      UpsertRemoveCommute(ix, a.payload, b.ids);
    } else if b.opType == UpsertIndex {
      UpsertRemoveCommute(ix, b.payload, a.ids);
    } else {
      assert ix.deleted + a.ids + b.ids == ix.deleted + b.ids + a.ids;
    }
  }

  /** Every handler effect is idempotent. */
  lemma AppliedTwice(a: Operation, idx: Indexes)
    ensures Applied(a, Applied(a, idx)) == Applied(a, idx)
  {
    if Applicable(a, idx.Keys) {
      if a.opType == UpsertIndex {
        UpsertReplay(idx[a.target], a.payload);
      } else {
        var ix := idx[a.target];
        assert Removed(Removed(ix, a.ids), a.ids) == Removed(ix, a.ids);
      }
    }
  }

  lemma {:induction false} ReplayAgrees(
    log: seq<OpRow>, log': seq<OpRow>, n: nat, took: seq<nat>, took': seq<nat>, idx: Indexes)
    requires n <= |log| && n <= |log'|
    requires forall k :: 0 <= k < n ==> log[k].op == log'[k].op && (k in took <==> k in took')
    ensures Replay(log, n, took, idx) == Replay(log', n, took', idx)
  {
    if n > 0 {
      ReplayAgrees(log, log', n - 1, took, took', idx);
    }
  }

  lemma {:induction false} HappenedAgrees(log: seq<OpRow>, log': seq<OpRow>, effects: seq<nat>, idx: Indexes)
    requires InLog(effects, log) && InLog(effects, log')
    requires forall k :: 0 <= k < |log| && k < |log'| ==> log[k].op == log'[k].op
    ensures Happened(log, effects, idx) == Happened(log', effects, idx)
  {
    if effects != [] {
      HappenedAgrees(log, log', effects[..|effects| - 1], idx);
    }
  }

  /**
   An effect that happens now lands where log order puts it, first time or again, as long as
   no later operation it clashes with took effect already.
   */
  lemma {:induction false} LateEffect(log: seq<OpRow>, n: nat, took: seq<nat>, j: nat, idx: Indexes)
    requires j < n <= |log|
    requires forall k :: 0 <= k < n ==> WellFormed(log[k].op)
    requires forall k :: j < k < n && k in took ==> !Clash(log[j].op, log[k].op)
    ensures Replay(log, n, took + [j], idx) == Applied(log[j].op, Replay(log, n, took, idx))
  {
    var op := log[n - 1].op;
    var before := Replay(log, n - 1, took, idx);
    if n - 1 == j {
      ReplayAgrees(log, log, n - 1, took, took + [j], idx);
      AppliedTwice(op, before);
    } else {
      LateEffect(log, n - 1, took, j, idx);
      assert n - 1 in took + [j] <==> n - 1 in took;
      if n - 1 in took {
        AppliedCommute(log[j].op, op, before);
      }
    }
  }

  // ---- the invariant, event by event ----

  predicate SameOps(a: seq<OpRow>, b: seq<OpRow>) {
    |a| == |b| && forall i :: 0 <= i < |a| ==> a[i].op == b[i].op
  }

  /** Events that only change row states keep everything but, possibly, the order. */
  lemma StateChangeKeepsInv(m: Machine, m': Machine, strict: bool, idx0: Indexes)
    requires Shape(m) && Shape(m') && Inv(m, strict, idx0)
    requires SameOps(m.log, m'.log) && m'.idx == m.idx && m'.effects == m.effects
    requires Ordered(m', strict)
    ensures Inv(m', strict, idx0)
  {
    ReplayAgrees(m.log, m'.log, |m.log|, m.effects, m.effects, idx0);
    HappenedAgrees(m.log, m'.log, m.effects, idx0);
    assert forall i :: 0 <= i < |m.log| ==> m'.log[i].op == m.log[i].op;
  }

  lemma EnqueueKeepsInv(cfg: Config, m: Machine, strict: bool, op: Operation, idx0: Indexes)
    requires Shape(m) && Inv(m, strict, idx0) && WellFormed(op)
    ensures Inv(Step(cfg, m, Enqueue(op)), strict, idx0)
  {
    if m.up && Enqueued(m.log, op) != m.log {
      EnqueueKeepsUnique(m.log, op);
      AppendKeepsInv(m, Step(cfg, m, Enqueue(op)), strict, idx0);
    }
  }

  /** Appending a pending operation the log does not have yet. */
  lemma AppendKeepsInv(m: Machine, m': Machine, strict: bool, idx0: Indexes)
    requires Shape(m) && Shape(m') && Inv(m, strict, idx0)
    requires |m'.log| == |m.log| + 1 && m'.log[..|m.log|] == m.log
    requires m'.log[|m.log|].state == Pending && WellFormed(m'.log[|m.log|].op) && UniqueIds(m'.log)
    requires m'.idx == m.idx && m'.effects == m.effects
    ensures Inv(m', strict, idx0)
  {
    hide Happened, Tied;
    var n := |m.log|;
    assert forall i :: 0 <= i < n ==> m'.log[i] == m'.log[..n][i] == m.log[i];
    assert n !in m.effects;
    ReplayAgrees(m.log, m'.log, n, m.effects, m.effects, idx0);
    HappenedAgrees(m.log, m'.log, m.effects, idx0);
    forall j | 0 <= j < n + 1 && Began(m', j)
      ensures j < n && Began(m, j)
    {
    }
  }

  lemma EnqueueKeepsUnique(log: seq<OpRow>, op: Operation)
    requires UniqueIds(log)
    ensures UniqueIds(Enqueued(log, op))
  {
    if Enqueued(log, op) != log {
      assert forall i :: 0 <= i < |log| ==> log[i] in log;
    }
  }

  lemma TiedConflicts(strict: bool, a: Operation, b: Operation)
    ensures Clash(a, b) ==> Tied(strict, a, b)
    ensures Tied(strict, a, b) ==> Conflicts(a, b)
  {
  }

  lemma BeginKeepsInv(cfg: Config, m: Machine, strict: bool, now: int, idx0: Indexes)
    requires Shape(m) && Inv(m, strict, idx0)
    ensures Inv(Step(cfg, m, Begin(now)), strict, idx0)
  {
    hide Conflicts, Tied;
    var m' := Step(cfg, m, Begin(now));
    if m' != m {
      var j := m'.flight.value.pos;
      forall i | 0 <= i < j && Tied(strict, m.log[i].op, m.log[j].op)
        ensures Finished(m.log[i].state)
      {
        TiedConflicts(strict, m.log[i].op, m.log[j].op);
      }
      assert Ordered(m', strict);
      StateChangeKeepsInv(m, m', strict, idx0);
    }
  }

  lemma HandleKeepsInv(cfg: Config, m: Machine, strict: bool, effect: bool, acked: bool, idx0: Indexes)
    requires Shape(m) && Inv(m, strict, idx0)
    ensures Inv(Step(cfg, m, Handle(effect, acked)), strict, idx0)
  {
    hide Applied, Tied, Clash;
    var m' := Step(cfg, m, Handle(effect, acked));
    if m'.effects != m.effects {
      var j := m.flight.value.pos;
      LaterTiedWait(m, strict, j);
      LateEffect(m.log, |m.log|, m.effects, j, idx0);
      assert m'.effects[..|m'.effects| - 1] == m.effects;
      assert Ordered(m', strict) by {
        assert forall k :: 0 <= k < |m.log| ==> Began(m', k) == Began(m, k);
      }
      SerializedExtends(m, strict, j);
      assert Serialized(m', strict);
    }
  }

  /** Nothing that is tied to an unfinished operation began behind it. */
  lemma LaterTiedWait(m: Machine, strict: bool, j: nat)
    requires Shape(m) && Ordered(m, strict) && j < |m.log| && !Finished(m.log[j].state)
    ensures forall k :: j < k < |m.log| && k in m.effects ==>
              !Tied(strict, m.log[j].op, m.log[k].op) && !Clash(m.log[j].op, m.log[k].op)
  {
    forall k | j < k < |m.log| && k in m.effects
      ensures !Tied(strict, m.log[j].op, m.log[k].op) && !Clash(m.log[j].op, m.log[k].op)
    {
      assert Began(m, k);
      TiedConflicts(strict, m.log[j].op, m.log[k].op);
    }
  }

  lemma SerializedExtends(m: Machine, strict: bool, j: nat)
    requires Shape(m) && Serialized(m, strict) && j < |m.log|
    requires forall k :: j < k < |m.log| && k in m.effects ==> !Tied(strict, m.log[j].op, m.log[k].op)
    ensures var effects := m.effects + [j];
            forall p, q :: 0 <= p < q < |effects| && Tied(strict, m.log[effects[p]].op, m.log[effects[q]].op)
              ==> effects[p] <= effects[q]
  {
    hide Conflicts, Clash;
    assert forall p :: 0 <= p < |m.effects| ==> m.effects[p] in m.effects;
    TiedSymmetric(strict);
  }

  lemma TiedSymmetric(strict: bool)
    ensures forall a, b :: Tied(strict, a, b) == Tied(strict, b, a)
  {
  }

  lemma SettleKeepsInv(cfg: Config, m: Machine, strict: bool, later: int, idx0: Indexes)
    requires Shape(m) && Inv(m, strict, idx0)
    ensures Inv(Step(cfg, m, Settle(later)), strict, idx0)
  {
    hide Tied;
    var m' := Step(cfg, m, Settle(later));
    if m' != m {
      assert Ordered(m', strict);
      StateChangeKeepsInv(m, m', strict, idx0);
    }
  }

  lemma RecoverKeepsInv(cfg: Config, m: Machine, strict: bool, idx0: Indexes)
    requires Shape(m) && Inv(m, strict, idx0)
    ensures Inv(Step(cfg, m, Recover), strict, idx0)
  {
    hide Tied;
    var m' := Step(cfg, m, Recover);
    assert Ordered(m', strict);
    StateChangeKeepsInv(m, m', strict, idx0);
  }

  /** A retry keeps the order of tied operations exactly when it is safe. */
  lemma RetryKeepsOrderIff(cfg: Config, m: Machine, strict: bool, opId: nat)
    requires Shape(m) && m.up && Ordered(m, strict)
    ensures Ordered(Step(cfg, m, Retry(opId)), strict) <==> SafeRetry(m, strict, opId)
  {
    hide Tied, Shape;
    var m' := Step(cfg, m, Retry(opId));
    assert forall i :: 0 <= i < |m.log| ==> m'.log[i].op == m.log[i].op && (Began(m', i) <==> Began(m, i));
    if !SafeRetry(m, strict, opId) {
      var i, j :| 0 <= i < j < |m.log| && m.log[i].op.opId == opId && m.log[i].state == Failed
        && Tied(strict, m.log[i].op, m.log[j].op) && Began(m, j);
      assert !Finished(m'.log[i].state) && Tied(strict, m'.log[i].op, m'.log[j].op) && Began(m', j);
    }
  }

  /** Every safe event keeps the invariant, in the strict reading and in the lenient one. */
  lemma StepKeepsInv(cfg: Config, m: Machine, strict: bool, e: Event, idx0: Indexes)
    requires Shape(m) && Inv(m, strict, idx0) && Safe(m, strict, e)
    ensures Inv(Step(cfg, m, e), strict, idx0)
  {
    hide Shape;
    match e
    case Enqueue(op) => EnqueueKeepsInv(cfg, m, strict, op, idx0);
    case Begin(now) => BeginKeepsInv(cfg, m, strict, now, idx0);
    case Handle(effect, acked) => HandleKeepsInv(cfg, m, strict, effect, acked, idx0);
    case Settle(later) => SettleKeepsInv(cfg, m, strict, later, idx0);
    case Crash =>
      StateChangeKeepsInv(m, Step(cfg, m, e), strict, idx0);
    case Recover => RecoverKeepsInv(cfg, m, strict, idx0);
    case Retry(opId) =>
      if m.up {
        RetryKeepsOrderIff(cfg, m, strict, opId);
        StateChangeKeepsInv(m, Step(cfg, m, e), strict, idx0);
      }
  }

  lemma {:induction false} RunKeepsInv(cfg: Config, strict: bool, idx0: Indexes, evs: seq<Event>)
    requires SafeRun(cfg, Init(idx0), strict, evs)
    ensures Inv(Run(cfg, Init(idx0), evs), strict, idx0)
  {
    if evs == [] {
    } else {
      RunKeepsInv(cfg, strict, idx0, evs[..|evs| - 1]);
      StepKeepsInv(cfg, Run(cfg, Init(idx0), evs[..|evs| - 1]), strict, evs[|evs| - 1], idx0);
    }
  }

  /** Respecting the barriers of every store is respecting those of each one. */
  lemma {:induction false} StrictIsLenient(cfg: Config, m: Machine, strict: bool, evs: seq<Event>)
    requires Shape(m) && SafeRun(cfg, m, strict, evs)
    ensures SafeRun(cfg, m, false, evs)
  {
    hide Run, Shape, Step;
    if evs != [] {
      StrictIsLenient(cfg, m, strict, evs[..|evs| - 1]);
    }
  }

  // ---- theorems over whole runs ----

  /** Some safe run from the empty log and the indexes `idx0` leads to `m`. */
  ghost predicate Reachable(cfg: Config, strict: bool, idx0: Indexes, m: Machine): (r: bool)
    ensures r ==> Shape(m)
  {
    exists evs :: SafeRun(cfg, Init(idx0), strict, evs) && Run(cfg, Init(idx0), evs) == m
  }

  lemma ReachableInv(cfg: Config, strict: bool, idx0: Indexes, m: Machine)
    requires Reachable(cfg, strict, idx0, m)
    ensures Inv(m, strict, idx0)
  {
    var evs :| SafeRun(cfg, Init(idx0), strict, evs) && Run(cfg, Init(idx0), evs) == m;
    RunKeepsInv(cfg, strict, idx0, evs);
  }

  /**
   Log-order equivalence. In every reachable state the indexes hold what applying, in log
   order and once each, the operations that took effect would leave, whatever overtook
   whatever in backoff, however often a crash made an operation run again, and whichever
   FAILED operations were revived behind later ones they do not clash with.
   */
  lemma LogOrderEquivalence(cfg: Config, strict: bool, idx0: Indexes, m: Machine)
    requires Reachable(cfg, strict, idx0, m)
    ensures m.idx == Replay(m.log, |m.log|, m.effects, idx0)
  {
    ReachableInv(cfg, strict, idx0, m);
  }

  /** What the replay is equal to: every effect that really happened, in the order it happened. */
  lemma HistoryEqualsReplay(cfg: Config, strict: bool, idx0: Indexes, m: Machine)
    requires Reachable(cfg, strict, idx0, m)
    ensures Happened(m.log, m.effects, idx0) == Replay(m.log, |m.log|, m.effects, idx0)
  {
    ReachableInv(cfg, strict, idx0, m);
  }

  /** Between two effects of one operation no operation tied to it takes effect. */
  lemma CrashReplayUndisturbed(cfg: Config, strict: bool, idx0: Indexes, m: Machine, p: nat, k: nat, q: nat)
    requires Reachable(cfg, strict, idx0, m)
    requires p < k < q < |m.effects| && m.effects[p] == m.effects[q] != m.effects[k]
    ensures !Tied(strict, m.log[m.effects[p]].op, m.log[m.effects[k]].op)
  {
    ReachableInv(cfg, strict, idx0, m);
    hide Conflicts, Clash;
    TiedSymmetric(strict);
  }

  /**
   Single writer: at most one operation is in progress; while it is, no earlier unfinished
   operation shares an id with it, and if either of the two is no upsert there is none at all.
   */
  lemma SingleWriterOrder(cfg: Config, idx0: Indexes, m: Machine, j: nat)
    requires Reachable(cfg, true, idx0, m) && j < |m.log| && m.log[j].state == InProgress
    ensures UniqueIds(m.log)
    ensures forall i :: 0 <= i < |m.log| && m.log[i].state == InProgress ==> i == j
    ensures forall i :: 0 <= i < j && m.log[i].state != Done && m.log[i].state != Failed ==>
              && m.log[i].op.opType == UpsertIndex
              && m.log[j].op.opType == UpsertIndex
              && m.log[i].op.ids !! m.log[j].op.ids
  {
    ReachableInv(cfg, true, idx0, m);
    assert Began(m, j);
  }

  // ---- acknowledged operations ----

  /** A handler that acknowledges only what it did. */
  predicate Honest(evs: seq<Event>) {
    forall e :: e in evs && e.Handle? && e.acked ==> e.effect
  }

  ghost predicate DoneTookEffect(m: Machine)
    requires Shape(m)
  {
    && (forall i :: 0 <= i < |m.log| && m.log[i].state == Done ==> i in m.effects)
    && (m.flight.Some? && m.flight.value.returned == Some(true) ==> m.flight.value.pos in m.effects)
  }

  lemma {:induction false} HonestRunKeepsDone(cfg: Config, idx0: Indexes, evs: seq<Event>)
    requires Honest(evs)
    ensures DoneTookEffect(Run(cfg, Init(idx0), evs))
  {
    if evs == [] {
    } else {
      var before := evs[..|evs| - 1];
      HonestRunKeepsDone(cfg, idx0, before);
      assert evs[|evs| - 1] in evs;
      StepKeepsDone(cfg, Run(cfg, Init(idx0), before), evs[|evs| - 1]);
    }
  }

  lemma StepKeepsDone(cfg: Config, m: Machine, e: Event)
    requires Shape(m) && DoneTookEffect(m)
    requires e.Handle? && e.acked ==> e.effect
    ensures DoneTookEffect(Step(cfg, m, e))
  {
    var m' := Step(cfg, m, e);
    assert m'.effects == m.effects || m'.effects == m.effects + [m.flight.value.pos];
    assert forall i :: 0 <= i < |m'.log| && m'.log[i].state == Done ==>
      i < |m.log| && (m.log[i].state == Done || m.flight == Some(Flight(i, Some(true))));
  }

  ghost function All(n: nat): seq<nat> {
    if n == 0 then [] else All(n - 1) + [n - 1]
  }

  lemma {:induction false} AllHas(n: nat, k: nat)
    ensures k in All(n) <==> k < n
  {
    if n > 0 {
      AllHas(n - 1, k);
    }
  }

  /** Once every operation is acknowledged, the indexes are the whole log applied in order. */
  lemma DrainedRunAppliesWholeLog(cfg: Config, strict: bool, idx0: Indexes, evs: seq<Event>)
    requires SafeRun(cfg, Init(idx0), strict, evs) && Honest(evs)
    requires forall r :: r in Run(cfg, Init(idx0), evs).log ==> r.state == Done
    ensures var m := Run(cfg, Init(idx0), evs);
            m.idx == Replay(m.log, |m.log|, All(|m.log|), idx0) == AppliedFrom(m.log, 0, idx0)
  {
    var m := Run(cfg, Init(idx0), evs);
    RunKeepsInv(cfg, strict, idx0, evs);
    HonestRunKeepsDone(cfg, idx0, evs);
    forall k | 0 <= k < |m.log|
      ensures k in m.effects && k in All(|m.log|)
    {
      assert m.log[k] in m.log;
      AllHas(|m.log|, k);
    }
    ReplayAgrees(m.log, m.log, |m.log|, m.effects, All(|m.log|), idx0);
    ReplayIsAppliedFrom(m.log, |m.log|, idx0);
  }

  lemma {:induction false} ReplayIsAppliedFrom(log: seq<OpRow>, n: nat, idx: Indexes)
    requires n <= |log|
    ensures AppliedFrom(log, n, Replay(log, n, All(|log|), idx)) == AppliedFrom(log, 0, idx)
  {
    if n > 0 {
      AllHas(|log|, n - 1);
      ReplayIsAppliedFrom(log, n - 1, idx);
    }
  }

  // ---- bounded backoff ----

  ghost predicate BackoffBounded(cfg: Config, m: Machine)
    requires Shape(m)
  {
    forall i :: 0 <= i < |m.log| && m.log[i].op.opId !in m.retried ==>
      var row := m.log[i];
      if row.state == Failed then
        row.attempts == AttemptCap(cfg) && m.waited[i] == cfg.backoffBase * (Pow2(row.attempts - 1) - 1)
      else
        row.attempts < AttemptCap(cfg) && m.waited[i] == cfg.backoffBase * (Pow2(row.attempts) - 1)
  }

  function AttemptCap(cfg: Config): nat {
    if cfg.maxAttempts > 1 then cfg.maxAttempts else 1
  }

  lemma BackoffGrows(base: nat, attempts: nat)
    requires attempts > 0
    ensures base * (Pow2(attempts - 1) - 1) + base * Pow2(attempts - 1) == base * (Pow2(attempts) - 1)
  {
    var p := Pow2(attempts - 1);
    assert Pow2(attempts) == 2 * p;
    assert base * (p - 1) + base * p == base * (2 * p - 1);
  }

  lemma {:induction false} Pow2Grows(a: nat, b: nat)
    requires a <= b
    ensures Pow2(a) <= Pow2(b)
    decreases b
  {
    if a < b {
      Pow2Grows(a, b - 1);
    }
  }

  lemma {:induction false} RunKeepsBackoffBounded(cfg: Config, idx0: Indexes, evs: seq<Event>)
    ensures BackoffBounded(cfg, Run(cfg, Init(idx0), evs))
  {
    if evs == [] {
    } else {
      RunKeepsBackoffBounded(cfg, idx0, evs[..|evs| - 1]);
      var m, e := Run(cfg, Init(idx0), evs[..|evs| - 1]), evs[|evs| - 1];
      StepKeepsBackoffBounded(cfg, m, e);
    }
  }

  lemma StepKeepsBackoffBounded(cfg: Config, m: Machine, e: Event)
    requires Shape(m) && BackoffBounded(cfg, m)
    ensures BackoffBounded(cfg, Step(cfg, m, e))
  {
    hide Conflicts;
    var m' := Step(cfg, m, e);
    if e.Settle? && m' != m {
      var i := m.flight.value.pos;
      BackoffGrows(cfg.backoffBase, m.log[i].attempts + 1);
      forall k | 0 <= k < |m.log| && k != i
        ensures m'.log[k] == m.log[k] && m'.waited[k] == m.waited[k]
      {
      }
    } else if e.Enqueue? && m'.log != m.log {
      assert Pow2(0) == 1;
      assert cfg.backoffBase * (Pow2(0) - 1) == 0;
    }
  }

  lemma Scale(base: nat, a: nat, b: nat)
    requires a <= b
    ensures base * a <= base * b
  {
  }

  /**
   An operation nobody retries by hand is attempted, and made to wait, only so often; and it is
   given up exactly at its last attempt, not before.
   */
  lemma TotalBackoffBound(cfg: Config, idx0: Indexes, evs: seq<Event>, i: nat, m: Machine)
    requires m == Run(cfg, Init(idx0), evs) && i < |m.log| && m.log[i].op.opId !in m.retried
    ensures var cap := if cfg.maxAttempts > 1 then cfg.maxAttempts else 1;
            && m.log[i].attempts <= cap
            && (m.log[i].state == Failed <==> m.log[i].attempts == cap)
            && m.waited[i] <= cfg.backoffBase * (Pow2(cap - 1) - 1)
  {
    RunKeepsBackoffBounded(cfg, idx0, evs);
    BoundAt(cfg, m, i);
  }

  lemma BoundAt(cfg: Config, m: Machine, i: nat)
    requires Shape(m) && BackoffBounded(cfg, m)
    requires i < |m.log| && m.log[i].op.opId !in m.retried
    ensures m.log[i].attempts <= AttemptCap(cfg)
    ensures m.log[i].state == Failed <==> m.log[i].attempts == AttemptCap(cfg)
    ensures m.waited[i] <= cfg.backoffBase * (Pow2(AttemptCap(cfg) - 1) - 1)
  {
    var waits := if m.log[i].state == Failed then m.log[i].attempts - 1 else m.log[i].attempts;
    Pow2Grows(waits, AttemptCap(cfg) - 1);
    Scale(cfg.backoffBase, Pow2(waits) - 1, Pow2(AttemptCap(cfg) - 1) - 1);
  }

  /** No retry of this id, and no clock reading at or past `due`. */
  predicate Before(evs: seq<Event>, opId: nat, due: int) {
    forall e :: e in evs ==> (e.Retry? ==> e.opId != opId) && (e.Begin? ==> e.now < due)
  }

  /** Failed for good, or failed and due at `due`. */
  predicate Parked(row: OpRow, due: int) {
    row.state == Failed || (row.state == PartialFailure && row.nextAt == Some(due))
  }

  lemma {:induction false} ParkedStays(cfg: Config, m: Machine, evs: seq<Event>, i: nat, due: int)
    requires Shape(m) && i < |m.log| && Parked(m.log[i], due) && Before(evs, m.log[i].op.opId, due)
    ensures i < |Run(cfg, m, evs).log| && Run(cfg, m, evs).log[i] == m.log[i]
  {
    if evs == [] {
    } else {
      ParkedStays(cfg, m, evs[..|evs| - 1], i, due);
      assert evs[|evs| - 1] in evs;
      StepKeepsParked(cfg, Run(cfg, m, evs[..|evs| - 1]), evs[|evs| - 1], i, due);
    }
  }

  lemma StepKeepsParked(cfg: Config, m: Machine, e: Event, i: nat, due: int)
    requires Shape(m) && i < |m.log| && Parked(m.log[i], due) && Before([e], m.log[i].op.opId, due)
    ensures i < |Step(cfg, m, e).log| && Step(cfg, m, e).log[i] == m.log[i]
  {
    hide Conflicts;
    assert e in [e];
  }

  /**
   Backoff over whole runs: after its n-th failed attempt, whatever else happens short of a
   manual retry of that id, the operation stays out of flight and takes no effect until
   base * 2^(n-1) have passed.
   */
  lemma {:induction false} BackoffOverRuns(cfg: Config, m: Machine, i: nat, later: int, evs: seq<Event>)
    requires Shape(m) && m.flight == Some(Flight(i, Some(false)))
    requires Before(evs, m.log[i].op.opId, later + cfg.backoffBase * Pow2(m.log[i].attempts))
    ensures var r := Run(cfg, Step(cfg, m, Settle(later)), evs);
            && i < |r.log| && r.log[i] == Settled(cfg, m.log[i], false, later)
            && (r.flight.Some? ==> r.flight.value.pos != i)
  {
    ParkedStays(cfg, Step(cfg, m, Settle(later)), evs, i, later + cfg.backoffBase * Pow2(m.log[i].attempts));
  }

  // ---- one undisturbed `apply_next` is three events ----

  /** `apply_next` as the coordinator runs it is begin, handler, settle of this machine. */
  lemma ApplyNextIsThreeEvents(cfg: Config, m: Machine, a: Attempt)
    requires Shape(m) && m.up && m.flight.None? && Select(m.log, a.now).Some?
    ensures var i := Select(m.log, a.now).value;
            var acked := Acknowledged(m.log[i].op, m.idx.Keys, a.outcome);
            var after := Step(cfg, Step(cfg, Step(cfg, m, Begin(a.now)),
                           Handle(a.outcome != RaiseBefore, acked)), Settle(a.later));
            && Coord(after.log, after.idx) == ApplyAt(cfg, Coord(m.log, m.idx), i, a)
            && after.up && after.flight.None?
            && (acked ==> a.outcome != RaiseBefore)
  {
    var i := Select(m.log, a.now).value;
    var row := m.log[i];
    assert m.log[i := row.(state := InProgress)][i].op == row.op;
    var settled := Settled(cfg, row, Acknowledged(row.op, m.idx.Keys, a.outcome), a.later);
    assert m.log[i := row.(state := InProgress)][i := settled] == m.log[i := settled];
  }

  /** The three events of one attempt. */
  function Events(m: Machine, i: nat, a: Attempt): seq<Event>
    requires i < |m.log|
  {
    [Begin(a.now), Handle(a.outcome != RaiseBefore, Acknowledged(m.log[i].op, m.idx.Keys, a.outcome)), Settle(a.later)]
  }

  lemma {:induction false} RunConcat(cfg: Config, m: Machine, a: seq<Event>, b: seq<Event>)
    requires Shape(m)
    ensures Run(cfg, m, a + b) == Run(cfg, Run(cfg, m, a), b)
  {
    hide Step, Shape;
    if b == [] {
      assert a + b == a;
    } else {
      RunConcat(cfg, m, a, b[..|b| - 1]);
      assert (a + b)[..|a + b| - 1] == a + b[..|b| - 1];
    }
  }

  lemma RunSnoc(cfg: Config, m: Machine, evs: seq<Event>, e: Event)
    requires Shape(m)
    ensures Run(cfg, m, evs + [e]) == Step(cfg, Run(cfg, m, evs), e)
  {
    hide Step, Shape;
    assert (evs + [e])[..|evs|] == evs;
  }

  /** One `apply_next` as a run. */
  lemma AttemptIsRun(cfg: Config, m: Machine, a: Attempt)
    requires Shape(m) && m.up && m.flight.None? && Select(m.log, a.now).Some?
    ensures var i := Select(m.log, a.now).value;
            var after := Run(cfg, m, Events(m, i, a));
            && Coord(after.log, after.idx) == ApplyAt(cfg, Coord(m.log, m.idx), i, a)
            && after.up && after.flight.None?
            && Honest(Events(m, i, a))
  {
    ApplyNextIsThreeEvents(cfg, m, a);
    hide Step, Shape, Select, ApplyAt;
    var evs := Events(m, Select(m.log, a.now).value, a);
    assert evs == [] + [evs[0]] + [evs[1]] + [evs[2]];
    RunSnoc(cfg, m, [], evs[0]);
    RunSnoc(cfg, m, [] + [evs[0]], evs[1]);
    RunSnoc(cfg, m, [] + [evs[0]] + [evs[1]], evs[2]);
  }

  predicate AttemptsOnly(evs: seq<Event>) {
    forall e :: e in evs ==> e.Begin? || e.Handle? || e.Settle?
  }

  /** A drain of the coordinator object is a run of this machine, made of attempts. */
  lemma {:induction false} DrainIsRun(cfg: Config, m: Machine, env: nat -> Attempt, k: nat, fuel: nat)
    returns (evs: seq<Event>)
    requires Shape(m) && m.up && m.flight.None?
    ensures var after := Run(cfg, m, evs);
            && Coord(after.log, after.idx) == Drain(cfg, Coord(m.log, m.idx), env, k, fuel).0
            && after.up && after.flight.None?
    ensures Honest(evs) && AttemptsOnly(evs)
    decreases fuel
  {
    hide Step, Shape, ApplyAt, Select;
    var s := Select(m.log, env(k).now);
    if fuel == 0 || s.None? {
      evs := [];
    } else {
      var first := Events(m, s.value, env(k));
      AttemptIsRun(cfg, m, env(k));
      var rest := DrainIsRun(cfg, Run(cfg, m, first), env, k + 1, fuel - 1);
      RunConcat(cfg, m, first, rest);
      evs := first + rest;
    }
  }

  lemma {:induction false} AttemptsAreSafe(cfg: Config, m: Machine, strict: bool, evs: seq<Event>)
    requires Shape(m) && AttemptsOnly(evs)
    ensures SafeRun(cfg, m, strict, evs)
  {
    hide Shape, Step, Run;
    if evs != [] {
      assert evs[|evs| - 1] in evs;
      AttemptsAreSafe(cfg, m, strict, evs[..|evs| - 1]);
    }
  }

  lemma {:induction false} SafeRunConcat(cfg: Config, m: Machine, strict: bool, a: seq<Event>, b: seq<Event>)
    requires Shape(m) && SafeRun(cfg, m, strict, a) && SafeRun(cfg, Run(cfg, m, a), strict, b)
    ensures SafeRun(cfg, m, strict, a + b)
  {
    hide Shape, Step, Safe;
    if b == [] {
      assert a + b == a;
    } else {
      SafeRunConcat(cfg, m, strict, a, b[..|b| - 1]);
      RunConcat(cfg, m, a, b[..|b| - 1]);
      assert (a + b)[..|a + b| - 1] == a + b[..|b| - 1];
    }
  }

  /** So what a drain leaves of a reachable state is reachable, and in log order. */
  lemma DrainReachable(cfg: Config, strict: bool, idx0: Indexes, m: Machine, env: nat -> Attempt, fuel: nat)
    returns (after: Machine)
    requires Reachable(cfg, strict, idx0, m) && m.up && m.flight.None?
    ensures Reachable(cfg, strict, idx0, after)
    ensures Coord(after.log, after.idx) == Drain(cfg, Coord(m.log, m.idx), env, 0, fuel).0
    ensures after.idx == Replay(after.log, |after.log|, after.effects, idx0)
  {
    hide Shape, Run, Step, Drain, SafeRun, Replay;
    var before :| SafeRun(cfg, Init(idx0), strict, before) && Run(cfg, Init(idx0), before) == m;
    var evs := DrainIsRun(cfg, m, env, 0, fuel);
    AttemptsAreSafe(cfg, m, strict, evs);
    SafeRunConcat(cfg, Init(idx0), strict, before, evs);
    RunConcat(cfg, Init(idx0), before, evs);
    after := Run(cfg, m, evs);
    LogOrderEquivalence(cfg, strict, idx0, after);
  }
}
