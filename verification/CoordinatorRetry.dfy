/**
 What a caller of `retry` can rely on: whether reviving a FAILED operation costs log order is
 decided when `retry` is called, because whatever touches its ids later waits behind it.
 */
module CoordinatorRetry {
  import opened Records
  import opened VectorStore
  import opened OpLog
  import opened CoordinatorRuns
  import opened CoordinatorReplay

  // ---- when being undisturbed does not change ----

  /** Nothing behind `i` that took effect clashes with it. */
  lemma {:induction false} NoClashUntouched(log: seq<OpRow>, i: nat, n: nat, took: seq<nat>, key: (Id, int), id: Id)
    requires i < n <= |log| && forall k :: 0 <= k < |log| ==> WellFormed(log[k].op)
    requires forall k :: i < k < n && k in took ==> !Clash(log[i].op, log[k].op)
    requires key in KeyMap(log[i].op.payload) ==> key.0 in log[i].op.ids
    ensures key in KeyMap(log[i].op.payload) ==> LastRow(log, i, n, took, key) == None
    ensures id in log[i].op.ids ==> LastMark(log, i, n, took, id) == Untouched
    decreases n
  {
    if n > i + 1 {
      NoClashUntouched(log, i, n - 1, took, key, id);
      KeyMapIds(log[n - 1].op.payload);
      assert WellFormed(log[n - 1].op);
    }
  }

  lemma NoClashUndisturbed(log: seq<OpRow>, i: nat, n: nat, took: seq<nat>, targets: set<string>)
    requires i < n <= |log| && forall k :: 0 <= k < |log| ==> WellFormed(log[k].op)
    requires forall k :: i < k < n && k in took ==> !Clash(log[i].op, log[k].op)
    ensures Undisturbed(log, i, n, took, targets)
  {
    hide LastRow, LastMark;
    KeyMapIds(log[i].op.payload);
    assert WellFormed(log[i].op);
    forall key | key in KeyMap(log[i].op.payload)
      ensures LastRow(log, i, n, took, key) == None
    {
      NoClashUntouched(log, i, n, took, key, 0);
    }
    forall id | id in log[i].op.ids
      ensures LastMark(log, i, n, took, id) == Untouched
    {
      NoClashUntouched(log, i, n, took, (id, 0), id);
    }
  }

  /** Only the operations behind `i` that took effect count. */
  lemma {:induction false} LastAgrees(
    log: seq<OpRow>, log': seq<OpRow>, i: nat, n: nat, took: seq<nat>, took': seq<nat>, key: (Id, int), id: Id)
    requires i < n <= |log| && n <= |log'|
    requires forall k :: i <= k < n ==> log'[k].op == log[k].op
    requires forall k :: i < k < n ==> (k in took' <==> k in took)
    ensures LastRow(log', i, n, took', key) == LastRow(log, i, n, took, key)
    ensures LastMark(log', i, n, took', id) == LastMark(log, i, n, took, id)
    decreases n
  {
    if n > i + 1 {
      LastAgrees(log, log', i, n - 1, took, took', key, id);
    }
  }

  lemma UndisturbedAgrees(
    log: seq<OpRow>, log': seq<OpRow>, i: nat, n: nat, took: seq<nat>, took': seq<nat>, targets: set<string>)
    requires i < n <= |log| && n <= |log'|
    requires forall k :: i <= k < n ==> log'[k].op == log[k].op
    requires forall k :: i < k < n ==> (k in took' <==> k in took)
    ensures Undisturbed(log', i, n, took', targets) <==> Undisturbed(log, i, n, took, targets)
  {
    hide LastRow, LastMark;
    forall key
      ensures LastRow(log', i, n, took', key) == LastRow(log, i, n, took, key)
    {
      LastAgrees(log, log', i, n, took, took', key, 0);
    }
    forall id
      ensures LastMark(log', i, n, took', id) == LastMark(log, i, n, took, id)
    {
      LastAgrees(log, log', i, n, took, took', (id, 0), id);
    }
  }

  /** An appended operation has not taken effect. */
  lemma UndisturbedGrows(log: seq<OpRow>, i: nat, n: nat, took: seq<nat>, targets: set<string>)
    requires i < n < |log| && n !in took
    ensures Undisturbed(log, i, n + 1, took, targets) <==> Undisturbed(log, i, n, took, targets)
  {
    assert forall key :: LastRow(log, i, n + 1, took, key) == LastRow(log, i, n, took, key);
    assert forall id :: LastMark(log, i, n + 1, took, id) == LastMark(log, i, n, took, id);
  }

  /** An effect that does not clash with `i` leaves its keys and ids alone. */
  lemma {:induction false} LastPastOther(
    log: seq<OpRow>, i: nat, n: nat, took: seq<nat>, j: nat, key: (Id, int), id: Id)
    requires i < n <= |log| && i < j < |log| && WellFormed(log[j].op) && !Clash(log[i].op, log[j].op)
    ensures key.0 in log[i].op.ids ==> LastRow(log, i, n, took + [j], key) == LastRow(log, i, n, took, key)
    ensures id in log[i].op.ids ==> LastMark(log, i, n, took + [j], id) == LastMark(log, i, n, took, id)
    decreases n
  {
    if n > i + 1 {
      LastPastOther(log, i, n - 1, took, j, key, id);
      KeyMapIds(log[n - 1].op.payload);
      assert n - 1 != j ==> (n - 1 in took + [j] <==> n - 1 in took);
    }
  }

  lemma UndisturbedPastOther(log: seq<OpRow>, i: nat, n: nat, took: seq<nat>, j: nat, targets: set<string>)
    requires i < n <= |log| && i < j < |log| && WellFormed(log[i].op) && WellFormed(log[j].op)
    requires !Clash(log[i].op, log[j].op)
    ensures Undisturbed(log, i, n, took + [j], targets) <==> Undisturbed(log, i, n, took, targets)
  {
    hide LastRow, LastMark;
    KeyMapIds(log[i].op.payload);
    forall key | key in KeyMap(log[i].op.payload)
      ensures LastRow(log, i, n, took + [j], key) == LastRow(log, i, n, took, key)
    {
      LastPastOther(log, i, n, took, j, key, 0);
    }
    forall id | id in log[i].op.ids
      ensures LastMark(log, i, n, took + [j], id) == LastMark(log, i, n, took, id)
    {
      LastPastOther(log, i, n, took, j, (id, 0), id);
    }
  }

  // ---- a revived operation in a run ----

  /** Ordered, but for what began behind the revived `i`, which is over or waits for it. */
  ghost predicate OrderedBut(m: Machine, strict: bool, i: nat) {
    forall a, b :: 0 <= a < b < |m.log| && Tied(strict, m.log[a].op, m.log[b].op) && Began(m, b)
      ==> Finished(m.log[a].state) || (a == i && m.log[b].state != InProgress)
  }

  /** What a run keeps after the revival of `i` while it was undisturbed. */
  ghost predicate Revived(m: Machine, strict: bool, i: nat, idx0: Indexes)
    requires Shape(m)
  {
    && i < |m.log|
    && UniqueIds(m.log)
    && (forall k :: 0 <= k < |m.log| ==> WellFormed(m.log[k].op))
    && OrderedBut(m, strict, i)
    && (!Finished(m.log[i].state) ==> Undisturbed(m.log, i, |m.log|, m.effects, idx0.Keys))
  }

  /** Events that change row states only, and finish or keep unfinished the revived row. */
  lemma StateChangeKeepsRevived(m: Machine, m': Machine, strict: bool, i: nat, idx0: Indexes)
    requires Shape(m) && Shape(m') && Revived(m, strict, i, idx0)
    requires SameOps(m.log, m'.log) && m'.effects == m.effects && OrderedBut(m', strict, i)
    requires !Finished(m'.log[i].state) ==> Undisturbed(m.log, i, |m.log|, m.effects, idx0.Keys)
    ensures Revived(m', strict, i, idx0)
  {
    hide OrderedBut, Undisturbed;
    assert forall k :: 0 <= k < |m.log| ==> m'.log[k].op == m.log[k].op;
    UndisturbedAgrees(m.log, m'.log, i, |m.log|, m.effects, m'.effects, idx0.Keys);
  }

  lemma EnqueueKeepsRevived(cfg: Config, m: Machine, strict: bool, i: nat, op: Operation, idx0: Indexes)
    requires Shape(m) && Revived(m, strict, i, idx0) && WellFormed(op)
    ensures Revived(Step(cfg, m, Enqueue(op)), strict, i, idx0)
  {
    if m.up && Enqueued(m.log, op) != m.log {
      EnqueueKeepsUnique(m.log, op);
      AppendKeepsRevived(m, Step(cfg, m, Enqueue(op)), strict, i, idx0);
    }
  }

  lemma AppendKeepsRevived(m: Machine, m': Machine, strict: bool, i: nat, idx0: Indexes)
    requires Shape(m) && Shape(m') && Revived(m, strict, i, idx0)
    requires |m'.log| == |m.log| + 1 && m'.log[..|m.log|] == m.log
    requires m'.log[|m.log|].state == Pending && WellFormed(m'.log[|m.log|].op) && UniqueIds(m'.log)
    requires m'.effects == m.effects
    ensures Revived(m', strict, i, idx0)
  {
    hide Tied, Undisturbed;
    var n := |m.log|;
    assert forall k :: 0 <= k < n ==> m'.log[k] == m'.log[..n][k] == m.log[k];
    assert n !in m.effects;
    forall b | 0 <= b < n + 1 && Began(m', b)
      ensures b < n && Began(m, b)
    {
    }
    UndisturbedGrows(m'.log, i, n, m.effects, idx0.Keys);
    UndisturbedAgrees(m.log, m'.log, i, n, m.effects, m'.effects, idx0.Keys);
  }

  lemma BeginKeepsRevived(cfg: Config, m: Machine, strict: bool, i: nat, now: int, idx0: Indexes)
    requires Shape(m) && Revived(m, strict, i, idx0)
    ensures Revived(Step(cfg, m, Begin(now)), strict, i, idx0)
  {
    hide Conflicts, Tied, Undisturbed;
    var m' := Step(cfg, m, Begin(now));
    if m' != m {
      var b := m'.flight.value.pos;
      forall a | 0 <= a < b && Tied(strict, m.log[a].op, m.log[b].op)
        ensures Finished(m.log[a].state)
      {
        TiedConflicts(strict, m.log[a].op, m.log[b].op);
      }
      assert OrderedBut(m', strict, i);
      StateChangeKeepsRevived(m, m', strict, i, idx0);
    }
  }

  /** What is in progress is undisturbed, and the revived row stays so. */
  lemma InProgressUndisturbed(m: Machine, strict: bool, i: nat, j: nat, idx0: Indexes)
    requires Shape(m) && Revived(m, strict, i, idx0) && j < |m.log| && m.log[j].state == InProgress
    ensures Undisturbed(m.log, j, |m.log|, m.effects, idx0.Keys)
    ensures !Finished(m.log[i].state) ==> Undisturbed(m.log, i, |m.log|, m.effects + [j], idx0.Keys)
  {
    hide Tied, Clash, Undisturbed;
    if j != i {
      forall k | j < k < |m.log| && k in m.effects
        ensures !Clash(m.log[j].op, m.log[k].op)
      {
        assert Began(m, k);
        TiedConflicts(strict, m.log[j].op, m.log[k].op);
      }
      NoClashUndisturbed(m.log, j, |m.log|, m.effects, idx0.Keys);
    }
    if !Finished(m.log[i].state) {
      if j <= i {
        UndisturbedAgrees(m.log, m.log, i, |m.log|, m.effects, m.effects + [j], idx0.Keys);
      } else {
        assert Began(m, j);
        TiedConflicts(strict, m.log[i].op, m.log[j].op);
        UndisturbedPastOther(m.log, i, |m.log|, m.effects, j, idx0.Keys);
      }
    }
  }

  lemma HandleKeepsRevived(cfg: Config, m: Machine, strict: bool, i: nat, effect: bool, acked: bool, idx0: Indexes)
    requires Shape(m) && Revived(m, strict, i, idx0)
    ensures TimelyEffect(m, Handle(effect, acked), idx0)
    ensures Revived(Step(cfg, m, Handle(effect, acked)), strict, i, idx0)
  {
    hide Applied, Tied, Undisturbed;
    var m' := Step(cfg, m, Handle(effect, acked));
    if m.flight.Some? {
      InProgressUndisturbed(m, strict, i, m.flight.value.pos, idx0);
    }
    assert OrderedBut(m', strict, i) by {
      assert forall k :: 0 <= k < |m.log| ==> Began(m', k) == Began(m, k);
    }
  }

  lemma SettleKeepsRevived(cfg: Config, m: Machine, strict: bool, i: nat, later: int, idx0: Indexes)
    requires Shape(m) && Revived(m, strict, i, idx0)
    ensures Revived(Step(cfg, m, Settle(later)), strict, i, idx0)
  {
    hide Tied, Undisturbed;
    var m' := Step(cfg, m, Settle(later));
    if m' != m {
      assert OrderedBut(m', strict, i);
      StateChangeKeepsRevived(m, m', strict, i, idx0);
    }
  }

  lemma RecoverKeepsRevived(cfg: Config, m: Machine, strict: bool, i: nat, idx0: Indexes)
    requires Shape(m) && Revived(m, strict, i, idx0)
    ensures Revived(Step(cfg, m, Recover), strict, i, idx0)
  {
    hide Tied, Undisturbed;
    var m' := Step(cfg, m, Recover);
    assert OrderedBut(m', strict, i);
    StateChangeKeepsRevived(m, m', strict, i, idx0);
  }

  /** A further retry that is safe; of the revived row too, once it failed again. */
  lemma RetryKeepsRevived(cfg: Config, m: Machine, strict: bool, i: nat, opId: nat, idx0: Indexes)
    requires Shape(m) && Revived(m, strict, i, idx0) && SafeRetry(m, strict, opId)
    ensures Revived(Step(cfg, m, Retry(opId)), strict, i, idx0)
  {
    hide Tied, Undisturbed, Clash;
    var m' := Step(cfg, m, Retry(opId));
    if m.up {
      assert OrderedBut(m', strict, i) by {
        assert forall k :: 0 <= k < |m.log| ==> Began(m', k) == Began(m, k);
      }
      if Finished(m.log[i].state) && !Finished(m'.log[i].state) {
        forall k | i < k < |m.log| && k in m.effects
          ensures !Clash(m.log[i].op, m.log[k].op)
        {
          assert Began(m, k);
          TiedConflicts(strict, m.log[i].op, m.log[k].op);
        }
        NoClashUndisturbed(m.log, i, |m.log|, m.effects, idx0.Keys);
      }
      StateChangeKeepsRevived(m, m', strict, i, idx0);
    }
  }

  lemma StepKeepsRevived(cfg: Config, m: Machine, strict: bool, i: nat, e: Event, idx0: Indexes)
    requires Shape(m) && Revived(m, strict, i, idx0) && Safe(m, strict, e)
    ensures TimelyEffect(m, e, idx0) && Revived(Step(cfg, m, e), strict, i, idx0)
  {
    hide Shape, Undisturbed, OrderedBut;
    match e
    case Enqueue(op) => EnqueueKeepsRevived(cfg, m, strict, i, op, idx0);
    case Begin(now) => BeginKeepsRevived(cfg, m, strict, i, now, idx0);
    case Handle(effect, acked) => HandleKeepsRevived(cfg, m, strict, i, effect, acked, idx0);
    case Settle(later) => SettleKeepsRevived(cfg, m, strict, i, later, idx0);
    case Crash => CrashKeepsRevived(cfg, m, strict, i, idx0);
    case Recover => RecoverKeepsRevived(cfg, m, strict, i, idx0);
    case Retry(opId) => RetryKeepsRevived(cfg, m, strict, i, opId, idx0);
  }

  lemma CrashKeepsRevived(cfg: Config, m: Machine, strict: bool, i: nat, idx0: Indexes)
    requires Shape(m) && Revived(m, strict, i, idx0)
    ensures Revived(Step(cfg, m, Crash), strict, i, idx0)
  {
  }

  lemma {:induction false} RunKeepsRevived(
    cfg: Config, m: Machine, strict: bool, i: nat, evs: seq<Event>, idx0: Indexes)
    requires Shape(m) && Revived(m, strict, i, idx0) && InLogOrder(m, idx0) && SafeRun(cfg, m, strict, evs)
    ensures Revived(Run(cfg, m, evs), strict, i, idx0) && InLogOrder(Run(cfg, m, evs), idx0)
  {
    hide Shape, Step, Safe, Revived, InLogOrder, TimelyEffect;
    if evs != [] {
      var before := Run(cfg, m, evs[..|evs| - 1]);
      RunKeepsRevived(cfg, m, strict, i, evs[..|evs| - 1], idx0);
      StepKeepsRevived(cfg, before, strict, i, evs[|evs| - 1], idx0);
      StepInLogOrderIff(cfg, before, evs[|evs| - 1], idx0);
    }
  }

  // ---- the run that shows a disturbed revival ----

  /** One attempt at the lowest unfinished row, honestly acknowledged. */
  function FinishOne(now: int): seq<Event> {
    [Begin(now)] + [Handle(true, true), Settle(0)]
  }

  lemma LowestBegins(cfg: Config, m: Machine, n: nat, now: int)
    requires Shape(m) && m.up && m.flight.None? && n < |m.log| && !Finished(m.log[n].state)
    requires forall k :: 0 <= k < n ==> Finished(m.log[k].state)
    requires m.log[n].nextAt.Some? ==> m.log[n].nextAt.value <= now
    ensures Run(cfg, m, [Begin(now)])
         == m.(log := m.log[n := m.log[n].(state := InProgress)], flight := Some(Flight(n, None)))
  {
    assert Eligible(m.log, n, now);
    assert Select(m.log, now) == Some(n);
    hide Select, Eligible, Shape;
    RunSnoc(cfg, m, [], Begin(now));
    assert [] + [Begin(now)] == [Begin(now)];
  }

  lemma FlightLands(cfg: Config, m: Machine, n: nat)
    requires Shape(m) && m.up && m.flight == Some(Flight(n, None))
    ensures var r := Run(cfg, m, [Handle(true, true), Settle(0)]);
            && r.up && r.flight.None? && r.effects == m.effects + [n]
            && r.log == m.log[n := m.log[n].(state := Done)]
  {
    var handled := Step(cfg, m, Handle(true, true));
    LandsByStep(cfg, m, handled, n);
    hide Run, Shape, Step;
    assert [Handle(true, true), Settle(0)] == [] + [Handle(true, true)] + [Settle(0)];
    assert Run(cfg, m, []) == m by {
      RunOfNone(cfg, m);
    }
    RunSnoc(cfg, m, [], Handle(true, true));
    RunSnoc(cfg, m, [] + [Handle(true, true)], Settle(0));
  }

  lemma RunOfNone(cfg: Config, m: Machine)
    requires Shape(m)
    ensures Run(cfg, m, []) == m
  {
  }

  lemma LandsByStep(cfg: Config, m: Machine, handled: Machine, n: nat)
    requires Shape(m) && m.up && m.flight == Some(Flight(n, None)) && handled == Step(cfg, m, Handle(true, true))
    ensures var r := Step(cfg, handled, Settle(0));
            && r.up && r.flight.None? && r.effects == m.effects + [n]
            && r.log == m.log[n := m.log[n].(state := Done)]
  {
    hide Applied, Shape;
  }

  lemma LowestFinishes(cfg: Config, m: Machine, n: nat, now: int)
    requires Shape(m) && m.up && m.flight.None? && n < |m.log| && !Finished(m.log[n].state)
    requires forall k :: 0 <= k < n ==> Finished(m.log[k].state)
    requires m.log[n].nextAt.Some? ==> m.log[n].nextAt.value <= now
    ensures var r := Run(cfg, m, FinishOne(now));
            && r.up && r.flight.None? && SameOps(m.log, r.log) && r.effects == m.effects + [n]
            && (forall k :: 0 <= k < |m.log| && k != n ==> r.log[k] == m.log[k])
            && Finished(r.log[n].state)
  {
    LowestBegins(cfg, m, n, now);
    FlightLands(cfg, Run(cfg, m, [Begin(now)]), n);
    RunConcat(cfg, m, [Begin(now)], [Handle(true, true), Settle(0)]);
    hide Run, Shape;
  }

  /** Attempts alone can bring an unfinished row into flight, with effects in front of it only. */
  lemma {:induction false} CanFly(cfg: Config, m: Machine, n: nat, i: nat) returns (evs: seq<Event>)
    requires Shape(m) && m.up && m.flight.None? && n <= i < |m.log| && !Finished(m.log[i].state)
    requires forall k :: 0 <= k < n ==> Finished(m.log[k].state)
    ensures AttemptsOnly(evs) && Honest(evs)
    ensures var r := Run(cfg, m, evs);
            && r.up && r.flight == Some(Flight(i, None)) && SameOps(m.log, r.log)
            && forall k :: i < k ==> (k in r.effects <==> k in m.effects)
    decreases i - n
  {
    hide Shape, Step, Run;
    var now := if m.log[n].nextAt.Some? then m.log[n].nextAt.value else 0;
    if Finished(m.log[n].state) {
      evs := CanFly(cfg, m, n + 1, i);
    } else {
      if n == i {
        LowestBegins(cfg, m, n, now);
        evs := [Begin(now)];
      } else {
        LowestFinishes(cfg, m, n, now);
        var next := Run(cfg, m, FinishOne(now));
        var rest := CanFly(cfg, next, n + 1, i);
        RunConcat(cfg, m, FinishOne(now), rest);
        evs := FinishOne(now) + rest;
      }
    }
  }

  // ---- the theorem ----

  /** Log order in every continuation whose own retries are safe. */
  ghost predicate StaysInLogOrder(cfg: Config, m: Machine, strict: bool, idx0: Indexes)
    requires Shape(m)
  {
    forall evs :: SafeRun(cfg, m, strict, evs) ==> InLogOrder(Run(cfg, m, evs), idx0)
  }

  lemma RetriedState(cfg: Config, m: Machine, opId: nat, i: nat)
    requires Shape(m) && m.up && UniqueIds(m.log) && i < |m.log|
    requires m.log[i].op.opId == opId && m.log[i].state == Failed
    ensures var m' := Step(cfg, m, Retry(opId));
            && m'.up && m'.flight == m.flight && SameOps(m.log, m'.log) && m'.effects == m.effects && m'.idx == m.idx
            && m'.log[i].state == Pending
            && forall k :: 0 <= k < |m.log| && k != i ==> m'.log[k] == m.log[k]
  {
  }

  /**
   For the caller of `retry`: from a reachable state with nothing in flight, reviving a FAILED
   row keeps log order through every continuation without further unsafe retries exactly when
   that row is undisturbed at the moment of the retry.
   */
  lemma RetryKeepsLogOrderIff(cfg: Config, strict: bool, idx0: Indexes, m: Machine, opId: nat, i: nat)
    requires Reachable(cfg, strict, idx0, m) && m.up && m.flight.None?
    requires i < |m.log| && m.log[i].op.opId == opId && m.log[i].state == Failed
    ensures StaysInLogOrder(cfg, Step(cfg, m, Retry(opId)), strict, idx0)
            <==> Undisturbed(m.log, i, |m.log|, m.effects, idx0.Keys)
  {
    ReachableInv(cfg, strict, idx0, m);
    RetriedState(cfg, m, opId, i);
    var revived := Step(cfg, m, Retry(opId));
    UndisturbedAgrees(m.log, revived.log, i, |m.log|, m.effects, revived.effects, idx0.Keys);
    if Undisturbed(m.log, i, |m.log|, m.effects, idx0.Keys) {
      UndisturbedStays(cfg, strict, idx0, m, revived, i);
    } else {
      DisturbedBreaks(cfg, strict, idx0, revived, i);
    }
  }

  lemma UndisturbedStays(cfg: Config, strict: bool, idx0: Indexes, m: Machine, revived: Machine, i: nat)
    requires Shape(m) && Shape(revived) && Inv(m, strict, idx0) && m.up && m.flight.None? && i < |m.log|
    requires SameOps(m.log, revived.log) && revived.effects == m.effects && revived.idx == m.idx
    requires forall k :: 0 <= k < |m.log| && k != i ==> revived.log[k] == m.log[k]
    requires revived.log[i].state == Pending && Undisturbed(revived.log, i, |m.log|, m.effects, idx0.Keys)
    ensures StaysInLogOrder(cfg, revived, strict, idx0)
  {
    hide Tied, Undisturbed, Step, Run, SafeRun, Happened;
    ReplayAgrees(m.log, revived.log, |m.log|, m.effects, m.effects, idx0);
    assert forall k :: 0 <= k < |m.log| ==> revived.log[k].op == m.log[k].op;
    assert OrderedBut(revived, strict, i) by {
      assert forall k :: 0 <= k < |m.log| && Began(revived, k) ==> Began(m, k) && revived.log[k].state != InProgress;
    }
    assert Revived(revived, strict, i, idx0);
    forall evs | SafeRun(cfg, revived, strict, evs)
      ensures InLogOrder(Run(cfg, revived, evs), idx0)
    {
      RunKeepsRevived(cfg, revived, strict, i, evs, idx0);
    }
  }

  lemma DisturbedBreaks(cfg: Config, strict: bool, idx0: Indexes, m: Machine, i: nat)
    requires Shape(m) && m.up && m.flight.None? && i < |m.log| && !Finished(m.log[i].state)
    requires !Undisturbed(m.log, i, |m.log|, m.effects, idx0.Keys)
    ensures !StaysInLogOrder(cfg, m, strict, idx0)
  {
    hide Undisturbed, Step, Run, SafeRun, InLogOrder;
    var evs := CanFly(cfg, m, 0, i);
    var before := Run(cfg, m, evs);
    UndisturbedAgrees(m.log, before.log, i, |m.log|, m.effects, before.effects, idx0.Keys);
    var more := evs + [Handle(true, true)];
    AttemptsAreSafe(cfg, m, strict, evs);
    AttemptsAreSafe(cfg, m, strict, more);
    RunSnoc(cfg, m, evs, Handle(true, true));
    if InLogOrder(before, idx0) {
      StepInLogOrderIff(cfg, before, Handle(true, true), idx0);
      assert !InLogOrder(Run(cfg, m, more), idx0);
    }
  }
}
