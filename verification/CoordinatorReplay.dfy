/**
 When exactly the indexes keep log order, over every run whatsoever: retries of any operation at
 any time, handlers that do anything, crashes anywhere. An effect that happens late is lost in
 the replay if a later operation already wrote over it, so what decides is what the later
 effective operations on the same store left at its keys and ids.
 */
module CoordinatorReplay {
  import opened Records
  import opened VectorStore
  import opened OpLog
  import opened CoordinatorRuns

  /** What the last later operation that touched an id did to its soft-delete mark. */
  datatype Mark = Untouched | Cleared | Set

  /** The row that the effective upserts behind `i`, up to `n`, leave under the key, if any. */
  ghost function LastRow(log: seq<OpRow>, i: nat, n: nat, took: seq<nat>, key: (Id, int)): Option<VectorRecord>
    requires i < n <= |log|
    decreases n
  {
    if n == i + 1 then None
    else
      var op := log[n - 1].op;
      if n - 1 in took && OnStoreOf(log[i].op, op) && op.opType == UpsertIndex && key in KeyMap(op.payload)
      then Some(KeyMap(op.payload)[key])
      else LastRow(log, i, n - 1, took, key)
  }

  /** What the effective operations behind `i`, up to `n`, leave of the id's mark. */
  ghost function LastMark(log: seq<OpRow>, i: nat, n: nat, took: seq<nat>, id: Id): Mark
    requires i < n <= |log|
    decreases n
  {
    if n == i + 1 then Untouched
    else
      var op := log[n - 1].op;
      if n - 1 in took && OnStoreOf(log[i].op, op) && id in Touched(op)
      then if op.opType == UpsertIndex then Cleared else Set
      else LastMark(log, i, n - 1, took, id)
  }

  /** The later operation is one the vector handler applies, on the same store. */
  predicate OnStoreOf(a: Operation, later: Operation) {
    later.target == a.target && later.opType in {UpsertIndex, RemoveIndex, HardPurge}
  }

  /** The ids whose soft-delete mark an operation changes. */
  function Touched(op: Operation): set<Id> {
    if op.opType == UpsertIndex then PayloadIds(op.payload) else op.ids
  }

  /**
   The effect of operation `i` can still happen without showing: of an upsert, every key has
   kept its row or got the same one again, and no id is removed now; of a removal, no id was
   written again. It looks only at the log and at which later operations took effect.
   */
  ghost predicate Undisturbed(log: seq<OpRow>, i: nat, n: nat, took: seq<nat>, targets: set<string>)
    requires i < n <= |log|
  {
    var op := log[i].op;
    Applicable(op, targets) ==>
      if op.opType == UpsertIndex then
        && (forall k :: k in KeyMap(op.payload) ==>
              LastRow(log, i, n, took, k) == None || LastRow(log, i, n, took, k) == Some(KeyMap(op.payload)[k]))
        && (forall id :: id in PayloadIds(op.payload) ==> LastMark(log, i, n, took, id) != Set)
      else
        forall id :: id in op.ids ==> LastMark(log, i, n, took, id) != Cleared
  }

  // ---- one store, with and without the effect ----

  /** `b` is the store of operation `i` replayed with its effect, `a` replayed as it stands. */
  ghost predicate Overwritten(log: seq<OpRow>, i: nat, n: nat, took: seq<nat>, a: Index, b: Index)
    requires i < n <= |log|
  {
    && MarksOverwritten(log, i, n, took, a, b)
    && if log[i].op.opType == UpsertIndex then RowsOverwritten(log, i, n, took, a, b) else b.byKey == a.byKey
  }

  ghost predicate MarksOverwritten(log: seq<OpRow>, i: nat, n: nat, took: seq<nat>, a: Index, b: Index)
    requires i < n <= |log|
  {
    var op := log[i].op;
    && (forall id :: id !in Touched(op) ==> (id in b.deleted <==> id in a.deleted))
    && (forall id :: id in Touched(op) ==>
          var last := LastMark(log, i, n, took, id);
          id in b.deleted <==> last == Set || (last == Untouched && op.opType != UpsertIndex))
  }

  ghost predicate RowsOverwritten(log: seq<OpRow>, i: nat, n: nat, took: seq<nat>, a: Index, b: Index)
    requires i < n <= |log|
  {
    var rows := KeyMap(log[i].op.payload);
    && (forall k :: k !in rows ==> (k in b.byKey <==> k in a.byKey) && (k in a.byKey ==> b.byKey[k] == a.byKey[k]))
    && (forall k :: k in rows ==>
          var last := LastRow(log, i, n, took, k);
          k in b.byKey && b.byKey[k] == if last.Some? then last.value else rows[k])
  }

  lemma OverwrittenAtOnce(log: seq<OpRow>, i: nat, took: seq<nat>, a: Index)
    requires i < |log|
    ensures Overwritten(log, i, i + 1, took, a, Effect(log[i].op, a))
    ensures Overwritten(log, i, i + 1, took, Effect(log[i].op, a), Effect(log[i].op, a))
  {
    var op := log[i].op;
    if op.opType == UpsertIndex {
      UpsertedForm(a, op.payload);
    }
  }

  /** A later effective operation on the store carries the relation one position further. */
  lemma OverwrittenNext(log: seq<OpRow>, i: nat, n: nat, took: seq<nat>, a: Index, b: Index)
    requires i + 1 < n <= |log| && Overwritten(log, i, n - 1, took, a, b)
    requires n - 1 in took && OnStoreOf(log[i].op, log[n - 1].op)
    ensures Overwritten(log, i, n, took, Effect(log[n - 1].op, a), Effect(log[n - 1].op, b))
  {
    hide MarksOverwritten, RowsOverwritten, OnStoreOf;
    MarksNext(log, i, n, took, a, b);
    EffectRows(log[n - 1].op, a);
    EffectRows(log[n - 1].op, b);
    if log[i].op.opType == UpsertIndex {
      RowsNext(log, i, n, took, a, b);
    }
  }

  lemma EffectRows(op: Operation, ix: Index)
    ensures Effect(op, ix).byKey == if op.opType == UpsertIndex then ix.byKey + KeyMap(op.payload) else ix.byKey
    ensures Effect(op, ix).deleted == if op.opType == UpsertIndex then ix.deleted - Touched(op) else ix.deleted + op.ids
  {
    if op.opType == UpsertIndex {
      UpsertedForm(ix, op.payload);
    }
  }

  lemma MarksNext(log: seq<OpRow>, i: nat, n: nat, took: seq<nat>, a: Index, b: Index)
    requires i + 1 < n <= |log| && MarksOverwritten(log, i, n - 1, took, a, b)
    requires n - 1 in took && OnStoreOf(log[i].op, log[n - 1].op)
    ensures MarksOverwritten(log, i, n, took, Effect(log[n - 1].op, a), Effect(log[n - 1].op, b))
  {
    hide Effect, PayloadIds;
    var op := log[n - 1].op;
    EffectRows(op, a);
    EffectRows(op, b);
    forall id
      ensures LastMark(log, i, n, took, id)
           == if id !in Touched(op) then LastMark(log, i, n - 1, took, id)
              else if op.opType == UpsertIndex then Cleared else Set
    {
    }
  }

  lemma RowsNext(log: seq<OpRow>, i: nat, n: nat, took: seq<nat>, a: Index, b: Index)
    requires i + 1 < n <= |log| && RowsOverwritten(log, i, n - 1, took, a, b)
    requires n - 1 in took && OnStoreOf(log[i].op, log[n - 1].op)
    ensures RowsOverwritten(log, i, n, took, Effect(log[n - 1].op, a), Effect(log[n - 1].op, b))
  {
    hide Effect, KeyMap;
    var op := log[n - 1].op;
    EffectRows(op, a);
    EffectRows(op, b);
    forall k
      ensures LastRow(log, i, n, took, k)
           == if op.opType == UpsertIndex && k in KeyMap(op.payload) then Some(KeyMap(op.payload)[k])
              else LastRow(log, i, n - 1, took, k)
    {
    }
  }

  lemma OverwrittenKept(log: seq<OpRow>, i: nat, n: nat, took: seq<nat>, a: Index, b: Index)
    requires i + 1 < n <= |log| && Overwritten(log, i, n - 1, took, a, b)
    requires !(n - 1 in took && OnStoreOf(log[i].op, log[n - 1].op))
    ensures Overwritten(log, i, n, took, a, b)
  {
  }

  // ---- the whole replay, with and without the effect ----

  lemma {:induction false} ReplayKeys(log: seq<OpRow>, n: nat, took: seq<nat>, idx: Indexes)
    requires n <= |log|
    ensures Replay(log, n, took, idx).Keys == idx.Keys
  {
    if n > 0 {
      ReplayKeys(log, n - 1, took, idx);
    }
  }

  lemma {:induction false} ReplayOverwritten(log: seq<OpRow>, i: nat, n: nat, took: seq<nat>, idx: Indexes)
    requires i < n <= |log| && Applicable(log[i].op, idx.Keys)
    ensures var (a, b) := (Replay(log, n, took, idx), Replay(log, n, took + [i], idx));
            && a.Keys == b.Keys == idx.Keys
            && (forall t :: t in idx && t != log[i].op.target ==> a[t] == b[t])
            && Overwritten(log, i, n, took, a[log[i].op.target], b[log[i].op.target])
    decreases n
  {
    hide Overwritten, Upserted, Removed;
    var t := log[i].op.target;
    ReplayKeys(log, n - 1, took, idx);
    ReplayKeys(log, n - 1, took + [i], idx);
    if n == i + 1 {
      ReplayAgrees(log, log, i, took, took + [i], idx);
      OverwrittenAtOnce(log, i, took, Replay(log, i, took, idx)[t]);
    } else {
      ReplayOverwritten(log, i, n - 1, took, idx);
      var a, b := Replay(log, n - 1, took, idx), Replay(log, n - 1, took + [i], idx);
      assert n - 1 in took + [i] <==> n - 1 in took;
      if n - 1 in took && OnStoreOf(log[i].op, log[n - 1].op) {
        OverwrittenNext(log, i, n, took, a[t], b[t]);
      } else {
        OverwrittenKept(log, i, n, took, a[t], b[t]);
      }
    }
  }

  lemma {:induction false} ReplayWithoutHandler(log: seq<OpRow>, i: nat, n: nat, took: seq<nat>, idx: Indexes)
    requires i < |log| && n <= |log| && !Applicable(log[i].op, idx.Keys)
    ensures Replay(log, n, took + [i], idx) == Replay(log, n, took, idx)
  {
    if n > 0 {
      ReplayWithoutHandler(log, i, n - 1, took, idx);
      ReplayKeys(log, n - 1, took, idx);
    }
  }

  /** The effect, applied now, gives one store what the replay gives it, exactly when undisturbed. */
  lemma EffectMatchesIff(log: seq<OpRow>, i: nat, n: nat, took: seq<nat>, a: Index, b: Index, targets: set<string>)
    requires i < n <= |log| && Applicable(log[i].op, targets) && Overwritten(log, i, n, took, a, b)
    ensures Effect(log[i].op, a) == b <==> Undisturbed(log, i, n, took, targets)
  {
    var op := log[i].op;
    if op.opType == UpsertIndex {
      UpsertedForm(a, op.payload);
      RowsMatchIff(log, i, n, took, a, b);
    }
    var now := Effect(op, a);
    assert forall id :: id in Touched(op) ==> (id in now.deleted <==> op.opType != UpsertIndex);
    assert now.deleted == b.deleted <==> forall id :: id in Touched(op) ==> (id in now.deleted <==> id in b.deleted);
  }

  lemma RowsMatchIff(log: seq<OpRow>, i: nat, n: nat, took: seq<nat>, a: Index, b: Index)
    requires i < n <= |log| && RowsOverwritten(log, i, n, took, a, b)
    ensures var rows := KeyMap(log[i].op.payload);
            a.byKey + rows == b.byKey <==> forall k :: k in rows ==>
              LastRow(log, i, n, took, k) == None || LastRow(log, i, n, took, k) == Some(rows[k])
  {
    var rows := KeyMap(log[i].op.payload);
    var now := a.byKey + rows;
    if now == b.byKey {
      forall k | k in rows
        ensures LastRow(log, i, n, took, k) == None || LastRow(log, i, n, took, k) == Some(rows[k])
      {
        assert now[k] == rows[k];
      }
    }
    assert now.Keys == b.byKey.Keys;
  }

  /**
   Applying an operation to the replay of what took effect gives the replay with that operation
   in its place in the log, exactly when it is undisturbed.
   */
  lemma LateEffectIff(log: seq<OpRow>, i: nat, n: nat, took: seq<nat>, idx: Indexes)
    requires i < n <= |log|
    ensures Applied(log[i].op, Replay(log, n, took, idx)) == Replay(log, n, took + [i], idx)
            <==> Undisturbed(log, i, n, took, idx.Keys)
  {
    hide Undisturbed, Overwritten;
    ReplayKeys(log, n, took, idx);
    if Applicable(log[i].op, idx.Keys) {
      ReplayOverwritten(log, i, n, took, idx);
      var a, b := Replay(log, n, took, idx), Replay(log, n, took + [i], idx);
      var t := log[i].op.target;
      EffectMatchesIff(log, i, n, took, a[t], b[t], idx.Keys);
      assert Applied(log[i].op, a) == a[t := Effect(log[i].op, a[t])];
    } else {
      ReplayWithoutHandler(log, i, n, took, idx);
      assert Undisturbed(log, i, n, took, idx.Keys) by {
        NoHandlerUndisturbed(log, i, n, took, idx.Keys);
      }
    }
  }

  lemma NoHandlerUndisturbed(log: seq<OpRow>, i: nat, n: nat, took: seq<nat>, targets: set<string>)
    requires i < n <= |log| && !Applicable(log[i].op, targets)
    ensures Undisturbed(log, i, n, took, targets)
  {
  }

  // ---- machines and runs ----

  ghost predicate InLogOrder(m: Machine, idx0: Indexes) {
    m.idx == Replay(m.log, |m.log|, m.effects, idx0)
  }

  /** If this event is a handler effect, it comes while its operation is undisturbed. */
  ghost predicate TimelyEffect(m: Machine, e: Event, idx0: Indexes)
    requires Shape(m)
  {
    e.Handle? && e.effect && m.up && m.flight.Some? && m.flight.value.returned.None? ==>
      Undisturbed(m.log, m.flight.value.pos, |m.log|, m.effects, idx0.Keys)
  }

  /** One event of any kind keeps log order exactly when it is no disturbed effect. */
  lemma StepInLogOrderIff(cfg: Config, m: Machine, e: Event, idx0: Indexes)
    requires Shape(m) && InLogOrder(m, idx0)
    ensures InLogOrder(Step(cfg, m, e), idx0) <==> TimelyEffect(m, e, idx0)
  {
    hide Applied, Conflicts, Undisturbed;
    var m' := Step(cfg, m, e);
    if m'.effects != m.effects {
      LateEffectIff(m.log, m.flight.value.pos, |m.log|, m.effects, idx0);
    } else if |m'.log| == |m.log| {
      assert forall k :: 0 <= k < |m.log| ==> m'.log[k].op == m.log[k].op;
      ReplayAgrees(m.log, m'.log, |m.log|, m.effects, m'.effects, idx0);
    } else {
      assert |m.log| !in m.effects;
      ReplayAgrees(m.log, m'.log, |m.log|, m.effects, m'.effects, idx0);
    }
  }

  /** Log order at every moment of the run. */
  ghost predicate AlwaysInLogOrder(cfg: Config, idx0: Indexes, evs: seq<Event>) {
    && InLogOrder(Run(cfg, Init(idx0), evs), idx0)
    && (evs != [] ==> AlwaysInLogOrder(cfg, idx0, evs[..|evs| - 1]))
  }

  /** No handler effect of the run came after its operation was disturbed. */
  ghost predicate AllTimely(cfg: Config, idx0: Indexes, evs: seq<Event>) {
    evs != [] ==>
      && AllTimely(cfg, idx0, evs[..|evs| - 1])
      && TimelyEffect(Run(cfg, Init(idx0), evs[..|evs| - 1]), evs[|evs| - 1], idx0)
  }

  /**
   The exact condition, for every run: the indexes are the replay of the log at every moment if
   and only if every handler effect comes while its operation is undisturbed.
   */
  lemma {:induction false} LogOrderIff(cfg: Config, idx0: Indexes, evs: seq<Event>)
    ensures AlwaysInLogOrder(cfg, idx0, evs) <==> AllTimely(cfg, idx0, evs)
  {
    if evs != [] {
      var init := evs[..|evs| - 1];
      hide Step, Shape, InLogOrder, TimelyEffect;
      LogOrderIff(cfg, idx0, init);
      if AlwaysInLogOrder(cfg, idx0, init) {
        AlwaysNow(cfg, idx0, init);
        StepInLogOrderIff(cfg, Run(cfg, Init(idx0), init), evs[|evs| - 1], idx0);
      }
    }
  }

  lemma AlwaysNow(cfg: Config, idx0: Indexes, evs: seq<Event>)
    requires AlwaysInLogOrder(cfg, idx0, evs)
    ensures InLogOrder(Run(cfg, Init(idx0), evs), idx0)
  {
  }

  /** The guard on retries is enough: a run that respects it has only timely effects. */
  lemma {:induction false} SafeRunsAreTimely(cfg: Config, strict: bool, idx0: Indexes, evs: seq<Event>)
    requires SafeRun(cfg, Init(idx0), strict, evs)
    ensures AlwaysInLogOrder(cfg, idx0, evs) && AllTimely(cfg, idx0, evs)
  {
    hide Run, Step, Shape;
    LogOrderEquivalence(cfg, strict, idx0, Run(cfg, Init(idx0), evs));
    if evs == [] {
    } else {
      SafeRunsAreTimely(cfg, strict, idx0, evs[..|evs| - 1]);
    }
    LogOrderIff(cfg, idx0, evs);
  }
}
