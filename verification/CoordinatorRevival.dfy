/**
 What a manual retry of a FAILED operation can do: a concrete run of the coordinator after
 which the index no longer holds the outcome of log order.
 */
module CoordinatorRevival {
  import opened Records
  import opened VectorStore
  import opened OpLog
  import opened CoordinatorRuns

  const TIGHT := Config(1, 0)
  const EMPTY_HOT: Indexes := map["hot" := Index(map[], {})]

  function Write(opId: nat, hash: string): Operation {
    Operation(opId, UpsertIndex, {1}, "hot", [VectorRecord(1, hash, 1)])
  }

  /** The first write of record 1 fails for good, the second succeeds, the first is revived. */
  const REVIVAL: seq<Event> := [
    Enqueue(Write(0, "old")), Enqueue(Write(1, "new")),
    Begin(0), Handle(false, false), Settle(0),
    Begin(0), Handle(true, true), Settle(0),
    Retry(0),
    Begin(0), Handle(true, true), Settle(0)]

  /** The machine after the first `k` events of REVIVAL, for the rows `log`. */
  ghost predicate Reaches(k: nat, m: Machine)
    requires k <= |REVIVAL|
  {
    Run(TIGHT, Init(EMPTY_HOT), REVIVAL[..k]) == m
  }

  lemma NextReached(k: nat, m: Machine, m': Machine)
    requires k < |REVIVAL| && Shape(m) && Reaches(k, m)
    requires Step(TIGHT, m, REVIVAL[k]) == m'
    ensures Reaches(k + 1, m')
  {
    assert REVIVAL[..k + 1][..k] == REVIVAL[..k];
  }

  /** Where REVIVAL ends: both operations done, the older write applied last. */
  const REVIVED := Machine(
    [OpRow(Write(0, "old"), Done, 1, None), OpRow(Write(1, "new"), Done, 0, None)],
    Applied(Write(0, "old"), Applied(Write(1, "new"), EMPTY_HOT)), true, None, [1, 0], [0, 0], {0})

  /**
   Without the guard log order is lost: after the revival the index holds the older write
   although both operations are done.
   */
  lemma RevivedFailureBreaksLogOrder()
    ensures var m := Run(TIGHT, Init(EMPTY_HOT), REVIVAL);
            && (forall r :: r in m.log ==> r.state == Done)
            && m.idx != Replay(m.log, |m.log|, m.effects, EMPTY_HOT)
  {
    assert Run(TIGHT, Init(EMPTY_HOT), REVIVAL) == REVIVED by {
      RevivalEnds();
      assert REVIVAL[..12] == REVIVAL;
    }
    OlderWriteWins();
  }

  lemma OlderWriteWins()
    ensures REVIVED.idx != Replay(REVIVED.log, 2, REVIVED.effects, EMPTY_HOT)
  {
    var a, b := Write(0, "old"), Write(1, "new");
    assert REVIVED.effects[0] == 1 && REVIVED.effects[1] == 0;
    var inOrder := Replay(REVIVED.log, 2, REVIVED.effects, EMPTY_HOT);
    assert inOrder == Applied(b, Applied(a, EMPTY_HOT));
    OneRowUpsert(Applied(a, EMPTY_HOT)["hot"], VectorRecord(1, "new", 1));
    OneRowUpsert(Applied(b, EMPTY_HOT)["hot"], VectorRecord(1, "old", 1));
    assert inOrder["hot"].byKey[(1, 1)].contentHash == "new";
    assert REVIVED.idx["hot"].byKey[(1, 1)].contentHash == "old";
    assert "old"[0] != "new"[0];
  }

  lemma OneRowUpsert(ix: Index, rec: VectorRecord)
    ensures Upserted(ix, [rec]) == UpsertOne(ix, rec)
  {
    assert [rec][..0] == [];
  }

  lemma RevivalEnds()
    ensures Reaches(12, REVIVED)
  {
    hide Applied, Shape;
    var a, b := Write(0, "old"), Write(1, "new");
    var m0 := Init(EMPTY_HOT);
    assert Reaches(0, m0);
    var m1 := Machine([OpRow(a, Pending, 0, None)], EMPTY_HOT, true, None, [], [0], {});
    NextReached(0, m0, m1);
    var m2 := Machine([OpRow(a, Pending, 0, None), OpRow(b, Pending, 0, None)], EMPTY_HOT, true, None, [], [0, 0], {});
    NextReached(1, m1, m2);
    FailsForGood(m2);
    var m5 := m2.(log := [OpRow(a, Failed, 1, None), OpRow(b, Pending, 0, None)]);
    SecondSucceeds(m5);
    var m8 := m5.(log := [OpRow(a, Failed, 1, None), OpRow(b, Done, 0, None)],
                  idx := Applied(b, EMPTY_HOT), effects := [1]);
    var m9 := m8.(log := [OpRow(a, Pending, 1, None), OpRow(b, Done, 0, None)], retried := {0});
    NextReached(8, m8, m9);
    RevivedRuns(m9);
  }

  lemma FailsForGood(m: Machine)
    requires m == Machine([OpRow(Write(0, "old"), Pending, 0, None), OpRow(Write(1, "new"), Pending, 0, None)],
                          EMPTY_HOT, true, None, [], [0, 0], {})
    requires Reaches(2, m)
    ensures Reaches(5, m.(log := [OpRow(Write(0, "old"), Failed, 1, None), m.log[1]]))
  {
    hide Shape, Run;
    assert Eligible(m.log, 0, 0);
    var m3 := m.(log := [OpRow(Write(0, "old"), InProgress, 0, None), m.log[1]], flight := Some(Flight(0, None)));
    NextReached(2, m, m3);
    var m4 := m3.(flight := Some(Flight(0, Some(false))));
    NextReached(3, m3, m4);
    NextReached(4, m4, m.(log := [OpRow(Write(0, "old"), Failed, 1, None), m.log[1]]));
  }

  lemma SecondSucceeds(m: Machine)
    requires m == Machine([OpRow(Write(0, "old"), Failed, 1, None), OpRow(Write(1, "new"), Pending, 0, None)],
                          EMPTY_HOT, true, None, [], [0, 0], {})
    requires Reaches(5, m)
    ensures Reaches(8, m.(log := [m.log[0], OpRow(Write(1, "new"), Done, 0, None)],
                          idx := Applied(Write(1, "new"), EMPTY_HOT), effects := [1]))
  {
    hide Shape, Run;
    assert Eligible(m.log, 1, 0) && !Eligible(m.log, 0, 0);
    var m6 := m.(log := [m.log[0], OpRow(Write(1, "new"), InProgress, 0, None)], flight := Some(Flight(1, None)));
    NextReached(5, m, m6);
    var m7 := m6.(idx := Applied(Write(1, "new"), EMPTY_HOT), effects := [1], flight := Some(Flight(1, Some(true))));
    NextReached(6, m6, m7);
    NextReached(7, m7, m.(log := [m.log[0], OpRow(Write(1, "new"), Done, 0, None)],
                          idx := Applied(Write(1, "new"), EMPTY_HOT), effects := [1]));
  }

  lemma RevivedRuns(m: Machine)
    requires m == Machine([OpRow(Write(0, "old"), Pending, 1, None), OpRow(Write(1, "new"), Done, 0, None)],
                          Applied(Write(1, "new"), EMPTY_HOT), true, None, [1], [0, 0], {0})
    requires Reaches(9, m)
    ensures Reaches(12, m.(log := [OpRow(Write(0, "old"), Done, 1, None), m.log[1]],
                           idx := Applied(Write(0, "old"), m.idx), effects := [1, 0]))
  {
    hide Shape, Run;
    assert Eligible(m.log, 0, 0);
    var m10 := m.(log := [OpRow(Write(0, "old"), InProgress, 1, None), m.log[1]], flight := Some(Flight(0, None)));
    NextReached(9, m, m10);
    var m11 := m10.(idx := Applied(Write(0, "old"), m.idx), effects := [1, 0], flight := Some(Flight(0, Some(true))));
    NextReached(10, m10, m11);
    NextReached(11, m11, m.(log := [OpRow(Write(0, "old"), Done, 1, None), m.log[1]],
                            idx := Applied(Write(0, "old"), m.idx), effects := [1, 0]));
  }
}
