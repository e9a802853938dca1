/**
 The canonical store (strata/canonical/store.py): records, dependency edges and tombstones,
 each commit one function of the three tables, and the object that owns them.
 */
module Canonical {
  import opened Records

  datatype Edge = Edge(parent: Id, child: Id, rel: Relation)

  datatype Mode = Logical | Hard

  datatype DeletionState =
    | Requested | CanonicalTombstoned | IndexDeleting | PartiallyFailed | Verified | ManualAttention

  datatype Tombstone = Tombstone(mode: Mode, state: DeletionState, jobId: nat, verifiedAt: Option<int>)

  datatype Canon = Canon(records: map<Id, Record>, deps: set<Edge>, tombs: map<Id, Tombstone>)

  // ---- commits ----

  function Written(c: Canon, rec: Record, now: int): Canon {
    c.(records := c.records[rec.id := rec.(updatedAt := now)])
  }

  function WithStatus(c: Canon, id: Id, s: Status, now: int): Canon {
    if id in c.records then c.(records := c.records[id := c.records[id].(status := s, updatedAt := now)]) else c
  }

  /** Both ends of an edge have to be records; otherwise the insert is a foreign-key error. */
  predicate CanLink(c: Canon, parent: Id, child: Id) {
    parent in c.records && child in c.records
  }

  function Linked(c: Canon, e: Edge): Canon {
    c.(deps := c.deps + {e})
  }

  /** A second tombstone changes mode and state but keeps the first job id. */
  function Tombstoned(c: Canon, id: Id, mode: Mode, jobId: nat, state: DeletionState, now: int): Canon {
    var t := if id in c.tombs then c.tombs[id].(mode := mode, state := state)
             else Tombstone(mode, state, jobId, None);
    WithStatus(c.(tombs := c.tombs[id := t]), id, Deleted, now)
  }

  function WithTombState(c: Canon, id: Id, state: DeletionState, verifiedAt: Option<int>): Canon {
    if id !in c.tombs then c
    else
      var t := c.tombs[id].(state := state);
      c.(tombs := c.tombs[id := if verifiedAt.Some? then t.(verifiedAt := verifiedAt) else t])
  }

  /** The row goes and its edges cascade; the tombstone stays. */
  function Erased(c: Canon, id: Id): Canon {
    var kept := set e | e in c.deps && e.parent != id && e.child != id;
    Canon(c.records - {id}, kept, c.tombs)
  }

  function SupersedersOf(c: Canon, id: Id): set<Id> {
    set e | e in c.deps && e.child == id && e.rel == Supersedes :: e.parent
  }

  function ContradictorsOf(c: Canon, id: Id): set<Id> {
    (set e | e in c.deps && e.parent == id && e.rel == Contradicts :: e.child) +
    (set e | e in c.deps && e.child == id && e.rel == Contradicts :: e.parent)
  }

  /** In the table, in an active status, and not deleted. */
  predicate Current(c: Canon, id: Id) {
    id in c.records && IsActive(c.records[id].status) && id !in c.tombs
  }

  // ---- the dependency graph ----

  function Neighbors(deps: set<Edge>, x: Id): set<Id> {
    (set e | e in deps && e.parent == x :: e.child) + (set e | e in deps && e.child == x :: e.parent)
  }

  function Nodes(deps: set<Edge>): set<Id> {
    (set e | e in deps :: e.parent) + (set e | e in deps :: e.child)
  }

  ghost predicate IsPath(deps: set<Edge>, p: seq<Id>, x: Id, y: Id) {
    && p != []
    && p[0] == x
    && p[|p| - 1] == y
    && forall k :: 0 < k < |p| ==> p[k] in Neighbors(deps, p[k - 1])
  }

  ghost predicate Connected(deps: set<Edge>, x: Id, y: Id) {
    exists p :: IsPath(deps, p, x, y)
  }

  /** The undirected connected component of `x`, `x` included. */
  ghost function Component(deps: set<Edge>, x: Id): (s: set<Id>)
    ensures forall y :: y in s <==> y in Nodes(deps) + {x} && Connected(deps, x, y)
  {
    set y | y in Nodes(deps) + {x} && Connected(deps, x, y)
  }

  lemma NeighborsSymmetric(deps: set<Edge>, x: Id, y: Id)
    ensures y in Neighbors(deps, x) <==> x in Neighbors(deps, y)
    ensures y in Neighbors(deps, x) ==> x in Nodes(deps) && y in Nodes(deps)
  {
  }

  lemma ConnectedSelf(deps: set<Edge>, x: Id)
    ensures Connected(deps, x, x)
  {
    assert IsPath(deps, [x], x, x);
  }

  lemma ConnectedStep(deps: set<Edge>, x: Id, y: Id, z: Id)
    requires Connected(deps, x, y) && z in Neighbors(deps, y)
    ensures Connected(deps, x, z)
  {
    var p :| IsPath(deps, p, x, y);
    assert IsPath(deps, p + [z], x, z);
  }

  /** A set that holds `x` and is closed under neighbours holds everything connected to `x`. */
  lemma {:induction false} ClosedCovers(deps: set<Edge>, s: set<Id>, p: seq<Id>, x: Id, y: Id)
    requires x in s && forall a, b :: a in s && b in Neighbors(deps, a) ==> b in s
    requires IsPath(deps, p, x, y)
    ensures y in s
  {
    if |p| > 1 {
      var q := p[..|p| - 1];
      assert IsPath(deps, q, x, q[|q| - 1]);
      ClosedCovers(deps, s, q, x, q[|q| - 1]);
    }
  }

  lemma PathReverses(deps: set<Edge>, p: seq<Id>, x: Id, y: Id)
    requires IsPath(deps, p, x, y)
    ensures IsPath(deps, seq(|p|, k requires 0 <= k < |p| => p[|p| - 1 - k]), y, x)
  {
    var r := seq(|p|, k requires 0 <= k < |p| => p[|p| - 1 - k]);
    forall k | 0 < k < |r|
      ensures r[k] in Neighbors(deps, r[k - 1])
    {
      var j := |p| - k;
      assert r[k] == p[j - 1] && r[k - 1] == p[j];
      NeighborsSymmetric(deps, p[j - 1], p[j]);
    }
  }

  lemma {:induction false} ConnectedNodes(deps: set<Edge>, p: seq<Id>, x: Id, y: Id)
    requires IsPath(deps, p, x, y)
    ensures y == x || (y in Nodes(deps) && x in Nodes(deps))
  {
    if |p| > 1 {
      NeighborsSymmetric(deps, p[0], p[1]);
      NeighborsSymmetric(deps, p[|p| - 2], p[|p| - 1]);
    }
  }

  /** Membership in a component is symmetric. */
  lemma ComponentSymmetric(deps: set<Edge>, x: Id, y: Id)
    ensures y in Component(deps, x) <==> x in Component(deps, y)
  {
    if Connected(deps, x, y) {
      var p :| IsPath(deps, p, x, y);
      PathReverses(deps, p, x, y);
      ConnectedNodes(deps, p, x, y);
      assert Connected(deps, y, x);
    }
    if Connected(deps, y, x) {
      var p :| IsPath(deps, p, y, x);
      PathReverses(deps, p, y, x);
      ConnectedNodes(deps, p, y, x);
      assert Connected(deps, x, y);
    }
  }

  /** No dependency edge leads out of a component. */
  lemma NoEdgeLeavesComponent(deps: set<Edge>, x: Id, e: Edge)
    requires e in deps
    ensures e.parent in Component(deps, x) <==> e.child in Component(deps, x)
  {
    assert e.child in Neighbors(deps, e.parent) && e.parent in Neighbors(deps, e.child);
    if Connected(deps, x, e.parent) {
      ConnectedStep(deps, x, e.parent, e.child);
    }
    if Connected(deps, x, e.child) {
      ConnectedStep(deps, x, e.child, e.parent);
    }
  }

  /** No edge crosses out of the set. */
  predicate EdgeClosed(deps: set<Edge>, s: set<Id>) {
    forall e :: e in deps ==> (e.parent in s <==> e.child in s)
  }

  /** A component is the least set that holds `x` and that no edge crosses out of. */
  lemma ComponentIsLeast(deps: set<Edge>, x: Id, s: set<Id>)
    requires x in s && forall e :: e in deps ==> (e.parent in s <==> e.child in s)
    ensures x in Component(deps, x) && EdgeClosed(deps, Component(deps, x))
    ensures Component(deps, x) <= s
  {
    ConnectedSelf(deps, x);
    forall e | e in deps
      ensures e.parent in Component(deps, x) <==> e.child in Component(deps, x)
    {
      NoEdgeLeavesComponent(deps, x, e);
    }
    forall y | y in Component(deps, x)
      ensures y in s
    {
      var p :| IsPath(deps, p, x, y);
      ClosedCovers(deps, s, p, x, y);
    }
  }

  // ---- the store object ----

  class CanonicalStore {
    var records: map<Id, Record>
    var deps: set<Edge>
    var tombs: map<Id, Tombstone>

    constructor ()
      ensures Model() == Canon(map[], {}, map[])
    {
      records, deps, tombs := map[], {}, map[];
    }

    function Model(): Canon
      reads this
    {
      Canon(records, deps, tombs)
    }

    method Write(rec: Record, now: int) returns (written: Record)
      modifies this
      ensures Model() == Written(old(Model()), rec, now)
      ensures written == rec.(updatedAt := now) && records == old(records)[rec.id := written]
      ensures deps == old(deps) && tombs == old(tombs)
    {
      written := rec.(updatedAt := now);
      records := records[rec.id := written];
    }

    /** Whether the edge could be added; it cannot when an end is not a record. */
    method AddDependency(parent: Id, child: Id, rel: Relation) returns (ok: bool)
      modifies this
      ensures ok == CanLink(old(Model()), parent, child)
      ensures ok <==> parent in records && child in records
      ensures Model() == if ok then Linked(old(Model()), Edge(parent, child, rel)) else old(Model())
      ensures deps == (if ok then old(deps) + {Edge(parent, child, rel)} else old(deps))
      ensures records == old(records) && tombs == old(tombs)
    {
      ok := parent in records && child in records;
      if ok {
        deps := deps + {Edge(parent, child, rel)};
      }
    }

    method SetStatus(id: Id, s: Status, now: int)
      modifies this
      ensures Model() == WithStatus(old(Model()), id, s, now)
      ensures records == if id in old(records)
                         then old(records)[id := old(records)[id].(status := s, updatedAt := now)] else old(records)
      ensures deps == old(deps) && tombs == old(tombs)
    {
      if id in records {
        records := records[id := records[id].(status := s, updatedAt := now)];
      }
    }

    method Supersede(oldId: Id, rec: Record, now: int) returns (ok: bool)
      modifies this
      ensures ok <==> oldId in old(records) || oldId == rec.id
      ensures oldId in records ==> records[oldId].status == Superseded
      ensures var c := WithStatus(Written(old(Model()), rec, now), oldId, Superseded, now);
              && ok == (oldId in c.records)
              && Model() == if ok then Linked(c, Edge(rec.id, oldId, Supersedes)) else c
    {
      var written := Write(rec, now);
      SetStatus(oldId, Superseded, now);
      ok := AddDependency(written.id, oldId, Supersedes);
    }

    method MarkDeleted(id: Id, mode: Mode, jobId: nat, state: DeletionState, now: int)
      modifies this
      ensures Model() == Tombstoned(old(Model()), id, mode, jobId, state, now)
      ensures tombs == old(tombs)[id := if id in old(tombs) then old(tombs)[id].(mode := mode, state := state)
                                        else Tombstone(mode, state, jobId, None)]
      ensures records == if id in old(records)
                         then old(records)[id := old(records)[id].(status := Deleted, updatedAt := now)]
                         else old(records)
      ensures deps == old(deps)
    {
      if id in tombs {
        tombs := tombs[id := tombs[id].(mode := mode, state := state)];
      } else {
        tombs := tombs[id := Tombstone(mode, state, jobId, None)];
      }
      SetStatus(id, Deleted, now);
    }

    method SetTombstoneState(id: Id, state: DeletionState, verifiedAt: Option<int>)
      modifies this
      ensures Model() == WithTombState(old(Model()), id, state, verifiedAt)
      ensures records == old(records) && deps == old(deps) && tombs.Keys == old(tombs).Keys
      ensures forall i :: i in tombs ==> tombs[i] == if i != id then old(tombs)[i]
                else old(tombs)[i].(state := state,
                                    verifiedAt := if verifiedAt.Some? then verifiedAt else old(tombs)[i].verifiedAt)
    {
      if id in tombs {
        tombs := tombs[id := tombs[id].(state := state)];
        if verifiedAt.Some? {
          tombs := tombs[id := tombs[id].(verifiedAt := verifiedAt)];
        }
      }
    }

    method HardDelete(id: Id)
      modifies this
      ensures Model() == Erased(old(Model()), id)
      ensures records == old(records) - {id} && tombs == old(tombs)
      ensures forall e :: e in deps <==> e in old(deps) && e.parent != id && e.child != id
    {
      records := records - {id};
      deps := set e | e in deps && e.parent != id && e.child != id;
    }

    /**
     The worklist traversal. Ids may sit on the frontier more than once; the result is the
     component of `x` without `x`, on every graph.
     */
    method DependencyGraph(x: Id) returns (found: set<Id>)
      ensures found == Component(deps, x) - {x}
      ensures EdgeClosed(deps, found + {x}) && x !in found
    {
      var seen: set<Id>, frontier := {}, [x];
      ghost var all := Nodes(deps) + {x};
      ConnectedSelf(deps, x);
      while frontier != []
        invariant seen <= all
        invariant forall f :: f in frontier ==> f in all && Connected(deps, x, f)
        invariant forall s :: s in seen ==> Connected(deps, x, s)
        invariant x in seen || x in frontier
        invariant forall s, n :: s in seen && n in Neighbors(deps, s) ==> n in seen || n in frontier
        decreases all - seen, |frontier|
      {
        var current := frontier[|frontier| - 1];
        ghost var before := frontier;
        frontier := frontier[..|frontier| - 1];
        assert before == frontier + [current];
        if current in seen {
          continue;
        }
        seen := seen + {current};
        var rows := Neighbors(deps, current);
        frontier := PushUnseen(rows, seen, frontier);
        forall n | n in rows
          ensures n in all && Connected(deps, x, n)
        {
          NeighborsSymmetric(deps, current, n);
          ConnectedStep(deps, x, current, n);
        }
      }
      forall y | Connected(deps, x, y)
        ensures y in seen
      {
        var p :| IsPath(deps, p, x, y);
        ClosedCovers(deps, seen, p, x, y);
      }
      found := seen - {x};
      assert found + {x} == Component(deps, x);
      ComponentIsLeast(deps, x, all);
    }

    /** Push the rows not seen yet, in whatever order they come. */
    method PushUnseen(rows: set<Id>, seen: set<Id>, frontier: seq<Id>) returns (r: seq<Id>)
      ensures forall n :: n in r <==> n in frontier || (n in rows && n !in seen)
    {
      r := frontier;
      var rest := rows;
      while rest != {}
        invariant rest <= rows
        invariant forall n :: n in r <==> n in frontier || (n in rows - rest && n !in seen)
      {
        var n :| n in rest;
        if n !in seen {
          r := r + [n];
        }
        rest := rest - {n};
      }
    }
  }
}
