// The worker_site_assignments table (WorkerSiteAssignmentDao) and the
// repository operations that move a worker between sites
// (WorkerSiteAssignmentRepository). The headline invariant: each worker has at
// most one active assignment row.
module Assignments {
  import opened Wrappers
  import opened Collections
  import opened Entities

  /** The contents of the table and the next key AUTOINCREMENT hands out. */
  datatype AssignmentTable = AssignmentTable(rows: seq<Assignment>, nextId: int)

  /** Keys are unique and every stored key is below the next generated one. */
  predicate ValidTable(t: AssignmentTable)
  {
    ValidKeys(t.rows, t.nextId, AssignmentKey)
  }

  // Row conditions, as the WHERE clauses state them.
  function ActiveOf(w: int): Assignment -> bool { (a: Assignment) => a.workerId == w && a.isActive }
  function OfWorker(w: int): Assignment -> bool { (a: Assignment) => a.workerId == w }
  function NotOfWorker(w: int): Assignment -> bool { (a: Assignment) => a.workerId != w }
  function AtSite(s: int): Assignment -> bool { (a: Assignment) => a.siteId == s }

  /** The active rows of worker w, in table order. */
  function ActiveRowsOf(rows: seq<Assignment>, w: int): seq<Assignment>
  {
    Filter(rows, ActiveOf(w))
  }

  /** No two active rows belong to the same worker. */
  predicate AtMostOneActive(rows: seq<Assignment>)
  {
    forall i, j :: 0 <= i < j < |rows| && rows[i].isActive && rows[j].isActive ==> rows[i].workerId != rows[j].workerId
  }

  /** Worker w's active rows are one row, at site s, from date on and open-ended. */
  predicate SoleActiveAt(rows: seq<Assignment>, w: int, s: int, date: string)
  {
    var active := ActiveRowsOf(rows, w);
    |active| == 1 && active[0].siteId == s && active[0].assignmentDate == date && active[0].endDate == None
  }

  /** Under the invariant a worker has zero or one active rows. */
  lemma {:induction false} AtMostOneActiveRow(rows: seq<Assignment>, w: int)
    requires AtMostOneActive(rows)
    ensures |ActiveRowsOf(rows, w)| <= 1
    decreases |rows|
  {
    if rows != [] {
      var tail := rows[1..];
      assert AtMostOneActive(tail) by {
        forall i, j | 0 <= i < j < |tail| && tail[i].isActive && tail[j].isActive
          ensures tail[i].workerId != tail[j].workerId
        {
          assert tail[i] == rows[i + 1] && tail[j] == rows[j + 1];
        }
      }
      AtMostOneActiveRow(tail, w);
      if rows[0].workerId == w && rows[0].isActive {
        forall j | 0 <= j < |tail| ensures !ActiveOf(w)(tail[j]) {
          assert tail[j] == rows[j + 1];
        }
        assert ActiveRowsOf(rows, w) == [rows[0]] + ActiveRowsOf(tail, w);
      }
    }
  }

  // ---- The UPDATE, the insert and the repository steps, as functions of the table ----

  /**
   * deactivateCurrentAssignments(w, endDate): every active row of w becomes
   * inactive and ends on endDate; all other rows, including w's already
   * inactive ones, stay as they are.
   */
  function Deactivated(rows: seq<Assignment>, w: int, endDate: string): (out: seq<Assignment>)
    ensures |out| == |rows|
    ensures forall i :: 0 <= i < |out| ==> !(out[i].workerId == w && out[i].isActive)
    ensures forall i :: 0 <= i < |rows| && !(rows[i].workerId == w && rows[i].isActive) ==> out[i] == rows[i]
    ensures forall i :: 0 <= i < |rows| && rows[i].workerId == w && rows[i].isActive ==>
      out[i] == rows[i].(isActive := false, endDate := Some(endDate))
  {
    MapWhere(rows, ActiveOf(w), (a: Assignment) => a.(isActive := false, endDate := Some(endDate)))
  }

  /** A second deactivation of the same worker changes nothing, whatever its end date. */
  lemma DeactivateIdempotent(rows: seq<Assignment>, w: int, e1: string, e2: string)
    ensures Deactivated(Deactivated(rows, w, e1), w, e2) == Deactivated(rows, w, e1)
  {
  }

  /** After deactivation the worker has no active row and other workers' rows are untouched. */
  lemma DeactivateEffect(rows: seq<Assignment>, w: int, endDate: string)
    ensures ActiveRowsOf(Deactivated(rows, w, endDate), w) == []
    ensures forall v :: v != w ==> ActiveRowsOf(Deactivated(rows, w, endDate), v) == ActiveRowsOf(rows, v)
    ensures Filter(Deactivated(rows, w, endDate), NotOfWorker(w)) == Filter(rows, NotOfWorker(w))
    ensures AtMostOneActive(rows) ==> AtMostOneActive(Deactivated(rows, w, endDate))
  {
    DeactivateKeepsOthers(rows, w, endDate);
    FilterPointwise(rows, Deactivated(rows, w, endDate), NotOfWorker(w));
  }

  lemma DeactivateKeepsOthers(rows: seq<Assignment>, w: int, endDate: string)
    ensures forall v :: v != w ==> ActiveRowsOf(Deactivated(rows, w, endDate), v) == ActiveRowsOf(rows, v)
  {
    var out := Deactivated(rows, w, endDate);
    forall v | v != w ensures ActiveRowsOf(out, v) == ActiveRowsOf(rows, v) {
      FilterPointwise(rows, out, ActiveOf(v));
    }
  }

  /** The key the insert stores the row under: a fresh one for key 0. */
  function InsertedId(t: AssignmentTable, a: Assignment): int
  {
    InsertKey(a, t.nextId, AssignmentKey)
  }

  /**
   * insertAssignment (INSERT OR REPLACE): key 0 appends the row under a
   * fresh key; a key already stored overwrites that row in place.
   */
  function AfterInsert(t: AssignmentTable, a: Assignment): (r: AssignmentTable)
    requires ValidTable(t)
    ensures ValidTable(r)
    ensures a.assignmentId == 0 ==> r.rows == t.rows + [a.(assignmentId := t.nextId)] && r.nextId == t.nextId + 1
    ensures a.assignmentId != 0 && HasId(t.rows, a.assignmentId, AssignmentKey) ==>
      |r.rows| == |t.rows| && r.nextId == t.nextId
      && forall i :: 0 <= i < |t.rows| ==> r.rows[i] == if t.rows[i].assignmentId == a.assignmentId then a else t.rows[i]
  {
    var id := InsertedId(t, a);
    var row := a.(assignmentId := id);
    UpsertKeepsValid(t.rows, t.nextId, row, AssignmentKey);
    if a.assignmentId == 0 then
      UpsertFresh(t.rows, t.nextId, row, AssignmentKey);
      AssignmentTable(Upsert(t.rows, row, AssignmentKey), NextKeyAfter(t.nextId, id))
    else
      assert row == a;
      AssignmentTable(Upsert(t.rows, row, AssignmentKey), NextKeyAfter(t.nextId, id))
  }

  /** The row assignWorkerToSite creates. */
  function NewAssignment(w: int, s: int, date: string): Assignment
  {
    Assignment(0, w, s, date, None, true)
  }

  /** assignWorkerToSite(w, s, date): deactivate w's rows as of date, then insert the new active row. */
  function AfterAssign(t: AssignmentTable, w: int, s: int, date: string): (r: AssignmentTable)
    requires ValidTable(t)
    ensures ValidTable(r)
  {
    AfterInsert(AssignmentTable(Deactivated(t.rows, w, date), t.nextId), NewAssignment(w, s, date))
  }

  lemma DeactivatedValid(t: AssignmentTable, w: int, date: string)
    requires ValidTable(t)
    ensures ValidTable(AssignmentTable(Deactivated(t.rows, w, date), t.nextId))
  {
  }

  /**
   * After assignWorkerToSite(w, s, date) worker w has exactly one active row,
   * the new one at site s under a fresh key; every row of every other worker
   * is as before, and the table has grown by exactly one row.
   */
  lemma AssignEffect(t: AssignmentTable, w: int, s: int, date: string)
    requires ValidTable(t)
    ensures ActiveRowsOf(AfterAssign(t, w, s, date).rows, w) == [Assignment(t.nextId, w, s, date, None, true)]
    ensures forall v :: v != w ==> ActiveRowsOf(AfterAssign(t, w, s, date).rows, v) == ActiveRowsOf(t.rows, v)
    ensures Filter(AfterAssign(t, w, s, date).rows, NotOfWorker(w)) == Filter(t.rows, NotOfWorker(w))
    ensures |AfterAssign(t, w, s, date).rows| == |t.rows| + 1
    ensures AfterAssign(t, w, s, date).nextId == t.nextId + 1
  {
    var d := Deactivated(t.rows, w, date);
    DeactivatedValid(t, w, date);
    DeactivateEffect(t.rows, w, date);
    var row := Assignment(t.nextId, w, s, date, None, true);
    assert AfterAssign(t, w, s, date).rows == d + [row];
    FilterAppend(d, [row], ActiveOf(w));
    forall v | v != w ensures ActiveRowsOf(d + [row], v) == ActiveRowsOf(t.rows, v) {
      FilterAppend(d, [row], ActiveOf(v));
    }
    FilterAppend(d, [row], NotOfWorker(w));
  }

  /** assignWorkerToSite keeps "at most one active row per worker". */
  lemma AssignKeepsSingleActive(t: AssignmentTable, w: int, s: int, date: string)
    requires ValidTable(t) && AtMostOneActive(t.rows)
    ensures AtMostOneActive(AfterAssign(t, w, s, date).rows)
  {
    var d := Deactivated(t.rows, w, date);
    DeactivatedValid(t, w, date);
    DeactivateEffect(t.rows, w, date);
    AppendActiveKeepsSingle(d, Assignment(t.nextId, w, s, date, None, true));
  }

  lemma AppendActiveKeepsSingle(rows: seq<Assignment>, row: Assignment)
    requires AtMostOneActive(rows)
    requires forall i :: 0 <= i < |rows| ==> !(rows[i].workerId == row.workerId && rows[i].isActive)
    ensures AtMostOneActive(rows + [row])
  {
  }

  /** Reassigning a worker to the site they are already active on still closes the old row and adds a new one. */
  lemma ReassignIsNotNoOp(t: AssignmentTable, w: int, s: int, date: string)
    requires ValidTable(t)
    requires exists i :: 0 <= i < |t.rows| && t.rows[i].workerId == w && t.rows[i].siteId == s && t.rows[i].isActive
    ensures AfterAssign(t, w, s, date).rows != t.rows
    ensures exists i :: 0 <= i < |t.rows| && AfterAssign(t, w, s, date).rows[i] == t.rows[i].(isActive := false, endDate := Some(date))
  {
    AssignEffect(t, w, s, date);
    var i :| 0 <= i < |t.rows| && t.rows[i].workerId == w && t.rows[i].siteId == s && t.rows[i].isActive;
    assert AfterAssign(t, w, s, date).rows[i] == Deactivated(t.rows, w, date)[i];
  }

  /** One entry of insertWorkerSiteAssignments: deactivate the worker as of the entry's date, then insert it as active. */
  function AfterBulkStep(t: AssignmentTable, e: Assignment): (r: AssignmentTable)
    requires ValidTable(t)
    ensures ValidTable(r)
  {
    DeactivatedValid(t, e.workerId, e.assignmentDate);
    AfterInsert(AssignmentTable(Deactivated(t.rows, e.workerId, e.assignmentDate), t.nextId), e.(isActive := true))
  }

  /** insertWorkerSiteAssignments(list): the entries processed in list order. */
  function AfterBulk(t: AssignmentTable, list: seq<Assignment>): (r: AssignmentTable)
    requires ValidTable(t)
    ensures ValidTable(r)
  {
    if list == [] then t else AfterBulkStep(AfterBulk(t, list[..|list| - 1]), list[|list| - 1])
  }

  /** One bulk entry keeps "at most one active row per worker", whatever key it carries. */
  lemma BulkStepKeepsSingleActive(t: AssignmentTable, e: Assignment)
    requires ValidTable(t) && AtMostOneActive(t.rows)
    ensures AtMostOneActive(AfterBulkStep(t, e).rows)
  {
    var d := Deactivated(t.rows, e.workerId, e.assignmentDate);
    DeactivatedValid(t, e.workerId, e.assignmentDate);
    DeactivateEffect(t.rows, e.workerId, e.assignmentDate);
    var dt := AssignmentTable(d, t.nextId);
    var row := e.(isActive := true, assignmentId := InsertedId(dt, e));
    if HasId(d, row.assignmentId, AssignmentKey) {
      var out := ReplaceById(d, row, AssignmentKey);
      assert AfterBulkStep(t, e).rows == out;
      forall i, j | 0 <= i < j < |out| && out[i].isActive && out[j].isActive
        ensures out[i].workerId != out[j].workerId
      {
        assert !(d[i].assignmentId == row.assignmentId && d[j].assignmentId == row.assignmentId);
      }
    } else {
      assert AfterBulkStep(t, e).rows == d + [row];
      AppendActiveKeepsSingle(d, row);
    }
  }

  /** insertWorkerSiteAssignments keeps "at most one active row per worker". */
  lemma {:induction false} BulkKeepsSingleActive(t: AssignmentTable, list: seq<Assignment>)
    requires ValidTable(t) && AtMostOneActive(t.rows)
    ensures AtMostOneActive(AfterBulk(t, list).rows)
    decreases |list|
  {
    if list != [] {
      BulkKeepsSingleActive(t, list[..|list| - 1]);
      BulkStepKeepsSingleActive(AfterBulk(t, list[..|list| - 1]), list[|list| - 1]);
    }
  }

  /** The last entry of the list that concerns worker w. */
  function LastEntryFor(list: seq<Assignment>, w: int): (r: Option<Assignment>)
    ensures r.Some? ==> r.value in list && r.value.workerId == w
    ensures r.None? <==> forall i :: 0 <= i < |list| ==> list[i].workerId != w
  {
    if list == [] then None
    else if list[|list| - 1].workerId == w then Some(list[|list| - 1])
    else
      var r := LastEntryFor(list[..|list| - 1], w);
      assert forall i :: 0 <= i < |list| - 1 ==> list[..|list| - 1][i] == list[i];
      r
  }

  /** A bulk entry with key 0 for worker w makes it w's only active row and leaves other workers' active rows alone. */
  lemma BulkStepEffect(t: AssignmentTable, e: Assignment)
    requires ValidTable(t) && e.assignmentId == 0
    ensures ActiveRowsOf(AfterBulkStep(t, e).rows, e.workerId) == [e.(isActive := true, assignmentId := t.nextId)]
    ensures forall v :: v != e.workerId ==> ActiveRowsOf(AfterBulkStep(t, e).rows, v) == ActiveRowsOf(t.rows, v)
  {
    var w := e.workerId;
    var d := Deactivated(t.rows, w, e.assignmentDate);
    DeactivatedValid(t, w, e.assignmentDate);
    DeactivateEffect(t.rows, w, e.assignmentDate);
    var row := e.(isActive := true, assignmentId := t.nextId);
    assert AfterBulkStep(t, e).rows == d + [row];
    FilterAppend(d, [row], ActiveOf(w));
    forall v | v != w ensures ActiveRowsOf(d + [row], v) == ActiveRowsOf(t.rows, v) {
      FilterAppend(d, [row], ActiveOf(v));
    }
  }

  /**
   * When the entries carry key 0 (as the new-site screen builds them), the
   * later entry for a worker is the one left active: afterwards the worker's
   * only active row has that entry's site, date and end date. A worker with
   * no entry keeps its active rows.
   */
  lemma {:induction false} BulkLaterEntryWins(t: AssignmentTable, list: seq<Assignment>, w: int)
    requires ValidTable(t)
    requires forall i :: 0 <= i < |list| ==> list[i].assignmentId == 0
    ensures match LastEntryFor(list, w)
      case None => ActiveRowsOf(AfterBulk(t, list).rows, w) == ActiveRowsOf(t.rows, w)
      case Some(e) =>
        var active := ActiveRowsOf(AfterBulk(t, list).rows, w);
        |active| == 1 && active[0].siteId == e.siteId && active[0].assignmentDate == e.assignmentDate
        && active[0].endDate == e.endDate
    decreases |list|
  {
    if list != [] {
      var init, e := list[..|list| - 1], list[|list| - 1];
      assert forall i :: 0 <= i < |init| ==> init[i] == list[i];
      BulkLaterEntryWins(t, init, w);
      BulkStepEffect(AfterBulk(t, init), e);
    }
  }

  // ---- The raw table operations do not keep the invariant ----

  /** A raw insert of a second active row for a worker breaks "at most one active row per worker". */
  lemma RawInsertBreaksSingleActive()
    ensures var t := AssignmentTable([Assignment(1, 7, 1, "2024-01-01", None, true)], 2);
      ValidTable(t) && AtMostOneActive(t.rows)
      && !AtMostOneActive(AfterInsert(t, Assignment(0, 7, 2, "2024-02-01", None, true)).rows)
  {
    var t := AssignmentTable([Assignment(1, 7, 1, "2024-01-01", None, true)], 2);
    var r := AfterInsert(t, Assignment(0, 7, 2, "2024-02-01", None, true));
    assert r.rows[0].isActive && r.rows[1].isActive && r.rows[0].workerId == r.rows[1].workerId;
  }

  /** A raw update that reactivates an old row breaks "at most one active row per worker". */
  lemma RawUpdateBreaksSingleActive()
    ensures var rows := [Assignment(1, 7, 1, "2024-01-01", Some("2024-02-01"), false), Assignment(2, 7, 2, "2024-02-01", None, true)];
      AtMostOneActive(rows)
      && !AtMostOneActive(UpdateById(rows, Assignment(1, 7, 1, "2024-01-01", None, true), AssignmentKey))
  {
    var rows := [Assignment(1, 7, 1, "2024-01-01", Some("2024-02-01"), false), Assignment(2, 7, 2, "2024-02-01", None, true)];
    var u := Assignment(1, 7, 1, "2024-01-01", None, true);
    assert HasId(rows, 1, AssignmentKey) by { assert AssignmentKey(rows[0]) == 1; }
    var out := UpdateById(rows, u, AssignmentKey);
    assert out[0] == u && out[1] == rows[1];
  }

  // ---- Queries ----

  function AssignmentDateKey(a: Assignment): string { a.assignmentDate }

  /** getAssignmentsForWorker(w): exactly w's rows, newest assignment date first. */
  function AssignmentsForWorker(rows: seq<Assignment>, w: int): (r: seq<Assignment>)
    ensures forall a :: a in r <==> a in rows && a.workerId == w
    ensures |r| == |Filter(rows, OfWorker(w))|
    ensures SortedBy(r, AssignmentDateKey, true)
  {
    var r := Select(rows, OfWorker(w), AssignmentDateKey, true);
    assert |r| == |multiset(r)|;
    r
  }

  /** getAssignmentsForSite(s): exactly the rows of site s, newest assignment date first. */
  function AssignmentsForSite(rows: seq<Assignment>, s: int): (r: seq<Assignment>)
    ensures forall a :: a in r <==> a in rows && a.siteId == s
    ensures |r| == |Filter(rows, AtSite(s))|
    ensures SortedBy(r, AssignmentDateKey, true)
  {
    var r := Select(rows, AtSite(s), AssignmentDateKey, true);
    assert |r| == |multiset(r)|;
    r
  }

  /** getActiveAssignmentForWorker(w) (LIMIT 1): the first active row of w, or none. */
  function ActiveAssignmentForWorker(rows: seq<Assignment>, w: int): (r: Option<Assignment>)
    ensures r.None? <==> forall i :: 0 <= i < |rows| ==> !(rows[i].workerId == w && rows[i].isActive)
    ensures r.Some? ==> r.value in rows && r.value.workerId == w && r.value.isActive
  {
    var active := ActiveRowsOf(rows, w);
    if active == [] then None
    else
      assert active[0] in active;
      Some(active[0])
  }

  /** Under the invariant, the row getActiveAssignmentForWorker returns is the worker's only active row. */
  lemma ActiveAssignmentIsTheOne(rows: seq<Assignment>, w: int)
    requires AtMostOneActive(rows)
    ensures match ActiveAssignmentForWorker(rows, w)
      case None => ActiveRowsOf(rows, w) == []
      case Some(a) => ActiveRowsOf(rows, w) == [a]
  {
    AtMostOneActiveRow(rows, w);
    if ActiveRowsOf(rows, w) == [] {
    } else {
      assert |ActiveRowsOf(rows, w)| == 1;
    }
  }

  /** getAssignmentById(k). */
  function AssignmentById(rows: seq<Assignment>, k: int): (r: Option<Assignment>)
    ensures r.Some? ==> r.value in rows && r.value.assignmentId == k
    ensures r.None? ==> forall a :: a in rows ==> a.assignmentId != k
  {
    FindById(rows, k, AssignmentKey)
  }

  // ---- The DAO and the repository ----

  /** WorkerSiteAssignmentDao over the table it reads and writes. */
  class AssignmentDao {
    var rows: seq<Assignment>
    var nextId: int

    function Table(): AssignmentTable
      reads this
    {
      AssignmentTable(rows, nextId)
    }

    ghost predicate Valid()
      reads this
    {
      ValidTable(Table())
    }

    constructor ()
      ensures Valid() && rows == []
    {
      rows := [];
      nextId := 1;
    }

    method InsertAssignment(a: Assignment) returns (id: int)
      requires Valid()
      modifies this
      ensures Valid()
      ensures id == InsertedId(old(Table()), a)
      ensures Table() == AfterInsert(old(Table()), a)
    {
      id := InsertedId(Table(), a);
      var t := AfterInsert(Table(), a);
      rows, nextId := t.rows, t.nextId;
    }

    method UpdateAssignment(a: Assignment)
      requires Valid()
      modifies this
      ensures Valid()
      ensures rows == UpdateById(old(rows), a, AssignmentKey) && nextId == old(nextId)
    {
      UpdateKeepsValid(rows, nextId, a, AssignmentKey);
      rows := UpdateById(rows, a, AssignmentKey);
    }

    method DeleteAssignment(a: Assignment)
      requires Valid()
      modifies this
      ensures Valid()
      ensures rows == DeleteById(old(rows), a.assignmentId, AssignmentKey) && nextId == old(nextId)
    {
      DeleteKeepsValid(rows, nextId, a.assignmentId, AssignmentKey);
      rows := DeleteById(rows, a.assignmentId, AssignmentKey);
    }

    method DeactivateCurrentAssignments(w: int, endDate: string)
      requires Valid()
      modifies this
      ensures Valid()
      ensures rows == Deactivated(old(rows), w, endDate) && nextId == old(nextId)
    {
      DeactivatedValid(Table(), w, endDate);
      rows := Deactivated(rows, w, endDate);
    }
  }

  /** WorkerSiteAssignmentRepository: the assign operations over the DAO. */
  class AssignmentRepository {
    const dao: AssignmentDao

    constructor (dao: AssignmentDao)
      ensures this.dao == dao
    {
      this.dao := dao;
    }

    /** insertAssignment: the raw REPLACE insert, passed straight to the table. */
    method InsertAssignment(a: Assignment) returns (id: int)
      requires dao.Valid()
      modifies dao
      ensures dao.Valid()
      ensures id == InsertedId(old(dao.Table()), a)
      ensures dao.Table() == AfterInsert(old(dao.Table()), a)
    {
      id := dao.InsertAssignment(a);
    }

    /** updateAssignment: the raw update by key, passed straight to the table. */
    method UpdateAssignment(a: Assignment)
      requires dao.Valid()
      modifies dao
      ensures dao.Valid()
      ensures dao.Table() == AssignmentTable(UpdateById(old(dao.rows), a, AssignmentKey), old(dao.nextId))
    {
      dao.UpdateAssignment(a);
    }

    method DeactivateCurrentAssignments(w: int, endDate: string)
      requires dao.Valid()
      modifies dao
      ensures dao.Valid()
      ensures dao.Table() == AssignmentTable(Deactivated(old(dao.rows), w, endDate), old(dao.nextId))
    {
      dao.DeactivateCurrentAssignments(w, endDate);
    }

    /** Moves worker w to site s as of date; returns the new row's key. */
    method AssignWorkerToSite(w: int, s: int, date: string) returns (id: int)
      requires dao.Valid()
      modifies dao
      ensures dao.Valid()
      ensures dao.Table() == AfterAssign(old(dao.Table()), w, s, date)
      ensures id == old(dao.nextId)
      ensures ActiveRowsOf(dao.rows, w) == [Assignment(id, w, s, date, None, true)]
      ensures AtMostOneActive(old(dao.rows)) ==> AtMostOneActive(dao.rows)
    {
      AssignEffect(dao.Table(), w, s, date);
      AssignKeepsSingleActiveWhenHeld(dao.Table(), w, s, date);
      DeactivateCurrentAssignments(w, date);
      id := dao.InsertAssignment(NewAssignment(w, s, date));
    }

    /** Inserts the entries in order, each as the worker's new active assignment. */
    method InsertWorkerSiteAssignments(list: seq<Assignment>)
      requires dao.Valid()
      modifies dao
      ensures dao.Valid()
      ensures dao.Table() == AfterBulk(old(dao.Table()), list)
      ensures AtMostOneActive(old(dao.rows)) ==> AtMostOneActive(dao.rows)
    {
      ghost var start := dao.Table();
      var i := 0;
      while i < |list|
        invariant 0 <= i <= |list|
        invariant dao.Valid()
        invariant dao.Table() == AfterBulk(start, list[..i])
      {
        assert list[..i + 1][..i] == list[..i];
        dao.DeactivateCurrentAssignments(list[i].workerId, list[i].assignmentDate);
        var _ := dao.InsertAssignment(list[i].(isActive := true));
        i := i + 1;
      }
      assert list[..i] == list;
      if AtMostOneActive(start.rows) {
        BulkKeepsSingleActive(start, list);
      }
    }
  }

  lemma AssignKeepsSingleActiveWhenHeld(t: AssignmentTable, w: int, s: int, date: string)
    requires ValidTable(t)
    ensures AtMostOneActive(t.rows) ==> AtMostOneActive(AfterAssign(t, w, s, date).rows)
  {
    if AtMostOneActive(t.rows) {
      AssignKeepsSingleActive(t, w, s, date);
    }
  }
}
