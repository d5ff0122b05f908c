// The edit-site screen's reconciliation of a site's worker assignments
// (EditSiteActivity.updateWorkerAssignments): the workers to take off the site
// and the workers to put on it, and what the table looks like afterwards.
module SiteReconciliation {
  import opened Wrappers
  import opened Collections
  import opened Entities
  import opened Assignments

  // ---- The two lists the screen computes ----

  function NotSelected(selected: seq<Worker>): Worker -> bool { (w: Worker) => w !in selected }

  /** No worker of `current` carries w's id. */
  predicate NewId(current: seq<Worker>, w: Worker)
  {
    forall c :: c in current ==> c.id != w.id
  }

  function NotCurrent(current: seq<Worker>): Worker -> bool { (w: Worker) => NewId(current, w) }

  /** The current workers missing from the selection, compared as whole records. */
  function WorkersToRemove(current: seq<Worker>, selected: seq<Worker>): (r: seq<Worker>)
    ensures forall w :: w in r <==> w in current && w !in selected
    ensures IsSubsequence(r, current)
  {
    FilterIsSubsequence(current, NotSelected(selected));
    Filter(current, NotSelected(selected))
  }

  /** The selected workers whose id no current worker has, compared by id. */
  function WorkersToAdd(current: seq<Worker>, selected: seq<Worker>): (r: seq<Worker>)
    ensures forall w :: w in r <==> w in selected && NewId(current, w)
    ensures IsSubsequence(r, selected)
  {
    FilterIsSubsequence(selected, NotCurrent(current));
    Filter(selected, NotCurrent(current))
  }

  /** Among these workers, a worker id always comes with the same record. */
  predicate ConsistentIds(ws: seq<Worker>)
  {
    forall v, w :: v in ws && w in ws && v.id == w.id ==> v == w
  }

  /**
   * When the current and the selected lists agree on the record of every id,
   * the site's workers after the edit (the current ones not removed, plus the
   * added ones) are exactly the selected ones, and no worker is both removed
   * and added.
   */
  lemma DiffReconciles(current: seq<Worker>, selected: seq<Worker>)
    requires ConsistentIds(current + selected)
    ensures forall w ::
      ((w in current && w !in WorkersToRemove(current, selected)) || w in WorkersToAdd(current, selected)) <==> w in selected
    ensures forall v, w :: v in WorkersToRemove(current, selected) && w in WorkersToAdd(current, selected) ==> v.id != w.id
  {
    forall w | w in selected && w !in current ensures NewId(current, w) {
      forall c | c in current ensures c.id != w.id {
        assert c in current + selected && w in current + selected;
      }
    }
  }

  /**
   * A selected record that differs from the current record of the same worker
   * (the worker was edited meanwhile) takes that worker off the site and does
   * not put it back.
   */
  lemma StaleRecordDropsWorker(current: seq<Worker>, selected: seq<Worker>, c: Worker, s: Worker)
    requires c in current && s in selected && c.id == s.id && c !in selected
    ensures c in WorkersToRemove(current, selected)
    ensures s !in WorkersToAdd(current, selected)
    ensures forall w :: w in WorkersToAdd(current, selected) ==> w.id != c.id
  {
  }

  // ---- The table after the edit ----

  /** The screen's removal step for one worker: its active row, if it has one, is closed as of date. */
  function CloseActive(t: AssignmentTable, w: int, date: string): (r: AssignmentTable)
    requires ValidTable(t)
    ensures ValidTable(r) && r.nextId == t.nextId
  {
    match ActiveAssignmentForWorker(t.rows, w)
    case None => t
    case Some(a) =>
      var closed := a.(isActive := false, endDate := Some(date));
      UpdateKeepsValid(t.rows, t.nextId, closed, AssignmentKey);
      AssignmentTable(UpdateById(t.rows, closed, AssignmentKey), t.nextId)
  }

  /**
   * Under the invariant, closing the row the lookup returns is the same as the
   * deactivation UPDATE for that worker.
   */
  lemma CloseActiveIsDeactivate(t: AssignmentTable, w: int, date: string)
    requires ValidTable(t) && AtMostOneActive(t.rows)
    ensures CloseActive(t, w, date).rows == Deactivated(t.rows, w, date)
  {
    var rows := t.rows;
    var d := Deactivated(rows, w, date);
    match ActiveAssignmentForWorker(rows, w)
    case None =>
      assert rows == d;
    case Some(a) =>
      var closed := a.(isActive := false, endDate := Some(date));
      var k :| 0 <= k < |rows| && rows[k] == a;
      assert HasId(rows, closed.assignmentId, AssignmentKey) by {
        assert AssignmentKey(rows[k]) == closed.assignmentId;
      }
      var out := UpdateById(rows, closed, AssignmentKey);
      assert out == ReplaceById(rows, closed, AssignmentKey);
      forall i | 0 <= i < |rows| ensures out[i] == d[i] {
        if i != k {
          assert rows[i].assignmentId != a.assignmentId by {
            assert UniqueIds(rows, AssignmentKey);
            if i < k {
              assert AssignmentKey(rows[i]) != AssignmentKey(rows[k]);
            } else {
              assert AssignmentKey(rows[k]) != AssignmentKey(rows[i]);
            }
          }
          assert !(rows[i].workerId == w && rows[i].isActive);
        }
      }
  }

  /** The removal loop: each listed worker's active row closed, in list order. */
  function AfterRemovals(t: AssignmentTable, workers: seq<Worker>, date: string): (r: AssignmentTable)
    requires ValidTable(t)
    ensures ValidTable(r) && r.nextId == t.nextId
  {
    if workers == [] then t
    else CloseActive(AfterRemovals(t, workers[..|workers| - 1], date), workers[|workers| - 1].id, date)
  }

  /** The addition loop: assignWorkerToSite for each listed worker, in list order. */
  function AfterAdds(t: AssignmentTable, workers: seq<Worker>, site: int, date: string): (r: AssignmentTable)
    requires ValidTable(t)
    ensures ValidTable(r)
  {
    if workers == [] then t
    else AfterAssign(AfterAdds(t, workers[..|workers| - 1], site, date), workers[|workers| - 1].id, site, date)
  }

  /** Both loops, removals first, over the lists the screen computes. */
  function Reconciled(t: AssignmentTable, current: seq<Worker>, selected: seq<Worker>, site: int, date: string): (r: AssignmentTable)
    requires ValidTable(t)
    ensures ValidTable(r)
  {
    AfterAdds(AfterRemovals(t, WorkersToRemove(current, selected), date), WorkersToAdd(current, selected), site, date)
  }

  /** The whole update: nothing happens when the current-workers list has no value. */
  function EditedTable(t: AssignmentTable, current: Option<seq<Worker>>, selected: seq<Worker>, site: int, date: string): (r: AssignmentTable)
    requires ValidTable(t)
    ensures ValidTable(r)
  {
    match current
    case None => t
    case Some(c) => Reconciled(t, c, selected, site, date)
  }

  /** No worker of the list carries id v. */
  predicate Unmentioned(workers: seq<Worker>, v: int)
  {
    forall w :: w in workers ==> w.id != v
  }

  /**
   * After the removal loop every listed worker has no active row, the invariant
   * still holds, and workers not on the list keep their active rows.
   */
  lemma {:induction false} RemovalsEffect(t: AssignmentTable, workers: seq<Worker>, date: string)
    requires ValidTable(t) && AtMostOneActive(t.rows)
    ensures AtMostOneActive(AfterRemovals(t, workers, date).rows)
    ensures forall w :: w in workers ==> ActiveRowsOf(AfterRemovals(t, workers, date).rows, w.id) == []
    ensures forall v :: Unmentioned(workers, v) ==>
      ActiveRowsOf(AfterRemovals(t, workers, date).rows, v) == ActiveRowsOf(t.rows, v)
    decreases |workers|
  {
    if workers != [] {
      var init, x := workers[..|workers| - 1], workers[|workers| - 1];
      assert forall w :: w in workers <==> w in init || w == x;
      var mid := AfterRemovals(t, init, date);
      RemovalsEffect(t, init, date);
      CloseActiveIsDeactivate(mid, x.id, date);
      DeactivateEffect(mid.rows, x.id, date);
    }
  }

  /**
   * After the addition loop every listed worker's only active row is the new
   * one at the site, and workers not on the list keep their active rows.
   */
  lemma {:induction false} AddsEffect(t: AssignmentTable, workers: seq<Worker>, site: int, date: string)
    requires ValidTable(t)
    ensures forall w :: w in workers ==> SoleActiveAt(AfterAdds(t, workers, site, date).rows, w.id, site, date)
    ensures forall v :: Unmentioned(workers, v) ==>
      ActiveRowsOf(AfterAdds(t, workers, site, date).rows, v) == ActiveRowsOf(t.rows, v)
    decreases |workers|
  {
    if workers != [] {
      var init, x := workers[..|workers| - 1], workers[|workers| - 1];
      assert forall w :: w in workers <==> w in init || w == x;
      var mid := AfterAdds(t, init, site, date);
      AddsEffect(t, init, site, date);
      AssignEffect(mid, x.id, site, date);
    }
  }

  /** The addition loop keeps "at most one active row per worker". */
  lemma {:induction false} AddsKeepSingleActive(t: AssignmentTable, workers: seq<Worker>, site: int, date: string)
    requires ValidTable(t) && AtMostOneActive(t.rows)
    ensures AtMostOneActive(AfterAdds(t, workers, site, date).rows)
    decreases |workers|
  {
    if workers != [] {
      var init := workers[..|workers| - 1];
      AddsKeepSingleActive(t, init, site, date);
      AssignKeepsSingleActive(AfterAdds(t, init, site, date), workers[|workers| - 1].id, site, date);
    }
  }

  /**
   * The edit, when it runs: the invariant holds afterwards; every added worker
   * is active at the site alone; every removed worker has no active row
   * anywhere; every other worker's active rows are as before.
   */
  lemma ReconcileEffect(t: AssignmentTable, current: seq<Worker>, selected: seq<Worker>, site: int, date: string)
    requires ValidTable(t) && AtMostOneActive(t.rows)
    ensures AtMostOneActive(Reconciled(t, current, selected, site, date).rows)
    ensures forall w :: w in WorkersToAdd(current, selected) ==>
      SoleActiveAt(Reconciled(t, current, selected, site, date).rows, w.id, site, date)
    ensures forall w :: w in WorkersToRemove(current, selected) ==>
      ActiveRowsOf(Reconciled(t, current, selected, site, date).rows, w.id) == []
    ensures forall v :: Unmentioned(WorkersToRemove(current, selected), v) && Unmentioned(WorkersToAdd(current, selected), v) ==>
      ActiveRowsOf(Reconciled(t, current, selected, site, date).rows, v) == ActiveRowsOf(t.rows, v)
  {
    var toRemove, toAdd := WorkersToRemove(current, selected), WorkersToAdd(current, selected);
    var mid := AfterRemovals(t, toRemove, date);
    RemovalsEffect(t, toRemove, date);
    AddsEffect(mid, toAdd, site, date);
    AddsKeepSingleActive(mid, toAdd, site, date);
    forall w | w in toRemove ensures Unmentioned(toAdd, w.id) {
    }
  }

  // ---- The screen ----

  /** The removal loop: each listed worker's active row, looked up in the table, is closed as of today. */
  method RemoveWorkers(repo: AssignmentRepository, toRemove: seq<Worker>, today: string)
    requires repo.dao.Valid()
    modifies repo.dao
    ensures repo.dao.Valid()
    ensures repo.dao.Table() == AfterRemovals(old(repo.dao.Table()), toRemove, today)
  {
    ghost var start := repo.dao.Table();
    var i := 0;
    while i < |toRemove|
      invariant 0 <= i <= |toRemove|
      invariant repo.dao.Valid()
      invariant repo.dao.Table() == AfterRemovals(start, toRemove[..i], today)
    {
      assert toRemove[..i + 1][..i] == toRemove[..i];
      var active := ActiveAssignmentForWorker(repo.dao.rows, toRemove[i].id);
      if active.Some? {
        repo.UpdateAssignment(active.value.(isActive := false, endDate := Some(today)));
      }
      i := i + 1;
    }
    assert toRemove[..i] == toRemove;
  }

  /** The addition loop: each listed worker assigned to the site as of today. */
  method AddWorkers(repo: AssignmentRepository, toAdd: seq<Worker>, siteId: int, today: string)
    requires repo.dao.Valid()
    modifies repo.dao
    ensures repo.dao.Valid()
    ensures repo.dao.Table() == AfterAdds(old(repo.dao.Table()), toAdd, siteId, today)
  {
    ghost var start := repo.dao.Table();
    var j := 0;
    while j < |toAdd|
      invariant 0 <= j <= |toAdd|
      invariant repo.dao.Valid()
      invariant repo.dao.Table() == AfterAdds(start, toAdd[..j], siteId, today)
    {
      assert toAdd[..j + 1][..j] == toAdd[..j];
      var _ := repo.AssignWorkerToSite(toAdd[j].id, siteId, today);
      j := j + 1;
    }
    assert toAdd[..j] == toAdd;
  }

  /**
   * updateWorkerAssignments(siteId). `current` is the value the screen reads
   * from the workers-by-site query; each removed worker's active row is looked
   * up in the table.
   */
  method UpdateWorkerAssignments(repo: AssignmentRepository, siteId: int, current: Option<seq<Worker>>,
                                 selected: seq<Worker>, today: string)
    requires repo.dao.Valid()
    modifies repo.dao
    ensures repo.dao.Valid()
    ensures repo.dao.Table() == EditedTable(old(repo.dao.Table()), current, selected, siteId, today)
  {
    if current.Some? {
      RemoveWorkers(repo, WorkersToRemove(current.value, selected), today);
      AddWorkers(repo, WorkersToAdd(current.value, selected), siteId, today);
    }
  }

  // ---- What the screen reads at the call ----

  /**
   * The value of a query result nobody has observed yet: the query behind
   * getWorkersBySite(siteId) is created afresh by the call, so its value is
   * still unset when it is read.
   */
  function UnobservedValue(): (r: Option<seq<Worker>>)
    ensures r.None?
  {
    None
  }

  /** As written, the edit leaves the assignment table exactly as it was, whatever was selected. */
  lemma EditAsWrittenChangesNothing(t: AssignmentTable, selected: seq<Worker>, site: int, date: string)
    requires ValidTable(t)
    ensures EditedTable(t, UnobservedValue(), selected, site, date) == t
  {
  }

  /**
   * Worker 7, active at site 3, is deselected: as written the worker stays
   * active there; with the list the screen loaded for the site, the worker's
   * row is closed.
   */
  lemma DeselectedWorkerStaysActive()
    ensures var w := Worker(7, "Ravi", "98450", "Pune", "Mason", "1234", "2024-01-01", true, None);
      var t := AssignmentTable([Assignment(1, 7, 3, "2024-01-01", None, true)], 2);
      ValidTable(t)
      && ActiveRowsOf(EditedTable(t, UnobservedValue(), [], 3, "2024-02-01").rows, 7) == t.rows
      && ActiveRowsOf(EditedTable(t, Some([w]), [], 3, "2024-02-01").rows, 7) == []
  {
    var w := Worker(7, "Ravi", "98450", "Pune", "Mason", "1234", "2024-01-01", true, None);
    var t := AssignmentTable([Assignment(1, 7, 3, "2024-01-01", None, true)], 2);
    assert ActiveRowsOf(t.rows, 7) == t.rows by {
      assert ActiveOf(7)(t.rows[0]);
    }
    assert w in WorkersToRemove([w], []);
    ReconcileEffect(t, [w], [], 3, "2024-02-01");
  }

  /**
   * The evidently intended update, reading the list the screen loaded for the
   * site: afterwards every selected worker that was not on the site is active
   * there alone, every worker taken off has no active row, and the invariant
   * still holds.
   */
  method ReconcileLoaded(repo: AssignmentRepository, siteId: int, loaded: seq<Worker>,
                         selected: seq<Worker>, today: string)
    requires repo.dao.Valid() && AtMostOneActive(repo.dao.rows)
    modifies repo.dao
    ensures repo.dao.Valid() && AtMostOneActive(repo.dao.rows)
    ensures repo.dao.Table() == Reconciled(old(repo.dao.Table()), loaded, selected, siteId, today)
    ensures forall w :: w in selected && NewId(loaded, w) ==> SoleActiveAt(repo.dao.rows, w.id, siteId, today)
    ensures forall w :: w in loaded && w !in selected ==> ActiveRowsOf(repo.dao.rows, w.id) == []
  {
    ReconcileEffect(repo.dao.Table(), loaded, selected, siteId, today);
    UpdateWorkerAssignments(repo, siteId, Some(loaded), selected, today);
  }
}
