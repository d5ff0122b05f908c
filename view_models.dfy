// The view-models the screens read: AdvanceViewModel's settle action and
// navigation event, and DashboardViewModel's lists.
module ViewModels {
  import opened Wrappers
  import opened Collections
  import opened Entities
  import opened Advances
  import opened Sites
  import opened Workers
  import opened Payments

  // ---- AdvanceViewModel ----

  /** Marking the same advance completed a second time changes nothing more. */
  lemma MarkCompletedIdempotent(rows: seq<Advance>, a: Advance)
    ensures var once := UpdateById(rows, MarkRecovered(a), AdvanceKey);
      UpdateById(once, MarkRecovered(a), AdvanceKey) == once
    ensures MarkRecovered(MarkRecovered(a)) == MarkRecovered(a)
  {
    UpdateIdempotent(rows, MarkRecovered(a), AdvanceKey);
  }

  /**
   * Completing an advance as it is stored has the same effect as settling its
   * id with settleAdvances.
   */
  lemma MarkCompletedIsSettle(rows: seq<Advance>, a: Advance)
    requires UniqueIds(rows, AdvanceKey) && a in rows
    ensures UpdateById(rows, MarkRecovered(a), AdvanceKey) == Settled(rows, [a.advanceId])
  {
    var k :| 0 <= k < |rows| && rows[k] == a;
    assert HasId(rows, AdvanceKey(MarkRecovered(a)), AdvanceKey) by {
      assert AdvanceKey(rows[k]) == a.advanceId;
    }
    var out := UpdateById(rows, MarkRecovered(a), AdvanceKey);
    var settled := Settled(rows, [a.advanceId]);
    forall i | 0 <= i < |rows| ensures out[i] == settled[i] {
    }
  }

  /** The advance-list view-model: the advances table and the pending navigation to an advance's details. */
  class AdvanceViewModel {
    const advanceDao: AdvanceDao
    var navigateToAdvanceDetails: Option<int>

    constructor (dao: AdvanceDao)
      ensures advanceDao == dao && navigateToAdvanceDetails.None?
    {
      advanceDao := dao;
      navigateToAdvanceDetails := None;
    }

    /**
     * getUnrecoveredAdvances(w): the worker's advances not yet recovered,
     * each as often as stored, newest first.
     */
    function UnrecoveredAdvances(w: int): (r: seq<Advance>)
      reads this, advanceDao
      ensures SortedBy(r, AdvanceDate, true)
      ensures forall x :: multiset(r)[x] == if x.workerId == w && !x.isRecovered then multiset(advanceDao.rows)[x] else 0
      ensures TotalUnsettled(advanceDao.rows, w) == SqlSum(r, AdvanceAmount)
    {
      TotalIsSumOfUnsettled(advanceDao.rows, w);
      UnsettledAdvances(advanceDao.rows, w)
    }

    /** markAdvanceAsCompleted: the stored row with the advance's key becomes the advance marked recovered. */
    method MarkAdvanceAsCompleted(a: Advance)
      requires advanceDao.Valid()
      modifies advanceDao
      ensures advanceDao.Valid()
      ensures advanceDao.rows == UpdateById(old(advanceDao.rows), MarkRecovered(a), AdvanceKey)
    {
      advanceDao.UpdateAdvance(MarkRecovered(a));
    }

    /** onAdvanceClicked: the details screen for this id is pending. */
    method OnAdvanceClicked(advanceId: int)
      modifies this
      ensures navigateToAdvanceDetails == Some(advanceId)
    {
      navigateToAdvanceDetails := Some(advanceId);
    }

    /** onAdvanceDetailsNavigated: the navigation has been handled, nothing is pending. */
    method OnAdvanceDetailsNavigated()
      modifies this
      ensures navigateToAdvanceDetails.None?
    {
      navigateToAdvanceDetails := None;
    }
  }

  /**
   * Completing an advance from the list removes it from its worker's
   * unrecovered list and leaves every other advance there.
   */
  method CompleteFromList(vm: AdvanceViewModel, a: Advance)
    requires vm.advanceDao.Valid() && a in vm.advanceDao.rows
    modifies vm.advanceDao
    ensures vm.advanceDao.Valid()
    ensures vm.advanceDao.rows == Settled(old(vm.advanceDao.rows), [a.advanceId])
    ensures forall x :: x in vm.UnrecoveredAdvances(a.workerId) ==> x.advanceId != a.advanceId
  {
    MarkCompletedIsSettle(vm.advanceDao.rows, a);
    vm.MarkAdvanceAsCompleted(a);
  }

  // ---- DashboardViewModel ----

  /** The _activeSites mediator's value: the sites whose status is ACTIVE, in the order given. */
  function ActiveSites(allSites: seq<Site>): (r: seq<Site>)
    ensures forall x :: x in r <==> x in allSites && x.status == Active
    ensures IsSubsequence(r, allSites) && |r| <= |allSites|
  {
    FilterIsSubsequence(allSites, SiteHasStatus(Active));
    Filter(allSites, SiteHasStatus(Active))
  }

  /**
   * Over the all-sites query, the dashboard's active sites are still ordered
   * by name, and they are the same rows, as often, as the ACTIVE status query
   * returns.
   */
  lemma ActiveSitesAsStatusQuery(rows: seq<Site>)
    ensures SortedBy(ActiveSites(AllSites(rows)), SiteName, false)
    ensures multiset(ActiveSites(AllSites(rows))) == multiset(SitesByStatus(rows, Active))
  {
    var all := AllSites(rows);
    FilterKeepsSorted(all, SiteHasStatus(Active), SiteName, false);
    FilterMultiset(all, SiteHasStatus(Active));
  }

  /** The lists the dashboard shows. */
  datatype Dashboard = Dashboard(
    totalWorkers: seq<Worker>,
    activeWorkers: seq<Worker>,
    allSites: seq<Site>,
    activeSites: seq<Site>,
    recentPayments: seq<Payment>)

  /**
   * DashboardViewModel over the tables: every worker, the active workers,
   * every site and the active ones, and every payment with none dropped.
   */
  function DashboardOf(workers: seq<Worker>, sites: seq<Site>, payments: seq<Payment>): (r: Dashboard)
    ensures multiset(r.totalWorkers) == multiset(workers)
    ensures forall x :: multiset(r.activeWorkers)[x] == if x.isActive then multiset(workers)[x] else 0
    ensures multiset(r.allSites) == multiset(sites)
    ensures forall x :: x in r.activeSites <==> x in sites && x.status == Active
    ensures |r.activeSites| <= |r.allSites|
    ensures multiset(r.recentPayments) == multiset(payments) && |r.recentPayments| == |payments|
  {
    var allSites := AllSites(sites);
    assert forall x :: x in allSites <==> x in sites by {
      forall x ensures x in allSites <==> x in sites {
        assert x in allSites <==> x in multiset(allSites);
      }
    }
    var recent := AllPayments(payments);
    assert |recent| == |multiset(recent)| == |multiset(payments)| == |payments|;
    Dashboard(AllWorkers(workers), ActiveWorkers(workers), allSites, ActiveSites(allSites), recent)
  }
}
