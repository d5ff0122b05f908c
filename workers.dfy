// The workers table and WorkerDao's queries, including the join that lists
// the workers currently assigned to a site.
module Workers {
  import opened Wrappers
  import opened Text
  import opened Collections
  import opened Entities
  import opened Assignments
  import opened Sites

  function WorkerName(w: Worker): string { w.name }

  function AnyWorker(): Worker -> bool { (w: Worker) => true }
  function WorkerIsActive(): Worker -> bool { (w: Worker) => w.isActive }
  function WorkerMatches(q: string): Worker -> bool { (w: Worker) => Like(w.name, q) || Like(w.phoneNumber, q) }
  function WorkerWithId(k: int): Worker -> bool { (w: Worker) => w.id == k }

  /** getWorkerById. */
  function WorkerById(rows: seq<Worker>, k: int): (r: Option<Worker>)
    ensures r.None? <==> forall x :: x in rows ==> x.id != k
    ensures r.Some? ==> r.value in rows && r.value.id == k
  {
    var r := FindById(rows, k, WorkerKey);
    assert r.None? ==> forall x :: x in rows ==> x.id != k;
    r
  }

  /** getAllWorkers: every worker, by name ascending. */
  function AllWorkers(rows: seq<Worker>): (r: seq<Worker>)
    ensures SortedBy(r, WorkerName, false)
    ensures multiset(r) == multiset(rows)
  {
    Select(rows, AnyWorker(), WorkerName, false)
  }

  /** getActiveWorkers: the workers with isActive set, by name ascending. */
  function ActiveWorkers(rows: seq<Worker>): (r: seq<Worker>)
    ensures SortedBy(r, WorkerName, false)
    ensures forall x :: multiset(r)[x] == if x.isActive then multiset(rows)[x] else 0
  {
    Select(rows, WorkerIsActive(), WorkerName, false)
  }

  /** searchWorkers: name or phone number LIKE %q%; the query has no ORDER BY. */
  function SearchWorkers(rows: seq<Worker>, q: string): (r: seq<Worker>)
    ensures IsSubsequence(r, rows)
    ensures forall x :: x in r <==> x in rows && (Like(x.name, q) || Like(x.phoneNumber, q))
  {
    FilterIsSubsequence(rows, WorkerMatches(q));
    Filter(rows, WorkerMatches(q))
  }

  /** The workers an assignment row joins to: those whose id is its workerId. */
  function JoinedWorkers(workers: seq<Worker>, a: Assignment): (r: seq<Worker>)
    ensures forall x :: x in r <==> x in workers && x.id == a.workerId
  {
    Filter(workers, WorkerWithId(a.workerId))
  }

  /** The join's output for the given assignment rows, row by row. */
  function JoinAll(workers: seq<Worker>, active: seq<Assignment>): (r: seq<Worker>)
    ensures forall x :: x in r <==> x in workers && exists a :: a in active && a.workerId == x.id
  {
    if active == [] then []
    else
      var r := JoinedWorkers(workers, active[0]) + JoinAll(workers, active[1..]);
      assert forall a :: a in active <==> a == active[0] || a in active[1..];
      r
  }

  /**
   * getWorkersBySite: `workers INNER JOIN worker_site_assignments ON id = workerId
   * WHERE siteId = site AND isActive = 1`: one output row per matching pair,
   * taken in assignment-table order (the query has no ORDER BY).
   */
  function WorkersBySite(workers: seq<Worker>, assignments: seq<Assignment>, site: int): (r: seq<Worker>)
    ensures forall x :: x in r <==>
      (x in workers && exists a :: a in assignments && a.siteId == site && a.isActive && a.workerId == x.id)
  {
    var active := Filter(assignments, ActiveAtSite(site));
    JoinAll(workers, active)
  }

  /** With unique worker ids, an assignment row joins at most one worker, and exactly one when its worker exists. */
  lemma {:induction false} JoinOne(workers: seq<Worker>, a: Assignment)
    requires UniqueIds(workers, WorkerKey)
    ensures |JoinedWorkers(workers, a)| <= 1
    ensures (exists x :: x in workers && x.id == a.workerId) ==> |JoinedWorkers(workers, a)| == 1
    decreases |workers|
  {
    if workers != [] {
      var rest := workers[1..];
      assert UniqueIds(rest, WorkerKey) by {
        forall i, j | 0 <= i < j < |rest| ensures rest[i].id != rest[j].id {
          assert rest[i] == workers[i + 1] && rest[j] == workers[j + 1];
        }
      }
      JoinOne(rest, a);
      if workers[0].id == a.workerId {
        forall x | x in rest ensures x.id != a.workerId {
          var j :| 0 <= j < |rest| && rest[j] == x;
          assert workers[j + 1] == x;
        }
        assert JoinedWorkers(rest, a) == [];
      } else {
        assert (exists x :: x in workers && x.id == a.workerId) ==> (exists x :: x in rest && x.id == a.workerId);
      }
    }
  }

  /** When every active row's worker exists exactly once, the join lists one worker per active row. */
  lemma {:induction false} JoinAllLength(workers: seq<Worker>, active: seq<Assignment>)
    requires UniqueIds(workers, WorkerKey)
    requires forall a :: a in active ==> exists x :: x in workers && x.id == a.workerId
    ensures |JoinAll(workers, active)| == |active|
    decreases |active|
  {
    if active != [] {
      JoinOne(workers, active[0]);
      JoinAllLength(workers, active[1..]);
    }
  }

  /** No two of the rows name the same worker. */
  predicate DistinctWorkers(s: seq<Assignment>)
    decreases |s|
  {
    s == [] || ((forall a :: a in s[1..] ==> a.workerId != s[0].workerId) && DistinctWorkers(s[1..]))
  }

  /** Under the single-active invariant, a site's active rows name distinct workers. */
  lemma {:induction false} ActiveAtSiteDistinct(rows: seq<Assignment>, site: int)
    requires AtMostOneActive(rows)
    ensures DistinctWorkers(Filter(rows, ActiveAtSite(site)))
    decreases |rows|
  {
    if rows != [] {
      var rest := rows[1..];
      assert AtMostOneActive(rest) by {
        forall i, j | 0 <= i < j < |rest| && rest[i].isActive && rest[j].isActive
          ensures rest[i].workerId != rest[j].workerId
        {
          assert rest[i] == rows[i + 1] && rest[j] == rows[j + 1];
        }
      }
      ActiveAtSiteDistinct(rest, site);
      if ActiveAtSite(site)(rows[0]) {
        var tail := Filter(rest, ActiveAtSite(site));
        forall a | a in tail ensures a.workerId != rows[0].workerId {
          var j :| 0 <= j < |rest| && rest[j] == a;
          assert rows[j + 1] == a;
        }
        assert Filter(rows, ActiveAtSite(site)) == [rows[0]] + tail;
        assert ([rows[0]] + tail)[1..] == tail;
      }
    }
  }

  /** Joining rows that name distinct workers never lists a worker twice. */
  lemma {:induction false} JoinAllUnique(workers: seq<Worker>, active: seq<Assignment>)
    requires UniqueIds(workers, WorkerKey)
    requires DistinctWorkers(active)
    ensures UniqueIds(JoinAll(workers, active), WorkerKey)
    decreases |active|
  {
    if active != [] {
      var rest := active[1..];
      JoinAllUnique(workers, rest);
      JoinOne(workers, active[0]);
      var head := JoinedWorkers(workers, active[0]);
      var tail := JoinAll(workers, rest);
      if head != [] {
        assert head == [head[0]];
        assert head[0].id == active[0].workerId by {
          assert head[0] in head;
        }
        forall y | y in tail ensures y.id != head[0].id {
          var a :| a in rest && a.workerId == y.id;
        }
        UniqueCons(head[0], tail, WorkerKey);
      } else {
        assert head + tail == tail;
      }
    }
  }

  /**
   * Under the single-active invariant the site's worker list has no worker
   * twice, and when every assignment names a stored worker its length is the
   * site's active-worker count.
   */
  lemma WorkersBySiteMatchesCount(workers: seq<Worker>, assignments: seq<Assignment>, site: int)
    requires UniqueIds(workers, WorkerKey)
    requires AtMostOneActive(assignments)
    ensures UniqueIds(WorkersBySite(workers, assignments, site), WorkerKey)
    ensures (forall a :: a in assignments ==> exists x :: x in workers && x.id == a.workerId) ==>
      |WorkersBySite(workers, assignments, site)| == WorkerCountForSite(assignments, site)
  {
    var active := Filter(assignments, ActiveAtSite(site));
    ActiveAtSiteDistinct(assignments, site);
    JoinAllUnique(workers, active);
    if forall a :: a in assignments ==> exists x :: x in workers && x.id == a.workerId {
      JoinAllLength(workers, active);
    }
  }

  /** The workers table: Room's WorkerDao over its rows and AUTOINCREMENT counter. */
  class WorkerDao {
    var rows: seq<Worker>
    var nextId: int

    ghost predicate Valid()
      reads this
    {
      ValidKeys(rows, nextId, WorkerKey)
    }

    constructor ()
      ensures Valid() && rows == []
    {
      rows := [];
      nextId := 1;
    }

    /** insertWorker (REPLACE): returns the key the row is stored under. */
    method InsertWorker(w: Worker) returns (id: int)
      requires Valid()
      modifies this
      ensures Valid()
      ensures id == InsertKey(w, old(nextId), WorkerKey)
      ensures rows == Upsert(old(rows), w.(id := id), WorkerKey)
      ensures nextId == NextKeyAfter(old(nextId), id)
    {
      id := InsertKey(w, nextId, WorkerKey);
      UpsertKeepsValid(rows, nextId, w.(id := id), WorkerKey);
      rows, nextId := Upsert(rows, w.(id := id), WorkerKey), NextKeyAfter(nextId, id);
    }

    method UpdateWorker(w: Worker)
      requires Valid()
      modifies this
      ensures Valid()
      ensures rows == UpdateById(old(rows), w, WorkerKey) && nextId == old(nextId)
    {
      UpdateKeepsValid(rows, nextId, w, WorkerKey);
      rows := UpdateById(rows, w, WorkerKey);
    }

    method DeleteWorker(w: Worker)
      requires Valid()
      modifies this
      ensures Valid()
      ensures rows == DeleteById(old(rows), w.id, WorkerKey) && nextId == old(nextId)
    {
      DeleteKeepsValid(rows, nextId, w.id, WorkerKey);
      rows := DeleteById(rows, w.id, WorkerKey);
    }
  }
}
