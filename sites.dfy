// The sites table and SiteDao's queries, including the active-worker count
// it reads from the assignment table.
module Sites {
  import opened Wrappers
  import opened Text
  import opened Collections
  import opened Entities

  function SiteName(s: Site): string { s.name }

  function AnySite(): Site -> bool { (s: Site) => true }
  function SiteHasStatus(st: SiteStatus): Site -> bool { (s: Site) => s.status == st }
  function SiteMatches(q: string): Site -> bool
  {
    (s: Site) => Like(s.name, q) || Like(s.address, q) || Like(s.clientName, q)
  }
  function SiteStartsIn(lo: string, hi: string): Site -> bool { (s: Site) => Between(s.startDate, lo, hi) }
  function ActiveAtSite(site: int): Assignment -> bool { (a: Assignment) => a.siteId == site && a.isActive }

  /** getSiteById. */
  function SiteById(rows: seq<Site>, k: int): (r: Option<Site>)
    ensures r.None? <==> forall x :: x in rows ==> x.siteId != k
    ensures r.Some? ==> r.value in rows && r.value.siteId == k
  {
    var r := FindById(rows, k, SiteKey);
    assert r.None? ==> forall x :: x in rows ==> x.siteId != k;
    r
  }

  /** getAllSites: every site, by name ascending. */
  function AllSites(rows: seq<Site>): (r: seq<Site>)
    ensures SortedBy(r, SiteName, false)
    ensures multiset(r) == multiset(rows)
  {
    Select(rows, AnySite(), SiteName, false)
  }

  /** getSitesByStatus: the sites with status st, by name ascending. */
  function SitesByStatus(rows: seq<Site>, st: SiteStatus): (r: seq<Site>)
    ensures SortedBy(r, SiteName, false)
    ensures forall x :: multiset(r)[x] == if x.status == st then multiset(rows)[x] else 0
  {
    Select(rows, SiteHasStatus(st), SiteName, false)
  }

  /** searchSites: name, address or client name LIKE %q%; the query has no ORDER BY. */
  function SearchSites(rows: seq<Site>, q: string): (r: seq<Site>)
    ensures IsSubsequence(r, rows)
    ensures forall x :: x in r <==> x in rows && (Like(x.name, q) || Like(x.address, q) || Like(x.clientName, q))
  {
    FilterIsSubsequence(rows, SiteMatches(q));
    Filter(rows, SiteMatches(q))
  }

  /** An empty search matches every site. */
  lemma EmptySearchKeepsAll(rows: seq<Site>)
    ensures SearchSites(rows, []) == rows
  {
    forall i | 0 <= i < |rows| ensures SiteMatches([])(rows[i]) {
      LikeBounds(rows[i].name, []);
    }
  }

  /** getSitesByStartDateRange: startDate BETWEEN lo AND hi; the query has no ORDER BY. */
  function SitesByStartDateRange(rows: seq<Site>, lo: string, hi: string): (r: seq<Site>)
    ensures IsSubsequence(r, rows)
    ensures forall x :: x in r <==> x in rows && StrLe(lo, x.startDate) && StrLe(x.startDate, hi)
  {
    FilterIsSubsequence(rows, SiteStartsIn(lo, hi));
    Filter(rows, SiteStartsIn(lo, hi))
  }

  /** getWorkerCountForSite: the number of active assignment rows to the site. */
  function WorkerCountForSite(assignments: seq<Assignment>, site: int): (n: nat)
    ensures n <= |assignments|
    ensures n == 0 <==> forall a :: a in assignments ==> a.siteId != site || !a.isActive
  {
    assert (forall a :: a in assignments ==> a.siteId != site || !a.isActive) ==> Filter(assignments, ActiveAtSite(site)) == [] by {
      assert forall i :: 0 <= i < |assignments| ==> assignments[i] in assignments;
    }
    Count(assignments, ActiveAtSite(site))
  }

  /** The sites table: Room's SiteDao over its rows and AUTOINCREMENT counter. */
  class SiteDao {
    var rows: seq<Site>
    var nextId: int

    ghost predicate Valid()
      reads this
    {
      ValidKeys(rows, nextId, SiteKey)
    }

    constructor ()
      ensures Valid() && rows == []
    {
      rows := [];
      nextId := 1;
    }

    /** insertSite (REPLACE): returns the key the row is stored under. */
    method InsertSite(s: Site) returns (id: int)
      requires Valid()
      modifies this
      ensures Valid()
      ensures id == InsertKey(s, old(nextId), SiteKey)
      ensures rows == Upsert(old(rows), s.(siteId := id), SiteKey)
      ensures nextId == NextKeyAfter(old(nextId), id)
    {
      id := InsertKey(s, nextId, SiteKey);
      UpsertKeepsValid(rows, nextId, s.(siteId := id), SiteKey);
      rows, nextId := Upsert(rows, s.(siteId := id), SiteKey), NextKeyAfter(nextId, id);
    }

    method UpdateSite(s: Site)
      requires Valid()
      modifies this
      ensures Valid()
      ensures rows == UpdateById(old(rows), s, SiteKey) && nextId == old(nextId)
    {
      UpdateKeepsValid(rows, nextId, s, SiteKey);
      rows := UpdateById(rows, s, SiteKey);
    }

    method DeleteSite(s: Site)
      requires Valid()
      modifies this
      ensures Valid()
      ensures rows == DeleteById(old(rows), s.siteId, SiteKey) && nextId == old(nextId)
    {
      DeleteKeepsValid(rows, nextId, s.siteId, SiteKey);
      rows := DeleteById(rows, s.siteId, SiteKey);
    }
  }
}
