// The advances table and AdvanceDao's queries: worker advances that stay
// "unsettled" until they are marked recovered.
module Advances {
  import opened Wrappers
  import opened Text
  import opened Collections
  import opened Entities

  function AdvanceDate(a: Advance): string { a.advanceDate }

  function AnyAdvance(): Advance -> bool { (a: Advance) => true }
  function AdvanceOfWorker(w: int): Advance -> bool { (a: Advance) => a.workerId == w }
  function UnsettledOf(w: int): Advance -> bool { (a: Advance) => a.workerId == w && !a.isRecovered }
  function AdvanceInRange(lo: string, hi: string): Advance -> bool { (a: Advance) => Between(a.advanceDate, lo, hi) }
  function AdvanceIdIn(ids: seq<int>): Advance -> bool { (a: Advance) => a.advanceId in ids }
  function MarkRecovered(a: Advance): Advance { a.(isRecovered := true) }

  /** getAdvanceById. */
  function AdvanceById(rows: seq<Advance>, k: int): (r: Option<Advance>)
    ensures r.None? <==> forall x :: x in rows ==> x.advanceId != k
    ensures r.Some? ==> r.value in rows && r.value.advanceId == k
  {
    var r := FindById(rows, k, AdvanceKey);
    assert r.None? ==> forall x :: x in rows ==> x.advanceId != k;
    r
  }

  /** getAllAdvances: every row, newest advanceDate first. */
  function AllAdvances(rows: seq<Advance>): (r: seq<Advance>)
    ensures SortedBy(r, AdvanceDate, true)
    ensures multiset(r) == multiset(rows)
  {
    Select(rows, AnyAdvance(), AdvanceDate, true)
  }

  /** getAdvancesForWorker: that worker's rows, each as often as stored, newest first. */
  function AdvancesForWorker(rows: seq<Advance>, w: int): (r: seq<Advance>)
    ensures SortedBy(r, AdvanceDate, true)
    ensures forall x :: multiset(r)[x] == if x.workerId == w then multiset(rows)[x] else 0
  {
    Select(rows, AdvanceOfWorker(w), AdvanceDate, true)
  }

  /** getUnsettledAdvancesForWorker: the worker's rows not yet recovered, newest first. */
  function UnsettledAdvances(rows: seq<Advance>, w: int): (r: seq<Advance>)
    ensures SortedBy(r, AdvanceDate, true)
    ensures forall x :: multiset(r)[x] == if x.workerId == w && !x.isRecovered then multiset(rows)[x] else 0
    ensures forall x :: x in r <==> x in rows && x.workerId == w && !x.isRecovered
  {
    Select(rows, UnsettledOf(w), AdvanceDate, true)
  }

  /** getAdvancesByDateRange: rows dated lo..hi inclusive, as text, newest first. */
  function AdvancesByDateRange(rows: seq<Advance>, lo: string, hi: string): (r: seq<Advance>)
    ensures SortedBy(r, AdvanceDate, true)
    ensures forall x :: multiset(r)[x] == if StrLe(lo, x.advanceDate) && StrLe(x.advanceDate, hi) then multiset(rows)[x] else 0
  {
    Select(rows, AdvanceInRange(lo, hi), AdvanceDate, true)
  }

  /** getTotalUnsettledAdvancesForWorker: SUM(amount), NULL when the worker owes nothing. */
  function TotalUnsettled(rows: seq<Advance>, w: int): (r: Option<real>)
    ensures r.None? <==> forall x :: x in rows ==> x.workerId != w || x.isRecovered
  {
    var r := SqlSum(Filter(rows, UnsettledOf(w)), AdvanceAmount);
    assert (forall x :: x in rows ==> x.workerId != w || x.isRecovered) ==> r.None? by {
      if forall x :: x in rows ==> x.workerId != w || x.isRecovered {
        assert forall i :: 0 <= i < |rows| ==> rows[i] in rows;
      }
    }
    r
  }

  /** The total is the sum of the amounts the unsettled list shows. */
  lemma TotalIsSumOfUnsettled(rows: seq<Advance>, w: int)
    ensures TotalUnsettled(rows, w) == SqlSum(UnsettledAdvances(rows, w), AdvanceAmount)
  {
    SumOfSelect(rows, UnsettledOf(w), AdvanceDate, true, AdvanceAmount);
  }

  /** settleAdvances(ids): UPDATE ... SET isRecovered = 1 WHERE advanceId IN (ids). */
  function Settled(rows: seq<Advance>, ids: seq<int>): (out: seq<Advance>)
    ensures |out| == |rows|
    ensures forall i :: 0 <= i < |rows| ==>
      out[i] == if rows[i].advanceId in ids then rows[i].(isRecovered := true) else rows[i]
  {
    MapWhere(rows, AdvanceIdIn(ids), MarkRecovered)
  }

  /** Settling the same ids again changes nothing. */
  lemma SettleIdempotent(rows: seq<Advance>, ids: seq<int>)
    ensures Settled(Settled(rows, ids), ids) == Settled(rows, ids)
  {
    MapWhereIdempotent(rows, AdvanceIdIn(ids), MarkRecovered);
  }

  /** Settling every unsettled advance of a worker leaves nothing for the unsettled total to sum. */
  lemma SettleAllClearsTotal(rows: seq<Advance>, w: int, ids: seq<int>)
    requires forall x :: x in UnsettledAdvances(rows, w) ==> x.advanceId in ids
    ensures TotalUnsettled(Settled(rows, ids), w).None?
    ensures UnsettledAdvances(Settled(rows, ids), w) == []
  {
    var out := Settled(rows, ids);
    forall x | x in out ensures x.workerId != w || x.isRecovered {
      var i :| 0 <= i < |out| && out[i] == x;
      if rows[i].advanceId !in ids {
        assert rows[i] !in UnsettledAdvances(rows, w);
      }
    }
    assert forall x :: x in UnsettledAdvances(out, w) ==> x in out;
  }

  /** Settling leaves every other worker's unsettled total alone when the ids are all this worker's. */
  lemma SettleKeepsOtherWorkers(rows: seq<Advance>, w: int, v: int, ids: seq<int>)
    requires forall x :: x in rows && x.advanceId in ids ==> x.workerId == w
    requires v != w
    ensures Filter(Settled(rows, ids), UnsettledOf(v)) == Filter(rows, UnsettledOf(v))
  {
    var out := Settled(rows, ids);
    forall i | 0 <= i < |rows| && UnsettledOf(v)(rows[i]) ensures out[i] == rows[i] {
      assert rows[i] in rows;
    }
    FilterPointwise(rows, out, UnsettledOf(v));
  }

  /** The advances table: Room's AdvanceDao over its rows and AUTOINCREMENT counter. */
  class AdvanceDao {
    var rows: seq<Advance>
    var nextId: int

    ghost predicate Valid()
      reads this
    {
      ValidKeys(rows, nextId, AdvanceKey)
    }

    constructor ()
      ensures Valid() && rows == []
    {
      rows := [];
      nextId := 1;
    }

    /** insertAdvance (REPLACE): returns the key the row is stored under. */
    method InsertAdvance(a: Advance) returns (id: int)
      requires Valid()
      modifies this
      ensures Valid()
      ensures id == InsertKey(a, old(nextId), AdvanceKey)
      ensures rows == Upsert(old(rows), a.(advanceId := id), AdvanceKey)
      ensures nextId == NextKeyAfter(old(nextId), id)
    {
      id := InsertKey(a, nextId, AdvanceKey);
      UpsertKeepsValid(rows, nextId, a.(advanceId := id), AdvanceKey);
      rows, nextId := Upsert(rows, a.(advanceId := id), AdvanceKey), NextKeyAfter(nextId, id);
    }

    method UpdateAdvance(a: Advance)
      requires Valid()
      modifies this
      ensures Valid()
      ensures rows == UpdateById(old(rows), a, AdvanceKey) && nextId == old(nextId)
    {
      UpdateKeepsValid(rows, nextId, a, AdvanceKey);
      rows := UpdateById(rows, a, AdvanceKey);
    }

    method DeleteAdvance(a: Advance)
      requires Valid()
      modifies this
      ensures Valid()
      ensures rows == DeleteById(old(rows), a.advanceId, AdvanceKey) && nextId == old(nextId)
    {
      DeleteKeepsValid(rows, nextId, a.advanceId, AdvanceKey);
      rows := DeleteById(rows, a.advanceId, AdvanceKey);
    }

    method SettleAdvances(ids: seq<int>)
      requires Valid()
      modifies this
      ensures Valid()
      ensures rows == Settled(old(rows), ids) && nextId == old(nextId)
    {
      MapWhereKeepsValid(rows, nextId, AdvanceIdIn(ids), MarkRecovered, AdvanceKey);
      rows := Settled(rows, ids);
    }
  }
}
