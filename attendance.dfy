// The attendance table and AttendanceDao's queries and status count.
module Attendances {
  import opened Wrappers
  import opened Text
  import opened Collections
  import opened Entities

  function AttendanceDate(a: Attendance): string { a.date }

  function AnyAttendance(): Attendance -> bool { (a: Attendance) => true }
  function AttendanceOfWorker(w: int): Attendance -> bool { (a: Attendance) => a.workerId == w }
  function AttendanceAtSite(s: int): Attendance -> bool { (a: Attendance) => a.siteId == s }
  function AttendanceOn(d: string): Attendance -> bool { (a: Attendance) => a.date == d }
  function WorkerInRange(w: int, lo: string, hi: string): Attendance -> bool
  {
    (a: Attendance) => a.workerId == w && Between(a.date, lo, hi)
  }
  function StatusIs(st: AttendanceStatus): Attendance -> bool { (a: Attendance) => a.status == st }
  function WorkerStatusInRange(w: int, st: AttendanceStatus, lo: string, hi: string): Attendance -> bool
  {
    (a: Attendance) => a.workerId == w && a.status == st && Between(a.date, lo, hi)
  }

  /** getAttendanceById. */
  function AttendanceById(rows: seq<Attendance>, k: int): (r: Option<Attendance>)
    ensures r.None? <==> forall x :: x in rows ==> x.attendanceId != k
    ensures r.Some? ==> r.value in rows && r.value.attendanceId == k
  {
    var r := FindById(rows, k, AttendanceKey);
    assert r.None? ==> forall x :: x in rows ==> x.attendanceId != k;
    r
  }

  /** getAllAttendance: every row, latest date first. */
  function AllAttendance(rows: seq<Attendance>): (r: seq<Attendance>)
    ensures SortedBy(r, AttendanceDate, true)
    ensures multiset(r) == multiset(rows)
  {
    Select(rows, AnyAttendance(), AttendanceDate, true)
  }

  /** getAttendanceForWorker. */
  function AttendanceForWorker(rows: seq<Attendance>, w: int): (r: seq<Attendance>)
    ensures SortedBy(r, AttendanceDate, true)
    ensures forall x :: multiset(r)[x] == if x.workerId == w then multiset(rows)[x] else 0
  {
    Select(rows, AttendanceOfWorker(w), AttendanceDate, true)
  }

  /** getAttendanceForSite. */
  function AttendanceForSite(rows: seq<Attendance>, s: int): (r: seq<Attendance>)
    ensures SortedBy(r, AttendanceDate, true)
    ensures forall x :: multiset(r)[x] == if x.siteId == s then multiset(rows)[x] else 0
  {
    Select(rows, AttendanceAtSite(s), AttendanceDate, true)
  }

  /** getAttendanceForDate: the rows whose date text equals d; the query has no ORDER BY. */
  function AttendanceForDate(rows: seq<Attendance>, d: string): (r: seq<Attendance>)
    ensures IsSubsequence(r, rows)
    ensures forall x :: x in r <==> x in rows && x.date == d
  {
    FilterIsSubsequence(rows, AttendanceOn(d));
    Filter(rows, AttendanceOn(d))
  }

  /** getAttendanceForWorkerInDateRange: the worker's rows dated lo..hi inclusive, latest first. */
  function AttendanceForWorkerInRange(rows: seq<Attendance>, w: int, lo: string, hi: string): (r: seq<Attendance>)
    ensures SortedBy(r, AttendanceDate, true)
    ensures forall x :: multiset(r)[x] == if x.workerId == w && Between(x.date, lo, hi) then multiset(rows)[x] else 0
  {
    Select(rows, WorkerInRange(w, lo, hi), AttendanceDate, true)
  }

  /** getAttendanceCountByStatus: COUNT(*) of the worker's rows with status st dated lo..hi. */
  function CountByStatus(rows: seq<Attendance>, w: int, st: AttendanceStatus, lo: string, hi: string): (n: nat)
    ensures n <= |rows|
    ensures n == 0 <==> forall x :: x in rows ==> !(x.workerId == w && x.status == st && Between(x.date, lo, hi))
  {
    var p := WorkerStatusInRange(w, st, lo, hi);
    assert (forall x :: x in rows ==> !p(x)) ==> Filter(rows, p) == [] by {
      assert forall i :: 0 <= i < |rows| ==> rows[i] in rows;
    }
    Count(rows, p)
  }

  /** The count is the number of rows with that status in the worker's range listing. */
  lemma CountMatchesRangeList(rows: seq<Attendance>, w: int, st: AttendanceStatus, lo: string, hi: string)
    ensures CountByStatus(rows, w, st, lo, hi) == Count(AttendanceForWorkerInRange(rows, w, lo, hi), StatusIs(st))
  {
    var inRange := WorkerInRange(w, lo, hi);
    CountPermutation(Filter(rows, inRange), AttendanceForWorkerInRange(rows, w, lo, hi), StatusIs(st));
    FilterTwice(rows, inRange, StatusIs(st), WorkerStatusInRange(w, st, lo, hi));
  }

  /** The four statuses split the worker's range: their counts add up to the range's length. */
  lemma StatusCountsPartitionRange(rows: seq<Attendance>, w: int, lo: string, hi: string)
    ensures CountByStatus(rows, w, Present, lo, hi) + CountByStatus(rows, w, Absent, lo, hi)
      + CountByStatus(rows, w, HalfDay, lo, hi) + CountByStatus(rows, w, Leave, lo, hi)
      == |AttendanceForWorkerInRange(rows, w, lo, hi)|
  {
    var listed := AttendanceForWorkerInRange(rows, w, lo, hi);
    CountMatchesRangeList(rows, w, Present, lo, hi);
    CountMatchesRangeList(rows, w, Absent, lo, hi);
    CountMatchesRangeList(rows, w, HalfDay, lo, hi);
    CountMatchesRangeList(rows, w, Leave, lo, hi);
    StatusesPartition(listed);
  }

  lemma {:induction false} StatusesPartition(s: seq<Attendance>)
    ensures Count(s, StatusIs(Present)) + Count(s, StatusIs(Absent))
      + Count(s, StatusIs(HalfDay)) + Count(s, StatusIs(Leave)) == |s|
  {
    if s != [] {
      StatusesPartition(s[1..]);
    }
  }

  /** The attendance table: Room's AttendanceDao over its rows and AUTOINCREMENT counter. */
  class AttendanceDao {
    var rows: seq<Attendance>
    var nextId: int

    ghost predicate Valid()
      reads this
    {
      ValidKeys(rows, nextId, AttendanceKey)
    }

    constructor ()
      ensures Valid() && rows == []
    {
      rows := [];
      nextId := 1;
    }

    /** insertAttendance (REPLACE): returns the key the row is stored under. */
    method InsertAttendance(a: Attendance) returns (id: int)
      requires Valid()
      modifies this
      ensures Valid()
      ensures id == InsertKey(a, old(nextId), AttendanceKey)
      ensures rows == Upsert(old(rows), a.(attendanceId := id), AttendanceKey)
      ensures nextId == NextKeyAfter(old(nextId), id)
    {
      id := InsertKey(a, nextId, AttendanceKey);
      UpsertKeepsValid(rows, nextId, a.(attendanceId := id), AttendanceKey);
      rows, nextId := Upsert(rows, a.(attendanceId := id), AttendanceKey), NextKeyAfter(nextId, id);
    }

    method UpdateAttendance(a: Attendance)
      requires Valid()
      modifies this
      ensures Valid()
      ensures rows == UpdateById(old(rows), a, AttendanceKey) && nextId == old(nextId)
    {
      UpdateKeepsValid(rows, nextId, a, AttendanceKey);
      rows := UpdateById(rows, a, AttendanceKey);
    }

    method DeleteAttendance(a: Attendance)
      requires Valid()
      modifies this
      ensures Valid()
      ensures rows == DeleteById(old(rows), a.attendanceId, AttendanceKey) && nextId == old(nextId)
    {
      DeleteKeepsValid(rows, nextId, a.attendanceId, AttendanceKey);
      rows := DeleteById(rows, a.attendanceId, AttendanceKey);
    }
  }
}
