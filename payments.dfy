// The payments table and PaymentDao's queries and totals.
module Payments {
  import opened Wrappers
  import opened Text
  import opened Collections
  import opened Entities

  function PaymentDate(p: Payment): string { p.paymentDate }

  function AnyPayment(): Payment -> bool { (p: Payment) => true }
  function PaymentOfWorker(w: int): Payment -> bool { (p: Payment) => p.workerId == w }
  function PaymentAtSite(s: int): Payment -> bool { (p: Payment) => p.siteId == s }
  function PaymentForMonth(m: int, y: int): Payment -> bool { (p: Payment) => p.forMonth == m && p.forYear == y }
  function PaymentInRange(lo: string, hi: string): Payment -> bool { (p: Payment) => Between(p.paymentDate, lo, hi) }

  /** getPaymentById. */
  function PaymentById(rows: seq<Payment>, k: int): (r: Option<Payment>)
    ensures r.None? <==> forall x :: x in rows ==> x.paymentId != k
    ensures r.Some? ==> r.value in rows && r.value.paymentId == k
  {
    var r := FindById(rows, k, PaymentKey);
    assert r.None? ==> forall x :: x in rows ==> x.paymentId != k;
    r
  }

  /** getAllPayments: every row, newest paymentDate first. */
  function AllPayments(rows: seq<Payment>): (r: seq<Payment>)
    ensures SortedBy(r, PaymentDate, true)
    ensures multiset(r) == multiset(rows)
  {
    Select(rows, AnyPayment(), PaymentDate, true)
  }

  /** getPaymentsForWorker. */
  function PaymentsForWorker(rows: seq<Payment>, w: int): (r: seq<Payment>)
    ensures SortedBy(r, PaymentDate, true)
    ensures forall x :: multiset(r)[x] == if x.workerId == w then multiset(rows)[x] else 0
  {
    Select(rows, PaymentOfWorker(w), PaymentDate, true)
  }

  /** getPaymentsForSite. */
  function PaymentsForSite(rows: seq<Payment>, s: int): (r: seq<Payment>)
    ensures SortedBy(r, PaymentDate, true)
    ensures forall x :: multiset(r)[x] == if x.siteId == s then multiset(rows)[x] else 0
  {
    Select(rows, PaymentAtSite(s), PaymentDate, true)
  }

  /** getPaymentsForMonthYear: the payments booked for month m of year y. */
  function PaymentsForMonthYear(rows: seq<Payment>, m: int, y: int): (r: seq<Payment>)
    ensures SortedBy(r, PaymentDate, true)
    ensures forall x :: multiset(r)[x] == if x.forMonth == m && x.forYear == y then multiset(rows)[x] else 0
  {
    Select(rows, PaymentForMonth(m, y), PaymentDate, true)
  }

  /** getPaymentsByDateRange: paymentDate BETWEEN lo AND hi, as text. */
  function PaymentsByDateRange(rows: seq<Payment>, lo: string, hi: string): (r: seq<Payment>)
    ensures SortedBy(r, PaymentDate, true)
    ensures forall x :: multiset(r)[x] == if StrLe(lo, x.paymentDate) && StrLe(x.paymentDate, hi) then multiset(rows)[x] else 0
  {
    Select(rows, PaymentInRange(lo, hi), PaymentDate, true)
  }

  /** SUM(amount) over the rows p keeps: NULL exactly when no row qualifies. */
  function TotalWhere(rows: seq<Payment>, p: Payment -> bool): (r: Option<real>)
    ensures r.None? <==> forall x :: x in rows ==> !p(x)
  {
    var r := SqlSum(Filter(rows, p), PaymentAmount);
    assert (forall x :: x in rows ==> !p(x)) ==> r.None? by {
      assert forall i :: 0 <= i < |rows| ==> rows[i] in rows;
    }
    r
  }

  /** getTotalPaymentsForWorker. */
  function TotalPaymentsForWorker(rows: seq<Payment>, w: int): (r: Option<real>)
    ensures r.None? <==> forall x :: x in rows ==> x.workerId != w
  {
    TotalWhere(rows, PaymentOfWorker(w))
  }

  /** getTotalPaymentsForSite. */
  function TotalPaymentsForSite(rows: seq<Payment>, s: int): (r: Option<real>)
    ensures r.None? <==> forall x :: x in rows ==> x.siteId != s
  {
    TotalWhere(rows, PaymentAtSite(s))
  }

  /** getTotalPaymentsForMonthYear. */
  function TotalPaymentsForMonthYear(rows: seq<Payment>, m: int, y: int): (r: Option<real>)
    ensures r.None? <==> forall x :: x in rows ==> x.forMonth != m || x.forYear != y
  {
    TotalWhere(rows, PaymentForMonth(m, y))
  }

  /** Each total is the sum of the amounts of the matching list query. */
  lemma TotalsMatchLists(rows: seq<Payment>, w: int, s: int, m: int, y: int)
    ensures TotalPaymentsForWorker(rows, w) == SqlSum(PaymentsForWorker(rows, w), PaymentAmount)
    ensures TotalPaymentsForSite(rows, s) == SqlSum(PaymentsForSite(rows, s), PaymentAmount)
    ensures TotalPaymentsForMonthYear(rows, m, y) == SqlSum(PaymentsForMonthYear(rows, m, y), PaymentAmount)
  {
    SumOfSelect(rows, PaymentOfWorker(w), PaymentDate, true, PaymentAmount);
    SumOfSelect(rows, PaymentAtSite(s), PaymentDate, true, PaymentAmount);
    SumOfSelect(rows, PaymentForMonth(m, y), PaymentDate, true, PaymentAmount);
  }

  /** Inserting a fresh payment for a worker adds its amount to that worker's total. */
  lemma FreshPaymentAddsToTotal(rows: seq<Payment>, p: Payment)
    ensures TotalPaymentsForWorker(rows + [p], p.workerId).Some?
    ensures TotalPaymentsForWorker(rows + [p], p.workerId).value
      == TotalPaymentsForWorker(rows, p.workerId).GetOr(0.0) + p.amount
  {
    var q := PaymentOfWorker(p.workerId);
    FilterAppend(rows, [p], q);
    assert Filter([p], q) == [p] by {
      assert [p][1..] == [];
    }
    SumAppend(Filter(rows, q), [p], PaymentAmount);
    assert Sum([p], PaymentAmount) == p.amount by {
      assert [p][..0] == [];
    }
  }

  /** The payments table: Room's PaymentDao over its rows and AUTOINCREMENT counter. */
  class PaymentDao {
    var rows: seq<Payment>
    var nextId: int

    ghost predicate Valid()
      reads this
    {
      ValidKeys(rows, nextId, PaymentKey)
    }

    constructor ()
      ensures Valid() && rows == []
    {
      rows := [];
      nextId := 1;
    }

    /** insertPayment (REPLACE): returns the key the row is stored under. */
    method InsertPayment(p: Payment) returns (id: int)
      requires Valid()
      modifies this
      ensures Valid()
      ensures id == InsertKey(p, old(nextId), PaymentKey)
      ensures rows == Upsert(old(rows), p.(paymentId := id), PaymentKey)
      ensures nextId == NextKeyAfter(old(nextId), id)
    {
      id := InsertKey(p, nextId, PaymentKey);
      UpsertKeepsValid(rows, nextId, p.(paymentId := id), PaymentKey);
      rows, nextId := Upsert(rows, p.(paymentId := id), PaymentKey), NextKeyAfter(nextId, id);
    }

    method UpdatePayment(p: Payment)
      requires Valid()
      modifies this
      ensures Valid()
      ensures rows == UpdateById(old(rows), p, PaymentKey) && nextId == old(nextId)
    {
      UpdateKeepsValid(rows, nextId, p, PaymentKey);
      rows := UpdateById(rows, p, PaymentKey);
    }

    method DeletePayment(p: Payment)
      requires Valid()
      modifies this
      ensures Valid()
      ensures rows == DeleteById(old(rows), p.paymentId, PaymentKey) && nextId == old(nextId)
    {
      DeleteKeepsValid(rows, nextId, p.paymentId, PaymentKey);
      rows := DeleteById(rows, p.paymentId, PaymentKey);
    }
  }
}
