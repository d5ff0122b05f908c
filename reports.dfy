// ReportViewModel: the filters that choose a report's records, the totals
// under each table, the Excel row layout, and the state the screen observes.
// PDF and Excel rendering are outside the model; a report section is the
// list of records it shows, or the error that made it drop its table.
module Reports {
  import opened Wrappers
  import opened Text
  import opened Collections
  import opened Entities
  import opened Dates
  import opened Workers
  import opened Sites

  datatype ReportType = WorkerList | PaymentHistory | AdvancePayment | SiteSummary | AttendanceReport

  datatype ExportFormat = Pdf | Excel

  datatype ReportFilter = ReportFilter(
    reportType: ReportType,
    startDate: Option<string>,
    endDate: Option<string>,
    workerId: Option<int>,
    siteId: Option<int>,
    exportFormat: ExportFormat)

  /** getReportTitle: one title per report type, each ending in " Report". */
  function ReportTitle(t: ReportType): (title: string)
    ensures |title| > 7 && title[|title| - 7..] == " Report"
  {
    match t
    case WorkerList => "Worker List Report"
    case PaymentHistory => "Payment History Report"
    case AdvancePayment => "Advance Payment Report"
    case SiteSummary => "Site Summary Report"
    case AttendanceReport => "Attendance Report"
  }

  /** Different report types never share a title (the Excel sheet is named by it). */
  lemma ReportTitleInjective(a: ReportType, b: ReportType)
    ensures ReportTitle(a) == ReportTitle(b) <==> a == b
  {
    if a != b {
      var ta, tb := ReportTitle(a), ReportTitle(b);
      assert ta[0] != tb[0] || ta[1] != tb[1] || |ta| != |tb|;
    }
  }

  // ---- The record filters ----

  /** How the filters see one record type: its date text, its worker and, when it has one, its site. */
  datatype Columns<!T> = Columns(date: T -> string, worker: T -> int, site: Option<T -> int>)

  function PaymentColumns(): Columns<Payment>
  {
    Columns((p: Payment) => p.paymentDate, (p: Payment) => p.workerId, Some((p: Payment) => p.siteId))
  }

  /** Advances have no site, so filterAdvances never looks at siteId. */
  function AdvanceColumns(): Columns<Advance>
  {
    Columns((a: Advance) => a.advanceDate, (a: Advance) => a.workerId, None)
  }

  function AttendanceColumns(): Columns<Attendance>
  {
    Columns((a: Attendance) => a.date, (a: Attendance) => a.workerId, Some((a: Attendance) => a.siteId))
  }

  /** The date test runs only when both bounds are given. */
  predicate HasDateRange(f: ReportFilter)
  {
    f.startDate.Some? && f.endDate.Some?
  }

  /** The worker and site tests: an absent id lets every record through. */
  predicate IdsMatch<T>(x: T, cols: Columns<T>, f: ReportFilter)
  {
    (f.workerId.None? || cols.worker(x) == f.workerId.value)
    && (cols.site.None? || f.siteId.None? || cols.site.value(x) == f.siteId.value)
  }

  /** The record's date and both bounds parse: the record with pattern p, the bounds as dd/MM/yyyy. */
  predicate RangeParses(text: string, lo: string, hi: string, p: Pattern)
  {
    ParseDate(text, p).Some? && ParseDate(lo, DayMonthYear).Some? && ParseDate(hi, DayMonthYear).Some?
  }

  /** lo <= date <= hi as calendar days, inclusive at both ends. */
  predicate WithinRange(text: string, lo: string, hi: string, p: Pattern)
  {
    RangeParses(text, lo, hi, p)
    && DayNumber(ParseDate(lo, DayMonthYear).value) <= DayNumber(ParseDate(text, p).value)
    && DayNumber(ParseDate(text, p).value) <= DayNumber(ParseDate(hi, DayMonthYear).value)
  }

  /**
   * The date test as written: the record's date, then the start, then the end
   * are parsed as dd/MM/yyyy; the first that does not parse throws.
   */
  function DateWithin(text: string, lo: string, hi: string): (r: Result<bool, string>)
    ensures r.Err? <==> !RangeParses(text, lo, hi, DayMonthYear)
    ensures r.Ok? ==> (r.value <==> WithinRange(text, lo, hi, DayMonthYear))
  {
    match ParseDate(text, DayMonthYear)
    case None => Err(text)
    case Some(d) =>
      match ParseDate(lo, DayMonthYear)
      case None => Err(lo)
      case Some(s) =>
        match ParseDate(hi, DayMonthYear)
        case None => Err(hi)
        case Some(e) => Ok(DayNumber(s) <= DayNumber(d) <= DayNumber(e))
  }

  /** The `matches` lambda of filterPayments, filterAdvances and filterAttendance, for one record. */
  function Matches<T>(x: T, cols: Columns<T>, f: ReportFilter): Result<bool, string>
  {
    if HasDateRange(f) then
      match DateWithin(cols.date(x), f.startDate.value, f.endDate.value)
      case Err(e) => Err(e)
      case Ok(b) => Ok(b && IdsMatch(x, cols, f))
    else Ok(IdsMatch(x, cols, f))
  }

  function RecordMatches<T>(cols: Columns<T>, f: ReportFilter): T -> Result<bool, string>
  {
    (x: T) => Matches(x, cols, f)
  }

  /**
   * `all.value?.filter { matches } ?: emptyList()`: no list gives no records;
   * otherwise the records that pass every requested test, in list order, or
   * the parse failure that aborts the filter.
   */
  function FilterRecords<T(!new)>(all: Option<seq<T>>, cols: Columns<T>, f: ReportFilter): (r: Result<seq<T>, string>)
    ensures all.None? ==> r == Ok([])
    ensures r.Err? <==> (all.Some? && HasDateRange(f) &&
      exists i :: 0 <= i < |all.value| && !RangeParses(cols.date(all.value[i]), f.startDate.value, f.endDate.value, DayMonthYear))
    ensures all.Some? && r.Ok? ==> IsSubsequence(r.value, all.value)
    ensures all.Some? && r.Ok? ==> forall x :: x in r.value <==>
      (x in all.value && IdsMatch(x, cols, f)
       && (HasDateRange(f) ==> WithinRange(cols.date(x), f.startDate.value, f.endDate.value, DayMonthYear)))
  {
    match all
    case None => Ok([])
    case Some(s) => TryFilter(s, RecordMatches(cols, f))
  }

  function FilterPayments(all: Option<seq<Payment>>, f: ReportFilter): Result<seq<Payment>, string>
  {
    FilterRecords(all, PaymentColumns(), f)
  }

  function FilterAdvances(all: Option<seq<Advance>>, f: ReportFilter): Result<seq<Advance>, string>
  {
    FilterRecords(all, AdvanceColumns(), f)
  }

  function FilterAttendance(all: Option<seq<Attendance>>, f: ReportFilter): Result<seq<Attendance>, string>
  {
    FilterRecords(all, AttendanceColumns(), f)
  }

  /** Without both bounds nothing is parsed: the filter is the plain worker and site test. */
  lemma {:induction false} NoRangeNeverFails<T(!new)>(s: seq<T>, cols: Columns<T>, f: ReportFilter)
    requires !HasDateRange(f)
    ensures FilterRecords(Some(s), cols, f) == Ok(Filter(s, (x: T) => IdsMatch(x, cols, f)))
  {
    TryFilterTotal(s, RecordMatches(cols, f), (x: T) => IdsMatch(x, cols, f));
  }

  /** filterAdvances gives the same answer whatever siteId the filter carries. */
  lemma AdvancesIgnoreSite(all: Option<seq<Advance>>, f: ReportFilter, site: Option<int>)
    ensures FilterAdvances(all, f) == FilterAdvances(all, f.(siteId := site))
  {
    var g := f.(siteId := site);
    forall x: Advance ensures RecordMatches(AdvanceColumns(), f)(x) == RecordMatches(AdvanceColumns(), g)(x) {
      assert IdsMatch(x, AdvanceColumns(), f) == IdsMatch(x, AdvanceColumns(), g);
    }
    if all.Some? {
      TryFilterCongruent(all.value, RecordMatches(AdvanceColumns(), f), RecordMatches(AdvanceColumns(), g));
    }
  }

  /**
   * As written, a date range over any list holding a record stored the way
   * the app stores dates (yyyy-MM-dd) aborts the filter.
   */
  lemma StoredDateAbortsFilter<T(!new)>(s: seq<T>, cols: Columns<T>, f: ReportFilter, i: int, d: CivilDate)
    requires HasDateRange(f)
    requires 0 <= i < |s| && ValidDate(d) && cols.date(s[i]) == FormatDate(d, YearMonthDay)
    ensures FilterRecords(Some(s), cols, f).Err?
  {
    DayMonthYearRejectsStored(d);
  }

  // ---- The date test as intended ----

  /**
   * The date test reading the record's date as it is stored (yyyy-MM-dd) and
   * the bounds as the report screen writes them (dd/MM/yyyy); a record whose
   * date does not parse is left out rather than aborting the report.
   */
  function StoredDateWithin(text: string, lo: string, hi: string): (r: Result<bool, string>)
    ensures r.Err? <==> ParseDate(lo, DayMonthYear).None? || ParseDate(hi, DayMonthYear).None?
    ensures r.Ok? ==> (r.value <==> WithinRange(text, lo, hi, YearMonthDay))
  {
    match ParseDate(lo, DayMonthYear)
    case None => Err(lo)
    case Some(s) =>
      match ParseDate(hi, DayMonthYear)
      case None => Err(hi)
      case Some(e) =>
        match ParseDate(text, YearMonthDay)
        case None => Ok(false)
        case Some(d) => Ok(DayNumber(s) <= DayNumber(d) <= DayNumber(e))
  }

  function StoredMatches<T>(x: T, cols: Columns<T>, f: ReportFilter): Result<bool, string>
  {
    if HasDateRange(f) then
      match StoredDateWithin(cols.date(x), f.startDate.value, f.endDate.value)
      case Err(e) => Err(e)
      case Ok(b) => Ok(b && IdsMatch(x, cols, f))
    else Ok(IdsMatch(x, cols, f))
  }

  function StoredRecordMatches<T>(cols: Columns<T>, f: ReportFilter): T -> Result<bool, string>
  {
    (x: T) => StoredMatches(x, cols, f)
  }

  /** The record filter with the date test corrected. */
  function FilterStoredRecords<T(!new)>(all: Option<seq<T>>, cols: Columns<T>, f: ReportFilter): (r: Result<seq<T>, string>)
    ensures all.None? ==> r == Ok([])
    ensures r.Err? <==> (all.Some? && all.value != [] && HasDateRange(f) &&
      (ParseDate(f.startDate.value, DayMonthYear).None? || ParseDate(f.endDate.value, DayMonthYear).None?))
    ensures all.Some? && r.Ok? ==> IsSubsequence(r.value, all.value)
    ensures all.Some? && r.Ok? ==> forall x :: x in r.value <==>
      (x in all.value && IdsMatch(x, cols, f)
       && (HasDateRange(f) ==> WithinRange(cols.date(x), f.startDate.value, f.endDate.value, YearMonthDay)))
  {
    match all
    case None => Ok([])
    case Some(s) =>
      var r := TryFilter(s, StoredRecordMatches(cols, f));
      var fails := HasDateRange(f) &&
        (ParseDate(f.startDate.value, DayMonthYear).None? || ParseDate(f.endDate.value, DayMonthYear).None?);
      assert forall i :: 0 <= i < |s| ==> StoredRecordMatches(cols, f)(s[i]).Err? == fails;
      assert s != [] ==> StoredRecordMatches(cols, f)(s[0]).Err? == fails;
      r
  }

  /**
   * With bounds as the report screen formats them, the corrected filter keeps
   * a stored record exactly when its day lies in the inclusive range and its
   * worker and site match.
   */
  lemma StoredFilterKeepsRange<T(!new)>(s: seq<T>, cols: Columns<T>, f: ReportFilter, lo: CivilDate, hi: CivilDate, x: T, d: CivilDate)
    requires ValidDate(lo) && ValidDate(hi) && ValidDate(d)
    requires f.startDate == Some(FormatDate(lo, DayMonthYear)) && f.endDate == Some(FormatDate(hi, DayMonthYear))
    requires x in s && cols.date(x) == FormatDate(d, YearMonthDay)
    ensures FilterStoredRecords(Some(s), cols, f).Ok?
    ensures x in FilterStoredRecords(Some(s), cols, f).value <==>
      IdsMatch(x, cols, f) && DayNumber(lo) <= DayNumber(d) <= DayNumber(hi)
  {
    ParseFormat(lo, DayMonthYear);
    ParseFormat(hi, DayMonthYear);
    ParseFormat(d, YearMonthDay);
  }

  // ---- Sections and totals ----

  /** The `totalAmount += amount` loop under a PDF table. */
  method TotalAmount<T>(s: seq<T>, amount: T -> real) returns (total: real)
    ensures total == Sum(s, amount)
  {
    total := 0.0;
    var i := 0;
    while i < |s|
      invariant 0 <= i <= |s|
      invariant total == Sum(s[..i], amount)
    {
      assert s[..i + 1][..i] == s[..i];
      total := total + amount(s[i]);
      i := i + 1;
    }
    assert s[..|s|] == s;
  }

  /**
   * A report section: the table with its record count and total amount, or
   * nothing when the filter threw (the section's catch drops the table and the
   * report goes on).
   */
  datatype Section<T> = Listed(records: seq<T>, count: nat, total: real) | Dropped(error: string)

  method SectionOf<T>(filtered: Result<seq<T>, string>, amount: T -> real) returns (section: Section<T>)
    ensures filtered.Err? ==> section == Dropped(filtered.error)
    ensures filtered.Ok? ==> (section.Listed? && section.records == filtered.value
      && section.count == |filtered.value| && section.total == Sum(filtered.value, amount))
  {
    match filtered
    case Err(e) =>
      section := Dropped(e);
    case Ok(records) =>
      var total := TotalAmount(records, amount);
      section := Listed(records, |records|, total);
  }

  /** The site summary's sites: the one with the given id, or all of them. */
  function FilteredSites(all: Option<seq<Site>>, siteId: Option<int>): (r: seq<Site>)
    ensures siteId.None? ==> r == all.GetOr([])
    ensures all.None? ==> r == []
    ensures all.Some? ==> IsSubsequence(r, all.value)
    ensures siteId.Some? ==> forall x :: x in r <==> all.Some? && x in all.value && x.siteId == siteId.value
  {
    match all
    case None => []
    case Some(s) =>
      if siteId.None? then
        assert IsSubsequence(s, s) by {
          Collections.FilterIsSubsequence(s, (x: Site) => true);
        }
        s
      else
        FilterIsSubsequence(s, (x: Site) => x.siteId == siteId.value);
        Filter(s, (x: Site) => x.siteId == siteId.value)
  }

  // ---- Excel layout ----

  /**
   * The rows a sheet gets: the header on row 0, record k - 1 on row k, and,
   * for the tables with a total, the total on row n + 2 after one empty row.
   */
  function SheetRows(header: seq<string>, body: seq<seq<string>>, total: Option<seq<string>>): (m: map<int, seq<string>>)
    ensures 0 in m && m[0] == header
    ensures forall k :: 1 <= k <= |body| ==> k in m && m[k] == body[k - 1]
    ensures |body| + 1 !in m
    ensures |body| + 2 in m <==> total.Some?
    ensures total.Some? ==> m[|body| + 2] == total.value
    ensures forall k :: k in m ==> 0 <= k <= |body| || k == |body| + 2
  {
    var rows := TableRows(header, body);
    if total.Some? then rows[|body| + 2 := total.value] else rows
  }

  /** The header and body rows of a sheet, built one row at a time. */
  function TableRows(header: seq<string>, body: seq<seq<string>>): (m: map<int, seq<string>>)
    ensures 0 in m && m[0] == header
    ensures forall k :: 1 <= k <= |body| ==> k in m && m[k] == body[k - 1]
    ensures forall k :: k in m ==> 0 <= k <= |body|
  {
    if body == [] then map[0 := header]
    else
      var front := TableRows(header, body[..|body| - 1]);
      assert forall i :: 0 <= i < |body| - 1 ==> body[..|body| - 1][i] == body[i];
      front[|body| := body[|body| - 1]]
  }

  /** `allWorkers.value?.find { it.id == id }?.name ?: "Unknown"`. */
  function WorkerNameOr(workers: Option<seq<Worker>>, id: int): (name: string)
    ensures name == "Unknown" || exists w :: w in workers.GetOr([]) && w.id == id && w.name == name
    ensures (workers.None? || forall w :: w in workers.value ==> w.id != id) ==> name == "Unknown"
  {
    match workers
    case None => "Unknown"
    case Some(ws) => match WorkerById(ws, id) case None => "Unknown" case Some(w) => w.name
  }

  function SiteNameOr(sites: Option<seq<Site>>, id: int): (name: string)
    ensures name == "Unknown" || exists s :: s in sites.GetOr([]) && s.siteId == id && s.name == name
    ensures (sites.None? || forall s :: s in sites.value ==> s.siteId != id) ==> name == "Unknown"
  {
    match sites
    case None => "Unknown"
    case Some(ss) => match SiteById(ss, id) case None => "Unknown" case Some(s) => s.name
  }

  function PaymentHeader(): seq<string> { ["ID", "Worker", "Site", "Date", "Amount (₹)", "Mode"] }

  /** A payment's Excel row; amountText is Double.toString, which the model leaves abstract. */
  function PaymentCells(p: Payment, workers: Option<seq<Worker>>, sites: Option<seq<Site>>, amountText: real -> string): (cells: seq<string>)
    ensures |cells| == |PaymentHeader()|
    ensures cells[0] == LongToString(p.paymentId) && cells[3] == p.paymentDate && cells[5] == PaymentModeName(p.paymentMode)
  {
    [LongToString(p.paymentId), WorkerNameOr(workers, p.workerId), SiteNameOr(sites, p.siteId),
     p.paymentDate, amountText(p.amount), PaymentModeName(p.paymentMode)]
  }

  /** One Excel row per payment, in order. */
  function PaymentBody(ps: seq<Payment>, workers: Option<seq<Worker>>, sites: Option<seq<Site>>,
                       amountText: real -> string): (body: seq<seq<string>>)
    ensures |body| == |ps|
    ensures forall i :: 0 <= i < |ps| ==> body[i] == PaymentCells(ps[i], workers, sites, amountText)
  {
    if ps == [] then []
    else [PaymentCells(ps[0], workers, sites, amountText)] + PaymentBody(ps[1..], workers, sites, amountText)
  }

  /**
   * addPaymentHistoryToExcel: no rows at all when the filter threw (it runs
   * before the header is written); otherwise payment k - 1 on row k, and the
   * total in the Amount column two rows below the last payment. The total
   * row only creates cells 0 and 4; cells 1-3 are never created, and the
   * model writes them as "", which is how an absent cell reads.
   */
  function PaymentSheet(filtered: Result<seq<Payment>, string>, workers: Option<seq<Worker>>, sites: Option<seq<Site>>,
                        amountText: real -> string): (m: map<int, seq<string>>)
    ensures filtered.Err? ==> m == map[]
    ensures filtered.Ok? ==> (|filtered.value| + 2 in m && |m[|filtered.value| + 2]| == 5
      && m[|filtered.value| + 2][0] == "Total"
      && m[|filtered.value| + 2][4] == amountText(Sum(filtered.value, PaymentAmount)))
    ensures filtered.Ok? ==> |filtered.value| + 1 !in m
    ensures filtered.Ok? ==> forall k :: 1 <= k <= |filtered.value| ==>
      k in m && |m[k]| == 6 && m[k][0] == LongToString(filtered.value[k - 1].paymentId)
      && m[k][3] == filtered.value[k - 1].paymentDate
  {
    match filtered
    case Err(_) => map[]
    case Ok(ps) =>
      SheetRows(PaymentHeader(), PaymentBody(ps, workers, sites, amountText),
                Some(["Total", "", "", "", amountText(Sum(ps, PaymentAmount))]))
  }

  // ---- Screen state ----

  /** The LiveData fields generateReport sets. */
  class ReportViewModel {
    var reportGenerated: bool
    var reportUri: Option<string>
    var isLoading: bool
    var errorMessage: Option<string>

    constructor ()
      ensures !reportGenerated && reportUri.None? && !isLoading && errorMessage.None?
    {
      reportGenerated, reportUri, isLoading, errorMessage := false, None, false, None;
    }

    /**
     * generateReport: the sections catch their own errors, so only the file
     * itself decides the outcome. `written` says whether the document could be
     * written and shared (as `uri`); `failure` is the message when it could not.
     */
    method GenerateReport(f: ReportFilter, written: bool, uri: string, failure: string)
      modifies this
      ensures !isLoading
      ensures reportGenerated == written
      ensures reportUri == (if written then Some(uri) else None)
      ensures errorMessage == (if written then None else Some(failure))
    {
      isLoading := true;
      errorMessage := None;
      reportUri := None;
      reportGenerated := false;
      if written {
        reportUri := Some(uri);
        reportGenerated := true;
        isLoading := false;
      } else {
        errorMessage := Some(failure);
        isLoading := false;
      }
    }
  }
}
