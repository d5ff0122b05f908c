// The payment report screen (PaymentReportActivity.generateReport): it copies
// every payment and narrows the copy by three removeAll passes (date range,
// worker, site), then shows the list, its total and a count.
module PaymentReport {
  import opened Wrappers
  import opened Text
  import opened Collections
  import opened Entities
  import opened Dates
  import opened Dropdowns

  /** A date yyyy-MM-dd parsing produced. */
  type Day = d: CivilDate | ValidDate(d) witness CivilDate(2000, 1, 1)

  /** The first entry of each dropdown, which turns its pass off. */
  const AllWorkers: string := "All Workers"
  const AllSites: string := "All Sites"

  /** The toasts shown when a pass throws and is skipped. */
  datatype Notice = DateFilterError | WorkerFilterError | SiteFilterError

  datatype Outcome =
    | Rejected(message: string)
    | Shown(payments: seq<Payment>, total: real, notices: seq<Notice>)

  /**
   * The date pass's removeAll predicate: the stored date does not parse, is
   * before start, or is not before the day after end.
   */
  predicate OutsideRange(p: Payment, start: Day, end: Day)
  {
    match ParseDate(p.paymentDate, YearMonthDay)
    case None => true
    case Some(d) => DayNumber(d) < DayNumber(start) || !(DayNumber(d) < DayNumber(NextDay(end)))
  }

  function InRange(start: Day, end: Day): Payment -> bool { (p: Payment) => !OutsideRange(p, start, end) }
  function OfWorker(w: int): Payment -> bool { (p: Payment) => p.workerId == w }
  function AtSite(s: int): Payment -> bool { (p: Payment) => p.siteId == s }

  /** Both trimmed bounds parsed as yyyy-MM-dd; None when either parse throws. */
  function DateRange(startText: string, endText: string): (r: Option<(Day, Day)>)
    ensures r.Some? <==> ParseDate(startText, YearMonthDay).Some? && ParseDate(endText, YearMonthDay).Some?
    ensures r.Some? ==> ParseDate(startText, YearMonthDay) == Some(r.value.0) && ParseDate(endText, YearMonthDay) == Some(r.value.1)
  {
    match (ParseDate(startText, YearMonthDay), ParseDate(endText, YearMonthDay))
    case (Some(s), Some(e)) => Some((s, e))
    case _ => None
  }

  /** The id a dropdown pass filters by: none for the "All" entry or where toLong() throws. */
  function Selected(selection: string, allChoice: string): (r: Option<int>)
    ensures selection == allChoice ==> r.None?
    ensures selection != allChoice ==> r == DecodeItem(selection)
  {
    if selection == allChoice then None else DecodeItem(selection)
  }

  /** A payment every pass that ran lets through. */
  predicate Wanted(p: Payment, range: Option<(Day, Day)>, worker: Option<int>, site: Option<int>)
  {
    && (range.Some? ==> !OutsideRange(p, range.value.0, range.value.1))
    && (worker.Some? ==> p.workerId == worker.value)
    && (site.Some? ==> p.siteId == site.value)
  }

  function WantedBy(range: Option<(Day, Day)>, worker: Option<int>, site: Option<int>): Payment -> bool
  {
    (p: Payment) => Wanted(p, range, worker, site)
  }

  /** The toasts of the passes that threw, in the order the passes run. */
  function Notices(dateFailed: bool, workerFailed: bool, siteFailed: bool): (r: seq<Notice>)
    ensures DateFilterError in r <==> dateFailed
    ensures WorkerFilterError in r <==> workerFailed
    ensures SiteFilterError in r <==> siteFailed
    ensures |r| <= 3
  {
    (if dateFailed then [DateFilterError] else [])
    + (if workerFailed then [WorkerFilterError] else [])
    + (if siteFailed then [SiteFilterError] else [])
  }

  /** The date pass: removeAll(OutsideRange) when both bounds parsed, else the list as it was. */
  lemma DatePass(all: seq<Payment>, range: Option<(Day, Day)>)
    ensures (if range.Some? then Filter(all, InRange(range.value.0, range.value.1)) else all)
      == Filter(all, WantedBy(range, None, None))
  {
    if range.Some? {
      FilterCongruent(all, InRange(range.value.0, range.value.1), WantedBy(range, None, None));
    }
  }

  /** The worker pass narrows what the date pass kept to one worker, when an id was read. */
  lemma WorkerPass(all: seq<Payment>, range: Option<(Day, Day)>, worker: Option<int>)
    ensures (if worker.Some? then Filter(Filter(all, WantedBy(range, None, None)), OfWorker(worker.value))
             else Filter(all, WantedBy(range, None, None)))
      == Filter(all, WantedBy(range, worker, None))
  {
    if worker.Some? {
      FilterTwice(all, WantedBy(range, None, None), OfWorker(worker.value), WantedBy(range, worker, None));
    }
  }

  /** The site pass narrows what the worker pass kept to one site, when an id was read. */
  lemma SitePass(all: seq<Payment>, range: Option<(Day, Day)>, worker: Option<int>, site: Option<int>)
    ensures (if site.Some? then Filter(Filter(all, WantedBy(range, worker, None)), AtSite(site.value))
             else Filter(all, WantedBy(range, worker, None)))
      == Filter(all, WantedBy(range, worker, site))
  {
    if site.Some? {
      FilterTwice(all, WantedBy(range, worker, None), AtSite(site.value), WantedBy(range, worker, site));
    }
  }

  /**
   * The three removeAll passes over a copy of the payments, each skipped with
   * a notice when it throws: the copy ends up holding the payments every pass
   * that ran keeps, in stored order.
   */
  method FilterPayments(allPayments: seq<Payment>, startDate: string, endDate: string,
                        workerSelection: string, siteSelection: string)
    returns (tempList: seq<Payment>, notices: seq<Notice>)
    ensures tempList == Filter(allPayments, WantedBy(DateRange(startDate, endDate),
      Selected(workerSelection, AllWorkers), Selected(siteSelection, AllSites)))
    ensures notices == Notices(DateRange(startDate, endDate).None?,
      workerSelection != AllWorkers && DecodeItem(workerSelection).None?,
      siteSelection != AllSites && DecodeItem(siteSelection).None?)
  {
    tempList := allPayments;
    var dateFailed, workerFailed, siteFailed := false, false, false;

    var range := DateRange(startDate, endDate);
    DatePass(allPayments, range);
    if range.Some? {
      tempList := Filter(tempList, InRange(range.value.0, range.value.1));
    } else {
      dateFailed := true;
    }

    var worker := Selected(workerSelection, AllWorkers);
    WorkerPass(allPayments, range, worker);
    if workerSelection != AllWorkers {
      if worker.Some? {
        tempList := Filter(tempList, OfWorker(worker.value));
      } else {
        workerFailed := true;
      }
    }

    var site := Selected(siteSelection, AllSites);
    SitePass(allPayments, range, worker, site);
    if siteSelection != AllSites {
      if site.Some? {
        tempList := Filter(tempList, AtSite(site.value));
      } else {
        siteFailed := true;
      }
    }
    notices := Notices(dateFailed, workerFailed, siteFailed);
  }

  /**
   * generateReport over the payments the observer delivers: blank trimmed
   * dates and empty selections are refused; otherwise the report lists the
   * filtered payments with their total.
   */
  method GenerateReport(startInput: string, endInput: string, workerSelection: string, siteSelection: string,
                        allPayments: seq<Payment>)
    returns (out: Outcome)
    ensures (Trim(startInput) == [] || Trim(endInput) == []) <==> out == Rejected("Please select date range")
    ensures (Trim(startInput) != [] && Trim(endInput) != [] && (workerSelection == [] || siteSelection == []))
      <==> out == Rejected("Please select worker and site")
    ensures Trim(startInput) != [] && Trim(endInput) != [] && workerSelection != [] && siteSelection != []
      ==> out.Shown?
    ensures out.Shown? ==>
      && out.payments == Filter(allPayments, WantedBy(DateRange(Trim(startInput), Trim(endInput)),
           Selected(workerSelection, AllWorkers), Selected(siteSelection, AllSites)))
      && IsSubsequence(out.payments, allPayments)
      && out.total == Sum(out.payments, PaymentAmount)
      && out.notices == Notices(DateRange(Trim(startInput), Trim(endInput)).None?,
           workerSelection != AllWorkers && DecodeItem(workerSelection).None?,
           siteSelection != AllSites && DecodeItem(siteSelection).None?)
  {
    var startDate := Trim(startInput);
    var endDate := Trim(endInput);
    if startDate == [] || endDate == [] {
      return Rejected("Please select date range");
    }
    if workerSelection == [] || siteSelection == [] {
      return Rejected("Please select worker and site");
    }
    var tempList, notices := FilterPayments(allPayments, startDate, endDate, workerSelection, siteSelection);
    FilterIsSubsequence(allPayments, WantedBy(DateRange(startDate, endDate),
      Selected(workerSelection, AllWorkers), Selected(siteSelection, AllSites)));
    out := Shown(tempList, Sum(tempList, PaymentAmount), notices);
  }

  /**
   * A payment stored as yyyy-MM-dd survives the date pass exactly when its day
   * is within start..end, both ends included; one whose date does not parse
   * never survives.
   */
  lemma StoredDateInRange(p: Payment, d: CivilDate, start: Day, end: Day)
    requires ValidDate(d) && p.paymentDate == FormatDate(d, YearMonthDay)
    ensures !OutsideRange(p, start, end) <==> DayNumber(start) <= DayNumber(d) <= DayNumber(end)
  {
    ParseFormat(d, YearMonthDay);
    NextDayNumber(end);
  }

  /** Choosing a worker's dropdown entry filters by exactly that worker; the "All" entry by none. */
  lemma ChosenEntryFilters(id: int, name: string)
    requires IsLong(id)
    ensures Selected(EncodeItem(id, name), AllWorkers) == Some(id)
    ensures Selected(EncodeItem(id, name), AllSites) == Some(id)
  {
    EncodedIsNotAllChoice(id, name);
    DecodeEncode(id, name);
  }

  /** With every "All" entry chosen and a valid range, the report is the payments dated in it. */
  lemma AllEntriesKeepRange(allPayments: seq<Payment>, start: Day, end: Day, x: Payment, d: CivilDate)
    requires ValidDate(d) && x.paymentDate == FormatDate(d, YearMonthDay)
    ensures x in Filter(allPayments, WantedBy(Some((start, end)), None, None))
      <==> x in allPayments && DayNumber(start) <= DayNumber(d) <= DayNumber(end)
  {
    StoredDateInRange(x, d, start, end);
  }
}
