// The report request form (ReportFragment): listeners keep the chosen dates,
// worker and site; generateReport checks the range and sends the choices as
// intent extras, which ReportGenerationActivity reads back into a filter.
module ReportRequest {
  import opened Wrappers
  import opened Entities
  import opened Dates
  import opened Reports
  import Sites
  import Workers

  /** The id a spinner holds for its "All ..." entry, and the default getLongExtra reads. */
  const NoSelection: int := -1

  const MillisPerDay: int := 86400000

  /** A java.util.Calendar: a calendar day and the time of day, in milliseconds. */
  datatype Moment = Moment(date: CivilDate, millis: int)

  type Instant = m: Moment | ValidDate(m.date) && 0 <= m.millis < MillisPerDay
    witness Moment(CivilDate(2000, 1, 1), 0)

  /** Calendar.after: a strictly later instant, time of day included. */
  predicate InstantAfter(a: Instant, b: Instant)
  {
    DayNumber(a.date) > DayNumber(b.date) || (DayNumber(a.date) == DayNumber(b.date) && a.millis > b.millis)
  }

  /** The range check the refusal message describes: the start day is after the end day. */
  predicate DayAfter(a: Instant, b: Instant)
  {
    DayNumber(a.date) > DayNumber(b.date)
  }

  /** Calendar.after orders instants: irreflexive, transitive and total on different instants. */
  lemma InstantAfterIsOrder(a: Instant, b: Instant, c: Instant)
    ensures !InstantAfter(a, a)
    ensures InstantAfter(a, b) && InstantAfter(b, c) ==> InstantAfter(a, c)
    ensures a != b ==> InstantAfter(a, b) || InstantAfter(b, a)
  {
    DayNumberOrder(a.date, b.date);
  }

  /** The instant check refuses every range the day check refuses, and also same-day ranges whose start is later in the day. */
  lemma InstantCheckRefusesSameDay(a: Instant, b: Instant)
    ensures DayAfter(a, b) ==> InstantAfter(a, b)
    ensures InstantAfter(a, b) <==> DayAfter(a, b) || (a.date == b.date && a.millis > b.millis)
  {
    DayNumberOrder(a.date, b.date);
  }

  /** One concrete refusal: 1 March 2024 to 1 March 2024, the start read one millisecond after the end. */
  lemma SameDayRangeRefused()
    ensures InstantAfter(Moment(CivilDate(2024, 3, 1), 1), Moment(CivilDate(2024, 3, 1), 0))
    ensures !DayAfter(Moment(CivilDate(2024, 3, 1), 1), Moment(CivilDate(2024, 3, 1), 0))
  {
  }

  /**
   * On the first of a month the form's default range is that one day, but the
   * start was read from the clock after the end, so the instant check refuses it
   * while the day check lets it through.
   */
  lemma DefaultRangeOnFirstRefused(now: Instant, secondReading: Instant)
    requires now.date.day == 1 && secondReading.date == now.date && secondReading.millis > now.millis
    ensures var start: Instant := Moment(now.date.(day := 1), secondReading.millis);
      InstantAfter(start, now) && !DayAfter(start, now)
  {
    assert now.date.(day := 1) == now.date;
  }

  /**
   * When the two clock readings fall on either side of midnight at the end of
   * a month, the start is the first of the next month and comes after the end
   * by day as well as by instant.
   */
  lemma DefaultRangeAcrossMidnightRefused()
    ensures var now: Instant := Moment(CivilDate(2024, 1, 31), MillisPerDay - 1);
      var secondReading: Instant := Moment(CivilDate(2024, 2, 1), 0);
      var start: Instant := Moment(secondReading.date.(day := 1), secondReading.millis);
      InstantAfter(start, now) && DayAfter(start, now)
  {
    var now: Instant := Moment(CivilDate(2024, 1, 31), MillisPerDay - 1);
    var start: Instant := Moment(CivilDate(2024, 2, 1), 0);
    DayCheckIgnoresTime(start, now);
    DayNumberOrder(now.date, start.date);
  }

  /** The day check refuses exactly the ranges whose start day comes after the end day, whatever the times of day. */
  lemma DayCheckIgnoresTime(a: Instant, b: Instant)
    ensures DayAfter(a, b) <==> DateBefore(b.date, a.date)
    ensures a.date == b.date ==> !DayAfter(a, b)
  {
    DayNumberOrder(b.date, a.date);
  }

  // ---- Intent extras ----

  datatype Extra = TypeValue(t: ReportType) | FormatValue(f: ExportFormat) | TextValue(s: string) | LongValue(n: int)

  /** The names generateReport puts its extras under (ReportTypeName, ExportFormatName, StartDateName, ...). */
  datatype ExtraName = ReportTypeName | ExportFormatName | StartDateName | EndDateName | WorkerIdName | SiteIdName

  type Extras = map<ExtraName, Extra>

  /** The string key each extra is put under. */
  function ExtraKey(n: ExtraName): (k: string)
    ensures k != []
  {
    match n
    case ReportTypeName => "reportType"
    case ExportFormatName => "exportFormat"
    case StartDateName => "startDate"
    case EndDateName => "endDate"
    case WorkerIdName => "workerId"
    case SiteIdName => "siteId"
  }

  /**
   * The six keys are pairwise different, so an intent keyed by these strings
   * holds the same extras as a map keyed by ExtraName: no putExtra overwrites another.
   */
  lemma ExtraKeysDistinct(a: ExtraName, b: ExtraName)
    ensures ExtraKey(a) == ExtraKey(b) <==> a == b
  {
    if a != b {
      assert |ExtraKey(a)| != |ExtraKey(b)|;
    }
  }

  /** getSerializableExtra(key) as? ReportType ?: WORKER_LIST. */
  function ReportTypeExtra(e: Extras): ReportType
  {
    if ReportTypeName in e && e[ReportTypeName].TypeValue? then e[ReportTypeName].t else WorkerList
  }

  /** getSerializableExtra(key) as? ExportFormat ?: PDF. */
  function FormatExtra(e: Extras): ExportFormat
  {
    if ExportFormatName in e && e[ExportFormatName].FormatValue? then e[ExportFormatName].f else Pdf
  }

  /** getStringExtra(key): null when absent or not a string. */
  function StringExtra(e: Extras, key: ExtraName): Option<string>
  {
    if key in e && e[key].TextValue? then Some(e[key].s) else None
  }

  /** getLongExtra(key, -1).takeIf { it != -1 }. */
  function IdExtra(e: Extras, key: ExtraName): (r: Option<int>)
    ensures r.Some? ==> r.value != NoSelection
  {
    var n := if key in e && e[key].LongValue? then e[key].n else NoSelection;
    if n != NoSelection then Some(n) else None
  }

  /** ReportGenerationActivity.onCreate: the filter the extras describe. */
  function ReceivedFilter(e: Extras): ReportFilter
  {
    ReportFilter(ReportTypeExtra(e), StringExtra(e, StartDateName), StringExtra(e, EndDateName),
      IdExtra(e, WorkerIdName), IdExtra(e, SiteIdName), FormatExtra(e))
  }

  predicate UsesWorker(t: ReportType) { t == PaymentHistory || t == AdvancePayment || t == AttendanceReport }
  predicate UsesSite(t: ReportType) { t == PaymentHistory || t == SiteSummary || t == AttendanceReport }

  /**
   * The filter a request is meant to produce: dates for every type but the
   * worker list, a worker for the three types that show one, a site for the
   * three that show one, each only when a real entry is chosen.
   */
  function RequestedFilter(t: ReportType, fmt: ExportFormat, start: Instant, end: Instant, workerId: int, siteId: int)
    : (f: ReportFilter)
    ensures f.reportType == t && f.exportFormat == fmt
    ensures f.startDate.Some? <==> t != WorkerList
    ensures f.startDate.Some? ==> ParseDate(f.startDate.value, DayMonthYear) == Some(start.date)
    ensures f.endDate.Some? <==> t != WorkerList
    ensures f.endDate.Some? ==> ParseDate(f.endDate.value, DayMonthYear) == Some(end.date)
    ensures f.workerId.Some? <==> UsesWorker(t) && workerId != NoSelection
    ensures f.workerId.Some? ==> f.workerId.value == workerId
    ensures f.siteId.Some? <==> UsesSite(t) && siteId != NoSelection
    ensures f.siteId.Some? ==> f.siteId.value == siteId
  {
    ParseFormat(start.date, DayMonthYear);
    ParseFormat(end.date, DayMonthYear);
    ReportFilter(t,
      if t != WorkerList then Some(FormatDate(start.date, DayMonthYear)) else None,
      if t != WorkerList then Some(FormatDate(end.date, DayMonthYear)) else None,
      if UsesWorker(t) && workerId != NoSelection then Some(workerId) else None,
      if UsesSite(t) && siteId != NoSelection then Some(siteId) else None,
      fmt)
  }

  /** The bounds a request sends always parse on the receiving side, so only the records' dates can fail. */
  lemma RequestedBoundsParse(t: ReportType, fmt: ExportFormat, start: Instant, end: Instant, workerId: int, siteId: int, text: string)
    requires t != WorkerList
    ensures var f := RequestedFilter(t, fmt, start, end, workerId, siteId);
      HasDateRange(f) && (RangeParses(text, f.startDate.value, f.endDate.value, DayMonthYear) <==> ParseDate(text, DayMonthYear).Some?)
  {
  }

  /** The extras generateReport puts on the intent, the dates formatted dd/MM/yyyy. */
  function RequestExtras(t: ReportType, fmt: ExportFormat, start: Instant, end: Instant, workerId: int, siteId: int): Extras
  {
    ExtrasFor(t, fmt, FormatDate(start.date, DayMonthYear), FormatDate(end.date, DayMonthYear), workerId, siteId)
  }

  /** The extras put one putExtra at a time, given the two date texts. */
  function ExtrasFor(t: ReportType, fmt: ExportFormat, startText: string, endText: string, workerId: int, siteId: int): Extras
  {
    var typed := map[ReportTypeName := TypeValue(t), ExportFormatName := FormatValue(fmt)];
    var dated := if t != WorkerList then typed[StartDateName := TextValue(startText)][EndDateName := TextValue(endText)] else typed;
    var withWorker := if UsesWorker(t) && workerId != NoSelection then dated[WorkerIdName := LongValue(workerId)] else dated;
    if UsesSite(t) && siteId != NoSelection then withWorker[SiteIdName := LongValue(siteId)] else withWorker
  }

  /** Each extra the request puts is read back as what it put; absent ones read back as absent. */
  lemma ExtrasReadBack(t: ReportType, fmt: ExportFormat, startText: string, endText: string, workerId: int, siteId: int)
    ensures var e := ExtrasFor(t, fmt, startText, endText, workerId, siteId);
      && ReportTypeExtra(e) == t && FormatExtra(e) == fmt
      && StringExtra(e, StartDateName) == (if t != WorkerList then Some(startText) else None)
      && StringExtra(e, EndDateName) == (if t != WorkerList then Some(endText) else None)
      && IdExtra(e, WorkerIdName) == (if UsesWorker(t) && workerId != NoSelection then Some(workerId) else None)
      && IdExtra(e, SiteIdName) == (if UsesSite(t) && siteId != NoSelection then Some(siteId) else None)
  {
  }

  /** What ReportGenerationActivity reads back from the extras is the requested filter. */
  lemma RequestRoundTrip(t: ReportType, fmt: ExportFormat, start: Instant, end: Instant, workerId: int, siteId: int)
    ensures ReceivedFilter(RequestExtras(t, fmt, start, end, workerId, siteId)) == RequestedFilter(t, fmt, start, end, workerId, siteId)
  {
    ExtrasReadBack(t, fmt, FormatDate(start.date, DayMonthYear), FormatDate(end.date, DayMonthYear), workerId, siteId);
  }

  /** The entries a spinner adapter shows: one name per record, in list order. */
  function SpinnerNames<T>(xs: seq<T>, name: T -> string): (r: seq<string>)
    ensures |r| == |xs| && forall i :: 0 <= i < |xs| ==> r[i] == name(xs[i])
  {
    seq(|xs|, i requires 0 <= i < |xs| => name(xs[i]))
  }

  /** The form's state: the two Calendars, the spinner choices and the lists the spinners show. */
  class ReportForm {
    var selectedStartDate: Instant
    var selectedEndDate: Instant
    var selectedWorkerId: int
    var selectedSiteId: int
    var workers: seq<Worker>
    var sites: seq<Site>

    /**
     * onViewCreated: the end is now; the start is a second clock reading moved
     * to the first of the month, keeping its time of day.
     */
    constructor (now: Instant, secondReading: Instant)
      ensures selectedEndDate == now
      ensures selectedStartDate == Moment(secondReading.date.(day := 1), secondReading.millis)
      ensures selectedWorkerId == NoSelection && selectedSiteId == NoSelection
      ensures workers == [] && sites == []
    {
      selectedEndDate := now;
      selectedStartDate := Moment(secondReading.date.(day := 1), secondReading.millis);
      selectedWorkerId, selectedSiteId := NoSelection, NoSelection;
      workers, sites := [], [];
    }

    /** The worker observer: keep the list, and show "All Workers" then every name. */
    method OnWorkersLoaded(list: seq<Worker>) returns (entries: seq<string>)
      modifies this
      ensures workers == list && entries == ["All Workers"] + SpinnerNames(list, Workers.WorkerName)
      ensures unchanged(this`selectedWorkerId) && unchanged(this`selectedSiteId) && sites == old(sites)
      ensures selectedStartDate == old(selectedStartDate) && selectedEndDate == old(selectedEndDate)
    {
      workers := list;
      entries := ["All Workers"] + SpinnerNames(list, Workers.WorkerName);
    }

    /** The site observer: keep the list, and show "All Sites" then every name. */
    method OnSitesLoaded(list: seq<Site>) returns (entries: seq<string>)
      modifies this
      ensures sites == list && entries == ["All Sites"] + SpinnerNames(list, Sites.SiteName)
      ensures unchanged(this`selectedWorkerId) && unchanged(this`selectedSiteId) && workers == old(workers)
      ensures selectedStartDate == old(selectedStartDate) && selectedEndDate == old(selectedEndDate)
    {
      sites := list;
      entries := ["All Sites"] + SpinnerNames(list, Sites.SiteName);
    }

    /** The worker spinner's onItemSelected: entry p > 0 is workers[p - 1]; entry 0 is "All Workers". */
    method OnWorkerSelected(position: int)
      requires 0 <= position <= |workers|
      modifies this`selectedWorkerId
      ensures position == 0 ==> selectedWorkerId == NoSelection
      ensures position > 0 ==> selectedWorkerId == workers[position - 1].id
    {
      if position > 0 && |workers| > 0 {
        selectedWorkerId := workers[position - 1].id;
      } else {
        selectedWorkerId := NoSelection;
      }
    }

    method OnWorkerNothingSelected()
      modifies this`selectedWorkerId
      ensures selectedWorkerId == NoSelection
    {
      selectedWorkerId := NoSelection;
    }

    /** The site spinner's onItemSelected: entry p > 0 is sites[p - 1]; entry 0 is "All Sites". */
    method OnSiteSelected(position: int)
      requires 0 <= position <= |sites|
      modifies this`selectedSiteId
      ensures position == 0 ==> selectedSiteId == NoSelection
      ensures position > 0 ==> selectedSiteId == sites[position - 1].siteId
    {
      if position > 0 && |sites| > 0 {
        selectedSiteId := sites[position - 1].siteId;
      } else {
        selectedSiteId := NoSelection;
      }
    }

    method OnSiteNothingSelected()
      modifies this`selectedSiteId
      ensures selectedSiteId == NoSelection
    {
      selectedSiteId := NoSelection;
    }

    /** The start picker: Calendar.set(year, month, day) moves the day and keeps the time of day. */
    method OnStartDatePicked(day: CivilDate)
      requires ValidDate(day)
      modifies this`selectedStartDate
      ensures selectedStartDate == Moment(day, old(selectedStartDate.millis))
    {
      selectedStartDate := Moment(day, selectedStartDate.millis);
    }

    /** The end picker, likewise. */
    method OnEndDatePicked(day: CivilDate)
      requires ValidDate(day)
      modifies this`selectedEndDate
      ensures selectedEndDate == Moment(day, old(selectedEndDate.millis))
    {
      selectedEndDate := Moment(day, selectedEndDate.millis);
    }

    /**
     * generateReport: an unrecognised radio choice means WORKER_LIST and PDF;
     * any other type is refused when its start day is after its end day;
     * otherwise the extras, read back, are the requested filter.
     */
    method GenerateReport(checkedType: Option<ReportType>, checkedFormat: Option<ExportFormat>)
      returns (r: Result<Extras, string>)
      ensures var t := checkedType.GetOr(WorkerList);
        r.Err? <==> t != WorkerList && DayAfter(selectedStartDate, selectedEndDate)
      ensures r.Err? ==> r.error == "Start date cannot be after end date"
      ensures r.Ok? ==> ReceivedFilter(r.value) == RequestedFilter(checkedType.GetOr(WorkerList),
        checkedFormat.GetOr(Pdf), selectedStartDate, selectedEndDate, selectedWorkerId, selectedSiteId)
    {
      var reportType := checkedType.GetOr(WorkerList);
      var exportFormat := checkedFormat.GetOr(Pdf);
      if reportType != WorkerList && DayAfter(selectedStartDate, selectedEndDate) {
        return Err("Start date cannot be after end date");
      }
      var extras := RequestExtras(reportType, exportFormat, selectedStartDate, selectedEndDate, selectedWorkerId, selectedSiteId);
      RequestRoundTrip(reportType, exportFormat, selectedStartDate, selectedEndDate, selectedWorkerId, selectedSiteId);
      r := Ok(extras);
    }
  }
}
