# Construction management: worker–site assignments, store queries, reports and forms

A Dafny model of the core of an Android app that a small construction business uses to keep
track of its workers, job sites, payments, cash advances and attendance. The app stores each
entity in a Room table, reads it through DAO queries and edits it through form screens. The
model covers five pieces:

- **Assignment lifecycle** (`assignments.dfy`). The `worker_site_assignments` table is a class
  over a sequence of rows. It has the DAO's REPLACE insert, its deactivate UPDATE and its
  queries. On top sit the repository's `assignWorkerToSite` and `insertWorkerSiteAssignments`.
  The headline invariant is that each worker has at most one active row. Both assign paths
  keep it. The raw insert and update do not, and two lemmas show that.
- **Store queries** (`advances.dfy`, `payments.dfy`, `attendance.dfy`, `sites.dfy`,
  `workers.dfy`, over `collections.dfy`). Each DAO is a table class with its WHERE filters,
  inclusive `BETWEEN` ranges, ORDER BY orderings stated as sortedness, `SUM` (null on no rows),
  `COUNT`, the settle-by-ids UPDATE and the workers-by-site join.
- **Report filters** (`reports.dfy`, `payment_report.dfy`, `report_request.dfy`).
  `ReportViewModel` filters each section by date range, worker and site, then computes totals,
  titles and the Excel row layout. `PaymentReportActivity` narrows a copy of the payments with
  `removeAll` passes. `ReportFragment` checks the chosen range, maps spinner positions to ids and
  sends the choices as intent extras.
- **Site editing** (`site_forms.dfy`, `site_reconcile.dfy`, `worker_selection.dfy`). The add-site
  and edit-site screens validate their fields and build the Site record. They keep a selection
  of workers and reconcile it with the site's current workers. Removals are compared by record
  equality and additions by id. `WorkerSelectionAdapter` keeps its item list.
- **Forms and view-models** (`forms.dfy`, `dropdowns.dfy`, `payment_forms.dfy`,
  `worker_forms.dfy`, `view_models.dfy`). These cover the required-field checks and the records
  the payment, advance and worker screens build. Dropdown entries are encoded as `"<id>: <name>"`
  and decoded back, and the round trip is proved. Also covered: the advance details screen, the
  advance view-model's settle action and navigation event, and the dashboard's lists.

Supporting modules:

- `text.dfy` models Kotlin's `trim`, `isBlank`, `lowercase`, `contains`, `substringBefore`,
  `Long.toString`, `toLong` and `toDouble`, and SQL string order and `LIKE`.
- `dates.dfy` models calendar dates and the two `SimpleDateFormat` patterns the app uses:
  `yyyy-MM-dd` for stored records and `dd/MM/yyyy` for report filters. A date is compared
  through its day number. Both patterns are proved to round-trip. For zero-padded dates,
  string order is proved to agree with calendar order.
- `entities.dfy` holds the records and the enum classes.
- `wrappers.dfy` holds Option and Result, which stand for Kotlin's nullable values and thrown
  exceptions.

Amounts are Kotlin `Double`s, modelled as `real`. Ids are Kotlin `Long`s, modelled as `int`,
with the 64-bit range checked where `toLong` parses them. Today's date is a parameter.

Where the code and the design description of the app disagree, the model follows the code:

- **Single active assignment.** The design says every assignment change keeps a worker at
  most one active row. The raw `insertAssignment` and `updateAssignment` can break it
  (`Assignments.RawInsertBreaksSingleActive`, `Assignments.RawUpdateBreaksSingleActive`).
- **Atomicity.** The design says deactivate-then-insert is one transaction. The repository
  issues two separate calls. In the model each call is one atomic step.
- **Bad record dates.** The design says a record date that does not parse drops only that
  record. That is true of `PaymentReportActivity`. In `ReportViewModel` it drops the whole
  section (see Findings).
- **Settlement direction.** The design says settlement goes one way. The advance details
  screen can set a recovered advance back to pending
  (`PaymentForms.DetailsCanUnsettle`).
- **Workers of a site.** The design describes them as a set. The join returns one worker per
  active assignment row.

## Model

| member | source | states |
|---|---|---|
| Text.TrimStart | app/src/main/java/com/constructionmanagement/app/ui/payment/AdvancePaymentActivity.kt:78 | the result is a suffix of the input; everything dropped is whitespace; the result does not start with whitespace |
| Text.TrimEnd | app/src/main/java/com/constructionmanagement/app/ui/payment/AdvancePaymentActivity.kt:78 | the result is a prefix of the input; everything dropped is whitespace; the result does not end with whitespace |
| Text.TrimEmptyIffBlank | app/src/main/java/com/constructionmanagement/app/ui/payment/AdvancePaymentActivity.kt:78 | `trim().isEmpty()` holds exactly when the text is blank (all whitespace) |
| Text.TrimUntouched | app/src/main/java/com/constructionmanagement/app/ui/payment/AdvancePaymentActivity.kt:78 | text with no whitespace at either end is unchanged by trim |
| Text.TrimIsTrimmed | app/src/main/java/com/constructionmanagement/app/ui/payment/AdvancePaymentActivity.kt:78 | trim's result is trimmed, and trimming is idempotent |
| Text.Lowercase | app/src/main/java/com/constructionmanagement/app/ui/site/AddSiteActivity.kt:196 | `lowercase()` keeps the length and lowers each character |
| Text.LowercaseIdempotent | app/src/main/java/com/constructionmanagement/app/ui/site/AddSiteActivity.kt:196-203 | lowering twice is lowering once |
| Text.ContainsAt | app/src/main/java/com/constructionmanagement/app/ui/site/AddSiteActivity.kt:202-203 | `contains` holds exactly when the query occurs at some index |
| Text.LikeIgnoresCase | app/src/main/java/com/constructionmanagement/app/data/db/dao/WorkerDao.kt:27-28 | SQL `LIKE '%q%'` ignores letter case on either side |
| Text.LikeBounds | app/src/main/java/com/constructionmanagement/app/data/db/dao/WorkerDao.kt:27-28 | the empty query matches everything; a query longer than the text matches nothing |
| Text.IndexOf | app/src/main/java/com/constructionmanagement/app/ui/payment/AdvancePaymentActivity.kt:95 | the first index of the separator, or none exactly when it is absent |
| Text.IndexOfSeparator | app/src/main/java/com/constructionmanagement/app/ui/payment/AdvancePaymentActivity.kt:95 | in `p + ':' + q` with no ':' in p the first ':' is at \|p\| |
| Text.SubstringBefore | app/src/main/java/com/constructionmanagement/app/ui/payment/AdvancePaymentActivity.kt:95 | `substringBefore(':')` is a prefix without ':', followed by ':' when one exists, the whole text otherwise |
| Text.SubstringBeforeSeparator | app/src/main/java/com/constructionmanagement/app/ui/payment/AdvancePaymentActivity.kt:95 | `substringBefore` of `p + ':' + q` is p when p has no ':' |
| Text.StrLtIrreflexive | app/src/main/java/com/constructionmanagement/app/data/db/dao/PaymentDao.kt:33-34 | SQL string order is irreflexive |
| Text.StrLtTransitive | app/src/main/java/com/constructionmanagement/app/data/db/dao/PaymentDao.kt:33-34 | SQL string order is transitive |
| Text.StrLtTotal | app/src/main/java/com/constructionmanagement/app/data/db/dao/PaymentDao.kt:33-34 | SQL string order is total and asymmetric |
| Text.StrLtConcat | app/src/main/java/com/constructionmanagement/app/data/db/dao/PaymentDao.kt:33-34 | on equal-length prefixes, string order is decided by the prefixes first, then the rest |
| Text.DigitsOrder | app/src/main/java/com/constructionmanagement/app/data/db/dao/PaymentDao.kt:33-34 | equal-length digit strings compare as strings exactly as their values compare |
| Text.NatToString | app/src/main/java/com/constructionmanagement/app/ui/report/ReportViewModel.kt:567 | decimal rendering: non-empty digits whose value is n, no leading zero |
| Text.LongToString | app/src/main/java/com/constructionmanagement/app/ui/report/ReportViewModel.kt:567 | `Long.toString`: an optional '-' then digits |
| Text.ParseLong | app/src/main/java/com/constructionmanagement/app/ui/payment/AdvancePaymentActivity.kt:95 | `toLong()` succeeds only with a value in the 64-bit range |
| Text.ParseLongToString | app/src/main/java/com/constructionmanagement/app/ui/payment/AdvancePaymentActivity.kt:48-95 | `toString().toLong()` gives back every 64-bit value |
| Text.ParseDecimal | app/src/main/java/com/constructionmanagement/app/ui/payment/AdvancePaymentActivity.kt:98 | `toDouble()` only succeeds on text holding a digit |
| Text.ParseDecimalOfNat | app/src/main/java/com/constructionmanagement/app/ui/payment/AdvancePaymentActivity.kt:98 | the decimal text of n parses back to n |
| Text.WholeDoubleToString | app/src/main/java/com/constructionmanagement/app/ui/payment/AdvanceDetailsActivity.kt:110 | `Double.toString` of a whole amount below ten million: its digits then ".0" |
| Text.ParseWithFraction | app/src/main/java/com/constructionmanagement/app/ui/payment/AdvanceDetailsActivity.kt:169-170 | digits, a point and digits parse to the whole part plus the fraction over its power of ten |
| Text.ParseWholeDouble | app/src/main/java/com/constructionmanagement/app/ui/payment/AdvanceDetailsActivity.kt:110-170 | the text shown for a whole amount parses back to that amount |
| Dates.NextDay | app/src/main/java/com/constructionmanagement/app/ui/payment/PaymentReportActivity.kt:219-222 | `add(DAY_OF_MONTH, 1)` gives a valid calendar date |
| Dates.NextDayNumber | app/src/main/java/com/constructionmanagement/app/ui/payment/PaymentReportActivity.kt:219-222 | the next day is exactly one day number later, across month and year ends |
| Dates.YearLength | app/src/main/java/com/constructionmanagement/app/ui/payment/PaymentReportActivity.kt:219-222 | a year has 366 days when leap, 365 otherwise |
| Dates.NextYear | app/src/main/java/com/constructionmanagement/app/ui/payment/PaymentReportActivity.kt:219-222 | the day count of the next year starts one year length later |
| Dates.DaysBeforeMonthGrows | app/src/main/java/com/constructionmanagement/app/ui/payment/PaymentReportActivity.kt:230 | days before a month grow with the month |
| Dates.DaysBeforeYearGrows | app/src/main/java/com/constructionmanagement/app/ui/payment/PaymentReportActivity.kt:230 | days before a year grow with the year |
| Dates.DayNumberMonotone | app/src/main/java/com/constructionmanagement/app/ui/payment/PaymentReportActivity.kt:230 | an earlier calendar date has a smaller day number |
| Dates.DayNumberOrder | app/src/main/java/com/constructionmanagement/app/ui/payment/PaymentReportActivity.kt:230 | `Date.before` on midnight dates is day-number order, both directions; equal dates have equal numbers |
| Dates.PadDigits | app/src/main/java/com/constructionmanagement/app/ui/payment/ProcessPaymentActivity.kt:127-128 | zero-padded digit fields hold the value and have the width when it fits |
| Dates.Split | app/src/main/java/com/constructionmanagement/app/ui/report/ReportViewModel.kt:730 | splitting on a separator gives at least one field, the whole text when it is absent |
| Dates.SplitFirst | app/src/main/java/com/constructionmanagement/app/ui/report/ReportViewModel.kt:730 | splitting `a + sep + rest` yields a then the fields of rest |
| Dates.SplitThree | app/src/main/java/com/constructionmanagement/app/ui/report/ReportViewModel.kt:730 | splitting three separator-free fields joined by the separator gives them back |
| Dates.ParseDate | app/src/main/java/com/constructionmanagement/app/ui/report/ReportViewModel.kt:730 | a successful parse yields a valid calendar date |
| Dates.ParseFormat | app/src/main/java/com/constructionmanagement/app/ui/payment/ProcessPaymentActivity.kt:127-128 | parsing a formatted date with the same pattern gives back the date, for yyyy-MM-dd and dd/MM/yyyy |
| Dates.FormatInjective | app/src/main/java/com/constructionmanagement/app/ui/payment/ProcessPaymentActivity.kt:127-128 | different dates format to different texts |
| Dates.DayMonthYearRejectsStored | app/src/main/java/com/constructionmanagement/app/ui/report/ReportViewModel.kt:730 | a date stored as yyyy-MM-dd never parses as dd/MM/yyyy |
| Dates.FieldsOrder | app/src/main/java/com/constructionmanagement/app/data/db/dao/PaymentDao.kt:33-34 | equal-width year/month/day fields compare as strings field by field |
| Dates.PaddedFieldOrder | app/src/main/java/com/constructionmanagement/app/data/db/dao/PaymentDao.kt:33-34 | equal-width zero-padded numbers compare as strings exactly as numbers |
| Dates.StoredTextOrder | app/src/main/java/com/constructionmanagement/app/data/db/dao/PaymentDao.kt:33-34 | for four-digit years, yyyy-MM-dd text order is calendar order (strict and non-strict) |
| Dates.BetweenIsDateRange | app/src/main/java/com/constructionmanagement/app/data/db/dao/PaymentDao.kt:33-34 | SQL `BETWEEN` on yyyy-MM-dd texts is the inclusive calendar range |
| Dates.DayMonthYearTextMisorders | app/src/main/java/com/constructionmanagement/app/ui/report/ReportViewModel.kt:730 | dd/MM/yyyy texts do not sort by date: 01/02/2024 sorts before 02/01/2024 |
| Collections.Filter | app/src/main/java/com/constructionmanagement/app/ui/report/ReportViewModel.kt:725-750 | `filter` keeps exactly the elements passing the test, none dropped when all pass, empty when none pass |
| Collections.FilterIsSubsequence | app/src/main/java/com/constructionmanagement/app/ui/report/ReportViewModel.kt:725-750 | `filter` keeps the survivors in their original order |
| Collections.FilterTwice | app/src/main/java/com/constructionmanagement/app/ui/payment/PaymentReportActivity.kt:253-294 | two successive `removeAll` passes equal one filter by both conditions |
| Collections.FilterAppend | app/src/main/java/com/constructionmanagement/app/ui/report/ReportViewModel.kt:725-750 | filtering distributes over concatenation |
| Collections.FilterMultiset | app/src/main/java/com/constructionmanagement/app/ui/report/ReportViewModel.kt:725-750 | filtering keeps each passing element as often as it occurs |
| Collections.TryFilter | app/src/main/java/com/constructionmanagement/app/ui/report/ReportViewModel.kt:724-750 | a filter whose test can throw: it throws exactly when some element's test throws (the first one's error); otherwise the ordered survivors |
| Collections.TryFilterTotal | app/src/main/java/com/constructionmanagement/app/ui/report/ReportViewModel.kt:724-750 | a test that never throws makes the throwing filter the plain filter |
| Collections.Count | app/src/main/java/com/constructionmanagement/app/data/db/dao/AttendanceDao.kt:37-38 | `COUNT` is at most the row count |
| Collections.CountPermutation | app/src/main/java/com/constructionmanagement/app/data/db/dao/AttendanceDao.kt:37-38 | `COUNT` ignores row order |
| Collections.SumAppend | app/src/main/java/com/constructionmanagement/app/ui/report/ReportViewModel.kt:309-322 | the sum of amounts distributes over concatenation |
| Collections.SqlSum | app/src/main/java/com/constructionmanagement/app/data/db/dao/AdvanceDao.kt:33-34 | SQL `SUM` is null exactly on no rows |
| Collections.SumPermutation | app/src/main/java/com/constructionmanagement/app/data/db/dao/AdvanceDao.kt:33-34 | `SUM` ignores row order |
| Collections.SumOfNonNegative | app/src/main/java/com/constructionmanagement/app/ui/payment/PaymentReportActivity.kt:311 | a total of non-negative amounts is non-negative |
| Collections.KeyOrderTotal | app/src/main/java/com/constructionmanagement/app/data/db/dao/PaymentDao.kt:21-22 | `ORDER BY` comparison is total |
| Collections.KeyOrderTransitive | app/src/main/java/com/constructionmanagement/app/data/db/dao/PaymentDao.kt:21-22 | `ORDER BY` comparison is transitive |
| Collections.InsertSorted | app/src/main/java/com/constructionmanagement/app/data/db/dao/PaymentDao.kt:21-22 | inserting into a sorted list keeps it sorted and adds exactly that row |
| Collections.SortBy | app/src/main/java/com/constructionmanagement/app/data/db/dao/PaymentDao.kt:21-22 | `ORDER BY`: the result is sorted and a permutation of the rows |
| Collections.FilterKeepsSorted | app/src/main/java/com/constructionmanagement/app/ui/dashboard/DashboardViewModel.kt:34-36 | filtering a sorted list keeps it sorted |
| Collections.Select | app/src/main/java/com/constructionmanagement/app/data/db/dao/PaymentDao.kt:24-25 | `SELECT ... WHERE ... ORDER BY`: sorted, and each row kept as often as stored exactly when it matches |
| Collections.SumOfSelect | app/src/main/java/com/constructionmanagement/app/data/db/dao/PaymentDao.kt:36-37 | `SUM` over the query's rows does not depend on its order |
| Collections.UniqueCons | app/src/main/java/com/constructionmanagement/app/data/db/dao/PaymentDao.kt:9-10 | adding a row with a new key keeps keys unique |
| Collections.FindById | app/src/main/java/com/constructionmanagement/app/data/db/dao/PaymentDao.kt:18-19 | `WHERE id = :k` gives a row with that key, or none exactly when no row has it |
| Collections.ReplaceById | app/src/main/java/com/constructionmanagement/app/data/db/dao/PaymentDao.kt:9-10 | REPLACE overwrites exactly the row with that key, in place |
| Collections.UpsertKeepsUnique | app/src/main/java/com/constructionmanagement/app/data/db/dao/PaymentDao.kt:9-10 | `OnConflictStrategy.REPLACE`: keys stay unique; the rows are the new row plus every old row with another key |
| Collections.UpdateById | app/src/main/java/com/constructionmanagement/app/data/db/dao/PaymentDao.kt:12-13 | `@Update` replaces the row with the key in place (ReplaceById), keeps the row count, and changes nothing when no row has the key |
| Collections.UpdateIdempotent | app/src/main/java/com/constructionmanagement/app/data/db/dao/PaymentDao.kt:12-13 | updating with the same row twice is updating once |
| Collections.UpdateWithStoredRow | app/src/main/java/com/constructionmanagement/app/data/db/dao/PaymentDao.kt:12-13 | updating with a row exactly as stored changes nothing |
| Collections.ReplaceKeepsIds | app/src/main/java/com/constructionmanagement/app/data/db/dao/PaymentDao.kt:9-10 | replacing keeps every row's key and key uniqueness |
| Collections.DeleteById | app/src/main/java/com/constructionmanagement/app/data/db/dao/PaymentDao.kt:15-16 | `@Delete` removes exactly the rows with that key and keeps the rest in order |
| Collections.SubsequenceMembers | app/src/main/java/com/constructionmanagement/app/ui/report/ReportViewModel.kt:725-750 | a subsequence's elements are elements of the list |
| Collections.SubsequenceKeepsUniqueIds | app/src/main/java/com/constructionmanagement/app/data/db/dao/WorkerDao.kt:30-35 | a subsequence of uniquely keyed rows is uniquely keyed |
| Collections.MapWhere | app/src/main/java/com/constructionmanagement/app/data/db/dao/AdvanceDao.kt:36-41 | `UPDATE ... WHERE`: rows meeting the condition are changed, the others are kept |
| Collections.MapWhereIdempotent | app/src/main/java/com/constructionmanagement/app/data/db/dao/AdvanceDao.kt:36-41 | an update whose change keeps the condition and is idempotent is idempotent as a statement |
| Collections.NextKeyAfter | app/src/main/java/com/constructionmanagement/app/data/db/dao/PaymentDao.kt:9-10 | the next autogenerated key is above every key used so far |
| Collections.UpsertKeepsValid | app/src/main/java/com/constructionmanagement/app/data/db/dao/PaymentDao.kt:9-10 | REPLACE keeps keys positive, unique and below the next autogenerated key |
| Collections.UpsertFresh | app/src/main/java/com/constructionmanagement/app/data/db/dao/PaymentDao.kt:9-10 | inserting with the next autogenerated key appends the row |
| Collections.UpdateKeepsValid | app/src/main/java/com/constructionmanagement/app/data/db/dao/PaymentDao.kt:12-13 | `@Update` keeps the key invariant |
| Collections.DeleteKeepsValid | app/src/main/java/com/constructionmanagement/app/data/db/dao/PaymentDao.kt:15-16 | `@Delete` keeps the key invariant |
| Collections.MapWhereKeepsValid | app/src/main/java/com/constructionmanagement/app/data/db/dao/AdvanceDao.kt:36-41 | an `UPDATE` that keeps keys keeps the key invariant |
| Entities.PaymentModeValueOf | app/src/main/java/com/constructionmanagement/app/data/model/Payment.kt:44-48 | `PaymentMode.valueOf` succeeds exactly on CASH, BANK_TRANSFER and OTHER |
| Entities.PaymentModeNames | app/src/main/java/com/constructionmanagement/app/data/model/Payment.kt:44-48 | `valueOf(s) == m` exactly when s is m's name |
| Entities.SiteStatusValueOf | app/src/main/java/com/constructionmanagement/app/data/model/Site.kt:20-24 | `SiteStatus.valueOf` succeeds exactly on ACTIVE, COMPLETED and ON_HOLD |
| Entities.SiteStatusNames | app/src/main/java/com/constructionmanagement/app/data/model/Site.kt:20-24 | `valueOf(s) == t` exactly when s is t's name |
| Dropdowns.EncodeItem | app/src/main/java/com/constructionmanagement/app/ui/payment/AdvancePaymentActivity.kt:48 | an `"<id>: <name>"` item starts with a digit or '-' |
| Dropdowns.DecodeItem | app/src/main/java/com/constructionmanagement/app/ui/payment/AdvancePaymentActivity.kt:94-95 | `substringBefore(":").trim().toLong()` yields a 64-bit id or fails |
| Dropdowns.DecodeEncode | app/src/main/java/com/constructionmanagement/app/ui/payment/AdvancePaymentActivity.kt:48-95 | decoding an encoded item gives back its id, whatever the name |
| Dropdowns.EncodeInjective | app/src/main/java/com/constructionmanagement/app/ui/payment/ProcessPaymentActivity.kt:49-63 | two items with the same text have the same id |
| Dropdowns.EncodedIsNotAllChoice | app/src/main/java/com/constructionmanagement/app/ui/payment/PaymentReportActivity.kt:253-275 | no encoded item is "All Workers" or "All Sites" |
| FormFields.TrimsToEmpty | app/src/main/java/com/constructionmanagement/app/ui/payment/AdvancePaymentActivity.kt:78 | the blank test is exactly `trim().isEmpty()` |
| FormFields.RequiredError | app/src/main/java/com/constructionmanagement/app/ui/site/EditSiteActivity.kt:132-137 | a field's error is set exactly when it is blank, with the given message; otherwise cleared |
| FormFields.StickyRequiredError | app/src/main/java/com/constructionmanagement/app/ui/payment/AdvancePaymentActivity.kt:77-87 | a blank field shows its message; a filled one keeps whatever error was shown |
| FormFields.BlankToNull | app/src/main/java/com/constructionmanagement/app/ui/payment/AdvancePaymentActivity.kt:112 | a blank field becomes null; otherwise its trimmed, non-empty text |
| FormFields.BlankToNullKeeps | app/src/main/java/com/constructionmanagement/app/ui/payment/AdvanceDetailsActivity.kt:81-126 | a stored trimmed non-empty value or null survives being shown and read back |
| Assignments.AtMostOneActiveRow | app/src/main/java/com/constructionmanagement/app/data/repository/WorkerSiteAssignmentRepository.kt:45-58 | under the single-active invariant a worker has at most one active row |
| Assignments.Deactivated | app/src/main/java/com/constructionmanagement/app/data/db/dao/WorkerSiteAssignmentDao.kt:30-35 | `deactivateCurrentAssignments`: exactly the worker's active rows become inactive with the end date; every other row, including earlier inactive ones with their end dates, is unchanged |
| Assignments.DeactivateIdempotent | app/src/main/java/com/constructionmanagement/app/data/db/dao/WorkerSiteAssignmentDao.kt:30-35 | a second deactivation, with any date, changes nothing |
| Assignments.DeactivateEffect | app/src/main/java/com/constructionmanagement/app/data/db/dao/WorkerSiteAssignmentDao.kt:30-35 | afterwards the worker has no active row, other workers' active rows and all their rows are unchanged, and the single-active invariant is kept |
| Assignments.DeactivateKeepsOthers | app/src/main/java/com/constructionmanagement/app/data/repository/WorkerSiteAssignmentRepository.kt:38-40 | other workers' active rows are unchanged |
| Assignments.AfterInsert | app/src/main/java/com/constructionmanagement/app/data/db/dao/WorkerSiteAssignmentDao.kt:9-10 | REPLACE insert: id 0 appends with a fresh id; an existing id overwrites that row in place |
| Assignments.AfterAssign | app/src/main/java/com/constructionmanagement/app/data/repository/WorkerSiteAssignmentRepository.kt:45-58 | assigning keeps the table's key invariant |
| Assignments.DeactivatedValid | app/src/main/java/com/constructionmanagement/app/data/db/dao/WorkerSiteAssignmentDao.kt:30-35 | deactivation keeps the key invariant |
| Assignments.AssignEffect | app/src/main/java/com/constructionmanagement/app/data/repository/WorkerSiteAssignmentRepository.kt:45-58 | after `assignWorkerToSite(w, s, d)` w's only active row is the new `{w, s, d, null, active}` with the next id; other workers' rows are unchanged; the table grows by one |
| Assignments.AssignKeepsSingleActive | app/src/main/java/com/constructionmanagement/app/data/repository/WorkerSiteAssignmentRepository.kt:45-58 | assigning preserves at most one active row per worker |
| Assignments.AppendActiveKeepsSingle | app/src/main/java/com/constructionmanagement/app/data/repository/WorkerSiteAssignmentRepository.kt:50-57 | appending an active row for a worker with none keeps the invariant |
| Assignments.ReassignIsNotNoOp | app/src/main/java/com/constructionmanagement/app/data/repository/WorkerSiteAssignmentRepository.kt:45-58 | re-assigning a worker to the site it is active on changes the table: the old row is closed with the date |
| Assignments.AfterBulkStep | app/src/main/java/com/constructionmanagement/app/data/repository/WorkerSiteAssignmentRepository.kt:63-72 | one bulk entry keeps the key invariant |
| Assignments.AfterBulk | app/src/main/java/com/constructionmanagement/app/data/repository/WorkerSiteAssignmentRepository.kt:63-72 | the bulk insert keeps the key invariant |
| Assignments.BulkStepKeepsSingleActive | app/src/main/java/com/constructionmanagement/app/data/repository/WorkerSiteAssignmentRepository.kt:63-72 | one bulk entry preserves the single-active invariant |
| Assignments.BulkKeepsSingleActive | app/src/main/java/com/constructionmanagement/app/data/repository/WorkerSiteAssignmentRepository.kt:63-72 | `insertWorkerSiteAssignments` preserves the single-active invariant |
| Assignments.LastEntryFor | app/src/main/java/com/constructionmanagement/app/data/repository/WorkerSiteAssignmentRepository.kt:63-72 | the last list entry for a worker, or none exactly when the list has none |
| Assignments.BulkStepEffect | app/src/main/java/com/constructionmanagement/app/data/repository/WorkerSiteAssignmentRepository.kt:63-72 | one entry leaves its worker with exactly that entry active under the next id, others unchanged |
| Assignments.BulkLaterEntryWins | app/src/main/java/com/constructionmanagement/app/data/repository/WorkerSiteAssignmentRepository.kt:63-72 | after the bulk insert a listed worker's single active row carries the site, date and end date of its last entry; an unlisted worker is untouched |
| Assignments.RawInsertBreaksSingleActive | app/src/main/java/com/constructionmanagement/app/data/repository/WorkerSiteAssignmentRepository.kt:26-28 | a raw insert of an active row for a worker who has one leaves two active rows |
| Assignments.RawUpdateBreaksSingleActive | app/src/main/java/com/constructionmanagement/app/data/repository/WorkerSiteAssignmentRepository.kt:30-32 | a raw update re-activating an old row leaves two active rows |
| Assignments.AssignmentsForWorker | app/src/main/java/com/constructionmanagement/app/data/db/dao/WorkerSiteAssignmentDao.kt:21-22 | the worker's rows exactly, as many as stored, newest first |
| Assignments.AssignmentsForSite | app/src/main/java/com/constructionmanagement/app/data/db/dao/WorkerSiteAssignmentDao.kt:24-25 | the site's rows exactly, as many as stored, newest first |
| Assignments.ActiveAssignmentForWorker | app/src/main/java/com/constructionmanagement/app/data/db/dao/WorkerSiteAssignmentDao.kt:27-28 | none exactly when the worker has no active row; otherwise one of the worker's active rows |
| Assignments.ActiveAssignmentIsTheOne | app/src/main/java/com/constructionmanagement/app/data/db/dao/WorkerSiteAssignmentDao.kt:27-28 | under the invariant the row found is the worker's only active row |
| Assignments.AssignmentById | app/src/main/java/com/constructionmanagement/app/data/db/dao/WorkerSiteAssignmentDao.kt:18-19 | a row with that id, or none when no row has it |
| Assignments.AssignmentDao.constructor | app/src/main/java/com/constructionmanagement/app/data/db/dao/WorkerSiteAssignmentDao.kt:7-8 | an empty table |
| Assignments.AssignmentDao.InsertAssignment | app/src/main/java/com/constructionmanagement/app/data/db/dao/WorkerSiteAssignmentDao.kt:9-10 | the table becomes the REPLACE insert of the row; the returned id is the key used |
| Assignments.AssignmentDao.UpdateAssignment | app/src/main/java/com/constructionmanagement/app/data/db/dao/WorkerSiteAssignmentDao.kt:12-13 | the row with the key is replaced |
| Assignments.AssignmentDao.DeleteAssignment | app/src/main/java/com/constructionmanagement/app/data/db/dao/WorkerSiteAssignmentDao.kt:15-16 | the row with the key is removed |
| Assignments.AssignmentDao.DeactivateCurrentAssignments | app/src/main/java/com/constructionmanagement/app/data/db/dao/WorkerSiteAssignmentDao.kt:30-35 | the table becomes `Deactivated` of the old rows |
| Assignments.AssignmentRepository.constructor | app/src/main/java/com/constructionmanagement/app/data/repository/WorkerSiteAssignmentRepository.kt:8 | the repository wraps the given table |
| Assignments.AssignmentRepository.InsertAssignment | app/src/main/java/com/constructionmanagement/app/data/repository/WorkerSiteAssignmentRepository.kt:26-28 | passes through to the REPLACE insert |
| Assignments.AssignmentRepository.UpdateAssignment | app/src/main/java/com/constructionmanagement/app/data/repository/WorkerSiteAssignmentRepository.kt:30-32 | passes through to the update |
| Assignments.AssignmentRepository.DeactivateCurrentAssignments | app/src/main/java/com/constructionmanagement/app/data/repository/WorkerSiteAssignmentRepository.kt:38-40 | passes through to the deactivate statement |
| Assignments.AssignmentRepository.AssignWorkerToSite | app/src/main/java/com/constructionmanagement/app/data/repository/WorkerSiteAssignmentRepository.kt:45-58 | deactivate then insert: the returned id is the new row's; w's only active row is `{id, w, s, d, null, active}`; the single-active invariant is kept |
| Assignments.AssignmentRepository.InsertWorkerSiteAssignments | app/src/main/java/com/constructionmanagement/app/data/repository/WorkerSiteAssignmentRepository.kt:63-72 | the entries are processed in list order, each one forced active; the single-active invariant is kept |
| Assignments.AssignKeepsSingleActiveWhenHeld | app/src/main/java/com/constructionmanagement/app/data/repository/WorkerSiteAssignmentRepository.kt:45-58 | whenever the table meets the invariant before assigning, it meets it after |
| Advances.AdvanceById | app/src/main/java/com/constructionmanagement/app/data/db/dao/AdvanceDao.kt:18-19 | a row with that id, or none exactly when no row has it |
| Advances.AllAdvances | app/src/main/java/com/constructionmanagement/app/data/db/dao/AdvanceDao.kt:21-22 | every row, newest first |
| Advances.AdvancesForWorker | app/src/main/java/com/constructionmanagement/app/data/db/dao/AdvanceDao.kt:24-25 | the worker's rows, as often as stored, newest first |
| Advances.UnsettledAdvances | app/src/main/java/com/constructionmanagement/app/data/db/dao/AdvanceDao.kt:27-28 | exactly the worker's rows not yet recovered, newest first |
| Advances.AdvancesByDateRange | app/src/main/java/com/constructionmanagement/app/data/db/dao/AdvanceDao.kt:30-31 | rows whose date text lies in the inclusive `BETWEEN` range, newest first |
| Advances.TotalUnsettled | app/src/main/java/com/constructionmanagement/app/data/db/dao/AdvanceDao.kt:33-34 | null exactly when the worker has no unrecovered advance |
| Advances.TotalIsSumOfUnsettled | app/src/main/java/com/constructionmanagement/app/data/db/dao/AdvanceDao.kt:33-34 | the unsettled total is SQL `SUM` of the amounts of the unsettled list |
| Advances.Settled | app/src/main/java/com/constructionmanagement/app/data/db/dao/AdvanceDao.kt:36-41 | `settleAdvances(ids)`: exactly the rows whose id is listed become recovered, all else unchanged |
| Advances.SettleIdempotent | app/src/main/java/com/constructionmanagement/app/data/db/dao/AdvanceDao.kt:36-41 | settling the same ids twice is settling once |
| Advances.SettleAllClearsTotal | app/src/main/java/com/constructionmanagement/app/data/db/dao/AdvanceDao.kt:33-41 | settling every unsettled id of a worker empties the list and nulls the total |
| Advances.SettleKeepsOtherWorkers | app/src/main/java/com/constructionmanagement/app/data/db/dao/AdvanceDao.kt:36-41 | settling one worker's advances leaves other workers' unsettled lists unchanged |
| Advances.AdvanceDao.constructor | app/src/main/java/com/constructionmanagement/app/data/db/dao/AdvanceDao.kt:7-8 | an empty table |
| Advances.AdvanceDao.InsertAdvance | app/src/main/java/com/constructionmanagement/app/data/db/dao/AdvanceDao.kt:9-10 | REPLACE insert: id 0 gets the next key, an existing id is overwritten; the key is returned |
| Advances.AdvanceDao.UpdateAdvance | app/src/main/java/com/constructionmanagement/app/data/db/dao/AdvanceDao.kt:12-13 | the row with the key is replaced |
| Advances.AdvanceDao.DeleteAdvance | app/src/main/java/com/constructionmanagement/app/data/db/dao/AdvanceDao.kt:15-16 | the row with the key is removed |
| Advances.AdvanceDao.SettleAdvances | app/src/main/java/com/constructionmanagement/app/data/db/dao/AdvanceDao.kt:36-41 | the table becomes `Settled` of the old rows |
| Attendances.AttendanceById | app/src/main/java/com/constructionmanagement/app/data/db/dao/AttendanceDao.kt:19-20 | a row with that id, or none exactly when no row has it |
| Attendances.AllAttendance | app/src/main/java/com/constructionmanagement/app/data/db/dao/AttendanceDao.kt:22-23 | every row, newest first |
| Attendances.AttendanceForWorker | app/src/main/java/com/constructionmanagement/app/data/db/dao/AttendanceDao.kt:25-26 | the worker's rows, as often as stored, newest first |
| Attendances.AttendanceForSite | app/src/main/java/com/constructionmanagement/app/data/db/dao/AttendanceDao.kt:28-29 | the site's rows, as often as stored, newest first |
| Attendances.AttendanceForDate | app/src/main/java/com/constructionmanagement/app/data/db/dao/AttendanceDao.kt:31-32 | exactly the rows whose date string equals the argument, in table order |
| Attendances.AttendanceForWorkerInRange | app/src/main/java/com/constructionmanagement/app/data/db/dao/AttendanceDao.kt:34-35 | the worker's rows whose date is in the inclusive range, newest first |
| Attendances.CountByStatus | app/src/main/java/com/constructionmanagement/app/data/db/dao/AttendanceDao.kt:37-38 | zero exactly when the worker has no row with that status in the range |
| Attendances.CountMatchesRangeList | app/src/main/java/com/constructionmanagement/app/data/db/dao/AttendanceDao.kt:34-38 | the status count equals the number of that status in the worker's range list |
| Attendances.StatusCountsPartitionRange | app/src/main/java/com/constructionmanagement/app/data/db/dao/AttendanceDao.kt:34-38 | the four status counts add up to the length of the range list |
| Attendances.StatusesPartition | app/src/main/java/com/constructionmanagement/app/data/model/Attendance.kt:40-45 | every attendance row has exactly one of the four statuses |
| Attendances.AttendanceDao.constructor | app/src/main/java/com/constructionmanagement/app/data/db/dao/AttendanceDao.kt:8-9 | an empty table |
| Attendances.AttendanceDao.InsertAttendance | app/src/main/java/com/constructionmanagement/app/data/db/dao/AttendanceDao.kt:10-11 | REPLACE insert with the key returned |
| Attendances.AttendanceDao.UpdateAttendance | app/src/main/java/com/constructionmanagement/app/data/db/dao/AttendanceDao.kt:13-14 | the row with the key is replaced |
| Attendances.AttendanceDao.DeleteAttendance | app/src/main/java/com/constructionmanagement/app/data/db/dao/AttendanceDao.kt:16-17 | the row with the key is removed |
| Payments.PaymentById | app/src/main/java/com/constructionmanagement/app/data/db/dao/PaymentDao.kt:18-19 | a row with that id, or none exactly when no row has it |
| Payments.AllPayments | app/src/main/java/com/constructionmanagement/app/data/db/dao/PaymentDao.kt:21-22 | every row, newest first |
| Payments.PaymentsForWorker | app/src/main/java/com/constructionmanagement/app/data/db/dao/PaymentDao.kt:24-25 | the worker's rows, as often as stored, newest first |
| Payments.PaymentsForSite | app/src/main/java/com/constructionmanagement/app/data/db/dao/PaymentDao.kt:27-28 | the site's rows, as often as stored, newest first |
| Payments.PaymentsForMonthYear | app/src/main/java/com/constructionmanagement/app/data/db/dao/PaymentDao.kt:30-31 | rows for that month and year, newest first |
| Payments.PaymentsByDateRange | app/src/main/java/com/constructionmanagement/app/data/db/dao/PaymentDao.kt:33-34 | rows whose date text lies in the inclusive range, newest first |
| Payments.TotalWhere | app/src/main/java/com/constructionmanagement/app/data/db/dao/PaymentDao.kt:36-43 | a `SUM` is null exactly when no row matches |
| Payments.TotalPaymentsForWorker | app/src/main/java/com/constructionmanagement/app/data/db/dao/PaymentDao.kt:36-37 | null exactly when the worker has no payment |
| Payments.TotalPaymentsForSite | app/src/main/java/com/constructionmanagement/app/data/db/dao/PaymentDao.kt:39-40 | null exactly when the site has no payment |
| Payments.TotalPaymentsForMonthYear | app/src/main/java/com/constructionmanagement/app/data/db/dao/PaymentDao.kt:42-43 | null exactly when that month has no payment |
| Payments.TotalsMatchLists | app/src/main/java/com/constructionmanagement/app/data/db/dao/PaymentDao.kt:24-43 | each total is `SUM` of the amounts of the matching list query |
| Payments.FreshPaymentAddsToTotal | app/src/main/java/com/constructionmanagement/app/data/db/dao/PaymentDao.kt:9-10 | a new payment adds its amount to its worker's total |
| Payments.PaymentDao.constructor | app/src/main/java/com/constructionmanagement/app/data/db/dao/PaymentDao.kt:7-8 | an empty table |
| Payments.PaymentDao.InsertPayment | app/src/main/java/com/constructionmanagement/app/data/db/dao/PaymentDao.kt:9-10 | REPLACE insert with the key returned |
| Payments.PaymentDao.UpdatePayment | app/src/main/java/com/constructionmanagement/app/data/db/dao/PaymentDao.kt:12-13 | the row with the key is replaced |
| Payments.PaymentDao.DeletePayment | app/src/main/java/com/constructionmanagement/app/data/db/dao/PaymentDao.kt:15-16 | the row with the key is removed |
| Sites.SiteById | app/src/main/java/com/constructionmanagement/app/data/db/dao/SiteDao.kt:19-20 | a row with that id, or none exactly when no row has it |
| Sites.AllSites | app/src/main/java/com/constructionmanagement/app/data/db/dao/SiteDao.kt:22-23 | every site, ordered by name ascending |
| Sites.SitesByStatus | app/src/main/java/com/constructionmanagement/app/data/db/dao/SiteDao.kt:25-26 | exactly the sites with that status, as often as stored, by name |
| Sites.SearchSites | app/src/main/java/com/constructionmanagement/app/data/db/dao/SiteDao.kt:28-29 | sites whose name, address or client name contains the query, in table order |
| Sites.EmptySearchKeepsAll | app/src/main/java/com/constructionmanagement/app/data/db/dao/SiteDao.kt:28-29 | an empty query returns every site |
| Sites.SitesByStartDateRange | app/src/main/java/com/constructionmanagement/app/data/db/dao/SiteDao.kt:31-32 | sites whose start date text is in the inclusive range |
| Sites.WorkerCountForSite | app/src/main/java/com/constructionmanagement/app/data/db/dao/SiteDao.kt:34-39 | zero exactly when the site has no active assignment row |
| Sites.SiteDao.constructor | app/src/main/java/com/constructionmanagement/app/data/db/dao/SiteDao.kt:8-9 | an empty table |
| Sites.SiteDao.InsertSite | app/src/main/java/com/constructionmanagement/app/data/db/dao/SiteDao.kt:10-11 | REPLACE insert with the key returned |
| Sites.SiteDao.UpdateSite | app/src/main/java/com/constructionmanagement/app/data/db/dao/SiteDao.kt:13-14 | the row with the key is replaced |
| Sites.SiteDao.DeleteSite | app/src/main/java/com/constructionmanagement/app/data/db/dao/SiteDao.kt:16-17 | the row with the key is removed |
| Workers.WorkerById | app/src/main/java/com/constructionmanagement/app/data/db/dao/WorkerDao.kt:18-19 | a row with that id, or none exactly when no row has it |
| Workers.AllWorkers | app/src/main/java/com/constructionmanagement/app/data/db/dao/WorkerDao.kt:21-22 | every worker, ordered by name |
| Workers.ActiveWorkers | app/src/main/java/com/constructionmanagement/app/data/db/dao/WorkerDao.kt:24-25 | exactly the active workers, as often as stored, by name |
| Workers.SearchWorkers | app/src/main/java/com/constructionmanagement/app/data/db/dao/WorkerDao.kt:27-28 | workers whose name or phone number contains the query, in table order |
| Workers.JoinedWorkers | app/src/main/java/com/constructionmanagement/app/data/db/dao/WorkerDao.kt:30-35 | the join partners of one assignment: the workers with its worker id |
| Workers.JoinAll | app/src/main/java/com/constructionmanagement/app/data/db/dao/WorkerDao.kt:30-35 | the join: workers having an id among the assignments |
| Workers.WorkersBySite | app/src/main/java/com/constructionmanagement/app/data/db/dao/WorkerDao.kt:30-35 | workers with an active assignment row to the site |
| Workers.JoinOne | app/src/main/java/com/constructionmanagement/app/data/db/dao/WorkerDao.kt:30-35 | with unique worker ids an assignment joins at most one worker, exactly one when its worker exists |
| Workers.JoinAllLength | app/src/main/java/com/constructionmanagement/app/data/db/dao/WorkerDao.kt:30-35 | one joined worker per assignment row when every row's worker exists |
| Workers.ActiveAtSiteDistinct | app/src/main/java/com/constructionmanagement/app/data/db/dao/WorkerDao.kt:30-35 | under the single-active invariant a site's active rows name distinct workers |
| Workers.JoinAllUnique | app/src/main/java/com/constructionmanagement/app/data/db/dao/WorkerDao.kt:30-35 | joining distinct workers' rows gives uniquely keyed workers |
| Workers.WorkersBySiteMatchesCount | app/src/main/java/com/constructionmanagement/app/data/db/dao/WorkerDao.kt:30-35 | under the single-active invariant the site's workers are distinct and, when every row's worker exists, as many as `getWorkerCountForSite` |
| Workers.WorkerDao.constructor | app/src/main/java/com/constructionmanagement/app/data/db/dao/WorkerDao.kt:7-8 | an empty table |
| Workers.WorkerDao.InsertWorker | app/src/main/java/com/constructionmanagement/app/data/db/dao/WorkerDao.kt:9-10 | REPLACE insert with the key returned |
| Workers.WorkerDao.UpdateWorker | app/src/main/java/com/constructionmanagement/app/data/db/dao/WorkerDao.kt:12-13 | the row with the key is replaced |
| Workers.WorkerDao.DeleteWorker | app/src/main/java/com/constructionmanagement/app/data/db/dao/WorkerDao.kt:15-16 | the row with the key is removed |
| Reports.ReportTitle | app/src/main/java/com/constructionmanagement/app/ui/report/ReportViewModel.kt:242-250 | every title ends in " Report" |
| Reports.ReportTitleInjective | app/src/main/java/com/constructionmanagement/app/ui/report/ReportViewModel.kt:242-250 | different report types have different titles |
| Reports.DateWithin | app/src/main/java/com/constructionmanagement/app/ui/report/ReportViewModel.kt:729-736 | as written: throws exactly when the record date or a bound fails to parse as dd/MM/yyyy; otherwise tells whether start <= date <= end |
| Reports.FilterRecords | app/src/main/java/com/constructionmanagement/app/ui/report/ReportViewModel.kt:724-804 | as written: a missing list gives []; the filter throws exactly when a range is set, the list is non-empty and some record's date or a bound fails dd/MM/yyyy; otherwise the survivors, in order, are exactly the records within the inclusive range with matching worker and site |
| Reports.NoRangeNeverFails | app/src/main/java/com/constructionmanagement/app/ui/report/ReportViewModel.kt:729 | without both bounds the filter never throws and is the plain id filter |
| Reports.AdvancesIgnoreSite | app/src/main/java/com/constructionmanagement/app/ui/report/ReportViewModel.kt:753-775 | the advance filter does not depend on the site id |
| Reports.StoredDateAbortsFilter | app/src/main/java/com/constructionmanagement/app/ui/report/ReportViewModel.kt:730 | as written: with a range set, one record stored as yyyy-MM-dd makes the whole filter throw |
| Reports.StoredDateWithin | app/src/main/java/com/constructionmanagement/app/ui/report/ReportViewModel.kt:729-736 | corrected: record dates read as yyyy-MM-dd; fails only on an unparseable bound |
| Reports.FilterStoredRecords | app/src/main/java/com/constructionmanagement/app/ui/report/ReportViewModel.kt:724-804 | corrected: fails only when a bound is unparseable on a non-empty list; otherwise the ordered survivors are exactly the records within the range with matching ids |
| Reports.StoredFilterKeepsRange | app/src/main/java/com/constructionmanagement/app/ui/report/ReportViewModel.kt:724-750 | corrected: a stored record survives exactly when its ids match and its day lies in the inclusive range |
| Reports.TotalAmount | app/src/main/java/com/constructionmanagement/app/ui/report/ReportViewModel.kt:309-322 | the running total equals the sum of the amounts |
| Reports.SectionOf | app/src/main/java/com/constructionmanagement/app/ui/report/ReportViewModel.kt:290-335 | a throwing filter drops the section with its error; otherwise the section lists the records with their count and total |
| Reports.FilteredSites | app/src/main/java/com/constructionmanagement/app/ui/report/ReportViewModel.kt:387-391 | all sites with no site id (none when unloaded); otherwise exactly the sites with that id, in order |
| Reports.SheetRows | app/src/main/java/com/constructionmanagement/app/ui/report/ReportViewModel.kt:552-582 | header on row 0, record i on row i+1, row size+1 empty, the total row on size+2 exactly when there is one |
| Reports.TableRows | app/src/main/java/com/constructionmanagement/app/ui/report/ReportViewModel.kt:506-530 | header on row 0, record i on row i+1, nothing else |
| Reports.WorkerNameOr | app/src/main/java/com/constructionmanagement/app/ui/report/ReportViewModel.kt:564 | the name of a worker with that id, or "Unknown" when none is loaded |
| Reports.SiteNameOr | app/src/main/java/com/constructionmanagement/app/ui/report/ReportViewModel.kt:565 | the name of a site with that id, or "Unknown" when none is loaded |
| Reports.PaymentCells | app/src/main/java/com/constructionmanagement/app/ui/report/ReportViewModel.kt:567-572 | one cell per header column; the id as decimal text, the date as stored, the mode's name |
| Reports.PaymentBody | app/src/main/java/com/constructionmanagement/app/ui/report/ReportViewModel.kt:561-575 | one row of cells per filtered payment, in order |
| Reports.PaymentSheet | app/src/main/java/com/constructionmanagement/app/ui/report/ReportViewModel.kt:543-590 | a throwing filter leaves the sheet empty; otherwise the rows of the payments, row size+1 empty and "Total" with the sum on row size+2 (cells 1-3 of that row, never created in the source, read as "") |
| Reports.ReportViewModel.constructor | app/src/main/java/com/constructionmanagement/app/ui/report/ReportViewModel.kt:51-70 | nothing generated, no uri, not loading, no error |
| Reports.ReportViewModel.GenerateReport | app/src/main/java/com/constructionmanagement/app/ui/report/ReportViewModel.kt:78-94 | loading ends; a written file sets the uri and the generated flag and clears the error; a failure sets the error and no uri |
| PaymentReport.DateRange | app/src/main/java/com/constructionmanagement/app/ui/payment/PaymentReportActivity.kt:211-217 | both bounds parse as yyyy-MM-dd, or no range |
| PaymentReport.Selected | app/src/main/java/com/constructionmanagement/app/ui/payment/PaymentReportActivity.kt:253-277 | the "All ..." entry means no filter; otherwise the decoded id |
| PaymentReport.Notices | app/src/main/java/com/constructionmanagement/app/ui/payment/PaymentReportActivity.kt:242-292 | one notice per failed filter stage, exactly |
| PaymentReport.DatePass | app/src/main/java/com/constructionmanagement/app/ui/payment/PaymentReportActivity.kt:211-250 | the date pass keeps the inclusive range when both bounds parse, everything otherwise |
| PaymentReport.WorkerPass | app/src/main/java/com/constructionmanagement/app/ui/payment/PaymentReportActivity.kt:253-272 | the worker pass on the date survivors is the combined filter |
| PaymentReport.SitePass | app/src/main/java/com/constructionmanagement/app/ui/payment/PaymentReportActivity.kt:275-294 | the site pass on the worker survivors is the combined filter |
| PaymentReport.FilterPayments | app/src/main/java/com/constructionmanagement/app/ui/payment/PaymentReportActivity.kt:199-294 | the in-place `removeAll` passes leave exactly the ordered payments wanted by date, worker and site; each failed stage is skipped and noticed |
| PaymentReport.GenerateReport | app/src/main/java/com/constructionmanagement/app/ui/payment/PaymentReportActivity.kt:158-335 | blank dates or selections are refused with their message, exactly in those cases; otherwise the report is always shown, listing an ordered subsequence of all payments, the filtered ones, with the sum of their amounts and exactly one notice per failed date, worker or site stage |
| PaymentReport.StoredDateInRange | app/src/main/java/com/constructionmanagement/app/ui/payment/PaymentReportActivity.kt:226-238 | a stored date is kept exactly when its day lies in [start, end] |
| PaymentReport.ChosenEntryFilters | app/src/main/java/com/constructionmanagement/app/ui/payment/PaymentReportActivity.kt:253-277 | choosing an encoded entry filters by its id |
| PaymentReport.AllEntriesKeepRange | app/src/main/java/com/constructionmanagement/app/ui/payment/PaymentReportActivity.kt:199-239 | with "All" entries a payment survives exactly when its day is in the range |
| ReportRequest.InstantAfterIsOrder | app/src/main/java/com/constructionmanagement/app/ui/report/ReportFragment.kt:213 | `Calendar.after` is a strict total order on instants |
| ReportRequest.InstantCheckRefusesSameDay | app/src/main/java/com/constructionmanagement/app/ui/report/ReportFragment.kt:213 | the instant check refuses whatever the day check refuses, plus same-day ranges with a later start time |
| ReportRequest.SameDayRangeRefused | app/src/main/java/com/constructionmanagement/app/ui/report/ReportFragment.kt:212-221 | as written: a one-day range read one millisecond apart is refused |
| ReportRequest.DefaultRangeOnFirstRefused | app/src/main/java/com/constructionmanagement/app/ui/report/ReportFragment.kt:73-78 | as written: on the first of a month the default one-day range is refused |
| ReportRequest.DefaultRangeAcrossMidnightRefused | app/src/main/java/com/constructionmanagement/app/ui/report/ReportFragment.kt:72-78 | when the two clock readings straddle midnight at a month's end, the default start is the first of the next month and comes after the end by day as well as by instant |
| ReportRequest.DayCheckIgnoresTime | app/src/main/java/com/constructionmanagement/app/ui/report/ReportFragment.kt:212-221 | corrected: the day check refuses exactly start day after end day |
| ReportRequest.ExtraKeysDistinct | app/src/main/java/com/constructionmanagement/app/ui/report/ReportFragment.kt:224-250 | the six extra keys are different |
| ReportRequest.IdExtra | app/src/main/java/com/constructionmanagement/app/ui/report/ReportFragment.kt:238-249 | an id read back is never the -1 "all" value |
| ReportRequest.RequestedFilter | app/src/main/java/com/constructionmanagement/app/ui/report/ReportFragment.kt:224-250 | dates only for non-WORKER_LIST types (parsing back to the chosen days); the worker id only for payment, advance and attendance reports and only when not -1; the site id likewise for payment, site and attendance reports |
| ReportRequest.RequestedBoundsParse | app/src/main/java/com/constructionmanagement/app/ui/report/ReportFragment.kt:229-232 | the sent bounds always parse; a record date then fails only if it fails dd/MM/yyyy itself |
| ReportRequest.ExtrasReadBack | app/src/main/java/com/constructionmanagement/app/ui/report/ReportFragment.kt:224-250 | each extra reads back as what was put |
| ReportRequest.RequestRoundTrip | app/src/main/java/com/constructionmanagement/app/ui/report/ReportFragment.kt:224-250 | the filter read from the extras is the requested filter |
| ReportRequest.SpinnerNames | app/src/main/java/com/constructionmanagement/app/ui/report/ReportFragment.kt:261-279 | one spinner name per record (worker or site), in order |
| ReportRequest.ReportForm.constructor | app/src/main/java/com/constructionmanagement/app/ui/report/ReportFragment.kt:72-80 | end is the first clock reading; start is the first of the second reading's month at its time of day, whichever day that reading falls on; nothing selected |
| ReportRequest.ReportForm.OnWorkersLoaded | app/src/main/java/com/constructionmanagement/app/ui/report/ReportFragment.kt:257-271 | keeps the list and shows "All Workers" then the names |
| ReportRequest.ReportForm.OnSitesLoaded | app/src/main/java/com/constructionmanagement/app/ui/report/ReportFragment.kt:274-288 | keeps the list and shows "All Sites" then the names |
| ReportRequest.ReportForm.OnWorkerSelected | app/src/main/java/com/constructionmanagement/app/ui/report/ReportFragment.kt:125-131 | position p > 0 selects `workers[p-1].id`, position 0 means all |
| ReportRequest.ReportForm.OnWorkerNothingSelected | app/src/main/java/com/constructionmanagement/app/ui/report/ReportFragment.kt:133-135 | nothing selected means all |
| ReportRequest.ReportForm.OnSiteSelected | app/src/main/java/com/constructionmanagement/app/ui/report/ReportFragment.kt:140-146 | position p > 0 selects `sites[p-1].siteId`, position 0 means all |
| ReportRequest.ReportForm.OnSiteNothingSelected | app/src/main/java/com/constructionmanagement/app/ui/report/ReportFragment.kt:148-150 | nothing selected means all |
| ReportRequest.ReportForm.OnStartDatePicked | app/src/main/java/com/constructionmanagement/app/ui/report/ReportFragment.kt:85-89 | the day changes and the time of day is kept |
| ReportRequest.ReportForm.OnEndDatePicked | app/src/main/java/com/constructionmanagement/app/ui/report/ReportFragment.kt:93-97 | the day changes and the time of day is kept |
| ReportRequest.ReportForm.GenerateReport | app/src/main/java/com/constructionmanagement/app/ui/report/ReportFragment.kt:193-254 | corrected: no checked type means WORKER_LIST and no checked format PDF; other types are refused exactly when the start day is after the end day; otherwise the extras read back as the requested filter |
| WorkerSelection.RemoveFirst | app/src/main/java/com/constructionmanagement/app/ui/site/EditSiteActivity.kt:224 | `remove(worker)`: drops one occurrence when present, nothing otherwise; keeps a duplicate-free list duplicate-free |
| WorkerSelection.Toggled | app/src/main/java/com/constructionmanagement/app/ui/site/EditSiteActivity.kt:218-226 | checking adds only if absent, unchecking removes; a duplicate-free selection stays so and holds the worker exactly when checked |
| WorkerSelection.SelectedWorkers.constructor | app/src/main/java/com/constructionmanagement/app/ui/site/EditSiteActivity.kt:37 | starts empty |
| WorkerSelection.SelectedWorkers.OnWorkerChecked | app/src/main/java/com/constructionmanagement/app/ui/site/AddSiteActivity.kt:165-173 | the selection becomes `Toggled` of the old one |
| WorkerSelection.SelectedWorkers.OnRemoveClicked | app/src/main/java/com/constructionmanagement/app/ui/site/EditSiteActivity.kt:160-164 | the selection loses the worker |
| WorkerSelection.SelectedWorkers.Load | app/src/main/java/com/constructionmanagement/app/ui/site/EditSiteActivity.kt:94-98 | the selection is replaced by the site's workers |
| WorkerSelection.SearchResults | app/src/main/java/com/constructionmanagement/app/ui/site/AddSiteActivity.kt:196-205 | a subsequence of the workers; a blank query keeps all, otherwise exactly those whose lowercase name or role contains it |
| WorkerSelection.SubsequenceReflexive | app/src/main/java/com/constructionmanagement/app/ui/site/AddSiteActivity.kt:198-199 | a list is a subsequence of itself |
| WorkerSelection.LowercaseKeepsBlank | app/src/main/java/com/constructionmanagement/app/ui/site/AddSiteActivity.kt:196-198 | lowering does not change blankness |
| WorkerSelection.NewItem | app/src/main/java/com/constructionmanagement/app/ui/site/WorkerSelectionAdapter.kt:82-85 | a new item holds the worker and is not selected |
| WorkerSelection.ItemsFor | app/src/main/java/com/constructionmanagement/app/ui/site/AddSiteActivity.kt:181-188 | one item per worker, selected exactly when the worker is in the selection |
| WorkerSelection.SelectedOf | app/src/main/java/com/constructionmanagement/app/ui/site/WorkerSelectionAdapter.kt:34-36 | `getSelectedWorkers`: exactly the workers of the selected items, in item order and with their multiplicity (`filter { it.isSelected }.map { it.worker }`) |
| WorkerSelection.SelectedOfItems | app/src/main/java/com/constructionmanagement/app/ui/site/WorkerSelectionAdapter.kt:34-36 | the selected workers of the dialog's items are the list's workers in the selection, in list order |
| WorkerSelection.IndexOfWorker | app/src/main/java/com/constructionmanagement/app/ui/site/WorkerSelectionAdapter.kt:40 | `indexOfFirst`: the first item with that worker id, or none exactly when no item has it |
| WorkerSelection.WithSelection | app/src/main/java/com/constructionmanagement/app/ui/site/WorkerSelectionAdapter.kt:38-45 | only the first matching item's flag changes; length and every other item are kept; no match changes nothing |
| WorkerSelection.UpdateSelectionEffect | app/src/main/java/com/constructionmanagement/app/ui/site/WorkerSelectionAdapter.kt:38-45 | with unique ids, the updated worker is selected exactly as asked and every other worker's selection is unchanged |
| WorkerSelection.WorkerSelectionAdapter.constructor | app/src/main/java/com/constructionmanagement/app/ui/site/WorkerSelectionAdapter.kt:17-21 | starts with an empty list |
| WorkerSelection.WorkerSelectionAdapter.SubmitList | app/src/main/java/com/constructionmanagement/app/ui/site/WorkerSelectionAdapter.kt:43 | the current list becomes the items |
| WorkerSelection.WorkerSelectionAdapter.GetSelectedWorkers | app/src/main/java/com/constructionmanagement/app/ui/site/WorkerSelectionAdapter.kt:34-36 | returns `SelectedOf` of the current list |
| WorkerSelection.WorkerSelectionAdapter.UpdateSelection | app/src/main/java/com/constructionmanagement/app/ui/site/WorkerSelectionAdapter.kt:38-45 | the current list becomes `WithSelection` of the old one |
| SiteReconciliation.WorkersToRemove | app/src/main/java/com/constructionmanagement/app/ui/site/EditSiteActivity.kt:337 | exactly the current workers not in the selection (whole-record equality), in order |
| SiteReconciliation.WorkersToAdd | app/src/main/java/com/constructionmanagement/app/ui/site/EditSiteActivity.kt:340-342 | exactly the selected workers whose id is not a current worker's, in order |
| SiteReconciliation.DiffReconciles | app/src/main/java/com/constructionmanagement/app/ui/site/EditSiteActivity.kt:335-342 | with consistent ids, keeping current minus removed plus added gives exactly the selection, and no worker is both removed and added |
| SiteReconciliation.StaleRecordDropsWorker | app/src/main/java/com/constructionmanagement/app/ui/site/EditSiteActivity.kt:337-342 | a selected worker whose record differs from the current one is removed and not re-added |
| SiteReconciliation.CloseActive | app/src/main/java/com/constructionmanagement/app/ui/site/EditSiteActivity.kt:346-349 | the removal step keeps the key invariant |
| SiteReconciliation.CloseActiveIsDeactivate | app/src/main/java/com/constructionmanagement/app/ui/site/EditSiteActivity.kt:346-349 | under the single-active invariant closing the loaded assignment is the deactivate statement |
| SiteReconciliation.AfterRemovals | app/src/main/java/com/constructionmanagement/app/ui/site/EditSiteActivity.kt:345-350 | the removal loop keeps the key invariant |
| SiteReconciliation.AfterAdds | app/src/main/java/com/constructionmanagement/app/ui/site/EditSiteActivity.kt:353-355 | the add loop keeps the key invariant |
| SiteReconciliation.Reconciled | app/src/main/java/com/constructionmanagement/app/ui/site/EditSiteActivity.kt:335-356 | the diff and both loops keep the key invariant |
| SiteReconciliation.EditedTable | app/src/main/java/com/constructionmanagement/app/ui/site/EditSiteActivity.kt:329-357 | with or without a loaded current list, the key invariant is kept |
| SiteReconciliation.RemovalsEffect | app/src/main/java/com/constructionmanagement/app/ui/site/EditSiteActivity.kt:345-350 | removed workers end with no active row, unmentioned workers are untouched, the invariant is kept |
| SiteReconciliation.AddsEffect | app/src/main/java/com/constructionmanagement/app/ui/site/EditSiteActivity.kt:353-355 | each added worker ends with one active row at the site from today; unmentioned workers are untouched |
| SiteReconciliation.AddsKeepSingleActive | app/src/main/java/com/constructionmanagement/app/ui/site/EditSiteActivity.kt:353-355 | the add loop keeps the single-active invariant |
| SiteReconciliation.ReconcileEffect | app/src/main/java/com/constructionmanagement/app/ui/site/EditSiteActivity.kt:335-356 | after reconciling, added workers are active only at the site, removed ones nowhere, others untouched; the invariant is kept |
| SiteReconciliation.RemoveWorkers | app/src/main/java/com/constructionmanagement/app/ui/site/EditSiteActivity.kt:345-350 | the loop's table is `AfterRemovals` |
| SiteReconciliation.AddWorkers | app/src/main/java/com/constructionmanagement/app/ui/site/EditSiteActivity.kt:353-355 | the loop's table is `AfterAdds` |
| SiteReconciliation.UpdateWorkerAssignments | app/src/main/java/com/constructionmanagement/app/ui/site/EditSiteActivity.kt:329-357 | as written: the table becomes `EditedTable` of the observed current list |
| SiteReconciliation.UnobservedValue | app/src/main/java/com/constructionmanagement/app/ui/site/EditSiteActivity.kt:335 | as written: the value of a freshly created, unobserved LiveData is null |
| SiteReconciliation.EditAsWrittenChangesNothing | app/src/main/java/com/constructionmanagement/app/ui/site/EditSiteActivity.kt:335 | as written: with that null value no assignment changes at all |
| SiteReconciliation.DeselectedWorkerStaysActive | app/src/main/java/com/constructionmanagement/app/ui/site/EditSiteActivity.kt:335-350 | as written: a deselected worker stays active, while reconciling the loaded list would close the row |
| SiteReconciliation.ReconcileLoaded | app/src/main/java/com/constructionmanagement/app/ui/site/EditSiteActivity.kt:329-357 | corrected: reconciling the loaded list keeps the invariant, activates new workers at the site and closes dropped ones |
| SiteForms.ValidateEditInputs | app/src/main/java/com/constructionmanagement/app/ui/site/EditSiteActivity.kt:128-156 | an error exactly on each blank of name, address and client name, with its message; valid exactly when none is blank |
| SiteForms.ValidateAddInputs | app/src/main/java/com/constructionmanagement/app/ui/site/AddSiteActivity.kt:233-269 | the same for name, address, client name and status; valid exactly when none is blank |
| SiteForms.EditedSite | app/src/main/java/com/constructionmanagement/app/ui/site/EditSiteActivity.kt:286-316 | keeps id and start date, takes the status, trims the texts; a blank end date or blank notes become null, and filled ones are stored trimmed |
| SiteForms.ReopenAndSaveKeepsSite | app/src/main/java/com/constructionmanagement/app/ui/site/EditSiteActivity.kt:113-126 | saving a stored site's own fields gives it back |
| SiteForms.EditSaveIdempotent | app/src/main/java/com/constructionmanagement/app/ui/site/EditSiteActivity.kt:286-316 | editing and re-saving unchanged gives the same site |
| SiteForms.StatusOrActive | app/src/main/java/com/constructionmanagement/app/ui/site/AddSiteActivity.kt:290-295 | a status name gives that status, anything else ACTIVE |
| SiteForms.NewSite | app/src/main/java/com/constructionmanagement/app/ui/site/AddSiteActivity.kt:271-308 | id 0, start date today, the parsed or default status, trimmed texts; a blank end date or blank notes become null, and filled ones are stored trimmed |
| SiteForms.PaddedStatusBecomesActive | app/src/main/java/com/constructionmanagement/app/ui/site/AddSiteActivity.kt:261-295 | a status with a leading space passes validation yet is saved as ACTIVE |
| SiteForms.BuildAssignments | app/src/main/java/com/constructionmanagement/app/ui/site/AddSiteActivity.kt:314-320 | one active assignment per selected worker at the new site, dated the start date |
| SiteForms.NewSiteAssignmentsEffect | app/src/main/java/com/constructionmanagement/app/ui/site/AddSiteActivity.kt:311-324 | every selected worker ends active only at the new site; others untouched |
| SiteForms.SaveSite | app/src/main/java/com/constructionmanagement/app/ui/site/AddSiteActivity.kt:271-329 | the site is appended with its generated id; no assignment insert for an empty selection, the bulk insert otherwise; selected workers end active there; the invariant is kept |
| SiteForms.OnAddSaveClicked | app/src/main/java/com/constructionmanagement/app/ui/site/AddSiteActivity.kt:75-80 | saves exactly when the form is valid; an invalid form changes nothing |
| SiteForms.UpdateSite | app/src/main/java/com/constructionmanagement/app/ui/site/EditSiteActivity.kt:286-327 | with no loaded site nothing changes; otherwise the site is updated and the assignment table becomes `EditedTable` |
| SiteForms.OnEditSaveClicked | app/src/main/java/com/constructionmanagement/app/ui/site/EditSiteActivity.kt:106-110 | valid exactly when name, address and client name are non-blank; a valid form with a loaded site updates that site to the edited record and reconciles its assignments; an invalid form, or no loaded site, changes nothing |
| PaymentForms.ValidateAmountAnd | app/src/main/java/com/constructionmanagement/app/ui/payment/AdvancePaymentActivity.kt:74-90 | valid exactly when amount and the second field are non-blank; a blank field shows its message, a filled one keeps its old error |
| PaymentForms.ValidateAdvanceDetails | app/src/main/java/com/constructionmanagement/app/ui/payment/AdvanceDetailsActivity.kt:144-164 | valid exactly when amount and reason are non-blank; each error is set exactly on a blank field |
| PaymentForms.NewAdvance | app/src/main/java/com/constructionmanagement/app/ui/payment/AdvancePaymentActivity.kt:92-124 | errors for an undecodable worker, amount or mode, in that order; saved exactly when all three convert, with id 0, not recovered, today's yyyy-MM-dd date, the decoded values, trimmed reason, a blank reference as null and a filled one trimmed |
| PaymentForms.ChosenFieldsConvert | app/src/main/java/com/constructionmanagement/app/ui/payment/AdvancePaymentActivity.kt:94-105 | a chosen entry, a decimal amount and a mode name convert back |
| PaymentForms.ChosenAdvanceSaved | app/src/main/java/com/constructionmanagement/app/ui/payment/AdvancePaymentActivity.kt:92-124 | a form filled from the dropdowns saves with that worker, amount, mode, and a date that parses to today |
| PaymentForms.NoWorkerNoAdvance | app/src/main/java/com/constructionmanagement/app/ui/payment/AdvancePaymentActivity.kt:94-95 | with no worker chosen the save fails on the worker id |
| PaymentForms.NewPayment | app/src/main/java/com/constructionmanagement/app/ui/payment/ProcessPaymentActivity.kt:107-143 | errors for an undecodable worker, site, amount or mode, in that order; saved exactly when all four convert, with id 0, month and year 0, today's date, the decoded values, a blank reference as null and a filled one trimmed |
| PaymentForms.ChosenPaymentSaved | app/src/main/java/com/constructionmanagement/app/ui/payment/ProcessPaymentActivity.kt:107-143 | a form filled from the dropdowns saves with that worker, site, amount, mode, and today's date |
| PaymentForms.OpenAdvanceDetails | app/src/main/java/com/constructionmanagement/app/ui/payment/AdvanceDetailsActivity.kt:39-63 | id -1 ends the screen; an id no row has shows nothing; otherwise the stored advance with that id |
| PaymentForms.UpdatedAdvance | app/src/main/java/com/constructionmanagement/app/ui/payment/AdvanceDetailsActivity.kt:166-187 | fails only on a non-blank unparseable amount; keeps id, worker, date, mode and notes; takes the trimmed reason, the reference (null when blank, else trimmed) and the radio's recovered flag |
| PaymentForms.DetailsCanUnsettle | app/src/main/java/com/constructionmanagement/app/ui/payment/AdvanceDetailsActivity.kt:179 | a recovered advance can be saved back as pending |
| PaymentForms.DetailsResaveKeepsAdvance | app/src/main/java/com/constructionmanagement/app/ui/payment/AdvanceDetailsActivity.kt:81-187 | saving back an advance as shown (whole amount via `Double.toString`, trimmed reason and reference) with its own status gives it back |
| PaymentForms.AdvanceStatusView.constructor | app/src/main/java/com/constructionmanagement/app/ui/payment/AdvanceDetailsActivity.kt:128-137 | the radios show the given status, always opposite, and the chip names it |
| PaymentForms.AdvanceStatusView.OnRadioChecked | app/src/main/java/com/constructionmanagement/app/ui/payment/AdvanceDetailsActivity.kt:179 | the checked radio decides the status the save reads; the radios stay opposite; the chip text is left as it was, since no listener updates it |
| PaymentForms.AdvanceStatusView.OnChipClicked | app/src/main/java/com/constructionmanagement/app/ui/payment/AdvanceDetailsActivity.kt:200-213 | the chip flips the status; the radios stay opposite; the chip names the new status |
| PaymentForms.ChipClickedTwice | app/src/main/java/com/constructionmanagement/app/ui/payment/AdvanceDetailsActivity.kt:200-213 | two chip clicks restore the status, and the chip names it |
| WorkerForms.ValidateAddInputs | app/src/main/java/com/constructionmanagement/app/ui/worker/AddWorkerActivity.kt:135-163 | errors exactly on blank name, phone and ID number, with their messages; address and role never; valid exactly when those three are filled |
| WorkerForms.ValidateEditInputs | app/src/main/java/com/constructionmanagement/app/ui/worker/EditWorkerActivity.kt:161-205 | errors exactly on each of the five blank fields; valid exactly when all five are filled |
| WorkerForms.NewWorker | app/src/main/java/com/constructionmanagement/app/ui/worker/AddWorkerActivity.kt:165-188 | id 0, join date today, the switch's active flag, the current photo path, trimmed texts |
| WorkerForms.UpdatedWorker | app/src/main/java/com/constructionmanagement/app/ui/worker/EditWorkerActivity.kt:207-227 | keeps id and join date; takes the switch, the photo path and the trimmed texts |
| WorkerForms.PhotoAfterPopulate | app/src/main/java/com/constructionmanagement/app/ui/worker/EditWorkerActivity.kt:155-157 | the stored photo path when there is one, else the current one |
| WorkerForms.ReopenAndSaveKeepsWorker | app/src/main/java/com/constructionmanagement/app/ui/worker/EditWorkerActivity.kt:139-227 | saving a stored worker's own fields and photo gives it back |
| WorkerForms.AddedWithBlankAddressFailsEdit | app/src/main/java/com/constructionmanagement/app/ui/worker/EditWorkerActivity.kt:161-205 | a worker added with blank address or role cannot be saved from the edit screen unchanged |
| WorkerForms.OnAddSaveClicked | app/src/main/java/com/constructionmanagement/app/ui/worker/AddWorkerActivity.kt:165-194 | saves exactly when the add form is complete, appending the new worker with its key; otherwise nothing changes |
| WorkerForms.OpenEditWorker | app/src/main/java/com/constructionmanagement/app/ui/worker/EditWorkerActivity.kt:85-113 | id 0 ends the screen; an id no row has shows nothing; otherwise the stored worker |
| WorkerForms.EditWorkerScreen.constructor | app/src/main/java/com/constructionmanagement/app/ui/worker/EditWorkerActivity.kt:36-38 | no worker, no photo, not finished |
| WorkerForms.EditWorkerScreen.Open | app/src/main/java/com/constructionmanagement/app/ui/worker/EditWorkerActivity.kt:85-113 | a found worker is shown with its photo path; otherwise the screen finishes |
| WorkerForms.EditWorkerScreen.OnPhotoSaved | app/src/main/java/com/constructionmanagement/app/ui/worker/EditWorkerActivity.kt:65-77 | the photo path becomes the saved file; nothing else changes |
| WorkerForms.EditWorkerScreen.OnSaveClicked | app/src/main/java/com/constructionmanagement/app/ui/worker/EditWorkerActivity.kt:207-234 | valid exactly when the edit form is complete; then the loaded worker's row is updated and the screen finishes; otherwise nothing changes |
| WorkerForms.OpenAndSaveUntouched | app/src/main/java/com/constructionmanagement/app/ui/worker/EditWorkerActivity.kt:85-234 | opening a stored worker and saving untouched leaves a table of trimmed rows unchanged |
| ViewModels.MarkCompletedIdempotent | app/src/main/java/com/constructionmanagement/app/ui/payment/AdvanceViewModel.kt:63-68 | marking the same advance completed twice is marking it once |
| ViewModels.MarkCompletedIsSettle | app/src/main/java/com/constructionmanagement/app/ui/payment/AdvanceViewModel.kt:63-68 | completing a stored advance equals settling its id |
| ViewModels.AdvanceViewModel.constructor | app/src/main/java/com/constructionmanagement/app/ui/payment/AdvanceViewModel.kt:13-22 | wraps the table; no navigation pending |
| ViewModels.AdvanceViewModel.UnrecoveredAdvances | app/src/main/java/com/constructionmanagement/app/ui/payment/AdvanceViewModel.kt:32-34 | the worker's unrecovered advances newest first, each as often as stored, summing to the unsettled total |
| ViewModels.AdvanceViewModel.MarkAdvanceAsCompleted | app/src/main/java/com/constructionmanagement/app/ui/payment/AdvanceViewModel.kt:63-68 | the row with the advance's key becomes the advance marked recovered |
| ViewModels.AdvanceViewModel.OnAdvanceClicked | app/src/main/java/com/constructionmanagement/app/ui/payment/AdvanceViewModel.kt:70-72 | the id's navigation is pending |
| ViewModels.AdvanceViewModel.OnAdvanceDetailsNavigated | app/src/main/java/com/constructionmanagement/app/ui/payment/AdvanceViewModel.kt:74-76 | nothing is pending |
| ViewModels.CompleteFromList | app/src/main/java/com/constructionmanagement/app/ui/payment/AdvanceViewModel.kt:32-68 | completing a listed advance settles its id and drops it from the worker's unrecovered list |
| ViewModels.ActiveSites | app/src/main/java/com/constructionmanagement/app/ui/dashboard/DashboardViewModel.kt:34-36 | exactly the ACTIVE sites, an ordered subsequence, no longer than all sites |
| ViewModels.ActiveSitesAsStatusQuery | app/src/main/java/com/constructionmanagement/app/ui/dashboard/DashboardViewModel.kt:24-36 | over the all-sites query, still ordered by name and the same rows as the ACTIVE status query |
| ViewModels.DashboardOf | app/src/main/java/com/constructionmanagement/app/ui/dashboard/DashboardViewModel.kt:20-36 | all workers, the active ones, all sites, the ACTIVE ones, and every payment with none dropped |

## Left out

- Text.LikeIgnoresCase: models SQL `LIKE '%q%'` as a substring test with ASCII case folding. The `%` and `_` wildcards inside a typed query are not modelled.
- Sites.SearchSites: the query text is matched literally, so `%` or `_` typed into the search box is not treated as a wildcard.
- Workers.SearchWorkers: the query text is matched literally, so `%` or `_` typed into the search box is not treated as a wildcard.
- Dates.ParseDate: the parse is strict. `SimpleDateFormat` is lenient and rolls over out-of-range days and months (e.g. "31/02/2024" becomes 2 March). Only dates that format back to themselves are modelled. The findings do not depend on leniency: a `yyyy-MM-dd` text fails `dd/MM/yyyy` at its first separator in both parsers.
- Text.ParseDecimal: models `String.toDouble` on plain decimals (an optional sign, digits, an optional fraction). Exponents, the `d`/`D`/`f`/`F` type suffixes (Java accepts `"5d"`), `NaN`, `Infinity` and hexadecimal forms are not modelled.
- Text.ParseLong: accepts ASCII digits `0`-`9` only. `Long.parseLong` also accepts other Unicode decimal digits (for example fullwidth digits). The dropdown entries are written with ASCII digits, so no modelled path depends on the difference.
- Text.WholeDoubleToString: models `Double.toString` only for whole amounts below 10^7. Larger values switch to exponent notation.
- Text.Lowercase: folds ASCII letters only. Kotlin's `lowercase()` follows Unicode.
- Amounts: Kotlin `Double` is modelled as `real`. No rounding is modelled, and sums are exact.
- ReportRequest.ReportForm.OnWorkerSelected: requires the position to be at most the worker list's length. The spinner has one entry per worker plus "All Workers", so it never reports a larger position.
- ReportRequest.ReportForm.OnSiteSelected: requires the position to be at most the site list's length, for the same reason.
- SiteForms: the edit screen's status comes from a spinner filled with `SiteStatus` names, so it is a `SiteStatus` parameter. `valueOf` cannot fail there.
- SiteReconciliation: for each removed worker, the edit screen reads the active assignment through another fresh LiveData. The corrected reconciliation reads the table's active row directly.
- ViewModels.AdvanceViewModel.MarkAdvanceAsCompleted: stores the advance it was given. Called with a stale copy, it overwrites the other fields with the copy's values, as the source does.
- WorkerSelection.SameItem: the list adapter's item identity (the worker id) is defined but has no lemma. It only affects list animations.
- LiveData, coroutines and `viewModelScope`: each DAO call is one atomic step in program order. Interleavings with the UI thread and observer timing are not modelled.
- Store failures: constraint violations and I/O errors are not modelled. An exception thrown part way through `insertWorkerSiteAssignments` stops the remaining entries, and the model does not capture that.
- Foreign keys: the CASCADE and SET_NULL actions that run when a worker or site is deleted are not modelled. Plain row deletes are modelled.
- PDF and Excel rendering: only the records each section shows, its totals, its title and the Excel row layout are modelled. Fonts, cells, styles, files and sharing are not.
- ReportViewModel: the PDF tables for advances and attendance are not modelled, nor the placeholder assigned-workers list of the site summary (ReportViewModel lines 426-430).
- ReportGenerationActivity: only its read-back of the intent extras is modelled.
- Photos: camera capture, gallery copying and Glide loading are not modelled. Only the stored path is.
- Other toasts (besides the filter-failure notices of the payment report), colours, visibility and navigation calls are not modelled.
- CurrencyFormatter and DateConverter are not part of this model.
- Pass-through repositories: these only forward to their DAOs. The other view-models' navigation fields are left out too.
- The clock: today's date is a parameter of the operations that read it. It is required to be a valid date where it is formatted.

## Findings

| source | as written | input that shows it | evidently intended | confidence | as-written member | corrected member |
|---|---|---|---|---|---|---|
| app/src/main/java/com/constructionmanagement/app/ui/report/ReportViewModel.kt:730 | `filterPayments` parses each record date with `dd/MM/yyyy`, as do `filterAdvances` (line 759) and `filterAttendance` (line 783). Records are stored as `yyyy-MM-dd`, so the parse throws. Nothing in the filter catches it, and the whole section is dropped by the catch at lines 333-335 (PDF) or 588-590 (Excel). | A payment report over any date range where at least one payment is dated "2024-03-01" | Parse each record date with the pattern it is stored in (`yyyy-MM-dd`), and keep the records whose day lies in the inclusive range | not executed | Reports.StoredDateAbortsFilter (over Reports.FilterRecords and Dates.DayMonthYearRejectsStored) | Reports.FilterStoredRecords, with Reports.StoredFilterKeepsRange |
| app/src/main/java/com/constructionmanagement/app/ui/report/ReportFragment.kt:212-213 | The range check `selectedStartDate.after(selectedEndDate)` compares instants, time of day included. The default end is read from the clock first (line 73), and the start is read after it and moved to the first of the month (lines 76-78). | The report screen opened on the 1st of a month, with Generate pressed without touching the pickers. The start is then the same day. When the two clock readings fall in different milliseconds, the start is a later instant and the report is refused. When they fall in the same millisecond, the report goes through. | Refuse only a start day later than the end day | not executed | ReportRequest.DefaultRangeOnFirstRefused, ReportRequest.SameDayRangeRefused (with ReportRequest.InstantCheckRefusesSameDay) | ReportRequest.ReportForm.GenerateReport, which uses ReportRequest.DayAfter (ReportRequest.DayCheckIgnoresTime) |
| app/src/main/java/com/constructionmanagement/app/ui/site/EditSiteActivity.kt:335 | `updateWorkerAssignments` reads `.value` of the LiveData that `getWorkersBySite` has just created. Nothing observes it, so it is null, and no assignment is added or removed. | Worker 7 is active at site 3 and is deselected on the edit screen. After saving, the worker is still active at site 3. | Reconcile against the site's current workers as loaded: deactivate the deselected ones and assign the newly selected ones | not executed | SiteReconciliation.DeselectedWorkerStaysActive, SiteReconciliation.EditAsWrittenChangesNothing (over SiteReconciliation.UnobservedValue) | SiteReconciliation.ReconcileLoaded |
