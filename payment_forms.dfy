// The screens that record money: a new advance (AdvancePaymentActivity), a new
// payment (ProcessPaymentActivity) and the advance details screen
// (AdvanceDetailsActivity). Each checks its form, reads the dropdowns and
// builds the record it stores.
module PaymentForms {
  import opened Wrappers
  import opened Text
  import opened Entities
  import opened Dates
  import opened Dropdowns
  import opened FormFields
  import opened Advances

  const AmountRequired := "Amount is required"
  const ReasonRequired := "Reason is required"
  const DescriptionRequired := "Description is required"

  /** The errors shown on the amount field and on the reason or description field. */
  datatype AmountFormErrors = AmountFormErrors(amount: Option<string>, text: Option<string>)

  // ---- validateInputs ----

  /**
   * The new-advance and new-payment screens' validateInputs (with the reason or
   * the description as `text`): each blank field shows its message; a filled-in
   * field keeps whatever error it showed before, as the check never clears it.
   */
  method ValidateAmountAnd(amountText: string, text: string, textMessage: string, shown: AmountFormErrors)
    returns (isValid: bool, errors: AmountFormErrors)
    ensures isValid <==> !IsBlank(amountText) && !IsBlank(text)
    ensures IsBlank(amountText) ==> errors.amount == Some(AmountRequired)
    ensures !IsBlank(amountText) ==> errors.amount == shown.amount
    ensures IsBlank(text) ==> errors.text == Some(textMessage)
    ensures !IsBlank(text) ==> errors.text == shown.text
  {
    isValid := true;
    errors := shown;
    if TrimsToEmpty(amountText) {
      errors := errors.(amount := Some(AmountRequired));
      isValid := false;
    }
    if TrimsToEmpty(text) {
      errors := errors.(text := Some(textMessage));
      isValid := false;
    }
  }

  /** The advance details screen's validateInputs: the same two checks, each clearing its error when the field is filled. */
  method ValidateAdvanceDetails(amountText: string, reasonText: string) returns (isValid: bool, errors: AmountFormErrors)
    ensures isValid <==> !IsBlank(amountText) && !IsBlank(reasonText)
    ensures errors.amount.Some? <==> IsBlank(amountText)
    ensures errors.text.Some? <==> IsBlank(reasonText)
    ensures errors.amount.Some? ==> errors.amount.value == AmountRequired
    ensures errors.text.Some? ==> errors.text.value == ReasonRequired
  {
    isValid := true;
    var amountError := RequiredError(amountText, AmountRequired);
    if amountError.Some? {
      isValid := false;
    }
    var reasonError := RequiredError(reasonText, ReasonRequired);
    if reasonError.Some? {
      isValid := false;
    }
    errors := AmountFormErrors(amountError, reasonError);
  }

  /** An error surfaced by the Save button once the form has passed: the conversion that throws. */
  datatype SaveError = BadWorkerId | BadSiteId | BadAmount | BadPaymentMode

  /** `text.trim().toDouble()`. */
  function AmountOf(text: string): Option<real>
  {
    ParseDecimal(Trim(text))
  }

  /** The fields of the new-advance form, as shown. */
  datatype AdvanceForm = AdvanceForm(
    workerItem: string,
    amountText: string,
    reasonText: string,
    modeText: string,
    referenceText: string)

  /**
   * saveAdvance's record: the worker id decoded from the dropdown item, the
   * amount, the trimmed reason, the payment mode named by the dropdown, today
   * as yyyy-MM-dd, null for a blank reference number, not recovered and key 0.
   * The first conversion that throws, in the order the screen performs them,
   * is the error.
   */
  function NewAdvance(form: AdvanceForm, today: CivilDate): (r: Result<Advance, SaveError>)
    requires ValidDate(today)
    ensures DecodeItem(form.workerItem).None? ==> r == Err(BadWorkerId)
    ensures DecodeItem(form.workerItem).Some? && AmountOf(form.amountText).None? ==> r == Err(BadAmount)
    ensures (DecodeItem(form.workerItem).Some? && AmountOf(form.amountText).Some?
      && PaymentModeValueOf(form.modeText).None?) ==> r == Err(BadPaymentMode)
    ensures r.Ok? <==> (DecodeItem(form.workerItem).Some? && AmountOf(form.amountText).Some?
      && PaymentModeValueOf(form.modeText).Some?)
    ensures r.Ok? ==> (r.value.advanceId == 0 && !r.value.isRecovered && r.value.notes.None?
      && Some(r.value.workerId) == DecodeItem(form.workerItem)
      && Some(r.value.amount) == AmountOf(form.amountText)
      && Some(r.value.paymentMode) == PaymentModeValueOf(form.modeText)
      && r.value.advanceDate == FormatDate(today, YearMonthDay)
      && r.value.reason == Trim(form.reasonText)
      && r.value.referenceNumber == (if IsBlank(form.referenceText) then None else Some(Trim(form.referenceText))))
  {
    match DecodeItem(form.workerItem)
    case None => Err(BadWorkerId)
    case Some(workerId) =>
      match AmountOf(form.amountText)
      case None => Err(BadAmount)
      case Some(amount) =>
        match PaymentModeValueOf(form.modeText)
        case None => Err(BadPaymentMode)
        case Some(mode) =>
          Ok(Advance(0, workerId, amount, FormatDate(today, YearMonthDay), Trim(form.reasonText), None, mode,
                     BlankToNull(form.referenceText), false))
  }

  /** What the dropdowns and a typed whole amount convert to. */
  lemma ChosenFieldsConvert(id: int, name: string, n: nat, m: PaymentMode)
    requires IsLong(id)
    ensures DecodeItem(EncodeItem(id, name)) == Some(id)
    ensures AmountOf(NatToString(n)) == Some(n as real)
    ensures PaymentModeValueOf(PaymentModeName(m)) == Some(m)
  {
    DecodeEncode(id, name);
    TrimUntouched(NatToString(n));
    ParseDecimalOfNat(n);
    PaymentModeNames(PaymentModeName(m), m);
  }

  /**
   * Choosing a worker from the dropdown, typing a whole amount and keeping a
   * payment mode from its dropdown saves an advance for that worker, of that
   * amount and mode, dated today in the form the date-range queries read.
   */
  lemma ChosenAdvanceSaved(id: int, name: string, n: nat, m: PaymentMode, reason: string, reference: string, today: CivilDate)
    requires IsLong(id) && ValidDate(today)
    ensures var r := NewAdvance(AdvanceForm(EncodeItem(id, name), NatToString(n), reason, PaymentModeName(m), reference), today);
      r.Ok? && r.value.workerId == id && r.value.amount == n as real && r.value.paymentMode == m
      && ParseDate(r.value.advanceDate, YearMonthDay) == Some(today)
  {
    ChosenFieldsConvert(id, name, n, m);
    ParseFormat(today, YearMonthDay);
  }

  /** With no worker in the dropdown its text stays empty, and saving throws on the worker id. */
  lemma NoWorkerNoAdvance(amountText: string, reasonText: string, modeText: string, referenceText: string, today: CivilDate)
    requires ValidDate(today)
    ensures NewAdvance(AdvanceForm("", amountText, reasonText, modeText, referenceText), today) == Err(BadWorkerId)
  {
    assert SubstringBefore("", ':') == "";
    assert Trim("") == "";
  }

  /** The fields of the new-payment form, as shown. */
  datatype PaymentForm = PaymentForm(
    workerItem: string,
    siteItem: string,
    amountText: string,
    descriptionText: string,
    modeText: string,
    referenceText: string)

  /**
   * savePayment's record: worker and site ids decoded from their dropdown
   * items, the amount, the trimmed description, the payment mode, today as
   * yyyy-MM-dd, null for a blank reference number, key 0 and month and year
   * left at 0. The first conversion that throws is the error.
   */
  function NewPayment(form: PaymentForm, today: CivilDate): (r: Result<Payment, SaveError>)
    requires ValidDate(today)
    ensures DecodeItem(form.workerItem).None? ==> r == Err(BadWorkerId)
    ensures DecodeItem(form.workerItem).Some? && DecodeItem(form.siteItem).None? ==> r == Err(BadSiteId)
    ensures (DecodeItem(form.workerItem).Some? && DecodeItem(form.siteItem).Some?
      && AmountOf(form.amountText).None?) ==> r == Err(BadAmount)
    ensures (DecodeItem(form.workerItem).Some? && DecodeItem(form.siteItem).Some? && AmountOf(form.amountText).Some?
      && PaymentModeValueOf(form.modeText).None?) ==> r == Err(BadPaymentMode)
    ensures r.Ok? <==> (DecodeItem(form.workerItem).Some? && DecodeItem(form.siteItem).Some?
      && AmountOf(form.amountText).Some? && PaymentModeValueOf(form.modeText).Some?)
    ensures r.Ok? ==> (r.value.paymentId == 0 && r.value.forMonth == 0 && r.value.forYear == 0 && r.value.notes.None?
      && Some(r.value.workerId) == DecodeItem(form.workerItem)
      && Some(r.value.siteId) == DecodeItem(form.siteItem)
      && Some(r.value.amount) == AmountOf(form.amountText)
      && Some(r.value.paymentMode) == PaymentModeValueOf(form.modeText)
      && r.value.paymentDate == FormatDate(today, YearMonthDay)
      && r.value.description == Trim(form.descriptionText)
      && r.value.referenceNumber == (if IsBlank(form.referenceText) then None else Some(Trim(form.referenceText))))
  {
    match DecodeItem(form.workerItem)
    case None => Err(BadWorkerId)
    case Some(workerId) =>
      match DecodeItem(form.siteItem)
      case None => Err(BadSiteId)
      case Some(siteId) =>
        match AmountOf(form.amountText)
        case None => Err(BadAmount)
        case Some(amount) =>
          match PaymentModeValueOf(form.modeText)
          case None => Err(BadPaymentMode)
          case Some(mode) =>
            Ok(Payment(0, workerId, siteId, FormatDate(today, YearMonthDay), amount, Trim(form.descriptionText), mode,
                       BlankToNull(form.referenceText), 0, 0, None))
  }

  /** Choosing a worker and a site from the dropdowns saves a payment for exactly that worker and site. */
  lemma ChosenPaymentSaved(workerId: int, workerName: string, siteId: int, siteName: string, n: nat, m: PaymentMode,
                           description: string, reference: string, today: CivilDate)
    requires IsLong(workerId) && IsLong(siteId) && ValidDate(today)
    ensures var r := NewPayment(PaymentForm(EncodeItem(workerId, workerName), EncodeItem(siteId, siteName), NatToString(n),
                                            description, PaymentModeName(m), reference), today);
      r.Ok? && r.value.workerId == workerId && r.value.siteId == siteId && r.value.amount == n as real
      && r.value.paymentMode == m && ParseDate(r.value.paymentDate, YearMonthDay) == Some(today)
  {
    ChosenFieldsConvert(workerId, workerName, n, m);
    DecodeEncode(siteId, siteName);
    ParseFormat(today, YearMonthDay);
  }

  // ---- The advance details screen ----

  /** What the details screen does with the id it was opened with. */
  datatype DetailsScreen = InvalidId | NotFound | Showing(advance: Advance)

  /** The id extra missing (-1) closes the screen at once; an id with no row closes it once the query answers. */
  function OpenAdvanceDetails(advanceId: int, rows: seq<Advance>): (r: DetailsScreen)
    ensures r == InvalidId <==> advanceId == -1
    ensures r == NotFound <==> advanceId != -1 && forall a :: a in rows ==> a.advanceId != advanceId
    ensures r.Showing? ==> r.advance in rows && r.advance.advanceId == advanceId
  {
    if advanceId == -1 then InvalidId
    else
      match AdvanceById(rows, advanceId)
      case None => NotFound
      case Some(a) => Showing(a)
  }

  /** The details form's fields, as typed. */
  datatype DetailsForm = DetailsForm(amountText: string, reasonText: string, referenceText: string)

  /**
   * updateAdvance's record: the loaded advance with a new amount, the trimmed
   * reason, null for a blank reference and the recovered flag the radio
   * buttons show; every other field is kept. An amount that does not convert
   * throws.
   */
  function UpdatedAdvance(a: Advance, form: DetailsForm, isRecovered: bool): (r: Result<Advance, SaveError>)
    ensures r.Err? <==> !IsBlank(form.amountText) && AmountOf(form.amountText).None?
    ensures r.Ok? ==> (r.value.advanceId == a.advanceId && r.value.workerId == a.workerId
      && r.value.advanceDate == a.advanceDate && r.value.paymentMode == a.paymentMode && r.value.notes == a.notes)
    ensures r.Ok? ==> (r.value.reason == Trim(form.reasonText) && r.value.isRecovered == isRecovered
      && r.value.referenceNumber == (if IsBlank(form.referenceText) then None else Some(Trim(form.referenceText))))
    ensures r.Ok? && !IsBlank(form.amountText) ==> Some(r.value.amount) == AmountOf(form.amountText)
    ensures r.Ok? && IsBlank(form.amountText) ==> r.value.amount == 0.0
  {
    var amount := if TrimsToEmpty(form.amountText) then Some(0.0) else AmountOf(form.amountText);
    match amount
    case None => Err(BadAmount)
    case Some(v) =>
      Ok(a.(amount := v, reason := Trim(form.reasonText), referenceNumber := BlankToNull(form.referenceText),
            isRecovered := isRecovered))
  }

  /** Settlement is not one-way: a recovered advance saved with the pending radio checked is pending again. */
  lemma DetailsCanUnsettle(a: Advance, form: DetailsForm)
    requires a.isRecovered && !IsBlank(form.amountText) && AmountOf(form.amountText).Some?
    ensures UpdatedAdvance(a, form, false).Ok? && !UpdatedAdvance(a, form, false).value.isRecovered
  {
  }

  /**
   * Saving an advance back as populateAdvanceData shows it (a whole amount
   * through Double.toString, the reason, the reference or an empty field) with
   * its own status changes nothing.
   */
  lemma DetailsResaveKeepsAdvance(a: Advance, n: nat)
    requires n < 10_000_000 && a.amount == n as real && a.reason != [] && Trimmed(a.reason)
    requires a.referenceNumber.Some? ==> a.referenceNumber.value != [] && Trimmed(a.referenceNumber.value)
    ensures UpdatedAdvance(a, DetailsForm(WholeDoubleToString(n), a.reason, a.referenceNumber.GetOr("")), a.isRecovered) == Ok(a)
  {
    var s := WholeDoubleToString(n);
    assert IsDigit(s[0]) && s[|s| - 1] == '0';
    TrimUntouched(s);
    ParseWholeDouble(n);
    assert !IsWhitespace(s[0]);
    TrimUntouched(a.reason);
    BlankToNullKeeps(a.referenceNumber);
  }

  /** The status chip and the two radio buttons of the details screen. */
  class AdvanceStatusView {
    var radioRecovered: bool
    var radioPending: bool
    var chipText: string

    /** The two radios of the group are always opposite. */
    ghost predicate Valid()
      reads this
    {
      radioRecovered != radioPending
    }

    /** updateStatusChip(isRecovered), as populateAdvanceData calls it. */
    constructor (isRecovered: bool)
      ensures Valid() && radioRecovered == isRecovered
      ensures chipText == (if isRecovered then "Completed" else "Pending")
    {
      radioRecovered := isRecovered;
      radioPending := !isRecovered;
      chipText := if isRecovered then "Completed" else "Pending";
    }

    /**
     * A radio button checked by hand: the group unchecks the other one.
     * No listener updates the chip, so its text stays as it was.
     */
    method OnRadioChecked(recovered: bool)
      modifies this
      ensures Valid() && radioRecovered == recovered
      ensures chipText == old(chipText)
    {
      radioRecovered := recovered;
      radioPending := !recovered;
    }

    /** A click on the chip flips the status and sets the chip to name it. */
    method OnChipClicked()
      requires Valid()
      modifies this
      ensures Valid() && radioRecovered == !old(radioRecovered)
      ensures chipText == (if radioRecovered then "Completed" else "Pending")
    {
      var newStatus := !radioRecovered;
      radioRecovered := newStatus;
      radioPending := !newStatus;
      chipText := if newStatus then "Completed" else "Pending";
    }

    /** The value the Save button reads. */
    function IsRecovered(): bool
      reads this
    {
      radioRecovered
    }
  }

  /** Two clicks on the chip bring the status back. */
  method ChipClickedTwice(view: AdvanceStatusView)
    requires view.Valid()
    modifies view
    ensures view.Valid() && view.IsRecovered() == old(view.IsRecovered())
    ensures view.chipText == (if view.IsRecovered() then "Completed" else "Pending")
  {
    view.OnChipClicked();
    view.OnChipClicked();
  }
}
