// The add-worker and edit-worker screens (AddWorkerActivity,
// EditWorkerActivity): the required-field checks, the Worker record each
// screen builds from its form, and the edit screen's state.
module WorkerForms {
  import opened Wrappers
  import opened Text
  import opened Collections
  import opened Entities
  import opened Workers
  import opened FormFields

  /** The text fields of the worker form, as typed. */
  datatype WorkerForm = WorkerForm(
    name: string,
    phone: string,
    address: string,
    role: string,
    aadhar: string)

  /** The error each field's layout shows after validation: null, or the "required" message. */
  datatype WorkerErrors = WorkerErrors(
    name: Option<string>,
    phone: Option<string>,
    address: Option<string>,
    role: Option<string>,
    aadhar: Option<string>)

  const NameRequired := "Name is required"
  const PhoneRequired := "Phone number is required"
  const AddressRequired := "Address is required"
  const RoleRequired := "Role is required"
  const IdNumberRequired := "ID number is required"
  const AadharRequired := "Aadhar number is required"

  // ---- validateInputs ----

  /** What the add screen demands: name, phone and ID number; address and role may be blank. */
  predicate AddFormComplete(form: WorkerForm)
  {
    !IsBlank(form.name) && !IsBlank(form.phone) && !IsBlank(form.aadhar)
  }

  /** What the edit screen demands: all five fields. */
  predicate EditFormComplete(form: WorkerForm)
  {
    AddFormComplete(form) && !IsBlank(form.address) && !IsBlank(form.role)
  }

  /**
   * The add screen's validateInputs: name, phone and ID number each show
   * their error exactly when blank, address and role show none, and the form
   * passes exactly when none of the three is blank.
   */
  method ValidateAddInputs(form: WorkerForm) returns (isValid: bool, errors: WorkerErrors)
    ensures errors.name.Some? <==> IsBlank(form.name)
    ensures errors.phone.Some? <==> IsBlank(form.phone)
    ensures errors.aadhar.Some? <==> IsBlank(form.aadhar)
    ensures errors.address.None? && errors.role.None?
    ensures errors.name.Some? ==> errors.name.value == NameRequired
    ensures errors.phone.Some? ==> errors.phone.value == PhoneRequired
    ensures errors.aadhar.Some? ==> errors.aadhar.value == IdNumberRequired
    ensures isValid <==> AddFormComplete(form)
  {
    isValid := true;
    var nameError := RequiredError(form.name, NameRequired);
    if nameError.Some? {
      isValid := false;
    }
    var phoneError := RequiredError(form.phone, PhoneRequired);
    if phoneError.Some? {
      isValid := false;
    }
    var aadharError := RequiredError(form.aadhar, IdNumberRequired);
    if aadharError.Some? {
      isValid := false;
    }
    errors := WorkerErrors(nameError, phoneError, None, None, aadharError);
  }

  /**
   * The edit screen's validateInputs: each of the five fields shows its
   * error exactly when blank, and the form passes exactly when none is.
   */
  method ValidateEditInputs(form: WorkerForm) returns (isValid: bool, errors: WorkerErrors)
    ensures errors.name.Some? <==> IsBlank(form.name)
    ensures errors.phone.Some? <==> IsBlank(form.phone)
    ensures errors.address.Some? <==> IsBlank(form.address)
    ensures errors.role.Some? <==> IsBlank(form.role)
    ensures errors.aadhar.Some? <==> IsBlank(form.aadhar)
    ensures errors.name.Some? ==> errors.name.value == NameRequired
    ensures errors.phone.Some? ==> errors.phone.value == PhoneRequired
    ensures errors.address.Some? ==> errors.address.value == AddressRequired
    ensures errors.role.Some? ==> errors.role.value == RoleRequired
    ensures errors.aadhar.Some? ==> errors.aadhar.value == AadharRequired
    ensures isValid <==> EditFormComplete(form)
  {
    isValid := true;
    var nameError := RequiredError(form.name, NameRequired);
    if nameError.Some? {
      isValid := false;
    }
    var phoneError := RequiredError(form.phone, PhoneRequired);
    if phoneError.Some? {
      isValid := false;
    }
    var addressError := RequiredError(form.address, AddressRequired);
    if addressError.Some? {
      isValid := false;
    }
    var roleError := RequiredError(form.role, RoleRequired);
    if roleError.Some? {
      isValid := false;
    }
    var aadharError := RequiredError(form.aadhar, AadharRequired);
    if aadharError.Some? {
      isValid := false;
    }
    errors := WorkerErrors(nameError, phoneError, addressError, roleError, aadharError);
  }

  // ---- The Worker records the screens build ----

  /** Every text field of the worker trimmed. */
  predicate CleanWorker(w: Worker)
  {
    Trimmed(w.name) && Trimmed(w.phoneNumber) && Trimmed(w.address) && Trimmed(w.role) && Trimmed(w.aadharNumber)
  }

  /**
   * saveWorker's record: key 0 (Room generates one), today as the join date,
   * the trimmed texts, the switch's state and the current photo path, null
   * when no photo was chosen.
   */
  function NewWorker(form: WorkerForm, isActive: bool, today: string, photoPath: Option<string>): (r: Worker)
    ensures r.id == 0 && r.joinDate == today && r.isActive == isActive && r.profileImagePath == photoPath
    ensures r.name == Trim(form.name) && r.phoneNumber == Trim(form.phone) && r.address == Trim(form.address)
    ensures r.role == Trim(form.role) && r.aadharNumber == Trim(form.aadhar)
    ensures CleanWorker(r)
  {
    TrimIsTrimmed(form.name);
    TrimIsTrimmed(form.phone);
    TrimIsTrimmed(form.address);
    TrimIsTrimmed(form.role);
    TrimIsTrimmed(form.aadhar);
    Worker(0, Trim(form.name), Trim(form.phone), Trim(form.address), Trim(form.role), Trim(form.aadhar),
           today, isActive, photoPath)
  }

  /**
   * updateWorker's record: the loaded worker's key and join date, the trimmed
   * texts, the switch's state and the current photo path.
   */
  function UpdatedWorker(w: Worker, form: WorkerForm, isActive: bool, photoPath: Option<string>): (r: Worker)
    ensures r.id == w.id && r.joinDate == w.joinDate && r.isActive == isActive && r.profileImagePath == photoPath
    ensures r.name == Trim(form.name) && r.phoneNumber == Trim(form.phone) && r.address == Trim(form.address)
    ensures r.role == Trim(form.role) && r.aadharNumber == Trim(form.aadhar)
    ensures CleanWorker(r)
  {
    NewWorker(form, isActive, w.joinDate, photoPath).(id := w.id)
  }

  /** populateWorkerData: the form shows the stored texts. */
  function PopulatedForm(w: Worker): WorkerForm
  {
    WorkerForm(w.name, w.phoneNumber, w.address, w.role, w.aadharNumber)
  }

  /** populateWorkerData's photo step: a stored path replaces the current one, a null path leaves it. */
  function PhotoAfterPopulate(current: Option<string>, w: Worker): (r: Option<string>)
    ensures w.profileImagePath.Some? ==> r == w.profileImagePath
    ensures w.profileImagePath.None? ==> r == current
  {
    if w.profileImagePath.Some? then w.profileImagePath else current
  }

  /**
   * Opening a clean worker in the edit screen, choosing no photo and saving
   * untouched stores the same worker, photo path included.
   */
  lemma ReopenAndSaveKeepsWorker(w: Worker)
    requires CleanWorker(w)
    ensures UpdatedWorker(w, PopulatedForm(w), w.isActive, PhotoAfterPopulate(None, w)) == w
  {
    TrimUntouched(w.name);
    TrimUntouched(w.phoneNumber);
    TrimUntouched(w.address);
    TrimUntouched(w.role);
    TrimUntouched(w.aadharNumber);
  }

  /**
   * The two screens disagree on what is required: a worker added with a blank
   * address or role passes the add screen, and the edit screen refuses to
   * save it until both are filled in.
   */
  lemma AddedWithBlankAddressFailsEdit(form: WorkerForm, isActive: bool, today: string, photoPath: Option<string>)
    requires AddFormComplete(form) && (IsBlank(form.address) || IsBlank(form.role))
    ensures !EditFormComplete(PopulatedForm(NewWorker(form, isActive, today, photoPath)))
  {
    TrimEmptyIffBlank(form.address);
    TrimEmptyIffBlank(form.role);
  }

  /** The add screen's save button: nothing is stored unless the form passes validateInputs. */
  method OnAddSaveClicked(dao: WorkerDao, form: WorkerForm, isActive: bool, today: string,
                          photoPath: Option<string>) returns (saved: Option<int>)
    requires dao.Valid()
    modifies dao
    ensures dao.Valid()
    ensures saved.None? <==> !AddFormComplete(form)
    ensures saved.None? ==> dao.rows == old(dao.rows) && dao.nextId == old(dao.nextId)
    ensures saved.Some? ==> dao.rows == old(dao.rows) + [NewWorker(form, isActive, today, photoPath).(id := saved.value)]
  {
    var isValid, errors := ValidateAddInputs(form);
    if isValid {
      var w := NewWorker(form, isActive, today, photoPath);
      UpsertFresh(dao.rows, dao.nextId, w.(id := dao.nextId), WorkerKey);
      var id := dao.InsertWorker(w);
      saved := Some(id);
    } else {
      saved := None;
    }
  }

  // ---- The edit screen ----

  /** What the edit screen does with the id it was opened with. */
  datatype EditScreen = InvalidId | NotFound | Editing(worker: Worker)

  /** An id extra of 0 (missing) closes the screen at once; an id with no row closes it once the query answers. */
  function OpenEditWorker(workerId: int, rows: seq<Worker>): (r: EditScreen)
    ensures r == InvalidId <==> workerId == 0
    ensures r == NotFound <==> workerId != 0 && forall x :: x in rows ==> x.id != workerId
    ensures r.Editing? ==> r.worker in rows && r.worker.id == workerId
  {
    if workerId == 0 then InvalidId
    else
      match WorkerById(rows, workerId)
      case None => NotFound
      case Some(w) => Editing(w)
  }

  /** The edit screen's state: the loaded worker, the photo path the save uses, and whether it has closed. */
  class EditWorkerScreen {
    var worker: Option<Worker>
    var currentPhotoPath: Option<string>
    var finished: bool

    /** The screen before anything is loaded: no worker and no photo. */
    constructor ()
      ensures worker.None? && currentPhotoPath.None? && !finished
    {
      worker := None;
      currentPhotoPath := None;
      finished := false;
    }

    /**
     * onCreate with the id extra and the worker query's answer: a missing id
     * or a missing row closes the screen; a found worker is kept and shown,
     * its stored photo path becoming the current one.
     */
    method Open(workerId: int, rows: seq<Worker>)
      modifies this
      ensures OpenEditWorker(workerId, rows).Editing? ==>
        (worker == Some(OpenEditWorker(workerId, rows).worker) && !finished
        && currentPhotoPath == PhotoAfterPopulate(old(currentPhotoPath), worker.value))
      ensures !OpenEditWorker(workerId, rows).Editing? ==>
        (finished && worker == old(worker) && currentPhotoPath == old(currentPhotoPath))
    {
      match OpenEditWorker(workerId, rows)
      case Editing(w) =>
        worker := Some(w);
        finished := false;
        if w.profileImagePath.Some? {
          currentPhotoPath := w.profileImagePath;
        }
      case _ =>
        finished := true;
    }

    /** A photo picked from the gallery and copied to app storage becomes the current path. */
    method OnPhotoSaved(path: string)
      modifies this
      ensures currentPhotoPath == Some(path)
      ensures worker == old(worker) && finished == old(finished)
    {
      currentPhotoPath := Some(path);
    }

    /**
     * The save button: when the form passes and a worker is loaded, the
     * updated record replaces it and the screen closes; otherwise nothing is
     * stored.
     */
    method OnSaveClicked(dao: WorkerDao, form: WorkerForm, isActive: bool) returns (isValid: bool)
      requires dao.Valid()
      modifies this, dao
      ensures dao.Valid()
      ensures isValid <==> EditFormComplete(form)
      ensures worker == old(worker) && currentPhotoPath == old(currentPhotoPath)
      ensures (isValid && worker.Some?) ==>
        (dao.rows == UpdateById(old(dao.rows), UpdatedWorker(worker.value, form, isActive, currentPhotoPath), WorkerKey)
        && finished)
      ensures !(isValid && worker.Some?) ==> dao.rows == old(dao.rows) && finished == old(finished)
    {
      var errors;
      isValid, errors := ValidateEditInputs(form);
      if isValid && worker.Some? {
        finished := true;
        dao.UpdateWorker(UpdatedWorker(worker.value, form, isActive, currentPhotoPath));
      }
    }
  }

  /**
   * Opening a stored worker and saving without touching the form, the switch
   * or the photo leaves the workers table as it was, when every stored worker
   * has trimmed texts (as both screens store them). The scenario saves only a
   * clean worker; a worker with a blank field fails the edit screen's check
   * (AddedWithBlankAddressFailsEdit), and one with untrimmed texts would be
   * stored trimmed, so this scenario states nothing about either case.
   */
  method OpenAndSaveUntouched(dao: WorkerDao, workerId: int) returns (isValid: bool)
    requires dao.Valid()
    modifies dao
    ensures dao.Valid()
    ensures (forall w :: w in old(dao.rows) ==> CleanWorker(w)) ==> dao.rows == old(dao.rows)
  {
    var screen := new EditWorkerScreen();
    screen.Open(workerId, dao.rows);
    isValid := false;
    if screen.worker.Some? {
      var w := screen.worker.value;
      if CleanWorker(w) {
        ReopenAndSaveKeepsWorker(w);
        UpdateWithStoredRow(dao.rows, w, WorkerKey);
        isValid := screen.OnSaveClicked(dao, PopulatedForm(w), w.isActive);
      }
    }
  }
}
