// The add-site and edit-site screens (AddSiteActivity, EditSiteActivity):
// the required-field checks, the Site record each screen builds from its
// form, and what saving does to the sites and assignment tables.
module SiteForms {
  import opened Wrappers
  import opened Text
  import opened Collections
  import opened Entities
  import opened Assignments
  import opened Sites
  import opened FormFields
  import opened SiteReconciliation

  /** The text fields of the site form, as typed. */
  datatype SiteForm = SiteForm(
    name: string,
    address: string,
    clientName: string,
    clientContact: string,
    expectedEndDate: string,
    notes: string)

  /** The error each field's layout shows after validation: null, or the "required" message. */
  datatype FormErrors = FormErrors(
    name: Option<string>,
    address: Option<string>,
    clientName: Option<string>,
    status: Option<string>)

  const NameRequired := "Site name is required"
  const AddressRequired := "Site address is required"
  const ClientNameRequired := "Client name is required"
  const StatusRequired := "Status is required"

  // ---- validateInputs ----

  /**
   * The edit screen's validateInputs: each of name, address and client name
   * shows its error exactly when it is blank, and the form passes exactly when
   * none of them is.
   */
  method ValidateEditInputs(form: SiteForm) returns (isValid: bool, errors: FormErrors)
    ensures errors.name.Some? <==> IsBlank(form.name)
    ensures errors.address.Some? <==> IsBlank(form.address)
    ensures errors.clientName.Some? <==> IsBlank(form.clientName)
    ensures errors.status.None?
    ensures errors.name.Some? ==> errors.name.value == NameRequired
    ensures errors.address.Some? ==> errors.address.value == AddressRequired
    ensures errors.clientName.Some? ==> errors.clientName.value == ClientNameRequired
    ensures isValid <==> !IsBlank(form.name) && !IsBlank(form.address) && !IsBlank(form.clientName)
  {
    isValid := true;
    var nameError := RequiredError(form.name, NameRequired);
    if nameError.Some? {
      isValid := false;
    }
    var addressError := RequiredError(form.address, AddressRequired);
    if addressError.Some? {
      isValid := false;
    }
    var clientNameError := RequiredError(form.clientName, ClientNameRequired);
    if clientNameError.Some? {
      isValid := false;
    }
    errors := FormErrors(nameError, addressError, clientNameError, None);
  }

  /** The add screen's validateInputs: the same three fields, and the status text as well. */
  method ValidateAddInputs(form: SiteForm, statusText: string) returns (isValid: bool, errors: FormErrors)
    ensures errors.name.Some? <==> IsBlank(form.name)
    ensures errors.address.Some? <==> IsBlank(form.address)
    ensures errors.clientName.Some? <==> IsBlank(form.clientName)
    ensures errors.status.Some? <==> IsBlank(statusText)
    ensures errors.name.Some? ==> errors.name.value == NameRequired
    ensures errors.address.Some? ==> errors.address.value == AddressRequired
    ensures errors.clientName.Some? ==> errors.clientName.value == ClientNameRequired
    ensures errors.status.Some? ==> errors.status.value == StatusRequired
    ensures isValid <==> !IsBlank(form.name) && !IsBlank(form.address) && !IsBlank(form.clientName) && !IsBlank(statusText)
  {
    isValid := true;
    var nameError := RequiredError(form.name, NameRequired);
    if nameError.Some? {
      isValid := false;
    }
    var addressError := RequiredError(form.address, AddressRequired);
    if addressError.Some? {
      isValid := false;
    }
    var clientNameError := RequiredError(form.clientName, ClientNameRequired);
    if clientNameError.Some? {
      isValid := false;
    }
    var statusError := RequiredError(statusText, StatusRequired);
    if statusError.Some? {
      isValid := false;
    }
    errors := FormErrors(nameError, addressError, clientNameError, statusError);
  }

  // ---- The Site records the screens build ----

  /** Every text field trimmed, and every present optional text non-empty and trimmed. */
  predicate CleanSite(s: Site)
  {
    Trimmed(s.name) && Trimmed(s.address) && Trimmed(s.clientName) && Trimmed(s.clientContact)
    && (s.expectedEndDate.Some? ==> s.expectedEndDate.value != [] && Trimmed(s.expectedEndDate.value))
    && (s.notes.Some? ==> s.notes.value != [] && Trimmed(s.notes.value))
  }

  /**
   * updateSite's record: the stored site's key and start date, the trimmed
   * texts, the chosen status, and null for a blank end date or blank notes.
   */
  function EditedSite(site: Site, form: SiteForm, status: SiteStatus): (r: Site)
    ensures r.siteId == site.siteId && r.startDate == site.startDate && r.status == status
    ensures r.name == Trim(form.name) && r.address == Trim(form.address)
    ensures r.clientName == Trim(form.clientName) && r.clientContact == Trim(form.clientContact)
    ensures r.expectedEndDate == (if IsBlank(form.expectedEndDate) then None else Some(Trim(form.expectedEndDate)))
    ensures r.notes == (if IsBlank(form.notes) then None else Some(Trim(form.notes)))
    ensures CleanSite(r)
  {
    TrimIsTrimmed(form.name);
    TrimIsTrimmed(form.address);
    TrimIsTrimmed(form.clientName);
    TrimIsTrimmed(form.clientContact);
    Site(site.siteId, Trim(form.name), Trim(form.address), Trim(form.clientName), Trim(form.clientContact),
         site.startDate, BlankToNull(form.expectedEndDate), status, BlankToNull(form.notes))
  }

  /** populateSiteData: the form shows the stored texts, with "" for a null end date or null notes. */
  function PopulatedForm(s: Site): SiteForm
  {
    SiteForm(s.name, s.address, s.clientName, s.clientContact, s.expectedEndDate.GetOr(""), s.notes.GetOr(""))
  }

  /** Opening a clean site in the edit screen and saving it untouched stores the same site. */
  lemma ReopenAndSaveKeepsSite(s: Site)
    requires CleanSite(s)
    ensures EditedSite(s, PopulatedForm(s), s.status) == s
  {
    TrimUntouched(s.name);
    TrimUntouched(s.address);
    TrimUntouched(s.clientName);
    TrimUntouched(s.clientContact);
    BlankToNullKeeps(s.expectedEndDate);
    BlankToNullKeeps(s.notes);
  }

  /** Saving from the edit screen, then reopening and saving again untouched, changes nothing more. */
  lemma EditSaveIdempotent(site: Site, form: SiteForm, status: SiteStatus)
    ensures var once := EditedSite(site, form, status);
      EditedSite(once, PopulatedForm(once), once.status) == once
  {
    ReopenAndSaveKeepsSite(EditedSite(site, form, status));
  }

  /** saveSite's status: the value the text names, ACTIVE when it names none. */
  function StatusOrActive(statusText: string): (r: SiteStatus)
    ensures forall t :: statusText == SiteStatusName(t) ==> r == t
    ensures SiteStatusValueOf(statusText).None? ==> r == Active
  {
    forall t | statusText == SiteStatusName(t) ensures SiteStatusValueOf(statusText) == Some(t) {
      SiteStatusNames(statusText, t);
    }
    SiteStatusValueOf(statusText).GetOr(Active)
  }

  /**
   * saveSite's record: key 0 (Room generates one), today as the start date,
   * the trimmed texts, and null for a blank end date or blank notes.
   */
  function NewSite(form: SiteForm, statusText: string, today: string): (r: Site)
    ensures r.siteId == 0 && r.startDate == today && r.status == StatusOrActive(statusText)
    ensures r.name == Trim(form.name) && r.address == Trim(form.address)
    ensures r.clientName == Trim(form.clientName) && r.clientContact == Trim(form.clientContact)
    ensures r.expectedEndDate == (if IsBlank(form.expectedEndDate) then None else Some(Trim(form.expectedEndDate)))
    ensures r.notes == (if IsBlank(form.notes) then None else Some(Trim(form.notes)))
    ensures CleanSite(r)
  {
    TrimIsTrimmed(form.name);
    TrimIsTrimmed(form.address);
    TrimIsTrimmed(form.clientName);
    TrimIsTrimmed(form.clientContact);
    Site(0, Trim(form.name), Trim(form.address), Trim(form.clientName), Trim(form.clientContact),
         today, BlankToNull(form.expectedEndDate), StatusOrActive(statusText), BlankToNull(form.notes))
  }

  /**
   * The status text is checked after trimming but read untrimmed: a padded
   * status name passes the check and the site is stored as ACTIVE.
   */
  lemma PaddedStatusBecomesActive(form: SiteForm, today: string)
    ensures !IsBlank(" COMPLETED")
    ensures NewSite(form, " COMPLETED", today).status == Active
  {
    assert !IsWhitespace(" COMPLETED"[1]);
  }

  // ---- Saving ----

  /** The assignments saveSite builds: one per selected worker, at the new site from its start date. */
  function BuildAssignments(selected: seq<Worker>, site: int, date: string): (r: seq<Assignment>)
    ensures |r| == |selected|
    ensures forall i :: 0 <= i < |r| ==> r[i] == Assignment(0, selected[i].id, site, date, None, true)
  {
    seq(|selected|, i requires 0 <= i < |selected| => Assignment(0, selected[i].id, site, date, None, true))
  }

  /**
   * Inserting the new site's assignments leaves every selected worker active
   * at the new site alone, and every other worker's active rows as they were.
   */
  lemma NewSiteAssignmentsEffect(t: AssignmentTable, selected: seq<Worker>, site: int, date: string)
    requires ValidTable(t)
    ensures forall w :: w in selected ==>
      SoleActiveAt(AfterBulk(t, BuildAssignments(selected, site, date)).rows, w.id, site, date)
    ensures forall v :: Unmentioned(selected, v) ==>
      ActiveRowsOf(AfterBulk(t, BuildAssignments(selected, site, date)).rows, v) == ActiveRowsOf(t.rows, v)
  {
    var list := BuildAssignments(selected, site, date);
    forall w | w in selected
      ensures SoleActiveAt(AfterBulk(t, list).rows, w.id, site, date)
    {
      BulkLaterEntryWins(t, list, w.id);
      var i :| 0 <= i < |selected| && selected[i] == w;
      assert list[i].workerId == w.id;
    }
    forall v | Unmentioned(selected, v)
      ensures ActiveRowsOf(AfterBulk(t, list).rows, v) == ActiveRowsOf(t.rows, v)
    {
      BulkLaterEntryWins(t, list, v);
      assert forall i :: 0 <= i < |list| ==> list[i].workerId != v by {
        forall i | 0 <= i < |list| ensures list[i].workerId != v {
          assert selected[i] in selected;
        }
      }
    }
  }

  /**
   * saveSite: the new site is appended under a fresh key, then, when workers
   * are selected, their assignments are inserted in selection order.
   */
  method SaveSite(siteDao: SiteDao, repo: AssignmentRepository, form: SiteForm, statusText: string,
                  today: string, selected: seq<Worker>) returns (siteId: int)
    requires siteDao.Valid() && repo.dao.Valid()
    modifies siteDao, repo.dao
    ensures siteDao.Valid() && repo.dao.Valid()
    ensures siteId == old(siteDao.nextId)
    ensures siteDao.rows == old(siteDao.rows) + [NewSite(form, statusText, today).(siteId := siteId)]
    ensures selected == [] ==> repo.dao.Table() == old(repo.dao.Table())
    ensures selected != [] ==> repo.dao.Table() == AfterBulk(old(repo.dao.Table()), BuildAssignments(selected, siteId, today))
    ensures forall w :: w in selected ==> SoleActiveAt(repo.dao.rows, w.id, siteId, today)
    ensures AtMostOneActive(old(repo.dao.rows)) ==> AtMostOneActive(repo.dao.rows)
  {
    siteId := InsertNewSite(siteDao, form, statusText, today);
    AssignSelected(repo, selected, siteId, today);
  }

  /** saveSite's insertSite call: the site built from the form is appended under the next free key. */
  method InsertNewSite(siteDao: SiteDao, form: SiteForm, statusText: string, today: string) returns (siteId: int)
    requires siteDao.Valid()
    modifies siteDao
    ensures siteDao.Valid()
    ensures siteId == old(siteDao.nextId)
    ensures siteDao.rows == old(siteDao.rows) + [NewSite(form, statusText, today).(siteId := siteId)]
  {
    var site := NewSite(form, statusText, today);
    UpsertFresh(siteDao.rows, siteDao.nextId, site.(siteId := siteDao.nextId), SiteKey);
    siteId := siteDao.InsertSite(site);
  }

  /**
   * insertSite's callback with the generated id: no insert for an empty
   * selection; otherwise one assignment per selected worker, inserted in
   * selection order, after which each of them is active at the new site alone.
   */
  method AssignSelected(repo: AssignmentRepository, selected: seq<Worker>, siteId: int, today: string)
    requires repo.dao.Valid()
    modifies repo.dao
    ensures repo.dao.Valid()
    ensures selected == [] ==> repo.dao.Table() == old(repo.dao.Table())
    ensures selected != [] ==> repo.dao.Table() == AfterBulk(old(repo.dao.Table()), BuildAssignments(selected, siteId, today))
    ensures forall w :: w in selected ==> SoleActiveAt(repo.dao.rows, w.id, siteId, today)
    ensures AtMostOneActive(old(repo.dao.rows)) ==> AtMostOneActive(repo.dao.rows)
  {
    if selected != [] {
      var assignments := BuildAssignments(selected, siteId, today);
      NewSiteAssignmentsEffect(repo.dao.Table(), selected, siteId, today);
      repo.InsertWorkerSiteAssignments(assignments);
    }
  }

  /** The add screen's save button: nothing is stored unless the form passes validateInputs. */
  method OnAddSaveClicked(siteDao: SiteDao, repo: AssignmentRepository, form: SiteForm, statusText: string,
                          today: string, selected: seq<Worker>) returns (saved: Option<int>)
    requires siteDao.Valid() && repo.dao.Valid()
    modifies siteDao, repo.dao
    ensures siteDao.Valid() && repo.dao.Valid()
    ensures saved.None? <==>
      (IsBlank(form.name) || IsBlank(form.address) || IsBlank(form.clientName) || IsBlank(statusText))
    ensures saved.None? ==> siteDao.rows == old(siteDao.rows) && repo.dao.Table() == old(repo.dao.Table())
    ensures saved.Some? ==> siteDao.rows == old(siteDao.rows) + [NewSite(form, statusText, today).(siteId := saved.value)]
  {
    var isValid, errors := ValidateAddInputs(form, statusText);
    if isValid {
      var id := SaveSite(siteDao, repo, form, statusText, today, selected);
      saved := Some(id);
    } else {
      saved := None;
    }
  }

  /**
   * The edit screen's updateSite: with the site loaded, the edited record
   * replaces it and the worker assignments are updated; without it nothing
   * is stored.
   */
  method UpdateSite(siteDao: SiteDao, repo: AssignmentRepository, site: Option<Site>, form: SiteForm,
                    status: SiteStatus, current: Option<seq<Worker>>, selected: seq<Worker>, today: string)
    requires siteDao.Valid() && repo.dao.Valid()
    modifies siteDao, repo.dao
    ensures siteDao.Valid() && repo.dao.Valid()
    ensures site.None? ==> siteDao.rows == old(siteDao.rows) && repo.dao.Table() == old(repo.dao.Table())
    ensures site.Some? ==> siteDao.rows == UpdateById(old(siteDao.rows), EditedSite(site.value, form, status), SiteKey)
    ensures site.Some? ==>
      repo.dao.Table() == EditedTable(old(repo.dao.Table()), current, selected, site.value.siteId, today)
  {
    if site.Some? {
      siteDao.UpdateSite(EditedSite(site.value, form, status));
      UpdateWorkerAssignments(repo, site.value.siteId, current, selected, today);
    }
  }

  /** The edit screen's save button: nothing is stored unless the form passes validateInputs. */
  method OnEditSaveClicked(siteDao: SiteDao, repo: AssignmentRepository, site: Option<Site>, form: SiteForm,
                           status: SiteStatus, current: Option<seq<Worker>>, selected: seq<Worker>, today: string)
    returns (isValid: bool)
    requires siteDao.Valid() && repo.dao.Valid()
    modifies siteDao, repo.dao
    ensures siteDao.Valid() && repo.dao.Valid()
    ensures isValid <==> !IsBlank(form.name) && !IsBlank(form.address) && !IsBlank(form.clientName)
    ensures !isValid ==> siteDao.rows == old(siteDao.rows) && repo.dao.Table() == old(repo.dao.Table())
    ensures isValid && site.None? ==> siteDao.rows == old(siteDao.rows) && repo.dao.Table() == old(repo.dao.Table())
    ensures isValid && site.Some? ==>
      && siteDao.rows == UpdateById(old(siteDao.rows), EditedSite(site.value, form, status), SiteKey)
      && repo.dao.Table() == EditedTable(old(repo.dao.Table()), current, selected, site.value.siteId, today)
  {
    var errors;
    isValid, errors := ValidateEditInputs(form);
    if isValid {
      UpdateSite(siteDao, repo, site, form, status, current, selected, today);
    }
  }
}
