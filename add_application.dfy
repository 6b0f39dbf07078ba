/** The new-application form: its defaults, the resume it preselects, and
    the row it inserts on submit. */
module AddApplication {
  import opened Records
  import Page
  import Applications

  const DefaultSource: string := "LinkedIn"
  const SaveFailed: string := "Failed to save application"

  /** The row `handleSubmit` inserts into `applications`. */
  datatype NewApplication = NewApplication(
    userId: string,
    companyName: string,
    jobRole: string,
    location: string,
    jobSource: string,
    dateApplied: string,
    resumeVersionId: Option<string>,
    improvementNotes: string,
    status: string)

  /** The form's fields. */
  datatype FormFields = FormFields(
    companyName: string,
    jobTitle: string,
    location: string,
    source: string,
    dateApplied: string,
    resumeId: Option<string>,
    notes: string)

  /** The inserted row for a user and the form's fields: status is always
      'Applied', the owner is the user, and every field lands in its column,
      the notes in `improvement_notes`. */
  function NewRecord(userId: string, f: FormFields): (r: NewApplication)
    ensures r.status == StatusApplied && r.userId == userId
    ensures r.companyName == f.companyName && r.jobRole == f.jobTitle && r.location == f.location
    ensures r.jobSource == f.source && r.dateApplied == f.dateApplied && r.resumeVersionId == f.resumeId
    ensures r.improvementNotes == f.notes
  {
    NewApplication(userId, f.companyName, f.jobTitle, f.location, f.source, f.dateApplied, f.resumeId, f.notes, StatusApplied)
  }

  /** The message `err.message || 'Failed to save application'`. */
  function SaveError(message: string): (e: string)
    ensures e != ""
    ensures message != "" ==> e == message
    ensures message == "" ==> e == SaveFailed
  {
    if message != "" then message else SaveFailed
  }

  /** The row as the backend stores it, given the id and creation time it assigns. */
  function Stored(r: NewApplication, id: string, createdAt: int): (a: Application)
    ensures a.id == id && a.createdAt == createdAt && a.followUpDate.None?
    ensures a.userId == r.userId && a.status == r.status && a.resumeVersionId == r.resumeVersionId
    ensures a.companyName == r.companyName && a.jobRole == r.jobRole && a.location == r.location
    ensures a.jobSource == r.jobSource && a.dateApplied == r.dateApplied && a.improvementNotes == r.improvementNotes
  {
    Application(id, r.userId, r.companyName, r.jobRole, r.location, r.jobSource, r.dateApplied,
                r.resumeVersionId, r.improvementNotes, r.status, None, createdAt)
  }

  /** A saved row, listed back, carries the form's company, title, location,
      source, date, resume and notes with status 'Applied'; it belongs to its
      user and shows in the applications list exactly under the 'All',
      'Active' and 'Applied' filters. */
  lemma SubmittedRowListed(userId: string, f: FormFields, id: string, createdAt: int, filter: string)
    ensures var a := Stored(NewRecord(userId, f), id, createdAt);
            && a.userId == userId && a.status == StatusApplied
            && a.companyName == f.companyName && a.jobRole == f.jobTitle && a.location == f.location
            && a.jobSource == f.source && a.dateApplied == f.dateApplied
            && a.resumeVersionId == f.resumeId && a.improvementNotes == f.notes
    ensures Applications.Matches(filter, Stored(NewRecord(userId, f), id, createdAt).status) <==>
              filter == Applications.FilterAll || filter == Applications.FilterActive || filter == StatusApplied
  {
  }

  /** The form's state. */
  class AddApplicationForm {
    var loading: bool
    var error: Option<string>
    var fields: FormFields
    var resumes: seq<ResumeRef>

    /** The initial state, with `today` as `new Date().toISOString().split('T')[0]`. */
    constructor (today: string)
      ensures !loading && error == None && resumes == []
      ensures fields == FormFields("", "", "", DefaultSource, today, None, "")
    {
      loading := false;
      error := None;
      fields := FormFields("", "", "", DefaultSource, today, None, "");
      resumes := [];
    }

    /** The effect that fills the resume dropdown; `data` is None for null
        data (errors are ignored). */
    method FetchResumes(user: Option<UserProfile>, data: Option<seq<ResumeRef>>)
      modifies this`resumes, this`fields
      ensures user.None? || data.None? ==> resumes == old(resumes) && fields == old(fields)
      ensures user.Some? && data.Some? ==> resumes == data.value
      ensures user.Some? && data.Some? && |data.value| > 0 ==> fields == old(fields).(resumeId := Some(data.value[0].id))
      ensures user.Some? && data.Some? && |data.value| == 0 ==> fields == old(fields)
    {
      if user.None? {
        return;
      }
      if data.Some? {
        resumes := data.value;
        if |data.value| > 0 {
          fields := fields.(resumeId := Some(data.value[0].id));
        }
      }
    }

    /** `handleSubmit`: returns the row inserted, if any. On success the view
        moves to the applications list; on an error the message is shown
        and the view stays. */
    method Submit(user: Option<UserProfile>, reply: WriteReply, vc: Page.ViewController)
      returns (record: Option<NewApplication>)
      modifies this`loading, this`error, vc
      ensures record.None? <==> user.None?
      ensures record.Some? ==> record.value == NewRecord(user.value.id, old(fields))
      ensures user.None? ==> loading == old(loading) && error == old(error) && vc.view == old(vc.view)
      ensures user.Some? ==> !loading
      ensures user.Some? && reply.Written? ==> error == None && vc.view == Page.ApplicationsPage
      ensures user.Some? && reply.Rejected? ==> error == Some(SaveError(reply.message)) && vc.view == old(vc.view)
    {
      if user.None? {
        return None;
      }
      loading := true;
      error := None;
      record := Some(NewRecord(user.value.id, fields));
      if reply.Rejected? {
        error := Some(SaveError(reply.message));
      } else {
        vc.Navigate("Applications");
      }
      loading := false;
    }
  }
}
