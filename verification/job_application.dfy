/** The job-application schema of backend/src/models/JobApplication.ts:
    the stored record, the request body it is built from, the validators
    (required fields, closed enums, complete interview and follow-up
    entries), the defaults, and the two ways a body becomes a record —
    a full build on create and a top-level `$set` on update. */
module JobApplication {
  import opened Wrappers
  import ErrorHandler
  import opened Validation

  datatype Status = Draft | Applied | Interview | Rejected | Offer | Accepted
  datatype Priority = Low | Medium | High

  const AllStatuses: seq<Status> := [Draft, Applied, Interview, Rejected, Offer, Accepted]

  /** The value stored in the database for each status. */
  function StatusName(s: Status): string {
    match s
    case Draft => "draft"
    case Applied => "applied"
    case Interview => "interview"
    case Rejected => "rejected"
    case Offer => "offer"
    case Accepted => "accepted"
  }

  function PriorityName(p: Priority): string {
    match p
    case Low => "low"
    case Medium => "medium"
    case High => "high"
  }

  /** The enum validator for `status`: a string is accepted exactly when it
      names one of the six statuses. */
  function ParseStatus(t: string): (r: Option<Status>)
    ensures r.Some? ==> StatusName(r.value) == t
    ensures r.None? <==> forall s: Status :: StatusName(s) != t
  {
    if t == "draft" then Some(Draft)
    else if t == "applied" then Some(Applied)
    else if t == "interview" then Some(Interview)
    else if t == "rejected" then Some(Rejected)
    else if t == "offer" then Some(Offer)
    else if t == "accepted" then Some(Accepted)
    else None
  }

  /** The enum validator for `priority`. */
  function ParsePriority(t: string): (r: Option<Priority>)
    ensures r.Some? ==> PriorityName(r.value) == t
    ensures r.None? <==> forall p: Priority :: PriorityName(p) != t
  {
    if t == "low" then Some(Low)
    else if t == "medium" then Some(Medium)
    else if t == "high" then Some(High)
    else None
  }

  /** A calendar date, abstracted to its year, month and day. */
  datatype Date = Date(year: int, month: int, day: int)

  datatype Salary = Salary(min: Option<int>, max: Option<int>, currency: Option<string>)

  datatype Documents = Documents(resume: Option<string>, coverLetter: Option<string>, additionalDocs: seq<string>)

  datatype Contacts = Contacts(
    recruiterName: Option<string>, recruiterEmail: Option<string>, recruiterPhone: Option<string>,
    hiringManagerName: Option<string>, hiringManagerEmail: Option<string>)

  /** A stored interview entry (`kind` is the schema's `type`). */
  datatype InterviewEntry = InterviewEntry(kind: string, date: Date, interviewer: Option<string>, notes: Option<string>, feedback: Option<string>)

  /** A stored follow-up entry (`kind` is the schema's `type`). */
  datatype FollowUpEntry = FollowUpEntry(date: Date, kind: string, notes: Option<string>)

  /** Interview and follow-up entries as they arrive in a request body. */
  datatype InterviewInput = InterviewInput(kind: Option<string>, date: Option<Date>, interviewer: Option<string>, notes: Option<string>, feedback: Option<string>)
  datatype FollowUpInput = FollowUpInput(date: Option<Date>, kind: Option<string>, notes: Option<string>)

  /** A stored job application. `createdAt` and `updatedAt` are clock ticks. */
  datatype Application = Application(
    id: nat,
    userId: nat,
    jobTitle: string,
    company: string,
    jobDescription: Option<string>,
    applicationUrl: Option<string>,
    status: Status,
    priority: Priority,
    salary: Salary,
    location: Option<string>,
    jobType: Option<string>,
    source: Option<string>,
    appliedDate: Option<Date>,
    deadline: Option<Date>,
    notes: Option<string>,
    documents: Documents,
    contacts: Contacts,
    interviews: seq<InterviewEntry>,
    followUps: seq<FollowUpEntry>,
    createdAt: nat,
    updatedAt: nat)

  /** A request body: every schema field may be present or absent; `status`
      and `priority` are raw strings still to be checked against the enums. */
  datatype ApplicationBody = ApplicationBody(
    userId: Option<nat>,
    jobTitle: Option<string>,
    company: Option<string>,
    jobDescription: Option<string>,
    applicationUrl: Option<string>,
    status: Option<string>,
    priority: Option<string>,
    salary: Option<Salary>,
    location: Option<string>,
    jobType: Option<string>,
    source: Option<string>,
    appliedDate: Option<Date>,
    deadline: Option<Date>,
    notes: Option<string>,
    documents: Option<Documents>,
    contacts: Option<Contacts>,
    interviews: Option<seq<InterviewInput>>,
    followUps: Option<seq<FollowUpInput>>)

  const EmptyBody: ApplicationBody :=
    ApplicationBody(None, None, None, None, None, None, None, None, None, None,
                    None, None, None, None, None, None, None, None)

  const DefaultCurrency: string := "USD"

  /** The nested blocks of a new record when the body omits them: the
      document list defaults to empty, every other path is unset. */
  const NoDocuments: Documents := Documents(None, None, [])
  const NoContacts: Contacts := Contacts(None, None, None, None, None)

  /** The record invariant that the validators keep: the required strings are
      non-empty and every entry has a non-empty type (dates are present by
      construction of the entry types). */
  predicate ValidApplication(a: Application) {
    && a.jobTitle != ""
    && a.company != ""
    && (forall i :: 0 <= i < |a.interviews| ==> a.interviews[i].kind != "")
    && (forall i :: 0 <= i < |a.followUps| ==> a.followUps[i].kind != "")
  }

  // ---------------------------------------------------------------- validators

  predicate StatusAccepted(v: Option<string>) {
    v.Some? ==> ParseStatus(v.value).Some?
  }

  predicate PriorityAccepted(v: Option<string>) {
    v.Some? ==> ParsePriority(v.value).Some?
  }

  function StatusViolations(v: Option<string>): seq<FieldError> {
    if StatusAccepted(v) then [] else [NotInEnum("status", v.value)]
  }

  function PriorityViolations(v: Option<string>): seq<FieldError> {
    if PriorityAccepted(v) then [] else [NotInEnum("priority", v.value)]
  }

  predicate InterviewComplete(x: InterviewInput) {
    Present(x.kind) && x.date.Some?
  }

  predicate FollowUpComplete(x: FollowUpInput) {
    x.date.Some? && Present(x.kind)
  }

  /** Every interview entry is checked for `type` then `date`. */
  function InterviewViolations(xs: seq<InterviewInput>): (r: seq<FieldError>)
    ensures r == [] <==> forall i :: 0 <= i < |xs| ==> InterviewComplete(xs[i])
  {
    if xs == [] then []
    else
      RequiredText("type", xs[0].kind)
      + (if xs[0].date.Some? then [] else [Required("date")])
      + InterviewViolations(xs[1..])
  }

  /** Every follow-up entry is checked for `date` then `type`. */
  function FollowUpViolations(xs: seq<FollowUpInput>): (r: seq<FieldError>)
    ensures r == [] <==> forall i :: 0 <= i < |xs| ==> FollowUpComplete(xs[i])
  {
    if xs == [] then []
    else
      (if xs[0].date.Some? then [] else [Required("date")])
      + RequiredText("type", xs[0].kind)
      + FollowUpViolations(xs[1..])
  }

  predicate EntriesAccepted(b: ApplicationBody) {
    && (b.interviews.Some? ==> forall i :: 0 <= i < |b.interviews.value| ==> InterviewComplete(b.interviews.value[i]))
    && (b.followUps.Some? ==> forall i :: 0 <= i < |b.followUps.value| ==> FollowUpComplete(b.followUps.value[i]))
  }

  function EntryViolations(b: ApplicationBody): (r: seq<FieldError>)
    ensures r == [] <==> EntriesAccepted(b)
  {
    (if b.interviews.Some? then InterviewViolations(b.interviews.value) else [])
    + (if b.followUps.Some? then FollowUpViolations(b.followUps.value) else [])
  }

  /** A body that a save of a new document accepts. */
  predicate CreateAcceptable(b: ApplicationBody) {
    && Present(b.jobTitle)
    && Present(b.company)
    && StatusAccepted(b.status)
    && PriorityAccepted(b.priority)
    && EntriesAccepted(b)
  }

  /** All validator failures of a new document, in schema order: every
      violated path is reported, not only the first. */
  function CreateViolations(b: ApplicationBody): (r: seq<FieldError>)
    ensures r == [] <==> CreateAcceptable(b)
    ensures !Present(b.jobTitle) ==> Required("jobTitle") in r
    ensures !Present(b.company) ==> Required("company") in r
    ensures !StatusAccepted(b.status) ==> NotInEnum("status", b.status.value) in r
    ensures !PriorityAccepted(b.priority) ==> NotInEnum("priority", b.priority.value) in r
  {
    RequiredText("jobTitle", b.jobTitle)
    + RequiredText("company", b.company)
    + StatusViolations(b.status)
    + PriorityViolations(b.priority)
    + EntryViolations(b)
  }

  /** A body that a validated update accepts: validators run only on the
      paths the body sets. */
  predicate PatchAcceptable(b: ApplicationBody) {
    && (b.jobTitle.Some? ==> Present(b.jobTitle))
    && (b.company.Some? ==> Present(b.company))
    && StatusAccepted(b.status)
    && PriorityAccepted(b.priority)
    && EntriesAccepted(b)
  }

  function PatchViolations(b: ApplicationBody): (r: seq<FieldError>)
    ensures r == [] <==> PatchAcceptable(b)
    ensures b.jobTitle == Some("") ==> Required("jobTitle") in r
    ensures b.company == Some("") ==> Required("company") in r
    ensures !StatusAccepted(b.status) ==> NotInEnum("status", b.status.value) in r
    ensures !PriorityAccepted(b.priority) ==> NotInEnum("priority", b.priority.value) in r
  {
    (if b.jobTitle.Some? then RequiredText("jobTitle", b.jobTitle) else [])
    + (if b.company.Some? then RequiredText("company", b.company) else [])
    + StatusViolations(b.status)
    + PriorityViolations(b.priority)
    + EntryViolations(b)
  }

  // ------------------------------------------------------------ building

  function ToInterviews(xs: seq<InterviewInput>): (r: seq<InterviewEntry>)
    requires forall i :: 0 <= i < |xs| ==> InterviewComplete(xs[i])
    ensures |r| == |xs|
    ensures forall i :: 0 <= i < |xs| ==>
              && Some(r[i].kind) == xs[i].kind && Some(r[i].date) == xs[i].date && r[i].kind != ""
              && r[i].interviewer == xs[i].interviewer && r[i].notes == xs[i].notes && r[i].feedback == xs[i].feedback
  {
    if xs == [] then []
    else
      var x := xs[0];
      assert InterviewComplete(x);
      [InterviewEntry(x.kind.value, x.date.value, x.interviewer, x.notes, x.feedback)] + ToInterviews(xs[1..])
  }

  function ToFollowUps(xs: seq<FollowUpInput>): (r: seq<FollowUpEntry>)
    requires forall i :: 0 <= i < |xs| ==> FollowUpComplete(xs[i])
    ensures |r| == |xs|
    ensures forall i :: 0 <= i < |xs| ==>
              && Some(r[i].kind) == xs[i].kind && Some(r[i].date) == xs[i].date && r[i].kind != ""
              && r[i].notes == xs[i].notes
  {
    if xs == [] then []
    else
      var x := xs[0];
      assert FollowUpComplete(x);
      [FollowUpEntry(x.date.value, x.kind.value, x.notes)] + ToFollowUps(xs[1..])
  }

  /** The salary block of a new document: the currency defaults to USD. */
  function NewSalary(s: Option<Salary>): (r: Salary)
    ensures r.currency.Some?
    ensures s.Some? ==> r.min == s.value.min && r.max == s.value.max
    ensures s.None? ==> r.min.None? && r.max.None?
    ensures r.currency.value == (if s.Some? && s.value.currency.Some? then s.value.currency.value else DefaultCurrency)
  {
    match s
    case None => Salary(None, None, Some(DefaultCurrency))
    case Some(v) => v.(currency := Some(v.currency.GetOr(DefaultCurrency)))
  }

  /** `new JobApplication(body); save()`: validate, then apply the defaults
      (status draft, priority medium, currency USD, empty blocks and lists)
      and stamp both timestamps. */
  function Build(b: ApplicationBody, owner: nat, id: nat, now: nat): (r: Result<Application, seq<FieldError>>)
    ensures r.Ok? <==> CreateAcceptable(b)
    ensures r.Err? ==> r.error == CreateViolations(b) && r.error != []
    ensures r.Ok? ==>
              && ValidApplication(r.value)
              && r.value.id == id && r.value.userId == owner
              && r.value.createdAt == now && r.value.updatedAt == now
              && r.value.jobTitle == b.jobTitle.value && r.value.company == b.company.value
              && StatusName(r.value.status) == b.status.GetOr("draft")
              && PriorityName(r.value.priority) == b.priority.GetOr("medium")
              && r.value.salary == NewSalary(b.salary)
              && (b.interviews.Some? ==> r.value.interviews == ToInterviews(b.interviews.value))
              && (b.interviews.None? ==> r.value.interviews == [])
              && (b.followUps.Some? ==> r.value.followUps == ToFollowUps(b.followUps.value))
              && (b.followUps.None? ==> r.value.followUps == [])
              && r.value.jobDescription == b.jobDescription && r.value.applicationUrl == b.applicationUrl
              && r.value.location == b.location && r.value.jobType == b.jobType && r.value.source == b.source
              && r.value.appliedDate == b.appliedDate && r.value.deadline == b.deadline
              && r.value.notes == b.notes
              && r.value.documents == b.documents.GetOr(NoDocuments)
              && r.value.contacts == b.contacts.GetOr(NoContacts)
  {
    if !CreateAcceptable(b) then Err(CreateViolations(b))
    else
      Ok(Application(
        id, owner, b.jobTitle.value, b.company.value, b.jobDescription, b.applicationUrl,
        if b.status.Some? then ParseStatus(b.status.value).value else Draft,
        if b.priority.Some? then ParsePriority(b.priority.value).value else Medium,
        NewSalary(b.salary),
        b.location, b.jobType, b.source, b.appliedDate, b.deadline, b.notes,
        b.documents.GetOr(NoDocuments),
        b.contacts.GetOr(NoContacts),
        if b.interviews.Some? then ToInterviews(b.interviews.value) else [],
        if b.followUps.Some? then ToFollowUps(b.followUps.value) else [],
        now, now))
  }

  // ------------------------------------------------------------- updating

  /** The value of an optional path after a `$set`: the body's when it
      carries the path, the stored one otherwise. */
  function SetPath<T>(supplied: Option<T>, stored: T): T {
    supplied.GetOr(stored)
  }

  function SetOptionalPath<T>(supplied: Option<T>, stored: Option<T>): Option<T> {
    if supplied.Some? then supplied else stored
  }

  function SetStatus(supplied: Option<string>, stored: Status): (r: Status)
    requires StatusAccepted(supplied)
  {
    if supplied.Some? then ParseStatus(supplied.value).value else stored
  }

  function SetPriority(supplied: Option<string>, stored: Priority): (r: Priority)
    requires PriorityAccepted(supplied)
  {
    if supplied.Some? then ParsePriority(supplied.value).value else stored
  }

  predicate EntriesTyped(ivs: seq<InterviewEntry>, fus: seq<FollowUpEntry>) {
    && (forall i :: 0 <= i < |ivs| ==> ivs[i].kind != "")
    && (forall i :: 0 <= i < |fus| ==> fus[i].kind != "")
  }

  function SetInterviews(supplied: Option<seq<InterviewInput>>, stored: seq<InterviewEntry>): (r: seq<InterviewEntry>)
    requires supplied.Some? ==> forall i :: 0 <= i < |supplied.value| ==> InterviewComplete(supplied.value[i])
    ensures (forall i :: 0 <= i < |stored| ==> stored[i].kind != "") ==>
              forall i :: 0 <= i < |r| ==> r[i].kind != ""
  {
    if supplied.Some? then ToInterviews(supplied.value) else stored
  }

  function SetFollowUps(supplied: Option<seq<FollowUpInput>>, stored: seq<FollowUpEntry>): (r: seq<FollowUpEntry>)
    requires supplied.Some? ==> forall i :: 0 <= i < |supplied.value| ==> FollowUpComplete(supplied.value[i])
    ensures (forall i :: 0 <= i < |stored| ==> stored[i].kind != "") ==>
              forall i :: 0 <= i < |r| ==> r[i].kind != ""
  {
    if supplied.Some? then ToFollowUps(supplied.value) else stored
  }

  /** `findOneAndUpdate(filter, body, {new: true, runValidators: true})` as
      the route writes it: every top-level path present in the body is set
      wholesale (nested blocks and lists are replaced, not merged), including
      `userId`; then `updatedAt` is stamped. */
  function ApplyPatchAsWritten(rec: Application, b: ApplicationBody, now: nat): (r: Result<Application, seq<FieldError>>)
    ensures r.Ok? <==> PatchAcceptable(b)
    ensures r.Err? ==> r.error == PatchViolations(b) && r.error != []
    ensures r.Ok? ==> r.value.id == rec.id && r.value.createdAt == rec.createdAt && r.value.updatedAt == now
    ensures r.Ok? ==> r.value.userId == b.userId.GetOr(rec.userId)
    ensures r.Ok? && ValidApplication(rec) ==> ValidApplication(r.value)
  {
    if !PatchAcceptable(b) then Err(PatchViolations(b))
    else
      var ivs := SetInterviews(b.interviews, rec.interviews);
      var fus := SetFollowUps(b.followUps, rec.followUps);
      var title := SetPath(b.jobTitle, rec.jobTitle);
      var company := SetPath(b.company, rec.company);
      assert ValidApplication(rec) ==> title != "" && company != "" && EntriesTyped(ivs, fus);
      Ok(rec.(
        userId := SetPath(b.userId, rec.userId),
        jobTitle := title,
        company := company,
        jobDescription := SetOptionalPath(b.jobDescription, rec.jobDescription),
        applicationUrl := SetOptionalPath(b.applicationUrl, rec.applicationUrl),
        status := SetStatus(b.status, rec.status),
        priority := SetPriority(b.priority, rec.priority),
        salary := SetPath(b.salary, rec.salary),
        location := SetOptionalPath(b.location, rec.location),
        jobType := SetOptionalPath(b.jobType, rec.jobType),
        source := SetOptionalPath(b.source, rec.source),
        appliedDate := SetOptionalPath(b.appliedDate, rec.appliedDate),
        deadline := SetOptionalPath(b.deadline, rec.deadline),
        notes := SetOptionalPath(b.notes, rec.notes),
        documents := SetPath(b.documents, rec.documents),
        contacts := SetPath(b.contacts, rec.contacts),
        interviews := ivs,
        followUps := fus,
        updatedAt := now))
  }

  /** The update with the owner kept: a `userId` in the body is ignored, as
      it is on create. This is the update the application store performs. */
  function ApplyPatch(rec: Application, b: ApplicationBody, now: nat): (r: Result<Application, seq<FieldError>>)
    ensures r.Ok? <==> PatchAcceptable(b)
    ensures r.Ok? ==> r.value.userId == rec.userId
    ensures r.Ok? ==> r.value == ApplyPatchAsWritten(rec, b, now).value.(userId := rec.userId)
    ensures r.Err? ==> r == ApplyPatchAsWritten(rec, b, now)
  {
    ApplyPatchAsWritten(rec, b.(userId := None), now)
  }

  /** As written, an update whose body names another account moves the
      record into that account: it leaves the caller's scope. */
  lemma UpdateAsWrittenReassignsOwner(rec: Application, other: nat, now: nat)
    requires other != rec.userId
    ensures ApplyPatchAsWritten(rec, EmptyBody.(userId := Some(other)), now).Ok?
    ensures ApplyPatchAsWritten(rec, EmptyBody.(userId := Some(other)), now).value.userId == other
    ensures ApplyPatchAsWritten(rec, EmptyBody.(userId := Some(other)), now).value.userId != rec.userId
  {
  }

  /** An update sets exactly the paths its body carries: a path the body
      omits keeps its stored value, and one it carries takes the body's. */
  lemma PatchSetsOnlySuppliedFields(rec: Application, b: ApplicationBody, now: nat)
    requires PatchAcceptable(b)
    ensures var a := ApplyPatch(rec, b, now).value;
      && a.id == rec.id && a.userId == rec.userId && a.createdAt == rec.createdAt && a.updatedAt == now
      && (b.jobTitle.None? ==> a.jobTitle == rec.jobTitle)
      && (b.jobTitle.Some? ==> a.jobTitle == b.jobTitle.value)
      && (b.company.None? ==> a.company == rec.company)
      && (b.company.Some? ==> a.company == b.company.value)
      && (b.status.None? ==> a.status == rec.status)
      && (b.status.Some? ==> StatusName(a.status) == b.status.value)
      && (b.priority.None? ==> a.priority == rec.priority)
      && (b.priority.Some? ==> PriorityName(a.priority) == b.priority.value)
      && (b.salary.None? ==> a.salary == rec.salary)
      && (b.salary.Some? ==> a.salary == b.salary.value)
      && (b.documents.None? ==> a.documents == rec.documents)
      && (b.documents.Some? ==> a.documents == b.documents.value)
      && (b.contacts.None? ==> a.contacts == rec.contacts)
      && (b.contacts.Some? ==> a.contacts == b.contacts.value)
      && (b.interviews.None? ==> a.interviews == rec.interviews)
      && (b.interviews.Some? ==> a.interviews == ToInterviews(b.interviews.value))
      && (b.followUps.None? ==> a.followUps == rec.followUps)
      && (b.followUps.Some? ==> a.followUps == ToFollowUps(b.followUps.value))
      && a.jobDescription == (if b.jobDescription.Some? then b.jobDescription else rec.jobDescription)
      && a.applicationUrl == (if b.applicationUrl.Some? then b.applicationUrl else rec.applicationUrl)
      && a.location == (if b.location.Some? then b.location else rec.location)
      && a.jobType == (if b.jobType.Some? then b.jobType else rec.jobType)
      && a.source == (if b.source.Some? then b.source else rec.source)
      && a.appliedDate == (if b.appliedDate.Some? then b.appliedDate else rec.appliedDate)
      && a.deadline == (if b.deadline.Some? then b.deadline else rec.deadline)
      && a.notes == (if b.notes.Some? then b.notes else rec.notes)
  {
  }

  /** An update whose body carries no path changes nothing but `updatedAt`. */
  lemma EmptyPatchTouchesOnlyUpdatedAt(rec: Application, now: nat)
    ensures ApplyPatch(rec, EmptyBody, now) == Ok(rec.(updatedAt := now))
  {
  }

  /** Applying the same update twice gives the same record as applying it
      once. */
  lemma PatchIdempotent(rec: Application, b: ApplicationBody, now: nat)
    requires PatchAcceptable(b)
    ensures ApplyPatch(ApplyPatch(rec, b, now).value, b, now) == ApplyPatch(rec, b, now)
  {
  }

  /** The enum names round-trip through the validators. */
  lemma {:induction false} EnumNamesRoundTrip(s: Status, p: Priority)
    ensures ParseStatus(StatusName(s)) == Some(s)
    ensures ParsePriority(PriorityName(p)) == Some(p)
  {
    match s
    case Draft =>
    case Applied =>
    case Interview =>
    case Rejected =>
    case Offer =>
    case Accepted =>
  }
}
