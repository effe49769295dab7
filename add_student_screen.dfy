/**
 * The form of src/screens/AddStudentScreen.js: validation, the row handed to
 * `addStudent`, and the entry appended to the store's student list.
 */
module AddStudentScreen {
  import opened Common
  import opened Text
  import opened Numbers
  import opened DbSchema
  import opened Db
  import opened Store

  /** The six text inputs, as typed. */
  datatype StudentForm = StudentForm(
    name: string, email: string, phone: string, sport_or_subject: string, batch: string, monthly_fee: string)

  const EmptyForm := StudentForm("", "", "", "", "", "")

  const NameRequired := "Student name is required"
  const InvalidEmail := "Please enter a valid email address"

  /** `validateForm`: the alert it raises, or None when the form may be
      submitted. The e-mail check looks at the text as typed. */
  function ValidateForm(f: StudentForm): (r: Option<string>)
    ensures r == Some(NameRequired) <==> Trim(f.name) == []
    ensures r == Some(InvalidEmail) <==> Trim(f.name) != [] && f.email != [] && '@' !in f.email
    ensures r.None? <==> Trim(f.name) != [] && (f.email == [] || '@' in f.email)
  {
    if Trim(f.name) == [] then Some(NameRequired)
    else if f.email != [] && '@' !in f.email then Some(InvalidEmail)
    else None
  }

  /** `text.trim() || null`. */
  function TrimmedOrNull(text: string): (r: Option<string>)
    ensures r.None? <==> Trim(text) == []
    ensures r.Some? ==> r.value == Trim(text)
  {
    if Trim(text) == [] then None else Some(Trim(text))
  }

  /** Non-empty and without surrounding white space. */
  predicate Clean(text: string)
  {
    text != [] && Trim(text) == text
  }

  /** The `studentData` object `handleSubmit` builds. */
  function BuildStudentData(f: StudentForm, coach: Option<Coach>): (r: StudentInput)
    ensures r.coach_id == Some(CoachIdOr1(coach)) && r.coach_id.value != 0
    ensures r.name == Some(Trim(f.name))
    ensures r.email == TrimmedOrNull(f.email) && r.phone == TrimmedOrNull(f.phone)
    ensures r.sport_or_subject == TrimmedOrNull(f.sport_or_subject) && r.batch == TrimmedOrNull(f.batch)
    ensures ParseAmount(f.monthly_fee).Some? ==> r.monthly_fee == ParseAmount(f.monthly_fee).value
    ensures ParseAmount(f.monthly_fee).None? ==> r.monthly_fee == 0
  {
    StudentInput(Some(CoachIdOr1(coach)), Some(Trim(f.name)), TrimmedOrNull(f.email), TrimmedOrNull(f.phone),
                 TrimmedOrNull(f.sport_or_subject), TrimmedOrNull(f.batch), ParseAmount(f.monthly_fee).GetOr(0))
  }

  lemma {:induction false} TrimmedOrNullClean(text: string)
    ensures TrimmedOrNull(text).Some? ==> Clean(TrimmedOrNull(text).value)
  {
    TrimIdempotent(text);
  }

  /** A form that passes validation gives a row with both NOT NULL columns
      set, a clean name, and a fee of 0 when the fee field is not a number;
      each optional text is NULL or clean by `TrimmedOrNullClean`. */
  lemma {:induction false} ValidFormBuildsCleanRow(f: StudentForm, coach: Option<Coach>)
    requires ValidateForm(f).None?
    ensures var d := BuildStudentData(f, coach);
      && d.coach_id.Some? && d.coach_id.value != 0
      && d.name.Some? && Clean(d.name.value)
      && (ParseAmount(f.monthly_fee).None? ==> d.monthly_fee == 0)
  {
    TrimIdempotent(f.name);
  }

  /** The e-mail of a form that passes validation is stored either as NULL or
      as a clean text that still contains '@'. */
  lemma {:induction false} ValidFormKeepsEmail(f: StudentForm, coach: Option<Coach>)
    requires ValidateForm(f).None?
    ensures var d := BuildStudentData(f, coach);
      d.email.Some? ==> Clean(d.email.value) && '@' in d.email.value
  {
    TrimmedOrNullClean(f.email);
    if TrimmedOrNull(f.email).Some? {
      TrimKeepsNonSpace(f.email, '@');
    }
  }

  /** The entry `addStudentToStore` receives: the insert id, the submitted
      data, status 'active' and the client's ISO time as enrollment date;
      it has no `created_at`. */
  function CacheEntry(id: int, d: StudentInput, nowIso: string): (r: Student)
    requires d.coach_id.Some? && d.name.Some?
    ensures r.id == id && r.status == "active" && r.enrollment_date == nowIso && r.created_at.None?
  {
    Student(id, d.coach_id.value, d.name.value, d.email, d.phone, d.sport_or_subject, d.batch, nowIso,
            "active", d.monthly_fee, None)
  }

  /** The cached entry equals the inserted row except for the enrollment date
      (client ISO time against the database's CURRENT_TIMESTAMP) and the
      missing `created_at`. */
  lemma CacheEntryMatchesRow(id: int, d: StudentInput, now: string, nowIso: string)
    requires d.coach_id.Some? && d.name.Some?
    ensures CacheEntry(id, d, nowIso)
         == Student(id, d.coach_id.value, d.name.value, d.email, d.phone, d.sport_or_subject, d.batch, now,
                    DefaultStudentStatus, d.monthly_fee, Some(now)).(enrollment_date := nowIso, created_at := None)
  {
  }

  datatype SubmitOutcome = Rejected(message: string) | Added(id: int)

  /** `handleSubmit`: an invalid form changes nothing; a valid one is inserted
      (which cannot fail, both NOT NULL columns being set) and appended to
      the store. */
  method HandleSubmit(f: StudentForm, coach: Option<Coach>, db: Database, store: AppStore, now: string, nowIso: string)
    returns (outcome: SubmitOutcome)
    requires db.Valid() && db.tablesCreated
    modifies db`students, db`nextStudentId, store`students
    ensures db.Valid()
    ensures ValidateForm(f).Some? ==>
      && outcome == Rejected(ValidateForm(f).value)
      && db.students == old(db.students) && db.nextStudentId == old(db.nextStudentId)
      && store.students == old(store.students)
    ensures ValidateForm(f).None? ==>
      var d := BuildStudentData(f, coach);
      && outcome == Added(old(db.nextStudentId))
      && db.students == old(db.students) + [Student(outcome.id, d.coach_id.value, d.name.value, d.email, d.phone,
                                                    d.sport_or_subject, d.batch, now, DefaultStudentStatus,
                                                    d.monthly_fee, Some(now))]
      && store.students == old(store.students) + [CacheEntry(outcome.id, d, nowIso)]
  {
    var message := ValidateForm(f);
    if message.Some? {
      return Rejected(message.value);
    }
    var d := BuildStudentData(f, coach);
    var r := db.AddStudent(d, now);
    store.AddStudentToStore(CacheEntry(r.value, d, nowIso));
    outcome := Added(r.value);
  }
}
