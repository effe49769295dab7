/**
 * The client-side cache of src/store/appStore.js: one state object whose
 * fields are replaced by `set` in every action. Each action changes exactly
 * the fields it names, which the method frames state; the new lists are the
 * values of the pure functions below.
 *
 * A patch (`updatedData` spread over an entry) is modelled with one Option
 * per column: None when the patch has no such key.
 */
module Store {
  import opened Common
  import opened Seqs
  import opened DbSchema

  // ---------------------------------------------------------------------------
  // Patches: `{ ...entry, ...updatedData }`
  // ---------------------------------------------------------------------------

  datatype StudentPatch = StudentPatch(
    id: Option<int>, coach_id: Option<int>, name: Option<string>, email: Option<Option<string>>,
    phone: Option<Option<string>>, sport_or_subject: Option<Option<string>>, batch: Option<Option<string>>,
    enrollment_date: Option<string>, status: Option<string>, monthly_fee: Option<int>,
    created_at: Option<Option<string>>)

  datatype PaymentPatch = PaymentPatch(
    id: Option<int>, student_id: Option<int>, amount: Option<int>, payment_date: Option<string>,
    payment_method: Option<string>, status: Option<string>, month: Option<string>, notes: Option<string>,
    transaction_id: Option<string>, created_at: Option<string>)

  const NoStudentChange := StudentPatch(None, None, None, None, None, None, None, None, None, None, None)

  /** Column by column: `after` carries the patch's value where the patch has the key and the old value where it has not. */
  predicate StudentOverlaid(before: Student, patch: StudentPatch, after: Student)
  {
    && (if patch.id.Some? then after.id == patch.id.value else after.id == before.id)
    && (if patch.coach_id.Some? then after.coach_id == patch.coach_id.value else after.coach_id == before.coach_id)
    && (if patch.name.Some? then after.name == patch.name.value else after.name == before.name)
    && (if patch.email.Some? then after.email == patch.email.value else after.email == before.email)
    && (if patch.phone.Some? then after.phone == patch.phone.value else after.phone == before.phone)
    && (if patch.sport_or_subject.Some? then after.sport_or_subject == patch.sport_or_subject.value else after.sport_or_subject == before.sport_or_subject)
    && (if patch.batch.Some? then after.batch == patch.batch.value else after.batch == before.batch)
    && (if patch.enrollment_date.Some? then after.enrollment_date == patch.enrollment_date.value else after.enrollment_date == before.enrollment_date)
    && (if patch.status.Some? then after.status == patch.status.value else after.status == before.status)
    && (if patch.monthly_fee.Some? then after.monthly_fee == patch.monthly_fee.value else after.monthly_fee == before.monthly_fee)
    && (if patch.created_at.Some? then after.created_at == patch.created_at.value else after.created_at == before.created_at)
  }

  /** The same for a payment and a payment patch. */
  predicate PaymentOverlaid(before: Payment, patch: PaymentPatch, after: Payment)
  {
    && (if patch.id.Some? then after.id == patch.id.value else after.id == before.id)
    && (if patch.student_id.Some? then after.student_id == patch.student_id.value else after.student_id == before.student_id)
    && (if patch.amount.Some? then after.amount == patch.amount.value else after.amount == before.amount)
    && (if patch.payment_date.Some? then after.payment_date == patch.payment_date.value else after.payment_date == before.payment_date)
    && (if patch.payment_method.Some? then after.payment_method == patch.payment_method.value else after.payment_method == before.payment_method)
    && (if patch.status.Some? then after.status == patch.status.value else after.status == before.status)
    && (if patch.month.Some? then after.month == patch.month.value else after.month == before.month)
    && (if patch.notes.Some? then after.notes == patch.notes.value else after.notes == before.notes)
    && (if patch.transaction_id.Some? then after.transaction_id == patch.transaction_id.value else after.transaction_id == before.transaction_id)
    && (if patch.created_at.Some? then after.created_at == patch.created_at.value else after.created_at == before.created_at)
  }

  /** The overlay leaves no freedom: two entries overlaid from the same entry
      and patch are the same entry. */
  lemma StudentOverlayDetermined(before: Student, patch: StudentPatch, a: Student, b: Student)
    requires StudentOverlaid(before, patch, a) && StudentOverlaid(before, patch, b)
    ensures a == b
  {
  }

  lemma PaymentOverlayDetermined(before: Payment, patch: PaymentPatch, a: Payment, b: Payment)
    requires PaymentOverlaid(before, patch, a) && PaymentOverlaid(before, patch, b)
    ensures a == b
  {
  }

  /** The columns the patch carries come from the patch, the others from the entry. */
  function OverlayStudent(s: Student, p: StudentPatch): Student
  {
    Student(p.id.GetOr(s.id), p.coach_id.GetOr(s.coach_id), p.name.GetOr(s.name), p.email.GetOr(s.email),
            p.phone.GetOr(s.phone), p.sport_or_subject.GetOr(s.sport_or_subject), p.batch.GetOr(s.batch),
            p.enrollment_date.GetOr(s.enrollment_date), p.status.GetOr(s.status),
            p.monthly_fee.GetOr(s.monthly_fee), p.created_at.GetOr(s.created_at))
  }

  function OverlayPayment(x: Payment, p: PaymentPatch): Payment
  {
    Payment(p.id.GetOr(x.id), p.student_id.GetOr(x.student_id), p.amount.GetOr(x.amount),
            p.payment_date.GetOr(x.payment_date), p.payment_method.GetOr(x.payment_method),
            p.status.GetOr(x.status), p.month.GetOr(x.month), p.notes.GetOr(x.notes),
            p.transaction_id.GetOr(x.transaction_id), p.created_at.GetOr(x.created_at))
  }

  /** `students.map(s => s.id === id ? { ...s, ...patch } : s)`. */
  function MergeStudent(list: seq<Student>, id: int, patch: StudentPatch): (r: seq<Student>)
    ensures |r| == |list|
    ensures forall i :: 0 <= i < |list| && list[i].id != id ==> r[i] == list[i]
    ensures forall i :: 0 <= i < |list| && list[i].id == id ==>
      StudentOverlaid(list[i], patch, r[i]) && (patch.id.None? ==> r[i].id == id)
    ensures (forall s :: s in list ==> s.id != id) ==> r == list
  {
    seq(|list|, i requires 0 <= i < |list| => if list[i].id == id then OverlayStudent(list[i], patch) else list[i])
  }

  /** `payments.map(p => p.id === id ? { ...p, ...patch } : p)`. */
  function MergePayment(list: seq<Payment>, id: int, patch: PaymentPatch): (r: seq<Payment>)
    ensures |r| == |list|
    ensures forall i :: 0 <= i < |list| && list[i].id != id ==> r[i] == list[i]
    ensures forall i :: 0 <= i < |list| && list[i].id == id ==>
      PaymentOverlaid(list[i], patch, r[i]) && (patch.id.None? ==> r[i].id == id)
    ensures (forall x :: x in list ==> x.id != id) ==> r == list
  {
    seq(|list|, i requires 0 <= i < |list| => if list[i].id == id then OverlayPayment(list[i], patch) else list[i])
  }

  /** Overlaying the same patch twice is the same as overlaying it once. */
  lemma MergeStudentIdempotent(list: seq<Student>, id: int, patch: StudentPatch)
    ensures MergeStudent(MergeStudent(list, id, patch), id, patch) == MergeStudent(list, id, patch)
  {
  }

  /** A patch with no keys leaves every entry as it is. */
  lemma MergeStudentEmptyPatch(list: seq<Student>, id: int)
    ensures MergeStudent(list, id, NoStudentChange) == list
  {
  }

  /** The cached status of a payment agrees with the table after the same
      status is written to both. */
  lemma MergeStatusMatchesTable(list: seq<Payment>, id: int, status: string)
    ensures MergePayment(list, id, PaymentPatch(None, None, None, None, None, Some(status), None, None, None, None))
         == SetPaymentStatus(list, id, status)
  {
  }

  /** `coach?.id || 1`: the signed-in coach's id, or 1 when there is no coach
      or its id is the falsy 0. */
  function CoachIdOr1(coach: Option<Coach>): (r: int)
    ensures r != 0
    ensures coach.Some? && coach.value.id != 0 ==> r == coach.value.id
    ensures coach.None? ==> r == 1
  {
    if coach.Some? && coach.value.id != 0 then coach.value.id else 1
  }

  // ---------------------------------------------------------------------------
  // The store
  // ---------------------------------------------------------------------------

  class AppStore {
    var coach: Option<Coach>
    var students: seq<Student>
    var attendance: seq<AttendanceRecord>
    var payments: seq<Payment>
    var loading: bool
    var error: Option<string>
    var successMessage: Option<string>
    var selectedMonth: string
    var selectedStudent: Option<Student>

    /** The initial state; `today` is `new Date().toISOString()`. */
    constructor (today: string)
      ensures coach == None && students == [] && attendance == [] && payments == []
      ensures !loading && error == None && successMessage == None && selectedStudent == None
      ensures selectedMonth == (if |today| <= 7 then today else today[..7])
    {
      coach, students, attendance, payments := None, [], [], [];
      loading, error, successMessage := false, None, None;
      selectedMonth := if |today| <= 7 then today else today[..7];
      selectedStudent := None;
    }

    method SetCoach(c: Option<Coach>)
      modifies this`coach
      ensures coach == c
    {
      coach := c;
    }

    method SetStudents(list: seq<Student>)
      modifies this`students
      ensures students == list
    {
      students := list;
    }

    method AddStudentToStore(s: Student)
      modifies this`students
      ensures students == old(students) + [s]
    {
      students := students + [s];
    }

    method UpdateStudentInStore(id: int, patch: StudentPatch)
      modifies this`students
      ensures students == MergeStudent(old(students), id, patch)
    {
      students := MergeStudent(students, id, patch);
    }

    method RemoveStudentFromStore(id: int)
      modifies this`students
      ensures students == WithoutStudent(old(students), id)
    {
      students := WithoutStudent(students, id);
    }

    method SetAttendance(list: seq<AttendanceRecord>)
      modifies this`attendance
      ensures attendance == list
    {
      attendance := list;
    }

    method AddAttendanceRecord(a: AttendanceRecord)
      modifies this`attendance
      ensures attendance == old(attendance) + [a]
    {
      attendance := attendance + [a];
    }

    method SetPayments(list: seq<Payment>)
      modifies this`payments
      ensures payments == list
    {
      payments := list;
    }

    method AddPaymentToStore(p: Payment)
      modifies this`payments
      ensures payments == old(payments) + [p]
    {
      payments := payments + [p];
    }

    method UpdatePaymentInStore(id: int, patch: PaymentPatch)
      modifies this`payments
      ensures payments == MergePayment(old(payments), id, patch)
    {
      payments := MergePayment(payments, id, patch);
    }

    method SetLoading(value: bool)
      modifies this`loading
      ensures loading == value
    {
      loading := value;
    }

    method SetError(value: Option<string>)
      modifies this`error
      ensures error == value
    {
      error := value;
    }

    method SetSuccessMessage(message: Option<string>)
      modifies this`successMessage
      ensures successMessage == message
    {
      successMessage := message;
    }

    method SetSelectedMonth(month: string)
      modifies this`selectedMonth
      ensures selectedMonth == month
    {
      selectedMonth := month;
    }

    method SetSelectedStudent(s: Option<Student>)
      modifies this`selectedStudent
      ensures selectedStudent == s
    {
      selectedStudent := s;
    }

    method ClearError()
      modifies this`error
      ensures error == None
    {
      error := None;
    }

    method ClearSuccess()
      modifies this`successMessage
      ensures successMessage == None
    {
      successMessage := None;
    }
  }
}
