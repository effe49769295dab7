/**
 * The shared database handle of src/database/db.js: five tables, each with its
 * AUTOINCREMENT counter, changed in place by the writing operations. Each
 * writer states the new contents of the one table it touches (the frames say
 * that no other table changes) and keeps the schema's keys unique. The value
 * a writer resolves with is `insertId` for an INSERT and `rowsAffected` for an
 * UPDATE or DELETE; a statement that violates a constraint fails with the
 * error SQLite reports and leaves the table as it was.
 *
 * `CURRENT_TIMESTAMP` is the parameter `now`.
 */
module Db {
  import opened Common
  import opened Seqs
  import opened DbSchema

  class Database {
    /** The CREATE TABLE statements have run. */
    var tablesCreated: bool
    var coaches: seq<Coach>
    var students: seq<Student>
    var attendance: seq<AttendanceRecord>
    var payments: seq<Payment>
    var paymentMethods: seq<PaymentMethod>
    // The id the next row inserted into each table receives.
    var nextCoachId: int
    var nextStudentId: int
    var nextAttendanceId: int
    var nextPaymentId: int
    var nextMethodId: int

    /** PRIMARY KEY, `email UNIQUE` and `UNIQUE(student_id, date)`. */
    ghost predicate Valid()
      reads this
    {
      && IdsUniqueBelow(coaches, CoachKey, nextCoachId) && EmailsUnique(coaches)
      && IdsUniqueBelow(students, StudentKey, nextStudentId)
      && IdsUniqueBelow(attendance, AttendanceKey, nextAttendanceId) && AttendanceKeysUnique(attendance)
      && IdsUniqueBelow(payments, PaymentKey, nextPaymentId)
      && IdsUniqueBelow(paymentMethods, MethodKey, nextMethodId)
    }

    /** `SQLite.openDatabase` on a new file: no table exists yet. */
    constructor ()
      ensures Valid() && !tablesCreated
      ensures coaches == [] && students == [] && attendance == [] && payments == [] && paymentMethods == []
      ensures nextCoachId == 1 && nextStudentId == 1 && nextAttendanceId == 1 && nextPaymentId == 1 && nextMethodId == 1
    {
      tablesCreated := false;
      coaches, students, attendance, payments, paymentMethods := [], [], [], [], [];
      nextCoachId, nextStudentId, nextAttendanceId, nextPaymentId, nextMethodId := 1, 1, 1, 1, 1;
    }

    /** `initializeDatabase`: every statement is `CREATE TABLE IF NOT EXISTS`,
        so the tables are created empty the first time and the call changes
        nothing afterwards. */
    method Initialize()
      requires Valid()
      modifies this
      ensures Valid() && tablesCreated
      ensures old(tablesCreated) ==> unchanged(this)
      ensures !old(tablesCreated) ==>
        && coaches == [] && students == [] && attendance == [] && payments == [] && paymentMethods == []
        && nextCoachId == 1 && nextStudentId == 1 && nextAttendanceId == 1 && nextPaymentId == 1 && nextMethodId == 1
    {
      if !tablesCreated {
        tablesCreated := true;
        coaches, students, attendance, payments, paymentMethods := [], [], [], [], [];
        nextCoachId, nextStudentId, nextAttendanceId, nextPaymentId, nextMethodId := 1, 1, 1, 1, 1;
      }
    }

    // -------------------------------------------------------------------------
    // Coaches
    // -------------------------------------------------------------------------

    /** `addCoach`: name and email are NOT NULL (checked in column order), and
        email is UNIQUE. */
    method AddCoach(data: CoachInput, now: string) returns (r: Result<int>)
      requires Valid() && tablesCreated
      modifies this`coaches, this`nextCoachId
      ensures Valid()
      ensures r == if data.name.None? then Err(NotNullViolation("coaches.name"))
                   else if data.email.None? then Err(NotNullViolation("coaches.email"))
                   else if EmailTaken(old(coaches), data.email.value) then Err(UniqueViolation("coaches.email"))
                   else Ok(old(nextCoachId))
      ensures r.Err? ==> coaches == old(coaches) && nextCoachId == old(nextCoachId)
      ensures r.Ok? ==>
        && coaches == old(coaches) + [Coach(r.value, data.name.value, data.email.value, data.phone,
                                            data.specialization, data.business_name, now)]
        && nextCoachId == old(nextCoachId) + 1
    {
      if data.name.None? {
        return Err(NotNullViolation("coaches.name"));
      }
      if data.email.None? {
        return Err(NotNullViolation("coaches.email"));
      }
      if EmailTaken(coaches, data.email.value) {
        return Err(UniqueViolation("coaches.email"));
      }
      var row := Coach(nextCoachId, data.name.value, data.email.value, data.phone,
                       data.specialization, data.business_name, now);
      DistinctAppend(coaches, row, CoachKey);
      coaches := coaches + [row];
      r := Ok(nextCoachId);
      nextCoachId := nextCoachId + 1;
    }

    // -------------------------------------------------------------------------
    // Students
    // -------------------------------------------------------------------------

    /** `addStudent`: coach_id and name are NOT NULL; status, enrollment_date
        and created_at take their defaults. */
    method AddStudent(data: StudentInput, now: string) returns (r: Result<int>)
      requires Valid() && tablesCreated
      modifies this`students, this`nextStudentId
      ensures Valid()
      ensures r == if data.coach_id.None? then Err(NotNullViolation("students.coach_id"))
                   else if data.name.None? then Err(NotNullViolation("students.name"))
                   else Ok(old(nextStudentId))
      ensures r.Err? ==> students == old(students) && nextStudentId == old(nextStudentId)
      ensures r.Ok? ==>
        && students == old(students) + [Student(r.value, data.coach_id.value, data.name.value, data.email,
                                                data.phone, data.sport_or_subject, data.batch, now,
                                                DefaultStudentStatus, data.monthly_fee, Some(now))]
        && nextStudentId == old(nextStudentId) + 1
    {
      if data.coach_id.None? {
        return Err(NotNullViolation("students.coach_id"));
      }
      if data.name.None? {
        return Err(NotNullViolation("students.name"));
      }
      var row := Student(nextStudentId, data.coach_id.value, data.name.value, data.email, data.phone,
                         data.sport_or_subject, data.batch, now, DefaultStudentStatus, data.monthly_fee, Some(now));
      DistinctAppend(students, row, StudentKey);
      students := students + [row];
      r := Ok(nextStudentId);
      nextStudentId := nextStudentId + 1;
    }

    /** `updateStudent`: the seven mutable columns of the row with that id are
        overwritten. A null name violates NOT NULL only when a row matches. */
    method UpdateStudent(id: int, data: StudentUpdate) returns (r: Result<nat>)
      requires Valid() && tablesCreated
      modifies this`students
      ensures Valid()
      ensures r == if data.name.None? && exists s :: s in old(students) && s.id == id
                   then Err(NotNullViolation("students.name"))
                   else Ok(RowsWithId(old(students), StudentKey, id))
      ensures r.Ok? && data.name.Some? ==> students == UpdateStudentRows(old(students), id, data.name.value, data)
      ensures r.Err? || data.name.None? ==> students == old(students)
    {
      if data.name.None? && exists s :: s in students && s.id == id {
        return Err(NotNullViolation("students.name"));
      }
      r := Ok(RowsWithId(students, StudentKey, id));
      if data.name.Some? {
        var updated := UpdateStudentRows(students, id, data.name.value, data);
        assert forall i :: 0 <= i < |students| ==> updated[i].id == students[i].id;
        assert forall x :: x in updated ==> exists i :: 0 <= i < |updated| && updated[i] == x;
        students := updated;
      }
    }

    /** `deleteStudent`: the row goes; attendance and payment rows that refer
        to it stay, since foreign keys are not enforced. */
    method DeleteStudent(id: int) returns (affected: nat)
      requires Valid() && tablesCreated
      modifies this`students
      ensures Valid()
      ensures students == WithoutStudent(old(students), id)
      ensures affected == |old(students)| - |students|
    {
      var kept := WithoutStudent(students, id);
      FilterKeepsDistinct(students, IdIsNot(id), StudentKey);
      assert kept == Filter(students, IdIsNot(id));
      affected := |students| - |kept|;
      students := kept;
    }

    // -------------------------------------------------------------------------
    // Attendance
    // -------------------------------------------------------------------------

    /** `markAttendance(studentId, date, status, notes = '')`: an
        `INSERT OR REPLACE` keyed on `UNIQUE(student_id, date)`. */
    method MarkAttendance(studentId: int, date: string, status: string, now: string, notes: string := "")
      returns (insertId: int)
      requires Valid() && tablesCreated
      modifies this`attendance, this`nextAttendanceId
      ensures Valid()
      ensures insertId == old(nextAttendanceId) && nextAttendanceId == insertId + 1
      ensures attendance == UpsertAttendance(old(attendance), AttendanceRecord(insertId, studentId, date, status, notes, now))
    {
      var row := AttendanceRecord(nextAttendanceId, studentId, date, status, notes, now);
      var kept := Filter(attendance, KeyIsNot(studentId, date));
      FilterKeepsDistinct(attendance, KeyIsNot(studentId, date), AttendanceKey);
      DistinctAppend(kept, row, AttendanceKey);
      UpsertKeepsKeysUnique(attendance, row);
      attendance := UpsertAttendance(attendance, row);
      insertId := nextAttendanceId;
      nextAttendanceId := nextAttendanceId + 1;
    }

    // -------------------------------------------------------------------------
    // Payments
    // -------------------------------------------------------------------------

    /** `addPayment`: student_id and amount are NOT NULL (a NaN from the form
        arrives as NULL); payment_date and created_at take their defaults. */
    method AddPayment(data: PaymentInput, now: string) returns (r: Result<int>)
      requires Valid() && tablesCreated
      modifies this`payments, this`nextPaymentId
      ensures Valid()
      ensures r == if data.student_id.None? then Err(NotNullViolation("payments.student_id"))
                   else if data.amount.None? then Err(NotNullViolation("payments.amount"))
                   else Ok(old(nextPaymentId))
      ensures r.Err? ==> payments == old(payments) && nextPaymentId == old(nextPaymentId)
      ensures r.Ok? ==>
        && payments == old(payments) + [Payment(r.value, data.student_id.value, data.amount.value, now,
                                                data.payment_method, data.status, data.month, data.notes,
                                                data.transaction_id, now)]
        && nextPaymentId == old(nextPaymentId) + 1
    {
      if data.student_id.None? {
        return Err(NotNullViolation("payments.student_id"));
      }
      if data.amount.None? {
        return Err(NotNullViolation("payments.amount"));
      }
      var row := Payment(nextPaymentId, data.student_id.value, data.amount.value, now, data.payment_method,
                         data.status, data.month, data.notes, data.transaction_id, now);
      DistinctAppend(payments, row, PaymentKey);
      payments := payments + [row];
      r := Ok(nextPaymentId);
      nextPaymentId := nextPaymentId + 1;
    }

    /** `updatePaymentStatus`. */
    method UpdatePaymentStatus(id: int, status: string) returns (affected: nat)
      requires Valid() && tablesCreated
      modifies this`payments
      ensures Valid()
      ensures payments == SetPaymentStatus(old(payments), id, status)
      ensures affected == RowsWithId(old(payments), PaymentKey, id)
    {
      affected := RowsWithId(payments, PaymentKey, id);
      var updated := SetPaymentStatus(payments, id, status);
      assert forall i :: 0 <= i < |payments| ==> updated[i].id == payments[i].id;
      assert forall x :: x in updated ==> exists i :: 0 <= i < |updated| && updated[i] == x;
      payments := updated;
    }

    // -------------------------------------------------------------------------
    // Payment methods
    // -------------------------------------------------------------------------

    /** `addPaymentMethod`: coach_id is NOT NULL; is_active starts at 1. */
    method AddPaymentMethod(coachId: Option<int>, data: MethodInput, now: string) returns (r: Result<int>)
      requires Valid() && tablesCreated
      modifies this`paymentMethods, this`nextMethodId
      ensures Valid()
      ensures r == if coachId.None? then Err(NotNullViolation("payment_methods.coach_id")) else Ok(old(nextMethodId))
      ensures r.Err? ==> paymentMethods == old(paymentMethods) && nextMethodId == old(nextMethodId)
      ensures r.Ok? ==>
        && paymentMethods == old(paymentMethods) + [PaymentMethod(r.value, coachId.value, data.method_type,
                                                                  data.provider, data.api_key, DefaultIsActive, now)]
        && nextMethodId == old(nextMethodId) + 1
    {
      if coachId.None? {
        return Err(NotNullViolation("payment_methods.coach_id"));
      }
      var row := PaymentMethod(nextMethodId, coachId.value, data.method_type, data.provider, data.api_key,
                               DefaultIsActive, now);
      DistinctAppend(paymentMethods, row, MethodKey);
      paymentMethods := paymentMethods + [row];
      r := Ok(nextMethodId);
      nextMethodId := nextMethodId + 1;
    }

    /** `updatePaymentMethod`. */
    method UpdatePaymentMethod(id: int, data: MethodUpdate) returns (affected: nat)
      requires Valid() && tablesCreated
      modifies this`paymentMethods
      ensures Valid()
      ensures paymentMethods == UpdateMethodRows(old(paymentMethods), id, data)
      ensures affected == RowsWithId(old(paymentMethods), MethodKey, id)
    {
      affected := RowsWithId(paymentMethods, MethodKey, id);
      var updated := UpdateMethodRows(paymentMethods, id, data);
      assert forall x :: x in updated ==> exists i :: 0 <= i < |updated| && updated[i] == x;
      paymentMethods := updated;
    }
  }
}
