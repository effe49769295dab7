/**
 * The five tables created by `initializeDatabase` (src/database/db.js) and the
 * effect of each INSERT / UPDATE / DELETE statement on the rows of one table.
 *
 * A table is a sequence of rows in rowid order. Ids come from each table's
 * AUTOINCREMENT sequence. The FOREIGN KEY clauses are declared but SQLite does
 * not enforce them (the foreign_keys pragma is never switched on), so nothing
 * here checks that a student's coach or a payment's student exists, and
 * deleting a student leaves its attendance and payment rows in place.
 */
module DbSchema {
  import opened Common
  import opened Seqs

  // ---------------------------------------------------------------------------
  // Rows
  // ---------------------------------------------------------------------------

  datatype Coach = Coach(
    id: int, name: string, email: string, phone: Option<string>,
    specialization: Option<string>, business_name: Option<string>, created_at: string)

  /** `created_at` is None only in an in-memory copy that was built without that key. */
  datatype Student = Student(
    id: int, coach_id: int, name: string, email: Option<string>, phone: Option<string>,
    sport_or_subject: Option<string>, batch: Option<string>, enrollment_date: string,
    status: string, monthly_fee: int, created_at: Option<string>)

  datatype AttendanceRecord = AttendanceRecord(
    id: int, student_id: int, date: string, status: string, notes: string, created_at: string)

  /** `amount` is in paise. */
  datatype Payment = Payment(
    id: int, student_id: int, amount: int, payment_date: string, payment_method: string,
    status: string, month: string, notes: string, transaction_id: string, created_at: string)

  datatype PaymentMethod = PaymentMethod(
    id: int, coach_id: int, method_type: string, provider: string, api_key: string,
    is_active: int, created_at: string)

  // Column defaults that take effect because the INSERT statements omit the column.
  const DefaultStudentStatus := "active"
  const DefaultIsActive := 1

  // ---------------------------------------------------------------------------
  // What the callers pass in (a JavaScript value may be null or undefined)
  // ---------------------------------------------------------------------------

  datatype CoachInput = CoachInput(
    name: Option<string>, email: Option<string>, phone: Option<string>,
    specialization: Option<string>, business_name: Option<string>)

  datatype StudentInput = StudentInput(
    coach_id: Option<int>, name: Option<string>, email: Option<string>, phone: Option<string>,
    sport_or_subject: Option<string>, batch: Option<string>, monthly_fee: int)

  /** The seven columns `updateStudent` overwrites. */
  datatype StudentUpdate = StudentUpdate(
    name: Option<string>, email: Option<string>, phone: Option<string>,
    sport_or_subject: Option<string>, batch: Option<string>, monthly_fee: int, status: string)

  /** `student_id` / `amount` are None when `parseInt` / `parseFloat` gave NaN, which binds as NULL. */
  datatype PaymentInput = PaymentInput(
    student_id: Option<int>, amount: Option<int>, payment_method: string, status: string,
    month: string, notes: string, transaction_id: string)

  datatype MethodInput = MethodInput(method_type: string, provider: string, api_key: string)

  datatype MethodUpdate = MethodUpdate(method_type: string, provider: string, api_key: string, is_active: int)

  // ---------------------------------------------------------------------------
  // Table invariants
  // ---------------------------------------------------------------------------

  /** Primary keys are distinct and below the table's AUTOINCREMENT counter. */
  ghost predicate IdsUniqueBelow<T(!new)>(rows: seq<T>, id: T -> int, next: int)
  {
    DistinctKeys(rows, id) && forall x :: x in rows ==> id(x) < next
  }

  // The primary key of each table
  function CoachKey(c: Coach): int { c.id }
  function StudentKey(s: Student): int { s.id }
  function AttendanceKey(a: AttendanceRecord): int { a.id }
  function PaymentKey(p: Payment): int { p.id }
  function MethodKey(m: PaymentMethod): int { m.id }

  predicate EmailTaken(coaches: seq<Coach>, email: string)
  {
    exists c :: c in coaches && c.email == email
  }

  /** `email TEXT UNIQUE`. */
  ghost predicate EmailsUnique(coaches: seq<Coach>)
  {
    forall i, j :: 0 <= i < j < |coaches| ==> coaches[i].email != coaches[j].email
  }

  function KeyIs(studentId: int, date: string): AttendanceRecord -> bool
  {
    (a: AttendanceRecord) => a.student_id == studentId && a.date == date
  }

  function KeyIsNot(studentId: int, date: string): AttendanceRecord -> bool
  {
    (a: AttendanceRecord) => !(a.student_id == studentId && a.date == date)
  }

  /** The rows stored for one (student_id, date) pair. */
  function RowsFor(rows: seq<AttendanceRecord>, studentId: int, date: string): seq<AttendanceRecord>
  {
    Filter(rows, KeyIs(studentId, date))
  }

  /** `UNIQUE(student_id, date)`. */
  ghost predicate AttendanceKeysUnique(rows: seq<AttendanceRecord>)
  {
    forall s, d :: |RowsFor(rows, s, d)| <= 1
  }

  // ---------------------------------------------------------------------------
  // Effect of the writing statements on one table
  // ---------------------------------------------------------------------------

  /** `INSERT OR REPLACE INTO attendance …`: the rows that clash with `rec` on
      (student_id, date) are deleted and `rec` is inserted as the newest row. */
  function UpsertAttendance(rows: seq<AttendanceRecord>, rec: AttendanceRecord): (r: seq<AttendanceRecord>)
    ensures RowsFor(r, rec.student_id, rec.date) == [rec]
    ensures forall s, d :: (s != rec.student_id || d != rec.date) ==> RowsFor(r, s, d) == RowsFor(rows, s, d)
    ensures r != [] && r[|r| - 1] == rec
    ensures forall a :: a in rows && a !in r ==> a.student_id == rec.student_id && a.date == rec.date
  {
    var kept := Filter(rows, KeyIsNot(rec.student_id, rec.date));
    var r := kept + [rec];
    FilterAppend(kept, [rec], KeyIs(rec.student_id, rec.date));
    FilterNone(kept, KeyIs(rec.student_id, rec.date));
    assert Filter([rec], KeyIs(rec.student_id, rec.date)) == [rec] by {
      assert [rec][1..] == [];
    }
    forall s, d | s != rec.student_id || d != rec.date
      ensures RowsFor(r, s, d) == RowsFor(rows, s, d)
    {
      FilterAppend(kept, [rec], KeyIs(s, d));
      assert [rec][1..] == [];
      assert Filter([rec], KeyIs(s, d)) == [];
      FilterOfFilter(rows, KeyIsNot(rec.student_id, rec.date), KeyIs(s, d));
    }
    r
  }

  /** The row `updateStudent` writes: the seven mutable columns replaced, the rest kept. */
  function UpdatedStudent(s: Student, name: string, data: StudentUpdate): Student
  {
    s.(name := name, email := data.email, phone := data.phone, sport_or_subject := data.sport_or_subject,
       batch := data.batch, monthly_fee := data.monthly_fee, status := data.status)
  }

  /** `UPDATE students SET name = ?, …, status = ? WHERE id = ?`. */
  function UpdateStudentRows(rows: seq<Student>, id: int, name: string, data: StudentUpdate): (r: seq<Student>)
    ensures |r| == |rows|
    ensures forall i :: 0 <= i < |rows| && rows[i].id != id ==> r[i] == rows[i]
    ensures forall i :: 0 <= i < |rows| && rows[i].id == id ==>
              && r[i].id == id && r[i].coach_id == rows[i].coach_id
              && r[i].enrollment_date == rows[i].enrollment_date && r[i].created_at == rows[i].created_at
              && r[i].name == name && r[i].email == data.email && r[i].phone == data.phone
              && r[i].sport_or_subject == data.sport_or_subject && r[i].batch == data.batch
              && r[i].monthly_fee == data.monthly_fee && r[i].status == data.status
  {
    seq(|rows|, i requires 0 <= i < |rows| => if rows[i].id == id then UpdatedStudent(rows[i], name, data) else rows[i])
  }

  function IdIsNot(id: int): Student -> bool
  {
    (s: Student) => s.id != id
  }

  /** The students other than the one with `id`, in their order: what
      `DELETE FROM students WHERE id = ?` leaves, and what the cache keeps
      after `removeStudentFromStore`. */
  function WithoutStudent(rows: seq<Student>, id: int): (r: seq<Student>)
    ensures forall s :: s in r <==> s in rows && s.id != id
    ensures IsSubsequence(r, rows)
    ensures (forall s :: s in rows ==> s.id != id) ==> r == rows
  {
    var r := Filter(rows, IdIsNot(id));
    FilterIsSubsequence(rows, IdIsNot(id));
    if forall s :: s in rows ==> s.id != id then
      FilterAll(rows, IdIsNot(id));
      r
    else r
  }

  /** Removing a student a second time changes nothing. */
  lemma {:induction false} WithoutStudentIdempotent(rows: seq<Student>, id: int)
    ensures WithoutStudent(WithoutStudent(rows, id), id) == WithoutStudent(rows, id)
  {
    FilterIdempotent(rows, IdIsNot(id));
  }

  /** `UPDATE payments SET status = ? WHERE id = ?`: only `status` changes, only in that row. */
  function SetPaymentStatus(rows: seq<Payment>, id: int, status: string): (r: seq<Payment>)
    ensures |r| == |rows|
    ensures forall i :: 0 <= i < |rows| ==> r[i].(status := rows[i].status) == rows[i]
    ensures forall i :: 0 <= i < |rows| ==> r[i].status == if rows[i].id == id then status else rows[i].status
  {
    seq(|rows|, i requires 0 <= i < |rows| => if rows[i].id == id then rows[i].(status := status) else rows[i])
  }

  /** `UPDATE payment_methods SET method_type = ?, provider = ?, api_key = ?, is_active = ? WHERE id = ?`. */
  function UpdateMethodRows(rows: seq<PaymentMethod>, id: int, data: MethodUpdate): (r: seq<PaymentMethod>)
    ensures |r| == |rows|
    ensures forall i :: 0 <= i < |rows| ==>
              r[i].id == rows[i].id && r[i].coach_id == rows[i].coach_id && r[i].created_at == rows[i].created_at
    ensures forall i :: 0 <= i < |rows| && rows[i].id != id ==> r[i] == rows[i]
    ensures forall i :: 0 <= i < |rows| && rows[i].id == id ==>
              r[i].method_type == data.method_type && r[i].provider == data.provider
              && r[i].api_key == data.api_key && r[i].is_active == data.is_active
  {
    seq(|rows|, i requires 0 <= i < |rows| =>
      if rows[i].id == id
      then rows[i].(method_type := data.method_type, provider := data.provider, api_key := data.api_key, is_active := data.is_active)
      else rows[i])
  }

  /** Number of rows a `WHERE id = ?` statement touches. */
  function RowsWithId<T(!new)>(rows: seq<T>, id: T -> int, wanted: int): nat
  {
    |Filter(rows, (x: T) => id(x) == wanted)|
  }

  // ---------------------------------------------------------------------------
  // Laws of the upsert
  // ---------------------------------------------------------------------------

  /** Marking the same (student, date) twice leaves exactly the second mark. */
  lemma UpsertLastWins(rows: seq<AttendanceRecord>, first: AttendanceRecord, second: AttendanceRecord)
    requires first.student_id == second.student_id && first.date == second.date
    ensures RowsFor(UpsertAttendance(UpsertAttendance(rows, first), second), second.student_id, second.date) == [second]
    ensures forall s, d :: (s != second.student_id || d != second.date) ==>
              RowsFor(UpsertAttendance(UpsertAttendance(rows, first), second), s, d) == RowsFor(rows, s, d)
  {
  }

  /** The upsert keeps `UNIQUE(student_id, date)`. */
  lemma {:induction false} UpsertKeepsKeysUnique(rows: seq<AttendanceRecord>, rec: AttendanceRecord)
    requires AttendanceKeysUnique(rows)
    ensures AttendanceKeysUnique(UpsertAttendance(rows, rec))
  {
    var r := UpsertAttendance(rows, rec);
    forall s, d ensures |RowsFor(r, s, d)| <= 1 {
      if s != rec.student_id || d != rec.date {
        assert RowsFor(r, s, d) == RowsFor(rows, s, d);
      }
    }
  }
}
