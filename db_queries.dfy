/**
 * The SELECT statements of src/database/db.js as functions of the tables they
 * read. A WHERE clause is a Filter, a JOIN is Seqs.Join with the WHERE clause
 * folded into its condition, ORDER BY is Ordering.SortBy, and GROUP BY with
 * COUNT/SUM is computed explicitly.
 */
module DbQueries {
  import opened Common
  import opened Seqs
  import opened Text
  import opened Ordering
  import opened DbSchema

  // ---------------------------------------------------------------------------
  // Shapes of the joined and aggregated rows
  // ---------------------------------------------------------------------------

  /** `SELECT a.*, s.name`. */
  datatype AttendanceWithName = AttendanceWithName(record: AttendanceRecord, name: string)

  /** `SELECT p.*, s.name as student_name`. */
  datatype PaymentWithStudent = PaymentWithStudent(payment: Payment, student_name: string)

  /** `SELECT SUM(amount) as total, COUNT(*) as count`: SUM of no rows is NULL. */
  datatype PaymentSummary = PaymentSummary(total: Option<int>, count: nat)

  /** `SELECT status, COUNT(*) as count … GROUP BY status`. */
  datatype StatusCount = StatusCount(status: string, count: nat)

  // Sort keys
  function StudentName(s: Student): string { s.name }
  function RecordDate(a: AttendanceRecord): string { a.date }
  function JoinedName(x: AttendanceWithName): string { x.name }
  function PaidOn(p: Payment): string { p.payment_date }
  function JoinedPaidOn(x: PaymentWithStudent): string { x.payment.payment_date }

  // ---------------------------------------------------------------------------
  // Lookups by primary key: `results[0] || null`
  // ---------------------------------------------------------------------------

  function CoachIdIs(id: int): Coach -> bool { (c: Coach) => c.id == id }
  function StudentIdIs(id: int): Student -> bool { (s: Student) => s.id == id }

  /** `getCoachById`. */
  function CoachById(coaches: seq<Coach>, id: int): (r: Option<Coach>)
    ensures r.Some? ==> r.value in coaches && r.value.id == id
    ensures r.None? <==> forall c :: c in coaches ==> c.id != id
  {
    First(coaches, CoachIdIs(id))
  }

  /** `getStudentById`. */
  function StudentById(students: seq<Student>, id: int): (r: Option<Student>)
    ensures r.Some? ==> r.value in students && r.value.id == id
    ensures r.None? <==> forall s :: s in students ==> s.id != id
  {
    First(students, StudentIdIs(id))
  }

  // ---------------------------------------------------------------------------
  // Students
  // ---------------------------------------------------------------------------

  function OfCoach(coachId: int): Student -> bool { (s: Student) => s.coach_id == coachId }

  /** `getStudentsByCoach`: `WHERE coach_id = ? ORDER BY name ASC`. */
  function StudentsByCoach(students: seq<Student>, coachId: int): (r: seq<Student>)
    ensures forall s :: s in r <==> s in students && s.coach_id == coachId
    ensures multiset(r) == multiset(Filter(students, OfCoach(coachId)))
    ensures SortedBy(r, StudentName, false)
  {
    var kept := Filter(students, OfCoach(coachId));
    var r := SortBy(kept, StudentName, false);
    SortByKeepsMembers(kept, StudentName, false);
    r
  }

  // ---------------------------------------------------------------------------
  // Attendance
  // ---------------------------------------------------------------------------

  function InWindow(studentId: int, startDate: string, endDate: string): AttendanceRecord -> bool
  {
    (a: AttendanceRecord) => a.student_id == studentId && LexLe(startDate, a.date) && LexLe(a.date, endDate)
  }

  /** `getAttendanceByStudent`: `WHERE student_id = ? AND date BETWEEN ? AND ? ORDER BY date DESC`. */
  function AttendanceByStudent(rows: seq<AttendanceRecord>, studentId: int, startDate: string, endDate: string)
    : (r: seq<AttendanceRecord>)
    ensures forall a :: a in r <==>
      a in rows && a.student_id == studentId && LexLe(startDate, a.date) && LexLe(a.date, endDate)
    ensures multiset(r) == multiset(Filter(rows, InWindow(studentId, startDate, endDate)))
    ensures SortedBy(r, RecordDate, true)
  {
    var kept := Filter(rows, InWindow(studentId, startDate, endDate));
    var r := SortBy(kept, RecordDate, true);
    SortByKeepsMembers(kept, RecordDate, true);
    r
  }

  function InMonth(studentId: int, month: string): AttendanceRecord -> bool
  {
    (a: AttendanceRecord) => a.student_id == studentId && StrftimeYearMonth(a.date) == Some(month)
  }

  function HasStatus(status: string): AttendanceRecord -> bool { (a: AttendanceRecord) => a.status == status }
  function NotStatus(status: string): AttendanceRecord -> bool { (a: AttendanceRecord) => a.status != status }
  function CountOf(g: StatusCount): int { g.count }

  /** Each group counts the rows with its status, and is not empty. */
  ghost predicate GroupsCount(s: seq<AttendanceRecord>, r: seq<StatusCount>)
  {
    forall g :: g in r ==> g.count == |Filter(s, HasStatus(g.status))| && g.count > 0
  }

  /** Every row's status has a group, and every group's status occurs in a row. */
  ghost predicate GroupsMatchRows(s: seq<AttendanceRecord>, r: seq<StatusCount>)
  {
    && (forall a :: a in s ==> exists g :: g in r && g.status == a.status)
    && (forall g :: g in r ==> exists a :: a in s && a.status == g.status)
  }

  predicate GroupsDistinct(r: seq<StatusCount>)
  {
    forall i, j :: 0 <= i < j < |r| ==> r[i].status != r[j].status
  }

  /** `GROUP BY status` with `COUNT(*)`: one group per distinct status, each
      counting the rows with that status, together counting every row once.
      (SQLite promises no order of the groups; these come in order of first
      appearance.) */
  function GroupCounts(s: seq<AttendanceRecord>): (r: seq<StatusCount>)
    ensures GroupsCount(s, r) && GroupsMatchRows(s, r) && GroupsDistinct(r)
    ensures SumOf(r, CountOf) == |s|
    decreases |s|
  {
    if s == [] then []
    else
      var others := Filter(s, NotStatus(s[0].status));
      assert others == Filter(s[1..], NotStatus(s[0].status));
      var rest := GroupCounts(others);
      GroupStep(s, rest);
      [HeadGroup(s)] + rest
  }

  /** The group of the first row's status. */
  function HeadGroup(s: seq<AttendanceRecord>): StatusCount
    requires s != []
  {
    StatusCount(s[0].status, |Filter(s, HasStatus(s[0].status))|)
  }

  /** The first row's group, put in front of the groups of the rows with any
      other status, groups all of `s`. */
  lemma {:induction false} GroupStep(s: seq<AttendanceRecord>, rest: seq<StatusCount>)
    requires s != []
    requires GroupsCount(Filter(s, NotStatus(s[0].status)), rest)
    requires GroupsMatchRows(Filter(s, NotStatus(s[0].status)), rest)
    requires GroupsDistinct(rest)
    requires SumOf(rest, CountOf) == |Filter(s, NotStatus(s[0].status))|
    ensures GroupsCount(s, [HeadGroup(s)] + rest)
    ensures GroupsMatchRows(s, [HeadGroup(s)] + rest)
    ensures GroupsDistinct([HeadGroup(s)] + rest)
    ensures SumOf([HeadGroup(s)] + rest, CountOf) == |s|
  {
    GroupStepCount(s, rest);
    GroupStepMatch(s, rest);
    RestGroups(s, rest);
    GroupStepDistinct(s, rest);
    var r := [HeadGroup(s)] + rest;
    FilterPartitionCounts(s, HasStatus(s[0].status), NotStatus(s[0].status));
    assert r[1..] == rest;
  }

  /** No group of the other rows has the first row's status, and their counts
      are the same over all of `s`. */
  lemma {:induction false} RestGroups(s: seq<AttendanceRecord>, rest: seq<StatusCount>)
    requires s != []
    requires GroupsCount(Filter(s, NotStatus(s[0].status)), rest)
    requires GroupsMatchRows(Filter(s, NotStatus(s[0].status)), rest)
    ensures forall g :: g in rest ==> g.status != s[0].status && g.count == |Filter(s, HasStatus(g.status))|
  {
    var others := Filter(s, NotStatus(s[0].status));
    forall g | g in rest ensures g.status != s[0].status && g.count == |Filter(s, HasStatus(g.status))| {
      var a :| a in others && a.status == g.status;
      FilterOfFilter(s, NotStatus(s[0].status), HasStatus(g.status));
    }
  }

  lemma {:induction false} GroupStepCount(s: seq<AttendanceRecord>, rest: seq<StatusCount>)
    requires s != []
    requires GroupsCount(Filter(s, NotStatus(s[0].status)), rest)
    requires GroupsMatchRows(Filter(s, NotStatus(s[0].status)), rest)
    ensures GroupsCount(s, [HeadGroup(s)] + rest)
  {
    RestGroups(s, rest);
    assert s[0] in Filter(s, HasStatus(s[0].status));
  }

  lemma {:induction false} GroupStepMatch(s: seq<AttendanceRecord>, rest: seq<StatusCount>)
    requires s != []
    requires GroupsMatchRows(Filter(s, NotStatus(s[0].status)), rest)
    ensures GroupsMatchRows(s, [HeadGroup(s)] + rest)
  {
    var r := [HeadGroup(s)] + rest;
    forall a | a in s ensures exists g :: g in r && g.status == a.status {
      StatusHasGroup(s, rest, a);
    }
    forall g | g in r ensures exists a :: a in s && a.status == g.status {
      GroupHasRow(s, rest, g);
    }
  }

  lemma {:induction false} StatusHasGroup(s: seq<AttendanceRecord>, rest: seq<StatusCount>, a: AttendanceRecord)
    requires s != [] && a in s
    requires forall x :: x in Filter(s, NotStatus(s[0].status)) ==> exists g :: g in rest && g.status == x.status
    ensures exists g :: g in [HeadGroup(s)] + rest && g.status == a.status
  {
    var r := [HeadGroup(s)] + rest;
    if a.status == s[0].status {
      assert r[0] in r;
    } else {
      assert a in Filter(s, NotStatus(s[0].status));
      var g :| g in rest && g.status == a.status;
      assert g in r;
    }
  }

  lemma {:induction false} GroupHasRow(s: seq<AttendanceRecord>, rest: seq<StatusCount>, g: StatusCount)
    requires s != [] && g in [HeadGroup(s)] + rest
    requires forall h :: h in rest ==> exists x :: x in Filter(s, NotStatus(s[0].status)) && x.status == h.status
    ensures exists a :: a in s && a.status == g.status
  {
    if g == HeadGroup(s) {
      assert s[0] in s;
    } else {
      var x :| x in Filter(s, NotStatus(s[0].status)) && x.status == g.status;
      assert x in s;
    }
  }

  lemma {:induction false} GroupStepDistinct(s: seq<AttendanceRecord>, rest: seq<StatusCount>)
    requires s != []
    requires forall g :: g in rest ==> g.status != s[0].status
    requires GroupsDistinct(rest)
    ensures GroupsDistinct([HeadGroup(s)] + rest)
  {
    var r := [HeadGroup(s)] + rest;
    forall i, j | 0 <= i < j < |r| ensures r[i].status != r[j].status {
      assert r[j] == rest[j - 1] && r[j] in rest;
      if i > 0 {
        assert r[i] == rest[i - 1];
      }
    }
  }

  /** `getAttendanceSummary`: the status counts of one student's rows whose date
      falls in month `YYYY-MM`. */
  function AttendanceSummary(rows: seq<AttendanceRecord>, studentId: int, month: string): (r: seq<StatusCount>)
    ensures forall i, j :: 0 <= i < j < |r| ==> r[i].status != r[j].status
    ensures forall g :: g in r ==> g.count > 0 && g.count == |Filter(Filter(rows, InMonth(studentId, month)), HasStatus(g.status))|
    ensures forall a :: a in rows && a.student_id == studentId && StrftimeYearMonth(a.date) == Some(month) ==>
              exists g :: g in r && g.status == a.status
    ensures SumOf(r, CountOf) == |Filter(rows, InMonth(studentId, month))|
  {
    GroupCounts(Filter(rows, InMonth(studentId, month)))
  }

  function OnAttendanceOf(coachId: int, date: string): (AttendanceRecord, Student) -> bool
  {
    (a: AttendanceRecord, s: Student) => a.student_id == s.id && s.coach_id == coachId && a.date == date
  }

  function WithName(a: AttendanceRecord, s: Student): AttendanceWithName { AttendanceWithName(a, s.name) }

  lemma AttendanceJoinMembers(rows: seq<AttendanceRecord>, students: seq<Student>, coachId: int, date: string)
    ensures forall x :: x in Join(rows, students, OnAttendanceOf(coachId, date), WithName) <==>
      exists a, s ::
        && a in rows && s in students
        && a.student_id == s.id && s.coach_id == coachId && a.date == date
        && x == AttendanceWithName(a, s.name)
  {
    var joined := Join(rows, students, OnAttendanceOf(coachId, date), WithName);
    forall x | x in joined
      ensures exists a, s :: a in rows && s in students && a.student_id == s.id && s.coach_id == coachId
                             && a.date == date && x == AttendanceWithName(a, s.name)
    {
      var a, s :| a in rows && s in students && OnAttendanceOf(coachId, date)(a, s) && x == WithName(a, s);
    }
  }

  /** `getAttendanceByDate`: attendance JOIN students, `WHERE s.coach_id = ? AND a.date = ? ORDER BY s.name ASC`. */
  function AttendanceByDate(rows: seq<AttendanceRecord>, students: seq<Student>, coachId: int, date: string)
    : (r: seq<AttendanceWithName>)
    ensures forall x :: x in r <==>
      exists a, s ::
        && a in rows && s in students
        && a.student_id == s.id && s.coach_id == coachId && a.date == date
        && x == AttendanceWithName(a, s.name)
    ensures multiset(r) == multiset(Join(rows, students, OnAttendanceOf(coachId, date), WithName))
    ensures SortedBy(r, JoinedName, false)
  {
    var joined := Join(rows, students, OnAttendanceOf(coachId, date), WithName);
    var r := SortBy(joined, JoinedName, false);
    SortByKeepsMembers(joined, JoinedName, false);
    AttendanceJoinMembers(rows, students, coachId, date);
    r
  }

  // ---------------------------------------------------------------------------
  // Payments
  // ---------------------------------------------------------------------------

  function OfStudent(studentId: int): Payment -> bool { (p: Payment) => p.student_id == studentId }

  /** `getPaymentsByStudent`: `WHERE student_id = ? ORDER BY payment_date DESC`. */
  function PaymentsByStudent(payments: seq<Payment>, studentId: int): (r: seq<Payment>)
    ensures forall p :: p in r <==> p in payments && p.student_id == studentId
    ensures multiset(r) == multiset(Filter(payments, OfStudent(studentId)))
    ensures SortedBy(r, PaidOn, true)
  {
    var kept := Filter(payments, OfStudent(studentId));
    var r := SortBy(kept, PaidOn, true);
    SortByKeepsMembers(kept, PaidOn, true);
    r
  }

  function OnPaymentOf(coachId: int): (Payment, Student) -> bool
  {
    (p: Payment, s: Student) => p.student_id == s.id && s.coach_id == coachId
  }

  function OnPendingOf(coachId: int): (Payment, Student) -> bool
  {
    (p: Payment, s: Student) => p.student_id == s.id && s.coach_id == coachId && p.status == "pending"
  }

  function WithStudentName(p: Payment, s: Student): PaymentWithStudent { PaymentWithStudent(p, s.name) }

  lemma PaymentJoinMembers(payments: seq<Payment>, students: seq<Student>, coachId: int)
    ensures forall x :: x in Join(payments, students, OnPaymentOf(coachId), WithStudentName) <==>
      exists p, s ::
        && p in payments && s in students
        && p.student_id == s.id && s.coach_id == coachId
        && x == PaymentWithStudent(p, s.name)
  {
    var joined := Join(payments, students, OnPaymentOf(coachId), WithStudentName);
    forall x | x in joined
      ensures exists p, s :: p in payments && s in students && p.student_id == s.id && s.coach_id == coachId
                             && x == PaymentWithStudent(p, s.name)
    {
      var p, s :| p in payments && s in students && OnPaymentOf(coachId)(p, s) && x == WithStudentName(p, s);
    }
  }

  /** `getPaymentsByCoach`: payments JOIN students `WHERE s.coach_id = ? ORDER BY p.payment_date DESC`. */
  function PaymentsByCoach(payments: seq<Payment>, students: seq<Student>, coachId: int): (r: seq<PaymentWithStudent>)
    ensures forall x :: x in r <==>
      exists p, s ::
        && p in payments && s in students
        && p.student_id == s.id && s.coach_id == coachId
        && x == PaymentWithStudent(p, s.name)
    ensures multiset(r) == multiset(Join(payments, students, OnPaymentOf(coachId), WithStudentName))
    ensures SortedBy(r, JoinedPaidOn, true)
  {
    var joined := Join(payments, students, OnPaymentOf(coachId), WithStudentName);
    var r := SortBy(joined, JoinedPaidOn, true);
    SortByKeepsMembers(joined, JoinedPaidOn, true);
    PaymentJoinMembers(payments, students, coachId);
    r
  }

  lemma PendingJoinMembers(payments: seq<Payment>, students: seq<Student>, coachId: int)
    ensures forall x :: x in Join(payments, students, OnPendingOf(coachId), WithStudentName) <==>
      exists p, s ::
        && p in payments && s in students
        && p.student_id == s.id && s.coach_id == coachId && p.status == "pending"
        && x == PaymentWithStudent(p, s.name)
  {
    var joined := Join(payments, students, OnPendingOf(coachId), WithStudentName);
    forall x | x in joined
      ensures exists p, s :: p in payments && s in students && p.student_id == s.id && s.coach_id == coachId
                             && p.status == "pending" && x == PaymentWithStudent(p, s.name)
    {
      var p, s :| p in payments && s in students && OnPendingOf(coachId)(p, s) && x == WithStudentName(p, s);
    }
  }

  /** `getPendingPayments`: as above, only `status = 'pending'`, `ORDER BY p.payment_date ASC`. */
  function PendingPayments(payments: seq<Payment>, students: seq<Student>, coachId: int): (r: seq<PaymentWithStudent>)
    ensures forall x :: x in r <==>
      exists p, s ::
        && p in payments && s in students
        && p.student_id == s.id && s.coach_id == coachId && p.status == "pending"
        && x == PaymentWithStudent(p, s.name)
    ensures forall x :: x in r ==> x.payment.status == "pending"
    ensures multiset(r) == multiset(Join(payments, students, OnPendingOf(coachId), WithStudentName))
    ensures SortedBy(r, JoinedPaidOn, false)
  {
    var joined := Join(payments, students, OnPendingOf(coachId), WithStudentName);
    var r := SortBy(joined, JoinedPaidOn, false);
    SortByKeepsMembers(joined, JoinedPaidOn, false);
    PendingJoinMembers(payments, students, coachId);
    r
  }

  /** With distinct student ids, the day's list names each of the coach's
      students' records for that date once per row of the table. */
  lemma AttendanceByDateOncePerRow(rows: seq<AttendanceRecord>, students: seq<Student>, coachId: int, date: string,
                                   a: AttendanceRecord, s: Student)
    requires DistinctKeys(students, StudentKey)
    requires s in students && a.student_id == s.id && s.coach_id == coachId && a.date == date
    ensures multiset(AttendanceByDate(rows, students, coachId, date))[AttendanceWithName(a, s.name)]
         == multiset(rows)[a]
  {
    JoinCount(rows, students, OnAttendanceOf(coachId, date), WithName, StudentKey,
              (b: AttendanceRecord) => b.student_id, (x: AttendanceWithName) => x.record, a, s);
  }

  /** With distinct student ids, every payment of one of the coach's students
      is listed once per row of the table, under that student's name. */
  lemma PaymentsByCoachOncePerRow(payments: seq<Payment>, students: seq<Student>, coachId: int, p: Payment, s: Student)
    requires DistinctKeys(students, StudentKey)
    requires s in students && p.student_id == s.id && s.coach_id == coachId
    ensures multiset(PaymentsByCoach(payments, students, coachId))[PaymentWithStudent(p, s.name)] == multiset(payments)[p]
  {
    JoinCount(payments, students, OnPaymentOf(coachId), WithStudentName, StudentKey,
              (q: Payment) => q.student_id, (x: PaymentWithStudent) => x.payment, p, s);
  }

  /** With distinct student ids, every pending payment of one of the coach's
      students is listed once per row of the table. */
  lemma PendingPaymentsOncePerRow(payments: seq<Payment>, students: seq<Student>, coachId: int, p: Payment, s: Student)
    requires DistinctKeys(students, StudentKey)
    requires s in students && p.student_id == s.id && s.coach_id == coachId && p.status == "pending"
    ensures multiset(PendingPayments(payments, students, coachId))[PaymentWithStudent(p, s.name)] == multiset(payments)[p]
  {
    JoinCount(payments, students, OnPendingOf(coachId), WithStudentName, StudentKey,
              (q: Payment) => q.student_id, (x: PaymentWithStudent) => x.payment, p, s);
  }

  /** The rows `getPaymentSummary` aggregates: completed payments of the
      coach's students whose `payment_date` (not `month`) lies in `month`. */
  function OnRevenueOf(coachId: int, month: string): (Payment, Student) -> bool
  {
    (p: Payment, s: Student) => p.student_id == s.id && s.coach_id == coachId
      && StrftimeYearMonth(p.payment_date) == Some(month) && p.status == "completed"
  }

  function PaymentPart(p: Payment, s: Student): Payment { p }
  function Amount(p: Payment): int { p.amount }

  function RevenueRows(payments: seq<Payment>, students: seq<Student>, coachId: int, month: string): (r: seq<Payment>)
    ensures forall p :: p in r <==>
      && p in payments && p.status == "completed"
      && StrftimeYearMonth(p.payment_date) == Some(month)
      && exists s :: s in students && s.id == p.student_id && s.coach_id == coachId
  {
    Join(payments, students, OnRevenueOf(coachId, month), PaymentPart)
  }

  /** `getPaymentSummary`: the single aggregate row. With no matching payment
      COUNT is 0 and SUM is NULL; the row still exists, so the fallback
      `{ total: 0, count: 0 }` is never taken. */
  function PaymentSummaryOf(payments: seq<Payment>, students: seq<Student>, coachId: int, month: string)
    : (r: PaymentSummary)
    ensures r.count == |RevenueRows(payments, students, coachId, month)|
    ensures r.total.None? <==> r.count == 0
    ensures r.total.Some? ==> r.total.value == SumOf(RevenueRows(payments, students, coachId, month), Amount)
    ensures r.count == 0 <==>
      !exists p, s ::
        && p in payments && s in students
        && p.student_id == s.id && s.coach_id == coachId && p.status == "completed"
        && StrftimeYearMonth(p.payment_date) == Some(month)
  {
    var rows := RevenueRows(payments, students, coachId, month);
    assert rows != [] ==> rows[0] in rows;
    PaymentSummary(if rows == [] then None else Some(SumOf(rows, Amount)), |rows|)
  }

  // ---------------------------------------------------------------------------
  // Payment methods
  // ---------------------------------------------------------------------------

  function ActiveOf(coachId: int): PaymentMethod -> bool
  {
    (m: PaymentMethod) => m.coach_id == coachId && m.is_active == 1
  }

  /** `getPaymentMethods`: `WHERE coach_id = ? AND is_active = 1`, in table order. */
  function PaymentMethodsOf(methods: seq<PaymentMethod>, coachId: int): (r: seq<PaymentMethod>)
    ensures forall m :: m in r <==> m in methods && m.coach_id == coachId && m.is_active == 1
    ensures IsSubsequence(r, methods)
  {
    FilterIsSubsequence(methods, ActiveOf(coachId));
    Filter(methods, ActiveOf(coachId))
  }

  // ---------------------------------------------------------------------------
  // Properties relating several statements
  // ---------------------------------------------------------------------------

  /** A one-day window `BETWEEN d AND d` selects exactly the rows stored for (student, d). */
  lemma {:induction false} OneDayWindow(rows: seq<AttendanceRecord>, studentId: int, date: string)
    ensures Filter(rows, InWindow(studentId, date, date)) == RowsFor(rows, studentId, date)
  {
    LexLeReflexive(date);
    forall i | 0 <= i < |rows|
      ensures InWindow(studentId, date, date)(rows[i]) == KeyIs(studentId, date)(rows[i])
    {
      if LexLe(date, rows[i].date) && LexLe(rows[i].date, date) {
        LexLeAntisymmetric(date, rows[i].date);
      }
    }
    FilterSamePredicate(rows, InWindow(studentId, date, date), KeyIs(studentId, date));
  }

  /** Marking a student on a day and then marking them again the same day
      leaves one row for that day, the second mark, and reading that day back
      returns just it. */
  lemma {:induction false} MarkTwiceReadBack(rows: seq<AttendanceRecord>, first: AttendanceRecord, second: AttendanceRecord)
    requires first.student_id == second.student_id && first.date == second.date
    ensures AttendanceByStudent(UpsertAttendance(UpsertAttendance(rows, first), second),
                                second.student_id, second.date, second.date) == [second]
  {
    var after := UpsertAttendance(UpsertAttendance(rows, first), second);
    UpsertLastWins(rows, first, second);
    OneDayWindow(after, second.student_id, second.date);
    assert [second][1..] == [];
  }

  /** A payment recorded with `month` set to January but paid in February is
      counted in February's revenue and not in January's. */
  lemma {:induction false} RevenueFollowsPaymentDate()
    ensures var s := Student(1, 1, "Asha", None, None, None, None, "2024-01-01", "active", 100000, Some("2024-01-01"));
      var p := Payment(1, 1, 100000, "2024-02-15 10:00:00", "cash", "completed", "2024-01", "", "TXN-1", "2024-02-15 10:00:00");
      && PaymentSummaryOf([p], [s], 1, "2024-01") == PaymentSummary(None, 0)
      && PaymentSummaryOf([p], [s], 1, "2024-02") == PaymentSummary(Some(100000), 1)
  {
    var s := Student(1, 1, "Asha", None, None, None, None, "2024-01-01", "active", 100000, Some("2024-01-01"));
    var p := Payment(1, 1, 100000, "2024-02-15 10:00:00", "cash", "completed", "2024-01", "", "TXN-1", "2024-02-15 10:00:00");
    assert IsIsoDate(p.payment_date) && p.payment_date[..7] == "2024-02";
    assert StrftimeYearMonth(p.payment_date) != Some("2024-01");
    assert OnRevenueOf(1, "2024-02")(p, s);
    RevenueRowsOfOneStudent([p], s, 1, "2024-02");
  }

  /** Two completed payments in the month by one student of the coach, that
      student being the only one, give a count of 2 and the sum of the two
      amounts. */
  lemma {:induction false} TwoPaymentsSummary(p1: Payment, p2: Payment, s: Student, coachId: int, month: string)
    requires s.coach_id == coachId
    requires p1.student_id == s.id && p1.status == "completed" && StrftimeYearMonth(p1.payment_date) == Some(month)
    requires p2.student_id == s.id && p2.status == "completed" && StrftimeYearMonth(p2.payment_date) == Some(month)
    ensures PaymentSummaryOf([p1, p2], [s], coachId, month) == PaymentSummary(Some(p1.amount + p2.amount), 2)
  {
    var ps := [p1, p2];
    forall i | 0 <= i < |ps| ensures OnRevenueOf(coachId, month)(ps[i], s) {
    }
    RevenueRowsOfOneStudent(ps, s, coachId, month);
    assert SumOf(ps, Amount) == p1.amount + p2.amount by {
      assert ps[1..] == [p2];
      assert [p2][1..] == [];
      assert SumOf([p2], Amount) == Amount(p2) + SumOf([], Amount);
      assert SumOf(ps, Amount) == Amount(p1) + SumOf([p2], Amount);
    }
  }

  /** When every payment is a completed one of student `s` in the month, and
      `s` is the only student, every payment is counted, in table order. */
  lemma {:induction false} RevenueRowsOfOneStudent(payments: seq<Payment>, s: Student, coachId: int, month: string)
    requires forall i :: 0 <= i < |payments| ==> OnRevenueOf(coachId, month)(payments[i], s)
    ensures RevenueRows(payments, [s], coachId, month) == payments
  {
    JoinWithOne(payments, s, OnRevenueOf(coachId, month), PaymentPart);
  }

  /** Rows left behind by a deleted student are not reachable through the
      joins: none of the coach's listed payments belongs to that student. */
  lemma DeletedStudentPaymentsHidden(payments: seq<Payment>, students: seq<Student>, coachId: int, id: int)
    ensures forall x :: x in PaymentsByCoach(payments, WithoutStudent(students, id), coachId) ==>
      x.payment.student_id != id
  {
  }
}
