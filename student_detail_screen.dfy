/**
 * The logic of src/screens/StudentDetailScreen.js: what the screen loads for
 * one student, the figures it shows, and deleting the student.
 */
module StudentDetailScreen {
  import opened Common
  import opened Seqs
  import opened Text
  import opened Ordering
  import opened DbSchema
  import opened DbQueries
  import opened Db
  import opened Store
  import opened Numbers

  // ---------------------------------------------------------------------------
  // The month window of the attendance query
  // ---------------------------------------------------------------------------

  function MonthStart(month: string): string { month + "-01" }
  function MonthEnd(month: string): string { month + "-31" }

  /** `date BETWEEN 'YYYY-MM-01' AND 'YYYY-MM-31'` holds for a `YYYY-MM-DD`
      date exactly when the date is in that month and its day lies between
      "01" and "31" as text; so every real day of the month is included, and
      the query never reaches into a neighbouring month. */
  lemma {:induction false} MonthWindow(d: string, month: string)
    requires |month| == 7 && |d| == 10
    ensures (LexLe(MonthStart(month), d) && LexLe(d, MonthEnd(month))) <==>
      (d[..8] == month + "-" && LexLe("01", d[8..]) && LexLe(d[8..], "31"))
  {
    var p := month + "-";
    assert MonthStart(month) == p + "01";
    assert MonthEnd(month) == p + "31";
    if d[..8] == p {
      assert d == p + d[8..];
      LexLeCommonPrefix(p, "01", d[8..]);
      LexLeCommonPrefix(p, d[8..], "31");
    }
    if LexLe(MonthStart(month), d) && LexLe(d, MonthEnd(month)) {
      SandwichSharesPrefix(p, "01", "31", d);
    }
  }

  // ---------------------------------------------------------------------------
  // Figures
  // ---------------------------------------------------------------------------

  datatype AttendanceStats = AttendanceStats(present: nat, absent: nat, total: nat)

  /** `attendanceStats`: present and absent counts and the number of records. */
  function StatsOf(attendance: seq<AttendanceRecord>): (r: AttendanceStats)
    ensures r.present + r.absent <= r.total == |attendance|
    ensures r.present == |Filter(attendance, HasStatus("present"))|
    ensures r.absent == |Filter(attendance, HasStatus("absent"))|
  {
    FilterDisjointCounts(attendance, HasStatus("present"), HasStatus("absent"));
    AttendanceStats(|Filter(attendance, HasStatus("present"))|, |Filter(attendance, HasStatus("absent"))|,
                    |attendance|)
  }

  /** `totalPaid`: the amounts of all the student's payments, whatever their
      status (a pending payment counts too). */
  function TotalPaid(payments: seq<Payment>): (r: int)
    ensures payments == [] ==> r == 0
    ensures (forall i :: 0 <= i < |payments| ==> payments[i].amount >= 0) ==> r >= 0
  {
    if forall i :: 0 <= i < |payments| ==> payments[i].amount >= 0 then
      SumOfNonNegative(payments, Amount);
      SumOf(payments, Amount)
    else SumOf(payments, Amount)
  }

  /** The total over the loaded list is the total over the student's rows of
      the table: the date order of the listing does not matter. */
  lemma {:induction false} TotalPaidOfStudent(payments: seq<Payment>, studentId: int)
    ensures TotalPaid(PaymentsByStudent(payments, studentId)) == SumOf(Filter(payments, OfStudent(studentId)), Amount)
  {
    SumOfPermutation(PaymentsByStudent(payments, studentId), Filter(payments, OfStudent(studentId)), Amount);
  }

  /** `totalPaid.toFixed(2)`, the figure shown as "Total Paid": it has two
      decimals and reads back as exactly the total. */
  function TotalPaidText(payments: seq<Payment>): (r: string)
    ensures ParseAmount(r) == Some(TotalPaid(payments))
    ensures |r| >= 4 && r[|r| - 3] == '.' && IsDigit(r[|r| - 2]) && IsDigit(r[|r| - 1])
  {
    ParseAmountOfFormatAmount(TotalPaid(payments));
    FormatAmount(TotalPaid(payments))
  }

  /** One more payment raises the total by its amount. */
  lemma {:induction false} TotalPaidAppend(payments: seq<Payment>, p: Payment)
    ensures TotalPaid(payments + [p]) == TotalPaid(payments) + p.amount
  {
    SumOfAppend(payments, [p], Amount);
    assert [p][1..] == [];
  }

  /** `payments.slice(0, 3)`: the first three entries of the list. */
  function RecentPayments(payments: seq<Payment>): (r: seq<Payment>)
    ensures |r| == if |payments| < 3 then |payments| else 3
    ensures r == payments[..|r|]
  {
    if |payments| < 3 then payments else payments[..3]
  }

  /** The list comes newest first, so no payment left out of the three shown
      is dated after one that is shown. */
  lemma {:induction false} RecentAreLatest(payments: seq<Payment>, studentId: int)
    ensures var all := PaymentsByStudent(payments, studentId);
      forall i, j :: 0 <= i < |RecentPayments(all)| <= j < |all| ==>
        LexLe(all[j].payment_date, RecentPayments(all)[i].payment_date)
  {
    var all := PaymentsByStudent(payments, studentId);
    forall i, j | 0 <= i < |RecentPayments(all)| <= j < |all|
      ensures LexLe(all[j].payment_date, RecentPayments(all)[i].payment_date)
    {
      assert InOrder(PaidOn(all[i]), PaidOn(all[j]), true);
    }
  }

  // ---------------------------------------------------------------------------
  // The screen
  // ---------------------------------------------------------------------------

  class StudentDetailView {
    var student: Option<Student>
    var payments: seq<Payment>
    var attendance: seq<AttendanceRecord>

    constructor ()
      ensures student == None && payments == [] && attendance == []
    {
      student, payments, attendance := None, [], [];
    }

    /** `loadStudentDetails`: the student, all their payments (newest first)
        and their attendance between the 1st and the 31st of the current
        month; `currentMonth` is the `YYYY-MM` of the client's clock. */
    method Load(db: Database, studentId: int, currentMonth: string)
      modifies this
      ensures student == StudentById(db.students, studentId)
      ensures payments == PaymentsByStudent(db.payments, studentId)
      ensures attendance == AttendanceByStudent(db.attendance, studentId, MonthStart(currentMonth), MonthEnd(currentMonth))
    {
      student := StudentById(db.students, studentId);
      payments := PaymentsByStudent(db.payments, studentId);
      attendance := AttendanceByStudent(db.attendance, studentId, MonthStart(currentMonth), MonthEnd(currentMonth));
    }

    /** `handleDeleteStudent`, once confirmed: the row goes from the table and
        the entry from the store; attendance and payment rows stay. */
    method HandleDelete(db: Database, store: AppStore, studentId: int)
      requires db.Valid() && db.tablesCreated
      modifies db`students, store`students
      ensures db.Valid()
      ensures db.students == WithoutStudent(old(db.students), studentId)
      ensures store.students == WithoutStudent(old(store.students), studentId)
      ensures db.attendance == old(db.attendance) && db.payments == old(db.payments)
    {
      var affected := db.DeleteStudent(studentId);
      store.RemoveStudentFromStore(studentId);
    }
  }
}
