/**
 * The logic of src/screens/PaymentsScreen.js: the coach's payment list, the
 * monthly summary cards, the month filter of the list and recording a
 * payment from the add-payment form.
 *
 * `Date.now()` is the parameter `nowMs`, `CURRENT_TIMESTAMP` the parameter
 * `now`.
 */
module PaymentsScreen {
  import opened Common
  import opened Seqs
  import opened Text
  import opened Numbers
  import opened DbSchema
  import opened DbQueries
  import opened Db
  import opened Store

  // ---------------------------------------------------------------------------
  // The add-payment form
  // ---------------------------------------------------------------------------

  /** The form's text fields; `student_id` holds `student.id.toString()` once a
      student is picked. */
  datatype PaymentForm = PaymentForm(
    student_id: string, amount: string, payment_method: string, month: string, notes: string)

  const DefaultMethod := "cash"

  /** The empty form, for the month on screen. */
  function EmptyPaymentForm(selectedMonth: string): (r: PaymentForm)
    ensures r.payment_method == DefaultMethod && r.month == selectedMonth
    ensures MissingFields(r)
  {
    PaymentForm("", "", DefaultMethod, selectedMonth, "")
  }

  /** The form is refused when no student is picked or no amount is typed:
      the empty string is the only falsy string. */
  predicate MissingFields(f: PaymentForm)
  {
    f.student_id == "" || f.amount == ""
  }

  /** `TXN-${Date.now()}`. */
  function TransactionId(nowMs: nat): (r: string)
    ensures IsPrefix("TXN-", r) && |r| > 4
    ensures ParseInt(r[4..]) == Some(nowMs)
  {
    var r := "TXN-" + IntToString(nowMs);
    assert r[4..] == IntToString(nowMs);
    ParseIntOfIntToString(nowMs);
    r
  }

  /** The object `handleAddPayment` passes to `addPayment`: the id through
      `parseInt`, the amount through `parseFloat` (None is NaN), status
      "completed", the rest of the form as typed. */
  function PaymentData(f: PaymentForm, nowMs: nat): (r: PaymentInput)
    ensures r.student_id == ParseInt(f.student_id) && r.amount == ParseAmount(f.amount)
    ensures r.status == "completed"
    ensures r.payment_method == f.payment_method && r.month == f.month && r.notes == f.notes
    ensures IsPrefix("TXN-", r.transaction_id) && ParseInt(r.transaction_id[4..]) == Some(nowMs)
  {
    PaymentInput(ParseInt(f.student_id), ParseAmount(f.amount), f.payment_method, "completed",
                 f.month, f.notes, TransactionId(nowMs))
  }

  /** A student picked from the list and a whole-rupee amount typed in are
      written as that student's id and that many rupees in paise. */
  lemma {:induction false} PickedFormPays(f: PaymentForm, id: nat, rupees: nat, nowMs: nat)
    ensures !MissingFields(f.(student_id := IntToString(id), amount := IntToString(rupees)))
    ensures PaymentData(f.(student_id := IntToString(id), amount := IntToString(rupees)), nowMs).student_id == Some(id)
    ensures PaymentData(f.(student_id := IntToString(id), amount := IntToString(rupees)), nowMs).amount == Some(rupees * 100)
  {
    ParseIntOfIntToString(id);
    ParseAmountOfIntToString(rupees);
  }

  // ---------------------------------------------------------------------------
  // The month shown
  // ---------------------------------------------------------------------------

  function InMonthOf(month: string): PaymentWithStudent -> bool
  {
    (x: PaymentWithStudent) => Take(x.payment.payment_date, 7) == month
  }

  /** `monthlyPayments`: the listed payments whose `payment_date` begins with
      the month on screen, in list order. */
  function MonthlyPayments(list: seq<PaymentWithStudent>, month: string): (r: seq<PaymentWithStudent>)
    ensures forall x :: x in r <==> x in list && Take(x.payment.payment_date, 7) == month
    ensures IsSubsequence(r, list)
  {
    FilterIsSubsequence(list, InMonthOf(month));
    Filter(list, InMonthOf(month))
  }

  /** For an ISO date the screen's text prefix and the query's `strftime('%Y-%m')`
      pick the same month. */
  lemma MonthPrefixAgreesWithStrftime(d: string, month: string)
    requires IsIsoDate(d)
    ensures Take(d, 7) == month <==> StrftimeYearMonth(d) == Some(month)
  {
  }

  /** With ISO payment dates, the completed payments of the month list are
      exactly the payments the summary cards add up. */
  lemma {:induction false} SummaryCoversMonthList(payments: seq<Payment>, students: seq<Student>, coachId: int, month: string)
    requires forall p :: p in payments ==> IsIsoDate(p.payment_date)
    ensures forall p :: p in RevenueRows(payments, students, coachId, month) <==>
      exists x :: x in MonthlyPayments(PaymentsByCoach(payments, students, coachId), month)
                  && x.payment == p && p.status == "completed"
  {
    var list := MonthlyPayments(PaymentsByCoach(payments, students, coachId), month);
    forall p ensures p in RevenueRows(payments, students, coachId, month) <==>
      exists x :: x in list && x.payment == p && p.status == "completed"
    {
      if p in RevenueRows(payments, students, coachId, month) {
        var s :| s in students && s.id == p.student_id && s.coach_id == coachId;
        var x := PaymentWithStudent(p, s.name);
        assert x in PaymentsByCoach(payments, students, coachId);
        assert x in list;
      }
      if exists x :: x in list && x.payment == p && p.status == "completed" {
        var x :| x in list && x.payment == p && p.status == "completed";
        assert x in PaymentsByCoach(payments, students, coachId);
        var p', s :| && p' in payments && s in students
                     && p'.student_id == s.id && s.coach_id == coachId
                     && x == PaymentWithStudent(p', s.name);
        assert p' == p;
      }
    }
  }

  // ---------------------------------------------------------------------------
  // The summary cards
  // ---------------------------------------------------------------------------

  /** `summary.total?.toFixed(0) || 0`: a NULL total shows as 0. */
  function DisplayedTotal(s: PaymentSummary): (r: int)
    ensures s.total.None? ==> r == 0
    ensures s.total.Some? ==> r == s.total.value
  {
    s.total.GetOr(0)
  }

  /** `summary.count || 1`. */
  function AverageDivisor(count: nat): (r: nat)
    ensures r >= 1
    ensures count > 0 ==> r == count
  {
    if count == 0 then 1 else count
  }

  /** `summary.total / (summary.count || 1)`, before rounding; JavaScript
      turns a NULL total into 0 in the division. */
  function AveragePayment(s: PaymentSummary): (r: real)
    ensures r * AverageDivisor(s.count) as real == DisplayedTotal(s) as real
    ensures s.total.None? ==> r == 0.0
  {
    DisplayedTotal(s) as real / AverageDivisor(s.count) as real
  }

  /** The average times the number of payments gives back the month's total,
      and a month without payments averages 0. */
  lemma AverageTimesCount(s: PaymentSummary)
    requires s.total.None? <==> s.count == 0
    ensures s.count > 0 ==> AveragePayment(s) * s.count as real == s.total.value as real
    ensures s.count == 0 ==> AveragePayment(s) == 0.0
  {
  }

  // ---------------------------------------------------------------------------
  // The summary after one more payment
  // ---------------------------------------------------------------------------

  /** A payment the summary of `month` counts for the coach's student `s`. */
  predicate CountsFor(p: Payment, s: Student, coachId: int, month: string)
  {
    OnRevenueOf(coachId, month)(p, s)
  }

  lemma {:induction false} JoinAppend<A(!new), B(!new), R(!new)>(xs: seq<A>, x: A, ys: seq<B>, on: (A, B) -> bool, make: (A, B) -> R)
    ensures Join(xs + [x], ys, on, make) == Join(xs, ys, on, make) + Matches(x, ys, on, make)
    decreases |xs|
  {
    if xs == [] {
      assert [] + [x] == [x];
      assert [x][1..] == [];
    } else {
      assert (xs + [x])[0] == xs[0];
      assert (xs + [x])[1..] == xs[1..] + [x];
      JoinAppend(xs[1..], x, ys, on, make);
    }
  }

  /** With distinct student ids a payment joins with at most one student. */
  lemma {:induction false} OneStudentMatches(p: Payment, students: seq<Student>, coachId: int, month: string)
    requires DistinctKeys(students, StudentKey)
    requires exists s :: s in students && CountsFor(p, s, coachId, month)
    ensures Matches(p, students, OnRevenueOf(coachId, month), PaymentPart) == [p]
  {
    var s :| s in students && CountsFor(p, s, coachId, month);
    MatchesOnlyPartner(p, s, students, OnRevenueOf(coachId, month), PaymentPart, StudentKey);
  }

  /** Recording one more payment raises the month's count by one and its
      total by the amount when the payment is completed, dated in that month
      and made by one of the coach's students; otherwise the summary stays as
      it was. */
  lemma {:induction false} SummaryAfterPayment(payments: seq<Payment>, students: seq<Student>, coachId: int, month: string, p: Payment)
    requires DistinctKeys(students, StudentKey)
    ensures var before := PaymentSummaryOf(payments, students, coachId, month);
            var after := PaymentSummaryOf(payments + [p], students, coachId, month);
            if exists s :: s in students && CountsFor(p, s, coachId, month) then
              after.count == before.count + 1 && DisplayedTotal(after) == DisplayedTotal(before) + p.amount
            else
              after == before
  {
    var on := OnRevenueOf(coachId, month);
    JoinAppend(payments, p, students, on, PaymentPart);
    var old_rows := RevenueRows(payments, students, coachId, month);
    var matches := Matches(p, students, on, PaymentPart);
    assert RevenueRows(payments + [p], students, coachId, month) == old_rows + matches;
    if exists s :: s in students && CountsFor(p, s, coachId, month) {
      OneStudentMatches(p, students, coachId, month);
      SumOfAppend(old_rows, [p], Amount);
      assert [p][1..] == [];
    } else {
      NoMatchesIsEmpty(p, students, on, PaymentPart);
      assert old_rows + matches == old_rows;
    }
  }

  // ---------------------------------------------------------------------------
  // The screen state
  // ---------------------------------------------------------------------------

  datatype AddOutcome =
    | Incomplete          // "Please select student and enter amount": nothing written
    | Recorded(id: int)   // the payment row was inserted with this id
    | Failed(error: DbError)

  class PaymentsView {
    var payments: seq<PaymentWithStudent>
    var students: seq<Student>
    var summary: PaymentSummary
    var selectedMonth: string
    var form: PaymentForm
    var showAddPayment: bool

    /** The initial state; `today` is `new Date().toISOString()`. */
    constructor (today: string)
      ensures payments == [] && students == [] && summary == PaymentSummary(Some(0), 0)
      ensures selectedMonth == Take(today, 7) && form == EmptyPaymentForm(selectedMonth)
      ensures !showAddPayment
    {
      payments, students := [], [];
      summary := PaymentSummary(Some(0), 0);
      selectedMonth := Take(today, 7);
      form := EmptyPaymentForm(Take(today, 7));
      showAddPayment := false;
    }

    /** The screen shows what `loadPaymentData` reads from `db`: the coach's
        payments newest first, the coach's students, and the summary of the
        month on screen. */
    ghost predicate Shows(db: Database, coach: Option<Coach>)
      reads this`payments, this`students, this`summary, this`selectedMonth, db`payments, db`students
    {
      && payments == PaymentsByCoach(db.payments, db.students, CoachIdOr1(coach))
      && students == StudentsByCoach(db.students, CoachIdOr1(coach))
      && summary == PaymentSummaryOf(db.payments, db.students, CoachIdOr1(coach), selectedMonth)
    }

    /** `loadPaymentData`. */
    method Load(db: Database, coach: Option<Coach>)
      modifies this`payments, this`students, this`summary
      ensures Shows(db, coach)
    {
      var coachId := CoachIdOr1(coach);
      payments := PaymentsByCoach(db.payments, db.students, coachId);
      students := StudentsByCoach(db.students, coachId);
      summary := PaymentSummaryOf(db.payments, db.students, coachId, selectedMonth);
    }

    /** Picking a student in the form stores its id as text. */
    method PickStudent(id: nat)
      modifies this`form
      ensures form == old(form).(student_id := IntToString(id))
      ensures ParseInt(form.student_id) == Some(id)
    {
      form := form.(student_id := IntToString(id));
      ParseIntOfIntToString(id);
    }

    /** What a successful add does to the screen: the form closes, is
        emptied for the month on screen, and the data is read again. */
    method AfterRecorded(db: Database, coach: Option<Coach>)
      modifies this`form, this`showAddPayment, this`payments, this`students, this`summary
      ensures !showAddPayment && form == EmptyPaymentForm(selectedMonth)
      ensures Shows(db, coach)
    {
      showAddPayment := false;
      form := EmptyPaymentForm(selectedMonth);
      var coachId := CoachIdOr1(coach);
      payments := PaymentsByCoach(db.payments, db.students, coachId);
      students := StudentsByCoach(db.students, coachId);
      summary := PaymentSummaryOf(db.payments, db.students, coachId, selectedMonth);
    }

    /** The `try` block of `handleAddPayment`: the payment is inserted; when
        the insert succeeds the screen is reset and reloaded, and when it
        fails (a text that does not parse becomes NULL in a NOT NULL column)
        nothing changes. */
    method RecordPayment(db: Database, coach: Option<Coach>, nowMs: nat, now: string) returns (outcome: AddOutcome)
      requires db.Valid() && db.tablesCreated
      modifies db`payments, db`nextPaymentId, this`form, this`showAddPayment, this`payments, this`students, this`summary
      ensures db.Valid()
      ensures !outcome.Incomplete?
      ensures outcome.Failed? ==> unchanged(this) && unchanged(db)
      ensures outcome.Failed? <==>
        (PaymentData(old(form), nowMs).student_id.None? || PaymentData(old(form), nowMs).amount.None?)
      ensures outcome.Recorded? ==>
        var data := PaymentData(old(form), nowMs);
        && outcome.id == old(db.nextPaymentId)
        && db.payments == old(db.payments) + [Payment(outcome.id, data.student_id.value, data.amount.value, now,
                                                      data.payment_method, "completed", data.month, data.notes,
                                                      data.transaction_id, now)]
      ensures outcome.Recorded? ==> !showAddPayment && form == EmptyPaymentForm(selectedMonth) && Shows(db, coach)
    {
      var data := PaymentData(form, nowMs);
      var r := db.AddPayment(data, now);
      if r.Err? {
        return Failed(r.error);
      }
      AfterRecorded(db, coach);
      outcome := Recorded(r.value);
    }

    /** `handleAddPayment`: an incomplete form writes nothing and changes
        nothing; otherwise the payment is recorded as above. */
    method HandleAddPayment(db: Database, coach: Option<Coach>, nowMs: nat, now: string) returns (outcome: AddOutcome)
      requires db.Valid() && db.tablesCreated
      modifies db`payments, db`nextPaymentId, this`form, this`showAddPayment, this`payments, this`students, this`summary
      ensures db.Valid()
      ensures outcome.Incomplete? <==> MissingFields(old(form))
      ensures !outcome.Recorded? ==> unchanged(this) && unchanged(db)
      ensures outcome.Failed? <==>
        (!MissingFields(old(form))
         && (PaymentData(old(form), nowMs).student_id.None? || PaymentData(old(form), nowMs).amount.None?))
      ensures outcome.Recorded? ==>
        var data := PaymentData(old(form), nowMs);
        && outcome.id == old(db.nextPaymentId)
        && db.payments == old(db.payments) + [Payment(outcome.id, data.student_id.value, data.amount.value, now,
                                                      data.payment_method, "completed", data.month, data.notes,
                                                      data.transaction_id, now)]
      ensures outcome.Recorded? ==> !showAddPayment && form == EmptyPaymentForm(selectedMonth) && Shows(db, coach)
    {
      if MissingFields(form) {
        return Incomplete;
      }
      outcome := RecordPayment(db, coach, nowMs, now);
    }
  }
}
