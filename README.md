# Coaching app data layer, cache and screen logic in Dafny

This project models the part of a React Native app for sports and tuition
coaches that holds real logic. The app keeps its students, attendance and
payments in a local SQLite database. The model covers four layers:

- **The database** (`src/database/db.js`).
  - Five tables: coaches, students, attendance, payments and payment_methods.
  - `Db.Database` is a class with one sequence of rows per table and one
    AUTOINCREMENT counter per table. The invariant `Valid` holds the primary
    keys, `email UNIQUE` and `UNIQUE(student_id, date)`.
  - Every INSERT, UPDATE, DELETE and `INSERT OR REPLACE` is a method that
    states the table's new contents. Its frame says no other table changes.
  - The value a writer resolves with is modelled: `insertId` for an insert,
    `rowsAffected` for an update or delete, and the NOT NULL or UNIQUE error
    that makes an insert fail.
  - The effect of each statement on one table is a pure function in
    `DbSchema` (`db_schema.dfy`).
  - Every SELECT is a pure function in `DbQueries` (`db_queries.dfy`). It
    filters, joins, sorts (`ORDER BY` in SQLite's BINARY text order) or
    aggregates (`GROUP BY status`, `SUM`/`COUNT`).
- **The client cache** (`src/store/appStore.js`). `Store.AppStore` is a class
  whose fields are replaced by its setters. The merge-by-id (`{...s, ...patch}`)
  and remove-by-id list operations are pure functions.
- **The screens.** Each screen's logic is a module:
  - `AttendanceScreen`: the active roster, the attendance map with toggle and
    mark-all, and the sequential save loop;
  - `StudentsScreen`: the status tab and the search box;
  - `AddStudentScreen`: validation, the normalised row and the cache append;
  - `StudentDetailScreen`: the attendance statistics, the total paid, the
    three recent payments, the month window and delete-then-uncache;
  - `PaymentsScreen`: the add-payment form, the month filter and the summary
    cards.

Shared modules:

- `Common`: Option and Result.
- `Seqs`: filter, join, sum and subsequence, with their laws.
- `Ordering`: a stable sort standing in for `ORDER BY`.
- `Text`: BINARY string order, JavaScript `trim`, ASCII `toLowerCase`,
  `includes`, `slice(0, n)` and `strftime('%Y-%m', …)` on ISO dates.
- `Numbers`: `parseInt`, `parseFloat` read as paise, `toString` and
  `toFixed(2)`.

Money is an integer number of paise, not a float.

Values the program reads from the clock or the environment are parameters:

- `now` is SQLite's `CURRENT_TIMESTAMP`;
- `nowIso` and `today` are `new Date().toISOString()`;
- `nowMs` is `Date.now()`;
- `currentMonth` is the `YYYY-MM` of the client clock;
- `rejected` is the set of students whose attendance write the storage
  layer refuses.

Three behaviours of the code are easy to miss; the model follows the code:

- For a month without completed payments, the summary query returns one row
  with `total` NULL (SQL `SUM` of no rows), not `{ total: 0, count: 0 }`. The
  `|| { total: 0, count: 0 }` fallback never applies.
- The monthly summary selects payments by the month of `payment_date`, not by
  the payment's `month` column. Two payments recorded with `month` "2024-03"
  therefore count in March only when they are paid in March
  (`DbQueries.RevenueFollowsPaymentDate`).
- A foreign key is declared but never enforced. Deleting a student leaves its
  attendance and payment rows in the tables.

## Model

| member | source | states |
|---|---|---|
| Db.Database.constructor | src/database/db.js:4 | a newly opened database file has no tables and every AUTOINCREMENT counter starts at 1 |
| Db.Database.Initialize | src/database/db.js:10-105 | `CREATE TABLE IF NOT EXISTS`: the first run creates the five tables empty; any later run changes nothing; the keys invariant holds |
| Db.Database.AddCoach | src/database/db.js:150-155 | fails on a NULL name, then on a NULL email, then on an email already in the table, leaving the table and counter as they were; otherwise appends the row with the next id, keeps ids and emails unique, and returns that id |
| Db.Database.AddStudent | src/database/db.js:171-176 | NULL coach_id or name fails with nothing written; otherwise appends the row with status 'active', enrollment and creation time `now`, and returns the new id |
| Db.Database.UpdateStudent | src/database/db.js:198-203 | overwrites exactly the seven mutable columns of the rows with that id and reports how many matched; a NULL name fails only when a row matches; no other row changes |
| Db.Database.DeleteStudent | src/database/db.js:208-211 | removes exactly the rows with that id, keeping the rest in order, and returns how many went; attendance and payments are untouched (frame) |
| Db.Database.MarkAttendance | src/database/db.js:218-222 | `INSERT OR REPLACE`: afterwards the (student, date) pair has exactly the new row with the given status and notes (default ""); every other pair keeps its rows; the new id is returned; `UNIQUE(student_id, date)` is kept |
| Db.Database.AddPayment | src/database/db.js:258-263 | a NULL student_id or amount (a NaN from the form) fails with nothing written; otherwise appends the row with `payment_date` = `now` and returns its id |
| Db.Database.UpdatePaymentStatus | src/database/db.js:309-312 | only the `status` of the rows with that id changes; returns the number of such rows |
| Db.Database.AddPaymentMethod | src/database/db.js:319-324 | a NULL coach id fails; otherwise appends the method with `is_active` 1 and returns its id |
| Db.Database.UpdatePaymentMethod | src/database/db.js:337-341 | overwrites method_type, provider, api_key and is_active of the rows with that id; ids, coach and creation time are kept, and other rows do not change |
| DbSchema.UpsertAttendance | src/database/db.js:52-61 | after the upsert, the pair's rows are exactly `[rec]`; every other pair's rows are as before; `rec` is the newest row; only rows of that pair disappear |
| DbSchema.UpsertLastWins | src/database/db.js:218-222 | marking the same student and day twice leaves exactly the second mark and leaves every other pair alone |
| DbSchema.UpsertKeepsKeysUnique | src/database/db.js:60 | the upsert preserves `UNIQUE(student_id, date)` |
| DbSchema.UpdateStudentRows | src/database/db.js:200-201 | same length; rows with another id are identical; the matching rows get the new name, email, phone, subject, batch, fee and status and keep id, coach, enrollment and creation dates |
| DbSchema.WithoutStudent | src/database/db.js:209 | keeps exactly the rows whose id differs, as an order-preserving subsequence, and is the identity when no row has the id |
| DbSchema.WithoutStudentIdempotent | src/store/appStore.js:21-23 | removing the same student twice is the same as removing it once |
| DbSchema.SetPaymentStatus | src/database/db.js:310 | each row differs from the old one at most in `status`, which is the new status exactly on the rows with that id |
| DbSchema.UpdateMethodRows | src/database/db.js:339 | same length; every row keeps its id, coach and creation time; only the rows with that id change, and they carry the four new values |
| DbQueries.CoachById | src/database/db.js:160-164 | `results[0] \|\| null`: None exactly when no coach has the id; otherwise a coach of the table with that id |
| DbQueries.StudentById | src/database/db.js:189-193 | None exactly when no student has the id; otherwise a student of the table with that id |
| DbQueries.StudentsByCoach | src/database/db.js:181-184 | exactly the coach's students, each as many times as in the table, sorted by name ascending |
| DbQueries.AttendanceByStudent | src/database/db.js:227-230 | exactly the student's rows with `start <= date <= end` in text order, each once per table row, sorted by date descending |
| DbQueries.OneDayWindow | src/database/db.js:227-230 | a window from a day to the same day selects exactly the rows of that (student, day) pair |
| DbQueries.MarkTwiceReadBack | src/database/db.js:218-230 | after marking a student twice on one day, reading that day back gives only the second mark |
| DbQueries.GroupCounts | src/database/db.js:236-238 | `GROUP BY status`: one group per status that occurs, none empty, no status twice, each counting its rows, the counts adding up to the number of rows |
| DbQueries.AttendanceSummary | src/database/db.js:235-240 | per distinct status of the student's rows in the month (by `strftime('%Y-%m', date)`), the number of such rows; statuses distinct; every row's status has a group; the counts sum to the month's rows |
| DbQueries.AttendanceByDate | src/database/db.js:245-251 | exactly the joined (record, student name) pairs of the coach's students on that date, as a permutation of the join (each pair as often as the join yields it), sorted by name ascending |
| DbQueries.AttendanceByDateOncePerRow | src/database/db.js:245-251 | with distinct student ids, a record of one of the coach's students on that date is listed under the student's name exactly as many times as it occurs in the table: never dropped, never repeated |
| DbQueries.PaymentsByStudent | src/database/db.js:268-271 | exactly the student's payments, each once per row, sorted by payment_date descending |
| DbQueries.PaymentsByCoach | src/database/db.js:276-282 | exactly the joined (payment, student name) pairs for the coach's students, as a permutation of the join, sorted by payment_date descending |
| DbQueries.PaymentsByCoachOncePerRow | src/database/db.js:276-282 | with distinct student ids, each payment of one of the coach's students is listed under its student's name exactly as many times as it occurs in the table |
| DbQueries.PendingPayments | src/database/db.js:298-304 | as the coach's payment list, restricted to status 'pending', as a permutation of that join, sorted by payment_date ascending |
| DbQueries.PendingPaymentsOncePerRow | src/database/db.js:298-304 | with distinct student ids, each pending payment of one of the coach's students is listed exactly as many times as it occurs in the table |
| DbQueries.RevenueRows | src/database/db.js:288-290 | a payment is counted iff it is completed, its `payment_date` lies in the month, and some student of the coach owns it |
| DbQueries.PaymentSummaryOf | src/database/db.js:287-293 | count is the number of counted payments and total their sum; total is NULL exactly when count is 0, and count is 0 exactly when no such payment exists, so the fallback is never used |
| DbQueries.RevenueFollowsPaymentDate | src/database/db.js:290 | a completed payment with `month` "2024-01" paid on 2024-02-15 is absent from January's summary and counted in February's |
| DbQueries.TwoPaymentsSummary | src/database/db.js:287-293 | two completed payments in the month by the coach's only student give count 2 and the sum of both amounts |
| DbQueries.RevenueRowsOfOneStudent | src/database/db.js:288-290 | when every payment qualifies with the only student, all of them are counted, in table order |
| DbQueries.DeletedStudentPaymentsHidden | src/database/db.js:277-279 | once a student is deleted, none of the coach's listed payments belongs to that student, although the rows remain |
| DbQueries.PaymentMethodsOf | src/database/db.js:329-332 | exactly the coach's methods with `is_active = 1`, in table order |
| Store.AppStore.constructor | src/store/appStore.js:9-54 | no coach, empty lists, not loading, no error, no message or selected student, `selectedMonth` the first seven characters of the ISO time |
| Store.AppStore.SetCoach | src/store/appStore.js:10 | replaces `coach` and, by its frame, no other field |
| Store.AppStore.SetStudents | src/store/appStore.js:14 | replaces `students` wholesale and nothing else |
| Store.AppStore.AddStudentToStore | src/store/appStore.js:15-17 | appends one entry at the end; the earlier entries are untouched |
| Store.AppStore.UpdateStudentInStore | src/store/appStore.js:18-20 | `students` becomes `MergeStudent` of the old list |
| Store.AppStore.RemoveStudentFromStore | src/store/appStore.js:21-23 | `students` becomes the old list without the entries with that id |
| Store.AppStore.SetAttendance | src/store/appStore.js:27 | replaces `attendance` and nothing else |
| Store.AppStore.AddAttendanceRecord | src/store/appStore.js:28-30 | appends one record at the end |
| Store.AppStore.SetPayments | src/store/appStore.js:34 | replaces `payments` and nothing else |
| Store.AppStore.AddPaymentToStore | src/store/appStore.js:35-37 | appends one payment at the end |
| Store.AppStore.UpdatePaymentInStore | src/store/appStore.js:38-40 | `payments` becomes `MergePayment` of the old list |
| Store.AppStore.SetLoading | src/store/appStore.js:44 | sets `loading` only |
| Store.AppStore.SetError | src/store/appStore.js:46 | sets `error` only |
| Store.AppStore.SetSuccessMessage | src/store/appStore.js:48 | sets `successMessage` only |
| Store.AppStore.SetSelectedMonth | src/store/appStore.js:52 | sets `selectedMonth` only |
| Store.AppStore.SetSelectedStudent | src/store/appStore.js:54 | sets `selectedStudent` only |
| Store.AppStore.ClearError | src/store/appStore.js:57 | `error` becomes null and no other field changes |
| Store.AppStore.ClearSuccess | src/store/appStore.js:58 | `successMessage` becomes null and no other field changes |
| Store.MergeStudent | src/store/appStore.js:18-20 | same length; entries with another id are unchanged; on a matching entry each of the eleven columns takes the patch's value when the patch has that key and keeps the entry's value otherwise; no entry with the id means no change |
| Store.MergePayment | src/store/appStore.js:38-40 | the same overlay law on the payment list, column by column for all ten columns |
| Store.StudentOverlayDetermined | src/store/appStore.js:19 | the column-by-column overlay law leaves no freedom: it fixes the merged student entry completely |
| Store.PaymentOverlayDetermined | src/store/appStore.js:39 | the same for a merged payment entry |
| Store.MergeStudentIdempotent | src/store/appStore.js:18-20 | applying the same patch twice equals applying it once |
| Store.MergeStudentEmptyPatch | src/store/appStore.js:19 | a patch without keys leaves the list as it is |
| Store.MergeStatusMatchesTable | src/store/appStore.js:38-40 | overlaying `{status}` on the cached payments gives what `UPDATE payments SET status` gives on the table |
| Store.CoachIdOr1 | src/screens/AttendanceScreen.js:38 | `coach?.id \|\| 1`: never 0; the coach's id when it is non-zero; 1 without a coach |
| AttendanceScreen.ActiveRoster | src/screens/AttendanceScreen.js:41-43 | exactly the students with status 'active', as an order-preserving subsequence of the query result |
| AttendanceScreen.MarksOf | src/screens/AttendanceScreen.js:47-50 | the map's keys are exactly the students that have a record for the day |
| AttendanceScreen.MarksOfStep | src/screens/AttendanceScreen.js:48-50 | one more record sets its student's entry to its status and leaves the rest of the map as the prefix built it |
| AttendanceScreen.ReadMarks | src/screens/AttendanceScreen.js:47-50 | the `forEach` loop, record by record, builds exactly `MarksOf` of the day's records |
| AttendanceScreen.LastRecordWins | src/screens/AttendanceScreen.js:48-50 | a student's entry is the status of that student's last record: a later record overwrites an earlier one |
| AttendanceScreen.Toggled | src/screens/AttendanceScreen.js:66 | 'absent' exactly when the student is currently 'present', otherwise 'present' (a missing key included) |
| AttendanceScreen.ToggleTwice | src/screens/AttendanceScreen.js:63-68 | toggling a student marked present or absent twice restores the map |
| AttendanceScreen.CountStatus | src/screens/AttendanceScreen.js:177-178 | a status count never exceeds the number of entries |
| AttendanceScreen.PresentAbsentCounts | src/screens/AttendanceScreen.js:177-178 | present + absent <= entries, with equality when every value is 'present' or 'absent' |
| AttendanceScreen.SortedKeys | src/screens/AttendanceScreen.js:103 | the key order of `Object.entries`, with one key per map entry |
| AttendanceScreen.SortedKeysOrdered | src/screens/AttendanceScreen.js:103 | the enumerated keys are exactly the map's keys, strictly ascending |
| AttendanceScreen.KeyOrder | src/screens/AttendanceScreen.js:103 | computes the ascending key order of the map, each key a key of the map |
| AttendanceScreen.UpsertAllUntouched | src/screens/AttendanceScreen.js:103-105 | a (student, day) pair that no write touches keeps its rows |
| AttendanceScreen.UpsertAllLastWins | src/screens/AttendanceScreen.js:103-105 | after a series of upserts a pair holds exactly the last record written for it |
| AttendanceScreen.SaveRecords | src/screens/AttendanceScreen.js:104 | one record per key, in order: that student, the selected date, the map's status, empty notes, consecutive ids |
| AttendanceScreen.SaveStoresMarks | src/screens/AttendanceScreen.js:103-105 | after a save each written student has exactly one row for the day, carrying the map's status and empty notes; every other pair keeps its rows |
| AttendanceScreen.WriteMark | src/screens/AttendanceScreen.js:104 | one awaited `markAttendance` adds the next record of the save to the table |
| AttendanceScreen.WriteInOrder | src/screens/AttendanceScreen.js:103-105 | the loop writes keys in order until the first one the storage layer rejects: that one and everything after it are not written, and the table is the fold of the writes made |
| AttendanceScreen.AttendanceView.constructor | src/screens/AttendanceScreen.js:21-23 | empty roster and map, the given day selected |
| AttendanceScreen.AttendanceView.Load | src/screens/AttendanceScreen.js:35-58 | the roster is the coach's active students; the map is `MarksOf` the day's joined attendance, built by `ReadMarks` |
| AttendanceScreen.AttendanceView.Toggle | src/screens/AttendanceScreen.js:63-68 | only the toggled student's entry changes, to `Toggled` |
| AttendanceScreen.AttendanceView.MarkAll | src/screens/AttendanceScreen.js:74-78 | the new map's keys are exactly the roster's ids, every value the given status; other keys are dropped |
| AttendanceScreen.AttendanceView.MarkAllPresent | src/screens/AttendanceScreen.js:73-79 | every roster student is 'present', and nobody else is in the map |
| AttendanceScreen.AttendanceView.MarkAllAbsent | src/screens/AttendanceScreen.js:84-90 | every roster student is 'absent', and nobody else is in the map |
| AttendanceScreen.AttendanceView.Save | src/screens/AttendanceScreen.js:95-113 | an empty map writes nothing; otherwise the map's entries are written in ascending key order, one `markAttendance(id, date, status, '')` each, stopping at the first refused write; the table is the result of exactly those writes |
| StudentsScreen.NameMatchIgnoresCase | src/screens/StudentsScreen.js:70-77 | the search ignores ASCII case in names: a student whose name contains the query in any mix of upper and lower case matches it |
| StudentsScreen.FilterStudents | src/screens/StudentsScreen.js:61-79 | an order-preserving subsequence keeping exactly the students of the tab ('all' keeps every status) that match a query that is not blank after trimming |
| StudentsScreen.AllTabBlankQueryShowsAll | src/screens/StudentsScreen.js:65-70 | the 'all' tab with a blank query shows the whole list |
| StudentsScreen.FilterStudentsIdempotent | src/screens/StudentsScreen.js:61-79 | filtering the shown list again with the same settings changes nothing |
| StudentsScreen.CountTabs | src/screens/StudentsScreen.js:214-248 | the 'all' count is the list length, and active + inactive never exceeds it |
| StudentsScreen.TabCountMatchesList | src/screens/StudentsScreen.js:214-248 | with a blank query each tab lists as many students as its count |
| StudentsScreen.StudentsView.constructor | src/screens/StudentsScreen.js:28-31 | empty list and query, tab 'all' |
| StudentsScreen.StudentsView.Load | src/screens/StudentsScreen.js:34-56 | the focus reload as it runs: the store holds the coach's students by name, and, because the callback is the first render's `loadStudents`, the shown list is them filtered with '' and 'all', that is the whole list, whatever the search box and tab hold; the box and tab are not changed |
| StudentsScreen.StudentsView.LoadWithCurrentSettings | src/screens/StudentsScreen.js:43-50 | the intended reload: the same store update, and the shown list filtered with the current search text and tab, so every shown student passes both |
| StudentsScreen.StaleReloadShowsExcluded | src/screens/StudentsScreen.js:34-38 | an inactive student "Ravi" is shown after the reload although the box holds "ra" and the tab is 'active', settings that exclude him |
| StudentsScreen.StudentsView.HandleSearch | src/screens/StudentsScreen.js:85-88 | stores the query and refilters the cached list with it |
| StudentsScreen.StudentsView.HandleStatusFilter | src/screens/StudentsScreen.js:93-96 | stores the tab and refilters the cached list with it |
| AddStudentScreen.ValidateForm | src/screens/AddStudentScreen.js:48-58 | rejects with the name message exactly when the name is blank after trimming; then with the email message exactly when the email is non-empty without '@'; otherwise accepts |
| AddStudentScreen.TrimmedOrNull | src/screens/AddStudentScreen.js:72-75 | `text.trim() \|\| null`: null exactly when the text is blank, otherwise the trimmed text |
| AddStudentScreen.TrimmedOrNullClean | src/screens/AddStudentScreen.js:72-75 | a non-null optional field is non-empty and already trimmed |
| AddStudentScreen.BuildStudentData | src/screens/AddStudentScreen.js:68-77 | the coach id is `coach?.id \|\| 1` (never 0); the name is the trimmed name; email, phone, subject and batch are each `trim() \|\| null`; the fee is the parsed amount, or 0 when the fee text does not parse |
| AddStudentScreen.ValidFormBuildsCleanRow | src/screens/AddStudentScreen.js:68-77 | an accepted form builds a row with a non-zero coach id and a non-empty trimmed name, and a fee of 0 when the fee text is not a number |
| AddStudentScreen.ValidFormKeepsEmail | src/screens/AddStudentScreen.js:53-72 | an accepted form's stored email is null or a trimmed text still containing '@' |
| AddStudentScreen.CacheEntry | src/screens/AddStudentScreen.js:82-87 | the entry carries the inserted id, status 'active', the client ISO time as enrollment date and no `created_at` |
| AddStudentScreen.CacheEntryMatchesRow | src/screens/AddStudentScreen.js:82-87 | the cached entry is the inserted row except for the client-side enrollment date and the missing `created_at` |
| AddStudentScreen.HandleSubmit | src/screens/AddStudentScreen.js:63-101 | an invalid form returns its message and changes neither table nor cache; a valid one inserts the normalised row with the next id and then appends the matching entry to the cache |
| StudentDetailScreen.MonthWindow | src/screens/StudentDetailScreen.js:41-44 | for a `YYYY-MM-DD` date, `BETWEEN month-01 AND month-31` holds exactly when the date is in that month with a day from "01" to "31" |
| StudentDetailScreen.StatsOf | src/screens/StudentDetailScreen.js:100-104 | present and absent count the records with those statuses, total is the record count, and present + absent <= total |
| StudentDetailScreen.TotalPaid | src/screens/StudentDetailScreen.js:106 | the `reduce` from 0: no payments total 0, and non-negative amounts give a non-negative total |
| StudentDetailScreen.TotalPaidOfStudent | src/screens/StudentDetailScreen.js:106 | the total over the loaded list is the sum of the amounts of all the student's payment rows, whatever the listing order |
| StudentDetailScreen.TotalPaidAppend | src/screens/StudentDetailScreen.js:106 | one more payment raises the total by its amount |
| StudentDetailScreen.TotalPaidText | src/screens/StudentDetailScreen.js:209 | the "Total Paid" figure `totalPaid.toFixed(2)` ends in a point and two digits and reads back as exactly the total paid, a negative total included |
| StudentDetailScreen.RecentPayments | src/screens/StudentDetailScreen.js:220 | the first min(3, n) payments of the list |
| StudentDetailScreen.RecentAreLatest | src/screens/StudentDetailScreen.js:220 | no payment left out of the three shown is dated after one that is shown |
| StudentDetailScreen.StudentDetailView.constructor | src/screens/StudentDetailScreen.js:22-24 | no student, no payments, no attendance |
| StudentDetailScreen.StudentDetailView.Load | src/screens/StudentDetailScreen.js:34-55 | the student by id, all their payments newest first, and their attendance from the 1st to the 31st of the current month |
| StudentDetailScreen.StudentDetailView.HandleDelete | src/screens/StudentDetailScreen.js:68-71 | the student is gone from both the table and the cache, the other entries kept in order; attendance and payment rows stay |
| PaymentsScreen.TransactionId | src/screens/PaymentsScreen.js:96 | starts with "TXN-", and the rest reads back as the millisecond clock |
| PaymentsScreen.PaymentData | src/screens/PaymentsScreen.js:89-97 | student id through `parseInt`, amount through `parseFloat`, status 'completed', method, month and notes from the form, and a "TXN-" transaction id |
| PaymentsScreen.PickedFormPays | src/screens/PaymentsScreen.js:317-321 | a picked student and a whole-rupee amount pass the check and are written as that id and that amount in paise |
| PaymentsScreen.MonthlyPayments | src/screens/PaymentsScreen.js:181-183 | exactly the listed payments whose `payment_date` starts with the selected `YYYY-MM`, as an order-preserving subsequence |
| PaymentsScreen.MonthPrefixAgreesWithStrftime | src/screens/PaymentsScreen.js:181-183 | for an ISO date, the screen's seven-character prefix and the query's `strftime('%Y-%m')` select the same month |
| PaymentsScreen.SummaryCoversMonthList | src/screens/PaymentsScreen.js:181-183 | with ISO dates, the payments the summary counts are exactly the completed payments of the month list |
| PaymentsScreen.EmptyPaymentForm | src/screens/PaymentsScreen.js:102-108 | the reset form has method 'cash' and the selected month, and is refused by the missing-fields check until a student and an amount are filled in |
| PaymentsScreen.DisplayedTotal | src/screens/PaymentsScreen.js:209 | a NULL total shows as 0; otherwise the total is shown |
| PaymentsScreen.AverageDivisor | src/screens/PaymentsScreen.js:226 | `count \|\| 1` is never below 1 and is the count whenever there are payments |
| PaymentsScreen.AveragePayment | src/screens/PaymentsScreen.js:225-227 | the average times `count \|\| 1` is the shown total, and a NULL total averages 0 |
| PaymentsScreen.AverageTimesCount | src/screens/PaymentsScreen.js:225-227 | average × count gives back the month's total, and a month without payments averages 0 |
| PaymentsScreen.OneStudentMatches | src/database/db.js:288-289 | with distinct student ids a payment joins with exactly one student once it qualifies |
| PaymentsScreen.SummaryAfterPayment | src/screens/PaymentsScreen.js:99-109 | a recorded payment that qualifies for the month raises the reloaded count by 1 and the shown total by its amount; any other payment leaves the summary as it was |
| PaymentsScreen.PaymentsView.constructor | src/screens/PaymentsScreen.js:30-44 | empty lists, summary {0, 0}, the month of `today` selected, the form empty with method 'cash' for that month, dialog closed |
| PaymentsScreen.PaymentsView.Load | src/screens/PaymentsScreen.js:55-77 | the screen shows the coach's payments newest first, the coach's students, and the selected month's summary |
| PaymentsScreen.PaymentsView.PickStudent | src/screens/PaymentsScreen.js:317-321 | stores the id as text in the form, and that text parses back to the id |
| PaymentsScreen.PaymentsView.AfterRecorded | src/screens/PaymentsScreen.js:101-109 | the dialog closes, the form is reset for the selected month, and the data is reloaded |
| PaymentsScreen.PaymentsView.RecordPayment | src/screens/PaymentsScreen.js:88-116 | fails exactly when the id or amount text does not parse, and then changes nothing; otherwise appends the completed payment with the next id, resets the form and reloads |
| PaymentsScreen.PaymentsView.HandleAddPayment | src/screens/PaymentsScreen.js:82-114 | refuses exactly when student or amount is empty, with no write and no state change; otherwise records as `RecordPayment` does |
| Text.TrimEmptyIffBlank | src/screens/StudentsScreen.js:70 | a string trims to "" (is falsy after `trim()`) exactly when it is all white space |
| Text.TrimIdempotent | src/screens/AddStudentScreen.js:71 | trimming a trimmed string changes nothing |
| Text.TrimIsCore | src/screens/AddStudentScreen.js:71 | `trim` returns a contiguous slice of the text, and only white space is cut off on either side |
| Text.TrimEdges | src/screens/AddStudentScreen.js:71 | a trimmed text is empty or starts and ends with a character other than white space |
| Text.TrimKeepsNonSpace | src/screens/AddStudentScreen.js:72 | a character other than white space survives `trim` |
| Text.Lower | src/screens/StudentsScreen.js:73-74 | same length; each upper-case ASCII letter becomes its lower-case partner (code + 32) and every other character is kept, so no upper-case ASCII letter remains |
| Text.LowerIdempotent | src/screens/StudentsScreen.js:73-74 | lower-casing twice is lower-casing once |
| Text.LowerIdentifiesCase | src/screens/StudentsScreen.js:73-74 | two strings lower-case to the same string exactly when they differ only in the case of ASCII letters |
| Text.IncludesSlice | src/screens/StudentsScreen.js:73-75 | `includes` finds every contiguous piece of a string, the empty piece included |
| Text.Take | src/screens/PaymentsScreen.js:182 | `slice(0, n)`: the first min(n, length) characters |
| Text.StrftimeYearMonth | src/database/db.js:237 | for a text that starts with the `YYYY-MM-DD` digit pattern, `strftime('%Y-%m', d)` is its first seven characters; a text without that pattern gives NULL (ranges are not checked, see below) |
| Numbers.IntToString | src/screens/PaymentsScreen.js:320 | `id.toString()` is a non-empty run of decimal digits |
| Numbers.ParseInt | src/screens/PaymentsScreen.js:90 | `parseInt('')` is NaN, and a plain run of digits reads as its decimal value |
| Numbers.ParseAmount | src/screens/PaymentsScreen.js:91 | `parseFloat('')` is NaN, and a plain run of digits reads as that many rupees (hundred paise each) |
| Numbers.ParseIntOfIntToString | src/screens/PaymentsScreen.js:90 | `parseInt(id.toString())` gives back the id |
| Numbers.ParseAmountOfIntToString | src/screens/PaymentsScreen.js:91 | `parseFloat` of a whole number of rupees gives that many hundred paise |

## Left out

- Opening the database, the transaction callbacks, the Promise wrappers and logging (src/database/db.js:4, 113-143) are library plumbing. Only the effect of each statement on the tables is modelled.
- Storage failures other than constraint violations are not modelled. `DeleteStudent`, `MarkAttendance`, `UpdatePaymentStatus` and `UpdatePaymentMethod` always succeed. The one exception is the attendance save, where the parameter `rejected` says which writes the storage layer refuses. Each screen's `catch` branch for such failures is therefore not modelled. This includes the "Failed to add student" path of `handleSubmit` and the case where `deleteStudent` fails before `removeStudentFromStore`.
- Db.Database.UpdateStudent: a `monthly_fee` or `status` of NULL is stored as given. The model carries them as plain values; no screen of the app calls `updateStudent`.
- Queries that run before `initializeDatabase` are not modelled. The writers require the tables to exist.
- REAL columns and floating point are out of scope. Money is whole paise. `parseFloat` reads `[ws][sign]digits[.digits]` and drops digits after the second decimal, where JavaScript would round the float. Exponents, `Infinity` and hexadecimal forms are not read.
- PaymentsScreen.DisplayedTotal: the `toFixed(0)` rounding of the shown total is not modelled.
- PaymentsScreen.AveragePayment: the division is exact over the reals. `toFixed(0)` rounding of the average is not modelled.
- `toLowerCase` is ASCII-only (Text.Lower). Unicode case mapping is not modelled.
- `strftime('%Y-%m', …)` is modelled only for `YYYY-MM-DD…` texts. SQLite's other accepted time formats (Julian day numbers, `now`, modifiers) give NULL in the model.
- Text.StrftimeYearMonth: month and day ranges and trailing text are not validated. SQLite gives NULL for '2024-13-01', '2024-02-00' or '2024-03-01xyz' and rolls '2024-02-30' over to March; the model returns the first seven characters of each. Every date the app writes (`CURRENT_TIMESTAMP`, `toISOString().split('T')[0]`) is a valid date, where the two agree.
- The JavaScript `Date` stepping of the day and month selectors depends on the time zone and is not modelled (src/screens/AttendanceScreen.js:118-131, src/screens/PaymentsScreen.js:235-238, 252-255). The dates they produce are the `selectedDate` / `selectedMonth` inputs.
- UI code is not modelled: JSX rendering, styles, alerts, navigation, and the loading, saving and modal flags other than `showAddPayment`.
- Ties in `ORDER BY` are not pinned down. SQLite leaves their order unspecified, so the model states the sort order and which rows appear with what multiplicity, not the order among equal keys. The order of groups in `GROUP BY status` is left open for the same reason.
- Store.MergeStudent / Store.MergePayment: a patch key set to `undefined` is treated as absent. JavaScript's spread would copy `undefined` over the entry.
- AddStudentScreen.CacheEntry: the cached entry has no `created_at` key. Its `enrollment_date` is the client's ISO time rather than the database's timestamp, as the code builds it.
- StudentsScreen.StudentsView.Load: the `coach` the focus reload reads is also the first render's; the model takes the coach as a parameter.
- StudentsScreen.MatchesQuery: the query is matched untrimmed, as the code does. Only the blank test uses the trimmed query.
- StudentDetailScreen.TotalPaid: it sums every listed payment whatever its status, so pending payments count too, as the code does. `p.amount || 0` cannot matter because `amount` is NOT NULL.
- The login, settings, payment detail and dashboard screens and App.js are not part of this model.

## Findings

| source | as written | input that shows it | evidently intended | confidence | as-written member | corrected member |
|---|---|---|---|---|---|---|
| src/screens/StudentsScreen.js:34-38 | the focus callback is memoised with an empty dependency list, so it keeps calling the first render's `loadStudents`, which filters with `searchQuery` '' and `filterStatus` 'all' | type "ra", pick the 'active' tab, open a student and come back: an inactive student "Ravi" is listed while the box shows "ra" and the tab 'active' (`StudentsScreen.StaleReloadShowsExcluded`) | the reload filters with the search text and tab currently on screen | medium, not executed | StudentsScreen.StudentsView.Load | StudentsScreen.StudentsView.LoadWithCurrentSettings |
