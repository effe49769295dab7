/**
 * The state behind src/screens/AttendanceScreen.js: the roster of active
 * students, the selected day, and the attendance map from student id to
 * 'present' / 'absent' that the screen edits and then saves row by row.
 *
 * The map is an object whose keys are student ids; an object enumerates such
 * integer keys in ascending order, so the save loop visits the ids from the
 * smallest up. The loop writes with `parseInt(key)`, which gives back the id
 * (Numbers.ParseIntOfIntToString); the model passes the id itself.
 *
 * The save loop stops at the first statement that fails. Nothing in the
 * statement can violate a constraint, so a failure comes from the storage
 * layer; the set `rejected` names the students whose write the storage layer
 * refuses.
 */
module AttendanceScreen {
  import opened Common
  import opened Seqs
  import opened DbSchema
  import opened DbQueries
  import opened Db
  import opened Store

  const Present := "present"
  const Absent := "absent"

  function IsActiveStudent(s: Student): bool { s.status == "active" }

  /** `studentsList.filter((s) => s.status === 'active')`. */
  function ActiveRoster(students: seq<Student>): (r: seq<Student>)
    ensures forall s :: s in r <==> s in students && s.status == "active"
    ensures IsSubsequence(r, students)
  {
    FilterIsSubsequence(students, IsActiveStudent);
    Filter(students, IsActiveStudent)
  }

  /** The map the load builds: record by record, each setting its student's entry. */
  function MarksOf(records: seq<AttendanceWithName>): (m: map<int, string>)
    ensures forall k :: k in m <==> exists x :: x in records && x.record.student_id == k
  {
    if records == [] then map[]
    else
      var last := records[|records| - 1];
      var before := records[..|records| - 1];
      assert forall x :: x in records <==> x in before || x == last;
      MarksOf(before)[last.record.student_id := last.record.status]
  }

  /** Reading one more record of a list extends the map of its prefix by
      that record's entry. */
  lemma MarksOfStep(records: seq<AttendanceWithName>, i: int)
    requires 0 <= i < |records|
    ensures MarksOf(records[..i + 1]) == MarksOf(records[..i])[records[i].record.student_id := records[i].record.status]
  {
    assert records[..i + 1][..i] == records[..i];
  }

  /** The `forEach` that fills the map from the day's records, one record at
      a time, each overwriting the entry of its student. */
  method ReadMarks(records: seq<AttendanceWithName>) returns (m: map<int, string>)
    ensures m == MarksOf(records)
  {
    m := map[];
    var i := 0;
    while i < |records|
      invariant 0 <= i <= |records|
      invariant m == MarksOf(records[..i])
    {
      MarksOfStep(records, i);
      m := m[records[i].record.student_id := records[i].record.status];
      i := i + 1;
    }
    assert records[..|records|] == records;
  }

  /** A record that no later record of the same student follows decides that
      student's entry: the last record for an id wins. */
  lemma {:induction false} LastRecordWins(records: seq<AttendanceWithName>, i: int)
    requires 0 <= i < |records|
    requires forall j :: i < j < |records| ==> records[j].record.student_id != records[i].record.student_id
    ensures MarksOf(records)[records[i].record.student_id] == records[i].record.status
  {
    var n := |records| - 1;
    if i < n {
      var before := records[..n];
      LastRecordWins(before, i);
    }
  }

  /** The value `toggleAttendance` stores: 'absent' for a present student,
      'present' for anyone else, unmarked students included. */
  function Toggled(m: map<int, string>, id: int): (r: string)
    ensures r == Absent <==> id in m && m[id] == Present
    ensures r == Present || r == Absent
  {
    if id in m && m[id] == Present then Absent else Present
  }

  /** Toggling a marked student twice restores the mark. */
  lemma ToggleTwice(m: map<int, string>, id: int)
    requires id in m && (m[id] == Present || m[id] == Absent)
    ensures var once := m[id := Toggled(m, id)]; once[id := Toggled(once, id)] == m
  {
  }

  /** `Object.values(attendance).filter((s) => s === status).length`. */
  function CountStatus(m: map<int, string>, status: string): (r: nat)
    ensures r <= |m|
  {
    var keys := set k | k in m && m[k] == status;
    SubsetCard(keys, m.Keys);
    |keys|
  }

  lemma {:induction false} SubsetCard(a: set<int>, b: set<int>)
    requires a <= b
    ensures |a| <= |b|
  {
    assert b == a + (b - a);
  }

  /** The present and absent counts never exceed the number of entries, and
      add up to it when every entry is one of the two. */
  lemma {:induction false} PresentAbsentCounts(m: map<int, string>)
    ensures CountStatus(m, Present) + CountStatus(m, Absent) <= |m|
    ensures (forall k :: k in m ==> m[k] == Present || m[k] == Absent) ==>
      CountStatus(m, Present) + CountStatus(m, Absent) == |m|
  {
    var present := set k | k in m && m[k] == Present;
    var absent := set k | k in m && m[k] == Absent;
    assert present * absent == {};
    SubsetCard(present + absent, m.Keys);
    if forall k :: k in m ==> m[k] == Present || m[k] == Absent {
      assert present + absent == m.Keys;
    }
  }

  // ---------------------------------------------------------------------------
  // Key order of the map
  // ---------------------------------------------------------------------------

  lemma {:induction false} HasMember(s: set<int>)
    requires s != {}
    ensures exists y :: y in s
  {
    if forall y :: y !in s {
      assert false;
    }
  }

  ghost function MinKey(s: set<int>): (k: int)
    requires s != {}
    ensures k in s && forall j :: j in s ==> k <= j
  {
    HasMember(s);
    var x :| x in s;
    var rest := s - {x};
    if rest == {} then
      assert s == {x};
      x
    else
      var m := MinKey(rest);
      assert forall j :: j in s ==> j == x || j in rest;
      if x < m then x else m
  }

  /** The keys in the order an object enumerates integer keys: ascending. */
  ghost function SortedKeys(s: set<int>): (r: seq<int>)
    ensures |r| == |s|
    decreases |s|
  {
    if s == {} then []
    else
      var k := MinKey(s);
      [k] + SortedKeys(s - {k})
  }

  /** The ordered keys are exactly the set's members. */
  lemma {:induction false} SortedKeysMembers(s: set<int>)
    ensures forall k :: k in SortedKeys(s) <==> k in s
    decreases |s|
  {
    if s != {} {
      var k := MinKey(s);
      SortedKeysMembers(s - {k});
    }
  }

  /** The ordered keys ascend strictly. */
  lemma {:induction false} SortedKeysAscending(s: set<int>)
    ensures forall i, j :: 0 <= i < j < |SortedKeys(s)| ==> SortedKeys(s)[i] < SortedKeys(s)[j]
    decreases |s|
  {
    if s != {} {
      var k := MinKey(s);
      var rest := s - {k};
      SortedKeysAscending(rest);
      SortedKeysMembers(rest);
      var r := SortedKeys(s);
      var t := SortedKeys(rest);
      assert r == [k] + t;
      forall i, j | 0 <= i < j < |r| ensures r[i] < r[j] {
        assert r[j] == t[j - 1] && t[j - 1] in rest;
        if i > 0 {
          assert r[i] == t[i - 1];
        }
      }
    }
  }

  /** The ordered keys are exactly the set's members, strictly ascending. */
  lemma {:induction false} SortedKeysOrdered(s: set<int>)
    ensures forall k :: k in SortedKeys(s) <==> k in s
    ensures forall i :: 0 <= i < |SortedKeys(s)| ==> SortedKeys(s)[i] in s
    ensures forall i, j :: 0 <= i < j < |SortedKeys(s)| ==> SortedKeys(s)[i] < SortedKeys(s)[j]
  {
    SortedKeysMembers(s);
    SortedKeysAscending(s);
  }

  /** The key order of `Object.entries` on the attendance map. */
  method KeyOrder(keys: set<int>) returns (order: seq<int>)
    ensures order == SortedKeys(keys)
    ensures forall i :: 0 <= i < |order| ==> order[i] in keys
  {
    order := [];
    var remaining := keys;
    while remaining != {}
      invariant order + SortedKeys(remaining) == SortedKeys(keys)
      decreases |remaining|
    {
      assert MinKey(remaining) in remaining;  // a witness for the choice below
      var k :| k in remaining && forall j :: j in remaining ==> k <= j;
      SortedKeysStep(order, remaining, k);
      order := order + [k];
      remaining := remaining - {k};
    }
    SortedKeysOrdered(keys);
  }

  // ---------------------------------------------------------------------------
  // The table after a save
  // ---------------------------------------------------------------------------

  /** The rows after upserting each record of `recs` in turn. */
  function UpsertAll(rows: seq<AttendanceRecord>, recs: seq<AttendanceRecord>): seq<AttendanceRecord>
    decreases |recs|
  {
    if recs == [] then rows
    else UpsertAttendance(UpsertAll(rows, recs[..|recs| - 1]), recs[|recs| - 1])
  }

  lemma {:induction false} UpsertAllStep(rows: seq<AttendanceRecord>, recs: seq<AttendanceRecord>, rec: AttendanceRecord)
    ensures UpsertAll(rows, recs + [rec]) == UpsertAttendance(UpsertAll(rows, recs), rec)
  {
    assert (recs + [rec])[..|recs|] == recs;
  }

  /** A (student, day) pair that no record touches keeps its rows. */
  lemma {:induction false} UpsertAllUntouched(rows: seq<AttendanceRecord>, recs: seq<AttendanceRecord>,
                                              s: int, d: string)
    requires forall r :: r in recs ==> r.student_id != s || r.date != d
    ensures RowsFor(UpsertAll(rows, recs), s, d) == RowsFor(rows, s, d)
  {
    if recs != [] {
      var n := |recs| - 1;
      var before := recs[..n];
      assert recs[n] in recs;
      assert forall r :: r in before ==> r in recs;
      UpsertAllUntouched(rows, before, s, d);
    }
  }

  /** Upserting one more record leaves the rows of every other (student, day) pair. */
  lemma {:induction false} UpsertAllOther(rows: seq<AttendanceRecord>, before: seq<AttendanceRecord>,
                                          rec: AttendanceRecord, s: int, d: string)
    requires rec.student_id != s || rec.date != d
    ensures RowsFor(UpsertAll(rows, before + [rec]), s, d) == RowsFor(UpsertAll(rows, before), s, d)
  {
    UpsertAllStep(rows, before, rec);
  }

  /** Upserting one more record leaves exactly that record for its pair. */
  lemma {:induction false} UpsertAllOwn(rows: seq<AttendanceRecord>, before: seq<AttendanceRecord>, rec: AttendanceRecord)
    ensures RowsFor(UpsertAll(rows, before + [rec]), rec.student_id, rec.date) == [rec]
  {
    UpsertAllStep(rows, before, rec);
  }

  /** A (student, day) pair ends up holding exactly the last record written for it. */
  lemma {:induction false} UpsertAllLastWins(rows: seq<AttendanceRecord>, recs: seq<AttendanceRecord>, i: int)
    requires 0 <= i < |recs|
    requires forall j :: i < j < |recs| ==> recs[j].student_id != recs[i].student_id || recs[j].date != recs[i].date
    ensures RowsFor(UpsertAll(rows, recs), recs[i].student_id, recs[i].date) == [recs[i]]
  {
    var n := |recs| - 1;
    var before := recs[..n];
    assert recs == before + [recs[n]];
    if i < n {
      assert before[i] == recs[i];
      assert forall j :: i < j < |before| ==> before[j] == recs[j];
      UpsertAllLastWins(rows, before, i);
      UpsertAllOther(rows, before, recs[n], recs[i].student_id, recs[i].date);
    } else {
      UpsertAllOwn(rows, before, recs[n]);
    }
  }

  /** The records `saveAttendance` writes for `ids`, in order, the writes
      getting ids from `firstId` on. */
  function SaveRecords(ids: seq<int>, marks: map<int, string>, date: string, firstId: int, now: string)
    : (r: seq<AttendanceRecord>)
    requires forall i :: 0 <= i < |ids| ==> ids[i] in marks
    ensures |r| == |ids|
    ensures forall i :: 0 <= i < |ids| ==> r[i] == AttendanceRecord(firstId + i, ids[i], date, marks[ids[i]], "", now)
  {
    seq(|ids|, i requires 0 <= i < |ids| => AttendanceRecord(firstId + i, ids[i], date, marks[ids[i]], "", now))
  }

  /** Writing one more student of `ids` adds one upsert to the fold. */
  lemma {:induction false} SaveRecordsStep(rows: seq<AttendanceRecord>, ids: seq<int>, i: int, marks: map<int, string>, date: string,
                        firstId: int, now: string)
    requires 0 <= i < |ids|
    requires forall j :: 0 <= j < |ids| ==> ids[j] in marks
    ensures UpsertAll(rows, SaveRecords(ids[..i + 1], marks, date, firstId, now))
         == UpsertAttendance(UpsertAll(rows, SaveRecords(ids[..i], marks, date, firstId, now)),
                             AttendanceRecord(firstId + i, ids[i], date, marks[ids[i]], "", now))
  {
    var rec := AttendanceRecord(firstId + i, ids[i], date, marks[ids[i]], "", now);
    assert SaveRecords(ids[..i + 1], marks, date, firstId, now)
        == SaveRecords(ids[..i], marks, date, firstId, now) + [rec];
    UpsertAllStep(rows, SaveRecords(ids[..i], marks, date, firstId, now), rec);
  }

  /** After writing distinct students for one day, each of them has exactly
      the row with the status from the map and empty notes, and every other
      (student, day) pair keeps its rows. */
  lemma {:induction false} SaveStoresMarks(rows: seq<AttendanceRecord>, ids: seq<int>, marks: map<int, string>, date: string,
                        firstId: int, now: string)
    requires forall i :: 0 <= i < |ids| ==> ids[i] in marks
    requires forall i, j :: 0 <= i < j < |ids| ==> ids[i] != ids[j]
    ensures var after := UpsertAll(rows, SaveRecords(ids, marks, date, firstId, now));
      forall i :: 0 <= i < |ids| ==>
        RowsFor(after, ids[i], date) == [AttendanceRecord(firstId + i, ids[i], date, marks[ids[i]], "", now)]
    ensures var after := UpsertAll(rows, SaveRecords(ids, marks, date, firstId, now));
      forall s, d :: (d != date || s !in ids) ==> RowsFor(after, s, d) == RowsFor(rows, s, d)
  {
    var recs := SaveRecords(ids, marks, date, firstId, now);
    forall i | 0 <= i < |ids|
      ensures RowsFor(UpsertAll(rows, recs), ids[i], date)
           == [AttendanceRecord(firstId + i, ids[i], date, marks[ids[i]], "", now)]
    {
      UpsertAllLastWins(rows, recs, i);
    }
    forall s, d | d != date || s !in ids
      ensures RowsFor(UpsertAll(rows, recs), s, d) == RowsFor(rows, s, d)
    {
      forall r | r in recs ensures r.student_id != s || r.date != d {
        var i :| 0 <= i < |recs| && recs[i] == r;
        assert r.student_id == ids[i];
      }
      UpsertAllUntouched(rows, recs, s, d);
    }
  }

  /** Taking the least key off the set takes the head off its ordered keys. */
  lemma {:induction false} SortedKeysStep(written: seq<int>, remaining: set<int>, k: int)
    requires k in remaining && forall j :: j in remaining ==> k <= j
    ensures written + SortedKeys(remaining) == (written + [k]) + SortedKeys(remaining - {k})
  {
    assert k == MinKey(remaining);
  }

  // ---------------------------------------------------------------------------
  // The screen
  // ---------------------------------------------------------------------------

  datatype SaveOutcome = NothingMarked | Saved | Failed(studentId: int)

  /** One awaited `markAttendance` of the save loop: the `i`-th key of
      `order`, with its status from `marks` and empty notes. */
  method WriteMark(db: Database, ghost rows0: seq<AttendanceRecord>, order: seq<int>, i: int, marks: map<int, string>,
                   date: string, ghost firstId: int, now: string)
    requires db.Valid() && db.tablesCreated
    requires 0 <= i < |order| && forall j :: 0 <= j < |order| ==> order[j] in marks
    requires db.attendance == UpsertAll(rows0, SaveRecords(order[..i], marks, date, firstId, now))
    requires db.nextAttendanceId == firstId + i
    modifies db`attendance, db`nextAttendanceId
    ensures db.Valid()
    ensures db.attendance == UpsertAll(rows0, SaveRecords(order[..i + 1], marks, date, firstId, now))
    ensures db.nextAttendanceId == firstId + i + 1
  {
    SaveRecordsStep(rows0, order, i, marks, date, firstId, now);
    ghost var rec := AttendanceRecord(firstId + i, order[i], date, marks[order[i]], "", now);
    var insertId := db.MarkAttendance(order[i], date, marks[order[i]], now, "");
    assert insertId == firstId + i;
    assert AttendanceRecord(insertId, order[i], date, marks[order[i]], "", now) == rec;
  }

  /** The writes of the save loop: keys of `order` one after the other until
      the first one the storage layer rejects. `done` is how many went through. */
  method WriteInOrder(db: Database, order: seq<int>, marks: map<int, string>, date: string, now: string,
                      rejected: set<int>) returns (done: nat)
    requires db.Valid() && db.tablesCreated
    requires forall j :: 0 <= j < |order| ==> order[j] in marks
    modifies db`attendance, db`nextAttendanceId
    ensures db.Valid()
    ensures done <= |order|
    ensures forall j :: 0 <= j < done ==> order[j] !in rejected
    ensures done < |order| ==> order[done] in rejected
    ensures db.attendance == UpsertAll(old(db.attendance), SaveRecords(order[..done], marks, date, old(db.nextAttendanceId), now))
    ensures db.nextAttendanceId == old(db.nextAttendanceId) + done
  {
    ghost var rows0 := db.attendance;
    ghost var firstId := db.nextAttendanceId;
    done := 0;
    while done < |order|
      invariant done <= |order|
      invariant forall j :: 0 <= j < done ==> order[j] !in rejected
      invariant db.Valid() && db.tablesCreated
      invariant db.attendance == UpsertAll(rows0, SaveRecords(order[..done], marks, date, firstId, now))
      invariant db.nextAttendanceId == firstId + done
    {
      if order[done] in rejected {
        return;
      }
      assert forall j :: 0 <= j < done + 1 ==> order[j] !in rejected;
      WriteMark(db, rows0, order, done, marks, date, firstId, now);
      done := done + 1;
    }
  }

  class AttendanceView {
    var roster: seq<Student>
    var selectedDate: string
    var marks: map<int, string>

    /** `today` is the `YYYY-MM-DD` part of the current time. */
    constructor (today: string)
      ensures roster == [] && selectedDate == today && marks == map[]
    {
      roster, selectedDate, marks := [], today, map[];
    }

    /** `loadAttendanceData`: the coach's active students, and the marks
        already stored for the selected day. */
    method Load(db: Database, coach: Option<Coach>)
      modifies this`roster, this`marks
      ensures roster == ActiveRoster(StudentsByCoach(db.students, CoachIdOr1(coach)))
      ensures marks == MarksOf(AttendanceByDate(db.attendance, db.students, CoachIdOr1(coach), selectedDate))
    {
      var coachId := CoachIdOr1(coach);
      var active := ActiveRoster(StudentsByCoach(db.students, coachId));
      var records := AttendanceByDate(db.attendance, db.students, coachId, selectedDate);
      var m := ReadMarks(records);
      roster, marks := active, m;
    }

    /** `toggleAttendance(id)`: only that student's entry changes. */
    method Toggle(id: int)
      modifies this`marks
      ensures marks == old(marks)[id := Toggled(old(marks), id)]
    {
      marks := marks[id := Toggled(marks, id)];
    }

    /** `markAllPresent` / `markAllAbsent`: a fresh map with one entry per
        roster student, all the same; entries off the roster are dropped. */
    method MarkAll(status: string)
      modifies this`marks
      ensures forall k :: k in marks <==> exists s :: s in roster && s.id == k
      ensures forall k :: k in marks ==> marks[k] == status
    {
      var m: map<int, string> := map[];
      var i := 0;
      while i < |roster|
        invariant 0 <= i <= |roster|
        invariant forall k :: k in m <==> exists j :: 0 <= j < i && roster[j].id == k
        invariant forall k :: k in m ==> m[k] == status
      {
        m := m[roster[i].id := status];
        i := i + 1;
      }
      marks := m;
    }

    method MarkAllPresent()
      modifies this`marks
      ensures forall k :: k in marks <==> exists s :: s in roster && s.id == k
      ensures forall k :: k in marks ==> marks[k] == Present
    {
      MarkAll(Present);
    }

    method MarkAllAbsent()
      modifies this`marks
      ensures forall k :: k in marks <==> exists s :: s in roster && s.id == k
      ensures forall k :: k in marks ==> marks[k] == Absent
    {
      MarkAll(Absent);
    }

    /** `saveAttendance`: nothing is written for an empty map; otherwise one
        `markAttendance(id, selectedDate, status, '')` per entry, in key
        order, each awaited before the next, stopping at the first failure.
        `written` lists the students whose write went through. */
    method Save(db: Database, now: string, rejected: set<int>) returns (outcome: SaveOutcome, written: seq<int>)
      requires db.Valid() && db.tablesCreated
      modifies db`attendance, db`nextAttendanceId
      ensures db.Valid()
      ensures outcome == NothingMarked <==> marks == map[]
      ensures |written| <= |marks| && written == SortedKeys(marks.Keys)[..|written|]
      ensures forall i :: 0 <= i < |written| ==> written[i] !in rejected
      ensures outcome == Saved ==> |written| == |marks|
      ensures outcome.Failed? ==>
        && |written| < |marks|
        && outcome.studentId == SortedKeys(marks.Keys)[|written|]
        && outcome.studentId in rejected
      ensures forall i :: 0 <= i < |written| ==> written[i] in marks
      ensures db.attendance == UpsertAll(old(db.attendance), SaveRecords(written, marks, selectedDate, old(db.nextAttendanceId), now))
      ensures db.nextAttendanceId == old(db.nextAttendanceId) + |written|
    {
      if |marks| == 0 {
        assert marks.Keys == {};
        return NothingMarked, [];
      }
      var order := KeyOrder(marks.Keys);
      var done := WriteInOrder(db, order, marks, selectedDate, now, rejected);
      written := order[..done];
      outcome := if done == |order| then Saved else Failed(order[done]);
    }
  }
}
