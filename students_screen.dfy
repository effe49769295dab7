/**
 * The list logic of src/screens/StudentsScreen.js: the coach's students are
 * loaded into the store, and the screen shows the ones that pass the status
 * tab and the search box.
 */
module StudentsScreen {
  import opened Common
  import opened Seqs
  import opened Text
  import opened DbSchema
  import opened DbQueries
  import opened Db
  import opened Store

  const AllStatuses := "all"

  function StatusIs(status: string): Student -> bool
  {
    (s: Student) => s.status == status
  }

  /** The search test: the lower-cased name or e-mail contains the lower-cased
      query, or the phone contains the query as typed. The query is matched
      untrimmed; trimming only decides whether the search applies. */
  predicate MatchesQuery(s: Student, query: string)
  {
    || Includes(Lower(s.name), Lower(query))
    || (s.email.Some? && Includes(Lower(s.email.value), Lower(query)))
    || (s.phone.Some? && Includes(s.phone.value, query))
  }

  /** The search ignores ASCII case in names: a student whose name contains
      the query in any mix of upper and lower case matches it. */
  lemma NameMatchIgnoresCase(s: Student, query: string, i: nat)
    requires i + |query| <= |s.name|
    requires SameUpToCase(s.name[i..i + |query|], query)
    ensures MatchesQuery(s, query)
  {
    var piece := s.name[i..i + |query|];
    LowerIdentifiesCase(piece, query);
    var name := Lower(s.name);
    assert name[i..][..|query|] == Lower(piece);
    assert IsPrefix(Lower(query), name[i..]);
  }

  function QueryMatches(query: string): Student -> bool
  {
    (s: Student) => MatchesQuery(s, query)
  }

  /** `filterStudents(list, query, status)`: the students of the chosen tab
      ('all' keeps every status) that match a non-blank query, in list order. */
  function FilterStudents(list: seq<Student>, query: string, status: string): (r: seq<Student>)
    ensures IsSubsequence(r, list)
    ensures forall s :: s in r <==>
      && s in list
      && (status == AllStatuses || s.status == status)
      && (Trim(query) == [] || MatchesQuery(s, query))
  {
    var byStatus := if status != AllStatuses then Filter(list, StatusIs(status)) else list;
    assert IsSubsequence(byStatus, list) by {
      if status != AllStatuses {
        FilterIsSubsequence(list, StatusIs(status));
      } else {
        SubsequenceReflexive(list);
      }
    }
    if Trim(query) != [] then
      FilterIsSubsequence(byStatus, QueryMatches(query));
      SubsequenceTransitive(Filter(byStatus, QueryMatches(query)), byStatus, list);
      Filter(byStatus, QueryMatches(query))
    else byStatus
  }

  lemma {:induction false} SubsequenceReflexive<T>(s: seq<T>)
    ensures IsSubsequence(s, s)
  {
    if s != [] {
      SubsequenceReflexive(s[1..]);
    }
  }

  /** The 'all' tab with a blank search box shows the whole list. */
  lemma AllTabBlankQueryShowsAll(list: seq<Student>, query: string)
    requires Trim(query) == []
    ensures FilterStudents(list, query, AllStatuses) == list
  {
  }

  /** Filtering the shown list again with the same settings changes nothing. */
  lemma {:induction false} FilterStudentsIdempotent(list: seq<Student>, query: string, status: string)
    ensures FilterStudents(FilterStudents(list, query, status), query, status) == FilterStudents(list, query, status)
  {
    var shown := FilterStudents(list, query, status);
    if status != AllStatuses {
      assert forall i :: 0 <= i < |shown| ==> StatusIs(status)(shown[i]) by {
        forall i | 0 <= i < |shown| ensures StatusIs(status)(shown[i]) {
          assert shown[i] in shown;
        }
      }
      FilterAll(shown, StatusIs(status));
    }
    if Trim(query) != [] {
      assert forall i :: 0 <= i < |shown| ==> QueryMatches(query)(shown[i]) by {
        forall i | 0 <= i < |shown| ensures QueryMatches(query)(shown[i]) {
          assert shown[i] in shown;
        }
      }
      FilterAll(shown, QueryMatches(query));
    }
  }

  /** A student passes the tab and the search box. */
  predicate ShownUnder(s: Student, query: string, status: string)
  {
    (status == AllStatuses || s.status == status) && (Trim(query) == [] || MatchesQuery(s, query))
  }

  /** After a focus reload the list can show a student that the search box
      and the tab on screen exclude: an inactive student named "Ravi" is shown
      although the box holds "ra" and the tab is 'active'. */
  lemma StaleReloadShowsExcluded()
    ensures var ravi := Student(1, 1, "Ravi", None, None, None, None, "2024-01-01", "inactive", 0, None);
            && FilterStudents([ravi], "", AllStatuses) == [ravi]
            && !ShownUnder(ravi, "ra", "active")
            && FilterStudents([ravi], "ra", "active") == []
  {
    var ravi := Student(1, 1, "Ravi", None, None, None, None, "2024-01-01", "inactive", 0, None);
    AllTabBlankQueryShowsAll([ravi], "");
    var r := FilterStudents([ravi], "ra", "active");
    assert ravi !in r;
  }

  /** The counts on the three tabs: all, active, inactive. */
  datatype TabCounts = TabCounts(all: nat, active: nat, inactive: nat)

  function CountTabs(students: seq<Student>): (r: TabCounts)
    ensures r.active + r.inactive <= r.all == |students|
  {
    FilterDisjointCounts(students, StatusIs("active"), StatusIs("inactive"));
    TabCounts(|students|, |Filter(students, StatusIs("active"))|, |Filter(students, StatusIs("inactive"))|)
  }

  /** With a blank search box a status tab lists as many students as its count says. */
  lemma TabCountMatchesList(students: seq<Student>, query: string)
    requires Trim(query) == []
    ensures |FilterStudents(students, query, "active")| == CountTabs(students).active
    ensures |FilterStudents(students, query, "inactive")| == CountTabs(students).inactive
    ensures |FilterStudents(students, query, AllStatuses)| == CountTabs(students).all
  {
  }

  /** The screen's own state: the shown list, the search text and the tab. */
  class StudentsView {
    var filtered: seq<Student>
    var searchQuery: string
    var filterStatus: string

    constructor ()
      ensures filtered == [] && searchQuery == "" && filterStatus == AllStatuses
    {
      filtered, searchQuery, filterStatus := [], "", AllStatuses;
    }

    /** `loadStudents` as the focus effect runs it. The effect's callback is
        created once, with no dependencies, so it calls the first render's
        `loadStudents`, whose search text is '' and whose tab is 'all': the
        coach's students (by name) go to the store and are all shown, whatever
        the search box and the tab now hold. */
    method Load(db: Database, coach: Option<Coach>, store: AppStore)
      modifies store`students, this`filtered
      ensures store.students == StudentsByCoach(db.students, CoachIdOr1(coach))
      ensures filtered == FilterStudents(store.students, "", AllStatuses)
      ensures filtered == store.students
    {
      var list := StudentsByCoach(db.students, CoachIdOr1(coach));
      store.SetStudents(list);
      AllTabBlankQueryShowsAll(list, "");
      filtered := FilterStudents(list, "", AllStatuses);
    }

    /** The reload the screen evidently intends: the same query, with the list
        filtered by the search text and tab the screen currently shows. */
    method LoadWithCurrentSettings(db: Database, coach: Option<Coach>, store: AppStore)
      modifies store`students, this`filtered
      ensures store.students == StudentsByCoach(db.students, CoachIdOr1(coach))
      ensures filtered == FilterStudents(store.students, searchQuery, filterStatus)
      ensures forall s :: s in filtered ==> ShownUnder(s, searchQuery, filterStatus)
    {
      var list := StudentsByCoach(db.students, CoachIdOr1(coach));
      store.SetStudents(list);
      filtered := FilterStudents(list, searchQuery, filterStatus);
    }

    /** `handleSearch(text)`. */
    method HandleSearch(store: AppStore, text: string)
      modifies this`searchQuery, this`filtered
      ensures searchQuery == text
      ensures filtered == FilterStudents(store.students, text, filterStatus)
    {
      searchQuery := text;
      filtered := FilterStudents(store.students, text, filterStatus);
    }

    /** `handleStatusFilter(status)`. */
    method HandleStatusFilter(store: AppStore, status: string)
      modifies this`filterStatus, this`filtered
      ensures filterStatus == status
      ensures filtered == FilterStudents(store.students, searchQuery, status)
    {
      filterStatus := status;
      filtered := FilterStudents(store.students, searchQuery, status);
    }
  }
}
