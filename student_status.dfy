/**
 * The admin student-status page: the fetched users become rows with derived
 * demo fields and a pending status, a row's status can be rewritten by id, and
 * two flags track the fetch and the bulk submit.
 */
module StudentStatus {
  import opened Wrappers

  /** A fetched user; `company` is absent when the record carries no company object. */
  datatype User = User(name: string, email: string, phone: string, company: Option<string>)

  /** One row of the status table. */
  datatype Student = Student(
    id: int, name: string, email: string, phone: string, college: string,
    degree: string, year: int, birthDate: string, status: string)

  const DEGREE_CYCLE: seq<string> := ["B.Sc", "B.Com", "B.A"]
  const PENDING := "Pending"

  function DigitChar(d: nat): (c: char)
    requires d < 10
    ensures '0' <= c <= '9' && c as int - '0' as int == d
  {
    ('0' as int + d) as char
  }

  /**
   * The row for the user at (0-based) position `index`: id index+1, the
   * user's own name, e-mail, phone and company name, demo degree, year and
   * birth date derived from the index, and status Pending.
   */
  function FormatRow(u: User, index: nat): (r: Student)
    requires u.company.Some?
    ensures r.id == index + 1 && r.status == PENDING
    ensures r.name == u.name && r.email == u.email && r.phone == u.phone && r.college == u.company.value
    ensures r.degree == DEGREE_CYCLE[index % 3] && r.degree in {"B.Sc", "B.Com", "B.A"}
    ensures r.year == 2025 - index % 4 && 2022 <= r.year <= 2025
    ensures |r.birthDate| == 10 && r.birthDate[..3] == "199" && r.birthDate[4..] == "-01-01"
    ensures r.birthDate[3] as int - '0' as int == index % 10
  {
    Student(index + 1, u.name, u.email, u.phone, u.company.value,
            DEGREE_CYCLE[index % 3], 2025 - index % 4,
            "199" + [DigitChar(index % 10)] + "-01-01", PENDING)
  }

  /**
   * The rows for the fetched users, in order. Reading the company name of a
   * user without a company throws, and the page then keeps no rows at all.
   */
  function FormatRows(users: seq<User>): (r: Option<seq<Student>>)
    ensures r.Some? <==> forall i :: 0 <= i < |users| ==> users[i].company.Some?
    ensures r.Some? ==> |r.value| == |users|
    ensures r.Some? ==> forall i :: 0 <= i < |users| ==> r.value[i] == FormatRow(users[i], i)
    ensures r.Some? ==> forall i :: 0 <= i < |users| ==>
      r.value[i].id == i + 1 && r.value[i].status == PENDING &&
      r.value[i].name == users[i].name && r.value[i].college == users[i].company.value
  {
    if forall i :: 0 <= i < |users| ==> users[i].company.Some? then
      Some(seq(|users|, i requires 0 <= i < |users| => FormatRow(users[i], i)))
    else None
  }

  /** Formatted ids are distinct and run from 1 to the number of rows. */
  lemma FormattedIdsDistinct(users: seq<User>)
    requires FormatRows(users).Some?
    ensures var rows := FormatRows(users).value;
      (forall i :: 0 <= i < |rows| ==> 1 <= rows[i].id <= |rows|) &&
      (forall i, j :: 0 <= i < j < |rows| ==> rows[i].id != rows[j].id)
  {
  }

  /**
   * The rows after the status of the row with the given id is set to s:
   * same length and order and ids, the matching rows get s with every other
   * field kept, the other rows stay as they were.
   */
  function UpdateStatus(rows: seq<Student>, id: int, s: string): (r: seq<Student>)
    ensures |r| == |rows|
    ensures forall i :: 0 <= i < |rows| ==> r[i].id == rows[i].id
    ensures forall i :: 0 <= i < |rows| && rows[i].id == id ==> r[i] == rows[i].(status := s)
    ensures forall i :: 0 <= i < |rows| && rows[i].id != id ==> r[i] == rows[i]
  {
    if rows == [] then []
    else [if rows[0].id == id then rows[0].(status := s) else rows[0]] + UpdateStatus(rows[1..], id, s)
  }

  /** Setting the same status twice is the same as setting it once. */
  lemma UpdateStatusIdempotent(rows: seq<Student>, id: int, s: string)
    ensures UpdateStatus(UpdateStatus(rows, id, s), id, s) == UpdateStatus(rows, id, s)
  {
  }

  /** A later status for the same id overrides an earlier one. */
  lemma UpdateStatusLastWins(rows: seq<Student>, id: int, s: string, t: string)
    ensures UpdateStatus(UpdateStatus(rows, id, s), id, t) == UpdateStatus(rows, id, t)
  {
  }

  /** Changes to two different ids commute. */
  lemma UpdateStatusCommutes(rows: seq<Student>, id1: int, s: string, id2: int, t: string)
    requires id1 != id2
    ensures UpdateStatus(UpdateStatus(rows, id1, s), id2, t) == UpdateStatus(UpdateStatus(rows, id2, t), id1, s)
  {
  }

  /** On freshly formatted rows, id k rewrites row k-1 and nothing else. */
  lemma UpdateFormattedRow(users: seq<User>, k: int, s: string)
    requires FormatRows(users).Some?
    requires 1 <= k <= |users|
    ensures var rows := FormatRows(users).value;
      var r := UpdateStatus(rows, k, s);
      r[k - 1] == rows[k - 1].(status := s) &&
      forall i :: 0 <= i < |rows| && i != k - 1 ==> r[i] == rows[i]
  {
  }

  /** What the user fetch settled with. */
  datatype FetchResult = Fetched(users: seq<User>) | FetchFailed

  /** The page's state: the rows and the loading and submitting flags. */
  class StudentStatusPage {
    var students: seq<Student>
    var loading: bool
    var submitting: bool

    /** At mount: no rows, loading, not submitting. */
    constructor ()
      ensures students == [] && loading && !submitting
    {
      students := [];
      loading := true;
      submitting := false;
    }

    /** The table and the submit button are shown only once loading is over. */
    predicate TableShown()
      reads this
    {
      !loading
    }

    /** The submit button can be pressed: it is shown and not disabled. */
    predicate SubmitEnabled()
      reads this
    {
      TableShown() && !submitting
    }

    /**
     * The fetch settles: on success with well-formed users the rows are
     * replaced by their formatting; on any failure the rows are kept. Either
     * way loading ends.
     */
    method FetchSettled(result: FetchResult)
      modifies this
      ensures !loading && submitting == old(submitting)
      ensures result.Fetched? && FormatRows(result.users).Some? ==>
        students == FormatRows(result.users).value
      ensures result.FetchFailed? || FormatRows(result.users).None? ==> students == old(students)
    {
      if result.Fetched? {
        var rows := FormatRows(result.users);
        if rows.Some? {
          students := rows.value;
        }
      }
      loading := false;
    }

    /** The status menu of row `id` picks s. */
    method HandleStatusChange(id: int, s: string)
      modifies this
      ensures students == UpdateStatus(old(students), id, s)
      ensures loading == old(loading) && submitting == old(submitting)
    {
      students := UpdateStatus(students, id, s);
    }

    /** The submit handler: submitting starts; returns the rows its completion reports. */
    method HandleSubmit() returns (snapshot: seq<Student>)
      modifies this
      ensures submitting && snapshot == students
      ensures students == old(students) && loading == old(loading)
    {
      submitting := true;
      snapshot := students;
    }

    /** A press on the submit button, which fires the handler only while enabled. */
    method PressSubmit() returns (fired: bool, snapshot: seq<Student>)
      modifies this
      ensures fired == old(SubmitEnabled())
      ensures fired ==> submitting && snapshot == students
      ensures !fired ==> submitting == old(submitting)
      ensures students == old(students) && loading == old(loading)
    {
      fired := SubmitEnabled();
      snapshot := [];
      if fired {
        snapshot := HandleSubmit();
      }
    }

    /** The delayed completion: submitting ends and the button is enabled again. */
    method SubmitCompleted()
      modifies this
      ensures !submitting
      ensures students == old(students) && loading == old(loading)
      ensures !loading ==> SubmitEnabled()
    {
      submitting := false;
    }
  }
}
