/**
  The two tables of the SQLite database (server.js createTables) as an
  in-memory store. The store enforces what the schema declares: auto-increment
  primary keys, NOT NULL columns, and roll_number and email each UNIQUE among
  students. A result's student_id is stored as given and never checked against
  the students table. Each statement may also fail inside the engine; that
  failure is the `fault` argument, chosen by the caller's environment.
 */
module Storage {
  import opened Wrappers

  datatype Student = Student(id: int, name: string, rollNumber: string, email: string)

  datatype ResultRow = ResultRow(id: int, studentId: int, subject: string, marks: int, grade: string, semester: string)

  /** Why a statement failed; the engine's message text is not modelled. */
  datatype DbError = NotNullFailed | UniqueFailed | EngineFailure

  datatype DbResult<T> = Ok(value: T) | Err(error: DbError)

  /** The single SQL statements the handlers issue, in the order they are issued. */
  datatype Statement =
    | InsertIntoStudents
    | SelectStudent(id: int)
    | SelectStudents
    | InsertIntoResults
    | SelectResultsOf(studentId: int)

  predicate StudentExists(ss: seq<Student>, id: int) {
    exists s :: s in ss && s.id == id
  }

  predicate RollNumberTaken(ss: seq<Student>, rollNumber: string) {
    exists s :: s in ss && s.rollNumber == rollNumber
  }

  predicate EmailTaken(ss: seq<Student>, email: string) {
    exists s :: s in ss && s.email == email
  }

  /**
    Keys of the students table: ids handed out by the counter, increasing in
    insertion order (hence distinct), roll numbers and emails pairwise distinct.
   */
  ghost predicate StudentsWellFormed(ss: seq<Student>, nextId: int) {
    && 1 <= nextId
    && (forall i :: 0 <= i < |ss| ==> 1 <= ss[i].id < nextId)
    && (forall i, j :: 0 <= i < j < |ss| ==>
          ss[i].id < ss[j].id && ss[i].rollNumber != ss[j].rollNumber && ss[i].email != ss[j].email)
  }

  /** Keys of the results table: counter-issued, increasing ids. */
  ghost predicate ResultsWellFormed(rs: seq<ResultRow>, nextId: int) {
    && 1 <= nextId
    && (forall i :: 0 <= i < |rs| ==> 1 <= rs[i].id < nextId)
    && (forall i, j :: 0 <= i < j < |rs| ==> rs[i].id < rs[j].id)
  }

  /** Appending a row with the counter's id and unused keys keeps the students table well formed. */
  lemma StudentAppendKeepsKeys(ss: seq<Student>, nextId: int, s: Student)
    requires StudentsWellFormed(ss, nextId) && s.id == nextId
    requires !RollNumberTaken(ss, s.rollNumber) && !EmailTaken(ss, s.email)
    ensures StudentsWellFormed(ss + [s], nextId + 1)
  {
  }

  /** Appending a row with the counter's id keeps the results table well formed. */
  lemma ResultAppendKeepsKeys(rs: seq<ResultRow>, nextId: int, r: ResultRow)
    requires ResultsWellFormed(rs, nextId) && r.id == nextId
    ensures ResultsWellFormed(rs + [r], nextId + 1)
  {
  }

  /** `SELECT * FROM students WHERE id = ?`: the row with that id, if any. */
  function FindStudent(ss: seq<Student>, id: int): (found: Option<Student>)
    ensures found.Some? ==> found.value in ss && found.value.id == id
    ensures found.None? <==> !StudentExists(ss, id)
  {
    if ss == [] then None
    else if ss[0].id == id then Some(ss[0])
    else FindStudent(ss[1..], id)
  }

  /**
    `rows` is what `WHERE student_id = id` may return from `table`, in any
    order: every row of that student as often as in the table, no other row.
   */
  ghost predicate IsSelection(rows: seq<ResultRow>, table: seq<ResultRow>, studentId: int) {
    forall r :: multiset(rows)[r] == if r.studentId == studentId then multiset(table)[r] else 0
  }

  /** `SELECT * FROM results WHERE student_id = ?`, in table order. */
  function SelectResults(rs: seq<ResultRow>, studentId: int): (out: seq<ResultRow>)
    ensures IsSelection(out, rs, studentId)
  {
    if rs == [] then []
    else
      assert rs == [rs[0]] + rs[1..];
      var rest := SelectResults(rs[1..], studentId);
      if rs[0].studentId == studentId then [rs[0]] + rest else rest
  }

  /** A selection holds exactly the table's rows of that student. */
  lemma SelectionMembers(rows: seq<ResultRow>, table: seq<ResultRow>, studentId: int)
    requires IsSelection(rows, table, studentId)
    ensures forall r :: r in rows <==> r in table && r.studentId == studentId
  {
  }

  class Store {
    var students: seq<Student>
    var results: seq<ResultRow>
    /** The AUTOINCREMENT counters: the id the next successful insert gets. */
    var nextStudentId: int
    var nextResultId: int
    /** Every statement issued against the store so far. */
    ghost var log: seq<Statement>

    ghost predicate Valid()
      reads this
    {
      StudentsWellFormed(students, nextStudentId) && ResultsWellFormed(results, nextResultId)
    }

    /** Freshly created tables: empty, counters at 1. */
    constructor ()
      ensures Valid()
      ensures students == [] && results == [] && nextStudentId == 1 && nextResultId == 1 && log == []
    {
      students, results := [], [];
      nextStudentId, nextResultId := 1, 1;
      log := [];
    }

    /** `INSERT INTO students (name, roll_number, email) VALUES (?, ?, ?)`. */
    method InsertStudent(name: Option<string>, rollNumber: Option<string>, email: Option<string>, fault: bool)
      returns (r: DbResult<int>)
      requires Valid()
      modifies this
      ensures Valid()
      ensures log == old(log) + [InsertIntoStudents]
      ensures results == old(results) && nextResultId == old(nextResultId)
      ensures r.Ok? <==>
                && !fault && name.Some? && rollNumber.Some? && email.Some?
                && !RollNumberTaken(old(students), rollNumber.value)
                && !EmailTaken(old(students), email.value)
      ensures r.Ok? ==>
                && r.value == old(nextStudentId)
                && !StudentExists(old(students), r.value)
                && students == old(students) + [Student(r.value, name.value, rollNumber.value, email.value)]
                && nextStudentId == r.value + 1
      ensures r.Err? ==>
                && students == old(students) && nextStudentId == old(nextStudentId)
                && r.error == if fault then EngineFailure
                              else if name.None? || rollNumber.None? || email.None? then NotNullFailed
                              else UniqueFailed
    {
      log := log + [InsertIntoStudents];
      if fault {
        return Err(EngineFailure);
      }
      if name.None? || rollNumber.None? || email.None? {
        return Err(NotNullFailed);
      }
      if RollNumberTaken(students, rollNumber.value) || EmailTaken(students, email.value) {
        return Err(UniqueFailed);
      }
      r := Ok(nextStudentId);
      StudentAppendKeepsKeys(students, nextStudentId, Student(nextStudentId, name.value, rollNumber.value, email.value));
      students := students + [Student(nextStudentId, name.value, rollNumber.value, email.value)];
      nextStudentId := nextStudentId + 1;
    }

    /** `SELECT * FROM students WHERE id = ?` through `db.get`: at most one row. */
    method GetStudent(id: int, fault: bool) returns (r: DbResult<Option<Student>>)
      requires Valid()
      modifies this`log
      ensures Valid()
      ensures log == old(log) + [SelectStudent(id)]
      ensures fault ==> r == Err(EngineFailure)
      ensures !fault ==> r.Ok?
      ensures r.Ok? && r.value.Some? ==> r.value.value in students && r.value.value.id == id
      ensures r.Ok? && r.value.None? ==> !StudentExists(students, id)
    {
      log := log + [SelectStudent(id)];
      if fault {
        return Err(EngineFailure);
      }
      r := Ok(FindStudent(students, id));
    }

    /** `SELECT * FROM students`, in an order the engine chooses. */
    method AllStudents(fault: bool) returns (r: DbResult<seq<Student>>)
      requires Valid()
      modifies this`log
      ensures Valid()
      ensures log == old(log) + [SelectStudents]
      ensures fault ==> r == Err(EngineFailure)
      ensures !fault ==> r.Ok? && multiset(r.value) == multiset(students)
    {
      log := log + [SelectStudents];
      if fault {
        return Err(EngineFailure);
      }
      r := Ok(students);
    }

    /**
      `INSERT INTO results (student_id, subject, marks, grade, semester)`.
      The student id is stored without looking at the students table.
     */
    method InsertResult(studentId: int, subject: Option<string>, marks: Option<int>, grade: string,
                        semester: Option<string>, fault: bool)
      returns (r: DbResult<int>)
      requires Valid()
      modifies this
      ensures Valid()
      ensures log == old(log) + [InsertIntoResults]
      ensures students == old(students) && nextStudentId == old(nextStudentId)
      ensures r.Ok? <==> !fault && subject.Some? && marks.Some? && semester.Some?
      ensures r.Ok? ==>
                && r.value == old(nextResultId)
                && results == old(results) + [ResultRow(r.value, studentId, subject.value, marks.value, grade, semester.value)]
                && nextResultId == r.value + 1
      ensures r.Err? ==>
                && results == old(results) && nextResultId == old(nextResultId)
                && r.error == if fault then EngineFailure else NotNullFailed
    {
      log := log + [InsertIntoResults];
      if fault {
        return Err(EngineFailure);
      }
      if subject.None? || marks.None? || semester.None? {
        return Err(NotNullFailed);
      }
      r := Ok(nextResultId);
      ResultAppendKeepsKeys(results, nextResultId, ResultRow(nextResultId, studentId, subject.value, marks.value, grade, semester.value));
      results := results + [ResultRow(nextResultId, studentId, subject.value, marks.value, grade, semester.value)];
      nextResultId := nextResultId + 1;
    }

    /** `SELECT * FROM results WHERE student_id = ?`, in an order the engine chooses. */
    method ResultsOf(studentId: int, fault: bool) returns (r: DbResult<seq<ResultRow>>)
      requires Valid()
      modifies this`log
      ensures Valid()
      ensures log == old(log) + [SelectResultsOf(studentId)]
      ensures fault ==> r == Err(EngineFailure)
      ensures !fault ==> r.Ok? && IsSelection(r.value, results, studentId)
    {
      log := log + [SelectResultsOf(studentId)];
      if fault {
        return Err(EngineFailure);
      }
      r := Ok(SelectResults(results, studentId));
    }
  }
}
