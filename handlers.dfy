/**
  The route handlers of server.js. Each handler takes the store and the
  request's path id and body fields and returns an abstract response: a
  status and either a redirect target, a template with its data, or a JSON
  payload. Each `...Fault` argument says whether the corresponding statement
  fails inside the engine.
 */
module Handlers {
  import opened Wrappers
  import opened Grading
  import opened Storage
  import opened Paths

  /** A template and the data handed to it. */
  datatype View =
    | StudentsPage(students: seq<Student>)
    | StudentResultsPage(student: Student, results: seq<ResultRow>)
    | NewResultPage(found: Option<Student>)  // the `student` key, possibly absent

  /** The template name each view renders. */
  function Template(v: View): string {
    match v
    case StudentsPage(_) => "students"
    case StudentResultsPage(_, _) => "student-results"
    case NewResultPage(_) => "new-result"
  }

  /** The `error` field of a JSON error body: the engine's message, or a fixed text. */
  datatype ErrorText = EngineMessage(cause: DbError) | Text(text: string)

  datatype Body =
    | Redirect(location: string)
    | Render(view: View)
    | JsonError(error: ErrorText)
    | JsonRows(rows: seq<ResultRow>)

  datatype Response = Response(status: int, body: Body)

  /** `res.status(500).json({ error: err.message })`. */
  function StorageFailure(e: DbError): Response {
    Response(500, JsonError(EngineMessage(e)))
  }

  /** `res.status(404).json({ error: 'Student not found' })`. */
  const StudentNotFound: Response := Response(404, JsonError(Text("Student not found")))

  /** Every stored grade is the calculator's letter for the stored mark. */
  ghost predicate GradesDerived(rs: seq<ResultRow>) {
    forall r :: r in rs ==> r.grade == CalculateGrade(r.marks)
  }

  /** GET /students: the whole students table, or 500. */
  method ListStudents(db: Store, fault: bool) returns (resp: Response)
    requires db.Valid()
    modifies db`log
    ensures db.Valid()
    ensures db.log == old(db.log) + [SelectStudents]
    ensures fault ==> resp == StorageFailure(EngineFailure)
    ensures !fault ==>
              && resp.status == 200 && resp.body.Render? && resp.body.view.StudentsPage?
              && multiset(resp.body.view.students) == multiset(db.students)
  {
    var rows := db.AllStudents(fault);
    if rows.Err? {
      return StorageFailure(rows.error);
    }
    resp := Response(200, Render(StudentsPage(rows.value)));
  }

  /** POST /students: one insert, then a redirect to the list, or 500 with the constraint or engine error. */
  method CreateStudent(db: Store, name: Option<string>, rollNumber: Option<string>, email: Option<string>, fault: bool)
    returns (resp: Response)
    requires db.Valid()
    modifies db
    ensures db.Valid()
    ensures db.log == old(db.log) + [InsertIntoStudents]
    ensures db.results == old(db.results) && db.nextResultId == old(db.nextResultId)
    ensures resp.status == 302 <==>
              && !fault && name.Some? && rollNumber.Some? && email.Some?
              && !RollNumberTaken(old(db.students), rollNumber.value)
              && !EmailTaken(old(db.students), email.value)
    ensures resp.status == 302 ==>
              && resp.body == Redirect("/students")
              && !StudentExists(old(db.students), old(db.nextStudentId))
              && db.students == old(db.students) + [Student(old(db.nextStudentId), name.value, rollNumber.value, email.value)]
              && db.nextStudentId == old(db.nextStudentId) + 1
    ensures resp.status != 302 ==>
              && db.students == old(db.students) && db.nextStudentId == old(db.nextStudentId)
              && resp == StorageFailure(
                           if fault then EngineFailure
                           else if name.None? || rollNumber.None? || email.None? then NotNullFailed
                           else UniqueFailed)
  {
    var inserted := db.InsertStudent(name, rollNumber, email, fault);
    if inserted.Err? {
      return StorageFailure(inserted.error);
    }
    resp := Response(302, Redirect("/students"));
  }

  /**
    GET /students/:id/results: look the student up; on a miss answer 404
    without querying the results; otherwise render the student with exactly
    that student's results.
   */
  method ShowStudentResults(db: Store, id: int, studentFault: bool, resultsFault: bool) returns (resp: Response)
    requires db.Valid()
    modifies db`log
    ensures db.Valid()
    ensures studentFault ==>
              resp == StorageFailure(EngineFailure) && db.log == old(db.log) + [SelectStudent(id)]
    ensures !studentFault && !StudentExists(db.students, id) ==>
              resp == StudentNotFound && db.log == old(db.log) + [SelectStudent(id)]
    ensures !studentFault && StudentExists(db.students, id) ==>
              && db.log == old(db.log) + [SelectStudent(id), SelectResultsOf(id)]
              && (resultsFault ==> resp == StorageFailure(EngineFailure))
              && (!resultsFault ==>
                    && resp.status == 200 && resp.body.Render? && resp.body.view.StudentResultsPage?
                    && resp.body.view.student in db.students && resp.body.view.student.id == id
                    && IsSelection(resp.body.view.results, db.results, id))
  {
    var found := db.GetStudent(id, studentFault);
    if found.Err? {
      return StorageFailure(found.error);
    }
    if found.value.None? {
      return StudentNotFound;
    }
    var rows := db.ResultsOf(id, resultsFault);
    if rows.Err? {
      return StorageFailure(rows.error);
    }
    resp := Response(200, Render(StudentResultsPage(found.value.value, rows.value)));
  }

  /**
    GET /students/:id/results/new: render the result form with whatever the
    lookup found; a missing student is passed on as absent, never a 404.
   */
  method NewResultForm(db: Store, id: int, fault: bool) returns (resp: Response)
    requires db.Valid()
    modifies db`log
    ensures db.Valid()
    ensures db.log == old(db.log) + [SelectStudent(id)]
    ensures resp.status != 404
    ensures fault ==> resp == StorageFailure(EngineFailure)
    ensures !fault ==>
              && resp.status == 200 && resp.body.Render? && resp.body.view.NewResultPage?
              && (resp.body.view.found.None? <==> !StudentExists(db.students, id))
              && (resp.body.view.found.Some? ==>
                    resp.body.view.found.value in db.students && resp.body.view.found.value.id == id)
  {
    var found := db.GetStudent(id, fault);
    if found.Err? {
      return StorageFailure(found.error);
    }
    resp := Response(200, Render(NewResultPage(found.value)));
  }

  /**
    POST /students/:id/results: compute the grade from the mark, insert one
    result under the path id (the student is not looked up), redirect to
    that student's results page.
   */
  method CreateResult(db: Store, id: int, subject: Option<string>, marks: Option<int>, semester: Option<string>,
                      fault: bool)
    returns (resp: Response)
    requires db.Valid()
    modifies db
    ensures db.Valid()
    ensures db.log == old(db.log) + [InsertIntoResults]
    ensures db.students == old(db.students) && db.nextStudentId == old(db.nextStudentId)
    ensures resp.status == 302 <==> !fault && subject.Some? && marks.Some? && semester.Some?
    ensures resp.status == 302 ==>
              && resp.body == Redirect(ResultsPath(id))
              && db.results == old(db.results) +
                   [ResultRow(old(db.nextResultId), id, subject.value, marks.value, CalculateGrade(marks.value), semester.value)]
              && db.nextResultId == old(db.nextResultId) + 1
    ensures resp.status != 302 ==>
              && db.results == old(db.results) && db.nextResultId == old(db.nextResultId)
              && resp == StorageFailure(if fault then EngineFailure else NotNullFailed)
    ensures GradesDerived(old(db.results)) ==> GradesDerived(db.results)
  {
    // A missing mark is `undefined`, and `undefined >= n` is false for every
    // threshold, so the calculator falls through to F; the insert then fails.
    var grade := if marks.Some? then CalculateGrade(marks.value) else "F";
    var inserted := db.InsertResult(id, subject, marks, grade, semester, fault);
    if inserted.Err? {
      return StorageFailure(inserted.error);
    }
    resp := Response(302, Redirect(ResultsPath(id)));
  }

  /** GET /api/students/:id/results: that student's results as JSON, in any order. */
  method ApiStudentResults(db: Store, id: int, fault: bool) returns (resp: Response)
    requires db.Valid()
    modifies db`log
    ensures db.Valid()
    ensures db.log == old(db.log) + [SelectResultsOf(id)]
    ensures fault ==> resp == StorageFailure(EngineFailure)
    ensures !fault ==> resp.status == 200 && resp.body.JsonRows? && IsSelection(resp.body.rows, db.results, id)
  {
    var rows := db.ResultsOf(id, fault);
    if rows.Err? {
      return StorageFailure(rows.error);
    }
    resp := Response(200, JsonRows(rows.value));
  }
}
