/**
  Request sequences against fresh tables, proved from the handlers'
  contracts alone. StoreWithJohn is the student post of the repository's
  test suite; the others combine the routes further.
 */
module Scenarios {
  import opened Wrappers
  import opened Storage
  import opened Paths
  import opened Handlers

  /** Fresh tables after `POST /students` with the test suite's student. */
  method StoreWithJohn() returns (db: Store, created: Response)
    ensures fresh(db) && db.Valid()
    ensures created == Response(302, Redirect("/students"))
    ensures db.students == [Student(1, "John Doe", "2021001", "john.doe@example.com")]
    ensures db.results == [] && db.nextStudentId == 2 && db.nextResultId == 1
  {
    db := new Store();
    created := CreateStudent(db, Some("John Doe"), Some("2021001"), Some("john.doe@example.com"), false);
  }

  /** Creating a student redirects to the list, and the list then shows that student. */
  method CreateStudentThenList() returns (created: Response, listed: Response)
    ensures created == Response(302, Redirect("/students"))
    ensures listed.status == 200 && listed.body.Render? && listed.body.view.StudentsPage?
    ensures Student(1, "John Doe", "2021001", "john.doe@example.com") in listed.body.view.students
  {
    var db;
    db, created := StoreWithJohn();
    listed := ListStudents(db, false);
    assert Student(1, "John Doe", "2021001", "john.doe@example.com") in multiset(db.students);
  }

  /** A second student with a roll number already in use gets 500 and is not stored. */
  method DuplicateRollNumber() returns (first: Response, second: Response, listed: Response)
    ensures first.status == 302
    ensures second == StorageFailure(UniqueFailed)
    ensures listed.status == 200 && listed.body.Render? && listed.body.view.StudentsPage?
    ensures |listed.body.view.students| == 1
  {
    var db;
    db, first := StoreWithJohn();
    assert db.students[0].rollNumber == "2021001";
    second := CreateStudent(db, Some("Jane Roe"), Some("2021001"), Some("jane.roe@example.com"), false);
    listed := ListStudents(db, false);
    assert |multiset(listed.body.view.students)| == |multiset(db.students)|;
  }

  /** A result posted with mark 55 redirects to the student's page and is listed with grade C. */
  method AddResultThenFetch() returns (posted: Response, fetched: Response)
    ensures posted == Response(302, Redirect("/students/1/results"))
    ensures fetched.status == 200 && fetched.body.JsonRows?
    ensures ResultRow(1, 1, "Math", 55, "C", "Fall2024") in fetched.body.rows
  {
    var db, created := StoreWithJohn();
    posted := CreateResult(db, 1, Some("Math"), Some(55), Some("Fall2024"), false);
    assert Decimal(1) == "1" by {
      assert DigitChar(1) == '1';
      assert Digits(1) == [DigitChar(1)];
    }
    fetched := ApiStudentResults(db, 1, false);
    SelectionMembers(fetched.body.rows, db.results, 1);
  }

  /**
    A result can be posted for a student that does not exist: it is stored
    and served by the JSON route, the results page answers 404, and the
    result form still renders, with no student.
   */
  method ResultForMissingStudent() returns (posted: Response, page: Response, form: Response, fetched: Response)
    ensures posted.status == 302
    ensures page == StudentNotFound
    ensures form == Response(200, Render(NewResultPage(None)))
    ensures fetched.status == 200 && fetched.body.JsonRows?
    ensures ResultRow(1, 42, "Math", 95, "A+", "Fall2024") in fetched.body.rows
  {
    var db := new Store();
    posted := CreateResult(db, 42, Some("Math"), Some(95), Some("Fall2024"), false);
    page := ShowStudentResults(db, 42, false, false);
    form := NewResultForm(db, 42, false);
    fetched := ApiStudentResults(db, 42, false);
    SelectionMembers(fetched.body.rows, db.results, 42);
  }
}
