# Student result portal — a Dafny model

The student result portal is a small server-rendered application that records
students and their exam results per subject. It keeps two SQLite tables
(`students`, `results`), serves HTML views and one JSON route, and computes a
letter grade from each mark when a result is stored.

This project models three parts of it:

- **The grade calculator** (`Grading`). It is a pure function from an integer
  mark to one of `A+ A B+ B C F`. The model proves that it is total, that it
  returns the highest letter whose threshold the mark reaches, that it is
  monotone, and that it gives the right letter at every boundary and for the
  examples in the repository's test suite.
- **The two tables as an in-memory store** (`Storage`). This is a class with
  two `seq` fields and one auto-increment counter per table. Its invariant
  says what the schema declares: ids come from the counter and increase, and
  `roll_number` and `email` are each unique among students. The insert
  methods also enforce the NOT NULL columns. A result's `student_id` is stored
  without any check. Every statement also writes a ghost query log. That log
  is how the handlers state which statements they ran, and in what order.
- **The route handlers** (`Handlers`). Each one is a method that takes the
  store, the path id and the body fields, and returns an abstract response: a
  status plus a redirect target, a template with its data, or a JSON payload.
  `Paths` shows that the redirect target after posting a result is the
  results route of the same student. `Scenarios` runs request sequences on fresh
  tables, with proofs that use only the handlers' contracts. Only
  `StoreWithJohn` replays a request of the repository's test suite (the
  student post); the other sequences are further combinations of the routes.

A storage failure inside the engine is nondeterministic in the source. Here
it is a `fault` argument to each statement, so the caller's environment
decides it. A body field the request leaves out is `None`. The database
stores it as NULL, so a NOT NULL column can then fail.

The schema declares `name TEXT NOT NULL` (server.js:29), which admits an
empty string, so the model accepts an empty name.

## Model

| member | source | states |
|---|---|---|
| `Grading.CalculateGrade` | server.js:147-154 | Every integer mark, including negative ones, gets exactly one of the six letters `A+ A B+ B C F`. |
| `Grading.GradeIsHighestReached` | server.js:147-154 | The returned letter is the one of highest rank (F < C < B < B+ < A < A+) whose threshold (90, 80, 70, 60, 50; F needs none) the mark reaches. This holds in both directions: no other letter has that property. This is what "descending thresholds, first match wins" means. |
| `Grading.GradeMonotone` | server.js:148-153 | A larger mark never gets a lower letter. |
| `Grading.GradeBoundaries` | server.js:148-153 | A mark at each threshold gets that threshold's letter, and one below it gets the next letter down (90→A+, 89→A, …, 50→C, 49→F). Every negative mark gets F. |
| `Grading.GradeExamples` | __tests__/app.test.js:255-260 | The test suite's examples: 95→A+, 85→A, 75→B+, 65→B, 55→C, 45→F. |
| `Storage.FindStudent` | server.js:78 | The lookup by id returns a row of the table with that id, or nothing. It returns nothing exactly when no student has that id. |
| `Storage.SelectResults` | server.js:124 | `WHERE student_id = ?` returns every row of that student as often as the table has it, and no other row. |
| `Storage.SelectionMembers` | server.js:124 | A row is in any such selection exactly when it is in the table and belongs to that student. |
| `Storage.StudentAppendKeepsKeys` | server.js:27-32 | Appending a student that has the counter's id and an unused roll number and email keeps the key constraints: increasing ids and unique roll numbers and emails. |
| `Storage.ResultAppendKeepsKeys` | server.js:34-36 | Appending a result with the counter's id keeps the result ids increasing. |
| `Storage.Store.constructor` | server.js:26-42 | Freshly created tables are empty, both counters start at 1, and the invariant holds. |
| `Storage.Store.InsertStudent` | server.js:27-32 | The insert succeeds exactly when there is no engine fault, all three fields are present, and neither roll number nor email is taken. On success it appends one student with the next counter id, an id no existing student has, and the results table is unchanged. On failure nothing changes, and the error is the engine fault, then NOT NULL, then UNIQUE, in that order. |
| `Storage.Store.GetStudent` | server.js:78 | Unless the engine fails, it returns the student with that id, or absence exactly when there is none. It logs one statement. |
| `Storage.Store.AllStudents` | server.js:51 | Unless the engine fails, it returns the students table in some order (as a multiset, the same rows). |
| `Storage.Store.InsertResult` | server.js:34-42 | It succeeds exactly when there is no engine fault and subject, marks and semester are present. On success it appends one row with the next counter id and the given student id, without consulting the students table. The students table is never changed. |
| `Storage.Store.ResultsOf` | server.js:124 | Unless the engine fails, it returns exactly the rows of that student, in some order. |
| `Paths.DigitsRoundTrip` | server.js:118 | Reading the decimal digits of a natural number back gives that number. |
| `Paths.DecimalRoundTrip` | server.js:118 | Reading back the decimal text of an integer id gives that id. |
| `Paths.RedirectMatchesRoute` | server.js:118 | The redirect `/students/${studentId}/results` matches the route `/students/:id/results` (line 76) with the same id. |
| `Handlers.ListStudents` | server.js:50-57 | With an engine fault it answers 500 with the error. Otherwise it answers 200 and renders `students` with exactly the table's rows. It runs one `SELECT`. |
| `Handlers.CreateStudent` | server.js:64-74 | It answers 302 to `/students` exactly when the insert succeeds. The student table then gains exactly the new student with a fresh id. Otherwise (a reused roll number or email, a missing field, or a fault) it answers 500 with the error, and the students table is unchanged. The results table is never touched. |
| `Handlers.ShowStudentResults` | server.js:76-95 | With a lookup fault it answers 500. If no student has the id, it answers 404 `{error: "Student not found"}` and runs no results query. Otherwise it runs the results query and answers 500 on a fault, or renders `student-results` with that student and exactly that student's results. |
| `Handlers.NewResultForm` | server.js:97-106 | It never answers 404. Without a fault it renders `new-result` with the student of that id, or with no student exactly when none exists. |
| `Handlers.CreateResult` | server.js:108-120 | It answers 302 to `/students/<id>/results` exactly when there is no fault and subject, marks and semester are present. It does not check that the student exists. The result table then gains one row with the path id, the body's subject, marks and semester, and `grade = CalculateGrade(marks)`. Otherwise it answers 500 and nothing changes. The students table is never changed, and "every stored grade is derived from its mark" is preserved. |
| `Handlers.ApiStudentResults` | server.js:122-131 | Without a fault it answers 200 with a JSON array of exactly that student's results, order unspecified. With a fault it answers 500. |
| `Scenarios.StoreWithJohn` | __tests__/app.test.js:230-240 | Posting the test's student to fresh tables answers 302 to `/students` and stores it with id 1. |
| `Scenarios.CreateStudentThenList` | server.js:50-74 | After `POST /students` with an unused roll number and email, `GET /students` answers 200 and lists the new student. |
| `Scenarios.DuplicateRollNumber` | server.js:30 | A second student that reuses a roll number is refused with 500 (UNIQUE), and the list still holds one student. |
| `Scenarios.AddResultThenFetch` | server.js:108-131 | Posting Math/55/Fall2024 for student 1 redirects to `/students/1/results`. The JSON route then lists that row with grade C. |
| `Scenarios.ResultForMissingStudent` | server.js:76-131 | A result posted for a student id that does not exist is stored (302) and served by the JSON route. The results page answers 404 for that id, and the result form still renders 200 with no student. |

## Left out

- `GET /` and `GET /students/new` (server.js:46-48, 60-62): each renders a template without data. They do not use the store and make no decision.
- `GET /health` and `GET /demo` (server.js:133-145): they return the wall-clock time and fixed data. There is no logic to model.
- Express wiring (route registration, body parsing, static files, the view engine, `app.listen`, the `PORT` default): this is framework plumbing.
- Opening the SQLite file, the callback-style asynchronous I/O, and the startup `CREATE TABLE` calls: the store starts as empty tables. Concurrent requests are not interleaved. Each handler runs to completion on its own.
- Id exhaustion: both AUTOINCREMENT counters are unbounded integers. SQLite stops at 2^63-1, where an insert fails with SQLITE_FULL; no property here depends on that limit.
- SQL engine error messages: a failure carries only its kind (engine fault, NOT NULL, UNIQUE). The 500 body holds that kind instead of the message text.
- Which UNIQUE column SQLite names when both the roll number and the email clash: both clashes yield the same `UniqueFailed`.
- The SQL engine itself: lookups and filters are functions over the stored rows, not a query evaluator.
- JavaScript type coercion: `marks` is an integer, and path ids are integers written in canonical decimal. String marks, NaN and non-numeric or zero-padded ids are not captured.
- Row order of `SELECT`: list handlers are stated up to order (multiset equality), because the engine chooses the order.
- HTML rendering: a view is a template name plus its data.
- The test suite's setup and teardown (__tests__/app.test.js:12-42, 173-203), and the copy of the routes inside the test file.
