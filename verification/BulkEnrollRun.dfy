/** BulkEnroll as it runs: loops over students, plan and approved retakes that change the
    enrollment table and fill the report as they go. */
module BulkEnrollRun {
  import opened Wrappers
  import opened Academic
  import opened Collections
  import opened BulkEnroll

  datatype Error = SemesterNotActive | StudentsUnavailable

  class Enrollments {
    var rows: Rows
    var report: Report

    constructor (rows: Rows)
      ensures this.rows == rows && report == NO_REPORT
    {
      this.rows, report := rows, NO_REPORT;
    }

    function Now(): State
      reads this
    {
      State(rows, report)
    }

    /** CreateStudentEnrollment: the unique (offering, student) is the duplicate guard. */
    method Create(f: Facts, o: OfferingId, s: StudentId, kind: EnrollType) returns (created: bool)
      modifies this`rows
      ensures created <==> Inserts(old(rows), f, o, s)
      ensures rows == if created then old(rows)[(o, s) := Enrollment(kind, Enrolled)] else old(rows)
    {
      created := (o, s) !in rows && f.inserts(o, s);
      if created {
        rows := rows[(o, s) := Enrollment(kind, Enrolled)];
      }
    }

    method Fail()
      modifies this`report
      ensures Now() == OneError(old(Now()))
    {
      report := report.(errors := report.errors + 1);
    }

    method EnrollOne(f: Facts, s: StudentId, o: OfferingId, code: string, kind: EnrollType)
      modifies this
      ensures forall c :: Now() == Act(old(Now()), f, s, c, Enroll(o, code, kind))
    {
      var created := Create(f, o, s, kind);
      if !created {
        Fail();
        return;
      }
      report := report.(enrolled := report.enrolled + 1,
        enrolledDetails := report.enrolledDetails + [EnrollRecord(s, o, code, kind)]);
    }

    /** One course of the plan, check after check. */
    method EnrollPlanned(f: Facts, s: StudentId, offerings: seq<Offering>, passed: set<CourseId>, c: CourseId)
      modifies this
      ensures Now() == Act(old(Now()), f, s, c, CurriculumVerdict(old(rows), f, s, offerings, passed, c))
    {
      var course := f.course(c);
      if course.None? {
        Fail();
        return;
      }
      var offering := FindOffering(offerings, c);
      if offering.None? {
        report := report.(skipped := report.skipped + 1,
          skippedDetails := report.skippedDetails + [SkipRecord(s, c, course.value.code)]);
        return;
      }
      if !f.enrolledAnswers(offering.value, s) {
        Fail();
        return;
      }
      if IsEnrolled(rows, offering.value, s) || c in passed {
        return;
      }
      var needs := course.value.prerequisite;
      if needs.Some? && needs.value !in passed {
        var pretake := f.pretake(s, c);
        if pretake.None? {
          Fail();
          return;
        }
        if pretake.value {
          EnrollOne(f, s, offering.value, course.value.code, Pretake);
        } else {
          report := report.(blocked := report.blocked + 1,
            blockedDetails := report.blockedDetails + [BlockedRecord(s, course.value.code, needs.value, CodeOf(f, needs.value))]);
        }
        return;
      }
      var kind := Curriculum;
      if f.failedAnswers(s, c) && WasFailed(rows, f, s, c) {
        kind := Retake;
      }
      EnrollOne(f, s, offering.value, course.value.code, kind);
    }

    method EnrollRequested(f: Facts, s: StudentId, offerings: seq<Offering>, passed: set<CourseId>, planned: set<CourseId>, c: CourseId)
      modifies this
      ensures Now() == Act(old(Now()), f, s, c, RetakeVerdict(old(rows), f, s, offerings, passed, planned, c))
    {
      if c in planned || c in passed {
        return;
      }
      var offering := FindOffering(offerings, c);
      if offering.None? {
        return;
      }
      if !f.enrolledAnswers(offering.value, s) || IsEnrolled(rows, offering.value, s) {
        return;
      }
      var course := f.course(c);
      if course.None? {
        Fail();
        return;
      }
      EnrollOne(f, s, offering.value, course.value.code, Retake);
    }

    method EnrollTurn(f: Facts, s: Student)
      modifies this
      ensures Now() == EnrollStudent(old(Now()), f, s)
    {
      if f.curriculum(s).None? || f.offerings(s).None? || !f.passedAnswers(s.id) {
        Fail();
        return;
      }
      var plan, offerings := f.curriculum(s).value, f.offerings(s).value;
      var passed := PassedCourses(rows, f, s.id);
      ghost var before := Now();
      for i := 0 to |plan|
        invariant Now() == CurriculumPass(before, f, s.id, offerings, passed, plan[..i])
      {
        assert plan[..i + 1][..i] == plan[..i];
        EnrollPlanned(f, s.id, offerings, passed, plan[i]);
      }
      assert plan[..|plan|] == plan;
      var requests := f.retakes(s.id);
      if requests.None? {
        Fail();
        return;
      }
      var planned, asked := Elements(plan), requests.value;
      ghost var afterPlan := Now();
      for i := 0 to |asked|
        invariant Now() == RetakePass(afterPlan, f, s.id, offerings, passed, planned, asked[..i])
      {
        assert asked[..i + 1][..i] == asked[..i];
        EnrollRequested(f, s.id, offerings, passed, planned, asked[i]);
      }
      assert asked[..|asked|] == asked;
    }

    /** answers: whether the list of active students can be read. */
    method BulkEnroll(f: Facts, status: SemesterStatus, answers: bool) returns (r: Result<Report, Error>)
      modifies this
      ensures status != Upcoming && status != Active ==> r == Failure(SemesterNotActive) && rows == old(rows)
      ensures (status == Upcoming || status == Active) && !answers ==> r == Failure(StudentsUnavailable) && rows == old(rows)
      ensures r.Success? <==> (status == Upcoming || status == Active) && answers
      ensures r.Success? ==> State(rows, r.value) == EnrollAll(old(rows), f)
    {
      if status != Upcoming && status != Active {
        return Failure(SemesterNotActive);
      }
      if !answers {
        return Failure(StudentsUnavailable);
      }
      report := NO_REPORT;
      for i := 0 to |f.students|
        invariant Now() == EnrollFirst(old(rows), f, i)
      {
        EnrollTurn(f, f.students[i]);
      }
      return Success(report);
    }
  }
}
