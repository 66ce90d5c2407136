/** Enrolling a semester's students in bulk: the plan of each student against the offerings, what
    is passed, what is approved, and the rows already there. */
module BulkEnroll {
  import opened Wrappers
  import opened Academic
  import opened Collections

  type StudentId = nat
  type CourseId = nat
  type OfferingId = nat

  datatype EnrollType = Curriculum | Pretake | Retake
  datatype Enrollment = Enrollment(kind: EnrollType, status: EnrollmentStatus)

  /** The enrollment table; (offering, student) is unique. */
  type Rows = map<(OfferingId, StudentId), Enrollment>

  datatype Student = Student(id: StudentId, program: nat, cohort: int, year: int, evening: bool)
  datatype Course = Course(code: string, prerequisite: Option<CourseId>)
  datatype Offering = Offering(id: OfferingId, course: CourseId)

  /** Everything the run reads besides the enrollments. None, or false for an answers_ field, is a
      failed lookup; inserts is false where the store fails the insert. courseOf is the offering
      table, over all semesters. */
  datatype Facts = Facts(
    students: seq<Student>,
    curriculum: Student -> Option<seq<CourseId>>,
    offerings: Student -> Option<seq<Offering>>,
    course: CourseId -> Option<Course>,
    courseOf: OfferingId -> CourseId,
    pretake: (StudentId, CourseId) -> Option<bool>,
    retakes: StudentId -> Option<seq<CourseId>>,
    passedAnswers: StudentId -> bool,
    failedAnswers: (StudentId, CourseId) -> bool,
    enrolledAnswers: (OfferingId, StudentId) -> bool,
    inserts: (OfferingId, StudentId) -> bool)

  datatype EnrollRecord = EnrollRecord(student: StudentId, offering: OfferingId, code: string, kind: EnrollType)
  datatype SkipRecord = SkipRecord(student: StudentId, course: CourseId, code: string)
  datatype BlockedRecord = BlockedRecord(student: StudentId, code: string, missing: CourseId, missingCode: string)

  datatype Report = Report(enrolled: nat, skipped: nat, blocked: nat, errors: nat,
    enrolledDetails: seq<EnrollRecord>, skippedDetails: seq<SkipRecord>, blockedDetails: seq<BlockedRecord>)

  const NO_REPORT: Report := Report(0, 0, 0, 0, [], [], [])

  datatype State = State(rows: Rows, report: Report)

  // ---- What the enrollment table answers ---------------------------------------------------------------

  predicate IsEnrolled(rows: Rows, o: OfferingId, s: StudentId) { (o, s) in rows && rows[(o, s)].status == Enrolled }

  function PassedCourses(rows: Rows, f: Facts, s: StudentId): set<CourseId> {
    set k | k in rows && k.1 == s && rows[k].status == Completed :: f.courseOf(k.0)
  }

  predicate WasFailed(rows: Rows, f: Facts, s: StudentId, c: CourseId) {
    exists k :: k in rows && k.1 == s && rows[k].status == Failed && f.courseOf(k.0) == c
  }

  /** No offering before the i-th is of the course. */
  predicate NoneBefore(offerings: seq<Offering>, c: CourseId, i: nat) { forall j :: 0 <= j < i < |offerings| ==> offerings[j].course != c }

  /** The first offering of the course. */
  function FindOffering(offerings: seq<Offering>, c: CourseId): (o: Option<OfferingId>)
    ensures o.Some? <==> exists i :: 0 <= i < |offerings| && offerings[i].course == c
    ensures o.Some? ==> exists i :: 0 <= i < |offerings| && offerings[i] == Offering(o.value, c) && NoneBefore(offerings, c, i)
  {
    if offerings == [] then None
    else if offerings[0].course == c then
      assert offerings[0] == Offering(offerings[0].id, c) && NoneBefore(offerings, c, 0);
      Some(offerings[0].id)
    else
      var o := FindOffering(offerings[1..], c);
      assert forall i :: 1 <= i < |offerings| ==> offerings[i] == offerings[1..][i - 1];
      assert forall i: nat :: i < |offerings| - 1 && NoneBefore(offerings[1..], c, i) ==> NoneBefore(offerings, c, i + 1);
      o
  }

  // ---- The decisions ---------------------------------------------------------------------------------------

  datatype Verdict =
    | Trouble
    | NoOffering(code: string)
    | Nothing
    | BlockedBy(code: string, missing: CourseId)
    | Enroll(offering: OfferingId, code: string, kind: EnrollType)

  function CurriculumVerdict(rows: Rows, f: Facts, s: StudentId, offerings: seq<Offering>, passed: set<CourseId>, c: CourseId): Verdict {
    if f.course(c).None? then Trouble
    else
      var course := f.course(c).value;
      var o := FindOffering(offerings, c);
      if o.None? then NoOffering(course.code)
      else if !f.enrolledAnswers(o.value, s) then Trouble
      else if IsEnrolled(rows, o.value, s) || c in passed then Nothing
      else if course.prerequisite.Some? && course.prerequisite.value !in passed then
        match f.pretake(s, c)
        case None => Trouble
        case Some(approved) =>
          if approved then Enroll(o.value, course.code, Pretake) else BlockedBy(course.code, course.prerequisite.value)
      else Enroll(o.value, course.code, if f.failedAnswers(s, c) && WasFailed(rows, f, s, c) then Retake else Curriculum)
  }

  function RetakeVerdict(rows: Rows, f: Facts, s: StudentId, offerings: seq<Offering>, passed: set<CourseId>,
        planned: set<CourseId>, c: CourseId): Verdict {
    if c in planned || c in passed then Nothing
    else
      var o := FindOffering(offerings, c);
      if o.None? || !f.enrolledAnswers(o.value, s) || IsEnrolled(rows, o.value, s) then Nothing
      else if f.course(c).None? then Trouble
      else Enroll(o.value, f.course(c).value.code, Retake)
  }

  predicate Inserts(rows: Rows, f: Facts, o: OfferingId, s: StudentId) { (o, s) !in rows && f.inserts(o, s) }

  function CodeOf(f: Facts, c: CourseId): string { if f.course(c).Some? then f.course(c).value.code else "" }

  /** What the run does about one verdict. */
  function Act(st: State, f: Facts, s: StudentId, c: CourseId, v: Verdict): State {
    var r := st.report;
    match v
    case Nothing => st
    case Trouble => st.(report := r.(errors := r.errors + 1))
    case NoOffering(code) =>
      st.(report := r.(skipped := r.skipped + 1, skippedDetails := r.skippedDetails + [SkipRecord(s, c, code)]))
    case BlockedBy(code, missing) =>
      st.(report := r.(blocked := r.blocked + 1,
        blockedDetails := r.blockedDetails + [BlockedRecord(s, code, missing, CodeOf(f, missing))]))
    case Enroll(o, code, kind) =>
      if Inserts(st.rows, f, o, s) then
        State(st.rows[(o, s) := Enrollment(kind, Enrolled)],
          r.(enrolled := r.enrolled + 1, enrolledDetails := r.enrolledDetails + [EnrollRecord(s, o, code, kind)]))
      else st.(report := r.(errors := r.errors + 1))
  }

  function CurriculumPass(st: State, f: Facts, s: StudentId, offerings: seq<Offering>, passed: set<CourseId>, plan: seq<CourseId>): State {
    if plan == [] then st
    else
      var before := CurriculumPass(st, f, s, offerings, passed, plan[..|plan| - 1]);
      var c := plan[|plan| - 1];
      Act(before, f, s, c, CurriculumVerdict(before.rows, f, s, offerings, passed, c))
  }

  function RetakePass(st: State, f: Facts, s: StudentId, offerings: seq<Offering>, passed: set<CourseId>,
        planned: set<CourseId>, asked: seq<CourseId>): State {
    if asked == [] then st
    else
      var before := RetakePass(st, f, s, offerings, passed, planned, asked[..|asked| - 1]);
      var c := asked[|asked| - 1];
      Act(before, f, s, c, RetakeVerdict(before.rows, f, s, offerings, passed, planned, c))
  }

  /** The lookups a student's turn begins with. */
  predicate Answered(f: Facts, s: Student) {
    f.curriculum(s).Some? && f.offerings(s).Some? && f.passedAnswers(s.id)
  }

  function OneError(st: State): State { st.(report := st.report.(errors := st.report.errors + 1)) }

  function EnrollStudent(st: State, f: Facts, s: Student): State {
    if !Answered(f, s) then OneError(st)
    else
      var plan, offerings := f.curriculum(s).value, f.offerings(s).value;
      var passed := PassedCourses(st.rows, f, s.id);
      var planned := CurriculumPass(st, f, s.id, offerings, passed, plan);
      match f.retakes(s.id)
      case None => OneError(planned)
      case Some(asked) => RetakePass(planned, f, s.id, offerings, passed, Elements(plan), asked)
  }

  /** After the first n students. */
  function EnrollFirst(rows: Rows, f: Facts, n: nat): State
    requires n <= |f.students|
  {
    if n == 0 then State(rows, NO_REPORT) else EnrollStudent(EnrollFirst(rows, f, n - 1), f, f.students[n - 1])
  }

  function EnrollAll(rows: Rows, f: Facts): State { EnrollFirst(rows, f, |f.students|) }

  // ---- Rows only come in, as enrolled ------------------------------------------------------------------------

  ghost predicate Grows(a: Rows, b: Rows) {
    && (forall k :: k in a ==> k in b && b[k] == a[k])
    && (forall k :: k in b && k !in a ==> b[k].status == Enrolled)
  }

  lemma GrowthKeepsRecord(a: Rows, b: Rows, f: Facts, s: StudentId)
    requires Grows(a, b)
    ensures PassedCourses(a, f, s) == PassedCourses(b, f, s)
    ensures forall c :: WasFailed(a, f, s, c) <==> WasFailed(b, f, s, c)
  {
    forall c ensures WasFailed(a, f, s, c) <==> WasFailed(b, f, s, c) {
      if k :| k in a && k.1 == s && a[k].status == Failed && f.courseOf(k.0) == c {
        assert k in b && b[k].status == Failed;
      }
    }
  }

  lemma {:induction false} CurriculumGrows(st: State, f: Facts, s: StudentId, offerings: seq<Offering>, passed: set<CourseId>, plan: seq<CourseId>)
    ensures Grows(st.rows, CurriculumPass(st, f, s, offerings, passed, plan).rows)
    decreases |plan|
  {
    if plan != [] {
      CurriculumGrows(st, f, s, offerings, passed, plan[..|plan| - 1]);
    }
  }

  lemma {:induction false} RetakesGrow(st: State, f: Facts, s: StudentId, offerings: seq<Offering>, passed: set<CourseId>,
        planned: set<CourseId>, asked: seq<CourseId>)
    ensures Grows(st.rows, RetakePass(st, f, s, offerings, passed, planned, asked).rows)
    decreases |asked|
  {
    if asked != [] {
      RetakesGrow(st, f, s, offerings, passed, planned, asked[..|asked| - 1]);
    }
  }

  lemma StudentGrows(st: State, f: Facts, s: Student)
    ensures Grows(st.rows, EnrollStudent(st, f, s).rows)
  {
    if Answered(f, s) {
      var plan, offerings := f.curriculum(s).value, f.offerings(s).value;
      var passed := PassedCourses(st.rows, f, s.id);
      CurriculumGrows(st, f, s.id, offerings, passed, plan);
      var planned := CurriculumPass(st, f, s.id, offerings, passed, plan);
      if f.retakes(s.id).Some? {
        RetakesGrow(planned, f, s.id, offerings, passed, Elements(plan), f.retakes(s.id).value);
      }
    }
  }

  lemma {:induction false} RunGrows(rows: Rows, f: Facts, early: nat, late: nat)
    requires early <= late <= |f.students|
    ensures Grows(EnrollFirst(rows, f, early).rows, EnrollFirst(rows, f, late).rows)
    decreases late
  {
    if early < late {
      RunGrows(rows, f, early, late - 1);
      StudentGrows(EnrollFirst(rows, f, late - 1), f, f.students[late - 1]);
    }
  }

  // ---- A second run enrolls nobody -----------------------------------------------------------------------------

  /** Acting on the verdict would insert no row. */
  predicate Idle(rows: Rows, f: Facts, s: StudentId, v: Verdict) {
    v.Enroll? ==> !Inserts(rows, f, v.offering, s)
  }

  /** Once acted upon, and however the table grows, the same course calls for no insert. */
  lemma ActedIsIdle(st: State, later: Rows, f: Facts, s: StudentId, offerings: seq<Offering>, passed: set<CourseId>, c: CourseId)
    requires Grows(Act(st, f, s, c, CurriculumVerdict(st.rows, f, s, offerings, passed, c)).rows, later)
    ensures Idle(later, f, s, CurriculumVerdict(later, f, s, offerings, passed, c))
  {
  }

  lemma RetakenIsIdle(st: State, later: Rows, f: Facts, s: StudentId, offerings: seq<Offering>, passed: set<CourseId>,
        planned: set<CourseId>, c: CourseId)
    requires Grows(Act(st, f, s, c, RetakeVerdict(st.rows, f, s, offerings, passed, planned, c)).rows, later)
    ensures Idle(later, f, s, RetakeVerdict(later, f, s, offerings, passed, planned, c))
  {
  }

  ghost predicate PlanIdle(rows: Rows, f: Facts, s: StudentId, offerings: seq<Offering>, passed: set<CourseId>, plan: seq<CourseId>) {
    forall c :: c in plan ==> Idle(rows, f, s, CurriculumVerdict(rows, f, s, offerings, passed, c))
  }

  ghost predicate RetakesIdle(rows: Rows, f: Facts, s: StudentId, offerings: seq<Offering>, passed: set<CourseId>,
        planned: set<CourseId>, asked: seq<CourseId>) {
    forall c :: c in asked ==> Idle(rows, f, s, RetakeVerdict(rows, f, s, offerings, passed, planned, c))
  }

  lemma {:induction false} PassMakesPlanIdle(st: State, later: Rows, f: Facts, s: StudentId, offerings: seq<Offering>,
        passed: set<CourseId>, plan: seq<CourseId>)
    requires Grows(CurriculumPass(st, f, s, offerings, passed, plan).rows, later)
    ensures PlanIdle(later, f, s, offerings, passed, plan)
    decreases |plan|
  {
    if plan != [] {
      var k := |plan| - 1;
      var before := CurriculumPass(st, f, s, offerings, passed, plan[..k]);
      PassMakesPlanIdle(st, later, f, s, offerings, passed, plan[..k]);
      ActedIsIdle(before, later, f, s, offerings, passed, plan[k]);
      forall c | c in plan ensures c in plan[..k] || c == plan[k] {
      }
    }
  }

  lemma {:induction false} PassMakesRetakesIdle(st: State, later: Rows, f: Facts, s: StudentId, offerings: seq<Offering>,
        passed: set<CourseId>, planned: set<CourseId>, asked: seq<CourseId>)
    requires Grows(RetakePass(st, f, s, offerings, passed, planned, asked).rows, later)
    ensures RetakesIdle(later, f, s, offerings, passed, planned, asked)
    decreases |asked|
  {
    if asked != [] {
      var k := |asked| - 1;
      var before := RetakePass(st, f, s, offerings, passed, planned, asked[..k]);
      PassMakesRetakesIdle(st, later, f, s, offerings, passed, planned, asked[..k]);
      RetakenIsIdle(before, later, f, s, offerings, passed, planned, asked[k]);
      forall c | c in asked ensures c in asked[..k] || c == asked[k] {
      }
    }
  }

  lemma {:induction false} IdlePlanChangesNothing(st: State, f: Facts, s: StudentId, offerings: seq<Offering>,
        passed: set<CourseId>, plan: seq<CourseId>)
    requires PlanIdle(st.rows, f, s, offerings, passed, plan)
    ensures CurriculumPass(st, f, s, offerings, passed, plan).rows == st.rows
    ensures CurriculumPass(st, f, s, offerings, passed, plan).report.enrolledDetails == st.report.enrolledDetails
    decreases |plan|
  {
    if plan != [] {
      IdlePlanChangesNothing(st, f, s, offerings, passed, plan[..|plan| - 1]);
    }
  }

  lemma {:induction false} IdleRetakesChangeNothing(st: State, f: Facts, s: StudentId, offerings: seq<Offering>,
        passed: set<CourseId>, planned: set<CourseId>, asked: seq<CourseId>)
    requires RetakesIdle(st.rows, f, s, offerings, passed, planned, asked)
    ensures RetakePass(st, f, s, offerings, passed, planned, asked).rows == st.rows
    ensures RetakePass(st, f, s, offerings, passed, planned, asked).report.enrolledDetails == st.report.enrolledDetails
    decreases |asked|
  {
    if asked != [] {
      IdleRetakesChangeNothing(st, f, s, offerings, passed, planned, asked[..|asked| - 1]);
    }
  }

  lemma SecondTurnIsIdle(first: State, second: State, f: Facts, s: Student)
    requires Grows(EnrollStudent(first, f, s).rows, second.rows) && Grows(first.rows, second.rows)
    ensures EnrollStudent(second, f, s).rows == second.rows
    ensures EnrollStudent(second, f, s).report.enrolledDetails == second.report.enrolledDetails
  {
    if Answered(f, s) {
      var plan, offerings := f.curriculum(s).value, f.offerings(s).value;
      GrowthKeepsRecord(first.rows, second.rows, f, s.id);
      var passed := PassedCourses(first.rows, f, s.id);
      var planned := CurriculumPass(first, f, s.id, offerings, passed, plan);
      if f.retakes(s.id).Some? {
        RetakesGrow(planned, f, s.id, offerings, passed, Elements(plan), f.retakes(s.id).value);
        PassMakesRetakesIdle(planned, second.rows, f, s.id, offerings, passed, Elements(plan), f.retakes(s.id).value);
      }
      PassMakesPlanIdle(first, second.rows, f, s.id, offerings, passed, plan);
      IdlePlanChangesNothing(second, f, s.id, offerings, passed, plan);
      if f.retakes(s.id).Some? {
        IdleRetakesChangeNothing(CurriculumPass(second, f, s.id, offerings, passed, plan), f, s.id, offerings, passed,
          Elements(plan), f.retakes(s.id).value);
      }
    }
  }

  lemma {:induction false} SecondRunSoFar(rows: Rows, f: Facts, n: nat)
    requires n <= |f.students|
    ensures var again := EnrollFirst(EnrollAll(rows, f).rows, f, n);
      again.rows == EnrollAll(rows, f).rows && again.report.enrolledDetails == []
  {
    if n > 0 {
      SecondRunSoFar(rows, f, n - 1);
      RunGrows(rows, f, n, |f.students|);
      RunGrows(rows, f, n - 1, |f.students|);
      SecondTurnIsIdle(EnrollFirst(rows, f, n - 1), EnrollFirst(EnrollAll(rows, f).rows, f, n - 1), f, f.students[n - 1]);
    }
  }

  /** Run again on unchanged facts it enrolls nobody and leaves the table as it was, whichever
      lookups and inserts fail in both runs. */
  lemma SecondRunEnrollsNobody(rows: Rows, f: Facts)
    ensures var again := EnrollAll(EnrollAll(rows, f).rows, f);
      again.rows == EnrollAll(rows, f).rows && again.report.enrolledDetails == []
  {
    SecondRunSoFar(rows, f, |f.students|);
  }
}
