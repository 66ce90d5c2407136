/** That a bulk enrollment keeps nothing to itself: what it skips, what it blocks and how many errors
    it counts, each from what there was to find. */
module EnrollmentOutcomes {
  import opened Wrappers
  import opened Academic
  import opened Collections
  import opened BulkEnroll
  import opened EnrollmentReport

  // ---- What is skipped ---------------------------------------------------------------------------------------

  /** A known course of the plan without an offering, and the record of it. */
  ghost predicate Unoffered(f: Facts, s: StudentId, offerings: seq<Offering>, c: CourseId, r: SkipRecord) {
    && (forall i :: 0 <= i < |offerings| ==> offerings[i].course != c)
    && f.course(c).Some? && r == SkipRecord(s, c, f.course(c).value.code)
  }

  lemma PlannedSkips(st: State, f: Facts, s: StudentId, offerings: seq<Offering>, passed: set<CourseId>, c: CourseId, r: SkipRecord)
    ensures r in Act(st, f, s, c, CurriculumVerdict(st.rows, f, s, offerings, passed, c)).report.skippedDetails <==>
      r in st.report.skippedDetails || Unoffered(f, s, offerings, c, r)
  {
    var o := FindOffering(offerings, c);
    assert o.None? <==> forall i :: 0 <= i < |offerings| ==> offerings[i].course != c;
  }

  lemma {:induction false} PlanSkips(st: State, f: Facts, s: StudentId, offerings: seq<Offering>, passed: set<CourseId>,
        plan: seq<CourseId>, r: SkipRecord)
    ensures r in CurriculumPass(st, f, s, offerings, passed, plan).report.skippedDetails <==>
      r in st.report.skippedDetails || exists c :: c in plan && Unoffered(f, s, offerings, c, r)
    decreases |plan|
  {
    if plan != [] {
      var k := |plan| - 1;
      PlanSkips(st, f, s, offerings, passed, plan[..k], r);
      PlannedSkips(CurriculumPass(st, f, s, offerings, passed, plan[..k]), f, s, offerings, passed, plan[k], r);
      assert forall c :: c in plan <==> c in plan[..k] || c == plan[k];
    }
  }

  lemma {:induction false} RetakesSkipNothing(st: State, f: Facts, s: StudentId, offerings: seq<Offering>, passed: set<CourseId>,
        planned: set<CourseId>, asked: seq<CourseId>)
    ensures RetakePass(st, f, s, offerings, passed, planned, asked).report.skippedDetails == st.report.skippedDetails
    decreases |asked|
  {
    if asked != [] {
      RetakesSkipNothing(st, f, s, offerings, passed, planned, asked[..|asked| - 1]);
    }
  }

  ghost predicate SkippedFor(f: Facts, s: Student, r: SkipRecord) {
    Answered(f, s) && exists c :: c in f.curriculum(s).value && Unoffered(f, s.id, f.offerings(s).value, c, r)
  }

  lemma TurnSkips(st: State, f: Facts, s: Student, r: SkipRecord)
    ensures r in EnrollStudent(st, f, s).report.skippedDetails <==> r in st.report.skippedDetails || SkippedFor(f, s, r)
  {
    if Answered(f, s) {
      var plan, offerings, passed := f.curriculum(s).value, f.offerings(s).value, PassedCourses(st.rows, f, s.id);
      PlanSkips(st, f, s.id, offerings, passed, plan, r);
      if f.retakes(s.id).Some? {
        RetakesSkipNothing(CurriculumPass(st, f, s.id, offerings, passed, plan), f, s.id, offerings, passed, Elements(plan),
          f.retakes(s.id).value);
      }
    }
  }

  lemma {:induction false} RunSkips(rows: Rows, f: Facts, n: nat, r: SkipRecord)
    requires n <= |f.students|
    ensures r in EnrollFirst(rows, f, n).report.skippedDetails <==> exists i :: 0 <= i < n && SkippedFor(f, f.students[i], r)
  {
    if n > 0 {
      RunSkips(rows, f, n - 1, r);
      TurnSkips(EnrollFirst(rows, f, n - 1), f, f.students[n - 1], r);
    }
  }

  /** A run reports as skipped exactly the known courses in the plans of the students it could look up
      that have no offering. */
  lemma SkippedIff(rows: Rows, f: Facts, r: SkipRecord)
    ensures r in EnrollAll(rows, f).report.skippedDetails <==> exists s :: s in f.students && SkippedFor(f, s, r)
  {
    RunSkips(rows, f, |f.students|, r);
    if s :| s in f.students && SkippedFor(f, s, r) {
      var i :| 0 <= i < |f.students| && f.students[i] == s;
    }
  }

  // ---- What is blocked ---------------------------------------------------------------------------------------

  /** As long as the student has no seat in the course, the plan reports it as blocked. */
  lemma {:induction false} PlanBlocks(rows: Rows, st: State, later: Rows, f: Facts, s: Student, plan: seq<CourseId>, c: CourseId, b: BlockedRecord)
    requires Answered(f, s) && c in plan && Lacks(rows, f, s, c, b) && Grows(rows, st.rows)
    requires Grows(CurriculumPass(st, f, s.id, f.offerings(s).value, PassedCourses(rows, f, s.id), plan).rows, later)
    requires !HasSeat(later, FindOffering(f.offerings(s).value, c).value, s.id)
    ensures b in CurriculumPass(st, f, s.id, f.offerings(s).value, PassedCourses(rows, f, s.id), plan).report.blockedDetails
    decreases |plan|
  {
    var k, offerings, passed := |plan| - 1, f.offerings(s).value, PassedCourses(rows, f, s.id);
    var before := CurriculumPass(st, f, s.id, offerings, passed, plan[..k]);
    if c == plan[k] {
      PassedIsCompleted(rows, f, s.id, c);
      PassedIsCompleted(rows, f, s.id, b.missing);
      assert CurriculumVerdict(before.rows, f, s.id, offerings, passed, c) == BlockedBy(b.code, b.missing);
    } else {
      PlanBlocks(rows, st, later, f, s, plan[..k], c, b);
    }
  }

  lemma {:induction false} RunKeepsBlocked(rows: Rows, f: Facts, early: nat, late: nat)
    requires early <= late <= |f.students|
    ensures EnrollFirst(rows, f, early).report.blockedDetails <= EnrollFirst(rows, f, late).report.blockedDetails
    decreases late
  {
    if early < late {
      RunKeepsBlocked(rows, f, early, late - 1);
      RunGrows(rows, f, 0, late - 1);
      TurnBlocksRightly(rows, EnrollFirst(rows, f, late - 1), f, f.students[late - 1]);
    }
  }

  /** A student who lacks the prerequisite, on the rows from before the run, and gets no seat in the
      course through it is reported as blocked. */
  lemma LackingAreBlocked(rows: Rows, f: Facts, i: nat, c: CourseId, b: BlockedRecord)
    requires i < |f.students| && Answered(f, f.students[i]) && Lacks(rows, f, f.students[i], c, b)
    requires !HasSeat(EnrollAll(rows, f).rows, FindOffering(f.offerings(f.students[i]).value, c).value, f.students[i].id)
    ensures b in EnrollAll(rows, f).report.blockedDetails
  {
    var s, st, last := f.students[i], EnrollFirst(rows, f, i), EnrollAll(rows, f).rows;
    var plan, offerings, passed := f.curriculum(s).value, f.offerings(s).value, PassedCourses(rows, f, s.id);
    RunGrows(rows, f, 0, i);
    RunGrows(rows, f, i + 1, |f.students|);
    GrowthKeepsRecord(rows, st.rows, f, s.id);
    var planned := CurriculumPass(st, f, s.id, offerings, passed, plan);
    if f.retakes(s.id).Some? {
      RetakesGrow(planned, f, s.id, offerings, passed, Elements(plan), f.retakes(s.id).value);
      RetakesBlockNobody(planned, f, s.id, offerings, passed, Elements(plan), f.retakes(s.id).value);
    }
    PlanBlocks(rows, st, last, f, s, plan, c, b);
    RunKeepsBlocked(rows, f, i + 1, |f.students|);
  }

  // ---- How many errors ---------------------------------------------------------------------------------------

  function Unknown(f: Facts, plan: seq<CourseId>): nat {
    if plan == [] then 0 else Unknown(f, plan[..|plan| - 1]) + if f.course(plan[|plan| - 1]).None? then 1 else 0
  }

  /** The errors one student is good for whatever the rows are: one when the turn cannot begin, else one
      for each unknown course of the plan and one when the retakes cannot be read. */
  function ErrorsOf(f: Facts, s: Student): nat {
    if f.curriculum(s).None? || f.offerings(s).None? || !f.passedAnswers(s.id) then 1
    else Unknown(f, f.curriculum(s).value) + if f.retakes(s.id).None? then 1 else 0
  }

  function ErrorsAmong(f: Facts, n: nat): nat
    requires n <= |f.students|
  {
    if n == 0 then 0 else ErrorsAmong(f, n - 1) + ErrorsOf(f, f.students[n - 1])
  }

  /** The other lookups answer, the store takes every insert, and what is requested is known. */
  ghost predicate Smooth(f: Facts) {
    && (forall o, s :: f.enrolledAnswers(o, s) && f.inserts(o, s))
    && (forall s, c :: f.pretake(s, c).Some?)
    && (forall s, c :: f.retakes(s).Some? && c in f.retakes(s).value ==> f.course(c).Some?)
  }

  predicate NoStaleRow(rows: Rows, o: OfferingId, s: StudentId) { (o, s) in rows ==> rows[(o, s)].status == Enrolled }

  /** A row at one of these offerings is a seat, so that an insert meets none but seats. */
  ghost predicate NoStaleRows(rows: Rows, offerings: seq<Offering>, s: StudentId) {
    forall k :: 0 <= k < |offerings| ==> NoStaleRow(rows, offerings[k].id, s)
  }

  lemma GrowthSeats(a: Rows, b: Rows, offerings: seq<Offering>, s: StudentId)
    requires Grows(a, b) && NoStaleRows(a, offerings, s)
    ensures NoStaleRows(b, offerings, s)
  {
  }

  lemma {:induction false} PlanErrors(st: State, f: Facts, s: StudentId, offerings: seq<Offering>, passed: set<CourseId>, plan: seq<CourseId>)
    ensures var errors, unknown := CurriculumPass(st, f, s, offerings, passed, plan).report.errors, Unknown(f, plan);
      && errors >= st.report.errors + unknown
      && (Smooth(f) && NoStaleRows(st.rows, offerings, s) ==> errors == st.report.errors + unknown)
    decreases |plan|
  {
    if plan != [] {
      var k := |plan| - 1;
      PlanErrors(st, f, s, offerings, passed, plan[..k]);
      CurriculumGrows(st, f, s, offerings, passed, plan[..k]);
      if Smooth(f) && NoStaleRows(st.rows, offerings, s) {
        GrowthSeats(st.rows, CurriculumPass(st, f, s, offerings, passed, plan[..k]).rows, offerings, s);
      }
    }
  }

  lemma {:induction false} RetakeErrors(st: State, f: Facts, s: StudentId, offerings: seq<Offering>, passed: set<CourseId>,
        planned: set<CourseId>, asked: seq<CourseId>)
    ensures var errors := RetakePass(st, f, s, offerings, passed, planned, asked).report.errors;
      && errors >= st.report.errors
      && (Smooth(f) && (forall c :: c in asked ==> f.course(c).Some?) && NoStaleRows(st.rows, offerings, s) ==> errors == st.report.errors)
    decreases |asked|
  {
    if asked != [] {
      var k := |asked| - 1;
      RetakeErrors(st, f, s, offerings, passed, planned, asked[..k]);
      RetakesGrow(st, f, s, offerings, passed, planned, asked[..k]);
      if NoStaleRows(st.rows, offerings, s) {
        GrowthSeats(st.rows, RetakePass(st, f, s, offerings, passed, planned, asked[..k]).rows, offerings, s);
      }
    }
  }

  ghost predicate Seated(rows: Rows, f: Facts) {
    forall s :: s in f.students && f.offerings(s).Some? ==> NoStaleRows(rows, f.offerings(s).value, s.id)
  }

  lemma TurnErrors(st: State, f: Facts, s: Student)
    ensures var errors := EnrollStudent(st, f, s).report.errors;
      && errors >= st.report.errors + ErrorsOf(f, s)
      && (Smooth(f) && (f.offerings(s).Some? ==> NoStaleRows(st.rows, f.offerings(s).value, s.id)) ==>
           errors == st.report.errors + ErrorsOf(f, s))
  {
    if Answered(f, s) {
      var plan, offerings, passed := f.curriculum(s).value, f.offerings(s).value, PassedCourses(st.rows, f, s.id);
      var planned := CurriculumPass(st, f, s.id, offerings, passed, plan);
      PlanErrors(st, f, s.id, offerings, passed, plan);
      if f.retakes(s.id).Some? {
        RetakeErrors(planned, f, s.id, offerings, passed, Elements(plan), f.retakes(s.id).value);
        CurriculumGrows(st, f, s.id, offerings, passed, plan);
        if NoStaleRows(st.rows, offerings, s.id) {
          GrowthSeats(st.rows, planned.rows, offerings, s.id);
        }
      }
    }
  }

  /** No such error goes uncounted; and when the other lookups answer, the store takes every insert and
      no student has given up a seat, nothing else is an error. */
  lemma {:induction false} ErrorsAre(rows: Rows, f: Facts, n: nat)
    requires n <= |f.students|
    ensures EnrollFirst(rows, f, n).report.errors >= ErrorsAmong(f, n)
    ensures Smooth(f) && Seated(rows, f) ==> EnrollFirst(rows, f, n).report.errors == ErrorsAmong(f, n)
  {
    if n > 0 {
      var st, s := EnrollFirst(rows, f, n - 1), f.students[n - 1];
      ErrorsAre(rows, f, n - 1);
      RunGrows(rows, f, 0, n - 1);
      TurnErrors(st, f, s);
      if Seated(rows, f) && f.offerings(s).Some? {
        GrowthSeats(rows, st.rows, f.offerings(s).value, s.id);
      }
    }
  }
}
