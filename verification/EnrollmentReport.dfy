/** What a bulk enrollment reports, and that it reports all and only what it did: every enrollment
    has its reason, the rows are the records, and nobody entitled is left out. */
module EnrollmentReport {
  import opened Wrappers
  import opened Academic
  import opened Collections
  import opened BulkEnroll

  // ---- What the rows themselves say -----------------------------------------------------------------------------

  /** Some row of the student is completed, at an offering of the course. */
  ghost predicate Completed(rows: Rows, f: Facts, s: StudentId, c: CourseId) {
    exists k :: k in rows && k.1 == s && rows[k].status == EnrollmentStatus.Completed && f.courseOf(k.0) == c
  }

  /** Some row of the student is failed, at an offering of the course. */
  ghost predicate FailedOnce(rows: Rows, f: Facts, s: StudentId, c: CourseId) {
    exists k :: k in rows && k.1 == s && rows[k].status == EnrollmentStatus.Failed && f.courseOf(k.0) == c
  }

  lemma PassedIsCompleted(rows: Rows, f: Facts, s: StudentId, c: CourseId)
    ensures c in PassedCourses(rows, f, s) <==> Completed(rows, f, s, c)
    ensures WasFailed(rows, f, s, c) <==> FailedOnce(rows, f, s, c)
  {
  }

  // ---- Every row has its reason ----------------------------------------------------------------------------------

  /** Course c of the plan explains the record: open, not passed, and either its prerequisite is met
      or an approved pretake stands in for it. */
  ghost predicate ByPlan(rows: Rows, f: Facts, s: StudentId, offerings: seq<Offering>, passed: set<CourseId>, c: CourseId, r: EnrollRecord) {
    && r.student == s && c !in passed
    && FindOffering(offerings, c) == Some(r.offering)
    && f.course(c).Some? && r.code == f.course(c).value.code
    && var needs := f.course(c).value.prerequisite;
    if r.kind == Pretake then needs.Some? && needs.value !in passed && f.pretake(s, c) == Some(true)
    else
      && (needs.None? || needs.value in passed)
      && (r.kind == Retake <==> f.failedAnswers(s, c) && WasFailed(rows, f, s, c))
  }

  /** An approved retake of course c explains it: open, not passed, outside the plan. */
  ghost predicate ByRequest(f: Facts, s: StudentId, offerings: seq<Offering>, passed: set<CourseId>, planned: set<CourseId>, c: CourseId, r: EnrollRecord) {
    && r.student == s && r.kind == Retake && c !in passed && c !in planned
    && FindOffering(offerings, c) == Some(r.offering)
    && f.course(c).Some? && r.code == f.course(c).value.code
  }

  ghost predicate InPlan(rows: Rows, f: Facts, s: StudentId, offerings: seq<Offering>, passed: set<CourseId>, plan: seq<CourseId>, r: EnrollRecord) {
    exists c :: c in plan && ByPlan(rows, f, s, offerings, passed, c, r)
  }

  ghost predicate InRequests(f: Facts, s: StudentId, offerings: seq<Offering>, passed: set<CourseId>, planned: set<CourseId>, asked: seq<CourseId>, r: EnrollRecord) {
    exists c :: c in asked && ByRequest(f, s, offerings, passed, planned, c, r)
  }

  ghost predicate Justified(rows: Rows, f: Facts, s: Student, r: EnrollRecord) {
    && Answered(f, s)
    && var plan, offerings, passed := f.curriculum(s).value, f.offerings(s).value, PassedCourses(rows, f, s.id);
    || InPlan(rows, f, s.id, offerings, passed, plan, r)
    || (f.retakes(s.id).Some? && InRequests(f, s.id, offerings, passed, Elements(plan), f.retakes(s.id).value, r))
  }

  lemma VerdictIsByPlan(rows: Rows, now: Rows, f: Facts, s: StudentId, offerings: seq<Offering>, passed: set<CourseId>, c: CourseId)
    requires Grows(rows, now)
    ensures var v := CurriculumVerdict(now, f, s, offerings, passed, c);
      v.Enroll? ==> ByPlan(rows, f, s, offerings, passed, c, EnrollRecord(s, v.offering, v.code, v.kind))
  {
    GrowthKeepsRecord(rows, now, f, s);
  }

  lemma {:induction false} PlanRecordsJustified(rows: Rows, st: State, f: Facts, s: StudentId, offerings: seq<Offering>,
        passed: set<CourseId>, plan: seq<CourseId>)
    requires Grows(rows, st.rows)
    ensures var after := CurriculumPass(st, f, s, offerings, passed, plan).report.enrolledDetails;
      && st.report.enrolledDetails <= after
      && forall i :: |st.report.enrolledDetails| <= i < |after| ==> InPlan(rows, f, s, offerings, passed, plan, after[i])
    decreases |plan|
  {
    if plan != [] {
      var k := |plan| - 1;
      var before := CurriculumPass(st, f, s, offerings, passed, plan[..k]);
      var after := CurriculumPass(st, f, s, offerings, passed, plan).report.enrolledDetails;
      PlanRecordsJustified(rows, st, f, s, offerings, passed, plan[..k]);
      CurriculumGrows(st, f, s, offerings, passed, plan[..k]);
      VerdictIsByPlan(rows, before.rows, f, s, offerings, passed, plan[k]);
      forall i | |st.report.enrolledDetails| <= i < |after| ensures InPlan(rows, f, s, offerings, passed, plan, after[i]) {
        if i < |before.report.enrolledDetails| {
          assert InPlan(rows, f, s, offerings, passed, plan[..k], before.report.enrolledDetails[i]);
        } else {
          assert ByPlan(rows, f, s, offerings, passed, plan[k], after[i]);
        }
      }
    }
  }

  lemma {:induction false} RetakeRecordsJustified(st: State, f: Facts, s: StudentId, offerings: seq<Offering>, passed: set<CourseId>,
        planned: set<CourseId>, asked: seq<CourseId>)
    ensures var after := RetakePass(st, f, s, offerings, passed, planned, asked).report.enrolledDetails;
      && st.report.enrolledDetails <= after
      && forall i :: |st.report.enrolledDetails| <= i < |after| ==> InRequests(f, s, offerings, passed, planned, asked, after[i])
    decreases |asked|
  {
    if asked != [] {
      var k := |asked| - 1;
      var before := RetakePass(st, f, s, offerings, passed, planned, asked[..k]);
      var after := RetakePass(st, f, s, offerings, passed, planned, asked).report.enrolledDetails;
      RetakeRecordsJustified(st, f, s, offerings, passed, planned, asked[..k]);
      forall i | |st.report.enrolledDetails| <= i < |after| ensures InRequests(f, s, offerings, passed, planned, asked, after[i]) {
        if i < |before.report.enrolledDetails| {
          assert InRequests(f, s, offerings, passed, planned, asked[..k], before.report.enrolledDetails[i]);
        } else {
          assert ByRequest(f, s, offerings, passed, planned, asked[k], after[i]);
        }
      }
    }
  }

  lemma TurnRecordsJustified(rows: Rows, st: State, f: Facts, s: Student, i: nat)
    requires Grows(rows, st.rows)
    requires |st.report.enrolledDetails| <= i < |EnrollStudent(st, f, s).report.enrolledDetails|
    ensures Justified(rows, f, s, EnrollStudent(st, f, s).report.enrolledDetails[i])
  {
    var plan, offerings := f.curriculum(s).value, f.offerings(s).value;
    GrowthKeepsRecord(rows, st.rows, f, s.id);
    var passed := PassedCourses(rows, f, s.id);
    PlanRecordsJustified(rows, st, f, s.id, offerings, passed, plan);
    var planned := CurriculumPass(st, f, s.id, offerings, passed, plan);
    if f.retakes(s.id).Some? {
      RetakeRecordsJustified(planned, f, s.id, offerings, passed, Elements(plan), f.retakes(s.id).value);
    }
  }

  lemma TurnKeepsRecords(rows: Rows, st: State, f: Facts, s: Student)
    requires Grows(rows, st.rows)
    ensures st.report.enrolledDetails <= EnrollStudent(st, f, s).report.enrolledDetails
  {
    if Answered(f, s) {
      var plan, offerings := f.curriculum(s).value, f.offerings(s).value;
      var passed := PassedCourses(st.rows, f, s.id);
      PlanRecordsJustified(rows, st, f, s.id, offerings, passed, plan);
      var planned := CurriculumPass(st, f, s.id, offerings, passed, plan);
      if f.retakes(s.id).Some? {
        RetakeRecordsJustified(planned, f, s.id, offerings, passed, Elements(plan), f.retakes(s.id).value);
      }
    }
  }

  lemma {:induction false} RunRecordsJustified(rows: Rows, f: Facts, n: nat, i: nat) returns (s: Student)
    requires n <= |f.students| && i < |EnrollFirst(rows, f, n).report.enrolledDetails|
    ensures s in f.students && Justified(rows, f, s, EnrollFirst(rows, f, n).report.enrolledDetails[i])
  {
    var before := EnrollFirst(rows, f, n - 1);
    s := f.students[n - 1];
    RunGrows(rows, f, 0, n - 1);
    TurnKeepsRecords(rows, before, f, s);
    if i < |before.report.enrolledDetails| {
      s := RunRecordsJustified(rows, f, n - 1, i);
    } else {
      TurnRecordsJustified(rows, before, f, s, i);
    }
  }

  /** Every enrollment a run reports answers to one of its students: a course of the plan that is
      open to them, or an approved retake beside it, judged on the record from before the run. */
  lemma EnrollmentsAreJustified(rows: Rows, f: Facts, i: nat)
    requires i < |EnrollAll(rows, f).report.enrolledDetails|
    ensures exists s :: s in f.students && Justified(rows, f, s, EnrollAll(rows, f).report.enrolledDetails[i])
  {
    var s := RunRecordsJustified(rows, f, |f.students|, i);
  }

  /** Course c explains the record on the rows themselves: it is open and no completed row of the
      student is of it, and a planned one that is no pretake has a completed row for its
      prerequisite. */
  ghost predicate Explains(rows: Rows, f: Facts, s: Student, c: CourseId, r: EnrollRecord)
    requires Answered(f, s)
  {
    && r.student == s.id && !Completed(rows, f, s.id, c)
    && FindOffering(f.offerings(s).value, c) == Some(r.offering)
    && f.course(c).Some? && r.code == f.course(c).value.code
    && if c !in f.curriculum(s).value then
         r.kind == Retake && f.retakes(s.id).Some? && c in f.retakes(s.id).value
       else
         var needs := f.course(c).value.prerequisite;
         if r.kind == Pretake then needs.Some? && !Completed(rows, f, s.id, needs.value) && f.pretake(s.id, c) == Some(true)
         else
           && (needs.Some? ==> Completed(rows, f, s.id, needs.value))
           && (r.kind == Retake <==> f.failedAnswers(s.id, c) && FailedOnce(rows, f, s.id, c))
  }

  ghost predicate Explained(rows: Rows, f: Facts, s: Student, r: EnrollRecord)
    requires Answered(f, s)
  {
    exists c :: Explains(rows, f, s, c, r)
  }

  lemma PlanExplains(rows: Rows, f: Facts, s: Student, c: CourseId, r: EnrollRecord)
    requires Answered(f, s) && c in f.curriculum(s).value
    requires ByPlan(rows, f, s.id, f.offerings(s).value, PassedCourses(rows, f, s.id), c, r)
    ensures Explains(rows, f, s, c, r)
  {
    PassedIsCompleted(rows, f, s.id, c);
    if f.course(c).value.prerequisite.Some? {
      PassedIsCompleted(rows, f, s.id, f.course(c).value.prerequisite.value);
    }
  }

  /** Every enrollment a run makes has its reason in the rows from before the run. */
  lemma EnrollmentsAreExplained(rows: Rows, f: Facts, i: nat)
    requires i < |EnrollAll(rows, f).report.enrolledDetails|
    ensures exists s :: s in f.students && Answered(f, s) && Explained(rows, f, s, EnrollAll(rows, f).report.enrolledDetails[i])
  {
    var r := EnrollAll(rows, f).report.enrolledDetails[i];
    var s := RunRecordsJustified(rows, f, |f.students|, i);
    var plan, offerings, passed := f.curriculum(s).value, f.offerings(s).value, PassedCourses(rows, f, s.id);
    if InPlan(rows, f, s.id, offerings, passed, plan, r) {
      var c :| c in plan && ByPlan(rows, f, s.id, offerings, passed, c, r);
      PlanExplains(rows, f, s, c, r);
    } else {
      var c :| c in f.retakes(s.id).value && ByRequest(f, s.id, offerings, passed, Elements(plan), c, r);
      PassedIsCompleted(rows, f, s.id, c);
      assert Explains(rows, f, s, c, r);
    }
  }

  // ---- Every blocked course has its reason, too -----------------------------------------------------------------

  /** Course c of the plan is open and unpassed, but waits for this prerequisite, and no pretake was
      approved. */
  ghost predicate Waits(rows: Rows, f: Facts, s: StudentId, offerings: seq<Offering>, passed: set<CourseId>, c: CourseId, b: BlockedRecord) {
    && b.student == s && c !in passed && FindOffering(offerings, c).Some?
    && f.enrolledAnswers(FindOffering(offerings, c).value, s) && !IsEnrolled(rows, FindOffering(offerings, c).value, s)
    && f.course(c).Some? && b.code == f.course(c).value.code && f.course(c).value.prerequisite == Some(b.missing)
    && b.missing !in passed && f.pretake(s, c) == Some(false) && b.missingCode == CodeOf(f, b.missing)
  }

  ghost predicate WaitsInPlan(rows: Rows, f: Facts, s: StudentId, offerings: seq<Offering>, passed: set<CourseId>, plan: seq<CourseId>, b: BlockedRecord) {
    exists c :: c in plan && Waits(rows, f, s, offerings, passed, c, b)
  }

  lemma {:induction false} PlanBlocksRightly(rows: Rows, st: State, f: Facts, s: StudentId, offerings: seq<Offering>, passed: set<CourseId>, plan: seq<CourseId>)
    requires Grows(rows, st.rows)
    ensures var after := CurriculumPass(st, f, s, offerings, passed, plan).report.blockedDetails;
      && st.report.blockedDetails <= after
      && forall i :: |st.report.blockedDetails| <= i < |after| ==> WaitsInPlan(rows, f, s, offerings, passed, plan, after[i])
    decreases |plan|
  {
    if plan != [] {
      var k := |plan| - 1;
      var before := CurriculumPass(st, f, s, offerings, passed, plan[..k]).report.blockedDetails;
      var after := CurriculumPass(st, f, s, offerings, passed, plan).report.blockedDetails;
      PlanBlocksRightly(rows, st, f, s, offerings, passed, plan[..k]);
      CurriculumGrows(st, f, s, offerings, passed, plan[..k]);
      forall i | |st.report.blockedDetails| <= i < |after| ensures WaitsInPlan(rows, f, s, offerings, passed, plan, after[i]) {
        if i < |before| {
          assert WaitsInPlan(rows, f, s, offerings, passed, plan[..k], before[i]);
        } else {
          assert Waits(rows, f, s, offerings, passed, plan[k], after[i]);
        }
      }
    }
  }

  lemma {:induction false} RetakesBlockNobody(st: State, f: Facts, s: StudentId, offerings: seq<Offering>, passed: set<CourseId>,
        planned: set<CourseId>, asked: seq<CourseId>)
    ensures RetakePass(st, f, s, offerings, passed, planned, asked).report.blockedDetails == st.report.blockedDetails
    decreases |asked|
  {
    if asked != [] {
      RetakesBlockNobody(st, f, s, offerings, passed, planned, asked[..|asked| - 1]);
    }
  }

  ghost predicate RightlyBlocked(rows: Rows, f: Facts, s: Student, b: BlockedRecord) {
    Answered(f, s) && WaitsInPlan(rows, f, s.id, f.offerings(s).value, PassedCourses(rows, f, s.id), f.curriculum(s).value, b)
  }

  lemma TurnBlocksRightly(rows: Rows, st: State, f: Facts, s: Student)
    requires Grows(rows, st.rows)
    ensures var after := EnrollStudent(st, f, s).report.blockedDetails;
      && st.report.blockedDetails <= after
      && forall i :: |st.report.blockedDetails| <= i < |after| ==> RightlyBlocked(rows, f, s, after[i])
  {
    if Answered(f, s) {
      var plan, offerings := f.curriculum(s).value, f.offerings(s).value;
      GrowthKeepsRecord(rows, st.rows, f, s.id);
      var passed := PassedCourses(rows, f, s.id);
      PlanBlocksRightly(rows, st, f, s.id, offerings, passed, plan);
      if f.retakes(s.id).Some? {
        RetakesBlockNobody(CurriculumPass(st, f, s.id, offerings, passed, plan), f, s.id, offerings, passed, Elements(plan),
          f.retakes(s.id).value);
      }
    }
  }

  lemma {:induction false} RunBlocksRightly(rows: Rows, f: Facts, n: nat, i: nat) returns (s: Student)
    requires n <= |f.students| && i < |EnrollFirst(rows, f, n).report.blockedDetails|
    ensures s in f.students && RightlyBlocked(rows, f, s, EnrollFirst(rows, f, n).report.blockedDetails[i])
  {
    var before := EnrollFirst(rows, f, n - 1);
    s := f.students[n - 1];
    RunGrows(rows, f, 0, n - 1);
    TurnBlocksRightly(rows, before, f, s);
    if i < |before.report.blockedDetails| {
      s := RunBlocksRightly(rows, f, n - 1, i);
    }
  }

  /** Every course a run reports as blocked is a planned, open and unpassed course of one of its
      students whose prerequisite is not passed and for which no pretake was approved. */
  lemma BlockedAreJustified(rows: Rows, f: Facts, i: nat)
    requires i < |EnrollAll(rows, f).report.blockedDetails|
    ensures exists s :: s in f.students && RightlyBlocked(rows, f, s, EnrollAll(rows, f).report.blockedDetails[i])
  {
    var s := RunBlocksRightly(rows, f, |f.students|, i);
  }

  predicate HasSeat(rows: Rows, o: OfferingId, s: StudentId) {
    (o, s) in rows && rows[(o, s)].status == EnrollmentStatus.Enrolled
  }

  /** The course is planned and open, the student has no seat in it, no completed row of the student is
      of it nor of the missing one, and no pretake was approved. */
  ghost predicate Lacks(rows: Rows, f: Facts, s: Student, c: CourseId, b: BlockedRecord)
    requires Answered(f, s)
  {
    && b.student == s.id && c in f.curriculum(s).value && FindOffering(f.offerings(s).value, c).Some?
    && var o := FindOffering(f.offerings(s).value, c).value;
    && f.enrolledAnswers(o, s.id) && !HasSeat(rows, o, s.id)
    && f.course(c).Some? && f.course(c).value.prerequisite == Some(b.missing)
    && b.code == f.course(c).value.code && b.missingCode == (match f.course(b.missing) case Some(m) => m.code case None => "")
    && !Completed(rows, f, s.id, c) && !Completed(rows, f, s.id, b.missing)
    && f.pretake(s.id, c) == Some(false)
  }

  /** On the rows from before the run. */
  lemma BlockedAreLacking(rows: Rows, f: Facts, i: nat)
    requires i < |EnrollAll(rows, f).report.blockedDetails|
    ensures exists s, c :: s in f.students && Answered(f, s) && Lacks(rows, f, s, c, EnrollAll(rows, f).report.blockedDetails[i])
  {
    var b := EnrollAll(rows, f).report.blockedDetails[i];
    var s := RunBlocksRightly(rows, f, |f.students|, i);
    var c :| c in f.curriculum(s).value && Waits(rows, f, s.id, f.offerings(s).value, PassedCourses(rows, f, s.id), c, b);
    PassedIsCompleted(rows, f, s.id, c);
    PassedIsCompleted(rows, f, s.id, b.missing);
    assert Lacks(rows, f, s, c, b);
  }

  // ---- Rows, records and counts agree ---------------------------------------------------------------------------

  function WithRecords(rows: Rows, records: seq<EnrollRecord>): Rows {
    if records == [] then rows
    else
      var last := records[|records| - 1];
      WithRecords(rows, records[..|records| - 1])[(last.offering, last.student) := Enrollment(last.kind, Enrolled)]
  }

  ghost predicate IsNew(rows: Rows, records: seq<EnrollRecord>, i: nat)
    requires i < |records|
  {
    (records[i].offering, records[i].student) !in WithRecords(rows, records[..i])
  }

  /** The table is the first one with the reported enrollments added, each of them a new row, and
      every count is the length of its list. */
  ghost predicate Booked(rows: Rows, st: State) {
    && st.rows == WithRecords(rows, st.report.enrolledDetails)
    && (forall i :: 0 <= i < |st.report.enrolledDetails| ==> IsNew(rows, st.report.enrolledDetails, i))
    && st.report.enrolled == |st.report.enrolledDetails|
    && st.report.skipped == |st.report.skippedDetails|
    && st.report.blocked == |st.report.blockedDetails|
  }

  lemma ActKeepsBooked(rows: Rows, st: State, f: Facts, s: StudentId, c: CourseId, v: Verdict)
    requires Booked(rows, st)
    ensures Booked(rows, Act(st, f, s, c, v))
  {
    if v.Enroll? && Inserts(st.rows, f, v.offering, s) {
      var records := st.report.enrolledDetails;
      var more := Act(st, f, s, c, v).report.enrolledDetails;
      assert more[..|records|] == records;
      forall i | 0 <= i < |more| ensures IsNew(rows, more, i) {
        if i < |records| {
          assert IsNew(rows, records, i) && more[..i] == records[..i];
        }
      }
    }
  }

  lemma {:induction false} PassKeepsBooked(rows: Rows, st: State, f: Facts, s: StudentId, offerings: seq<Offering>, passed: set<CourseId>, plan: seq<CourseId>)
    requires Booked(rows, st)
    ensures Booked(rows, CurriculumPass(st, f, s, offerings, passed, plan))
    decreases |plan|
  {
    if plan != [] {
      var before := CurriculumPass(st, f, s, offerings, passed, plan[..|plan| - 1]);
      var c := plan[|plan| - 1];
      PassKeepsBooked(rows, st, f, s, offerings, passed, plan[..|plan| - 1]);
      ActKeepsBooked(rows, before, f, s, c, CurriculumVerdict(before.rows, f, s, offerings, passed, c));
    }
  }

  lemma {:induction false} RetakesKeepBooked(rows: Rows, st: State, f: Facts, s: StudentId, offerings: seq<Offering>, passed: set<CourseId>,
        planned: set<CourseId>, asked: seq<CourseId>)
    requires Booked(rows, st)
    ensures Booked(rows, RetakePass(st, f, s, offerings, passed, planned, asked))
    decreases |asked|
  {
    if asked != [] {
      var before := RetakePass(st, f, s, offerings, passed, planned, asked[..|asked| - 1]);
      var c := asked[|asked| - 1];
      RetakesKeepBooked(rows, st, f, s, offerings, passed, planned, asked[..|asked| - 1]);
      ActKeepsBooked(rows, before, f, s, c, RetakeVerdict(before.rows, f, s, offerings, passed, planned, c));
    }
  }

  lemma {:induction false} RunIsBooked(rows: Rows, f: Facts, n: nat)
    requires n <= |f.students|
    ensures Booked(rows, EnrollFirst(rows, f, n))
  {
    if n > 0 {
      RunIsBooked(rows, f, n - 1);
      var st, s := EnrollFirst(rows, f, n - 1), f.students[n - 1];
      if Answered(f, s) {
        var plan, offerings, passed := f.curriculum(s).value, f.offerings(s).value, PassedCourses(st.rows, f, s.id);
        PassKeepsBooked(rows, st, f, s.id, offerings, passed, plan);
        if f.retakes(s.id).Some? {
          RetakesKeepBooked(rows, CurriculumPass(st, f, s.id, offerings, passed, plan), f, s.id, offerings, passed,
            Elements(plan), f.retakes(s.id).value);
        }
      }
    }
  }

  /** The report is the whole truth about the table, and its counts are the lengths of its lists. */
  lemma ReportIsTheChange(rows: Rows, f: Facts)
    ensures Booked(rows, EnrollAll(rows, f))
  {
    RunIsBooked(rows, f, |f.students|);
  }

  // ---- Nobody entitled is left out -------------------------------------------------------------------------------

  /** The student may take course c of the plan at offering o, and the lookups say so. */
  ghost predicate Entitled(rows: Rows, f: Facts, s: Student, c: CourseId, o: OfferingId) {
    && Answered(f, s) && c in f.curriculum(s).value && f.course(c).Some?
    && FindOffering(f.offerings(s).value, c) == Some(o) && f.enrolledAnswers(o, s.id)
    && var passed, needs := PassedCourses(rows, f, s.id), f.course(c).value.prerequisite;
    c !in passed && (needs.None? || needs.value in passed || f.pretake(s.id, c) == Some(true))
  }

  /** Unless the store refuses the insert, an entitled student ends up with a row. */
  lemma EntitledAreEnrolled(rows: Rows, f: Facts, i: nat, c: CourseId, o: OfferingId)
    requires i < |f.students| && Entitled(rows, f, f.students[i], c, o) && f.inserts(o, f.students[i].id)
    ensures (o, f.students[i].id) in EnrollAll(rows, f).rows
  {
    var s, st, last := f.students[i], EnrollFirst(rows, f, i), EnrollAll(rows, f).rows;
    var plan, offerings := f.curriculum(s).value, f.offerings(s).value;
    RunGrows(rows, f, 0, i);
    RunGrows(rows, f, i + 1, |f.students|);
    GrowthKeepsRecord(rows, st.rows, f, s.id);
    var passed := PassedCourses(rows, f, s.id);
    var planned := CurriculumPass(st, f, s.id, offerings, passed, plan);
    if f.retakes(s.id).Some? {
      RetakesGrow(planned, f, s.id, offerings, passed, Elements(plan), f.retakes(s.id).value);
    }
    PassMakesPlanIdle(st, last, f, s.id, offerings, passed, plan);
    assert Idle(last, f, s.id, CurriculumVerdict(last, f, s.id, offerings, passed, c));
  }

  /** The student may take course c of the plan at offering o: on the rows themselves, no completed row
      is of it, and its prerequisite has one or a pretake was approved. */
  ghost predicate MayTake(rows: Rows, f: Facts, s: Student, c: CourseId, o: OfferingId) {
    && Answered(f, s) && c in f.curriculum(s).value && f.course(c).Some?
    && FindOffering(f.offerings(s).value, c) == Some(o) && f.enrolledAnswers(o, s.id)
    && !Completed(rows, f, s.id, c)
    && var needs := f.course(c).value.prerequisite;
    needs.None? || Completed(rows, f, s.id, needs.value) || f.pretake(s.id, c) == Some(true)
  }

  lemma MayTakeIsEnrolled(rows: Rows, f: Facts, i: nat, c: CourseId, o: OfferingId)
    requires i < |f.students| && MayTake(rows, f, f.students[i], c, o) && f.inserts(o, f.students[i].id)
    ensures (o, f.students[i].id) in EnrollAll(rows, f).rows
  {
    PassedIsCompleted(rows, f, f.students[i].id, c);
    if f.course(c).value.prerequisite.Some? {
      PassedIsCompleted(rows, f, f.students[i].id, f.course(c).value.prerequisite.value);
    }
    EntitledAreEnrolled(rows, f, i, c, o);
  }

  // ---- One decision, all of it, on the rows -----------------------------------------------------------------

  /** What becomes of a planned course: an error when it is unknown or a lookup fails, skipped when there
      is no offering, passed over when it is completed or enrolled already, and else enrolled, as a
      retake exactly when it was failed, or as a pretake, or blocked, as its prerequisite has it. */
  lemma PlannedCourseIff(rows: Rows, f: Facts, s: StudentId, offerings: seq<Offering>, c: CourseId)
    ensures var v, o := CurriculumVerdict(rows, f, s, offerings, PassedCourses(rows, f, s), c), FindOffering(offerings, c);
      if f.course(c).None? then v.Trouble?
      else if forall i :: 0 <= i < |offerings| ==> offerings[i].course != c then v == NoOffering(f.course(c).value.code)
      else if !f.enrolledAnswers(o.value, s) then v.Trouble?
      else if HasSeat(rows, o.value, s) || Completed(rows, f, s, c) then v.Nothing?
      else
        var needs, code := f.course(c).value.prerequisite, f.course(c).value.code;
        if needs.None? || Completed(rows, f, s, needs.value) then
          v == Enroll(o.value, code, if f.failedAnswers(s, c) && FailedOnce(rows, f, s, c) then Retake else Curriculum)
        else if f.pretake(s, c).None? then v.Trouble?
        else if f.pretake(s, c).value then v == Enroll(o.value, code, Pretake)
        else v == BlockedBy(code, needs.value)
  {
    PassedIsCompleted(rows, f, s, c);
    if f.course(c).Some? && f.course(c).value.prerequisite.Some? {
      PassedIsCompleted(rows, f, s, f.course(c).value.prerequisite.value);
    }
  }

  /** A requested retake is taken up unless it is planned, completed, without an offering or enrolled, or
      the enrollment lookup fails. */
  lemma RequestedCourseIff(rows: Rows, f: Facts, s: StudentId, offerings: seq<Offering>, planned: set<CourseId>, c: CourseId)
    ensures var v, o := RetakeVerdict(rows, f, s, offerings, PassedCourses(rows, f, s), planned, c), FindOffering(offerings, c);
      if c in planned || Completed(rows, f, s, c) || o.None? || !f.enrolledAnswers(o.value, s) || HasSeat(rows, o.value, s) then v.Nothing?
      else if f.course(c).None? then v.Trouble?
      else v == Enroll(o.value, f.course(c).value.code, Retake)
  {
    PassedIsCompleted(rows, f, s, c);
  }
}
