/** Finalizing an offering: every enrolled student gets the grade a preview shows, written one by
    one, so that a run that breaks off can be run again. */
module GradeSheet {
  import opened Wrappers
  import opened Academic
  import opened Collections
  import opened Grading

  datatype Row = Row(status: EnrollmentStatus, grade: Option<int>)

  /** An offering's enrollments. */
  type Sheet = map<StudentId, Row>

  datatype Error = NotGrading | AlreadyFinalized | UngradedWork | NoEnrollments | LookupFailed | WriteFailed

  /** The results a student has on all exams, and what the lookups and writes answer. */
  datatype Facts = Facts(
    rules: seq<Rule>,
    threshold: int,
    results: StudentId -> Inputs,
    answers: StudentId -> bool,
    writes: StudentId -> bool)

  function PassStatus(grade: int, threshold: int): EnrollmentStatus { if grade >= threshold then Completed else Failed }

  /** What a preview computes: only the scores of the named exams are read. */
  function Preview(f: Facts, s: StudentId): int {
    Grade(Restricted(f.results(s), NamedExams(f.rules)), f.rules)
  }

  /** The preview is the grade of the full results. */
  lemma PreviewIsGrade(f: Facts, s: StudentId)
    ensures Preview(f, s) == Grade(f.results(s), f.rules)
  {
    NamedExamsSuffice(f.results(s), f.rules);
  }

  function Graded(f: Facts, s: StudentId, row: Row): Row {
    if row.status == Enrolled then Row(PassStatus(Preview(f, s), f.threshold), Some(Preview(f, s))) else row
  }

  /** The sheet with every enrolled student graded. */
  function AllGraded(f: Facts, sheet: Sheet): Sheet { map s | s in sheet :: Graded(f, s, sheet[s]) }

  /** An enrolled student gets the grade of the full results, and is through exactly when it reaches
      the threshold; every other row stays. */
  lemma GradedIs(f: Facts, sheet: Sheet, s: StudentId)
    requires s in sheet
    ensures var row, grade := AllGraded(f, sheet)[s], Grade(f.results(s), f.rules);
      if sheet[s].status != Enrolled then row == sheet[s]
      else row.grade == Some(grade) && (grade >= f.threshold ==> row.status == Completed) && (grade < f.threshold ==> row.status == Failed)
  {
    PreviewIsGrade(f, s);
  }

  predicate IsFinalized(sheet: Sheet) { sheet != map[] && forall s :: s in sheet ==> sheet[s].status != Enrolled }

  /** Each row is as it was, or graded. */
  ghost predicate PartlyGraded(f: Facts, before: Sheet, now: Sheet) {
    && now.Keys == before.Keys
    && forall s :: s in before ==> now[s] == before[s] || now[s] == Graded(f, s, before[s])
  }

  /** However much of the sheet was graded before a run broke off, running to the end gives the same
      sheet as one unbroken run. */
  lemma FinishingIsTheSame(f: Facts, before: Sheet, now: Sheet)
    requires PartlyGraded(f, before, now)
    ensures AllGraded(f, now) == AllGraded(f, before)
  {
  }

  /** The roster: the enrolled students, each once. */
  ghost predicate IsRoster(sheet: Sheet, roster: seq<StudentId>) {
    && (forall s :: s in roster <==> s in sheet && sheet[s].status == Enrolled)
    && NoRepeats(roster)
  }

  /** The first n students of the roster are graded and nobody else is. */
  ghost predicate GradedUpTo(f: Facts, before: Sheet, now: Sheet, roster: seq<StudentId>, n: nat)
    requires n <= |roster|
  {
    && now.Keys == before.Keys
    && forall s :: s in before ==> now[s] == if s in roster[..n] then Graded(f, s, before[s]) else before[s]
  }

  lemma UpToIsPartly(f: Facts, before: Sheet, now: Sheet, roster: seq<StudentId>, n: nat)
    requires n <= |roster| && GradedUpTo(f, before, now, roster, n)
    ensures PartlyGraded(f, before, now)
  {
  }

  lemma OneMoreGraded(f: Facts, before: Sheet, now: Sheet, roster: seq<StudentId>, n: nat)
    requires n < |roster| && IsRoster(before, roster) && GradedUpTo(f, before, now, roster, n)
    ensures roster[n] in now && now[roster[n]] == before[roster[n]] && before[roster[n]].status == Enrolled
    ensures GradedUpTo(f, before, now[roster[n] := Graded(f, roster[n], before[roster[n]])], roster, n + 1)
  {
    assert roster[..n + 1] == roster[..n] + [roster[n]];
    assert roster[n] in roster;
  }

  lemma WholeRosterGraded(f: Facts, before: Sheet, now: Sheet, roster: seq<StudentId>)
    requires roster != [] && IsRoster(before, roster) && GradedUpTo(f, before, now, roster, |roster|)
    ensures now == AllGraded(f, before) && IsFinalized(now)
  {
    assert roster[..|roster|] == roster;
    assert roster[0] in roster && roster[0] in now;
  }

  // ---- What a run checks first ------------------------------------------------------------------------

  /** What the lookups before the grading answer; None and false are lookups that fail. examWork and
      handedIn say whether counted attempts and submissions are still ungraded. */
  datatype Lookups = Lookups(
    inGrading: Option<bool>,
    finalized: bool,
    rules: bool,
    examWork: Option<bool>,
    handedIn: Option<bool>,
    threshold: bool,
    roster: bool)

  predicate CountsAssignments(rules: seq<Rule>) { exists i :: 0 <= i < |rules| && rules[i].kind == Assignments }

  /** A yes-or-no lookup that must answer no. */
  function Denied(answer: Option<bool>, error: Error): Option<Error> {
    if answer.None? then Some(LookupFailed) else if answer.value then Some(error) else None
  }

  function WorkMissing(f: Facts, l: Lookups): Option<Error> {
    var exams := if NamedExams(f.rules) == [] then None else Denied(l.examWork, UngradedWork);
    if exams.Some? then exams
    else if CountsAssignments(f.rules) then Denied(l.handedIn, UngradedWork)
    else None
  }

  /** Why a run ends before it grades anybody: the first check that fails, in this order. */
  function Refusal(f: Facts, l: Lookups, sheet: Sheet, roster: seq<StudentId>): Option<Error> {
    if l.inGrading != Some(true) then Some(if l.inGrading.None? then LookupFailed else NotGrading)
    else if !l.finalized then Some(LookupFailed)
    else if IsFinalized(sheet) then Some(AlreadyFinalized)
    else if !l.rules then Some(LookupFailed)
    else if WorkMissing(f, l).Some? then WorkMissing(f, l)
    else if !l.threshold || !l.roster then Some(LookupFailed)
    else if roster == [] then Some(NoEnrollments)
    else None
  }

  /** Every row is graded, or dropped, and there is one. */
  ghost predicate AllDone(sheet: Sheet) { |sheet| > 0 && forall s :: s in sheet ==> sheet[s].status != EnrollmentStatus.Enrolled }

  ghost predicate ExamsCount(rules: seq<Rule>) { exists e :: SomeNames(rules, e) }

  ghost predicate AssignmentsCount(rules: seq<Rule>) { exists r :: r in rules && r.kind == Assignments }

  lemma WhatCounts(rules: seq<Rule>)
    ensures NamedExams(rules) != [] <==> ExamsCount(rules)
    ensures CountsAssignments(rules) <==> AssignmentsCount(rules)
  {
    if NamedExams(rules) != [] {
      NamedIff(rules, NamedExams(rules)[0]);
    }
    if e :| SomeNames(rules, e) {
      NamedIff(rules, e);
    }
  }

  lemma MissingIff(f: Facts, l: Lookups)
    ensures var missing, exams, work := WorkMissing(f, l), ExamsCount(f.rules), AssignmentsCount(f.rules);
      && (missing == None <==> (exams ==> l.examWork == Some(false)) && (work ==> l.handedIn == Some(false)))
      && (missing == Some(UngradedWork) <==>
           if exams && l.examWork != Some(false) then l.examWork == Some(true) else work && l.handedIn == Some(true))
      && (missing == None || missing == Some(UngradedWork) || missing == Some(LookupFailed))
  {
    WhatCounts(f.rules);
  }

  /** Which answers refuse a run and how: one outside grading, one that is finished, work that is counted
      and still ungraded, nobody to grade. Everything else in the way is a failed lookup. */
  lemma RefusedIff(f: Facts, l: Lookups, sheet: Sheet, roster: seq<StudentId>)
    ensures var refusal, open := Refusal(f, l, sheet, roster), l.inGrading == Some(true) && l.finalized;
      var exams, work := ExamsCount(f.rules), AssignmentsCount(f.rules);
      var graded := (exams ==> l.examWork == Some(false)) && (work ==> l.handedIn == Some(false));
      var ungraded := if exams && l.examWork != Some(false) then l.examWork == Some(true) else work && l.handedIn == Some(true);
      && (refusal == Some(NotGrading) <==> l.inGrading == Some(false))
      && (refusal == Some(AlreadyFinalized) <==> open && AllDone(sheet))
      && (refusal == Some(UngradedWork) <==> open && !AllDone(sheet) && l.rules && ungraded)
      && (refusal == Some(NoEnrollments) <==> open && !AllDone(sheet) && l.rules && graded && l.threshold && l.roster && |roster| == 0)
      && (refusal == None <==> open && !AllDone(sheet) && l.rules && graded && l.threshold && l.roster && |roster| > 0)
      && refusal != Some(WriteFailed)
  {
    MissingIff(f, l);
    if l.inGrading.Some? && !l.inGrading.value {
      assert l.inGrading == Some(false) && Refusal(f, l, sheet, roster) == Some(NotGrading);
    }
    assert IsFinalized(sheet) <==> AllDone(sheet);
  }

  /** Work that no rule counts holds nothing up, whether it is graded or not. */
  lemma OnlyCountedWorkMatters(f: Facts, l: Lookups, other: Lookups, sheet: Sheet, roster: seq<StudentId>)
    requires other == l.(examWork := other.examWork, handedIn := other.handedIn)
    requires NamedExams(f.rules) != [] ==> other.examWork == l.examWork
    requires CountsAssignments(f.rules) ==> other.handedIn == l.handedIn
    ensures Refusal(f, l, sheet, roster) == Refusal(f, other, sheet, roster)
  {
  }

  /** A sheet that one run has finished is refused by every later run, and is finalized by that. */
  lemma FinishedIsRefused(f: Facts, l: Lookups, before: Sheet, roster: seq<StudentId>, later: seq<StudentId>)
    requires IsRoster(before, roster) && Refusal(f, l, before, roster).None?
    ensures Refusal(f, l, AllGraded(f, before), later) == Some(AlreadyFinalized)
  {
    assert roster[0] in roster;
    assert roster[0] in AllGraded(f, before);
  }

  class Gradebook {
    var sheet: Sheet

    constructor (sheet: Sheet)
      ensures this.sheet == sheet
    {
      this.sheet := sheet;
    }

    /** An enrolled or already graded row takes a grade; a dropped or withdrawn one does not. */
    method SetGrade(f: Facts, s: StudentId, grade: int, status: EnrollmentStatus) returns (ok: bool)
      modifies this
      ensures ok <==> f.writes(s) && s in old(sheet) && old(sheet)[s].status in {Enrolled, Completed, Failed}
      ensures sheet == if ok then old(sheet)[s := Row(status, Some(grade))] else old(sheet)
    {
      ok := f.writes(s) && s in sheet && sheet[s].status in {Enrolled, Completed, Failed};
      if ok {
        sheet := sheet[s := Row(status, Some(grade))];
      }
    }

    method WriteGrades(f: Facts, examIDs: seq<ExamId>, roster: seq<StudentId>) returns (ok: bool, count: nat)
      requires IsRoster(sheet, roster) && examIDs == NamedExams(f.rules)
      modifies this
      ensures count <= |roster| && GradedUpTo(f, old(sheet), sheet, roster, count)
      ensures ok <==> count == |roster|
      ensures forall i :: 0 <= i < count ==> f.answers(roster[i]) && f.writes(roster[i])
      ensures !ok ==> !(f.answers(roster[count]) && f.writes(roster[count]))
    {
      count := 0;
      while count < |roster|
        invariant count <= |roster| && GradedUpTo(f, old(sheet), sheet, roster, count)
        invariant forall i :: 0 <= i < count ==> f.answers(roster[i]) && f.writes(roster[i])
      {
        var s := roster[count];
        OneMoreGraded(f, old(sheet), sheet, roster, count);
        if !f.answers(s) { return false, count; }
        var grade := FinalGrade(Restricted(f.results(s), examIDs), f.rules);
        ok := SetGrade(f, s, grade, PassStatus(grade, f.threshold));
        if !ok { return false, count; }
        count := count + 1;
      }
      return true, count;
    }

    /** Whether work that the rules count is still ungraded: each kind is asked for only if a rule
        counts it. */
    method CheckWork(f: Facts, l: Lookups, examIDs: seq<ExamId>) returns (refusal: Option<Error>)
      requires examIDs == NamedExams(f.rules)
      ensures refusal == WorkMissing(f, l)
    {
      if |examIDs| > 0 {
        if l.examWork.None? { return Some(LookupFailed); }
        if l.examWork.value { return Some(UngradedWork); }
      }
      for i := 0 to |f.rules|
        invariant forall j :: 0 <= j < i ==> f.rules[j].kind != Assignments
      {
        if f.rules[i].kind == Assignments {
          if l.handedIn.None? { return Some(LookupFailed); }
          if l.handedIn.value { return Some(UngradedWork); }
          return None;
        }
      }
      return None;
    }

    /** count is how many students were graded, also when the run breaks off. */
    method Finalize(f: Facts, l: Lookups, roster: seq<StudentId>) returns (r: Result<(), Error>, count: nat)
      requires IsRoster(sheet, roster)
      modifies this
      ensures count <= |roster| && GradedUpTo(f, old(sheet), sheet, roster, count) && PartlyGraded(f, old(sheet), sheet)
      ensures Refusal(f, l, old(sheet), roster).Some? ==>
        r == Failure(Refusal(f, l, old(sheet), roster).value) && count == 0 && sheet == old(sheet)
      ensures Refusal(f, l, old(sheet), roster).None? && count < |roster| ==>
        r == Failure(WriteFailed) && !(f.answers(roster[count]) && f.writes(roster[count]))
      ensures r.Success? <==> Refusal(f, l, old(sheet), roster).None? && count == |roster|
      ensures r.Success? ==> sheet == AllGraded(f, old(sheet)) && IsFinalized(sheet)
    {
      count := 0;
      if l.inGrading.None? { return Failure(LookupFailed), 0; }
      if !l.inGrading.value { return Failure(NotGrading), 0; }
      if !l.finalized { return Failure(LookupFailed), 0; }
      if IsFinalized(sheet) { return Failure(AlreadyFinalized), 0; }
      if !l.rules { return Failure(LookupFailed), 0; }
      var examIDs := RuleExamIDs(f.rules);
      var missing := CheckWork(f, l, examIDs);
      if missing.Some? { return Failure(missing.value), 0; }
      if !l.threshold { return Failure(LookupFailed), 0; }
      if !l.roster { return Failure(LookupFailed), 0; }
      if |roster| == 0 { return Failure(NoEnrollments), 0; }
      var ok;
      ok, count := WriteGrades(f, examIDs, roster);
      UpToIsPartly(f, old(sheet), sheet, roster, count);
      if !ok { return Failure(WriteFailed), count; }
      WholeRosterGraded(f, old(sheet), sheet, roster);
      return Success(()), count;
    }
  }
}
