/** Ending a semester: who is promoted, who repeats, and what the cohort history says of it. */
module YearEnd {
  import opened Wrappers
  import opened Academic

  type StudentId = nat

  datatype StudentStatus = ActiveStudent | Graduated | Withdrawn | Suspended | OnLeave

  datatype Student = Student(program: nat, cohort: int, year: int, status: StudentStatus)

  /** One row of the cohort history. */
  datatype Change = Change(student: StudentId, cohort: int, newCohort: int, year: int, newYear: int)

  datatype Registry = Registry(students: map<StudentId, Student>, history: seq<Change>)

  datatype Outcome = Promoted | Repeated | Unchanged | Errored

  datatype Report = Report(processed: nat, promoted: nat, repeated: nat, same: nat, errors: nat)

  const NO_REPORT: Report := Report(0, 0, 0, 0, 0)

  /** One semester's end: its students, each listed once, and what each lookup and write answers.
      A missing requirement means no minimum. */
  datatype Facts = Facts(
    term: Term,
    fullYearRepeat: bool,
    listed: seq<StudentId>,
    credits: StudentId -> Option<int>,
    required: Student -> Option<int>,
    progresses: StudentId -> bool,
    records: StudentId -> bool,
    regroups: StudentId -> bool)

  predicate RunsYearEnd(t: Term) { t == Spring || t == Annual }

  predicate PassesYear(f: Facts, id: StudentId, s: Student)
    requires f.credits(id).Some?
  {
    f.credits(id).value >= if f.required(s).Some? then f.required(s).value else 0
  }

  datatype Ended = Ended(registry: Registry, outcome: Outcome)

  /** The UPDATE sets the two columns of the row there is by now. */
  function Moved(r: Registry, id: StudentId, year: int, cohort: int): Registry {
    if id in r.students then r.(students := r.students[id := r.students[id].(year := year, cohort := cohort)]) else r
  }

  function Noted(r: Registry, id: StudentId, s: Student, newCohort: int): Registry {
    r.(history := r.history + [Change(id, s.cohort, newCohort, s.year, s.year)])
  }

  /** One student's end of the semester: the writes happen one after the other, and a failing one
      leaves the earlier ones standing. */
  function EndStudent(r: Registry, f: Facts, id: StudentId, s: Student): Ended {
    if f.credits(id).None? then Ended(r, Errored)
    else if !RunsYearEnd(f.term) then Ended(r, Unchanged)
    else if PassesYear(f, id, s) then
      if !f.progresses(id) then Ended(r, Errored) else Ended(Moved(r, id, s.year + 1, s.cohort), Promoted)
    else if f.fullYearRepeat then
      if !f.progresses(id) then Ended(r, Errored)
      else
        var moved := Moved(r, id, s.year, s.cohort + 1);
        if !f.records(id) then Ended(moved, Errored)
        else if !f.regroups(id) then Ended(Noted(moved, id, s, s.cohort + 1), Errored)
        else Ended(Noted(moved, id, s, s.cohort + 1), Repeated)
    else if !f.records(id) then Ended(r, Errored)
    else Ended(Noted(r, id, s, s.cohort), Unchanged)
  }

  function Counted(p: Report, o: Outcome): Report {
    var q := p.(processed := p.processed + 1);
    match o
    case Promoted => q.(promoted := q.promoted + 1)
    case Repeated => q.(repeated := q.repeated + 1)
    case Unchanged => q.(same := q.same + 1)
    case Errored => q.(errors := q.errors + 1)
  }

  datatype State = State(registry: Registry, report: Report)

  /** After the first n listed students; the list is read once, before the first of them. */
  function EndFirst(before: Registry, f: Facts, n: nat): State
    requires n <= |f.listed| && forall id :: id in f.listed ==> id in before.students
  {
    if n == 0 then State(before, NO_REPORT)
    else
      var st, id := EndFirst(before, f, n - 1), f.listed[n - 1];
      var s := before.students[id];
      if s.status != ActiveStudent then st
      else
        var ended := EndStudent(st.registry, f, id, s);
        State(ended.registry, Counted(st.report, ended.outcome))
  }

  ghost predicate Listed(before: Registry, f: Facts) {
    && (forall id :: id in f.listed ==> id in before.students)
    && forall i, j :: 0 <= i < j < |f.listed| ==> f.listed[i] != f.listed[j]
  }

  function EndAll(before: Registry, f: Facts): State
    requires Listed(before, f)
  {
    EndFirst(before, f, |f.listed|)
  }

  // ---- The counts ---------------------------------------------------------------------------------------

  function ActiveAmong(before: Registry, ids: seq<StudentId>): nat
    requires forall id :: id in ids ==> id in before.students
  {
    if ids == [] then 0
    else ActiveAmong(before, ids[..|ids| - 1]) + if before.students[ids[|ids| - 1]].status == ActiveStudent then 1 else 0
  }

  /** Every active student on the list is processed and counted under exactly one outcome. */
  lemma {:induction false} OutcomesAddUp(before: Registry, f: Facts, n: nat)
    requires n <= |f.listed| && Listed(before, f)
    ensures var p := EndFirst(before, f, n).report;
      && p.processed == p.promoted + p.repeated + p.same + p.errors
      && p.processed == ActiveAmong(before, f.listed[..n])
  {
    if n > 0 {
      OutcomesAddUp(before, f, n - 1);
      assert f.listed[..n][..n - 1] == f.listed[..n - 1];
    }
  }

  // ---- One student through the whole run -------------------------------------------------------------------

  lemma {:induction false} OthersStay(before: Registry, f: Facts, n: nat, id: StudentId)
    requires n <= |f.listed| && Listed(before, f) && id in before.students
    requires forall i :: 0 <= i < n ==> f.listed[i] != id
    ensures id in EndFirst(before, f, n).registry.students
    ensures EndFirst(before, f, n).registry.students[id] == before.students[id]
  {
    if n > 0 {
      OthersStay(before, f, n - 1, id);
    }
  }

  lemma {:induction false} StaysAfterTurn(before: Registry, f: Facts, n: nat, i: nat)
    requires i < n <= |f.listed| && Listed(before, f)
    ensures f.listed[i] in EndFirst(before, f, n).registry.students
    ensures f.listed[i] in EndFirst(before, f, i + 1).registry.students
    ensures EndFirst(before, f, n).registry.students[f.listed[i]] == EndFirst(before, f, i + 1).registry.students[f.listed[i]]
    decreases n
  {
    if i + 1 < n {
      StaysAfterTurn(before, f, n - 1, i);
    } else {
      OthersStay(before, f, i, f.listed[i]);
    }
  }

  /** Nothing goes wrong for this student. */
  predicate NoFault(f: Facts, id: StudentId) {
    f.credits(id).Some? && f.progresses(id) && f.records(id) && f.regroups(id)
  }

  /** How far a student has come: the year of study and the cohort together. */
  function Standing(s: Student): int { s.year + s.cohort }

  /** In a year-end with full-year repeat every active student on the list moves by exactly one, up a
      year or down a cohort, and nobody else moves. */
  lemma OneStepPerYearEnd(before: Registry, f: Facts, id: StudentId)
    requires Listed(before, f) && id in before.students
    requires RunsYearEnd(f.term) && f.fullYearRepeat && NoFault(f, id)
    ensures id in EndAll(before, f).registry.students
    ensures Standing(EndAll(before, f).registry.students[id]) == Standing(before.students[id]) +
      if id in f.listed && before.students[id].status == ActiveStudent then 1 else 0
  {
    if id in f.listed {
      var i :| 0 <= i < |f.listed| && f.listed[i] == id;
      OthersStay(before, f, i, id);
      StaysAfterTurn(before, f, |f.listed|, i);
    } else {
      OthersStay(before, f, |f.listed|, id);
    }
  }

  // ---- Who is promoted, who repeats -------------------------------------------------------------------------

  /** The credits of the semester are those the program asks for in this year of study, or it asks for
      none. */
  predicate Reaches(f: Facts, id: StudentId, s: Student) {
    f.credits(id).Some? && match f.required(s) case None => f.credits(id).value >= 0 case Some(n) => f.credits(id).value >= n
  }

  predicate EndsYear(t: Term) { match t case Fall => false case Spring => true case Summer => false case Annual => true }

  /** In a spring or annual semester an active student on the list who reaches the requirement goes up a
      year and keeps the cohort; one who does not keeps the year, and goes down a cohort exactly when
      full years are repeated; whose credits or write fail stays. In any other semester nobody moves. */
  lemma PromotedIff(before: Registry, f: Facts, id: StudentId)
    requires Listed(before, f) && id in f.listed && before.students[id].status == ActiveStudent
    ensures id in EndAll(before, f).registry.students
    ensures var s, after := before.students[id], EndAll(before, f).registry.students[id];
      if !EndsYear(f.term) || f.credits(id).None? || !f.progresses(id) then after == s
      else if Reaches(f, id, s) then after == s.(year := s.year + 1)
      else after == s.(cohort := s.cohort + if f.fullYearRepeat then 1 else 0)
  {
    var i :| 0 <= i < |f.listed| && f.listed[i] == id;
    OthersStay(before, f, i, id);
    StaysAfterTurn(before, f, |f.listed|, i);
  }

  /** How many of the first n on the list are promoted, repeat a year, or stay as they are, on their
      credits and on what can be written. */
  function PromotedAmong(before: Registry, f: Facts, n: nat): nat
    requires n <= |f.listed| && forall id :: id in f.listed ==> id in before.students
  {
    if n == 0 then 0
    else
      var id := f.listed[n - 1];
      var s := before.students[id];
      PromotedAmong(before, f, n - 1) +
      if s.status == ActiveStudent && EndsYear(f.term) && Reaches(f, id, s) && f.progresses(id) then 1 else 0
  }

  function RepeatingAmong(before: Registry, f: Facts, n: nat): nat
    requires n <= |f.listed| && forall id :: id in f.listed ==> id in before.students
  {
    if n == 0 then 0
    else
      var id := f.listed[n - 1];
      var s := before.students[id];
      RepeatingAmong(before, f, n - 1) +
      if s.status == ActiveStudent && EndsYear(f.term) && f.fullYearRepeat && !Reaches(f, id, s) && NoFault(f, id) then 1 else 0
  }

  function StayingAmong(before: Registry, f: Facts, n: nat): nat
    requires n <= |f.listed| && forall id :: id in f.listed ==> id in before.students
  {
    if n == 0 then 0
    else
      var id := f.listed[n - 1];
      var s := before.students[id];
      var stays := if EndsYear(f.term) then !f.fullYearRepeat && !Reaches(f, id, s) && f.records(id) else true;
      StayingAmong(before, f, n - 1) + if s.status == ActiveStudent && f.credits(id).Some? && stays then 1 else 0
  }

  /** The counts of the report are these numbers; whoever is left over of the active is an error. */
  lemma {:induction false} CountsTell(before: Registry, f: Facts, n: nat)
    requires n <= |f.listed| && Listed(before, f)
    ensures var p := EndFirst(before, f, n).report;
      && p.promoted == PromotedAmong(before, f, n)
      && p.repeated == RepeatingAmong(before, f, n)
      && p.same == StayingAmong(before, f, n)
  {
    if n > 0 {
      CountsTell(before, f, n - 1);
    }
  }

  // ---- Who gets a history row, and which ----------------------------------------------------------------------

  /** The history rows of one student. */
  function RowsOf(history: seq<Change>, id: StudentId): seq<Change> {
    if history == [] then []
    else
      var last := history[|history| - 1];
      RowsOf(history[..|history| - 1], id) + if last.student == id then [last] else []
  }

  lemma RowsOfGrows(history: seq<Change>, c: Change, id: StudentId)
    ensures RowsOf(history + [c], id) == RowsOf(history, id) + if c.student == id then [c] else []
  {
    assert (history + [c])[..|history|] == history;
  }

  /** An active student who does not reach the requirement at a year's end gets one row, with the cohort
      before and after and the year as it was, unless a write fails; nobody else gets any. */
  function NewRow(f: Facts, id: StudentId, s: Student): seq<Change> {
    if EndsYear(f.term) && f.credits(id).Some? && !Reaches(f, id, s) && f.records(id) && (f.fullYearRepeat ==> f.progresses(id)) then
      [Change(id, s.cohort, s.cohort + if f.fullYearRepeat then 1 else 0, s.year, s.year)]
    else []
  }

  lemma TurnNotes(r: Registry, f: Facts, turn: StudentId, s: Student)
    ensures EndStudent(r, f, turn, s).registry.history == r.history + NewRow(f, turn, s)
  {
  }

  lemma TurnAddsRow(r: Registry, f: Facts, turn: StudentId, s: Student, id: StudentId)
    ensures RowsOf(EndStudent(r, f, turn, s).registry.history, id) ==
      RowsOf(r.history, id) + if turn == id then NewRow(f, id, s) else []
  {
    TurnNotes(r, f, turn, s);
    var row := NewRow(f, turn, s);
    if row == [] {
      assert r.history + row == r.history;
    } else {
      RowsOfGrows(r.history, row[0], id);
      assert row == [row[0]];
    }
  }

  lemma {:induction false} NoRowBeforeTurn(before: Registry, f: Facts, n: nat, id: StudentId)
    requires n <= |f.listed| && Listed(before, f)
    requires forall i :: 0 <= i < n ==> f.listed[i] != id
    ensures RowsOf(EndFirst(before, f, n).registry.history, id) == RowsOf(before.history, id)
  {
    if n > 0 {
      NoRowBeforeTurn(before, f, n - 1, id);
      TurnAddsRow(EndFirst(before, f, n - 1).registry, f, f.listed[n - 1], before.students[f.listed[n - 1]], id);
    }
  }

  lemma {:induction false} OneRowFromTurn(before: Registry, f: Facts, n: nat, i: nat)
    requires i < n <= |f.listed| && Listed(before, f)
    ensures var id := f.listed[i];
      RowsOf(EndFirst(before, f, n).registry.history, id) == RowsOf(before.history, id) +
        if before.students[id].status == ActiveStudent then NewRow(f, id, before.students[id]) else []
    decreases n
  {
    var id := f.listed[i];
    if i + 1 < n {
      OneRowFromTurn(before, f, n - 1, i);
    } else {
      NoRowBeforeTurn(before, f, i, id);
    }
    TurnAddsRow(EndFirst(before, f, n - 1).registry, f, f.listed[n - 1], before.students[f.listed[n - 1]], id);
  }

  lemma HistoryRowIff(before: Registry, f: Facts, id: StudentId)
    requires Listed(before, f) && id in before.students
    ensures RowsOf(EndAll(before, f).registry.history, id) == RowsOf(before.history, id) +
      if id in f.listed && before.students[id].status == ActiveStudent then NewRow(f, id, before.students[id]) else []
  {
    if id in f.listed {
      var i :| 0 <= i < |f.listed| && f.listed[i] == id;
      OneRowFromTurn(before, f, |f.listed|, i);
    } else {
      NoRowBeforeTurn(before, f, |f.listed|, id);
    }
  }

  // ---- The history explains every cohort ---------------------------------------------------------------------

  function DriftOf(c: Change, id: StudentId): int { if c.student == id then c.newCohort - c.cohort else 0 }

  function DriftTo(history: seq<Change>, n: nat, id: StudentId): int
    requires n <= |history|
  {
    if n == 0 then 0 else DriftTo(history, n - 1, id) + DriftOf(history[n - 1], id)
  }

  /** What the recorded changes say a student's cohort has moved by. */
  function Drift(history: seq<Change>, id: StudentId): int { DriftTo(history, |history|, id) }

  lemma {:induction false} DriftOfPrefix(history: seq<Change>, c: Change, n: nat, id: StudentId)
    requires n <= |history|
    ensures DriftTo(history + [c], n, id) == DriftTo(history, n, id)
  {
    if n > 0 {
      DriftOfPrefix(history, c, n - 1, id);
    }
  }

  lemma DriftGrows(history: seq<Change>, c: Change, id: StudentId)
    ensures Drift(history + [c], id) == Drift(history, id) + DriftOf(c, id)
  {
    DriftOfPrefix(history, c, |history|, id);
  }

  /** One cohort has moved by what the history since the first registry says. */
  ghost predicate ExplainedFor(first: Registry, now: Registry, id: StudentId)
    requires id in first.students && id in now.students
  {
    now.students[id].cohort - first.students[id].cohort == Drift(now.history, id) - Drift(first.history, id)
  }

  ghost predicate Explained(first: Registry, now: Registry) {
    && first.students.Keys == now.students.Keys
    && forall id :: id in first.students ==> ExplainedFor(first, now, id)
  }

  /** A repeat that moved the student's cohort and then could not write it down. */
  predicate LosesHistory(f: Facts, id: StudentId, s: Student) {
    && f.credits(id).Some? && RunsYearEnd(f.term) && !PassesYear(f, id, s) && f.fullYearRepeat
    && f.progresses(id) && !f.records(id)
  }

  lemma TurnExplainsOne(first: Registry, now: Registry, f: Facts, id: StudentId, s: Student, other: StudentId)
    requires id in now.students && now.students[id] == s
    requires other in first.students && other in now.students && ExplainedFor(first, now, other)
    ensures other in EndStudent(now, f, id, s).registry.students
    ensures ExplainedFor(first, EndStudent(now, f, id, s).registry, other) <==> other != id || !LosesHistory(f, id, s)
  {
    DriftGrows(now.history, Change(id, s.cohort, s.cohort + 1, s.year, s.year), other);
    DriftGrows(now.history, Change(id, s.cohort, s.cohort, s.year, s.year), other);
  }

  /** One student's turn keeps the history complete exactly when it does not lose a row. */
  lemma TurnExplainedIff(first: Registry, now: Registry, f: Facts, id: StudentId, s: Student)
    requires Explained(first, now) && id in now.students && now.students[id] == s
    ensures Explained(first, EndStudent(now, f, id, s).registry) <==> !LosesHistory(f, id, s)
  {
    var next := EndStudent(now, f, id, s).registry;
    assert next.students.Keys == now.students.Keys;
    forall other | other in first.students
      ensures ExplainedFor(first, next, other) <==> other != id || !LosesHistory(f, id, s)
    {
      TurnExplainsOne(first, now, f, id, s, other);
    }
  }

  ghost predicate NoneLosesHistory(before: Registry, f: Facts)
    requires Listed(before, f)
  {
    forall id :: id in f.listed && before.students[id].status == ActiveStudent ==> !LosesHistory(f, id, before.students[id])
  }

  lemma {:induction false} RunExplained(first: Registry, before: Registry, f: Facts, n: nat)
    requires n <= |f.listed| && Listed(before, f) && Explained(first, before) && NoneLosesHistory(before, f)
    ensures Explained(first, EndFirst(before, f, n).registry)
  {
    if n > 0 {
      RunExplained(first, before, f, n - 1);
      var st, id := EndFirst(before, f, n - 1), f.listed[n - 1];
      OthersStay(before, f, n - 1, id);
      if before.students[id].status == ActiveStudent {
        TurnExplainedIff(first, st.registry, f, id, before.students[id]);
      }
    }
  }

  // ---- Any number of semesters -----------------------------------------------------------------------------------

  /** The registry after the first n semester ends, each of which lists students it knows. */
  ghost predicate Ends(registries: seq<Registry>, terms: seq<Facts>) {
    && |registries| == |terms| + 1
    && forall i: nat :: i < |terms| ==> EndsAt(registries, terms, i)
  }

  ghost predicate EndsAt(registries: seq<Registry>, terms: seq<Facts>, i: nat)
    requires i < |terms| < |registries|
  {
    Listed(registries[i], terms[i]) && registries[i + 1] == EndAll(registries[i], terms[i]).registry
  }

  /** How many of the first n ends are year-ends that list the student as active. */
  ghost function YearEndsOf(registries: seq<Registry>, terms: seq<Facts>, n: nat, id: StudentId): nat
    requires n <= |terms| < |registries|
  {
    if n == 0 then 0
    else
      var r, f := registries[n - 1], terms[n - 1];
      YearEndsOf(registries, terms, n - 1, id) +
      if RunsYearEnd(f.term) && id in f.listed && id in r.students && r.students[id].status == ActiveStudent then 1 else 0
  }

  lemma NoYearEndNoMove(before: Registry, f: Facts, n: nat)
    requires n <= |f.listed| && Listed(before, f) && !RunsYearEnd(f.term)
    ensures EndFirst(before, f, n).registry == before
  {
  }

  /** Through any sequence of semester ends without faults for a student, with full-year repeat on,
      the standing has risen by the year-ends the student was there for. */
  lemma {:induction false} StandingCountsYearEnds(registries: seq<Registry>, terms: seq<Facts>, n: nat, id: StudentId)
    requires Ends(registries, terms) && n <= |terms| && id in registries[0].students
    requires forall i :: 0 <= i < n ==> terms[i].fullYearRepeat && NoFault(terms[i], id)
    ensures id in registries[n].students
    ensures Standing(registries[n].students[id]) == Standing(registries[0].students[id]) + YearEndsOf(registries, terms, n, id)
  {
    if n > 0 {
      StandingCountsYearEnds(registries, terms, n - 1, id);
      assert EndsAt(registries, terms, n - 1);
      if RunsYearEnd(terms[n - 1].term) {
        OneStepPerYearEnd(registries[n - 1], terms[n - 1], id);
      } else {
        NoYearEndNoMove(registries[n - 1], terms[n - 1], |terms[n - 1].listed|);
      }
    }
  }

  /** Through any sequence of semester ends that loses no history row, every cohort is explained by
      the history. */
  lemma {:induction false} HistoryExplainsCohorts(registries: seq<Registry>, terms: seq<Facts>, n: nat)
    requires Ends(registries, terms) && n <= |terms|
    requires forall i: nat :: i < n && EndsAt(registries, terms, i) ==> NoneLosesHistory(registries[i], terms[i])
    ensures Explained(registries[0], registries[n])
  {
    if n > 0 {
      HistoryExplainsCohorts(registries, terms, n - 1);
      assert EndsAt(registries, terms, n - 1);
      RunExplained(registries[0], registries[n - 1], terms[n - 1], |terms[n - 1].listed|);
    }
  }

  // ---- The program ------------------------------------------------------------------------------------------------

  datatype Error = SemesterNotFinalized | OfferingsNotFinalized | LookupFailed

  class Students {
    var registry: Registry

    constructor (registry: Registry)
      ensures this.registry == registry
    {
      this.registry := registry;
    }

    /** UpdateStudentProgression writes absolute values computed from what was listed. */
    method UpdateProgression(f: Facts, id: StudentId, year: int, cohort: int) returns (ok: bool)
      modifies this
      ensures ok <==> f.progresses(id)
      ensures registry == if ok then Moved(old(registry), id, year, cohort) else old(registry)
    {
      ok := f.progresses(id);
      if ok && id in registry.students {
        registry := registry.(students := registry.students[id := registry.students[id].(year := year, cohort := cohort)]);
      }
    }

    method RecordCohortChange(f: Facts, c: Change) returns (ok: bool)
      modifies this
      ensures ok <==> f.records(c.student)
      ensures registry == if ok then old(registry).(history := old(registry).history + [c]) else old(registry)
    {
      ok := f.records(c.student);
      if ok {
        registry := registry.(history := registry.history + [c]);
      }
    }

    method ProcessYearEnd(f: Facts, id: StudentId, s: Student, passed: bool) returns (outcome: Outcome)
      requires f.credits(id).Some? && RunsYearEnd(f.term) && passed == PassesYear(f, id, s)
      modifies this
      ensures Ended(registry, outcome) == EndStudent(old(registry), f, id, s)
    {
      if passed {
        var ok := UpdateProgression(f, id, s.year + 1, s.cohort);
        return if ok then Promoted else Errored;
      }
      if f.fullYearRepeat {
        var newCohort := s.cohort + 1;
        var ok := UpdateProgression(f, id, s.year, newCohort);
        if !ok { return Errored; }
        ok := RecordCohortChange(f, Change(id, s.cohort, newCohort, s.year, s.year));
        if !ok { return Errored; }
        if !f.regroups(id) { return Errored; }
        return Repeated;
      }
      var ok := RecordCohortChange(f, Change(id, s.cohort, s.cohort, s.year, s.year));
      return if ok then Unchanged else Errored;
    }

    method ProcessStudent(f: Facts, id: StudentId, s: Student) returns (outcome: Outcome)
      modifies this
      ensures Ended(registry, outcome) == EndStudent(old(registry), f, id, s)
    {
      var earned := f.credits(id);
      if earned.None? { return Errored; }
      var minCredits := 0;
      var required := f.required(s);
      if required.Some? {
        minCredits := required.value;
      }
      if RunsYearEnd(f.term) {
        outcome := ProcessYearEnd(f, id, s, earned.value >= minCredits);
        return;
      }
      return Unchanged;
    }

    /** The student half of EndSemester, up to the archiving. counts and lists say whether the
        offerings could be counted and the settings and students read. */
    method EndStudents(f: Facts, status: SemesterStatus, counts: bool, unfinalized: nat, lists: bool) returns (r: Result<Report, Error>)
      requires Listed(registry, f)
      modifies this
      ensures r.Success? <==> status == Finalized && counts && unfinalized == 0 && lists
      ensures r.Failure? ==> registry == old(registry)
      ensures status != Finalized ==> r == Failure(SemesterNotFinalized)
      ensures status == Finalized && counts && unfinalized > 0 ==> r == Failure(OfferingsNotFinalized)
      ensures r.Success? ==> State(registry, r.value) == EndAll(old(registry), f)
    {
      if status != Finalized { return Failure(SemesterNotFinalized); }
      if !counts { return Failure(LookupFailed); }
      if unfinalized > 0 { return Failure(OfferingsNotFinalized); }
      if !lists { return Failure(LookupFailed); }
      var students := registry.students;
      var report := NO_REPORT;
      for i := 0 to |f.listed|
        invariant State(registry, report) == EndFirst(old(registry), f, i)
      {
        var student := students[f.listed[i]];
        if student.status == ActiveStudent {
          var outcome := ProcessStudent(f, f.listed[i], student);
          report := report.(processed := report.processed + 1);
          match outcome
          case Promoted => report := report.(promoted := report.promoted + 1);
          case Repeated => report := report.(repeated := report.repeated + 1);
          case Unchanged => report := report.(same := report.same + 1);
          case Errored => report := report.(errors := report.errors + 1);
        }
      }
      return Success(report);
    }
  }
}
