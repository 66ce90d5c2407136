/** Two runs of the semester end that move a student two years in one year-end. In the first the
    archive write fails and the semester is ended again; in the second nothing fails and two calls
    overlap. */
module EndRuns {
  import opened Wrappers
  import opened Academic
  import SemesterLifecycle
  import opened YearEnd
  import opened EndRaces

  // One student, who passes the year.
  const FACTS: Facts := Facts(Annual, true, [7], _ => Some(10), _ => None, _ => true, _ => true, _ => true)

  const SEMESTER := SemesterLifecycle.Semester(Finalized, Annual, 50)

  function AtYear(year: int): Registry { Registry(map[7 := Student(0, 0, year, ActiveStudent)], []) }

  function ListedAt(year: int, listedAt: nat, done: nat): Work { Work(FACTS, AtYear(year).students, listedAt, done) }

  function Doing(stage: Stage): Call { Call(SEMESTER, 0, stage) }

  lemma ListsSeven(year: int)
    ensures Listed(AtYear(year), FACTS)
  {
  }

  lemma SevenMoves(r: Registry, year: int)
    requires 7 in r.students && r.students[7] == Student(0, 0, year, ActiveStudent)
    ensures Moves(FACTS, 7, r.students[7])
    ensures EndStudent(r, FACTS, 7, r.students[7]).registry.students[7] == Student(0, 0, year + 1, ActiveStudent)
  {
  }

  /** The archive write fails after the student was moved; the semester is ended again. */
  const FAILED_ARCHIVE: seq<Action> := [
    ReadSemester(1), ListStudents(1, FACTS), Turn(1), Finish(1), Swap(1, true),
    ReadSemester(2), ListStudents(2, FACTS), Turn(2), Finish(2), Swap(2, false)
  ]

  /** Two calls overlap and no write fails: the second lists after the first has moved, the first
      archives, the second loses that race, reads the version again and archives too. */
  const OVERLAP: seq<Action> := [
    ReadSemester(1), ListStudents(1, FACTS), Turn(1), ReadSemester(2), ListStudents(2, FACTS), Turn(2),
    Finish(1), Swap(1, false), Finish(2), Swap(2, false), Reread(2, false), Swap(2, false)
  ]

  const OPEN: World := Start(SEMESTER, AtYear(1))

  function WithCalls(year: int, calls: map<CallId, Call>, log: seq<Entry>): World { World(SEMESTER, 0, AtYear(year), calls, log) }

  const MOVED_ONCE: World := WithCalls(2, map[1 := Doing(Working(ListedAt(1, 0, 1)))], [Progression(1, 7, 0)])

  lemma FirstMoves(run: seq<Action>, last: World)
    requires |run| >= 3 && run[0] == ReadSemester(1) && run[1] == ListStudents(1, FACTS) && run[2] == Turn(1)
    requires Leads(MOVED_ONCE, run[3..], last)
    ensures Leads(OPEN, run, last)
  {
    var w1 := Step(OPEN, run[0]);
    ListsSeven(1);
    var w2 := Step(w1, run[1]);
    SevenMoves(w2.registry, 1);
    assert Step(w2, run[2]) == MOVED_ONCE;
    LeadsFrom(w2, run, 2, last);
    LeadsFrom(w1, run, 1, last);
    LeadsFrom(OPEN, run, 0, last);
    assert run[0..] == run;
  }

  function SecondMoved(w: World): World {
    World(SEMESTER, 0, AtYear(3), w.calls[2 := Doing(Working(ListedAt(2, 1, 1)))], w.log + [Progression(2, 7, 1)])
  }

  predicate BeforeSecond(w: World) {
    w.row == SEMESTER && w.version == 0 && w.registry == AtYear(2) && 2 !in w.calls && |w.log| == 1
  }

  function SecondListed(w: World): World { w.(calls := w.calls[2 := Doing(Working(ListedAt(2, 1, 0)))]) }

  lemma SecondTurns(w: World)
    requires BeforeSecond(w)
    ensures Enabled(SecondListed(w), Turn(2)) && Step(SecondListed(w), Turn(2)) == SecondMoved(w)
  {
    SevenMoves(w.registry, 2);
    assert Step(SecondListed(w), Turn(2)).registry == AtYear(3);
  }

  lemma SecondLists(w: World)
    requires BeforeSecond(w)
    ensures Enabled(w, ReadSemester(2)) && Enabled(Step(w, ReadSemester(2)), ListStudents(2, FACTS))
    ensures Step(Step(w, ReadSemester(2)), ListStudents(2, FACTS)) == SecondListed(w)
  {
    ListsSeven(2);
  }

  // The second call, whatever stage the first is in.
  lemma SecondMoves(w: World, run: seq<Action>, k: nat, last: World)
    requires k + 3 <= |run| && run[k] == ReadSemester(2) && run[k + 1] == ListStudents(2, FACTS) && run[k + 2] == Turn(2)
    requires BeforeSecond(w) && Leads(SecondMoved(w), run[k + 3..], last)
    ensures Leads(w, run[k..], last)
  {
    SecondLists(w);
    SecondTurns(w);
    LeadsFrom(SecondListed(w), run, k + 2, last);
    LeadsFrom(Step(w, run[k]), run, k + 1, last);
    LeadsFrom(w, run, k, last);
  }

  lemma FailedArchiveEnds() returns (last: World)
    ensures Leads(MOVED_ONCE, FAILED_ARCHIVE[3..], last)
    ensures last.registry == AtYear(3) && last.row.status == Archived
  {
    var run := FAILED_ARCHIVE;
    var w1 := Step(MOVED_ONCE, run[3]);
    var w2 := Step(w1, run[4]);
    var v := SecondMoved(w2);
    var v1 := Step(v, run[8]);
    last := Step(v1, run[9]);
    LeadsFrom(v1, run, 9, last);
    LeadsFrom(v, run, 8, last);
    SecondMoves(w2, run, 5, last);
    LeadsFrom(w1, run, 4, last);
    LeadsFrom(MOVED_ONCE, run, 3, last);
  }

  /** One year-end, and the student is two years on. */
  lemma FailedArchiveMovesTwice() returns (last: World)
    ensures Leads(Start(SEMESTER, AtYear(1)), FAILED_ARCHIVE, last)
    ensures last.registry == AtYear(3) && last.row.status == Archived
  {
    last := FailedArchiveEnds();
    FirstMoves(FAILED_ARCHIVE, last);
  }

  // The first call's archive write has landed.
  function FirstArchived(v: World): World {
    v.(row := SEMESTER.(status := Archived), version := 1, calls := v.calls[1 := Doing(Over(Some(ListedAt(1, 0, 1)), Landed))])
  }

  lemma SecondArchives(v: World) returns (last: World)
    requires v == FirstArchived(SecondMoved(MOVED_ONCE))
    ensures Leads(v, OVERLAP[8..], last)
    ensures last.registry == AtYear(3) && last.row.status == Archived && last.version == 2
  {
    var run := OVERLAP;
    var v1 := Step(v, run[8]);
    var v2 := Step(v1, run[9]);
    var v3 := Step(v2, run[10]);
    last := Step(v3, run[11]);
    LeadsFrom(v3, run, 11, last);
    LeadsFrom(v2, run, 10, last);
    LeadsFrom(v1, run, 9, last);
    LeadsFrom(v, run, 8, last);
  }

  lemma FirstArchives(v: World, last: World)
    requires v == SecondMoved(MOVED_ONCE) && Leads(FirstArchived(v), OVERLAP[8..], last)
    ensures Leads(v, OVERLAP[6..], last)
  {
    var v1 := Step(v, OVERLAP[6]);
    assert Step(v1, OVERLAP[7]) == FirstArchived(v);
    LeadsFrom(v1, OVERLAP, 7, last);
    LeadsFrom(v, OVERLAP, 6, last);
  }

  /** No write fails, the first call loses no race, and both archive. */
  lemma OverlapMovesTwice() returns (last: World)
    ensures Leads(Start(SEMESTER, AtYear(1)), OVERLAP, last)
    ensures last.registry == AtYear(3) && last.row.status == Archived && last.version == 2
  {
    last := SecondArchives(FirstArchived(SecondMoved(MOVED_ONCE)));
    FirstArchives(SecondMoved(MOVED_ONCE), last);
    SecondMoves(MOVED_ONCE, OVERLAP, 3, last);
    FirstMoves(OVERLAP, last);
  }
}
