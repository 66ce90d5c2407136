/** Any number of EndSemester calls over one semester row and one registry of students. A call reads
    the semester, lists the students, writes them one by one, and only then tries to archive; no
    transaction ties these steps together. Other callers may edit the row and the students, a write
    may fail, and a call may crash at any moment. */
module EndRaces {
  import opened Wrappers
  import opened Academic
  import SemesterLifecycle
  import VersionedRow
  import opened YearEnd

  type CallId = nat
  type Semester = SemesterLifecycle.Semester

  /** What a call works on: the listed students as they were, how long the log was then, and how many
      have had their turn. */
  datatype Work = Work(facts: Facts, snap: map<StudentId, Student>, listedAt: nat, done: nat)

  datatype End = NotFinalized | Landed | LostRaces | BrokenOff

  datatype Stage =
    | Opened
    | Working(work: Work)
    | Swapping(work: Work, expected: nat, tries: nat)
    | Rereading(work: Work, tries: nat)
    | Over(last: Option<Work>, end: End)

  datatype Call = Call(read: Semester, version: nat, stage: Stage)

  /** The past: a progression some call wrote, or what others edited. */
  datatype Entry =
    | Progression(c: CallId, id: StudentId, listedAt: nat)
    | Edit(id: StudentId, s: Student)
    | RowEdit(next: Semester)

  datatype World = World(row: Semester, version: nat, registry: Registry, calls: map<CallId, Call>, log: seq<Entry>)

  function Start(row: Semester, registry: Registry): World { World(row, 0, registry, map[], []) }

  /** down is a failing statement. A lookup that fails before the students is a Crash; one that fails
      for a student is in the facts. */
  datatype Action =
    | ReadSemester(c: CallId)
    | ListStudents(c: CallId, facts: Facts)
    | Turn(c: CallId)
    | Finish(c: CallId)
    | Swap(c: CallId, down: bool)
    | Reread(c: CallId, down: bool)
    | Crash(c: CallId)
    | EditStudent(id: StudentId, s: Student)
    | EditSemester(next: Semester)

  function WorkOf(stage: Stage): Option<Work> {
    match stage
    case Opened => None
    case Working(work) => Some(work)
    case Swapping(work, _, _) => Some(work)
    case Rereading(work, _) => Some(work)
    case Over(last, _) => last
  }

  ghost predicate Enabled(w: World, a: Action) {
    match a
    case ReadSemester(c) => c !in w.calls
    case ListStudents(c, f) => c in w.calls && w.calls[c].stage.Opened? && Listed(w.registry, f) && f.term == w.calls[c].read.term
    case Turn(c) => c in w.calls && w.calls[c].stage.Working? && w.calls[c].stage.work.done < |w.calls[c].stage.work.facts.listed|
    case Finish(c) => c in w.calls && w.calls[c].stage.Working? && w.calls[c].stage.work.done == |w.calls[c].stage.work.facts.listed|
    case Swap(c, _) => c in w.calls && w.calls[c].stage.Swapping?
    case Reread(c, _) => c in w.calls && w.calls[c].stage.Rereading?
    case Crash(c) => c in w.calls && !w.calls[c].stage.Over?
    case EditStudent(_, _) => true
    case EditSemester(_) => true
  }

  function To(w: World, c: CallId, stage: Stage): World
    requires c in w.calls
  {
    w.(calls := w.calls[c := w.calls[c].(stage := stage)])
  }

  /** The student's turn writes a progression. */
  predicate Moves(f: Facts, id: StudentId, s: Student) {
    && s.status == ActiveStudent && f.credits(id).Some? && RunsYearEnd(f.term)
    && (PassesYear(f, id, s) || f.fullYearRepeat) && f.progresses(id)
  }

  predicate MovesListed(work: Work, id: StudentId) {
    id in work.snap && Moves(work.facts, id, work.snap[id])
  }

  /** One student's turn; those who were not active when they were listed are passed over. */
  function Turned(w: World, c: CallId, work: Work): World
    requires c in w.calls && work.done < |work.facts.listed|
  {
    var id := work.facts.listed[work.done];
    var v := To(w, c, Working(work.(done := work.done + 1)));
    if id !in work.snap || work.snap[id].status != ActiveStudent then v
    else v.(registry := EndStudent(w.registry, work.facts, id, work.snap[id]).registry,
            log := if MovesListed(work, id) then w.log + [Progression(c, id, work.listedAt)] else w.log)
  }

  function Swapped(w: World, c: CallId, down: bool): World
    requires c in w.calls && w.calls[c].stage.Swapping?
  {
    var call := w.calls[c];
    if down then To(w, c, Over(Some(call.stage.work), BrokenOff))
    else if call.stage.expected == w.version then
      To(w, c, Over(Some(call.stage.work), Landed)).(row := call.read.(status := Archived), version := w.version + 1)
    else To(w, c, Rereading(call.stage.work, call.stage.tries))
  }

  /** Only the version is taken from the row that is read again; what its status is by now is not
      looked at. */
  function Refreshed(w: World, c: CallId, down: bool): World
    requires c in w.calls && w.calls[c].stage.Rereading?
  {
    var stage := w.calls[c].stage;
    if down then To(w, c, Over(Some(stage.work), BrokenOff))
    else if stage.tries + 1 < VersionedRow.MAX_UPDATE_RETRIES then To(w, c, Swapping(stage.work, w.version, stage.tries + 1))
    else To(w, c, Over(Some(stage.work), LostRaces))
  }

  function Step(w: World, a: Action): World
    requires Enabled(w, a)
  {
    match a
    case ReadSemester(c) =>
      w.(calls := w.calls[c := Call(w.row, w.version, if w.row.status == Finalized then Opened else Over(None, NotFinalized))])
    case ListStudents(c, f) => To(w, c, Working(Work(f, w.registry.students, |w.log|, 0)))
    case Turn(c) => Turned(w, c, w.calls[c].stage.work)
    case Finish(c) => To(w, c, Swapping(w.calls[c].stage.work, w.calls[c].version, 0))
    case Swap(c, down) => Swapped(w, c, down)
    case Reread(c, down) => Refreshed(w, c, down)
    case Crash(c) => To(w, c, Over(WorkOf(w.calls[c].stage), BrokenOff))
    case EditStudent(id, s) =>
      w.(registry := w.registry.(students := w.registry.students[id := s]), log := w.log + [Edit(id, s)])
    case EditSemester(next) => w.(row := next, version := w.version + 1, log := w.log + [RowEdit(next)])
  }

  ghost predicate IsRun(w: World, actions: seq<Action>)
    decreases |actions|
  {
    actions == [] || (Enabled(w, actions[0]) && IsRun(Step(w, actions[0]), actions[1..]))
  }

  ghost function After(w: World, actions: seq<Action>): World
    requires IsRun(w, actions)
    decreases |actions|
  {
    if actions == [] then w else After(Step(w, actions[0]), actions[1..])
  }

  // ---- The archive write, try by try ----------------------------------------------------------------

  /** The write lands if and only if the version is still the one the call knows; a failing statement
      ends the call and a lost race makes it read the version again. */
  lemma ArchiveLandsIff(w: World, c: CallId, down: bool)
    requires Enabled(w, Swap(c, down))
    ensures var v, call := Step(w, Swap(c, down)), w.calls[c];
      && v.registry == w.registry && v.log == w.log
      && if down then v.row == w.row && v.version == w.version && v.calls[c].stage == Over(Some(call.stage.work), BrokenOff)
         else if w.version != call.stage.expected then
           v.row == w.row && v.version == w.version && v.calls[c].stage == Rereading(call.stage.work, call.stage.tries)
         else
           && v.row == Semester.Semester(Archived, call.read.term, call.read.passThreshold) && v.version == w.version + 1
           && v.calls[c].stage == Over(Some(call.stage.work), Landed)
  {
  }

  /** Two more tries, each with the version as it is by then; the third lost race is the last. */
  lemma RereadsTwice(w: World, c: CallId, down: bool)
    requires Enabled(w, Reread(c, down))
    ensures var v, work, tries := Step(w, Reread(c, down)), w.calls[c].stage.work, w.calls[c].stage.tries;
      && v.row == w.row && v.version == w.version && v.registry == w.registry && v.log == w.log
      && v.calls[c].stage == if down then Over(Some(work), BrokenOff)
           else if tries >= 2 then Over(Some(work), LostRaces) else Swapping(work, w.version, tries + 1)
  {
  }

  /** An edit of the semester is a version of its own, so that it makes every archive write under way
      lose its race. */
  lemma EditOvertakes(w: World, next: Semester, c: CallId)
    requires c in w.calls && w.calls[c].stage.Swapping? && w.calls[c].stage.expected <= w.version
    ensures var v := Step(w, EditSemester(next));
      v.version == w.version + 1 && Enabled(v, Swap(c, false)) && Step(v, Swap(c, false)).row == next && Step(v, Swap(c, false)).calls[c].stage.Rereading?
  {
  }

  // ---- The reference: the standing read off the log ------------------------------------------------

  /** The standing a student has after the first k entries: an edit sets it, and a progression sets it
      to one more than it was when the call listed the student, whatever was written since then. */
  function Level(log: seq<Entry>, k: nat, id: StudentId, original: int): int
    requires k <= |log|
    decreases k
  {
    if k == 0 then original
    else
      var e := log[k - 1];
      if e.Progression? && e.id == id && e.listedAt < k then 1 + Level(log, e.listedAt, id, original)
      else if e.Edit? && e.id == id then Standing(e.s)
      else Level(log, k - 1, id, original)
  }

  lemma {:induction false} LevelOfPrefix(log: seq<Entry>, x: Entry, k: nat, id: StudentId, original: int)
    requires k <= |log|
    ensures Level(log + [x], k, id, original) == Level(log, k, id, original)
    decreases k
  {
    if k > 0 {
      LevelOfPrefix(log, x, k - 1, id, original);
      if log[k - 1].Progression? && log[k - 1].listedAt < k {
        LevelOfPrefix(log, x, log[k - 1].listedAt, id, original);
      }
    }
  }

  ghost predicate Levelled(first: Registry, students: map<StudentId, Student>, log: seq<Entry>, k: nat)
    requires k <= |log|
  {
    forall id :: id in first.students ==>
      id in students && Standing(students[id]) == Level(log, k, id, Standing(first.students[id]))
  }

  ghost predicate SnapSound(first: Registry, log: seq<Entry>, call: Call) {
    WorkOf(call.stage).Some? ==>
      var work := WorkOf(call.stage).value;
      work.listedAt <= |log| && Levelled(first, work.snap, log, work.listedAt)
  }

  /** Each progression goes back to a listing that came before it. */
  ghost predicate ListingsPast(log: seq<Entry>) {
    forall k: nat :: k < |log| && log[k].Progression? ==> log[k].listedAt <= k
  }

  ghost predicate LevelsSound(first: Registry, w: World) {
    && ListingsPast(w.log)
    && Levelled(first, w.registry.students, w.log, |w.log|)
    && forall c :: c in w.calls ==> SnapSound(first, w.log, w.calls[c])
  }

  lemma LevelledStays(first: Registry, students: map<StudentId, Student>, log: seq<Entry>, x: Entry, k: nat)
    requires k <= |log| && Levelled(first, students, log, k)
    ensures Levelled(first, students, log + [x], k)
  {
    forall id | id in first.students
      ensures Standing(students[id]) == Level(log + [x], k, id, Standing(first.students[id]))
    {
      LevelOfPrefix(log, x, k, id, Standing(first.students[id]));
    }
  }

  lemma SnapsStay(first: Registry, w: World, x: Entry)
    requires forall c :: c in w.calls ==> SnapSound(first, w.log, w.calls[c])
    ensures forall c :: c in w.calls ==> SnapSound(first, w.log + [x], w.calls[c])
  {
    forall c | c in w.calls ensures SnapSound(first, w.log + [x], w.calls[c]) {
      assert SnapSound(first, w.log, w.calls[c]);
      if WorkOf(w.calls[c].stage).Some? {
        var work := WorkOf(w.calls[c].stage).value;
        LevelledStays(first, work.snap, w.log, x, work.listedAt);
      }
    }
  }

  /** A turn sets the student to one more than the listed standing, or changes nobody's. */
  lemma TurnSets(r: Registry, f: Facts, id: StudentId, s: Student, other: StudentId)
    requires s.status == ActiveStudent && id in r.students && other in r.students
    ensures var after := EndStudent(r, f, id, s).registry.students;
      && after.Keys == r.students.Keys
      && Standing(after[other]) == if other == id && Moves(f, id, s) then Standing(s) + 1 else Standing(r.students[other])
  {
  }

  lemma TurnKeepsLevels(first: Registry, w: World, c: CallId)
    requires LevelsSound(first, w) && Enabled(w, Turn(c))
    ensures LevelsSound(first, Step(w, Turn(c)))
  {
    var v, work := Step(w, Turn(c)), w.calls[c].stage.work;
    var id := work.facts.listed[work.done];
    assert SnapSound(first, w.log, w.calls[c]);
    var x := Progression(c, id, work.listedAt);
    SnapsStay(first, w, x);
    if id in work.snap && work.snap[id].status == ActiveStudent {
      forall other | other in first.students
        ensures other in v.registry.students
        ensures Standing(v.registry.students[other]) == Level(v.log, |v.log|, other, Standing(first.students[other]))
      {
        if id in w.registry.students {
          TurnSets(w.registry, work.facts, id, work.snap[id], other);
        }
        LevelOfPrefix(w.log, x, |w.log|, other, Standing(first.students[other]));
        LevelOfPrefix(w.log, x, work.listedAt, other, Standing(first.students[other]));
      }
    }
  }

  lemma EditKeepsLevels(first: Registry, w: World, a: Action)
    requires LevelsSound(first, w) && Enabled(w, a) && (a.EditStudent? || a.EditSemester?)
    ensures LevelsSound(first, Step(w, a))
  {
    var v := Step(w, a);
    var x := v.log[|w.log|];
    SnapsStay(first, w, x);
    forall id | id in first.students
      ensures id in v.registry.students
      ensures Standing(v.registry.students[id]) == Level(v.log, |v.log|, id, Standing(first.students[id]))
    {
      LevelOfPrefix(w.log, x, |w.log|, id, Standing(first.students[id]));
    }
  }

  lemma StepKeepsLevels(first: Registry, w: World, a: Action)
    requires LevelsSound(first, w) && Enabled(w, a)
    ensures LevelsSound(first, Step(w, a))
  {
    if a.Turn? {
      TurnKeepsLevels(first, w, a.c);
    } else if a.EditStudent? || a.EditSemester? {
      EditKeepsLevels(first, w, a);
    } else {
      var v := Step(w, a);
      assert v.log == w.log && v.registry == w.registry;
      forall c | c in v.calls ensures SnapSound(first, v.log, v.calls[c]) {
        assert c in w.calls ==> SnapSound(first, w.log, w.calls[c]);
      }
    }
  }

  // ---- Who was moved by whom ------------------------------------------------------------------------

  predicate IsMove(e: Entry, c: CallId, id: StudentId) { e.Progression? && e.c == c && e.id == id }

  /** How many of the first n entries are progressions of the student by the call. */
  function MovesBy(log: seq<Entry>, n: nat, c: CallId, id: StudentId): nat
    requires n <= |log|
  {
    if n == 0 then 0 else MovesBy(log, n - 1, c, id) + if IsMove(log[n - 1], c, id) then 1 else 0
  }

  lemma {:induction false} MovesOfPrefix(log: seq<Entry>, x: Entry, n: nat, c: CallId, id: StudentId)
    requires n <= |log|
    ensures MovesBy(log + [x], n, c, id) == MovesBy(log, n, c, id)
  {
    if n > 0 {
      MovesOfPrefix(log, x, n - 1, c, id);
    }
  }

  lemma MovesGrow(log: seq<Entry>, x: Entry, c: CallId, id: StudentId)
    ensures MovesBy(log + [x], |log| + 1, c, id) == MovesBy(log, |log|, c, id) + if IsMove(x, c, id) then 1 else 0
  {
    MovesOfPrefix(log, x, |log|, c, id);
  }

  ghost predicate ListedOnce(ids: seq<StudentId>) { forall i, j :: 0 <= i < j < |ids| ==> ids[i] != ids[j] }

  ghost predicate WorkSound(work: Work) { work.done <= |work.facts.listed| && ListedOnce(work.facts.listed) }

  predicate AllTurns(work: Work) { work.done == |work.facts.listed| }

  /** A call works on students only after it has read the semester as finalized, and swaps only after
      all of them had their turn. */
  ghost predicate CallSound(call: Call) {
    && (WorkOf(call.stage).Some? ==> call.read.status == Finalized && WorkSound(WorkOf(call.stage).value))
    && match call.stage
       case Opened => call.read.status == Finalized
       case Working(_) => true
       case Swapping(work, _, _) => AllTurns(work)
       case Rereading(work, _) => AllTurns(work)
       case Over(last, end) =>
         && (end.NotFinalized? <==> call.read.status != Finalized)
         && (end.Landed? || end.LostRaces? ==> last.Some? && AllTurns(last.value))
  }

  predicate TurnTaken(call: Call, id: StudentId) {
    && WorkOf(call.stage).Some?
    && var work := WorkOf(call.stage).value;
      work.done <= |work.facts.listed| && id in work.facts.listed[..work.done] && MovesListed(work, id)
  }

  predicate Taken(w: World, c: CallId, id: StudentId) { c in w.calls && TurnTaken(w.calls[c], id) }

  ghost predicate MovesSound(w: World) {
    && (forall c :: c in w.calls ==> CallSound(w.calls[c]))
    && forall c, id :: MovesBy(w.log, |w.log|, c, id) == if Taken(w, c, id) then 1 else 0
  }

  lemma TurnTakesOne(w: World, c: CallId, id: StudentId)
    requires Enabled(w, Turn(c)) && CallSound(w.calls[c])
    ensures var work := w.calls[c].stage.work;
      Taken(Step(w, Turn(c)), c, id) <==>
      Taken(w, c, id) || (id == work.facts.listed[work.done] && MovesListed(work, id))
    ensures var work := w.calls[c].stage.work; Taken(w, c, id) ==> id != work.facts.listed[work.done]
  {
    var work := w.calls[c].stage.work;
    assert work.facts.listed[..work.done + 1] == work.facts.listed[..work.done] + [work.facts.listed[work.done]];
  }

  lemma TurnKeepsMoves(w: World, c: CallId)
    requires MovesSound(w) && Enabled(w, Turn(c))
    ensures MovesSound(Step(w, Turn(c)))
  {
    var v, work := Step(w, Turn(c)), w.calls[c].stage.work;
    forall d, id ensures MovesBy(v.log, |v.log|, d, id) == if Taken(v, d, id) then 1 else 0 {
      MovesGrow(w.log, Progression(c, work.facts.listed[work.done], work.listedAt), d, id);
      TurnTakesOne(w, c, id);
      assert MovesBy(w.log, |w.log|, d, id) == if Taken(w, d, id) then 1 else 0;
      assert d != c ==> (Taken(v, d, id) <==> Taken(w, d, id));
    }
  }

  lemma EditKeepsMoves(w: World, a: Action)
    requires MovesSound(w) && Enabled(w, a) && (a.EditStudent? || a.EditSemester?)
    ensures MovesSound(Step(w, a))
  {
    var v := Step(w, a);
    forall d, id ensures MovesBy(v.log, |v.log|, d, id) == if Taken(v, d, id) then 1 else 0 {
      MovesGrow(w.log, v.log[|w.log|], d, id);
      assert MovesBy(w.log, |w.log|, d, id) == if Taken(w, d, id) then 1 else 0;
    }
  }

  // A call that goes on without a turn.
  lemma StageKeepsMoves(w: World, v: World, c: CallId, call: Call)
    requires MovesSound(w) && v.log == w.log && v.calls == w.calls[c := call] && CallSound(call)
    requires WorkOf(call.stage) == if c in w.calls then WorkOf(w.calls[c].stage) else None
    ensures MovesSound(v)
  {
    forall d, id ensures MovesBy(v.log, |v.log|, d, id) == if Taken(v, d, id) then 1 else 0 {
      assert MovesBy(w.log, |w.log|, d, id) == if Taken(w, d, id) then 1 else 0;
    }
  }

  // Nobody has had a turn of a work that is just listed.
  lemma ListKeepsMoves(w: World, c: CallId, f: Facts)
    requires MovesSound(w) && Enabled(w, ListStudents(c, f))
    ensures MovesSound(Step(w, ListStudents(c, f)))
  {
    var v := Step(w, ListStudents(c, f));
    assert CallSound(w.calls[c]) && CallSound(v.calls[c]);
    forall d, id ensures MovesBy(v.log, |v.log|, d, id) == if Taken(v, d, id) then 1 else 0 {
      assert MovesBy(w.log, |w.log|, d, id) == if Taken(w, d, id) then 1 else 0;
      assert !Taken(v, c, id) && !Taken(w, c, id);
    }
  }

  lemma OtherKeepsMoves(w: World, a: Action)
    requires MovesSound(w) && Enabled(w, a)
    requires a.ReadSemester? || a.Finish? || a.Swap? || a.Reread? || a.Crash?
    ensures MovesSound(Step(w, a))
  {
    assert a.c in w.calls ==> CallSound(w.calls[a.c]);
    StageKeepsMoves(w, Step(w, a), a.c, Step(w, a).calls[a.c]);
  }

  lemma StepKeepsMoves(w: World, a: Action)
    requires MovesSound(w) && Enabled(w, a)
    ensures MovesSound(Step(w, a))
  {
    if a.Turn? {
      TurnKeepsMoves(w, a.c);
    } else if a.EditStudent? || a.EditSemester? {
      EditKeepsMoves(w, a);
    } else if a.ListStudents? {
      ListKeepsMoves(w, a.c, a.facts);
    } else {
      OtherKeepsMoves(w, a);
    }
  }

  // ---- What the semester's row tells a call that reads it -------------------------------------------

  ghost predicate HasLanded(w: World) {
    exists c :: c in w.calls && w.calls[c].stage.Over? && w.calls[c].stage.end.Landed?
  }

  ghost predicate NoRowEdits(log: seq<Entry>) { forall k :: 0 <= k < |log| ==> !log[k].RowEdit? }

  ghost predicate RowSound(row: Semester, w: World) {
    NoRowEdits(w.log) ==> if HasLanded(w) then w.row.status == Archived else w.row == row
  }

  lemma LandedStays(w: World, a: Action)
    requires Enabled(w, a) && HasLanded(w)
    ensures HasLanded(Step(w, a))
  {
    var c :| c in w.calls && w.calls[c].stage.Over? && w.calls[c].stage.end.Landed?;
    assert c in Step(w, a).calls && Step(w, a).calls[c] == w.calls[c];
  }

  lemma LandsNow(w: World, a: Action)
    requires Enabled(w, a) && !HasLanded(w)
    ensures HasLanded(Step(w, a)) <==> a.Swap? && !a.down && w.calls[a.c].stage.expected == w.version
  {
    var v := Step(w, a);
    if a.Swap? && !a.down && w.calls[a.c].stage.expected == w.version {
      assert a.c in v.calls && v.calls[a.c].stage.end.Landed?;
    }
  }

  lemma StepKeepsRow(row: Semester, w: World, a: Action)
    requires Enabled(w, a) && RowSound(row, w)
    ensures RowSound(row, Step(w, a))
  {
    var v := Step(w, a);
    assert forall k :: 0 <= k < |w.log| ==> w.log[k] == v.log[k];
    if a.EditSemester? {
      assert v.log[|w.log|].RowEdit?;
    } else if NoRowEdits(v.log) {
      if HasLanded(w) {
        LandedStays(w, a);
      } else {
        LandsNow(w, a);
      }
    }
  }

  // ---- Every run --------------------------------------------------------------------------------------

  /** The worlds that any runs reach from a semester and a registry. */
  ghost predicate Reached(row: Semester, first: Registry, w: World) {
    exists actions :: IsRun(Start(row, first), actions) && After(Start(row, first), actions) == w
  }

  lemma {:induction false} RunIsSound(row: Semester, first: Registry, w: World, actions: seq<Action>)
    requires LevelsSound(first, w) && MovesSound(w) && RowSound(row, w) && IsRun(w, actions)
    ensures LevelsSound(first, After(w, actions)) && MovesSound(After(w, actions)) && RowSound(row, After(w, actions))
    decreases |actions|
  {
    if actions != [] {
      StepKeepsLevels(first, w, actions[0]);
      StepKeepsMoves(w, actions[0]);
      StepKeepsRow(row, w, actions[0]);
      RunIsSound(row, first, Step(w, actions[0]), actions[1..]);
    }
  }

  lemma ReachedIsSound(row: Semester, first: Registry, w: World)
    requires Reached(row, first, w)
    ensures LevelsSound(first, w) && MovesSound(w) && RowSound(row, w)
  {
    var actions :| IsRun(Start(row, first), actions) && After(Start(row, first), actions) == w;
    RunIsSound(row, first, Start(row, first), actions);
  }

  /** Whatever overlaps, fails or crashes, a student's standing is what the log says: one more than
      at the listing of the call that wrote last. */
  lemma StandingIsLevel(row: Semester, first: Registry, w: World, id: StudentId)
    requires Reached(row, first, w) && id in first.students
    ensures id in w.registry.students
    ensures Standing(w.registry.students[id]) == Level(w.log, |w.log|, id, Standing(first.students[id]))
  {
    ReachedIsSound(row, first, w);
  }

  /** The student is on the call's list and has had the turn, whatever became of the call then. */
  predicate HadTurn(call: Call, id: StudentId) {
    && WorkOf(call.stage).Some?
    && var work := WorkOf(call.stage).value; work.done <= |work.facts.listed| && id in work.facts.listed[..work.done]
  }

  /** The call read the semester as finalized, and it listed the student as one whom its turn moves. */
  predicate MovedBy(call: Call, id: StudentId) {
    call.read.status == Finalized && HadTurn(call, id) && MovesListed(WorkOf(call.stage).value, id)
  }

  /** Each call has moved a student once or never, and once if and only if its own read of the semester
      found it finalized and its own listing has the student as one to be moved. What other calls
      have done, or do to the semester later, plays no part. */
  lemma MovedIff(row: Semester, first: Registry, w: World, c: CallId, id: StudentId)
    requires Reached(row, first, w) && c in w.calls
    ensures MovesBy(w.log, |w.log|, c, id) == if MovedBy(w.calls[c], id) then 1 else 0
  {
    ReachedIsSound(row, first, w);
    assert CallSound(w.calls[c]);
    assert MovesBy(w.log, |w.log|, c, id) == if Taken(w, c, id) then 1 else 0;
  }

  predicate MovesActive(f: Facts, id: StudentId) { RunsYearEnd(f.term) && f.fullYearRepeat && NoFault(f, id) }

  /** Where nothing fails for the student, a year-end with full-year repeat moves exactly the active,
      and a call that has come to its archive write has had everybody's turn. */
  lemma ActiveAreMoved(row: Semester, first: Registry, w: World, c: CallId, id: StudentId)
    requires Reached(row, first, w) && c in w.calls && (w.calls[c].stage.Swapping? || w.calls[c].stage.Rereading?)
    requires MovesActive(w.calls[c].stage.work.facts, id)
    ensures var work := w.calls[c].stage.work;
      MovedBy(w.calls[c], id) <==> id in work.facts.listed && id in work.snap && work.snap[id].status == ActiveStudent
  {
    ReachedIsSound(row, first, w);
    var work := w.calls[c].stage.work;
    assert CallSound(w.calls[c]);
    assert work.facts.listed[..work.done] == work.facts.listed;
  }

  predicate About(e: Entry, id: StudentId) { !e.RowEdit? && e.id == id }

  lemma {:induction false} LevelSkips(log: seq<Entry>, j: nat, k: nat, id: StudentId, original: int)
    requires j <= k <= |log| && forall i :: j <= i < k ==> !About(log[i], id)
    ensures Level(log, k, id, original) == Level(log, j, id, original)
    decreases k
  {
    if j < k {
      LevelSkips(log, j, k - 1, id, original);
    }
  }

  /** As long as nobody edits the semester, a call that reads it finds it finalized if and only if no
      archive write has landed yet: writes that failed, lost their races or were never reached leave
      it open for another call. */
  lemma FoundFinalizedIff(row: Semester, first: Registry, w: World)
    requires Reached(row, first, w) && row.status == Finalized && NoRowEdits(w.log)
    ensures w.row.status == Finalized <==> !HasLanded(w)
  {
    ReachedIsSound(row, first, w);
  }

  /** When the student was moved twice and touched by nobody else: the standing has risen by two if the
      listing of the later write saw the earlier one, and by one if it did not, for then both
      started from the same. */
  lemma TwoMovesRaise(row: Semester, first: Registry, w: World, id: StudentId, i: nat, j: nat)
    requires Reached(row, first, w) && id in first.students
    requires i < j < |w.log| && w.log[i].Progression? && w.log[j].Progression? && w.log[i].id == w.log[j].id == id
    requires forall k :: 0 <= k < |w.log| && k != i && k != j ==> !About(w.log[k], id)
    ensures id in w.registry.students
    ensures Standing(w.registry.students[id]) ==
      Standing(first.students[id]) + if i < w.log[j].listedAt then 2 else 1
  {
    var original := Standing(first.students[id]);
    ReachedIsSound(row, first, w);
    LevelSkips(w.log, j + 1, |w.log|, id, original);
    LevelSkips(w.log, 0, w.log[i].listedAt, id, original);
    if i < w.log[j].listedAt {
      LevelSkips(w.log, i + 1, w.log[j].listedAt, id, original);
    } else {
      LevelSkips(w.log, 0, w.log[j].listedAt, id, original);
    }
  }

  lemma OneMoveRaises(row: Semester, first: Registry, w: World, id: StudentId, i: nat)
    requires Reached(row, first, w) && id in first.students
    requires i < |w.log| && w.log[i].Progression? && w.log[i].id == id
    requires forall k :: 0 <= k < |w.log| && k != i ==> !About(w.log[k], id)
    ensures id in w.registry.students && Standing(w.registry.students[id]) == Standing(first.students[id]) + 1
  {
    var original := Standing(first.students[id]);
    ReachedIsSound(row, first, w);
    LevelSkips(w.log, i + 1, |w.log|, id, original);
    LevelSkips(w.log, 0, w.log[i].listedAt, id, original);
  }

  lemma {:induction false} NoMove(log: seq<Entry>, n: nat, c: CallId, id: StudentId, k: nat)
    requires k < n <= |log| && MovesBy(log, n, c, id) == 0
    ensures !IsMove(log[k], c, id)
  {
    if k < n - 1 {
      NoMove(log, n - 1, c, id, k);
    }
  }

  // Where a call's one move of the student stands in the log.
  lemma {:induction false} TheMove(log: seq<Entry>, n: nat, c: CallId, id: StudentId) returns (i: nat)
    requires n <= |log| && MovesBy(log, n, c, id) == 1
    ensures i < n && IsMove(log[i], c, id)
    ensures forall k :: 0 <= k < n && k != i ==> !IsMove(log[k], c, id)
  {
    if IsMove(log[n - 1], c, id) {
      i := n - 1;
      forall k | 0 <= k < n - 1 ensures !IsMove(log[k], c, id) {
        NoMove(log, n - 1, c, id, k);
      }
    } else {
      i := TheMove(log, n - 1, c, id);
    }
  }

  /** The second call listed the students after the first had written this one. */
  ghost predicate ListsAfter(w: World, a: CallId, b: CallId, id: StudentId) {
    exists i: nat, j: nat :: i < |w.log| && j < |w.log| && IsMove(w.log[i], a, id) && IsMove(w.log[j], b, id) && i < w.log[j].listedAt
  }

  ghost predicate OnlyMovedBy(w: World, a: CallId, b: CallId, id: StudentId) {
    forall k :: 0 <= k < |w.log| && About(w.log[k], id) ==> IsMove(w.log[k], a, id) || IsMove(w.log[k], b, id)
  }

  lemma NoneRaises(row: Semester, first: Registry, w: World, a: CallId, b: CallId, id: StudentId)
    requires Reached(row, first, w) && id in first.students && OnlyMovedBy(w, a, b, id)
    requires MovesBy(w.log, |w.log|, a, id) == 0 == MovesBy(w.log, |w.log|, b, id)
    ensures id in w.registry.students && Standing(w.registry.students[id]) == Standing(first.students[id])
  {
    forall k | 0 <= k < |w.log| ensures !About(w.log[k], id) {
      NoMove(w.log, |w.log|, a, id, k);
      NoMove(w.log, |w.log|, b, id, k);
    }
    StandingIsLevel(row, first, w, id);
    LevelSkips(w.log, 0, |w.log|, id, Standing(first.students[id]));
  }

  lemma OneRaises(row: Semester, first: Registry, w: World, a: CallId, b: CallId, id: StudentId)
    requires Reached(row, first, w) && id in first.students && OnlyMovedBy(w, a, b, id)
    requires MovesBy(w.log, |w.log|, a, id) == 1 && MovesBy(w.log, |w.log|, b, id) == 0
    ensures id in w.registry.students && Standing(w.registry.students[id]) == Standing(first.students[id]) + 1
  {
    var i := TheMove(w.log, |w.log|, a, id);
    forall k | 0 <= k < |w.log| && k != i ensures !About(w.log[k], id) {
      NoMove(w.log, |w.log|, b, id, k);
    }
    OneMoveRaises(row, first, w, id, i);
  }

  // Of two moves the later listing can be the later write's only.
  lemma ListsAfterIs(w: World, a: CallId, b: CallId, id: StudentId, i: nat, j: nat)
    requires ListingsPast(w.log) && i < j < |w.log| && IsMove(w.log[i], a, id) && IsMove(w.log[j], b, id)
    requires forall k :: 0 <= k < |w.log| && k != i ==> !IsMove(w.log[k], a, id)
    requires forall k :: 0 <= k < |w.log| && k != j ==> !IsMove(w.log[k], b, id)
    ensures ListsAfter(w, a, b, id) <==> i < w.log[j].listedAt
    ensures !ListsAfter(w, b, a, id)
  {
  }

  lemma BothRaise(row: Semester, first: Registry, w: World, a: CallId, b: CallId, id: StudentId)
    requires Reached(row, first, w) && id in first.students && OnlyMovedBy(w, a, b, id) && a != b
    requires MovesBy(w.log, |w.log|, a, id) == 1 == MovesBy(w.log, |w.log|, b, id)
    ensures id in w.registry.students
    ensures Standing(w.registry.students[id]) ==
      Standing(first.students[id]) + if ListsAfter(w, a, b, id) || ListsAfter(w, b, a, id) then 2 else 1
  {
    var i := TheMove(w.log, |w.log|, a, id);
    var j := TheMove(w.log, |w.log|, b, id);
    ReachedIsSound(row, first, w);
    if i < j {
      ListsAfterIs(w, a, b, id, i, j);
      TwoMovesRaise(row, first, w, id, i, j);
    } else {
      ListsAfterIs(w, b, a, id, j, i);
      TwoMovesRaise(row, first, w, id, j, i);
    }
  }

  /** Two ends of a semester by anybody, however they overlap, fail or crash: a student nobody else
      touches has risen by two if and only if both calls read the semester as finalized, both listed
      the student as one to be moved, and one of them listed after the other had written; by one if
      only one of them did, or both from the same listing; else not at all. */
  lemma EndedTwiceIff(row: Semester, first: Registry, w: World, a: CallId, b: CallId, id: StudentId)
    requires Reached(row, first, w) && id in first.students && OnlyMovedBy(w, a, b, id)
    requires a != b && a in w.calls && b in w.calls
    ensures id in w.registry.students
    ensures var both := MovedBy(w.calls[a], id) && MovedBy(w.calls[b], id);
      Standing(w.registry.students[id]) - Standing(first.students[id]) ==
      if both && (ListsAfter(w, a, b, id) || ListsAfter(w, b, a, id)) then 2
      else if MovedBy(w.calls[a], id) || MovedBy(w.calls[b], id) then 1
      else 0
  {
    MovedIff(row, first, w, a, id);
    MovedIff(row, first, w, b, id);
    if MovedBy(w.calls[a], id) && MovedBy(w.calls[b], id) {
      BothRaise(row, first, w, a, b, id);
    } else if MovedBy(w.calls[a], id) {
      OneRaises(row, first, w, a, b, id);
    } else if MovedBy(w.calls[b], id) {
      OneRaises(row, first, w, b, a, id);
    } else {
      NoneRaises(row, first, w, a, b, id);
    }
  }

  // ---- A call on its own ---------------------------------------------------------------------------------

  ghost predicate Leads(w: World, run: seq<Action>, last: World) {
    IsRun(w, run) && After(w, run) == last
  }

  lemma {:induction false} Joined(w: World, first: seq<Action>, v: World, second: seq<Action>, last: World)
    requires Leads(w, first, v) && Leads(v, second, last)
    ensures Leads(w, first + second, last)
    decreases |first|
  {
    if first == [] {
      assert first + second == second;
    } else {
      Joined(Step(w, first[0]), first[1..], v, second, last);
      assert (first + second)[1..] == first[1..] + second;
    }
  }

  lemma LeadsFrom(w: World, run: seq<Action>, k: nat, last: World)
    requires k < |run| && Enabled(w, run[k]) && Leads(Step(w, run[k]), run[k + 1..], last)
    ensures Leads(w, run[k..], last)
  {
    assert run[k..][1..] == run[k + 1..];
  }

  function Turns(c: CallId, n: nat): seq<Action> { if n == 0 then [] else Turns(c, n - 1) + [Turn(c)] }

  /** The turns of a call that nobody disturbs are the loop over the students: after n of them the
      registry is what the loop has after n. */
  lemma {:induction false} TurnsAreTheLoop(w: World, c: CallId, n: nat) returns (v: World)
    requires c in w.calls && w.calls[c].stage.Working?
    requires var work := w.calls[c].stage.work;
      work.done == 0 && n <= |work.facts.listed| && Listed(w.registry, work.facts) && work.snap == w.registry.students
    ensures var work := w.calls[c].stage.work;
      && Leads(w, Turns(c, n), v)
      && v.registry == EndFirst(w.registry, work.facts, n).registry
      && v.calls == w.calls[c := w.calls[c].(stage := Working(work.(done := n)))]
      && v.row == w.row && v.version == w.version
  {
    if n == 0 {
      v := w;
      assert w.calls[c].(stage := Working(w.calls[c].stage.work.(done := 0))) == w.calls[c];
    } else {
      var u := TurnsAreTheLoop(w, c, n - 1);
      v := Step(u, Turn(c));
      Joined(w, Turns(c, n - 1), u, [Turn(c)], v);
    }
  }
}
