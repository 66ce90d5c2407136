/** EndSemester as one call runs it: the guards, the students one by one, and at the end the archive
    loop, which may lose its race three times after the students have moved. */
module SemesterEnd {
  import opened Wrappers
  import opened Academic
  import VersionedRow
  import opened PatchLoop
  import opened SemesterLifecycle
  import opened YearEnd

  datatype EndError = NotEnded(error: YearEnd.Error) | ArchiveConflict | ArchiveBroken

  /** One try of the archive write: the rows other callers write between the version read and the
      swap, and whether the swap, or the re-read after a lost race, fails. */
  datatype Attempt = Attempt(rivals: seq<Semester>, swapDown: bool, rereadDown: bool)

  datatype ArchiveOutcome = Landed | LostRaces | StoreFailed

  /** How the tries come out, and how many are made. */
  function OutcomeOf(attempts: seq<Attempt>): ArchiveOutcome {
    if attempts == [] then LostRaces
    else if attempts[0].swapDown then StoreFailed
    else if attempts[0].rivals == [] then Landed
    else if attempts[0].rereadDown then StoreFailed
    else OutcomeOf(attempts[1..])
  }

  function LastOf(row: Semester, rows: seq<Semester>): Semester { if rows == [] then row else rows[|rows| - 1] }

  /** The row the tries leave when read is what was first read. */
  function RowLeft(row: Semester, read: Semester, attempts: seq<Attempt>): Semester
    decreases |attempts|
  {
    if attempts == [] then row
    else if !attempts[0].swapDown && attempts[0].rivals == [] then read.(status := Archived)
    else if attempts[0].swapDown || attempts[0].rereadDown then LastOf(row, attempts[0].rivals)
    else RowLeft(LastOf(row, attempts[0].rivals), read, attempts[1..])
  }

  /** Attempt k is unraced and works, and each before it only lost its race. */
  ghost predicate LandsAt(attempts: seq<Attempt>, k: nat) {
    && k < |attempts| && attempts[k].rivals == [] && !attempts[k].swapDown
    && forall j :: 0 <= j < k ==> attempts[j].rivals != [] && !attempts[j].swapDown && !attempts[j].rereadDown
  }

  lemma {:induction false} LandsIff(attempts: seq<Attempt>)
    ensures OutcomeOf(attempts).Landed? <==> exists k: nat :: LandsAt(attempts, k)
    decreases |attempts|
  {
    if attempts != [] {
      LandsIff(attempts[1..]);
      if attempts[0].rivals == [] && !attempts[0].swapDown {
        assert LandsAt(attempts, 0);
      }
      if k: nat :| LandsAt(attempts[1..], k) && attempts[0].rivals != [] && !attempts[0].swapDown && !attempts[0].rereadDown {
        assert LandsAt(attempts, k + 1);
      }
      if k: nat :| LandsAt(attempts, k) && k > 0 {
        assert LandsAt(attempts[1..], k - 1);
      }
    }
  }

  /** All tries lose their race exactly when each is raced and nothing fails. */
  lemma {:induction false} LosesIff(attempts: seq<Attempt>)
    ensures OutcomeOf(attempts).LostRaces? <==>
      forall k :: 0 <= k < |attempts| ==> attempts[k].rivals != [] && !attempts[k].swapDown && !attempts[k].rereadDown
    decreases |attempts|
  {
    if attempts != [] {
      LosesIff(attempts[1..]);
      assert forall k :: 1 <= k < |attempts| ==> attempts[k] == attempts[1..][k - 1];
    }
  }

  /** How many rows the rivals write until the loop is over. */
  function RivalWrites(attempts: seq<Attempt>): nat {
    if attempts == [] then 0
    else if attempts[0].swapDown || attempts[0].rivals == [] || attempts[0].rereadDown then |attempts[0].rivals|
    else |attempts[0].rivals| + RivalWrites(attempts[1..])
  }

  /** The archive write: the row read before the students were processed, with the status archived.
      A lost race re-reads the version alone; any other failure ends the loop. */
  method Archive(store: RowStore<Semester>, read: Semester, version: nat, attempts: seq<Attempt>) returns (outcome: ArchiveOutcome)
    requires |attempts| == VersionedRow.MAX_UPDATE_RETRIES
    requires version == store.version
    modifies store
    ensures outcome == OutcomeOf(attempts)
    ensures store.row == RowLeft(old(store.row), read, attempts)
    ensures store.version == old(store.version) + RivalWrites(attempts) + if outcome.Landed? then 1 else 0
  {
    var expected := version;
    for attempt := 0 to VersionedRow.MAX_UPDATE_RETRIES
      invariant expected == store.version
      invariant OutcomeOf(attempts) == OutcomeOf(attempts[attempt..])
      invariant RowLeft(old(store.row), read, attempts) == RowLeft(store.row, read, attempts[attempt..])
      invariant old(store.version) + RivalWrites(attempts) == store.version + RivalWrites(attempts[attempt..])
    {
      var a := attempts[attempt];
      assert attempts[attempt..][0] == a && attempts[attempt..][1..] == attempts[attempt + 1..];
      store.Land(a.rivals);
      if a.swapDown { return StoreFailed; }
      var swapped := store.CompareAndSwap(read.(status := Archived), expected);
      if swapped { return Landed; }
      if a.rereadDown { return StoreFailed; }
      expected := store.version;
    }
    outcome := LostRaces;
  }

  /** The semester's row and the students' registry, which no transaction ties together. */
  datatype Office = Office(row: Semester, registry: Registry)

  /** What a semester end that passes its guards leaves: the students have moved whether or not the
      archive write lands. */
  function EndedOffice(o: Office, f: Facts, attempts: seq<Attempt>): Office
    requires Listed(o.registry, f)
  {
    if o.row.status != Finalized then o
    else Office(RowLeft(o.row, o.row, attempts), EndAll(o.registry, f).registry)
  }

  method EndSemester(store: RowStore<Semester>, students: Students, f: Facts, counts: bool, unfinalized: nat, lists: bool,
                     attempts: seq<Attempt>)
    returns (r: Result<Report, EndError>)
    requires Listed(students.registry, f) && f.term == store.row.term && |attempts| == VersionedRow.MAX_UPDATE_RETRIES
    modifies store, students
    ensures r.Failure? && r.error.NotEnded? <==>
      !(old(store.row.status) == Finalized && counts && unfinalized == 0 && lists)
    ensures r.Failure? && r.error.NotEnded? ==> store.row == old(store.row) && students.registry == old(students.registry)
    ensures !(r.Failure? && r.error.NotEnded?) ==>
      Office(store.row, students.registry) == EndedOffice(Office(old(store.row), old(students.registry)), f, attempts)
    ensures !(r.Failure? && r.error.NotEnded?) ==>
      && (r.Success? <==> OutcomeOf(attempts).Landed?)
      && (r == Failure(ArchiveConflict) <==> OutcomeOf(attempts).LostRaces?)
    ensures r.Success? ==> store.row.status == Archived && r.value == EndAll(old(students.registry), f).report
  {
    var sem, version := store.row, store.version;
    var processed := students.EndStudents(f, sem.status, counts, unfinalized, lists);
    if processed.Failure? {
      return Failure(NotEnded(processed.error));
    }
    LandedIsArchived(sem, sem, attempts);
    var outcome := Archive(store, sem, version, attempts);
    match outcome
    case Landed => return Success(processed.value);
    case LostRaces => return Failure(ArchiveConflict);
    case StoreFailed => return Failure(ArchiveBroken);
  }

  /** A write that lands archives whatever the rivals have done; else the row is as they left it. */
  lemma {:induction false} LandedIsArchived(row: Semester, read: Semester, attempts: seq<Attempt>)
    ensures OutcomeOf(attempts).Landed? ==> RowLeft(row, read, attempts) == read.(status := Archived)
    ensures !OutcomeOf(attempts).Landed? && (forall k :: 0 <= k < |attempts| ==> attempts[k].rivals == []) ==>
      RowLeft(row, read, attempts) == row
    decreases |attempts|
  {
    if attempts != [] {
      LandedIsArchived(LastOf(row, attempts[0].rivals), read, attempts[1..]);
    }
  }
}
