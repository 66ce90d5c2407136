/** The lifecycle of a semester under any interleaving of edits, status changes, definalizations and
    semester ends. The archive write of a semester's end retries with the row it read at first, and
    is the one that can leave the lifecycle. */
module SemesterLifecycle {
  import opened Wrappers
  import opened Academic
  import opened VersionedRow

  datatype Semester = Semester(status: SemesterStatus, term: Term, passThreshold: int)

  predicate CanTransition(from: SemesterStatus, to: SemesterStatus) {
    || (from == Upcoming && to == Active)
    || (from == Active && to == Grading)
    || (from == Grading && to == Finalized)
    || (from == Finalized && (to == Archived || to == Grading))
  }

  /** taken says whether another semester of the year already has the new term. EndSemester is the
      archive write: it carries the row it read, and the version it read it at, through all its
      tries. */
  datatype Op =
    | Update(term: Option<Term>, passThreshold: Option<int>, taken: bool)
    | UpdateStatus(status: SemesterStatus)
    | Definalize
    | EndSemester(read: Semester, readAt: nat)

  function Patch(op: Op, s: Semester): Option<Semester> {
    match op
    case Update(term, passThreshold, taken) =>
      if term.Some? && term.value != s.term && taken then None
      else Some(s.(term := if term.Some? then term.value else s.term,
                   passThreshold := if passThreshold.Some? then passThreshold.value else s.passThreshold))
    case UpdateStatus(status) => if CanTransition(s.status, status) then Some(s.(status := status)) else None
    case Definalize => if s.status == Finalized then Some(s.(status := Grading)) else None
    case EndSemester(read, _) => if read.status == Finalized then Some(read.(status := Archived)) else None
  }

  type Lifecycle = World<Semester, Op>

  /** The archive write gets its row from its own first read, and is never one unconditional write;
      its later reads are of the version alone. */
  predicate Honest(w: Lifecycle, a: Action<Op>)
    requires Enabled(w, a)
  {
    match a
    case Read(c) =>
      var call := w.calls[c];
      call.patch.EndSemester? && call.tries == 0 ==> call.patch.read == w.row && call.patch.readAt == w.version
    case WriteNow(_, patch) => !patch.EndSemester?
    case Begin(_, _) => true
    case Swap(_) => true
    case Break(_) => true
  }

  ghost predicate HonestRun(w: Lifecycle, actions: seq<Action<Op>>)
    requires IsRun(Patch, w, actions)
    decreases |actions|
  {
    actions != [] ==> Honest(w, actions[0]) && HonestRun(Step(Patch, w, actions[0]), actions[1..])
  }

  const EDGES: set<(SemesterStatus, SemesterStatus)> :=
    {(Upcoming, Active), (Active, Grading), (Grading, Finalized), (Finalized, Grading), (Finalized, Archived)}

  lemma EdgesAre(from: SemesterStatus, next: SemesterStatus)
    ensures CanTransition(from, next) <==> (from, next) in EDGES
  {
  }

  /** A status change that nobody races commits exactly along an edge; a definalization exactly on a
      finalized semester. */
  lemma UndisturbedChange(first: Semester, op: Op)
    requires op.UpdateStatus? || op.Definalize?
    ensures var w := Step(Patch, Step(Patch, Start<Semester, Op>(first), Begin(1, op)), Read(1));
      if op.UpdateStatus? && (first.status, op.status) in EDGES then
        Enabled(w, Swap(1)) && Step(Patch, w, Swap(1)).row == first.(status := op.status)
      else if op.Definalize? && first.status == Finalized then
        Enabled(w, Swap(1)) && Step(Patch, w, Swap(1)).row == first.(status := Grading)
      else 1 in w.ended && w.ended[1].outcome == Refused && w.row == first
  {
  }

  /** An edit that nobody races sets the fields it names and no other, and is refused exactly when it
      would move the semester to a term of the year that is taken. */
  lemma UndisturbedEdit(first: Semester, term: Option<Term>, passThreshold: Option<int>, taken: bool)
    ensures var w := Step(Patch, Step(Patch, Start<Semester, Op>(first), Begin(1, Update(term, passThreshold, taken))), Read(1));
      if taken && term != None && term != Some(first.term) then 1 in w.ended && w.ended[1].outcome == Refused && w.row == first
      else
        && Enabled(w, Swap(1))
        && var after := Step(Patch, w, Swap(1)).row;
        && after.status == first.status
        && after.term == (match term case None => first.term case Some(t) => t)
        && after.passThreshold == match passThreshold case None => first.passThreshold case Some(n) => n
  {
  }

  // ---- What an archive write has read ------------------------------------------------------------

  predicate ReadBefore(first: Semester, commits: seq<Commit<Op>>, op: Op) {
    op.EndSemester? && op.readAt <= |commits| && op.read == Applied(Patch, first, commits[..op.readAt])
  }

  ghost predicate CallHasRead(first: Semester, commits: seq<Commit<Op>>, call: Call<Semester, Op>) {
    call.patch.EndSemester? && (call.phase.ToSwap? || call.tries > 0) ==> ReadBefore(first, commits, call.patch)
  }

  ghost predicate ReadsSound(first: Semester, w: Lifecycle) {
    && (forall c :: c in w.calls ==> CallHasRead(first, w.commits, w.calls[c]))
    && (forall k: nat :: k < |w.commits| && w.commits[k].patch.EndSemester? ==>
          ReadBefore(first, w.commits[..k], w.commits[k].patch))
  }

  predicate RowIsLatest(first: Semester, w: Lifecycle) {
    w.version == |w.commits| && w.row == Applied(Patch, first, w.commits)
  }

  lemma ReadStays(first: Semester, commits: seq<Commit<Op>>, x: Commit<Op>, op: Op)
    requires ReadBefore(first, commits, op)
    ensures ReadBefore(first, commits + [x], op)
  {
    assert (commits + [x])[..op.readAt] == commits[..op.readAt];
  }

  lemma CommitKeepsReads(first: Semester, w: Lifecycle, c: CallId, next: Semester)
    requires ReadsSound(first, w) && c in w.calls
    requires w.calls[c].patch.EndSemester? ==> ReadBefore(first, w.commits, w.calls[c].patch)
    ensures ReadsSound(first, Finish(Committed(w, c, w.calls[c].patch, next), c, Updated(next)))
  {
    var x := Commit(c, w.calls[c].patch);
    var after := Finish(Committed(w, c, x.patch, next), c, Updated(next));
    forall d | d in after.calls ensures CallHasRead(first, after.commits, after.calls[d]) {
      if CallHasRead(first, w.commits, w.calls[d]) && ReadBefore(first, w.commits, w.calls[d].patch) {
        ReadStays(first, w.commits, x, w.calls[d].patch);
      }
    }
    forall k: nat | k < |after.commits| && after.commits[k].patch.EndSemester?
      ensures ReadBefore(first, after.commits[..k], after.commits[k].patch)
    {
      assert after.commits[..k] == w.commits[..k];
      assert w.commits[..|w.commits|] == w.commits;
    }
  }

  lemma SwapKeepsReads(first: Semester, w: Lifecycle, c: CallId)
    requires ReadsSound(first, w) && Enabled(w, Swap(c))
    ensures ReadsSound(first, Step(Patch, w, Swap(c)))
  {
    assert CallHasRead(first, w.commits, w.calls[c]);
    if w.calls[c].phase.version == w.version {
      CommitKeepsReads(first, w, c, w.calls[c].phase.next);
    }
  }

  lemma WriteNowKeepsReads(first: Semester, w: Lifecycle, c: CallId, op: Op)
    requires ReadsSound(first, w) && Enabled(w, WriteNow(c, op)) && !op.EndSemester?
    ensures ReadsSound(first, Step(Patch, w, WriteNow(c, op)))
  {
    var begun := w.(calls := w.calls[c := Call(op, |w.commits|, 0, ToRead)]);
    assert ReadsSound(first, begun);
    if Patch(op, w.row).Some? {
      CommitKeepsReads(first, begun, c, Patch(op, w.row).value);
    }
  }

  lemma ReadKeepsReads(first: Semester, w: Lifecycle, c: CallId)
    requires RowIsLatest(first, w) && ReadsSound(first, w) && Enabled(w, Read(c)) && Honest(w, Read(c))
    ensures ReadsSound(first, Step(Patch, w, Read(c)))
  {
    assert w.commits[..|w.commits|] == w.commits;
    assert CallHasRead(first, w.commits, w.calls[c]);
  }

  lemma StepKeepsReads(first: Semester, w: Lifecycle, a: Action<Op>)
    requires RowIsLatest(first, w) && ReadsSound(first, w) && Enabled(w, a) && Honest(w, a)
    ensures ReadsSound(first, Step(Patch, w, a))
  {
    match a
    case Begin(c, patch) =>
    case Read(c) => ReadKeepsReads(first, w, c);
    case Swap(c) => SwapKeepsReads(first, w, c);
    case WriteNow(c, patch) => WriteNowKeepsReads(first, w, c, patch);
    case Break(c) =>
  }

  lemma {:induction false} RunKeepsReads(first: Semester, w: Lifecycle, actions: seq<Action<Op>>)
    requires Inv(Patch, first, w) && ReadsSound(first, w) && IsRun(Patch, w, actions) && HonestRun(w, actions)
    ensures ReadsSound(first, After(Patch, w, actions))
    decreases |actions|
  {
    if actions != [] {
      StepKeepsReads(first, w, actions[0]);
      StepKeepsInv(Patch, first, w, actions[0]);
      RunKeepsReads(first, Step(Patch, w, actions[0]), actions[1..]);
    }
  }

  /** The worlds that any number of interleaved edits, status changes, definalizations and semester
      ends reach. */
  ghost predicate Lived(first: Semester, w: Lifecycle) {
    exists actions: seq<Action<Op>> ::
      IsRun(Patch, Start(first), actions) && HonestRun(Start(first), actions) && After(Patch, Start(first), actions) == w
  }

  lemma LivedIsReachable(first: Semester, w: Lifecycle)
    requires Lived(first, w)
    ensures Reachable(Patch, first, w) && ReadsSound(first, w)
  {
    var actions: seq<Action<Op>> :| IsRun(Patch, Start(first), actions) && HonestRun(Start(first), actions) &&
      After(Patch, Start(first), actions) == w;
    RunKeepsReads(first, Start(first), actions);
  }

  // ---- Which commits follow the table ---------------------------------------------------------------

  /** The semester as it was after the first k commits. */
  function At(first: Semester, w: Lifecycle, k: nat): Semester
    requires k <= |w.commits|
  {
    Applied(Patch, first, w.commits[..k])
  }

  /** A change of anything but the status leaves the status alone; any other follows the table. */
  predicate FollowsTable(first: Semester, w: Lifecycle, k: nat)
    requires k < |w.commits|
  {
    var before, after := At(first, w, k).status, At(first, w, k + 1).status;
    if w.commits[k].patch.Update? then after == before else CanTransition(before, after)
  }

  /** Each committed edit, status change and definalization follows the table. */
  lemma EveryChangeIsAnEdge(first: Semester, w: Lifecycle, k: nat)
    requires Lived(first, w) && k < |w.commits| && !w.commits[k].patch.EndSemester?
    ensures FollowsTable(first, w, k)
  {
    LivedIsReachable(first, w);
    CommitAt(Patch, first, w, k);
  }

  /** An archive write puts the row it once read back, archived: the columns that others have changed
      since then go back to what they were. */
  lemma ArchiveWritesWhatItRead(first: Semester, w: Lifecycle, k: nat)
    requires Lived(first, w) && k < |w.commits| && w.commits[k].patch.EndSemester?
    ensures w.commits[k].patch.readAt <= k
    ensures At(first, w, w.commits[k].patch.readAt).status == Finalized
    ensures At(first, w, k + 1) == At(first, w, w.commits[k].patch.readAt).(status := Archived)
  {
    LivedIsReachable(first, w);
    CommitAt(Patch, first, w, k);
    var op := w.commits[k].patch;
    assert w.commits[..k][..op.readAt] == w.commits[..op.readAt];
  }

  /** Which operations write the status, and with what. */
  function SetsStatus(op: Op): Option<SemesterStatus> {
    match op
    case Update(_, _, _) => None
    case UpdateStatus(status) => Some(status)
    case Definalize => Some(Grading)
    case EndSemester(_, _) => Some(Archived)
  }

  lemma PatchSetsStatus(op: Op, s: Semester)
    requires Patch(op, s).Some?
    ensures Patch(op, s).value.status == if SetsStatus(op).Some? then SetsStatus(op).value else s.status
  {
  }

  lemma StatusAfter(first: Semester, w: Lifecycle, k: nat)
    requires Lived(first, w) && k < |w.commits|
    ensures var said := SetsStatus(w.commits[k].patch);
      At(first, w, k + 1).status == if said.Some? then said.value else At(first, w, k).status
  {
    LivedIsReachable(first, w);
    CommitAt(Patch, first, w, k);
    PatchSetsStatus(w.commits[k].patch, At(first, w, k));
  }

  lemma LastSetGrows(commits: seq<Commit<Op>>, x: Commit<Op>, original: SemesterStatus)
    ensures var said := SetsStatus(x.patch);
      LastSet(SetsStatus, commits + [x], original) == if said.Some? then said.value else LastSet(SetsStatus, commits, original)
  {
    assert (commits + [x])[..|commits|] == commits;
  }

  lemma {:induction false} StatusSince(first: Semester, w: Lifecycle, j: nat, k: nat)
    requires Lived(first, w) && j <= k <= |w.commits|
    ensures At(first, w, k).status == LastSet(SetsStatus, w.commits[j..k], At(first, w, j).status)
    decreases k
  {
    if j < k {
      StatusSince(first, w, j, k - 1);
      StatusAfter(first, w, k - 1);
      LastSetGrows(w.commits[j..k - 1], w.commits[k - 1], At(first, w, j).status);
      assert w.commits[j..k - 1] + [w.commits[k - 1]] == w.commits[j..k];
    }
  }

  /** The operations committed between an archive write's read and its swap leave the semester
      finalized: none of them sets the status, or the last that does finalizes again. */
  predicate LeftFinalized(w: Lifecycle, k: nat)
    requires k < |w.commits|
  {
    var op := w.commits[k].patch;
    op.EndSemester? && op.readAt <= k ==> LastSet(SetsStatus, w.commits[op.readAt..k], Finalized) == Finalized
  }

  lemma FollowsTableIff(first: Semester, w: Lifecycle, k: nat)
    requires Lived(first, w) && k < |w.commits|
    ensures FollowsTable(first, w, k) <==> LeftFinalized(w, k)
  {
    if w.commits[k].patch.EndSemester? {
      ArchiveWritesWhatItRead(first, w, k);
      StatusSince(first, w, w.commits[k].patch.readAt, k);
    } else {
      EveryChangeIsAnEdge(first, w, k);
    }
  }

  /** Over any run, every commit follows the table if and only if no archive write lands after
      commits of others that left the semester anything but finalized. */
  lemma LifecycleHoldsIff(first: Semester, w: Lifecycle)
    requires Lived(first, w)
    ensures (forall k: nat :: k < |w.commits| ==> FollowsTable(first, w, k))
       <==> (forall k: nat :: k < |w.commits| ==> LeftFinalized(w, k))
  {
    forall k: nat | k < |w.commits| ensures FollowsTable(first, w, k) <==> LeftFinalized(w, k) {
      FollowsTableIff(first, w, k);
    }
  }

  /** Nothing that runs later brings an archived semester back. */
  lemma {:induction false} ArchivedIsForever(first: Semester, w: Lifecycle, j: nat, k: nat)
    requires Lived(first, w) && j <= k <= |w.commits| && At(first, w, j).status == Archived
    ensures At(first, w, k).status == Archived
  {
    if j < k {
      ArchivedIsForever(first, w, j, k - 1);
      if w.commits[k - 1].patch.EndSemester? {
        ArchiveWritesWhatItRead(first, w, k - 1);
      } else {
        EveryChangeIsAnEdge(first, w, k - 1);
      }
    }
  }

  function Rank(s: SemesterStatus): nat {
    match s case Upcoming => 0 case Active => 1 case Grading => 2 case Finalized => 3 case Archived => 4
  }

  // A status is never skipped: to be past it, the semester was in it. What an archive write skips,
  // it had read.
  lemma {:induction false} PassedThrough(first: Semester, w: Lifecycle, k: nat, s: SemesterStatus) returns (i: nat)
    requires Lived(first, w) && k <= |w.commits|
    requires Rank(first.status) <= Rank(s) <= Rank(At(first, w, k).status)
    ensures i <= k && At(first, w, i).status == s
    decreases k
  {
    if At(first, w, k).status == s {
      i := k;
    } else {
      assert k != 0;
      if w.commits[k - 1].patch.EndSemester? {
        ArchiveWritesWhatItRead(first, w, k - 1);
        i := PassedThrough(first, w, w.commits[k - 1].patch.readAt, s);
      } else {
        EveryChangeIsAnEdge(first, w, k - 1);
        i := PassedThrough(first, w, k - 1, s);
      }
    }
  }

  ghost predicate StagesInOrder(first: Semester, w: Lifecycle, a: nat, g: nat, f: nat) {
    && a < g < f < |w.commits|
    && At(first, w, a).status == Active && At(first, w, g).status == Grading && At(first, w, f).status == Finalized
  }

  lemma RowIsLast(first: Semester, w: Lifecycle)
    requires Lived(first, w)
    ensures w.row == At(first, w, |w.commits|)
  {
    LivedIsReachable(first, w);
    RowIsCommitsInOrder(Patch, first, w);
    assert w.commits[..|w.commits|] == w.commits;
  }

  /** A semester that was upcoming and is archived went through active, grading and finalized, in
      that order. */
  lemma ArchivedPassedEveryStage(first: Semester, w: Lifecycle)
    requires Lived(first, w) && first.status == Upcoming && w.row.status == Archived
    ensures exists a: nat, g: nat, f: nat :: StagesInOrder(first, w, a, g, f)
  {
    RowIsLast(first, w);
    var f := PassedThrough(first, w, |w.commits|, Finalized);
    var g := PassedThrough(first, w, f, Grading);
    var a := PassedThrough(first, w, g, Active);
    assert StagesInOrder(first, w, a, g, f);
  }

  // ---- An archive write that is overtaken -------------------------------------------------------------

  function Overtaken(first: Semester, op: Op): seq<Action<Op>> {
    [Begin(1, EndSemester(first, 0)), Read(1), Begin(2, op), Read(2), Swap(2), Swap(1), Read(1), Swap(1)]
  }

  ghost predicate Leads(w: Lifecycle, run: seq<Action<Op>>, last: Lifecycle) {
    IsRun(Patch, w, run) && HonestRun(w, run) && After(Patch, w, run) == last
  }

  lemma LeadsFrom(w: Lifecycle, run: seq<Action<Op>>, k: nat, last: Lifecycle)
    requires k < |run| && Enabled(w, run[k]) && Honest(w, run[k]) && Leads(Step(Patch, w, run[k]), run[k + 1..], last)
    ensures Leads(w, run[k..], last)
  {
    assert run[k..][1..] == run[k + 1..];
  }

  lemma RetryWrites(w: Lifecycle, run: seq<Action<Op>>, first: Semester) returns (last: Lifecycle)
    requires |run| == 8 && run[5] == Swap(1) && run[6] == Read(1) && run[7] == Swap(1)
    requires 1 in w.calls && w.version == 1 && first.status == Finalized
    requires w.calls[1] == Call(EndSemester(first, 0), 0, 0, ToSwap(0, first.(status := Archived)))
    ensures Leads(w, run[5..], last)
    ensures last.row == first.(status := Archived)
    ensures last.commits == w.commits + [Commit(1, EndSemester(first, 0))]
  {
    var w6 := Step(Patch, w, run[5]);
    var w7 := Step(Patch, w6, run[6]);
    last := Step(Patch, w7, run[7]);
    LeadsFrom(w7, run, 7, last);
    LeadsFrom(w6, run, 6, last);
    LeadsFrom(w, run, 5, last);
  }

  // Both have read the semester and are about to swap.
  function BothRead(first: Semester, op: Op): Lifecycle
    requires first.status == Finalized && Patch(op, first).Some?
  {
    World(first, 0, [], [],
      map[1 := Call(EndSemester(first, 0), 0, 0, ToSwap(0, first.(status := Archived))),
          2 := Call(op, 0, 0, ToSwap(0, Patch(op, first).value))], map[])
  }

  // The end of the semester has read it, and nobody else.
  function OneRead(first: Semester): Lifecycle {
    World(first, 0, [], [], map[1 := Call(EndSemester(first, 0), 0, 0, ToSwap(0, first.(status := Archived)))], map[])
  }

  lemma LeadsToOneRead(first: Semester, op: Op, last: Lifecycle)
    requires first.status == Finalized && Leads(OneRead(first), Overtaken(first, op)[2..], last)
    ensures Leads(Start(first), Overtaken(first, op)[0..], last)
  {
    var run := Overtaken(first, op);
    var w1 := Step(Patch, Start(first), run[0]);
    assert Step(Patch, w1, run[1]) == OneRead(first);
    LeadsFrom(w1, run, 1, last);
    LeadsFrom(Start(first), run, 0, last);
  }

  lemma LeadsToBothRead(first: Semester, op: Op, last: Lifecycle)
    requires first.status == Finalized && Patch(op, first).Some? && !op.EndSemester?
    requires Leads(BothRead(first, op), Overtaken(first, op)[4..], last)
    ensures Leads(Start(first), Overtaken(first, op)[0..], last)
  {
    var run := Overtaken(first, op);
    var w3 := Step(Patch, OneRead(first), run[2]);
    assert Step(Patch, w3, run[3]) == BothRead(first, op);
    LeadsFrom(w3, run, 3, last);
    LeadsFrom(OneRead(first), run, 2, last);
    LeadsToOneRead(first, op, last);
  }

  /** Whatever change lands between the read and the first swap, the retry takes it back and
      archives. */
  lemma RetryOverwrites(first: Semester, op: Op) returns (w: Lifecycle)
    requires first.status == Finalized && Patch(op, first).Some? && !op.EndSemester?
    ensures Leads(Start(first), Overtaken(first, op), w) && Lived(first, w)
    ensures w.row == first.(status := Archived)
    ensures w.commits == [Commit(2, op), Commit(1, EndSemester(first, 0))]
  {
    var run := Overtaken(first, op);
    var rival := Step(Patch, BothRead(first, op), Swap(2));
    w := RetryWrites(rival, run, first);
    LeadsFrom(BothRead(first, op), run, 4, w);
    LeadsToBothRead(first, op, w);
    assert run[0..] == run;
  }

  /** A definalization in between: the semester goes from grading to archived. */
  lemma ArchiveAfterDefinalize(first: Semester) returns (w: Lifecycle)
    requires first.status == Finalized
    ensures Leads(Start(first), Overtaken(first, Definalize), w)
    ensures |w.commits| == 2 && At(first, w, 1).status == Grading && At(first, w, 2).status == Archived
    ensures !FollowsTable(first, w, 1)
  {
    w := RetryOverwrites(first, Definalize);
    assert w.commits[..1] == [Commit(2, Definalize)];
    assert Applied(Patch, first, [Commit(2, Definalize)][..0]) == first;
    RowIsLast(first, w);
  }
}
