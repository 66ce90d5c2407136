/** What each step of the reference machine does to the rows, said of the rows themselves: when a
    write lands, which rows a delete takes, whose receipts are resolved, and that a draft once turned
    in keeps its files until its assignment is deleted. */
module RowRules {
  import opened Wrappers
  import opened InodeTable
  import opened ReferenceProtocol

  // ---- Steps that leave the rows alone ---------------------------------------------------------------

  ghost predicate RowsAlone(w: World, v: World) {
    v.rows == w.rows && v.frozen == w.frozen && v.assignments == w.assignments
  }

  lemma ClientLeavesRows(w: World, a: Action)
    requires Enabled(w, a)
    requires a.Refer? || a.ResolveNext? || a.BeginLinking? || a.LinkNext? || a.CollectRows?
    ensures RowsAlone(w, Step(w, a))
  {
  }

  lemma UploadLeavesRows(w: World, a: Action)
    requires Enabled(w, a)
    requires a.CopyBytes? || a.ClaimUpload? || a.RemoveBytes?
    ensures RowsAlone(w, Step(w, a))
  {
  }

  lemma ExpiryLeavesRows(w: World, expired: set<UploadId>)
    ensures RowsAlone(w, Expired(w, expired))
  {
  }

  lemma SweepLeavesRows(w: World, c: CallId, id: InodeId)
    ensures RowsAlone(w, Swept(w, c, id))
  {
  }

  lemma EditLeavesRows(w: World, a: Action)
    requires Enabled(w, a)
    requires a.StartEdit? || a.FetchActivity? || a.PickCover? || a.LinkCover?
    ensures RowsAlone(w, Step(w, a))
  {
  }

  lemma UnlinkLeavesRows(w: World, id: InodeId, down: bool)
    ensures RowsAlone(w, Unlinked(w, id, down))
  {
  }

  lemma DropLeavesRows(w: World, a: Action)
    requires Enabled(w, a) && a.DropNext?
    ensures RowsAlone(w, Step(w, a))
  {
    UnlinkLeavesRows(w, w.calls[a.c].drops[0], a.down);
  }

  lemma UndoLeavesRows(w: World, a: Action)
    requires Enabled(w, a) && a.UndoCover?
    ensures RowsAlone(w, Step(w, a))
  {
    UnlinkLeavesRows(w, w.calls[a.c].lost, a.down);
  }

  lemma EndLeavesRows(w: World, a: Action)
    requires Enabled(w, a)
    requires a.Return? || a.Crash?
    ensures RowsAlone(w, Step(w, a))
  {
  }

  predicate TouchesRows(a: Action) {
    a.WriteRow? || a.Detach? || a.DeleteRows? || a.SwapRow? || a.TurnIn? || a.CreateAssignment?
  }

  lemma OthersLeaveRows(w: World, a: Action)
    requires Enabled(w, a) && !TouchesRows(a)
    ensures RowsAlone(w, Step(w, a))
  {
    if a.Refer? || a.ResolveNext? || a.BeginLinking? || a.LinkNext? || a.CollectRows? {
      ClientLeavesRows(w, a);
    } else if a.CopyBytes? || a.ClaimUpload? || a.RemoveBytes? {
      UploadLeavesRows(w, a);
    } else if a.Expire? {
      ExpiryLeavesRows(w, a.expired);
    } else if a.SweepOne? {
      SweepLeavesRows(w, a.c, a.id);
    } else if a.DropNext? {
      DropLeavesRows(w, a);
    } else if a.UndoCover? {
      UndoLeavesRows(w, a);
    } else if a.Return? || a.Crash? {
      EndLeavesRows(w, a);
    } else {
      EditLeavesRows(w, a);
    }
  }

  // ---- Steps that change them ---------------------------------------------------------------------------

  lemma DraftIsSaved(w: World, c: CallId, key: RowKey)
    requires Enabled(w, WriteRow(c, false)) && w.calls[c].target == key && key.Draft?
    requires key.assignment in w.assignments && key !in w.frozen
    ensures var v, files := Step(w, WriteRow(c, false)), w.calls[c].files;
      && v.frozen == w.frozen && v.assignments == w.assignments
      && v.rows == w.rows[key := files] && v.calls[c] == Dropping(if key in w.rows then w.rows[key] else [])
  {
  }

  lemma DraftIsRefused(w: World, c: CallId, key: RowKey)
    requires Enabled(w, WriteRow(c, false)) && w.calls[c].target == key && key.Draft?
    requires key.assignment !in w.assignments || key in w.frozen
    ensures RowsAlone(w, Step(w, WriteRow(c, false))) && Step(w, WriteRow(c, false)).calls[c] == Dropping(w.calls[c].files)
  {
  }

  /** A draft is saved if and only if its assignment is there and it is not turned in; the call then
      has the replaced files to give back, else its own. */
  lemma SaveLandsIff(w: World, c: CallId, assignment: nat, student: UserId)
    requires Enabled(w, WriteRow(c, false)) && w.calls[c].target == Draft(assignment, student)
    ensures var v, key, files := Step(w, WriteRow(c, false)), Draft(assignment, student), w.calls[c].files;
      && v.frozen == w.frozen && v.assignments == w.assignments
      && if assignment in w.assignments && key !in w.frozen then
           v.rows == w.rows[key := files] && v.calls[c] == Dropping(if key in w.rows then w.rows[key] else [])
         else v.rows == w.rows && v.calls[c] == Dropping(files)
  {
    var key := Draft(assignment, student);
    if assignment in w.assignments && key !in w.frozen {
      DraftIsSaved(w, c, key);
    } else {
      DraftIsRefused(w, c, key);
    }
  }

  /** An attachment lands if and only if its assignment is there and its key is new. */
  lemma AttachLandsIff(w: World, c: CallId, assignment: nat, id: nat)
    requires Enabled(w, WriteRow(c, false)) && w.calls[c].target == Attachment(assignment, id)
    ensures var v, key, files := Step(w, WriteRow(c, false)), Attachment(assignment, id), w.calls[c].files;
      && v.frozen == w.frozen && v.assignments == w.assignments
      && if assignment in w.assignments && key !in w.rows then v.rows == w.rows[key := files] && v.calls[c] == Dropping([])
         else v.rows == w.rows && v.calls[c] == Dropping(files)
  {
  }

  /** An activity is created if and only if it is new, and starts at the first version. */
  lemma ActivityLandsIff(w: World, c: CallId, activity: nat)
    requires Enabled(w, WriteRow(c, false)) && w.calls[c].target == Cover(activity)
    ensures var v, key, files := Step(w, WriteRow(c, false)), Cover(activity), w.calls[c].files;
      && v.frozen == w.frozen && v.assignments == w.assignments
      && if activity !in w.versions && key !in w.rows then
           v.rows == w.rows[key := files] && v.versions == w.versions[activity := 0] && v.calls[c] == Dropping([])
         else v.rows == w.rows && v.versions == w.versions && v.calls[c] == Dropping(files)
  {
  }

  lemma RefusedWriteLeavesRows(w: World, c: CallId)
    requires Enabled(w, WriteRow(c, true))
    ensures RowsAlone(w, Step(w, WriteRow(c, true)))
  {
  }

  lemma DetachTakesOne(w: World, c: CallId, key: RowKey)
    requires Enabled(w, Detach(c, key))
    ensures var v := Step(w, Detach(c, key));
      v.rows == w.rows - {key} && v.frozen == w.frozen && v.assignments == w.assignments && v.calls[c] == Dropping(w.rows[key])
  {
  }

  /** Discarding takes the one draft, if it is there and not turned in; then the call has the files it
      had read to give back, and else it is over. */
  lemma DiscardTakesDraft(w: World, c: CallId, assignment: nat, student: UserId)
    requires Enabled(w, DeleteRows(c, false)) && w.calls[c].scope == OneDraft(assignment, student)
    ensures var v, key := Step(w, DeleteRows(c, false)), Draft(assignment, student);
      && v.rows == (if key in w.frozen then w.rows else w.rows - {key})
      && v.frozen == w.frozen && v.assignments == w.assignments
      && v.calls == if key in w.rows && key !in w.frozen then w.calls[c := Dropping(w.calls[c].list)] else w.calls - {c}
  {
    var v, key := Step(w, DeleteRows(c, false)), Draft(assignment, student);
    if key in w.rows && key !in w.frozen {
      assert Doomed(w, w.calls[c].scope) == {key};
    }
  }

  /** Deleting an assignment that is there takes it, its attachments and all its drafts, turned in or
      not, and nothing else. */
  lemma DeleteTakesAssignment(w: World, c: CallId, assignment: nat, k: RowKey)
    requires Enabled(w, DeleteRows(c, false)) && w.calls[c].scope == WholeAssignment(assignment) && assignment in w.assignments
    ensures var v, its := Step(w, DeleteRows(c, false)), (k.Attachment? || k.Draft?) && k.assignment == assignment;
      && (k in v.rows <==> k in w.rows && !its)
      && (k in v.rows ==> v.rows[k] == w.rows[k])
      && v.assignments == w.assignments - {assignment}
      && v.calls == w.calls[c := Dropping(w.calls[c].list)]
  {
  }

  lemma FailedDeleteLeavesRows(w: World, c: CallId, down: bool)
    requires Enabled(w, DeleteRows(c, down))
    requires down || (w.calls[c].scope.WholeAssignment? && w.calls[c].scope.assignment !in w.assignments)
    ensures RowsAlone(w, Step(w, DeleteRows(c, down))) && Step(w, DeleteRows(c, down)).calls == w.calls - {c}
  {
  }

  /** A swap that wins sets the one cover and bumps its version; any other leaves the rows alone. */
  lemma SwapSetsCover(w: World, c: CallId, down: bool)
    requires Enabled(w, SwapRow(c, down))
    ensures var v, call := Step(w, SwapRow(c, down)), w.calls[c];
      var a := call.edit.activity;
      && v.frozen == w.frozen && v.assignments == w.assignments
      && if !down && w.versions[a] == call.snap.version then
           && v.rows == w.rows[Cover(a) := match call.newCover case Some(i) => [i] case None => call.snap.cover]
           && v.versions == w.versions[a := w.versions[a] + 1]
         else v.rows == w.rows && v.versions == w.versions
  {
  }

  lemma CreatedIsThere(w: World, assignment: nat)
    requires Enabled(w, CreateAssignment(assignment))
    ensures var v := Step(w, CreateAssignment(assignment));
      v.assignments == w.assignments + {assignment} && v.rows == w.rows && v.frozen == w.frozen
  {
  }

  lemma TurnInFreezes(w: World, d: RowKey)
    requires Enabled(w, TurnIn(d))
    ensures var v := Step(w, TurnIn(d)); v.rows == w.rows && v.frozen == w.frozen + {d} && v.assignments == w.assignments
  {
  }

  // ---- A draft that is turned in --------------------------------------------------------------------------

  ghost predicate TurnedIn(w: World, d: RowKey, files: seq<InodeId>) {
    d.Draft? && d in w.frozen && d in w.rows && w.rows[d] == files
  }

  /** The one step that may take a draft that is turned in. */
  ghost predicate DeletesItsAssignment(w: World, a: Action, d: RowKey)
    requires Enabled(w, a) && d.Draft?
  {
    a.DeleteRows? && !a.down && w.calls[a.c].scope == WholeAssignment(d.assignment) && d.assignment in w.assignments
  }

  lemma WriteKeepsTurnedIn(w: World, c: CallId, refused: bool, d: RowKey, files: seq<InodeId>)
    requires Enabled(w, WriteRow(c, refused)) && TurnedIn(w, d, files)
    ensures TurnedIn(Step(w, WriteRow(c, refused)), d, files)
  {
    if refused {
      RefusedWriteLeavesRows(w, c);
    } else if w.calls[c].target.Draft? {
      SaveLandsIff(w, c, w.calls[c].target.assignment, w.calls[c].target.student);
    } else if w.calls[c].target.Attachment? {
      AttachLandsIff(w, c, w.calls[c].target.assignment, w.calls[c].target.id);
    } else {
      ActivityLandsIff(w, c, w.calls[c].target.activity);
    }
  }

  lemma DeleteKeepsTurnedIn(w: World, c: CallId, down: bool, d: RowKey, files: seq<InodeId>)
    requires Enabled(w, DeleteRows(c, down)) && TurnedIn(w, d, files) && !DeletesItsAssignment(w, DeleteRows(c, down), d)
    ensures TurnedIn(Step(w, DeleteRows(c, down)), d, files)
  {
    if !down && w.calls[c].scope.OneDraft? {
      DiscardTakesDraft(w, c, w.calls[c].scope.assignment, w.calls[c].scope.student);
    } else if down || w.calls[c].scope.assignment !in w.assignments {
      FailedDeleteLeavesRows(w, c, down);
    } else {
      DeleteTakesAssignment(w, c, w.calls[c].scope.assignment, d);
      assert Step(w, DeleteRows(c, down)).frozen == w.frozen - Doomed(w, w.calls[c].scope);
    }
  }

  /** Whatever any call does, a draft that is turned in keeps exactly its files and stays turned in,
      unless its assignment is deleted. */
  lemma StepKeepsTurnedIn(w: World, a: Action, d: RowKey, files: seq<InodeId>)
    requires Enabled(w, a) && TurnedIn(w, d, files) && !DeletesItsAssignment(w, a, d)
    ensures TurnedIn(Step(w, a), d, files)
  {
    if a.WriteRow? {
      WriteKeepsTurnedIn(w, a.c, a.refused, d, files);
    } else if a.DeleteRows? {
      DeleteKeepsTurnedIn(w, a.c, a.down, d, files);
    } else if a.Detach? {
      DetachTakesOne(w, a.c, a.key);
    } else if a.SwapRow? {
      SwapSetsCover(w, a.c, a.down);
    } else if a.TurnIn? {
      TurnInFreezes(w, a.draft);
    } else if !a.CreateAssignment? {
      OthersLeaveRows(w, a);
    }
  }

  ghost predicate KeepsAssignment(w: World, actions: seq<Action>, d: RowKey)
    requires IsRun(w, actions) && d.Draft?
    decreases |actions|
  {
    actions != [] ==> !DeletesItsAssignment(w, actions[0], d) && KeepsAssignment(Step(w, actions[0]), actions[1..], d)
  }

  lemma {:induction false} TurnedInIsFinal(w: World, actions: seq<Action>, d: RowKey, files: seq<InodeId>)
    requires IsRun(w, actions) && TurnedIn(w, d, files) && KeepsAssignment(w, actions, d)
    ensures TurnedIn(After(w, actions), d, files)
    decreases |actions|
  {
    if actions != [] {
      StepKeepsTurnedIn(w, actions[0], d, files);
      TurnedInIsFinal(Step(w, actions[0]), actions[1..], d, files);
    }
  }

  // ---- Whose receipts --------------------------------------------------------------------------------------

  /** A receipt is resolved to its inode if and only if it exists and is the actor's own; else the
      call is over. */
  lemma ResolvesOwnOnly(w: World, c: CallId)
    requires Enabled(w, ResolveNext(c))
    ensures var v, call := Step(w, ResolveNext(c)), w.calls[c];
      var u := call.todo[0];
      if u in w.receipts && w.receipts[u].uploader == call.actor then
        v.calls == w.calls[c := Resolving(call.target, call.actor, call.todo[1..], call.files + [w.receipts[u].inode])]
      else v.calls == w.calls - {c}
  {
  }

  /** So is a new cover, which must be an image too. */
  lemma PicksOwnOnly(w: World, c: CallId, isImage: bool)
    requires Enabled(w, PickCover(c, isImage))
    ensures var v, call := Step(w, PickCover(c, isImage)), w.calls[c];
      var u := call.edit.cover.value;
      if isImage && u in w.receipts && w.receipts[u].uploader == call.edit.actor then
        v.calls == w.calls[c := LinkingCover(call.edit, call.tries, call.snap, w.receipts[u].inode)]
      else v.calls == w.calls - {c}
  {
  }

  /** An upload's receipt is its uploader's, on a row of the content. */
  lemma ClaimIssuesReceipt(w: World, a: Action)
    requires Enabled(w, a) && a.ClaimUpload?
    ensures var v := Step(w, a);
      && a.upload in v.receipts && v.receipts == w.receipts[a.upload := v.receipts[a.upload]]
      && v.receipts[a.upload].uploader == a.uploader
      && v.receipts[a.upload].inode in v.table && v.table[v.receipts[a.upload].inode].hash == w.calls[a.c].hash
  {
  }

  /** An attachment refers to one upload, a cover to one at most, and a draft to any number. */
  lemma RefersToFew(w: World, c: CallId, target: RowKey, actor: UserId, uploads: seq<UploadId>)
    requires c !in w.calls
    ensures Enabled(w, Refer(c, target, actor, uploads)) <==> target.Draft? || |uploads| == 1 || (target.Cover? && uploads == [])
  {
  }

  // ---- Links, and the tries of an edit ---------------------------------------------------------------------

  /** The next file is linked if and only if the store answers and its inode is live; else what is linked
      so far is to be given back. */
  lemma LinksNextIff(w: World, c: CallId, down: bool)
    requires Enabled(w, LinkNext(c, down))
    ensures var v, call := Step(w, LinkNext(c, down)), w.calls[c];
      var id := call.files[call.done];
      if !down && id in w.table && w.table[id].state == Live then
        v.calls == w.calls[c := Linking(call.target, call.files, call.done + 1)]
      else v.table == w.table && v.calls == w.calls[c := Dropping(call.files[..call.done])]
  {
  }

  /** A new cover is linked on the same terms; otherwise the edit is over. */
  lemma LinksCoverIff(w: World, c: CallId, down: bool)
    requires Enabled(w, LinkCover(c, down))
    ensures var v, call := Step(w, LinkCover(c, down)), w.calls[c];
      if !down && call.picked in w.table && w.table[call.picked].state == Live then
        v.calls == w.calls[c := Swapping(call.edit, call.tries, call.snap, Some(call.picked))]
      else v.table == w.table && v.calls == w.calls - {c}
  {
  }

  /** An edit reads the activity's version and cover in one, and goes on to its new cover or straight to
      the swap; an activity that is not there ends it. */
  lemma FetchesRow(w: World, c: CallId)
    requires Enabled(w, FetchActivity(c))
    ensures var v, edit, tries := Step(w, FetchActivity(c)), w.calls[c].edit, w.calls[c].tries;
      if edit.activity in w.versions && Cover(edit.activity) in w.rows then
        var read := Snapshot(w.versions[edit.activity], w.rows[Cover(edit.activity)]);
        v.calls == w.calls[c := if edit.cover == None then Swapping(edit, tries, read, None) else PickingCover(edit, tries, read)]
      else v.calls == w.calls - {c}
  {
  }

  predicate IsEdit(call: Call) {
    call.Fetching? || call.PickingCover? || call.LinkingCover? || call.Swapping? || call.Undoing?
  }

  /** How many races an edit has lost so far. */
  function LostRaces(call: Call): nat
    requires IsEdit(call)
  {
    if call.Undoing? then call.tries + 1 else call.tries
  }

  predicate LosesRace(w: World, a: Action, c: CallId) {
    && a == SwapRow(c, false) && c in w.calls && w.calls[c].Swapping?
    && w.calls[c].edit.activity in w.versions && w.versions[w.calls[c].edit.activity] != w.calls[c].snap.version
  }

  // Where the edit of a call stands after one of its own steps.
  ghost predicate EditAfter(w: World, v: World, c: CallId, lost: nat)
    requires c in w.calls && IsEdit(w.calls[c])
  {
    c in v.calls && IsEdit(v.calls[c]) ==> v.calls[c].edit == w.calls[c].edit && LostRaces(v.calls[c]) == LostRaces(w.calls[c]) + lost
  }

  /** A lost race costs one try and nothing else does; with a new cover it is given back first. Whoever has
      lost fewer than three begins again, and the third ends the edit. */
  lemma LostRaceCosts(w: World, c: CallId)
    requires Enabled(w, SwapRow(c, false)) && LosesRace(w, SwapRow(c, false), c)
    ensures var v, call := Step(w, SwapRow(c, false)), w.calls[c];
      && EditAfter(w, v, c, 1)
      && v.calls == w.calls[c :=
           if call.newCover.Some? then Undoing(call.edit, call.tries, call.newCover.value)
           else if call.tries < 2 then Fetching(call.edit, call.tries + 1) else Dropping([])]
  {
  }

  lemma UndoneTriesAgain(w: World, c: CallId, down: bool)
    requires Enabled(w, UndoCover(c, down))
    ensures var v, call := Step(w, UndoCover(c, down)), w.calls[c];
      && EditAfter(w, v, c, 0)
      && v.calls == w.calls[c := if call.tries < 2 then Fetching(call.edit, call.tries + 1) else Dropping([])]
  {
    UnlinkLeavesRows(w, w.calls[c].lost, down);
  }

  /** A swap that fails is no lost race: the new cover is given back and the edit is over; and one that
      wins gives back the cover it replaced. */
  lemma SwapEndsEdit(w: World, c: CallId, down: bool)
    requires Enabled(w, SwapRow(c, down)) && !LosesRace(w, SwapRow(c, down), c)
    ensures var v, call := Step(w, SwapRow(c, down)), w.calls[c];
      v.calls == w.calls[c := Dropping(
        if call.newCover == None then [] else if down then [call.newCover.value] else call.snap.cover)]
  {
  }

  lemma ForwardCostsNothing(w: World, a: Action, c: CallId)
    requires Enabled(w, a) && c in w.calls && IsEdit(w.calls[c])
    requires a == FetchActivity(c) || a == PickCover(c, true) || a == LinkCover(c, false)
    ensures EditAfter(w, Step(w, a), c, 0)
  {
  }
}
