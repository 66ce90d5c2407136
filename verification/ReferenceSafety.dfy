/** What runs of the reference protocol keep: every count is exactly the references that exist, the
    links in flight and what faults have leaked, so nothing referenced is reclaimed. The one step
    that can break it is a delete transaction whose list is out of date by the time of its DELETE. */
module ReferenceSafety {
  import opened Wrappers
  import opened InodeTable
  import opened Tally
  import opened ReferenceProtocol

  /** The snapshot an edit carries, if it carries one. */
  function SnapOf(call: Call): Option<(nat, Snapshot)> {
    match call
    case PickingCover(edit, _, snap) => Some((edit.activity, snap))
    case LinkingCover(edit, _, snap, _) => Some((edit.activity, snap))
    case Swapping(edit, _, snap, _) => Some((edit.activity, snap))
    case _ => None
  }

  /** A snapshot whose version is still the row's version still shows the row's cover. */
  ghost predicate Current(w: World, activity: nat, snap: Snapshot) {
    && activity in w.versions && Cover(activity) in w.rows
    && snap.version <= w.versions[activity]
    && (snap.version == w.versions[activity] ==> snap.cover == w.rows[Cover(activity)])
  }

  ghost predicate SnapshotsCurrent(w: World) {
    && (forall a :: Cover(a) in w.rows <==> a in w.versions)
    && (forall c :: c in w.calls && SnapOf(w.calls[c]).Some? ==>
          Current(w, SnapOf(w.calls[c]).value.0, SnapOf(w.calls[c]).value.1))
  }

  /** Every count is what it is owed. */
  ghost predicate InBalance(w: World) {
    Balanced(w.table, Owed(w))
  }

  ghost predicate Inv(w: World) {
    InBalance(w) && SnapshotsCurrent(w)
  }

  predicate IsEdit(a: Action) {
    a.StartEdit? || a.FetchActivity? || a.PickCover? || a.LinkCover? || a.SwapRow? || a.UndoCover?
  }

  // ---- How one call's step changes what is owed --------------------------------------

  // The call's own links are the only ones that change when it moves on.
  lemma MovedOwes(w: World, c: CallId, call: Call, minus: multiset<InodeId>, plus: multiset<InodeId>)
    requires CallHolds(call) + minus == (if c in w.calls then CallHolds(w.calls[c]) else multiset{}) + plus
    ensures Owed(Moved(w, c, call)) + minus == Owed(w) + plus
  {
    var before, after := Sum(w.calls, CallHolds), Sum(w.calls[c := call], CallHolds);
    var gone := if c in w.calls then CallHolds(w.calls[c]) else multiset{};
    if c in w.calls {
      SumReplace(w.calls, CallHolds, c, call);
    } else {
      SumInsert(w.calls, CallHolds, c, call);
    }
    Settle(after, before, gone, CallHolds(call), minus, plus);
    Shift(References(w), before, after, minus, plus);
    Shift(w.leaked, Held(w), Held(Moved(w, c, call)), minus, plus);
  }

  lemma EndedOwes(w: World, c: CallId)
    requires c in w.calls
    ensures Owed(Ended(w, c)) + CallHolds(w.calls[c]) == Owed(w)
  {
    SumRemove(w.calls, CallHolds, c);
    Shift(References(w), Sum(w.calls, CallHolds), Sum(w.calls - {c}, CallHolds), CallHolds(w.calls[c]), multiset{});
    Shift(w.leaked, Held(w), Held(Ended(w, c)), CallHolds(w.calls[c]), multiset{});
  }

  // A change of the rows alone: the old files stop being held by them, the new ones start.
  lemma RowsOwe(w: World, v: World, gone: multiset<InodeId>, come: multiset<InodeId>)
    requires v.receipts == w.receipts && v.calls == w.calls && v.leaked == w.leaked
    requires Sum(v.rows, RowHolds) + gone == Sum(w.rows, RowHolds) + come
    ensures Owed(v) + gone == Owed(w) + come
  {
    var receipts, calls := Sum(w.receipts, ReceiptHolds), Sum(w.calls, CallHolds);
    Shift(receipts, Sum(w.rows, RowHolds), Sum(v.rows, RowHolds), gone, come);
    Shift(calls, References(w), References(v), gone, come);
    Shift(w.leaked, Held(w), Held(v), gone, come);
  }

  lemma ReceiptsOwe(w: World, receipts: map<UploadId, Receipt>, gone: multiset<InodeId>, come: multiset<InodeId>)
    requires Sum(receipts, ReceiptHolds) + gone == Sum(w.receipts, ReceiptHolds) + come
    ensures Owed(w.(receipts := receipts)) + gone == Owed(w) + come
  {
    var v := w.(receipts := receipts);
    Shift(Sum(w.rows, RowHolds), Sum(w.receipts, ReceiptHolds), Sum(receipts, ReceiptHolds), gone, come);
    Shift(Sum(w.calls, CallHolds), References(w), References(v), gone, come);
    Shift(w.leaked, Held(w), Held(v), gone, come);
  }

  lemma LeakOwes(w: World, more: multiset<InodeId>)
    ensures Owed(w.(leaked := w.leaked + more)) == Owed(w) + more
  {
  }

  lemma RowReplaced(rows: map<RowKey, seq<InodeId>>, key: RowKey, files: seq<InodeId>)
    ensures Sum(rows[key := files], RowHolds) + multiset(if key in rows then rows[key] else [])
         == Sum(rows, RowHolds) + multiset(files)
  {
    if key in rows {
      SumReplace(rows, RowHolds, key, files);
    } else {
      SumInsert(rows, RowHolds, key, files);
    }
  }

  // ---- Each kind of step keeps the count balanced --------------------------------------

  lemma ClaimStep(w: World, c: CallId, uploader: UserId, upload: UploadId, newId: InodeId)
    requires InBalance(w) && c in w.calls && w.calls[c].Copied? && upload !in w.receipts && newId !in w.table
    ensures InBalance(Claimed(w, c, w.calls[c].hash, uploader, upload, newId))
  {
    var hash := w.calls[c].hash;
    var id := ClaimedId(w.table, hash, newId);
    var middle := w.(receipts := w.receipts[upload := Receipt(id, uploader)]);
    var after := Claimed(w, c, hash, uploader, upload, newId);
    SumInsert(w.receipts, ReceiptHolds, upload, Receipt(id, uploader));
    ReceiptsOwe(w, middle.receipts, multiset{}, multiset{id});
    EndedOwes(middle, c);
    assert Owed(after) == Owed(Ended(middle, c));
    Cancel(Owed(after), Owed(middle), multiset{});
    Cancel(Owed(after), Owed(w) + multiset{id}, multiset{});
    ClaimBalances(w.table, Owed(w), hash, newId);
  }

  lemma ExpireStep(w: World, expired: set<UploadId>)
    requires InBalance(w) && expired <= w.receipts.Keys
    ensures InBalance(Expired(w, expired))
  {
    var dropped := Sum(Only(w.receipts, expired), ReceiptHolds);
    var after := Expired(w, expired);
    SumSplit(w.receipts, ReceiptHolds, expired);
    assert Sum(after.receipts, ReceiptHolds) + dropped == Sum(w.receipts, ReceiptHolds) + multiset{};
    ReceiptsOwe(w, after.receipts, dropped, multiset{});
    assert Owed(after) == Owed(w.(receipts := after.receipts));
    Withdraw(Owed(after), Owed(w), dropped);
    DropAllBalances(w.table, Owed(w), dropped);
  }

  lemma LinkStep(w: World, c: CallId, id: InodeId, next: Call)
    requires InBalance(w) && c in w.calls && Linkable(w.table, id)
    requires CallHolds(next) == CallHolds(w.calls[c]) + multiset{id}
    ensures InBalance(Moved(w.(table := Link(w.table, id)), c, next))
  {
    LinkBalances(w.table, Owed(w), id);
    MovedOwes(w, c, next, multiset{}, multiset{id});
    assert Owed(Moved(w.(table := Link(w.table, id)), c, next)) == Owed(Moved(w, c, next));
  }

  lemma UnlinkFails(w: World, c: CallId, id: InodeId, next: Call)
    requires InBalance(w) && c in w.calls
    requires Owed(Moved(w, c, next)) + multiset{id} == Owed(w)
    ensures InBalance(Moved(Unlinked(w, id, true), c, next))
  {
    LeakOwes(Moved(w, c, next), multiset{id});
    assert Moved(Unlinked(w, id, true), c, next) == Moved(w, c, next).(leaked := w.leaked + multiset{id});
  }

  lemma UnlinkStep(w: World, c: CallId, id: InodeId, next: Call, down: bool)
    requires InBalance(w) && c in w.calls
    requires CallHolds(w.calls[c]) == CallHolds(next) + multiset{id}
    ensures InBalance(Moved(Unlinked(w, id, down), c, next))
    ensures !down ==> Unlinkable(w.table, id)
  {
    MovedOwes(w, c, next, multiset{id}, multiset{});
    var owed, owed' := Owed(w), Owed(Moved(w, c, next));
    assert owed' + multiset{id} == owed && owed' == owed - multiset{id} && id in owed;
    if down {
      UnlinkFails(w, c, id, next);
    } else {
      UnlinkBalances(w.table, owed, id);
      assert Owed(Moved(Unlinked(w, id, down), c, next)) == owed';
    }
  }

  // A call that only changes its own entry, with the same links in hand.
  lemma QuietMove(w: World, c: CallId, call: Call)
    requires InBalance(w)
    requires CallHolds(call) == if c in w.calls then CallHolds(w.calls[c]) else multiset{}
    ensures InBalance(Moved(w, c, call))
  {
    MovedOwes(w, c, call, multiset{}, multiset{});
    Cancel(Owed(Moved(w, c, call)), Owed(w), multiset{});
  }

  lemma QuietEnd(w: World, c: CallId)
    requires InBalance(w) && c in w.calls && CallHolds(w.calls[c]) == multiset{}
    ensures InBalance(Ended(w, c))
  {
    EndedOwes(w, c);
    Cancel(Owed(Ended(w, c)), Owed(w), multiset{});
  }

  lemma CrashStep(w: World, c: CallId)
    requires InBalance(w) && c in w.calls
    ensures InBalance(Ended(w.(leaked := w.leaked + CallHolds(w.calls[c])), c))
  {
    EndedOwes(w, c);
    LeakOwes(Ended(w, c), CallHolds(w.calls[c]));
    var crashed := Ended(w.(leaked := w.leaked + CallHolds(w.calls[c])), c);
    assert crashed == Ended(w, c).(leaked := w.leaked + CallHolds(w.calls[c]));
  }

  // Files pass between a call and a row: what the one gains the other gives up.
  lemma HandOver(w: World, v: World, c: CallId, next: Call, toRow: multiset<InodeId>, fromRow: multiset<InodeId>)
    requires InBalance(w)
    requires v.table == w.table && v.receipts == w.receipts && v.calls == w.calls && v.leaked == w.leaked
    requires Sum(v.rows, RowHolds) + fromRow == Sum(w.rows, RowHolds) + toRow
    requires (if c in w.calls then CallHolds(w.calls[c]) else multiset{}) == toRow && CallHolds(next) == fromRow
    ensures InBalance(Moved(v, c, next))
  {
    RowsOwe(w, v, fromRow, toRow);
    MovedOwes(v, c, next, toRow, fromRow);
    Exchange(Owed(Moved(v, c, next)), Owed(v), Owed(w), toRow, fromRow);
  }

  // ---- The steps of the machine, one by one ----------------------------------------------

  lemma TakesOne(call: Call)
    requires call.Linking? && call.done < |call.files|
    ensures CallHolds(call.(done := call.done + 1)) == CallHolds(call) + multiset{call.files[call.done]}
    ensures CallHolds(Dropping(call.files[..call.done])) == CallHolds(call)
  {
    assert call.files[..call.done + 1] == call.files[..call.done] + [call.files[call.done]];
  }

  lemma DropsOne(drops: seq<InodeId>)
    requires drops != []
    ensures CallHolds(Dropping(drops)) == CallHolds(Dropping(drops[1..])) + multiset{drops[0]}
  {
    assert drops == [drops[0]] + drops[1..];
  }

  lemma CopyStep(w: World, c: CallId, hash: Hash)
    requires InBalance(w) && c !in w.calls
    ensures InBalance(Step(w, CopyBytes(c, hash)))
  {
    var next := w.(objects := w.objects + {hash});
    assert Owed(next) == Owed(w);
    QuietMove(next, c, Copied(hash));
  }

  lemma ResolveStep(w: World, c: CallId)
    requires InBalance(w) && c in w.calls && w.calls[c].Resolving? && w.calls[c].todo != []
    ensures InBalance(Resolved(w, c, w.calls[c]))
  {
    var call := w.calls[c];
    if Owned(w, call.todo[0], call.actor) {
      QuietMove(w, c, call.(todo := call.todo[1..], files := call.files + [w.receipts[call.todo[0]].inode]));
    } else {
      QuietEnd(w, c);
    }
  }

  lemma LinkNextStep(w: World, c: CallId, down: bool)
    requires InBalance(w) && c in w.calls && w.calls[c].Linking? && w.calls[c].done < |w.calls[c].files|
    ensures InBalance(LinkedNext(w, c, w.calls[c], down))
  {
    var call := w.calls[c];
    TakesOne(call);
    if !down && Linkable(w.table, call.files[call.done]) {
      LinkStep(w, c, call.files[call.done], call.(done := call.done + 1));
    } else {
      QuietMove(w, c, Dropping(call.files[..call.done]));
    }
  }

  lemma CoverLinkStep(w: World, c: CallId, down: bool)
    requires InBalance(w) && c in w.calls && w.calls[c].LinkingCover?
    ensures InBalance(CoverLinked(w, c, w.calls[c], down))
  {
    var call := w.calls[c];
    if !down && Linkable(w.table, call.picked) {
      LinkStep(w, c, call.picked, Swapping(call.edit, call.tries, call.snap, Some(call.picked)));
    } else {
      QuietEnd(w, c);
    }
  }

  lemma WriteRefused(w: World, c: CallId)
    requires InBalance(w) && c in w.calls && w.calls[c].Linking? && w.calls[c].done == |w.calls[c].files|
    ensures InBalance(Moved(w, c, Dropping(w.calls[c].files)))
  {
    assert w.calls[c].files[..w.calls[c].done] == w.calls[c].files;
    QuietMove(w, c, Dropping(w.calls[c].files));
  }

  lemma WriteLands(w: World, c: CallId, key: RowKey, files: seq<InodeId>, versions: map<nat, nat>)
    requires InBalance(w) && c in w.calls && CallHolds(w.calls[c]) == multiset(files)
    ensures var replaced := if key in w.rows then w.rows[key] else [];
      InBalance(Moved(w.(rows := w.rows[key := files], versions := versions), c, Dropping(replaced)))
  {
    var replaced := if key in w.rows then w.rows[key] else [];
    RowReplaced(w.rows, key, files);
    HandOver(w, w.(rows := w.rows[key := files], versions := versions), c, Dropping(replaced), multiset(files), multiset(replaced));
  }

  lemma WriteStep(w: World, c: CallId, refused: bool)
    requires InBalance(w) && c in w.calls && w.calls[c].Linking? && w.calls[c].done == |w.calls[c].files|
    ensures InBalance(Written(w, c, w.calls[c], refused))
  {
    var call := w.calls[c];
    assert call.files[..call.done] == call.files;
    if refused || !Writable(w, call.target) {
      WriteRefused(w, c);
    } else {
      WriteLands(w, c, call.target, call.files,
                 if call.target.Cover? then w.versions[call.target.activity := 0] else w.versions);
    }
  }

  lemma DetachStep(w: World, c: CallId, key: RowKey)
    requires InBalance(w) && c !in w.calls && key in w.rows
    ensures InBalance(Moved(w.(rows := w.rows - {key}), c, Dropping(w.rows[key])))
  {
    var files := multiset(w.rows[key]);
    SumRemove(w.rows, RowHolds, key);
    Swap(Sum(w.rows, RowHolds), files, Sum(w.rows - {key}, RowHolds));
    HandOver(w, w.(rows := w.rows - {key}), c, Dropping(w.rows[key]), multiset{}, files);
  }

  // The DELETE trades what the rows held for what was listed.
  lemma DeleteTrades(w: World, c: CallId)
    requires c in w.calls && w.calls[c].Collected? && DeleteMatches(w, w.calls[c].scope)
    ensures Owed(Deleted(w, c, w.calls[c], false)) + FilesOf(w, w.calls[c].scope) == Owed(w) + multiset(w.calls[c].list)
  {
    var call, gone, files := w.calls[c], Doomed(w, w.calls[c].scope), FilesOf(w, w.calls[c].scope);
    var v := Deleted(w, c, call, false).(calls := w.calls);
    SumSplit(w.rows, RowHolds, gone);
    Swap(Sum(w.rows, RowHolds), files, Sum(w.rows - gone, RowHolds));
    RowsOwe(w, v, files, multiset{});
    MovedOwes(v, c, Dropping(call.list), multiset{}, multiset(call.list));
    assert Moved(v, c, Dropping(call.list)) == Deleted(w, c, call, false);
    Chain(Owed(Deleted(w, c, call, false)), Owed(v), Owed(w), files, multiset(call.list));
  }

  lemma Chain(after: multiset<InodeId>, middle: multiset<InodeId>, before: multiset<InodeId>, gone: multiset<InodeId>, come: multiset<InodeId>)
    requires after + multiset{} == middle + come && middle + gone == before + multiset{}
    ensures after + gone == before + come
  {
    forall i: InodeId ensures (after + gone)[i] == (before + come)[i] {
      assert (after + multiset{})[i] == (middle + come)[i];
      assert (middle + gone)[i] == (before + multiset{})[i];
    }
  }

  /** A delete transaction goes through with a list that is still what the rows hold. */
  ghost predicate ListIsCurrent(w: World, a: Action)
    requires Enabled(w, a)
  {
    a.DeleteRows? && !a.down && DeleteMatches(w, w.calls[a.c].scope) ==>
      multiset(w.calls[a.c].list) == FilesOf(w, w.calls[a.c].scope)
  }

  // Against one table, an exchange of what is owed keeps the law only if nothing changes.
  lemma ExchangeIsFixed(t: Table, before: multiset<InodeId>, after: multiset<InodeId>, gone: multiset<InodeId>, come: multiset<InodeId>)
    requires Balanced(t, before) && after + gone == before + come
    ensures Balanced(t, after) <==> gone == come
  {
    if gone == come {
      Cancel(after, before, gone);
    } else if Balanced(t, after) {
      OwedIsFixed(t, before, after);
      assert gone + before == before + gone && come + before == before + come;
      Cancel(gone, come, before);
    }
  }

  /** The DELETE keeps the law if and only if the list is still current. */
  lemma DeleteStepIff(w: World, a: Action)
    requires InBalance(w) && Enabled(w, a) && a.DeleteRows?
    ensures InBalance(Step(w, a)) <==> ListIsCurrent(w, a)
  {
    var call := w.calls[a.c];
    if a.down || !DeleteMatches(w, call.scope) {
      QuietEnd(w, a.c);
    } else {
      DeleteTrades(w, a.c);
      ExchangeIsFixed(w.table, Owed(w), Owed(Deleted(w, a.c, call, false)), FilesOf(w, call.scope), multiset(call.list));
    }
  }

  lemma TurnInStep(w: World, draft: RowKey)
    requires InBalance(w) && draft.Draft? && draft in w.rows
    ensures InBalance(Step(w, TurnIn(draft)))
  {
    assert Owed(Step(w, TurnIn(draft))) == Owed(w);
  }

  lemma CreateStep(w: World, assignment: nat)
    requires InBalance(w) && assignment !in w.assignments
    ensures InBalance(Step(w, CreateAssignment(assignment)))
  {
    assert Owed(Step(w, CreateAssignment(assignment))) == Owed(w);
  }

  lemma FetchStep(w: World, c: CallId)
    requires InBalance(w) && c in w.calls && w.calls[c].Fetching?
    ensures InBalance(Fetched(w, c, w.calls[c]))
  {
    var call := w.calls[c];
    if call.edit.activity !in w.versions || Cover(call.edit.activity) !in w.rows {
      QuietEnd(w, c);
    } else {
      var snap := Snapshot(w.versions[call.edit.activity], w.rows[Cover(call.edit.activity)]);
      if call.edit.cover.Some? {
        QuietMove(w, c, PickingCover(call.edit, call.tries, snap));
      } else {
        QuietMove(w, c, Swapping(call.edit, call.tries, snap, None));
      }
    }
  }

  lemma PickStep(w: World, c: CallId, isImage: bool)
    requires InBalance(w) && c in w.calls && w.calls[c].PickingCover? && w.calls[c].edit.cover.Some?
    ensures InBalance(Picked(w, c, w.calls[c], isImage))
  {
    var call := w.calls[c];
    if isImage && Owned(w, call.edit.cover.value, call.edit.actor) {
      QuietMove(w, c, LinkingCover(call.edit, call.tries, call.snap, w.receipts[call.edit.cover.value].inode));
    } else {
      QuietEnd(w, c);
    }
  }

  // The swap moves the new cover from the call to the row and the old one from the row to the
  // call. That the old one is what the row really had is the requirement on shown.
  lemma SwapWins(w: World, c: CallId, shown: seq<InodeId>, newCover: Option<InodeId>, a: nat, versions: map<nat, nat>)
    requires InBalance(w) && c in w.calls && CallHolds(w.calls[c]) == multiset(OptionSeq(newCover))
    requires Cover(a) in w.rows && w.rows[Cover(a)] == shown
    ensures newCover.Some? ==>
      InBalance(Moved(w.(rows := w.rows[Cover(a) := [newCover.value]], versions := versions), c, Dropping(shown)))
    ensures newCover.None? ==>
      InBalance(Moved(w.(rows := w.rows[Cover(a) := shown], versions := versions), c, Dropping([])))
  {
    if newCover.Some? {
      var files := [newCover.value];
      RowReplaced(w.rows, Cover(a), files);
      HandOver(w, w.(rows := w.rows[Cover(a) := files], versions := versions), c, Dropping(shown), multiset(files), multiset(shown));
    } else {
      assert w.rows[Cover(a) := shown] == w.rows;
      HandOver(w, w.(rows := w.rows[Cover(a) := shown], versions := versions), c, Dropping([]), multiset{}, multiset{});
    }
  }

  lemma LostRaceHolds(call: Call)
    requires call.Swapping?
    ensures CallHolds(LostRace(call)) == CallHolds(call) == CallHolds(Dropping(OptionSeq(call.newCover)))
  {
  }

  lemma SwapLoses(w: World, c: CallId, down: bool)
    requires InBalance(w) && c in w.calls && w.calls[c].Swapping?
    requires w.calls[c].edit.activity in w.versions
    requires down || w.versions[w.calls[c].edit.activity] != w.calls[c].snap.version
    ensures InBalance(Swapped(w, c, w.calls[c], down))
  {
    LostRaceHolds(w.calls[c]);
    if down {
      QuietMove(w, c, Dropping(OptionSeq(w.calls[c].newCover)));
    } else {
      assert Swapped(w, c, w.calls[c], false) == Moved(w, c, LostRace(w.calls[c]));
      QuietMove(w, c, LostRace(w.calls[c]));
    }
  }

  lemma SwapStep(w: World, c: CallId, down: bool)
    requires InBalance(w) && c in w.calls && w.calls[c].Swapping?
    requires Current(w, w.calls[c].edit.activity, w.calls[c].snap)
    ensures InBalance(Swapped(w, c, w.calls[c], down))
  {
    var call := w.calls[c];
    var a := call.edit.activity;
    if down || w.versions[a] != call.snap.version {
      SwapLoses(w, c, down);
    } else {
      SwapWins(w, c, call.snap.cover, call.newCover, a, w.versions[a := w.versions[a] + 1]);
    }
  }

  lemma DropStep(w: World, c: CallId, down: bool)
    requires InBalance(w) && c in w.calls && w.calls[c].Dropping? && w.calls[c].drops != []
    ensures InBalance(Moved(Unlinked(w, w.calls[c].drops[0], down), c, Dropping(w.calls[c].drops[1..])))
  {
    var drops := w.calls[c].drops;
    DropsOne(drops);
    UnlinkStep(w, c, drops[0], Dropping(drops[1..]), down);
  }

  lemma UndoStep(w: World, c: CallId, down: bool)
    requires InBalance(w) && c in w.calls && w.calls[c].Undoing?
    ensures InBalance(Moved(Unlinked(w, w.calls[c].lost, down), c, Retry(w.calls[c].edit, w.calls[c].tries)))
  {
    UnlinkStep(w, c, w.calls[c].lost, Retry(w.calls[c].edit, w.calls[c].tries), down);
  }

  lemma ReclaimInBalance(w: World, id: InodeId)
    requires InBalance(w)
    ensures InBalance(w.(table := Reclaim(w.table, id, id in References(w))))
  {
    assert References(w) <= Held(w) <= Owed(w);
    ReclaimBalances(w.table, Owed(w), id, id in References(w));
    assert Owed(w.(table := Reclaim(w.table, id, id in References(w)))) == Owed(w);
  }

  lemma SweepStep(w: World, c: CallId, id: InodeId)
    requires InBalance(w) && c !in w.calls
    ensures InBalance(Swept(w, c, id))
  {
    var next := w.(table := Reclaim(w.table, id, id in References(w)));
    ReclaimInBalance(w, id);
    if Reclaims(w.table, id, id in References(w)) {
      QuietMove(next, c, Removing(w.table[id].hash));
    }
  }

  lemma RemoveStep(w: World, c: CallId)
    requires InBalance(w) && c in w.calls && w.calls[c].Removing?
    ensures InBalance(Ended(w.(objects := w.objects - {w.calls[c].hash}), c))
  {
    var next := w.(objects := w.objects - {w.calls[c].hash});
    assert Owed(next) == Owed(w);
    QuietEnd(next, c);
  }

  lemma EditInBalance(w: World, a: Action)
    requires Enabled(w, a) && InBalance(w) && IsEdit(a)
    requires a.SwapRow? ==> Current(w, w.calls[a.c].edit.activity, w.calls[a.c].snap)
    ensures InBalance(Step(w, a))
  {
    match a
    case StartEdit(c, edit) => QuietMove(w, c, Fetching(edit, 0));
    case FetchActivity(c) => FetchStep(w, c);
    case PickCover(c, isImage) => PickStep(w, c, isImage);
    case LinkCover(c, down) => CoverLinkStep(w, c, down);
    case SwapRow(c, down) => SwapStep(w, c, down);
    case UndoCover(c, down) => UndoStep(w, c, down);
  }

  lemma PlainInBalance(w: World, a: Action)
    requires Enabled(w, a) && InBalance(w) && !IsEdit(a) && !a.DeleteRows?
    ensures InBalance(Step(w, a))
  {
    match a
    case CopyBytes(c, hash) => CopyStep(w, c, hash);
    case ClaimUpload(c, uploader, upload, newId) => ClaimStep(w, c, uploader, upload, newId);
    case Expire(expired) => ExpireStep(w, expired);
    case Refer(c, target, actor, uploads) => QuietMove(w, c, Resolving(target, actor, uploads, []));
    case ResolveNext(c) => ResolveStep(w, c);
    case BeginLinking(c) => QuietMove(w, c, Linking(w.calls[c].target, w.calls[c].files, 0));
    case LinkNext(c, down) => LinkNextStep(w, c, down);
    case WriteRow(c, refused) => WriteStep(w, c, refused);
    case CreateAssignment(assignment) => CreateStep(w, assignment);
    case Detach(c, key) => DetachStep(w, c, key);
    case CollectRows(c, scope, list) => QuietMove(w, c, Collected(scope, list));
    case TurnIn(draft) => TurnInStep(w, draft);
    case DropNext(c, down) => DropStep(w, c, down);
    case SweepOne(c, id) => SweepStep(w, c, id);
    case RemoveBytes(c) => RemoveStep(w, c);
    case Return(c) => QuietEnd(w, c);
    case Crash(c) => CrashStep(w, c);
  }

  /** Every step of every use case, edits included: the law holds afterwards if and only if the step
      is not a DELETE with a list that is out of date. */
  lemma StepInBalance(w: World, a: Action)
    requires Enabled(w, a) && InBalance(w) && SnapshotsCurrent(w)
    ensures InBalance(Step(w, a)) <==> ListIsCurrent(w, a)
  {
    if IsEdit(a) {
      assert a.SwapRow? ==> SnapOf(w.calls[a.c]).Some?;
      EditInBalance(w, a);
    } else if a.DeleteRows? {
      DeleteStepIff(w, a);
    } else {
      PlainInBalance(w, a);
    }
  }

  // ---- Snapshots ---------------------------------------------------------------------------

  lemma SnapshotMove(w: World, c: CallId, call: Call)
    requires SnapshotsCurrent(w)
    requires SnapOf(call).Some? ==> Current(w, SnapOf(call).value.0, SnapOf(call).value.1)
    ensures SnapshotsCurrent(Moved(w, c, call))
    ensures SnapshotsCurrent(Ended(w, c))
  {
  }

  // Rows that are no covers may change at will.
  lemma SnapshotRows(w: World, rows: map<RowKey, seq<InodeId>>, assignments: set<nat>, frozen: set<RowKey>)
    requires SnapshotsCurrent(w)
    requires forall a :: Cover(a) in rows <==> Cover(a) in w.rows
    requires forall a :: Cover(a) in rows ==> rows[Cover(a)] == w.rows[Cover(a)]
    ensures SnapshotsCurrent(w.(rows := rows, assignments := assignments, frozen := frozen))
  {
  }

  // A cover may change with its version: every snapshot of it is then out of date.
  lemma SnapshotBump(w: World, a: nat, files: seq<InodeId>, version: nat)
    requires SnapshotsCurrent(w)
    requires a in w.versions ==> version > w.versions[a]
    ensures SnapshotsCurrent(w.(rows := w.rows[Cover(a) := files], versions := w.versions[a := version]))
  {
  }

  lemma WriteSnapshots(w: World, c: CallId, refused: bool)
    requires SnapshotsCurrent(w) && c in w.calls && w.calls[c].Linking?
    ensures SnapshotsCurrent(Written(w, c, w.calls[c], refused))
  {
    var call := w.calls[c];
    if refused || !Writable(w, call.target) {
      SnapshotMove(w, c, Dropping(call.files));
    } else {
      var next := w.(rows := w.rows[call.target := call.files]);
      if call.target.Cover? {
        SnapshotBump(w, call.target.activity, call.files, 0);
        next := next.(versions := w.versions[call.target.activity := 0]);
      } else {
        SnapshotRows(w, next.rows, w.assignments, w.frozen);
      }
      SnapshotMove(next, c, Written(w, c, call, refused).calls[c]);
    }
  }

  lemma SwapSnapshots(w: World, c: CallId, down: bool)
    requires SnapshotsCurrent(w) && c in w.calls && w.calls[c].Swapping? && w.calls[c].edit.activity in w.versions
    ensures SnapshotsCurrent(Swapped(w, c, w.calls[c], down))
  {
    var call := w.calls[c];
    var a := call.edit.activity;
    if down {
      SnapshotMove(w, c, Dropping(OptionSeq(call.newCover)));
    } else if w.versions[a] != call.snap.version {
      SnapshotMove(w, c, LostRace(call));
    } else {
      var files := if call.newCover.Some? then [call.newCover.value] else call.snap.cover;
      SnapshotBump(w, a, files, w.versions[a] + 1);
      SnapshotMove(w.(rows := w.rows[Cover(a) := files], versions := w.versions[a := w.versions[a] + 1]), c,
                   Dropping(if call.newCover.Some? then call.snap.cover else []));
    }
  }

  lemma DetachSnapshots(w: World, c: CallId, key: RowKey)
    requires SnapshotsCurrent(w) && Enabled(w, Detach(c, key))
    ensures SnapshotsCurrent(Step(w, Detach(c, key)))
  {
    SnapshotRows(w, w.rows - {key}, w.assignments, w.frozen);
    SnapshotMove(w.(rows := w.rows - {key}), c, Dropping(w.rows[key]));
  }

  lemma DeleteSnapshots(w: World, c: CallId, down: bool)
    requires SnapshotsCurrent(w) && c in w.calls && w.calls[c].Collected?
    ensures SnapshotsCurrent(Deleted(w, c, w.calls[c], down))
  {
    var call := w.calls[c];
    if down || !DeleteMatches(w, call.scope) {
      SnapshotMove(w, c, Dropping([]));
    } else {
      var v := Deleted(w, c, call, down).(calls := w.calls);
      SnapshotRows(w, v.rows, v.assignments, v.frozen);
      SnapshotMove(v, c, Dropping(call.list));
      assert Moved(v, c, Dropping(call.list)) == Deleted(w, c, call, down);
    }
  }

  lemma EditSnapshots(w: World, a: Action)
    requires Enabled(w, a) && SnapshotsCurrent(w)
    requires a.FetchActivity? || a.PickCover? || a.LinkCover?
    ensures SnapshotsCurrent(Step(w, a))
  {
    assert SnapOf(w.calls[a.c]).Some? ==>
      Current(w, SnapOf(w.calls[a.c]).value.0, SnapOf(w.calls[a.c]).value.1);
  }

  lemma ClientSnapshots(w: World, a: Action)
    requires Enabled(w, a) && SnapshotsCurrent(w)
    requires a.Refer? || a.ResolveNext? || a.BeginLinking? || a.CollectRows?
    ensures SnapshotsCurrent(Step(w, a))
  {
    if a.ResolveNext? {
      SnapshotMove(w, a.c, Dropping([]));
    }
  }

  lemma LinkingSnapshots(w: World, a: Action)
    requires Enabled(w, a) && SnapshotsCurrent(w)
    requires a.LinkNext? || a.StartEdit?
    ensures SnapshotsCurrent(Step(w, a))
  {
  }

  lemma JanitorSnapshots(w: World, a: Action)
    requires Enabled(w, a) && SnapshotsCurrent(w)
    requires a.ClaimUpload? || a.Expire? || a.TurnIn? || a.CreateAssignment?
    ensures SnapshotsCurrent(Step(w, a))
  {
  }

  // Snapshots speak of rows, versions and calls only.
  lemma SnapshotFrame(w: World, v: World)
    requires SnapshotsCurrent(w) && v.rows == w.rows && v.versions == w.versions && v.calls == w.calls
    ensures SnapshotsCurrent(v)
  {
  }

  lemma CopySnapshots(w: World, c: CallId, hash: Hash)
    requires SnapshotsCurrent(w)
    ensures SnapshotsCurrent(Step(w.(calls := w.calls - {c}), CopyBytes(c, hash)))
  {
    SnapshotMove(w, c, Dropping([]));
    var v := w.(calls := w.calls - {c});
    SnapshotFrame(v, v.(objects := w.objects + {hash}));
    SnapshotMove(v.(objects := w.objects + {hash}), c, Copied(hash));
  }

  lemma SweepSnapshots(w: World, c: CallId, id: InodeId)
    requires SnapshotsCurrent(w) && c !in w.calls
    ensures SnapshotsCurrent(Swept(w, c, id))
  {
    var referenced := id in References(w);
    var v := w.(table := Reclaim(w.table, id, referenced));
    SnapshotFrame(w, v);
    if Reclaims(w.table, id, referenced) {
      SnapshotMove(v, c, Removing(w.table[id].hash));
    }
  }

  lemma UnlinkSnapshots(w: World, c: CallId, id: InodeId, down: bool, next: Call)
    requires SnapshotsCurrent(w) && SnapOf(next).None?
    ensures SnapshotsCurrent(Moved(Unlinked(w, id, down), c, next))
  {
    SnapshotFrame(w, Unlinked(w, id, down));
    SnapshotMove(Unlinked(w, id, down), c, next);
  }

  lemma EndSnapshots(w: World, v: World, c: CallId)
    requires SnapshotsCurrent(w) && v.rows == w.rows && v.versions == w.versions && v.calls == w.calls
    ensures SnapshotsCurrent(Ended(v, c))
  {
    SnapshotFrame(w, v);
    SnapshotMove(v, c, Dropping([]));
  }

  lemma EndingSnapshots(w: World, a: Action)
    requires Enabled(w, a) && SnapshotsCurrent(w)
    requires a.RemoveBytes? || a.Return? || a.Crash?
    ensures SnapshotsCurrent(Step(w, a))
  {
    if a.RemoveBytes? {
      EndSnapshots(w, w.(objects := w.objects - {w.calls[a.c].hash}), a.c);
    } else if a.Return? {
      EndSnapshots(w, w, a.c);
    } else {
      EndSnapshots(w, w.(leaked := w.leaked + CallHolds(w.calls[a.c])), a.c);
    }
  }

  lemma DroppingSnapshots(w: World, a: Action)
    requires Enabled(w, a) && SnapshotsCurrent(w)
    requires a.DropNext? || a.UndoCover?
    ensures SnapshotsCurrent(Step(w, a))
  {
    if a.DropNext? {
      UnlinkSnapshots(w, a.c, w.calls[a.c].drops[0], a.down, Dropping(w.calls[a.c].drops[1..]));
    } else {
      UnlinkSnapshots(w, a.c, w.calls[a.c].lost, a.down, Retry(w.calls[a.c].edit, w.calls[a.c].tries));
    }
  }

  lemma StepSnapshots(w: World, a: Action)
    requires Enabled(w, a) && SnapshotsCurrent(w)
    ensures SnapshotsCurrent(Step(w, a))
  {
    if a.WriteRow? {
      WriteSnapshots(w, a.c, a.refused);
    } else if a.SwapRow? {
      SwapSnapshots(w, a.c, a.down);
    } else if a.DeleteRows? {
      DeleteSnapshots(w, a.c, a.down);
    } else if a.Detach? {
      DetachSnapshots(w, a.c, a.key);
    } else if a.FetchActivity? || a.PickCover? || a.LinkCover? {
      EditSnapshots(w, a);
    } else if a.Refer? || a.ResolveNext? || a.BeginLinking? || a.CollectRows? {
      ClientSnapshots(w, a);
    } else if a.LinkNext? || a.StartEdit? {
      LinkingSnapshots(w, a);
    } else if a.DropNext? || a.UndoCover? {
      DroppingSnapshots(w, a);
    } else if a.SweepOne? {
      SweepSnapshots(w, a.c, a.id);
    } else if a.CopyBytes? {
      assert w.calls - {a.c} == w.calls;
      CopySnapshots(w, a.c, a.hash);
    } else if a.ClaimUpload? || a.Expire? || a.TurnIn? || a.CreateAssignment? {
      JanitorSnapshots(w, a);
    } else {
      EndingSnapshots(w, a);
    }
  }

  // ---- Every run -----------------------------------------------------------------------------

  lemma StepKeepsInvIff(w: World, a: Action)
    requires Enabled(w, a) && Inv(w)
    ensures Inv(Step(w, a)) <==> ListIsCurrent(w, a)
  {
    StepInBalance(w, a);
    StepSnapshots(w, a);
  }

  ghost predicate LawThroughout(w: World, actions: seq<Action>)
    requires IsRun(w, actions)
    decreases |actions|
  {
    Inv(w) && (actions != [] ==> LawThroughout(Step(w, actions[0]), actions[1..]))
  }

  ghost predicate ListsCurrent(w: World, actions: seq<Action>)
    requires IsRun(w, actions)
    decreases |actions|
  {
    actions != [] ==> ListIsCurrent(w, actions[0]) && ListsCurrent(Step(w, actions[0]), actions[1..])
  }

  /** Through a whole run, whatever interleaves, crashes or fails, the law holds throughout if and
      only if every delete transaction that goes through still has a current list. */
  lemma {:induction false} RunKeepsInvIff(w: World, actions: seq<Action>)
    requires Inv(w) && IsRun(w, actions)
    ensures LawThroughout(w, actions) <==> ListsCurrent(w, actions)
    decreases |actions|
  {
    if actions != [] {
      StepKeepsInvIff(w, actions[0]);
      if Inv(Step(w, actions[0])) {
        RunKeepsInvIff(Step(w, actions[0]), actions[1..]);
      }
    }
  }

  lemma {:induction false} LawAtTheEnd(w: World, actions: seq<Action>)
    requires IsRun(w, actions) && LawThroughout(w, actions)
    ensures Inv(After(w, actions))
    decreases |actions|
  {
    if actions != [] {
      LawAtTheEnd(Step(w, actions[0]), actions[1..]);
    }
  }

  lemma EmptyKeepsInv()
    ensures Inv(EMPTY)
  {
  }

  /** The worlds that the runs with current lists reach from the empty one. */
  ghost predicate Reachable(w: World) {
    exists actions :: IsRun(EMPTY, actions) && ListsCurrent(EMPTY, actions) && After(EMPTY, actions) == w
  }

  lemma ReachableInv(w: World)
    requires Reachable(w)
    ensures Inv(w)
  {
    var actions :| IsRun(EMPTY, actions) && ListsCurrent(EMPTY, actions) && After(EMPTY, actions) == w;
    EmptyKeepsInv();
    RunKeepsInvIff(EMPTY, actions);
    LawAtTheEnd(EMPTY, actions);
  }

  /** In every such world, whatever crashed or failed on the way: each count is the references that
      exist, the links in flight and what was leaked, and an inode that a receipt, a row or a call
      still holds is there and live. */
  lemma CountsCoverReferences(w: World, id: InodeId)
    requires Reachable(w)
    ensures id in w.table ==> w.table[id].linkCount == Held(w)[id] + w.leaked[id]
    ensures id in Held(w) ==> Linkable(w.table, id)
  {
    ReachableInv(w);
  }

  /** No sweep, in any such world, takes an inode that is still held, and the foreign-key veto that
      would bring a referenced inode back never has to fire. */
  lemma HeldIsNeverReclaimed(w: World, id: InodeId)
    requires Reachable(w)
    ensures id in Held(w) ==> !Reclaims(w.table, id, id in References(w))
    ensures id in References(w) ==> !Dead(w.table, id)
  {
    ReachableInv(w);
  }

  /** The two faults that leak a link. */
  predicate IsFault(a: Action) {
    a.Crash? || ((a.DropNext? || a.UndoCover?) && a.down)
  }

  lemma ClientLeaksNothing(w: World, a: Action)
    requires Enabled(w, a)
    requires a.Refer? || a.ResolveNext? || a.BeginLinking? || a.LinkNext?
    ensures Step(w, a).leaked == w.leaked
  {
  }

  lemma RowsLeakNothing(w: World, a: Action)
    requires Enabled(w, a)
    requires a.WriteRow? || a.Detach? || a.CollectRows? || a.DeleteRows? || a.CreateAssignment?
    ensures Step(w, a).leaked == w.leaked
  {
  }

  lemma UploadLeaksNothing(w: World, a: Action)
    requires Enabled(w, a)
    requires a.CopyBytes? || a.ClaimUpload? || a.Expire? || a.TurnIn?
    ensures Step(w, a).leaked == w.leaked
  {
  }

  lemma EditLeaksNothing(w: World, a: Action)
    requires Enabled(w, a)
    requires a.StartEdit? || a.FetchActivity? || a.PickCover? || a.LinkCover? || a.SwapRow?
    ensures Step(w, a).leaked == w.leaked
  {
  }

  lemma EndLeaksNothing(w: World, a: Action)
    requires Enabled(w, a) && !IsFault(a)
    requires a.DropNext? || a.UndoCover? || a.RemoveBytes? || a.Return?
    ensures Step(w, a).leaked == w.leaked
  {
  }

  lemma SweepLeaksNothing(w: World, a: Action)
    requires Enabled(w, a) && a.SweepOne?
    ensures Step(w, a).leaked == w.leaked
  {
  }

  lemma StepLeaksNothing(w: World, a: Action)
    requires Enabled(w, a) && !IsFault(a)
    ensures Step(w, a).leaked == w.leaked
  {
    if a.Refer? || a.ResolveNext? || a.BeginLinking? || a.LinkNext? {
      ClientLeaksNothing(w, a);
    } else if a.WriteRow? || a.Detach? || a.CollectRows? || a.DeleteRows? || a.CreateAssignment? {
      RowsLeakNothing(w, a);
    } else if a.CopyBytes? || a.ClaimUpload? || a.Expire? || a.TurnIn? {
      UploadLeaksNothing(w, a);
    } else if a.DropNext? || a.UndoCover? || a.RemoveBytes? || a.Return? {
      EndLeaksNothing(w, a);
    } else if a.SweepOne? {
      SweepLeaksNothing(w, a);
    } else {
      EditLeaksNothing(w, a);
    }
  }

  /** Without a crash or a failing Unlink nothing is leaked. */
  lemma {:induction false} OnlyFaultsLeak(w: World, actions: seq<Action>)
    requires IsRun(w, actions)
    requires forall k :: 0 <= k < |actions| ==> !IsFault(actions[k])
    ensures After(w, actions).leaked == w.leaked
    decreases |actions|
  {
    if actions != [] {
      StepLeaksNothing(w, actions[0]);
      OnlyFaultsLeak(Step(w, actions[0]), actions[1..]);
    }
  }

  lemma ExactAtRest(w: World, id: InodeId)
    requires InBalance(w) && w.leaked == multiset{} && w.calls == map[] && id in w.table
    ensures w.table[id].linkCount == References(w)[id]
    ensures Dead(w.table, id) <==> id !in References(w)
  {
    assert Sum(w.calls, CallHolds) == multiset{};
    assert Owed(w) == References(w);
  }

  /** Without those faults, once no call is in flight, every count is exactly the number of receipts
      and rows that reference the inode, and exactly the unreferenced inodes await the sweeper. */
  lemma AtRestCountsAreExact(actions: seq<Action>, id: InodeId)
    requires IsRun(EMPTY, actions) && ListsCurrent(EMPTY, actions)
    requires forall k :: 0 <= k < |actions| ==> !IsFault(actions[k])
    requires After(EMPTY, actions).calls == map[] && id in After(EMPTY, actions).table
    ensures var w := After(EMPTY, actions);
      && w.table[id].linkCount == References(w)[id]
      && (Dead(w.table, id) <==> id !in References(w))
  {
    ReachableInv(After(EMPTY, actions));
    OnlyFaultsLeak(EMPTY, actions);
    ExactAtRest(After(EMPTY, actions), id);
  }
}
