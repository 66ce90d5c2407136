/** A delete transaction with an out-of-date list, run step by step: a student discards a draft while
    saving a new version of it. No call crashes and no Unlink fails, yet the old file ends up
    uncounted and the new one counted for nobody. */
module DiscardRace {
  import opened InodeTable
  import opened Tally
  import opened ReferenceProtocol
  import opened ReferenceSafety

  const KEY := Draft(1, 7)
  const UPLOADS: map<UploadId, Receipt> := map[0 := Receipt(0, 7), 1 := Receipt(1, 7)]

  function Inodes(oldCount: nat, newCount: nat): Table {
    map[0 := Inode("old", oldCount, if oldCount == 0 then GC else Live), 1 := Inode("new", newCount, Live)]
  }

  function Desk(oldCount: nat, rows: map<RowKey, seq<InodeId>>, calls: map<CallId, Call>): World {
    World(Inodes(oldCount, 2), {"old", "new"}, UPLOADS, rows, {1}, map[], {}, calls, multiset{})
  }

  const SAVING := Linking(KEY, [1], 1)
  const LISTED := Collected(OneDraft(1, 7), [0])

  // Saving (call 2) has linked the new file; the draft still has the old one.
  const START := Desk(2, map[KEY := [0]], map[2 := SAVING])
  const DISCARDING := Desk(2, map[KEY := [0]], map[2 := SAVING, 3 := LISTED])
  const SAVED := Desk(2, map[KEY := [1]], map[2 := Dropping([0]), 3 := LISTED])
  const REPLACED := Desk(1, map[KEY := [1]], map[2 := Dropping([]), 3 := LISTED])
  const STALE := Desk(1, map[KEY := [1]], map[3 := LISTED])
  const DELETED := Desk(1, map[], map[3 := Dropping([0])])
  const UNLINKED_TWICE := Desk(0, map[], map[3 := Dropping([])])
  const END := Desk(0, map[], map[])

  const RACE: seq<Action> := [
    CollectRows(3, OneDraft(1, 7), [0]), WriteRow(2, false), DropNext(2, false), Return(2),
    DeleteRows(3, false), DropNext(3, false), Return(3)
  ]

  lemma ReceiptsHeld()
    ensures Sum(UPLOADS, ReceiptHolds) == multiset{0, 1}
  {
    SumRemove(UPLOADS, ReceiptHolds, 0);
    SumRemove(UPLOADS - {0}, ReceiptHolds, 1);
    assert UPLOADS - {0} - {1} == map[];
  }

  lemma DraftHeld(files: seq<InodeId>)
    ensures Sum(map[KEY := files], RowHolds) == multiset(files)
  {
    SumRemove(map[KEY := files], RowHolds, KEY);
    assert map[KEY := files] - {KEY} == map[];
  }

  lemma DraftListed(w: World, files: seq<InodeId>)
    requires w.rows == map[KEY := files]
    ensures Doomed(w, OneDraft(1, 7)) == {KEY} && FilesOf(w, OneDraft(1, 7)) == multiset(files)
  {
    assert Doomed(w, OneDraft(1, 7)) == {KEY};
    assert Only(w.rows, {KEY}) == w.rows;
    DraftHeld(files);
  }

  lemma StartOwes()
    ensures Owed(START) == multiset{0, 1, 0, 1}
  {
    ReceiptsHeld();
    DraftHeld([0]);
    SumRemove(START.calls, CallHolds, 2);
    assert START.calls - {2} == map[];
    assert [1][..1] == [1];
  }

  lemma StartBalances()
    ensures Balanced(Inodes(2, 2), multiset{0, 1, 0, 1})
  {
  }

  lemma StartHasNoSnapshots()
    ensures SnapshotsCurrent(START)
  {
  }

  lemma StartKeepsLaw()
    ensures Inv(START)
  {
    StartOwes();
    StartBalances();
    StartHasNoSnapshots();
  }

  lemma DiscardLists()
    ensures Enabled(START, RACE[0]) && Step(START, RACE[0]) == DISCARDING
  {
    DraftListed(START, [0]);
  }

  lemma DraftSaved()
    ensures Enabled(DISCARDING, RACE[1]) && Step(DISCARDING, RACE[1]) == SAVED
  {
    assert Writable(DISCARDING, KEY);
    assert Written(DISCARDING, 2, SAVING, false).calls == SAVED.calls;
  }

  lemma OldFileDropped()
    ensures Enabled(SAVED, RACE[2]) && Step(SAVED, RACE[2]) == REPLACED
    ensures Enabled(REPLACED, RACE[3]) && Step(REPLACED, RACE[3]) == STALE
  {
    assert SAVED.calls[2].drops[1..] == [];
    assert Unlink(SAVED.table, 0) == REPLACED.table;
    assert REPLACED.calls - {2} == STALE.calls;
  }

  lemma DraftDeleted()
    ensures Enabled(STALE, RACE[4]) && Step(STALE, RACE[4]) == DELETED
    ensures !ListIsCurrent(STALE, RACE[4])
  {
    DraftListed(STALE, [1]);
    assert STALE.rows - {KEY} == map[];
    assert multiset([0])[0] == 1 && multiset([1])[0] == 0;
  }

  lemma OldFileDroppedAgain()
    ensures Enabled(DELETED, RACE[5]) && Step(DELETED, RACE[5]) == UNLINKED_TWICE
    ensures Enabled(UNLINKED_TWICE, RACE[6]) && Step(UNLINKED_TWICE, RACE[6]) == END
  {
    assert DELETED.calls[3].drops[1..] == [];
    assert Unlink(DELETED.table, 0) == UNLINKED_TWICE.table;
    assert UNLINKED_TWICE.calls - {3} == map[];
  }

  lemma DiscardFinishes()
    ensures Leads(STALE, RACE[4..], END)
  {
    OldFileDroppedAgain();
    LeadsFrom(UNLINKED_TWICE, RACE, 6, END);
    LeadsFrom(DELETED, RACE, 5, END);
    DraftDeleted();
    LeadsFrom(STALE, RACE, 4, END);
  }

  lemma RaceRuns()
    ensures Leads(START, RACE, END)
  {
    DiscardFinishes();
    OldFileDropped();
    LeadsFrom(REPLACED, RACE, 3, END);
    LeadsFrom(SAVED, RACE, 2, END);
    DraftSaved();
    LeadsFrom(DISCARDING, RACE, 1, END);
    DiscardLists();
    LeadsFrom(START, RACE, 0, END);
    assert RACE[0..] == RACE;
  }

  lemma EndReferences()
    ensures References(END) == multiset{0, 1}
  {
    ReceiptsHeld();
  }

  lemma RaceIsFaultless(k: nat)
    requires k < |RACE|
    ensures !IsFault(RACE[k])
  {
  }

  /** From a world under the law, without a fault, to one at rest where the old file awaits the
      sweeper although its receipt refers to it and the new file is counted once too often. */
  lemma StaleListMiscounts()
    ensures Inv(START) && IsRun(START, RACE) && After(START, RACE) == END
    ensures forall k :: 0 <= k < |RACE| ==> !IsFault(RACE[k])
    ensures END.calls == map[] && END.leaked == multiset{}
    ensures 0 in References(END) && Dead(END.table, 0)
    ensures END.table[1].linkCount == 2 && References(END)[1] == 1
  {
    StartKeepsLaw();
    RaceRuns();
    EndReferences();
    forall k | 0 <= k < |RACE| ensures !IsFault(RACE[k]) {
      RaceIsFaultless(k);
    }
  }
}
