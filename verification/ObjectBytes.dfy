/** The promise that no inode record ever points at missing bytes. The sweeper removes the object
    after it has deleted the row, and an upload claims its row after it has copied the object, so
    the two can cross; the promise holds on exactly the runs where they do not. */
module ObjectBytes {
  import opened InodeTable
  import opened Tally
  import opened ReferenceProtocol

  /** Every row has its bytes. */
  ghost predicate BytesPresent(w: World) {
    forall i :: i in w.table ==> w.table[i].hash in w.objects
  }

  /** The guards that decide it: a removal finds no row of its content, and an upload that claims a
      row still finds the object it has copied. */
  ghost predicate Uncrossed(w: World, a: Action)
    requires Enabled(w, a)
  {
    && (a.RemoveBytes? ==> !Known(w.table, w.calls[a.c].hash))
    && (a.ClaimUpload? ==> w.calls[a.c].hash in w.objects)
  }

  // The table's rows keep their hashes: a step adds at most the row of a claimed content.
  lemma RowsKeepBytes(w: World, next: World)
    requires BytesPresent(w) && w.objects <= next.objects
    requires forall i :: i in next.table ==> i in w.table && next.table[i].hash == w.table[i].hash
    ensures BytesPresent(next)
  {
  }

  lemma ClientKeepsBytes(w: World, a: Action)
    requires Enabled(w, a) && BytesPresent(w)
    requires a.Refer? || a.ResolveNext? || a.BeginLinking? || a.TurnIn? || a.CreateAssignment?
    ensures BytesPresent(Step(w, a))
  {
    RowsKeepBytes(w, Step(w, a));
  }

  lemma DeleteKeepsBytes(w: World, a: Action)
    requires Enabled(w, a) && BytesPresent(w)
    requires a.Detach? || a.CollectRows? || a.DeleteRows?
    ensures BytesPresent(Step(w, a))
  {
    RowsKeepBytes(w, Step(w, a));
  }

  lemma LinkKeepsBytes(w: World, a: Action)
    requires Enabled(w, a) && BytesPresent(w) && a.LinkNext?
    ensures BytesPresent(Step(w, a))
  {
    RowsKeepBytes(w, Step(w, a));
  }

  lemma LinkCoverKeepsBytes(w: World, a: Action)
    requires Enabled(w, a) && BytesPresent(w) && a.LinkCover?
    ensures BytesPresent(Step(w, a))
  {
    RowsKeepBytes(w, Step(w, a));
  }

  lemma DropKeepsBytes(w: World, a: Action)
    requires Enabled(w, a) && BytesPresent(w) && a.DropNext?
    ensures BytesPresent(Step(w, a))
  {
    var middle := Unlinked(w, w.calls[a.c].drops[0], a.down);
    RowsKeepBytes(w, middle);
    RowsKeepBytes(middle, Step(w, a));
  }

  lemma UndoKeepsBytes(w: World, a: Action)
    requires Enabled(w, a) && BytesPresent(w) && a.UndoCover?
    ensures BytesPresent(Step(w, a))
  {
    var middle := Unlinked(w, w.calls[a.c].lost, a.down);
    RowsKeepBytes(w, middle);
    RowsKeepBytes(middle, Step(w, a));
  }

  lemma EditKeepsBytes(w: World, a: Action)
    requires Enabled(w, a) && BytesPresent(w)
    requires a.StartEdit? || a.FetchActivity? || a.PickCover?
    ensures BytesPresent(Step(w, a))
  {
    RowsKeepBytes(w, Step(w, a));
  }

  lemma SwapKeepsBytes(w: World, c: CallId, down: bool)
    requires c in w.calls && BytesPresent(w) && w.calls[c].Swapping? && w.calls[c].edit.activity in w.versions
    ensures BytesPresent(Swapped(w, c, w.calls[c], down))
  {
    RowsKeepBytes(w, Swapped(w, c, w.calls[c], down));
  }

  lemma WriteKeepsBytes(w: World, c: CallId, refused: bool)
    requires c in w.calls && BytesPresent(w) && w.calls[c].Linking?
    ensures BytesPresent(Written(w, c, w.calls[c], refused))
  {
    RowsKeepBytes(w, Written(w, c, w.calls[c], refused));
  }

  lemma JanitorKeepsBytes(w: World, a: Action)
    requires Enabled(w, a) && BytesPresent(w)
    requires a.Expire? || a.Return? || a.Crash?
    ensures BytesPresent(Step(w, a))
  {
    RowsKeepBytes(w, Step(w, a));
  }

  lemma SweepKeepsBytes(w: World, c: CallId, id: InodeId)
    requires c !in w.calls && BytesPresent(w)
    ensures BytesPresent(Swept(w, c, id))
  {
    var next := w.(table := Reclaim(w.table, id, id in References(w)));
    RowsKeepBytes(w, next);
    RowsKeepBytes(next, Swept(w, c, id));
  }

  lemma CopyKeepsBytes(w: World, a: Action)
    requires Enabled(w, a) && BytesPresent(w) && a.CopyBytes?
    ensures BytesPresent(Step(w, a))
  {
    RowsKeepBytes(w, Step(w, a));
  }

  /** A claim keeps the promise exactly when the copied object is still there. */
  lemma ClaimKeepsBytesIff(w: World, a: Action)
    requires Enabled(w, a) && BytesPresent(w) && a.ClaimUpload?
    ensures BytesPresent(Step(w, a)) <==> w.calls[a.c].hash in w.objects
  {
    var v, id := Step(w, a), ClaimedId(w.table, w.calls[a.c].hash, a.newId);
    assert v.table == Claim(w.table, w.calls[a.c].hash, a.newId) && v.objects == w.objects;
    assert id in v.table && v.table[id].hash == w.calls[a.c].hash;
    assert forall i :: i in v.table && i != id ==> i in w.table && v.table[i] == w.table[i];
  }

  /** A removal keeps the promise exactly when no row has its content again. */
  lemma RemovalKeepsBytesIff(w: World, c: CallId)
    requires BytesPresent(w) && c in w.calls && w.calls[c].Removing?
    ensures BytesPresent(Step(w, RemoveBytes(c))) <==> !Known(w.table, w.calls[c].hash)
  {
    assert Step(w, RemoveBytes(c)).table == w.table;
  }

  lemma StepKeepsBytesIff(w: World, a: Action)
    requires Enabled(w, a) && BytesPresent(w)
    ensures BytesPresent(Step(w, a)) <==> Uncrossed(w, a)
  {
    if a.RemoveBytes? {
      RemovalKeepsBytesIff(w, a.c);
    } else if a.ClaimUpload? {
      ClaimKeepsBytesIff(w, a);
    } else if a.CopyBytes? {
      CopyKeepsBytes(w, a);
    } else if a.SweepOne? {
      SweepKeepsBytes(w, a.c, a.id);
    } else if a.Expire? || a.Return? || a.Crash? {
      JanitorKeepsBytes(w, a);
    } else if a.SwapRow? {
      SwapKeepsBytes(w, a.c, a.down);
    } else if a.WriteRow? {
      WriteKeepsBytes(w, a.c, a.refused);
    } else if a.LinkNext? {
      LinkKeepsBytes(w, a);
    } else if a.LinkCover? {
      LinkCoverKeepsBytes(w, a);
    } else if a.DropNext? {
      DropKeepsBytes(w, a);
    } else if a.UndoCover? {
      UndoKeepsBytes(w, a);
    } else if a.StartEdit? || a.FetchActivity? || a.PickCover? {
      EditKeepsBytes(w, a);
    } else if a.Detach? || a.CollectRows? || a.DeleteRows? {
      DeleteKeepsBytes(w, a);
    } else {
      ClientKeepsBytes(w, a);
    }
  }

  /** Bytes are present before every action of the run and at its end. */
  ghost predicate BytesThroughout(w: World, actions: seq<Action>)
    requires IsRun(w, actions)
    decreases |actions|
  {
    BytesPresent(w) && (actions != [] ==> BytesThroughout(Step(w, actions[0]), actions[1..]))
  }

  ghost predicate UncrossedThroughout(w: World, actions: seq<Action>)
    requires IsRun(w, actions)
    decreases |actions|
  {
    actions != [] ==> Uncrossed(w, actions[0]) && UncrossedThroughout(Step(w, actions[0]), actions[1..])
  }

  /** A run never shows a row without bytes if and only if each removal in it finds no row of its
      content and each claim still finds its object. */
  lemma {:induction false} RunKeepsBytesIff(w: World, actions: seq<Action>)
    requires IsRun(w, actions) && BytesPresent(w)
    ensures BytesThroughout(w, actions) <==> UncrossedThroughout(w, actions)
    decreases |actions|
  {
    if actions != [] {
      StepKeepsBytesIff(w, actions[0]);
      if BytesPresent(Step(w, actions[0])) {
        RunKeepsBytesIff(Step(w, actions[0]), actions[1..]);
      } else {
        assert !BytesThroughout(Step(w, actions[0]), actions[1..]);
      }
    }
  }

  // ---- A run that breaks it --------------------------------------------------------------

  const CONTENT: Hash := "c0"

  /** One receipt expires, the sweeper deletes its inode, the same content is uploaded again, and
      only then does the sweeper remove the object. */
  const LATE_REMOVAL: seq<Action> := [
    CopyBytes(0, CONTENT), ClaimUpload(0, 7, 0, 0), Expire({0}), SweepOne(1, 0),
    CopyBytes(2, CONTENT), ClaimUpload(2, 7, 1, 5), RemoveBytes(1)
  ]

  function Small(table: Table, objects: set<Hash>, receipts: map<UploadId, Receipt>, calls: map<CallId, Call>): World {
    World(table, objects, receipts, map[], {}, map[], {}, calls, multiset{})
  }

  const CLAIMED := Small(map[0 := Inode(CONTENT, 1, Live)], {CONTENT}, map[0 := Receipt(0, 7)], map[])
  const EXPIRED := Small(map[0 := Inode(CONTENT, 0, GC)], {CONTENT}, map[], map[])
  const SWEPT := Small(map[], {CONTENT}, map[], map[1 := Removing(CONTENT)])
  const BACK := Small(map[5 := Inode(CONTENT, 1, Live)], {CONTENT}, map[1 := Receipt(5, 7)], map[1 := Removing(CONTENT)])
  const BROKEN := Small(map[5 := Inode(CONTENT, 1, Live)], {}, map[1 := Receipt(5, 7)], map[])

  const COPIED := Small(map[], {CONTENT}, map[], map[0 := Copied(CONTENT)])
  const COPIED_AGAIN := SWEPT.(calls := map[1 := Removing(CONTENT), 2 := Copied(CONTENT)])

  lemma FirstUpload()
    ensures Enabled(EMPTY, CopyBytes(0, CONTENT)) && Step(EMPTY, CopyBytes(0, CONTENT)) == COPIED
    ensures Enabled(COPIED, ClaimUpload(0, 7, 0, 0)) && Step(COPIED, ClaimUpload(0, 7, 0, 0)) == CLAIMED
  {
  }

  lemma ReceiptExpires()
    ensures Enabled(CLAIMED, Expire({0})) && Step(CLAIMED, Expire({0})) == EXPIRED
  {
    SumRemove(CLAIMED.receipts, ReceiptHolds, 0);
    assert Only(CLAIMED.receipts, {0}) == CLAIMED.receipts;
    assert CLAIMED.receipts - {0} == map[];
    assert Sum(Only(CLAIMED.receipts, {0}), ReceiptHolds) == multiset{0};
  }

  lemma SweepDeletes()
    ensures Enabled(EXPIRED, SweepOne(1, 0)) && Step(EXPIRED, SweepOne(1, 0)) == SWEPT
  {
    assert References(EXPIRED) == multiset{};
  }

  lemma SecondUpload()
    ensures Enabled(SWEPT, CopyBytes(2, CONTENT)) && Step(SWEPT, CopyBytes(2, CONTENT)) == COPIED_AGAIN
    ensures Enabled(COPIED_AGAIN, ClaimUpload(2, 7, 1, 5)) && Step(COPIED_AGAIN, ClaimUpload(2, 7, 1, 5)) == BACK
  {
    assert Step(SWEPT, CopyBytes(2, CONTENT)).objects == {CONTENT};
    assert COPIED_AGAIN.calls - {2} == map[1 := Removing(CONTENT)];
  }

  lemma ObjectGoes()
    ensures Enabled(BACK, RemoveBytes(1)) && Step(BACK, RemoveBytes(1)) == BROKEN
  {
  }

  lemma SecondHalf()
    ensures Leads(EXPIRED, LATE_REMOVAL[3..], BROKEN)
  {
    ObjectGoes();
    LeadsFrom(BACK, LATE_REMOVAL, 6, BROKEN);
    SecondUpload();
    LeadsFrom(COPIED_AGAIN, LATE_REMOVAL, 5, BROKEN);
    LeadsFrom(SWEPT, LATE_REMOVAL, 4, BROKEN);
    SweepDeletes();
    LeadsFrom(EXPIRED, LATE_REMOVAL, 3, BROKEN);
  }

  /** The run ends with a live, counted inode whose bytes are gone. */
  lemma LateRemovalLosesBytes()
    ensures IsRun(EMPTY, LATE_REMOVAL) && After(EMPTY, LATE_REMOVAL) == BROKEN
    ensures Linkable(BROKEN.table, 5) && BROKEN.table[5].hash !in BROKEN.objects
  {
    SecondHalf();
    ReceiptExpires();
    LeadsFrom(CLAIMED, LATE_REMOVAL, 2, BROKEN);
    FirstUpload();
    LeadsFrom(COPIED, LATE_REMOVAL, 1, BROKEN);
    LeadsFrom(EMPTY, LATE_REMOVAL, 0, BROKEN);
    assert LATE_REMOVAL[0..] == LATE_REMOVAL;
  }

  const GONE := COPIED_AGAIN.(objects := {}, calls := map[2 := Copied(CONTENT)])

  lemma ObjectGoesFirst()
    ensures Enabled(COPIED_AGAIN, RemoveBytes(1)) && Step(COPIED_AGAIN, RemoveBytes(1)) == GONE
    ensures Enabled(GONE, ClaimUpload(2, 7, 1, 5)) && Step(GONE, ClaimUpload(2, 7, 1, 5)) == BROKEN
  {
    assert COPIED_AGAIN.calls - {1} == GONE.calls;
    assert GONE.calls - {2} == map[];
  }

  const CLAIM_AFTER_REMOVAL: seq<Action> := [RemoveBytes(1), ClaimUpload(2, 7, 1, 5)]

  /** The other crossing, from a world of the same run: the object goes between the copy and the
      claim. */
  lemma EarlyRemovalLosesBytes()
    ensures Leads(COPIED_AGAIN, CLAIM_AFTER_REMOVAL, BROKEN)
  {
    ObjectGoesFirst();
    LeadsFrom(GONE, CLAIM_AFTER_REMOVAL, 1, BROKEN);
    LeadsFrom(COPIED_AGAIN, CLAIM_AFTER_REMOVAL, 0, BROKEN);
    assert CLAIM_AFTER_REMOVAL[0..] == CLAIM_AFTER_REMOVAL;
  }
}
