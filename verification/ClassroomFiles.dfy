/** The two loops classroom runs over the file store before it writes referrer rows. */
module ClassroomFiles {
  import opened Wrappers
  import opened InodeTable
  import opened FileStore

  /** What the counting law keeps true of every live row. */
  predicate LiveIsCounted(t: Table) {
    forall i :: i in t && t[i].state.Live? ==> t[i].linkCount >= 1
  }

  lemma RaisedLink(t: Table, added: multiset<InodeId>, id: InodeId)
    requires Linkable(t, id)
    ensures Linkable(Raised(t, added), id)
    ensures InodeTable.Link(Raised(t, added), id) == Raised(t, added + multiset{id})
  {
  }

  // Taking back a link that was added on top of a live row never kills the row.
  lemma RaisedUnlink(t: Table, added: multiset<InodeId>, id: InodeId)
    requires Linkable(t, id) && t[id].linkCount >= 1
    ensures Unlinkable(Raised(t, added + multiset{id}), id)
    ensures InodeTable.Unlink(Raised(t, added + multiset{id}), id) == Raised(t, added)
  {
    assert (added + multiset{id})[id] == added[id] + 1;
  }

  lemma RaisedByNothing(t: Table)
    ensures Raised(t, multiset{}) == t
  {
  }

  lemma PrefixIsPart(files: seq<InodeId>, i: nat)
    requires i <= |files|
    ensures multiset(files[..i]) <= multiset(files)
  {
    assert files == files[..i] + files[i..];
  }

  lemma OneMoreFile(t: Table, files: seq<InodeId>, i: nat)
    requires i < |files|
    ensures Linkable(Raised(t, multiset(files[..i])), files[i]) <==> Linkable(t, files[i])
    ensures Linkable(t, files[i]) ==> InodeTable.Link(Raised(t, multiset(files[..i])), files[i]) == Raised(t, multiset(files[..i + 1]))
    ensures AllLinkable(t, files[..i]) && Linkable(t, files[i]) ==> AllLinkable(t, files[..i + 1])
  {
    assert files[..i + 1] == files[..i] + [files[i]];
    if Linkable(t, files[i]) {
      RaisedLink(t, multiset(files[..i]), files[i]);
    }
  }

  /** linkAll: one new reference per file, or none. linkDown are the positions whose Link fails in
      transit, unlinkDown those whose compensating Unlink does; what such an Unlink leaves over
      is leaked. */
  method LinkAll(store: InodeStore, files: seq<InodeId>, linkDown: set<nat>, unlinkDown: set<nat>)
    returns (ok: bool, ghost leaked: multiset<InodeId>)
    requires LiveIsCounted(store.table)
    modifies store`table
    ensures ok <==> AllLinkable(old(store.table), files) && forall k :: 0 <= k < |files| ==> k !in linkDown
    ensures ok ==> store.table == Raised(old(store.table), multiset(files)) && leaked == multiset{}
    ensures !ok ==> store.table == Raised(old(store.table), leaked) && leaked <= multiset(files)
    ensures !ok && unlinkDown == {} ==> store.table == old(store.table)
  {
    ghost var was := store.table;
    leaked := multiset{};
    RaisedByNothing(was);
    for i := 0 to |files|
      invariant AllLinkable(was, files[..i])
      invariant forall k :: 0 <= k < i ==> k !in linkDown
      invariant store.table == Raised(was, multiset(files[..i]))
    {
      OneMoreFile(was, files, i);
      var r := store.Link(files[i], i in linkDown);
      if r.Failure? {
        leaked := UnlinkEach(store, files[..i], unlinkDown, was);
        PrefixIsPart(files, i);
        return false, leaked;
      }
    }
    assert files[..|files|] == files;
    ok := true;
  }

  lemma OneFewer(done: seq<InodeId>, d: nat, leaked: multiset<InodeId>)
    requires d < |done|
    ensures multiset(done[d..]) + leaked == (multiset(done[d + 1..]) + leaked) + multiset{done[d]}
    ensures multiset(done[d..]) + leaked == multiset(done[d + 1..]) + (leaked + multiset{done[d]})
  {
    assert done[d..] == [done[d]] + done[d + 1..];
  }

  /** The links whose compensating Unlink fails. */
  function LeftOver(done: seq<InodeId>, unlinkDown: set<nat>): multiset<InodeId> {
    if done == [] then multiset{}
    else
      var d := |done| - 1;
      LeftOver(done[..d], unlinkDown) + if d in unlinkDown then multiset{done[d]} else multiset{}
  }

  lemma {:induction false} LeftOverIsPart(done: seq<InodeId>, unlinkDown: set<nat>)
    ensures LeftOver(done, unlinkDown) <= multiset(done)
    ensures unlinkDown == {} ==> LeftOver(done, unlinkDown) == multiset{}
    decreases |done|
  {
    if done != [] {
      LeftOverIsPart(done[..|done| - 1], unlinkDown);
      assert done == done[..|done| - 1] + [done[|done| - 1]];
    }
  }

  lemma LeftOverGrows(done: seq<InodeId>, d: nat, unlinkDown: set<nat>)
    requires d < |done|
    ensures LeftOver(done[..d + 1], unlinkDown) ==
      LeftOver(done[..d], unlinkDown) + if d in unlinkDown then multiset{done[d]} else multiset{}
  {
    assert done[..d + 1][..d] == done[..d];
  }

  /** unlinkLogged over a list: every Unlink is tried, a failing one is only logged. */
  method UnlinkEach(store: InodeStore, done: seq<InodeId>, unlinkDown: set<nat>, ghost was: Table)
    returns (ghost leaked: multiset<InodeId>)
    requires LiveIsCounted(was) && AllLinkable(was, done)
    requires store.table == Raised(was, multiset(done))
    modifies store`table
    ensures leaked == LeftOver(done, unlinkDown) && leaked <= multiset(done)
    ensures store.table == Raised(was, leaked)
    ensures unlinkDown == {} ==> store.table == was
  {
    leaked := multiset{};
    assert done[0..] == done;
    for d := 0 to |done|
      invariant store.table == Raised(was, multiset(done[d..]) + leaked)
      invariant leaked == LeftOver(done[..d], unlinkDown)
    {
      OneFewer(done, d, leaked);
      LeftOverGrows(done, d, unlinkDown);
      RaisedUnlink(was, multiset(done[d + 1..]) + leaked, done[d]);
      var ok := store.Unlink(done[d], d in unlinkDown);
      if !ok {
        leaked := leaked + multiset{done[d]};
      }
    }
    assert done[..|done|] == done;
    assert multiset(done[|done|..]) + leaked == leaked;
    LeftOverIsPart(done, unlinkDown);
    RaisedByNothing(was);
  }

  /** resolveUploads fills one slot per reference and gives up at the first that does not resolve. */
  method ResolveUploads(receipts: map<UploadId, Receipt>, actor: UserId, refs: seq<FileRef>)
    returns (r: Result<seq<StoredFile>, UploadError>)
    ensures r.Success? <==>
      forall k :: 0 <= k < |refs| ==> refs[k].upload in receipts && receipts[refs[k].upload].uploader == actor
    ensures r.Success? ==> |r.value| == |refs|
    ensures r.Success? ==> forall k :: 0 <= k < |refs| ==>
      && r.value[k].inode == receipts[refs[k].upload].inode
      && r.value[k].name == if refs[k].displayName == "" then receipts[refs[k].upload].name else refs[k].displayName
  {
    var files := new StoredFile[|refs|](_ => StoredFile(0, ""));
    for i := 0 to |refs|
      invariant forall k :: 0 <= k < i ==> Resolves(receipts, actor, refs[k])
      invariant forall k :: 0 <= k < i ==> files[k] == ResolvedFile(receipts, actor, refs[k])
    {
      if !Resolves(receipts, actor, refs[i]) {
        return Failure(UploadNotFound);
      }
      files[i] := ResolvedFile(receipts, actor, refs[i]);
    }
    return Success(files[..]);
  }

  // ---- The clients, in isolation -----------------------------------------------------------

  /** A table in balance with what it owes is a table LinkAll accepts, and a successful LinkAll leaves
      it in balance with the new files owed as well. */
  lemma {:induction false} LinkAllBalances(t: Table, owed: multiset<InodeId>, files: seq<InodeId>)
    requires Balanced(t, owed) && AllLinkable(t, files)
    ensures LiveIsCounted(t)
    ensures Balanced(Raised(t, multiset(files)), owed + multiset(files))
    decreases |files|
  {
    if files == [] {
      RaisedByNothing(t);
      assert owed + multiset(files) == owed;
    } else {
      var n := |files| - 1;
      LinkAllBalances(t, owed, files[..n]);
      assert files == files[..n] + [files[n]];
      RaisedLink(t, multiset(files[..n]), files[n]);
      LinkBalances(Raised(t, multiset(files[..n])), owed + multiset(files[..n]), files[n]);
      assert owed + multiset(files) == owed + multiset(files[..n]) + multiset{files[n]};
    }
  }
}
