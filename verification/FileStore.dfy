/** The files context as the object other contexts call, with its sweep. */
module FileStore {
  import opened Wrappers
  import opened Collections
  import opened InodeTable

  datatype Receipt = Receipt(inode: InodeId, uploader: UserId, name: string)

  datatype FileRef = FileRef(upload: UploadId, displayName: string)

  datatype StoredFile = StoredFile(inode: InodeId, name: string)

  datatype UploadError = UploadNotFound

  // ---- What the loops compute -------------------------------------------------------------

  /** Every count raised by the number of times the inode is in added. */
  function Raised(t: Table, added: multiset<InodeId>): Table {
    map i | i in t :: t[i].(linkCount := t[i].linkCount + added[i])
  }

  predicate AllLinkable(t: Table, files: seq<InodeId>) {
    forall k :: 0 <= k < |files| ==> Linkable(t, files[k])
  }

  /** What the sweep does with the candidates it got through to: the dead ones go, except those a
      foreign key still points at, which come back to life. */
  function Swept(t: Table, referenced: set<InodeId>, tried: set<InodeId>): Table {
    map i | i in t && !(i in tried && Reclaims(t, i, i in referenced)) ::
      if i in tried && Dead(t, i) then t[i].(state := Live) else t[i]
  }

  function Reclaimed(t: Table, referenced: set<InodeId>, tried: set<InodeId>): set<InodeId> {
    set i | i in t && i in tried && Reclaims(t, i, i in referenced)
  }

  /** The contents whose objects the sweep removed. */
  function RemovedBytes(t: Table, referenced: set<InodeId>, tried: set<InodeId>, removeDown: set<Hash>): set<Hash> {
    set i | i in Reclaimed(t, referenced, tried) && t[i].hash !in removeDown :: t[i].hash
  }

  /** How far a sweep that started at (t, bytes) has come once it tried these candidates. */
  ghost predicate SweepAt(t: Table, bytes: set<Hash>, referenced: set<InodeId>, tried: set<InodeId>, removeDown: set<Hash>,
                          table: Table, objects: set<Hash>, reclaimed: nat) {
    && table == Swept(t, referenced, tried)
    && objects == bytes - RemovedBytes(t, referenced, tried, removeDown)
    && reclaimed == |Reclaimed(t, referenced, tried)|
  }

  // One more candidate: what the sweep adds for it is one Reclaim on the table as it stands.
  lemma SweptOne(t: Table, referenced: set<InodeId>, tried: set<InodeId>, id: InodeId)
    requires id in t && id !in tried
    ensures var now := Swept(t, referenced, tried);
      && id in now && now[id] == t[id]
      && Swept(t, referenced, tried + {id}) == Reclaim(now, id, id in referenced)
      && (Reclaims(now, id, id in referenced) <==> Reclaims(t, id, id in referenced))
    ensures Reclaimed(t, referenced, tried + {id}) ==
      Reclaimed(t, referenced, tried) + (if Reclaims(t, id, id in referenced) then {id} else {})
    ensures id !in Reclaimed(t, referenced, tried)
  {
  }

  lemma SweepAdvances(t: Table, bytes: set<Hash>, referenced: set<InodeId>, tried: set<InodeId>, removeDown: set<Hash>,
                      table: Table, objects: set<Hash>, reclaimed: nat, id: InodeId)
    requires SweepAt(t, bytes, referenced, tried, removeDown, table, objects, reclaimed)
    requires id in t && id !in tried
    ensures id in table
    ensures var deleted := Reclaims(table, id, id in referenced);
      SweepAt(t, bytes, referenced, tried + {id}, removeDown, Reclaim(table, id, id in referenced),
              objects - (if deleted && table[id].hash !in removeDown then {table[id].hash} else {}),
              if deleted then reclaimed + 1 else reclaimed)
  {
    SweptOne(t, referenced, tried, id);
    assert RemovedBytes(t, referenced, tried + {id}, removeDown) == RemovedBytes(t, referenced, tried, removeDown)
      + (if Reclaims(t, id, id in referenced) && t[id].hash !in removeDown then {t[id].hash} else {});
  }

  predicate Resolves(receipts: map<UploadId, Receipt>, actor: UserId, ref: FileRef) {
    ref.upload in receipts && receipts[ref.upload].uploader == actor
  }

  function ResolvedFile(receipts: map<UploadId, Receipt>, actor: UserId, ref: FileRef): StoredFile
    requires Resolves(receipts, actor, ref)
  {
    var r := receipts[ref.upload];
    StoredFile(r.inode, if ref.displayName != "" then ref.displayName else r.name)
  }

  // ---- The store ---------------------------------------------------------------------------

  class InodeStore {
    var table: Table
    var objects: set<Hash>
    var receipts: map<UploadId, Receipt>
    var referenced: set<InodeId>

    constructor ()
      ensures table == map[] && objects == {} && receipts == map[] && referenced == {}
    {
      table, objects, receipts, referenced := map[], {}, map[], {};
    }

    method Link(id: InodeId, down: bool) returns (r: Result<InodeId, LinkError>)
      modifies this`table
      ensures r.Success? <==> !down && id in old(table) && old(table)[id].state == Live
      ensures r.Success? ==> table == InodeTable.Link(old(table), id)
      ensures r.Failure? ==> table == old(table)
      ensures r == Failure(StoreDown) <==> down
      ensures r == Failure(InodeNotFound) <==> !down && id !in old(table)
    {
      if down {
        return Failure(StoreDown);
      }
      if !Linkable(table, id) {
        return Failure(LinkRefusal(table, id));
      }
      table := InodeTable.Link(table, id);
      return Success(id);
    }

    method Unlink(id: InodeId, down: bool) returns (ok: bool)
      modifies this`table
      ensures ok <==> !down && id in old(table) && old(table)[id].linkCount > 0
      ensures table == if ok then InodeTable.Unlink(old(table), id) else old(table)
    {
      ok := !down && Unlinkable(table, id);
      if ok {
        table := InodeTable.Unlink(table, id);
      }
    }

    method Reclaim(id: InodeId) returns (deleted: bool)
      modifies this`table
      ensures var dead := id in old(table) && old(table)[id].state == GC && old(table)[id].linkCount == 0;
        && (deleted <==> dead && id !in referenced)
        && (!dead ==> table == old(table))
      ensures deleted <==> Reclaims(old(table), id, id in referenced)
      ensures table == InodeTable.Reclaim(old(table), id, id in referenced)
    {
      deleted := Reclaims(table, id, id in referenced);
      table := InodeTable.Reclaim(table, id, id in referenced);
    }

    /** At most limit of the inodes awaiting the sweeper, all of them when they fit. */
    method GCCandidates(limit: nat) returns (candidates: seq<InodeId>)
      ensures |candidates| <= limit
      ensures forall k :: 0 <= k < |candidates| ==> candidates[k] in table && table[candidates[k]].state.GC?
      ensures NoRepeats(candidates)
      ensures |candidates| < limit ==> forall i :: i in table && table[i].state.GC? ==> i in candidates
    {
      candidates := [];
      var rest := set i | i in table && table[i].state.GC?;
      while rest != {} && |candidates| < limit
        invariant |candidates| <= limit
        invariant forall i :: i in table && table[i].state.GC? <==> i in rest || i in candidates
        invariant forall i :: i in rest ==> i !in candidates
        invariant NoRepeats(candidates)
        decreases rest
      {
        var i :| i in rest;
        candidates, rest := candidates + [i], rest - {i};
      }
    }

    /** Rows first, objects second. reclaimDown are the candidates whose transaction fails,
        removeDown the contents whose object removal fails. */
    method SweepGC(batch: nat, reclaimDown: set<InodeId>, removeDown: set<Hash>)
      returns (reclaimed: nat, ghost tried: set<InodeId>)
      modifies this`table, this`objects
      ensures SweepAt(old(table), old(objects), referenced, tried, removeDown, table, objects, reclaimed)
      ensures tried !! reclaimDown
      ensures |old(table)| < batch ==> forall i :: Dead(old(table), i) ==> i in tried || i in reclaimDown
    {
      var candidates := GCCandidates(batch);
      reclaimed, tried := 0, {};
      ghost var was, bytes := table, objects;
      for k := 0 to |candidates|
        invariant forall j :: 0 <= j < |candidates| ==>
          (candidates[j] in tried <==> j < k && candidates[j] !in reclaimDown)
        invariant tried !! reclaimDown
        invariant SweepAt(was, bytes, referenced, tried, removeDown, table, objects, reclaimed)
      {
        var id := candidates[k];
        if id !in reclaimDown {
          SweepAdvances(was, bytes, referenced, tried, removeDown, table, objects, reclaimed, id);
          var deleted := SweepOne(id, removeDown);
          tried := tried + {id};
          reclaimed := if deleted then reclaimed + 1 else reclaimed;
        }
      }
      AllTried(candidates, was, batch, tried, reclaimDown);
    }

    /** One candidate of the sweep: the row, then its object. */
    method SweepOne(id: InodeId, removeDown: set<Hash>) returns (deleted: bool)
      requires id in table
      modifies this`table, this`objects
      ensures deleted <==> Reclaims(old(table), id, id in referenced)
      ensures table == InodeTable.Reclaim(old(table), id, id in referenced)
      ensures objects == old(objects) -
        (if deleted && old(table)[id].hash !in removeDown then {old(table)[id].hash} else {})
    {
      var hash := table[id].hash;
      deleted := Reclaim(id);
      if deleted && hash !in removeDown {
        objects := objects - {hash};
      }
    }
  }

  // When the table is smaller than the batch every dead row was a candidate.
  lemma AllTried(candidates: seq<InodeId>, t: Table, batch: nat, tried: set<InodeId>, reclaimDown: set<InodeId>)
    requires forall k :: 0 <= k < |candidates| ==> candidates[k] in t
    requires NoRepeats(candidates)
    requires |candidates| < batch ==> forall i :: i in t && t[i].state.GC? ==> i in candidates
    requires forall j :: 0 <= j < |candidates| ==> (candidates[j] in tried <==> candidates[j] !in reclaimDown)
    ensures |t| < batch ==> forall i :: Dead(t, i) ==> i in tried || i in reclaimDown
  {
    CandidatesFit(candidates, t);
  }

  // Candidates are distinct rows, so fewer rows than the limit means they all fit.
  lemma CandidatesFit(candidates: seq<InodeId>, t: Table)
    requires forall k :: 0 <= k < |candidates| ==> candidates[k] in t
    requires NoRepeats(candidates)
    ensures |candidates| <= |t|
  {
    SizeOfElements(candidates);
    SubsetIsSmaller(Elements(candidates), t.Keys);
    assert |t.Keys| == |t|;
  }
}
