/** The inode table of the files context: one row per distinct content, with the number of
    references that point at it, and the statements that change it. Each function below is one
    SQL statement (or one transaction) seen as a step from one table to the next. */
module InodeTable {
  import opened Wrappers

  type InodeId = nat
  type UploadId = nat
  type UserId = nat
  type Hash = string

  datatype State = Live | GC

  datatype Inode = Inode(hash: Hash, linkCount: int, state: State)

  type Table = map<InodeId, Inode>

  datatype LinkError = FileGone | InodeNotFound | StoreDown

  /** The guard of the Link statement. */
  predicate Linkable(t: Table, id: InodeId) {
    id in t && t[id].state.Live?
  }

  function Link(t: Table, id: InodeId): Table
    requires Linkable(t, id)
  {
    t[id := t[id].(linkCount := t[id].linkCount + 1)]
  }

  /** Which friendly error a refused Link reports. */
  function LinkRefusal(t: Table, id: InodeId): LinkError
    requires !Linkable(t, id)
  {
    if id in t then FileGone else InodeNotFound
  }

  predicate Unlinkable(t: Table, id: InodeId) {
    id in t && t[id].linkCount >= 1
  }

  function Unlink(t: Table, id: InodeId): Table
    requires Unlinkable(t, id)
  {
    var left := t[id].linkCount - 1;
    t[id := t[id].(linkCount := left, state := if left == 0 then GC else t[id].state)]
  }

  predicate DistinctHashes(t: Table) {
    forall i, j :: i in t && j in t && t[i].hash == t[j].hash ==> i == j
  }

  predicate Known(t: Table, hash: Hash) {
    exists i :: i in t && t[i].hash == hash
  }

  /** The inode a claim of this content lands on: the one that has the hash, or a new row. */
  ghost function ClaimedId(t: Table, hash: Hash, newId: InodeId): (id: InodeId)
    ensures id == newId || (id in t && t[id].hash == hash)
  {
    if Known(t, hash) then var i :| i in t && t[i].hash == hash; i else newId
  }

  /** The upsert inside CreateUpload: a hit gains a link and comes back to life. */
  ghost function Claim(t: Table, hash: Hash, newId: InodeId): Table
    requires newId !in t
  {
    var id := ClaimedId(t, hash, newId);
    if id in t then t[id := t[id].(linkCount := t[id].linkCount + 1, state := Live)]
    else t[id := Inode(hash, 1, Live)]
  }

  /** The UPDATE of ExpireBefore: every inode loses as many links as receipts expired on it. */
  function DropAll(t: Table, dropped: multiset<InodeId>): Table {
    map i | i in t :: if dropped[i] == 0 then t[i] else
      var left := t[i].linkCount - dropped[i];
      t[i].(linkCount := left, state := if left == 0 then GC else t[i].state)
  }

  /** The rows that UPDATE changes; its count of them is what ExpireBefore returns. */
  function Updated(t: Table, dropped: multiset<InodeId>): set<InodeId> { set i | i in t && dropped[i] > 0 }

  /** What Reclaim's DELETE matches. */
  predicate Dead(t: Table, id: InodeId) {
    id in t && t[id].state.GC? && t[id].linkCount == 0
  }

  /** Reclaim: delete a dead row, unless a foreign key still points at it, which restores it. */
  function Reclaim(t: Table, id: InodeId, referenced: bool): Table {
    if !Dead(t, id) then t
    else if referenced then t[id := t[id].(state := Live)]
    else t - {id}
  }

  predicate Reclaims(t: Table, id: InodeId, referenced: bool) {
    Dead(t, id) && !referenced
  }

  // ---- The counting law ----------------------------------------------------------------

  /** The table against what it owes a count for: everything owed is there, every count is what is
      owed, and live means counted. */
  ghost predicate Balanced(t: Table, owed: multiset<InodeId>) {
    && (forall i :: i in owed ==> i in t)
    && (forall i :: i in t ==> t[i].linkCount == owed[i] && (t[i].state.Live? <==> t[i].linkCount >= 1))
    && DistinctHashes(t)
  }

  lemma LinkBalances(t: Table, owed: multiset<InodeId>, id: InodeId)
    requires Balanced(t, owed) && Linkable(t, id)
    ensures Balanced(Link(t, id), owed + multiset{id})
  {
  }

  lemma UnlinkBalances(t: Table, owed: multiset<InodeId>, id: InodeId)
    requires Balanced(t, owed) && id in owed
    ensures Unlinkable(t, id) && Balanced(Unlink(t, id), owed - multiset{id})
    ensures Dead(Unlink(t, id), id) <==> owed[id] == 1
  {
  }

  lemma ClaimBalances(t: Table, owed: multiset<InodeId>, hash: Hash, newId: InodeId)
    requires Balanced(t, owed) && newId !in t
    ensures Balanced(Claim(t, hash, newId), owed + multiset{ClaimedId(t, hash, newId)})
    ensures ClaimedId(t, hash, newId) in Claim(t, hash, newId)
    ensures Claim(t, hash, newId)[ClaimedId(t, hash, newId)].hash == hash
  {
    assert newId !in owed;
    assert owed[newId] == 0;
  }

  lemma DropAllBalances(t: Table, owed: multiset<InodeId>, dropped: multiset<InodeId>)
    requires Balanced(t, owed) && dropped <= owed
    ensures Balanced(DropAll(t, dropped), owed - dropped)
  {
    forall i | i in t ensures (owed - dropped)[i] == owed[i] - dropped[i] {
      assert dropped[i] <= owed[i];
    }
    forall i | i in owed - dropped ensures i in DropAll(t, dropped) {
      assert i in owed;
    }
  }

  lemma ReclaimBalances(t: Table, owed: multiset<InodeId>, id: InodeId, referenced: bool)
    requires Balanced(t, owed)
    requires referenced ==> id in owed
    ensures Balanced(Reclaim(t, id, referenced), owed)
    ensures Reclaims(t, id, referenced) ==> id !in owed
    ensures !(Dead(t, id) && referenced)
  {
  }

  /** A table under the law owes one bag only. */
  lemma OwedIsFixed(t: Table, owed: multiset<InodeId>, other: multiset<InodeId>)
    requires Balanced(t, owed) && Balanced(t, other)
    ensures owed == other
  {
    forall i: InodeId ensures owed[i] == other[i] {
      if i !in t {
        assert i !in owed && i !in other;
      }
    }
  }
}
