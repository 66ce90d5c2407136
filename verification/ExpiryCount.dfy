/** What an expiry reports. The count is documented as that of the expired receipts; the statement
    counts the inodes it has updated. */
module ExpiryCount {
  import opened InodeTable
  import opened Tally
  import opened ReferenceProtocol

  /** The inodes that some expired receipts are of. */
  function InodesOf(receipts: map<UploadId, Receipt>, expired: set<UploadId>): set<InodeId>
    requires expired <= receipts.Keys
  {
    set u | u in expired :: receipts[u].inode
  }

  /** The number ExpireBefore returns. */
  ghost function Reported(w: World, expired: set<UploadId>): nat {
    |Updated(w.table, Sum(Only(w.receipts, expired), ReceiptHolds))|
  }

  predicate OneReceiptEach(receipts: map<UploadId, Receipt>, expired: set<UploadId>)
    requires expired <= receipts.Keys
  {
    forall u, v :: u in expired && v in expired && receipts[u].inode == receipts[v].inode ==> u == v
  }

  lemma OnlyWithout(receipts: map<UploadId, Receipt>, expired: set<UploadId>, u: UploadId)
    requires u in expired
    ensures Only(receipts, expired) - {u} == Only(receipts, expired - {u})
  {
    assert (Only(receipts, expired) - {u}).Keys == Only(receipts, expired - {u}).Keys;
  }

  lemma OneMoreDropped(receipts: map<UploadId, Receipt>, expired: set<UploadId>, u: UploadId)
    requires expired <= receipts.Keys && u in expired
    ensures Sum(Only(receipts, expired), ReceiptHolds) ==
      multiset{receipts[u].inode} + Sum(Only(receipts, expired - {u}), ReceiptHolds)
  {
    SumRemove(Only(receipts, expired), ReceiptHolds, u);
    OnlyWithout(receipts, expired, u);
  }

  lemma {:induction false} DroppedAre(receipts: map<UploadId, Receipt>, expired: set<UploadId>, i: InodeId)
    requires expired <= receipts.Keys
    ensures Sum(Only(receipts, expired), ReceiptHolds)[i] > 0 <==> i in InodesOf(receipts, expired)
    decreases expired
  {
    if u :| u in expired {
      DroppedAre(receipts, expired - {u}, i);
      OneMoreDropped(receipts, expired, u);
      assert InodesOf(receipts, expired) == InodesOf(receipts, expired - {u}) + {receipts[u].inode};
    } else {
      assert Only(receipts, expired) == map[];
    }
  }

  lemma {:induction false} CountInodes(receipts: map<UploadId, Receipt>, expired: set<UploadId>)
    requires expired <= receipts.Keys
    ensures |InodesOf(receipts, expired)| <= |expired|
    ensures |InodesOf(receipts, expired)| == |expired| <==> OneReceiptEach(receipts, expired)
    decreases expired
  {
    if u :| u in expired {
      CountInodes(receipts, expired - {u});
      var rest := InodesOf(receipts, expired - {u});
      assert InodesOf(receipts, expired) == rest + {receipts[u].inode};
      if receipts[u].inode in rest {
        var v :| v in expired - {u} && receipts[v].inode == receipts[u].inode;
        assert !OneReceiptEach(receipts, expired);
      } else {
        assert OneReceiptEach(receipts, expired) <==> OneReceiptEach(receipts, expired - {u});
      }
    } else {
      assert InodesOf(receipts, expired) == {};
    }
  }

  /** Never more than the receipts, and as many if and only if no two of them are of one inode. */
  lemma ReportedIsReceiptsIff(w: World, expired: set<UploadId>)
    requires Enabled(w, Expire(expired)) && forall u :: u in expired ==> w.receipts[u].inode in w.table
    ensures Reported(w, expired) <= |expired|
    ensures Reported(w, expired) == |expired| <==> OneReceiptEach(w.receipts, expired)
  {
    forall i ensures i in Updated(w.table, Sum(Only(w.receipts, expired), ReceiptHolds)) <==> i in InodesOf(w.receipts, expired) {
      DroppedAre(w.receipts, expired, i);
    }
    assert Updated(w.table, Sum(Only(w.receipts, expired), ReceiptHolds)) == InodesOf(w.receipts, expired);
    CountInodes(w.receipts, expired);
  }

  // ---- Two uploads of one content ----------------------------------------------------------------------

  const CONTENT: Hash := "c0"

  const TWO_UPLOADS: seq<Action> := [
    CopyBytes(0, CONTENT), ClaimUpload(0, 7, 0, 0), CopyBytes(1, CONTENT), ClaimUpload(1, 7, 1, 5)
  ]

  const ONE_RECEIPT: World :=
    World(map[0 := Inode(CONTENT, 1, Live)], {CONTENT}, map[0 := Receipt(0, 7)], map[], {}, map[], {}, map[], multiset{})

  const TWO_RECEIPTS: World := ONE_RECEIPT.(
    table := map[0 := Inode(CONTENT, 2, Live)], receipts := map[0 := Receipt(0, 7), 1 := Receipt(0, 7)])

  lemma FirstUpload()
    ensures Leads(ONE_RECEIPT, TWO_UPLOADS[2..], TWO_RECEIPTS) ==> Leads(EMPTY, TWO_UPLOADS, TWO_RECEIPTS)
  {
    var run := TWO_UPLOADS;
    var w := Step(EMPTY, run[0]);
    assert w.calls - {0} == map[];
    assert Step(w, run[1]) == ONE_RECEIPT;
    if Leads(ONE_RECEIPT, run[2..], TWO_RECEIPTS) {
      LeadsFrom(w, run, 1, TWO_RECEIPTS);
      LeadsFrom(EMPTY, run, 0, TWO_RECEIPTS);
      assert run[0..] == run;
    }
  }

  lemma SecondUpload()
    ensures Leads(ONE_RECEIPT, TWO_UPLOADS[2..], TWO_RECEIPTS)
  {
    var run := TWO_UPLOADS;
    var w := Step(ONE_RECEIPT, run[2]);
    assert Known(w.table, CONTENT) by {
      assert 0 in w.table && w.table[0].hash == CONTENT;
    }
    assert ClaimedId(w.table, CONTENT, 5) == 0;
    assert w.calls - {1} == map[];
    assert Step(w, run[3]) == TWO_RECEIPTS;
    LeadsFrom(w, run, 3, TWO_RECEIPTS);
    LeadsFrom(ONE_RECEIPT, run, 2, TWO_RECEIPTS);
  }

  /** One student uploads the same bytes twice and attaches them nowhere: two receipts expire, and one
      is reported. */
  lemma TwoExpireOneIsReported()
    ensures Leads(EMPTY, TWO_UPLOADS, TWO_RECEIPTS) && Enabled(TWO_RECEIPTS, Expire({0, 1}))
    ensures Step(TWO_RECEIPTS, Expire({0, 1})).receipts == map[] && |{0, 1}| == 2
    ensures Reported(TWO_RECEIPTS, {0, 1}) == 1
  {
    SecondUpload();
    FirstUpload();
    DroppedAre(TWO_RECEIPTS.receipts, {0, 1}, 0);
    assert 0 in InodesOf(TWO_RECEIPTS.receipts, {0, 1});
    assert Updated(TWO_RECEIPTS.table, Sum(Only(TWO_RECEIPTS.receipts, {0, 1}), ReceiptHolds)) == {0};
  }
}
