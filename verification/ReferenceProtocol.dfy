/** Every use case that counts, uncounts or reclaims inode references, as one machine whose
    steps are the single store operations of those use cases. Any number of calls interleave;
    a call may crash between two steps, a Link or an Unlink may fail, and the janitor may
    expire receipts and sweep dead inodes at any moment. */
module ReferenceProtocol {
  import opened Wrappers
  import opened InodeTable
  import opened Tally

  const MAX_UPDATE_RETRIES: nat := 3

  type CallId = nat

  datatype Receipt = Receipt(inode: InodeId, uploader: UserId)

  /** The rows whose columns hold inode ids. */
  datatype RowKey =
    | Attachment(assignment: nat, id: nat)
    | Draft(assignment: nat, student: UserId)
    | Cover(activity: nat)

  /** An activity edit; with no cover it is a Pin or a plain text edit. */
  datatype Edit = Edit(activity: nat, actor: UserId, cover: Option<UploadId>)

  /** What an edit read: the row's version and its cover column (no inode or one). */
  datatype Snapshot = Snapshot(version: nat, cover: seq<InodeId>)

  /** What a delete transaction takes: one student's draft, or all of an assignment. */
  datatype Scope = OneDraft(assignment: nat, student: UserId) | WholeAssignment(assignment: nat)

  /** Where a call in flight stands. Collected is inside a delete transaction, after its SELECT of
      the inode list and before its DELETE. */
  datatype Call =
    | Copied(hash: Hash)
    | Resolving(target: RowKey, actor: UserId, todo: seq<UploadId>, files: seq<InodeId>)
    | Linking(target: RowKey, files: seq<InodeId>, done: nat)
    | Collected(scope: Scope, list: seq<InodeId>)
    | Dropping(drops: seq<InodeId>)
    | Removing(hash: Hash)
    | Fetching(edit: Edit, tries: nat)
    | PickingCover(edit: Edit, tries: nat, snap: Snapshot)
    | LinkingCover(edit: Edit, tries: nat, snap: Snapshot, picked: InodeId)
    | Swapping(edit: Edit, tries: nat, snap: Snapshot, newCover: Option<InodeId>)
    | Undoing(edit: Edit, tries: nat, lost: InodeId)

  /** frozen are the drafts turned in. leaked keeps the books on the two faults: a crashed call's
      links and the failed Unlinks are in it for good. */
  datatype World = World(
    table: Table,
    objects: set<Hash>,
    receipts: map<UploadId, Receipt>,
    rows: map<RowKey, seq<InodeId>>,
    assignments: set<nat>,
    versions: map<nat, nat>,
    frozen: set<RowKey>,
    calls: map<CallId, Call>,
    leaked: multiset<InodeId>)

  datatype Action =
    | CopyBytes(c: CallId, hash: Hash)
    | ClaimUpload(c: CallId, uploader: UserId, upload: UploadId, newId: InodeId)
    | Expire(expired: set<UploadId>)
    | Refer(c: CallId, target: RowKey, actor: UserId, uploads: seq<UploadId>)
    | ResolveNext(c: CallId)
    | BeginLinking(c: CallId)
    | LinkNext(c: CallId, down: bool)
    | WriteRow(c: CallId, refused: bool)
    | CreateAssignment(assignment: nat)
    | Detach(c: CallId, key: RowKey)
    | CollectRows(c: CallId, scope: Scope, list: seq<InodeId>)
    | DeleteRows(c: CallId, down: bool)
    | TurnIn(draft: RowKey)
    | DropNext(c: CallId, down: bool)
    | StartEdit(c: CallId, edit: Edit)
    | FetchActivity(c: CallId)
    | PickCover(c: CallId, isImage: bool)
    | LinkCover(c: CallId, down: bool)
    | SwapRow(c: CallId, down: bool)
    | UndoCover(c: CallId, down: bool)
    | SweepOne(c: CallId, id: InodeId)
    | RemoveBytes(c: CallId)
    | Return(c: CallId)
    | Crash(c: CallId)

  const EMPTY := World(map[], {}, map[], map[], {}, map[], {}, map[], multiset{})

  // ---- Who holds what ----------------------------------------------------------------

  function ReceiptHolds(r: Receipt): multiset<InodeId> { multiset{r.inode} }

  function RowHolds(files: seq<InodeId>): multiset<InodeId> { multiset(files) }

  function OptionSeq(o: Option<InodeId>): seq<InodeId> {
    match o case None => [] case Some(i) => [i]
  }

  /** The links a call has taken and not yet handed to a row or given back. */
  function CallHolds(call: Call): multiset<InodeId> {
    match call
    case Linking(_, files, done) => if done <= |files| then multiset(files[..done]) else multiset(files)
    case Dropping(drops) => multiset(drops)
    case Swapping(_, _, _, newCover) => multiset(OptionSeq(newCover))
    case Undoing(_, _, lost) => multiset{lost}
    case _ => multiset{}
  }

  ghost function References(w: World): multiset<InodeId> {
    Sum(w.receipts, ReceiptHolds) + Sum(w.rows, RowHolds)
  }

  ghost function Held(w: World): multiset<InodeId> {
    References(w) + Sum(w.calls, CallHolds)
  }

  /** Everything the counts have to be there for. */
  ghost function Owed(w: World): multiset<InodeId> { Held(w) + w.leaked }

  // ---- Steps -------------------------------------------------------------------------

  predicate Owned(w: World, upload: UploadId, actor: UserId) {
    upload in w.receipts && w.receipts[upload].uploader == actor
  }

  /** The guard of each row write: the assignment is there, the key fresh, the draft not turned in,
      the activity new. */
  predicate Writable(w: World, target: RowKey) {
    match target
    case Attachment(assignment, _) => assignment in w.assignments && target !in w.rows
    case Draft(assignment, _) => assignment in w.assignments && target !in w.frozen
    case Cover(activity) => activity !in w.versions && target !in w.rows
  }

  predicate InScope(k: RowKey, scope: Scope) {
    match scope
    case OneDraft(assignment, student) => k == Draft(assignment, student)
    case WholeAssignment(assignment) => !k.Cover? && k.assignment == assignment
  }

  function Doomed(w: World, scope: Scope): set<RowKey> { set k | k in w.rows && InScope(k, scope) }

  /** The files the rows of a scope hold now: what the SELECT lists, and what the DELETE cascades
      away. */
  ghost function FilesOf(w: World, scope: Scope): multiset<InodeId> { Sum(Only(w.rows, Doomed(w, scope)), RowHolds) }

  /** The guard of the DELETE; when no row matches, the transaction is rolled back. */
  predicate DeleteMatches(w: World, scope: Scope) {
    match scope
    case OneDraft(assignment, student) => Draft(assignment, student) in w.rows && Draft(assignment, student) !in w.frozen
    case WholeAssignment(assignment) => assignment in w.assignments
  }

  predicate RefersTo(target: RowKey, uploads: seq<UploadId>) {
    match target
    case Attachment(_, _) => |uploads| == 1
    case Draft(_, _) => true
    case Cover(_) => |uploads| <= 1
  }

  function Retry(edit: Edit, tries: nat): Call {
    if tries + 1 < MAX_UPDATE_RETRIES then Fetching(edit, tries + 1) else Dropping([])
  }

  ghost predicate Enabled(w: World, a: Action) {
    match a
    case CopyBytes(c, _) => c !in w.calls
    case ClaimUpload(c, _, upload, newId) =>
      c in w.calls && w.calls[c].Copied? && upload !in w.receipts && newId !in w.table
    case Expire(expired) => expired <= w.receipts.Keys
    case Refer(c, target, _, uploads) => c !in w.calls && RefersTo(target, uploads)
    case ResolveNext(c) => c in w.calls && w.calls[c].Resolving? && w.calls[c].todo != []
    case BeginLinking(c) => c in w.calls && w.calls[c].Resolving? && w.calls[c].todo == []
    case LinkNext(c, _) => c in w.calls && w.calls[c].Linking? && w.calls[c].done < |w.calls[c].files|
    case WriteRow(c, _) => c in w.calls && w.calls[c].Linking? && w.calls[c].done == |w.calls[c].files|
    case CreateAssignment(assignment) => assignment !in w.assignments
    case Detach(c, key) => c !in w.calls && key.Attachment? && key in w.rows
    case CollectRows(c, scope, list) => c !in w.calls && multiset(list) == FilesOf(w, scope)
    case DeleteRows(c, _) => c in w.calls && w.calls[c].Collected?
    case TurnIn(draft) => draft.Draft? && draft in w.rows
    case DropNext(c, _) => c in w.calls && w.calls[c].Dropping? && w.calls[c].drops != []
    case StartEdit(c, _) => c !in w.calls
    case FetchActivity(c) => c in w.calls && w.calls[c].Fetching?
    case PickCover(c, _) => c in w.calls && w.calls[c].PickingCover? && w.calls[c].edit.cover.Some?
    case LinkCover(c, _) => c in w.calls && w.calls[c].LinkingCover?
    case SwapRow(c, _) => c in w.calls && w.calls[c].Swapping? && w.calls[c].edit.activity in w.versions
    case UndoCover(c, _) => c in w.calls && w.calls[c].Undoing?
    case SweepOne(c, _) => c !in w.calls
    case RemoveBytes(c) => c in w.calls && w.calls[c].Removing?
    case Return(c) => c in w.calls && w.calls[c] == Dropping([])
    case Crash(c) => c in w.calls
  }

  /** A call that ends: its entry goes, and it must not hold anything. */
  function Ended(w: World, c: CallId): World { w.(calls := w.calls - {c}) }

  function Moved(w: World, c: CallId, call: Call): World { w.(calls := w.calls[c := call]) }

  /** One Unlink; a failure leaves the table alone, and the link is leaked. */
  function Unlinked(w: World, id: InodeId, down: bool): World {
    if down then w.(leaked := w.leaked + multiset{id})
    else if Unlinkable(w.table, id) then w.(table := Unlink(w.table, id))
    else w
  }

  /** CreateUpload: the inode and its receipt, one transaction. */
  ghost function Claimed(w: World, c: CallId, hash: Hash, uploader: UserId, upload: UploadId, newId: InodeId): World
    requires newId !in w.table
  {
    var id := ClaimedId(w.table, hash, newId);
    Ended(w.(table := Claim(w.table, hash, newId), receipts := w.receipts[upload := Receipt(id, uploader)]), c)
  }

  /** ExpireBefore: the receipts go and their links with them, one transaction. */
  ghost function Expired(w: World, expired: set<UploadId>): World {
    w.(table := DropAll(w.table, Sum(Only(w.receipts, expired), ReceiptHolds)), receipts := w.receipts - expired)
  }

  /** One turn of resolveUploads: somebody else's receipt or a missing one ends the call. */
  function Resolved(w: World, c: CallId, call: Call): World
    requires call.Resolving? && call.todo != []
  {
    if Owned(w, call.todo[0], call.actor) then
      Moved(w, c, call.(todo := call.todo[1..], files := call.files + [w.receipts[call.todo[0]].inode]))
    else Ended(w, c)
  }

  /** One turn of linkAll: a refused or failed Link sends what is linked so far to be unlinked. */
  function LinkedNext(w: World, c: CallId, call: Call, down: bool): World
    requires call.Linking? && call.done < |call.files|
  {
    var id := call.files[call.done];
    if !down && Linkable(w.table, id) then
      Moved(w.(table := Link(w.table, id)), c, call.(done := call.done + 1))
    else
      Moved(w, c, Dropping(call.files[..call.done]))
  }

  /** The row write of Attach, SaveDraft and Create: the new files in, the replaced ones out. */
  function Written(w: World, c: CallId, call: Call, refused: bool): World
    requires call.Linking?
  {
    if refused || !Writable(w, call.target) then Moved(w, c, Dropping(call.files))
    else
      var replaced := if call.target in w.rows then w.rows[call.target] else [];
      Moved(w.(rows := w.rows[call.target := call.files],
               versions := if call.target.Cover? then w.versions[call.target.activity := 0] else w.versions),
            c, Dropping(replaced))
  }

  /** The DELETE takes what the rows hold by now; what is unlinked afterwards is the list that was
      read before. */
  function Deleted(w: World, c: CallId, call: Call, down: bool): World
    requires call.Collected?
  {
    if down || !DeleteMatches(w, call.scope) then Ended(w, c)
    else
      var gone := Doomed(w, call.scope);
      Moved(w.(rows := w.rows - gone, frozen := w.frozen - gone,
               assignments := if call.scope.WholeAssignment? then w.assignments - {call.scope.assignment} else w.assignments),
            c, Dropping(call.list))
  }

  function Fetched(w: World, c: CallId, call: Call): World
    requires call.Fetching?
  {
    var key := Cover(call.edit.activity);
    if call.edit.activity !in w.versions || key !in w.rows then Ended(w, c)
    else
      var snap := Snapshot(w.versions[call.edit.activity], w.rows[key]);
      Moved(w, c, if call.edit.cover.Some? then PickingCover(call.edit, call.tries, snap)
                  else Swapping(call.edit, call.tries, snap, None))
  }

  function Picked(w: World, c: CallId, call: Call, isImage: bool): World
    requires call.PickingCover? && call.edit.cover.Some?
  {
    if isImage && Owned(w, call.edit.cover.value, call.edit.actor) then
      Moved(w, c, LinkingCover(call.edit, call.tries, call.snap, w.receipts[call.edit.cover.value].inode))
    else Ended(w, c)
  }

  function CoverLinked(w: World, c: CallId, call: Call, down: bool): World
    requires call.LinkingCover?
  {
    if !down && Linkable(w.table, call.picked) then
      Moved(w.(table := Link(w.table, call.picked)), c,
            Swapping(call.edit, call.tries, call.snap, Some(call.picked)))
    else Ended(w, c)
  }

  function LostRace(call: Call): Call
    requires call.Swapping?
  {
    match call.newCover
    case Some(lost) => Undoing(call.edit, call.tries, lost)
    case None => Retry(call.edit, call.tries)
  }

  /** The compare-and-swap: on success the replaced cover is dropped, on a lost race the new
      one is undone before the retry, on any other error it is undone for good. */
  function Swapped(w: World, c: CallId, call: Call, down: bool): World
    requires call.Swapping? && call.edit.activity in w.versions
  {
    var a := call.edit.activity;
    if down then Moved(w, c, Dropping(OptionSeq(call.newCover)))
    else if w.versions[a] != call.snap.version then
      Moved(w, c, LostRace(call))
    else
      Moved(w.(rows := w.rows[Cover(a) := if call.newCover.Some? then [call.newCover.value] else call.snap.cover],
               versions := w.versions[a := w.versions[a] + 1]),
            c, Dropping(if call.newCover.Some? then call.snap.cover else []))
  }

  /** One candidate of the sweep; the call of a deleted row goes on to remove its object. */
  ghost function Swept(w: World, c: CallId, id: InodeId): World {
    var referenced := id in References(w);
    var next := w.(table := Reclaim(w.table, id, referenced));
    if Reclaims(w.table, id, referenced) then Moved(next, c, Removing(w.table[id].hash)) else next
  }

  ghost function Step(w: World, a: Action): World
    requires Enabled(w, a)
  {
    match a
    case CopyBytes(c, hash) => Moved(w.(objects := w.objects + {hash}), c, Copied(hash))
    case ClaimUpload(c, uploader, upload, newId) =>
      Claimed(w, c, w.calls[c].hash, uploader, upload, newId)
    case Expire(expired) => Expired(w, expired)
    case Refer(c, target, actor, uploads) => Moved(w, c, Resolving(target, actor, uploads, []))
    case ResolveNext(c) => Resolved(w, c, w.calls[c])
    case BeginLinking(c) => Moved(w, c, Linking(w.calls[c].target, w.calls[c].files, 0))
    case LinkNext(c, down) => LinkedNext(w, c, w.calls[c], down)
    case WriteRow(c, refused) => Written(w, c, w.calls[c], refused)
    case CreateAssignment(assignment) => w.(assignments := w.assignments + {assignment})
    case Detach(c, key) => Moved(w.(rows := w.rows - {key}), c, Dropping(w.rows[key]))
    case CollectRows(c, scope, list) => Moved(w, c, Collected(scope, list))
    case DeleteRows(c, down) => Deleted(w, c, w.calls[c], down)
    case TurnIn(draft) => w.(frozen := w.frozen + {draft})
    case DropNext(c, down) =>
      var drops := w.calls[c].drops;
      Moved(Unlinked(w, drops[0], down), c, Dropping(drops[1..]))
    case StartEdit(c, edit) => Moved(w, c, Fetching(edit, 0))
    case FetchActivity(c) => Fetched(w, c, w.calls[c])
    case PickCover(c, isImage) => Picked(w, c, w.calls[c], isImage)
    case LinkCover(c, down) => CoverLinked(w, c, w.calls[c], down)
    case SwapRow(c, down) => Swapped(w, c, w.calls[c], down)
    case UndoCover(c, down) =>
      Moved(Unlinked(w, w.calls[c].lost, down), c, Retry(w.calls[c].edit, w.calls[c].tries))
    case SweepOne(c, id) => Swept(w, c, id)
    case RemoveBytes(c) => Ended(w.(objects := w.objects - {w.calls[c].hash}), c)
    case Return(c) => Ended(w, c)
    case Crash(c) => Ended(w.(leaked := w.leaked + CallHolds(w.calls[c])), c)
  }

  /** The runs: each action is enabled where it happens. */
  ghost predicate IsRun(w: World, actions: seq<Action>)
    decreases |actions|
  {
    actions == [] || (Enabled(w, actions[0]) && IsRun(Step(w, actions[0]), actions[1..]))
  }

  ghost function After(w: World, actions: seq<Action>): World
    requires IsRun(w, actions)
    decreases |actions|
  {
    if actions == [] then w else After(Step(w, actions[0]), actions[1..])
  }

  ghost predicate Leads(w: World, actions: seq<Action>, last: World) {
    IsRun(w, actions) && After(w, actions) == last
  }

  lemma LeadsFrom(w: World, run: seq<Action>, k: nat, last: World)
    requires k < |run| && Enabled(w, run[k]) && Leads(Step(w, run[k]), run[k + 1..], last)
    ensures Leads(w, run[k..], last)
  {
    assert run[k..][1..] == run[k + 1..];
  }
}
