/** Two rows that are edited field by field under the version check: a student, and the
    institution's subscription with its limit overrides. */
module PatchedRows {
  import opened Wrappers
  import opened VersionedRow

  // ---- Students --------------------------------------------------------------------------

  datatype Shift = Day | Evening
  datatype Tuition = Free | Paid
  datatype StudentStatus = Active | Graduated | Withdrawn | Suspended | OnLeave

  datatype Student = Student(currentYear: int, currentCohortYear: int, shift: Shift, tuition: Tuition, status: StudentStatus)

  /** A partial edit; None leaves the field alone. */
  datatype StudentUpdate = StudentUpdate(currentYear: Option<int>, currentCohortYear: Option<int>,
                                         shift: Option<Shift>, tuition: Option<Tuition>, status: Option<StudentStatus>)

  function Or<T>(o: Option<T>, current: T): T {
    match o case Some(v) => v case None => current
  }

  function PatchStudent(u: StudentUpdate, s: Student): Option<Student> {
    Some(Student(Or(u.currentYear, s.currentYear), Or(u.currentCohortYear, s.currentCohortYear),
                 Or(u.shift, s.shift), Or(u.tuition, s.tuition), Or(u.status, s.status)))
  }

  /** Concurrent edits of a student merge field by field: after any run each field holds what the
      last committed edit of that field said, whatever was committed to the other fields. */
  lemma StudentEditsMerge(first: Student, w: World<Student, StudentUpdate>)
    requires Reachable(PatchStudent, first, w)
    ensures w.row.currentYear == LastSet((u: StudentUpdate) => u.currentYear, w.commits, first.currentYear)
    ensures w.row.currentCohortYear == LastSet((u: StudentUpdate) => u.currentCohortYear, w.commits, first.currentCohortYear)
    ensures w.row.shift == LastSet((u: StudentUpdate) => u.shift, w.commits, first.shift)
    ensures w.row.tuition == LastSet((u: StudentUpdate) => u.tuition, w.commits, first.tuition)
    ensures w.row.status == LastSet((u: StudentUpdate) => u.status, w.commits, first.status)
  {
    RowIsCommitsInOrder(PatchStudent, first, w);
    ColumnsMerge(PatchStudent, (s: Student) => s.currentYear, (u: StudentUpdate) => u.currentYear, first, w.commits);
    ColumnsMerge(PatchStudent, (s: Student) => s.currentCohortYear, (u: StudentUpdate) => u.currentCohortYear, first, w.commits);
    ColumnsMerge(PatchStudent, (s: Student) => s.shift, (u: StudentUpdate) => u.shift, first, w.commits);
    ColumnsMerge(PatchStudent, (s: Student) => s.tuition, (u: StudentUpdate) => u.tuition, first, w.commits);
    ColumnsMerge(PatchStudent, (s: Student) => s.status, (u: StudentUpdate) => u.status, first, w.commits);
  }

  /** No edit of a student is refused. */
  lemma EditIsAccepted(u: StudentUpdate, s: Student)
    ensures PatchStudent(u, s).Some?
  {
  }

  // ---- The subscription --------------------------------------------------------------------

  datatype Tier = TierFree | TierBasic | TierPremium

  datatype LimitName = Colleges | Departments | Programs | Students | Applications | Staff | Storage | FileSize

  /** The nil overrides are the names without an entry. */
  datatype Subscription = Subscription(tier: Tier, overrides: map<LimitName, int>)

  datatype SubscriptionChange = SetTier(tier: Tier) | SetOverrides(overrides: map<LimitName, int>) | ClearOverrides

  function Change(c: SubscriptionChange, s: Subscription): Option<Subscription> {
    match c
    case SetTier(tier) => Some(s.(tier := tier))
    case SetOverrides(overrides) => Some(s.(overrides := s.overrides + overrides))
    case ClearOverrides => Some(s.(overrides := map[]))
  }

  /** The limits in force: the tier's own with the overrides laid over them. */
  function Effective(tiers: map<Tier, map<LimitName, int>>, s: Subscription): map<LimitName, int> {
    (if s.tier in tiers then tiers[s.tier] else map[]) + s.overrides
  }

  function OverrideOf(name: LimitName, s: Subscription): Option<int> {
    if name in s.overrides then Some(s.overrides[name]) else None
  }

  /** Which changes decide one override, and with what: setting it, or clearing them all. */
  function DecidesOverride(name: LimitName, c: SubscriptionChange): Option<Option<int>> {
    match c
    case SetTier(_) => None
    case SetOverrides(overrides) => if name in overrides then Some(Some(overrides[name])) else None
    case ClearOverrides => Some(None)
  }

  function DecidesTier(c: SubscriptionChange): Option<Tier> {
    match c case SetTier(tier) => Some(tier) case _ => None
  }

  /** After any run of concurrent changes every limit in force is decided by the last committed
      change that touches it, and by the tier when that change cleared it or there is none; a limit
      that neither sets is not in force at all. */
  lemma LimitsHaveLastWord(first: Subscription, w: World<Subscription, SubscriptionChange>,
                           tiers: map<Tier, map<LimitName, int>>, name: LimitName)
    requires Reachable(Change, first, w)
    ensures w.row.tier == LastSet(DecidesTier, w.commits, first.tier)
    ensures match LastSet((c: SubscriptionChange) => DecidesOverride(name, c), w.commits, OverrideOf(name, first))
      case Some(limit) => name in Effective(tiers, w.row) && Effective(tiers, w.row)[name] == limit
      case None =>
        var own := if w.row.tier in tiers then tiers[w.row.tier] else map[];
        && (name in own ==> name in Effective(tiers, w.row) && Effective(tiers, w.row)[name] == own[name])
        && (name !in own ==> name !in Effective(tiers, w.row))
  {
    RowIsCommitsInOrder(Change, first, w);
    ColumnsMerge(Change, (s: Subscription) => s.tier, DecidesTier, first, w.commits);
    ColumnsMerge(Change, (s: Subscription) => OverrideOf(name, s), (c: SubscriptionChange) => DecidesOverride(name, c),
                 first, w.commits);
  }

  /** Every commit leaves exactly one history entry, with the subscription as it then was; the
      newest entry is the row. */
  lemma HistoryTellsEveryChange(first: Subscription, w: World<Subscription, SubscriptionChange>, k: nat)
    requires Reachable(Change, first, w) && k < |w.commits|
    ensures |w.history| == |w.commits| == w.version
    ensures Change(w.commits[k].patch, if k == 0 then first else w.history[k - 1]) == Some(w.history[k])
    ensures w.row == w.history[|w.history| - 1]
  {
    CommitAt(Change, first, w, k);
    if k > 0 {
      CommitAt(Change, first, w, k - 1);
    } else {
      assert w.commits[..0] == [];
    }
    CommitAt(Change, first, w, |w.commits| - 1);
    assert w.commits[..|w.commits|] == w.commits;
    RowIsLast(first, w);
  }

  lemma RowIsLast(first: Subscription, w: World<Subscription, SubscriptionChange>)
    requires Reachable(Change, first, w)
    ensures w.row == Applied(Change, first, w.commits)
  {
    RowIsCommitsInOrder(Change, first, w);
  }
}
