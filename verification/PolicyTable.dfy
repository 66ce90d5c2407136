/** The policy table as its methods change it, and what a history of edits, boots and resets does
    to one pair. */
module PolicyTable {
  import opened Wrappers
  import opened Collections
  import opened StaffCheck
  import opened PolicyStore

  // ---- Inserting a policy row by row ------------------------------------------------------------------

  function Appended(t: Table, bodies: seq<Body>): Table {
    Table(t.rows + NewRows(bodies, t.nextId), t.nextId + |bodies|)
  }

  lemma RepeatIsStored(t: Table, key: Key, p: Policy, j: nat, n: nat)
    requires j < n < |Bodies(key, p)| && Entries(key, p)[j] == Entries(key, p)[n]
    ensures Stored(Appended(t, Bodies(key, p)[..n]).rows, Bodies(key, p)[n])
  {
    var r := Appended(t, Bodies(key, p)[..n]).rows[|t.rows| + j];
    assert IndexEntry(r.body) == Entries(key, p)[j];
  }

  lemma FindRow(rows: seq<Row>, b: Body) returns (i: nat)
    requires Stored(rows, b)
    ensures i < |rows| && IndexEntry(rows[i].body) == IndexEntry(b)
  {
    var r :| r in rows && IndexEntry(r.body) == IndexEntry(b);
    i :| i < |rows| && rows[i] == r;
  }

  lemma StoredIsRepeat(t: Table, key: Key, p: Policy, n: nat) returns (j: nat)
    requires n < |Bodies(key, p)| && !Knows(t.rows, key)
    requires Stored(Appended(t, Bodies(key, p)[..n]).rows, Bodies(key, p)[n])
    ensures j < n && Entries(key, p)[j] == Entries(key, p)[n]
  {
    var rows := Appended(t, Bodies(key, p)[..n]).rows;
    var i := FindRow(rows, Bodies(key, p)[n]);
    assert rows[i].body.key == key;
    assert !(i < |t.rows|) by {
      forall k: nat | k < |t.rows| ensures rows[k].body.key != key {
        assert rows[k] == t.rows[k] && t.rows[k] in t.rows;
      }
    }
    j := i - |t.rows|;
  }

  lemma AppendKeepsValid(t: Table, b: Body)
    requires Valid(t) && WellShaped(b) && !Stored(t.rows, b)
    ensures Valid(Table(t.rows + [Row(t.nextId, b, true)], t.nextId + 1))
  {
    forall i | 0 <= i < |t.rows| ensures IndexEntry(t.rows[i].body) != IndexEntry(b) && t.rows[i].id < t.nextId {
      assert t.rows[i] in t.rows;
    }
  }

  method InsertRow(t: Table, b: Body) returns (r: Result<Table, PolicyStore.Error>)
    ensures if !WellShaped(b) then r == Failure(Malformed)
      else if Stored(t.rows, b) then r == Failure(PermissionExists)
      else r == Success(Table(t.rows + [Row(t.nextId, b, true)], t.nextId + 1))
  {
    if !WellShaped(b) { return Failure(Malformed); }
    if Stored(t.rows, b) { return Failure(PermissionExists); }
    return Success(Table(t.rows + [Row(t.nextId, b, true)], t.nextId + 1));
  }

  ghost predicate InsertedUpTo(t: Table, key: Key, p: Policy, n: nat, work: Table) {
    && n <= |Bodies(key, p)|
    && work == Appended(t, Bodies(key, p)[..n])
    && NoRepeats(Entries(key, p)[..n])
  }

  lemma OneMoreInserted(t: Table, key: Key, p: Policy, n: nat, work: Table)
    requires InsertedUpTo(t, key, p, n, work) && n < |Bodies(key, p)| && !Knows(t.rows, key)
    ensures Stored(work.rows, Bodies(key, p)[n]) ==> !Distinct(p)
    ensures !Stored(work.rows, Bodies(key, p)[n]) ==>
      InsertedUpTo(t, key, p, n + 1, Table(work.rows + [Row(work.nextId, Bodies(key, p)[n], true)], work.nextId + 1))
  {
    var b := Bodies(key, p)[n];
    if Stored(work.rows, b) {
      var j := StoredIsRepeat(t, key, p, n);
      IndexAdmitsIff(key, p);
    } else {
      forall j | 0 <= j < n ensures Entries(key, p)[j] != Entries(key, p)[n] {
        if Entries(key, p)[j] == Entries(key, p)[n] {
          RepeatIsStored(t, key, p, j, n);
        }
      }
      assert Bodies(key, p)[..n + 1] == Bodies(key, p)[..n] + [b];
      assert work.rows + [Row(work.nextId, b, true)] == Appended(t, Bodies(key, p)[..n + 1]).rows;
    }
  }

  method InsertNext(ghost t: Table, key: Key, ghost p: Policy, ghost n: nat, work: Table, b: Body)
    returns (r: Result<Table, PolicyStore.Error>)
    requires InsertedUpTo(t, key, p, n, work) && n < |Bodies(key, p)| && b == BodyAt(key, p, n)
    requires !Knows(t.rows, key)
    ensures r.Failure? ==> !Distinct(p)
    ensures r.Success? ==> InsertedUpTo(t, key, p, n + 1, r.value)
  {
    OneMoreInserted(t, key, p, n, work);
    r := InsertRow(work, b);
  }

  lemma NewRowDiffers(t: Table, key: Key, p: Policy, i: nat, j: nat)
    requires i < j < |t.rows| + |Bodies(key, p)| && |t.rows| <= j
    requires !Knows(t.rows, key) && Distinct(p)
    ensures var rows := Appended(t, Bodies(key, p)).rows; IndexEntry(rows[i].body) != IndexEntry(rows[j].body)
  {
    var rows := Appended(t, Bodies(key, p)).rows;
    assert rows[j].body == BodyAt(key, p, j - |t.rows|);
    if i < |t.rows| {
      assert rows[i] == t.rows[i] && t.rows[i] in t.rows;
    } else {
      IndexAdmitsIff(key, p);
      assert Entries(key, p)[i - |t.rows|] != Entries(key, p)[j - |t.rows|];
    }
  }

  lemma AppendedIsValid(t: Table, key: Key, p: Policy)
    requires Valid(t) && !Knows(t.rows, key) && Distinct(p)
    ensures Valid(Appended(t, Bodies(key, p)))
  {
    var rows := Appended(t, Bodies(key, p)).rows;
    forall i, j | 0 <= i < j < |rows| ensures IndexEntry(rows[i].body) != IndexEntry(rows[j].body) {
      if j >= |t.rows| {
        NewRowDiffers(t, key, p, i, j);
      }
    }
    forall i, j | 0 <= i < j < |rows| ensures rows[i].id != rows[j].id {
      if i < |t.rows| <= j {
        assert t.rows[i] in t.rows;
      }
    }
  }

  lemma NoneInserted(t: Table, key: Key, p: Policy)
    ensures InsertedUpTo(t, key, p, 0, t)
  {
    assert t.rows + NewRows(Bodies(key, p)[..0], t.nextId) == t.rows;
  }

  lemma AllInserted(t: Table, key: Key, p: Policy, work: Table)
    requires InsertedUpTo(t, key, p, |p.staff| + |p.offering|, work)
    ensures work == Appended(t, Bodies(key, p)) && Distinct(p)
  {
    assert Bodies(key, p)[..|Bodies(key, p)|] == Bodies(key, p);
    assert Entries(key, p)[..|Bodies(key, p)|] == Entries(key, p);
    IndexAdmitsIff(key, p);
  }

  /** Two loops, the staff permissions and then the offering seats. It stops at the first row the
      unique index refuses, which it meets exactly when the policy repeats a permission. */
  method InsertPolicy(t: Table, key: Key, p: Policy) returns (r: Result<Table, PolicyStore.Error>)
    requires !Knows(t.rows, key)
    ensures r.Success? <==> Distinct(p)
    ensures r.Success? ==> r.value == Appended(t, Bodies(key, p))
  {
    var work := t;
    NoneInserted(t, key, p);
    for i := 0 to |p.staff|
      invariant InsertedUpTo(t, key, p, i, work)
    {
      r := InsertNext(t, key, p, i, work, StaffBody(key, p.staff[i]));
      if r.Failure? { return; }
      work := r.value;
    }
    for i := 0 to |p.offering|
      invariant InsertedUpTo(t, key, p, |p.staff| + i, work)
    {
      r := InsertNext(t, key, p, |p.staff| + i, work, OfferingBody(key, p.offering[i]));
      if r.Failure? { return; }
      work := r.value;
    }
    AllInserted(t, key, p, work);
    return Success(work);
  }

  // ---- Seeding -------------------------------------------------------------------------------------------

  /** What one pair reads afterwards: its default when it was seeded, and else what it read. */
  ghost predicate PairSeeded(before: Table, after: Table, done: set<Key>, defaults: map<Key, Policy>, k: Key)
    requires done <= defaults.Keys
  {
    && PolicyOf(after.rows, k) == (if k in done then defaults[k] else PolicyOf(before.rows, k))
    && (Knows(after.rows, k) <==> Knows(before.rows, k) || (k in done && defaults[k] != NOBODY))
  }

  /** The table before with the default policies of the pairs in done, and nothing else, added. */
  ghost predicate Seeded(before: Table, after: Table, done: set<Key>, defaults: map<Key, Policy>) {
    && done <= defaults.Keys
    && before.rows <= after.rows && before.nextId <= after.nextId
    && forall k :: PairSeeded(before, after, done, defaults, k)
  }

  lemma OneMoreSeeded(before: Table, work: Table, done: set<Key>, defaults: map<Key, Policy>, key: Key)
    requires Seeded(before, work, done, defaults)
    requires key in defaults && key !in done && !Knows(work.rows, key)
    ensures Seeded(before, Appended(work, Bodies(key, defaults[key])), done + {key}, defaults)
  {
    var after := Appended(work, Bodies(key, defaults[key]));
    forall k ensures PairSeeded(before, after, done + {key}, defaults, k) {
      assert PairSeeded(before, work, done, defaults, k);
      InsertedPolicyReads(work.rows, key, defaults[key], work.nextId, k);
    }
  }

  method InsertUnknown(ghost before: Table, ghost done: set<Key>, work: Table, key: Key, defaults: map<Key, Policy>)
    returns (r: Result<Table, PolicyStore.Error>)
    requires Valid(work) && Seeded(before, work, done, defaults)
    requires key in defaults && key !in done && !Knows(before.rows, key)
    ensures r.Success? <==> Distinct(defaults[key])
    ensures r.Success? ==> Valid(r.value) && Seeded(before, r.value, done + {key}, defaults)
  {
    assert PairSeeded(before, work, done, defaults, key);
    r := InsertPolicy(work, key, defaults[key]);
    OneMoreSeeded(before, work, done, defaults, key);
    if r.Success? {
      AppendedIsValid(work, key, defaults[key]);
    }
  }

  method KnownPairs(rows: seq<Row>) returns (known: map<Key, bool>)
    ensures forall k :: k in known <==> Knows(rows, k)
    ensures forall k :: k in known ==> known[k]
  {
    known := map[];
    for i := 0 to |rows|
      invariant forall k :: k in known <==> Knows(rows[..i], k)
      invariant forall k :: k in known ==> known[k]
    {
      assert rows[..i + 1] == rows[..i] + [rows[i]];
      known := known[rows[i].body.key := true];
    }
    assert rows[..|rows|] == rows;
  }

  ghost predicate AllDistinct(keys: set<Key>, defaults: map<Key, Policy>)
    requires keys <= defaults.Keys
  {
    forall k :: k in keys ==> Distinct(defaults[k])
  }

  ghost function Missing(rows: seq<Row>, defaults: map<Key, Policy>): set<Key> {
    set k | k in defaults && !Knows(rows, k)
  }

  /** The unknown pairs outside rest are installed and repeat nothing. */
  ghost predicate SeededBut(before: Table, work: Table, rest: set<Key>, defaults: map<Key, Policy>) {
    var done := Missing(before.rows, defaults) - rest;
    Valid(work) && Seeded(before, work, done, defaults) && AllDistinct(done, defaults)
  }

  lemma SeededAll(before: Table, work: Table, defaults: map<Key, Policy>)
    requires SeededBut(before, work, {}, defaults)
    ensures var missing := Missing(before.rows, defaults);
      Valid(work) && Seeded(before, work, missing, defaults) && AllDistinct(missing, defaults)
  {
    assert Missing(before.rows, defaults) - {} == Missing(before.rows, defaults);
  }

  method SeedPair(ghost before: Table, work: Table, ghost rest: set<Key>, known: bool, defaults: map<Key, Policy>, key: Key)
    returns (r: Result<Table, PolicyStore.Error>)
    requires SeededBut(before, work, rest, defaults) && key in rest && key in defaults
    requires known <==> Knows(before.rows, key)
    ensures r.Failure? ==> !AllDistinct(Missing(before.rows, defaults), defaults)
    ensures r.Success? ==> SeededBut(before, r.value, rest - {key}, defaults)
  {
    ghost var done := Missing(before.rows, defaults) - rest;
    if known {
      assert Missing(before.rows, defaults) - (rest - {key}) == done;
      return Success(work);
    }
    assert Missing(before.rows, defaults) - (rest - {key}) == done + {key};
    r := InsertUnknown(before, done, work, key, defaults);
  }

  /** Installs the policies of the pairs that known does not list, taking the pairs of the map in
      any order. */
  method InsertMissing(before: Table, known: map<Key, bool>, defaults: map<Key, Policy>)
    returns (r: Result<Table, PolicyStore.Error>)
    requires Valid(before)
    requires forall k :: k in known <==> Knows(before.rows, k)
    requires forall k :: k in known ==> known[k]
    ensures r.Success? <==> AllDistinct(Missing(before.rows, defaults), defaults)
    ensures r.Success? ==> Valid(r.value) && Seeded(before, r.value, Missing(before.rows, defaults), defaults)
  {
    var work := before;
    var rest := defaults.Keys;
    while rest != {}
      invariant rest <= defaults.Keys
      invariant SeededBut(before, work, rest, defaults)
      decreases |rest|
    {
      var key :| key in rest;
      r := SeedPair(before, work, rest, key in known && known[key], defaults, key);
      if r.Failure? { return; }
      work := r.value;
      rest := rest - {key};
    }
    SeededAll(before, work, defaults);
    return Success(work);
  }

  /** One row loses its active flag. */
  function Deactivated(rows: seq<Row>, id: nat): (after: seq<Row>)
    ensures |after| == |rows|
    ensures forall i :: 0 <= i < |rows| ==> after[i] == if rows[i].id == id then rows[i].(active := false) else rows[i]
  {
    seq(|rows|, i requires 0 <= i < |rows| => if rows[i].id == id then rows[i].(active := false) else rows[i])
  }

  datatype Op = Create(b: Body) | Deactivate(id: nat) | SeedAll(defaults: map<Key, Policy>) | ResetAll(defaults: map<Key, Policy>)

  /** What one call may do to the table: nothing, or the one change its operation stands for. */
  ghost predicate Next(before: Table, op: Op, after: Table) {
    || before == after
    || (op.Create? && !Stored(before.rows, op.b) && after.rows == before.rows + [Row(before.nextId, op.b, true)])
    || (op.Deactivate? && after.rows == Deactivated(before.rows, op.id))
    || (op.SeedAll? && Seeded(before, after, Missing(before.rows, op.defaults), op.defaults))
    || (op.ResetAll? && ReadsDefaults(after, op.defaults))
  }

  ghost predicate ReadsDefaults(t: Table, defaults: map<Key, Policy>) {
    forall k :: PolicyOf(t.rows, k) == if k in defaults then defaults[k] else NOBODY
  }

  class Store {
    var table: Table

    constructor ()
      ensures table == Table([], 0) && Valid(table)
    {
      table := Table([], 0);
    }

    /** up is false when the database does not answer. */
    method PolicyFor(key: Key, up: bool) returns (r: Result<Policy, PolicyStore.Error>)
      ensures r == if up then Success(PolicyOf(table.rows, key)) else Failure(StoreDown)
    {
      if !up { return Failure(StoreDown); }
      var p := AssemblePolicy(ActiveRows(table.rows, key));
      return Success(p);
    }

    method CreatePermission(b: Body, up: bool) returns (r: Result<Row, PolicyStore.Error>)
      requires Valid(table)
      modifies this
      ensures Valid(table)
      ensures r.Success? <==> up && WellShaped(b) && !Stored(old(table).rows, b)
      ensures r.Success? ==> r.value == Row(old(table).nextId, b, true)
      ensures table.rows == if r.Success? then old(table).rows + [r.value] else old(table).rows
      ensures r == Failure(PermissionExists) <==> up && WellShaped(b) && Stored(old(table).rows, b)
      ensures Next(old(table), Create(b), table)
    {
      if !up { return Failure(StoreDown); }
      var created := table.nextId;
      var inserted := InsertRow(table, b);
      if inserted.Failure? { return Failure(inserted.error); }
      AppendKeepsValid(table, b);
      table := inserted.value;
      return Success(Row(created, b, true));
    }

    method DeactivatePermission(id: nat, up: bool) returns (r: Result<(), PolicyStore.Error>)
      requires Valid(table)
      modifies this
      ensures Valid(table)
      ensures r.Success? <==> up && exists row :: row in old(table).rows && row.id == id && row.active
      ensures table.rows == if r.Success? then Deactivated(old(table).rows, id) else old(table).rows
      ensures Next(old(table), Deactivate(id), table)
    {
      if !up { return Failure(StoreDown); }
      if !(exists row :: row in table.rows && row.id == id && row.active) { return Failure(PermissionNotFound); }
      table := table.(rows := Deactivated(table.rows, id));
      return Success(());
    }

    /** One transaction: all the missing defaults or no change. */
    method Seed(defaults: map<Key, Policy>, up: bool) returns (r: Result<(), PolicyStore.Error>)
      requires Valid(table)
      modifies this
      ensures Valid(table)
      ensures r.Success? <==> up && AllDistinct(Missing(old(table).rows, defaults), defaults)
      ensures if r.Success? then Seeded(old(table), table, Missing(old(table).rows, defaults), defaults) else table == old(table)
      ensures Next(old(table), SeedAll(defaults), table)
    {
      if !up { return Failure(StoreDown); }
      var known := KnownPairs(table.rows);
      var seeded := InsertMissing(table, known, defaults);
      if seeded.Failure? { return Failure(seeded.error); }
      table := seeded.value;
      return Success(());
    }

    /** One transaction: afterwards each pair reads its default, or nobody. */
    method Reset(defaults: map<Key, Policy>, up: bool) returns (r: Result<(), PolicyStore.Error>)
      requires Valid(table)
      modifies this
      ensures r.Success? <==> up && AllDistinct(defaults.Keys, defaults)
      ensures Valid(table)
      ensures r.Failure? ==> table == old(table)
      ensures r.Success? ==> ReadsDefaults(table, defaults)
      ensures Next(old(table), ResetAll(defaults), table)
    {
      if !up { return Failure(StoreDown); }
      var cleared := Table([], table.nextId);
      var seeded := InsertMissing(cleared, map[], defaults);
      assert Missing(cleared.rows, defaults) == defaults.Keys;
      if seeded.Failure? { return Failure(seeded.error); }
      forall k ensures PolicyOf(seeded.value.rows, k) == if k in defaults then defaults[k] else NOBODY {
        assert PairSeeded(cleared, seeded.value, defaults.Keys, defaults, k);
      }
      table := seeded.value;
      return Success(());
    }
  }

  // ---- What was switched off stays off -----------------------------------------------------------------------

  /** The pair has rows and none of them is active. */
  ghost predicate SwitchedOff(t: Table, key: Key) {
    Knows(t.rows, key) && ActiveRows(t.rows, key) == []
  }

  ghost predicate StepAt(tables: seq<Table>, ops: seq<Op>, i: nat)
    requires i < |ops| < |tables|
  {
    Valid(tables[i]) && Valid(tables[i + 1]) && Next(tables[i], ops[i], tables[i + 1])
  }

  ghost predicate History(tables: seq<Table>, ops: seq<Op>) {
    |tables| == |ops| + 1 && forall i: nat :: i < |ops| ==> StepAt(tables, ops, i)
  }

  lemma Shorter(tables: seq<Table>, ops: seq<Op>)
    requires History(tables, ops) && |ops| > 0
    ensures History(tables[..|ops|], ops[..|ops| - 1])
    ensures StepAt(tables, ops, |ops| - 1)
  {
    var shortTables, shortOps := tables[..|ops|], ops[..|ops| - 1];
    forall i: nat | i < |shortOps| ensures StepAt(shortTables, shortOps, i) {
      assert StepAt(tables, ops, i);
    }
  }

  lemma {:induction false} DeactivatingKeepsOff(rows: seq<Row>, id: nat, key: Key)
    requires ActiveRows(rows, key) == []
    ensures ActiveRows(Deactivated(rows, id), key) == []
  {
    if rows != [] {
      DeactivatingKeepsOff(rows[..|rows| - 1], id, key);
      assert Deactivated(rows, id)[..|rows| - 1] == Deactivated(rows[..|rows| - 1], id);
    }
  }

  lemma {:induction false} OffIsNobody(rows: seq<Row>, key: Key)
    requires forall r :: r in rows ==> WellShaped(r.body)
    ensures PolicyOf(rows, key) == NOBODY <==> ActiveRows(rows, key) == []
  {
    if rows != [] {
      var k := |rows| - 1;
      OffIsNobody(rows[..k], key);
      PolicyGrows(rows[..k], rows[k], key);
      assert rows == rows[..k] + [rows[k]];
      assert rows[k] in rows;
    }
  }

  lemma CreateKeepsOff(rows: seq<Row>, r: Row, key: Key)
    requires ActiveRows(rows, key) == [] && Knows(rows, key) && r.body.key != key
    ensures ActiveRows(rows + [r], key) == [] && Knows(rows + [r], key)
  {
    assert (rows + [r])[..|rows|] == rows;
    var q :| q in rows && q.body.key == key;
    assert q in rows + [r];
  }

  lemma DeactivateKeepsKnown(rows: seq<Row>, id: nat, key: Key)
    requires Knows(rows, key)
    ensures Knows(Deactivated(rows, id), key)
  {
    var r :| r in rows && r.body.key == key;
    var i :| 0 <= i < |rows| && rows[i] == r;
    assert Deactivated(rows, id)[i] in Deactivated(rows, id);
  }

  lemma SeedKeepsOff(before: Table, after: Table, defaults: map<Key, Policy>, key: Key)
    requires Valid(before) && Valid(after) && SwitchedOff(before, key)
    requires Seeded(before, after, Missing(before.rows, defaults), defaults)
    ensures SwitchedOff(after, key)
  {
    OffIsNobody(before.rows, key);
    OffIsNobody(after.rows, key);
    assert PairSeeded(before, after, Missing(before.rows, defaults), defaults, key);
  }

  lemma StepKeepsOff(before: Table, op: Op, after: Table, key: Key)
    requires Valid(before) && Valid(after) && Next(before, op, after) && SwitchedOff(before, key)
    requires !op.ResetAll? && (op.Create? ==> op.b.key != key)
    ensures SwitchedOff(after, key)
  {
    if before != after {
      match op
      case Create(b) => CreateKeepsOff(before.rows, Row(before.nextId, b, true), key);
      case Deactivate(id) =>
        DeactivatingKeepsOff(before.rows, id, key);
        DeactivateKeepsKnown(before.rows, id, key);
      case SeedAll(defaults) => SeedKeepsOff(before, after, defaults, key);
    }
  }

  /** A pair whose rows are all switched off stays closed to everyone through any number of boots,
      deactivations and edits of other pairs: only a new permission of its own, or a reset, opens
      it. */
  lemma {:induction false} SwitchedOffStaysOff(tables: seq<Table>, ops: seq<Op>, key: Key)
    requires History(tables, ops) && SwitchedOff(tables[0], key)
    requires forall i :: 0 <= i < |ops| ==> !ops[i].ResetAll? && (ops[i].Create? ==> ops[i].b.key != key)
    ensures SwitchedOff(tables[|ops|], key) && PolicyOf(tables[|ops|].rows, key) == NOBODY
    decreases |ops|
  {
    var n := |ops|;
    if n > 0 {
      Shorter(tables, ops);
      SwitchedOffStaysOff(tables[..n], ops[..n - 1], key);
      StepKeepsOff(tables[n - 1], ops[n - 1], tables[n], key);
    }
    assert Assembled([]) == NOBODY;
  }

  lemma StoredStays(before: Table, op: Op, after: Table, b: Body)
    requires Next(before, op, after) && !op.ResetAll? && Stored(before.rows, b)
    ensures Stored(after.rows, b)
  {
    var r :| r in before.rows && IndexEntry(r.body) == IndexEntry(b);
    var i :| 0 <= i < |before.rows| && before.rows[i] == r;
    assert after.rows[i].body == r.body && after.rows[i] in after.rows;
  }

  lemma {:induction false} StoredTuplesStay(tables: seq<Table>, ops: seq<Op>, b: Body)
    requires History(tables, ops) && Stored(tables[0].rows, b)
    requires forall i :: 0 <= i < |ops| ==> !ops[i].ResetAll?
    ensures Stored(tables[|ops|].rows, b)
    decreases |ops|
  {
    var n := |ops|;
    if n > 0 {
      Shorter(tables, ops);
      StoredTuplesStay(tables[..n], ops[..n - 1], b);
      StoredStays(tables[n - 1], ops[n - 1], tables[n], b);
    }
  }

  /** The unique index counts inactive rows too: once a permission was stored, creating it again is
      refused until a reset, also after it was switched off. */
  lemma SwitchedOffCannotBeCreated(tables: seq<Table>, ops: seq<Op>, b: Body)
    requires |ops| > 0 && History(tables, ops) && Stored(tables[0].rows, b)
    requires forall i :: 0 <= i < |ops| ==> !ops[i].ResetAll?
    requires ops[|ops| - 1] == Create(b)
    ensures tables[|ops|] == tables[|ops| - 1]
  {
    var n := |ops|;
    Shorter(tables, ops);
    StoredTuplesStay(tables[..n], ops[..n - 1], b);
  }

  function OneRow(b: Body, active: bool): Table { Table([Row(0, b, active)], 1) }

  /** From the empty table, with any permission: create it, switch it off, create it again. The third
      operation finds the tuple stored and leaves it switched off. */
  lemma CreatedAgainIsRefused(b: Body)
    requires WellShaped(b)
    ensures var tables := [Table([], 0), OneRow(b, true), OneRow(b, false), OneRow(b, false)];
      History(tables, [Create(b), Deactivate(0), Create(b)])
    ensures forall after :: Next(OneRow(b, false), Create(b), after) ==> after == OneRow(b, false)
    ensures SwitchedOff(OneRow(b, false), b.key)
  {
    var tables := [Table([], 0), OneRow(b, true), OneRow(b, false), OneRow(b, false)];
    var ops := [Create(b), Deactivate(0), Create(b)];
    assert Row(0, b, false) in OneRow(b, false).rows;
    assert Next(tables[0], ops[0], tables[1]);
    assert Deactivated(tables[1].rows, 0) == tables[2].rows;
    assert Stored(tables[2].rows, b);
    assert StepAt(tables, ops, 0) && StepAt(tables, ops, 1) && StepAt(tables, ops, 2);
    assert OneRow(b, false).rows[..0] == [];
  }
}
