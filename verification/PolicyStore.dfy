/** The stored permissions behind every policy: reading a pair, editing rows, seeding the missing
    defaults at boot and re-flashing them all. */
module PolicyStore {
  import opened Wrappers
  import opened Collections
  import opened StaffRoles
  import opened StaffCheck

  datatype Key = Key(resource: string, action: string)

  /** Empty denies everyone. */
  datatype Policy = Policy(staff: seq<Permission>, offering: seq<string>)

  const NOBODY: Policy := Policy([], [])

  datatype Kind = Staff | Offering | Owner

  /** The permission tuple of a row; a missing field is a NULL column. */
  datatype Body = Body(key: Key, kind: Kind, scope: Option<Scope>, minLevel: Option<Level>,
    role: Option<string>, domain: Option<string>)

  datatype Row = Row(id: nat, body: Body, active: bool)

  /** Row ids are never used twice. */
  datatype Table = Table(rows: seq<Row>, nextId: nat)

  datatype Error = PermissionExists | PermissionNotFound | Malformed | StoreDown

  // ---- Reading -------------------------------------------------------------------------------------

  function ActiveRows(rows: seq<Row>, key: Key): seq<Row> {
    if rows == [] then []
    else
      var last := rows[|rows| - 1];
      ActiveRows(rows[..|rows| - 1], key) + if last.active && last.body.key == key then [last] else []
  }

  /** One row folded into the policy so far; malformed rows are skipped. */
  function AddRow(p: Policy, b: Body): Policy {
    match b.kind
    case Staff =>
      if b.minLevel.None? || b.scope.None? then p
      else p.(staff := p.staff + [Permission(b.minLevel.value, b.scope.value, if b.domain.Some? then b.domain.value else "")])
    case Offering => if b.role.None? then p else p.(offering := p.offering + [b.role.value])
    case Owner => p
  }

  function Assembled(rows: seq<Row>): Policy {
    if rows == [] then NOBODY else AddRow(Assembled(rows[..|rows| - 1]), rows[|rows| - 1].body)
  }

  function PolicyOf(rows: seq<Row>, key: Key): Policy { Assembled(ActiveRows(rows, key)) }

  /** An active row of the pair that grants this permission. */
  ghost predicate GrantsStaff(r: Row, key: Key, p: Permission) {
    && r.active && r.body.key == key && r.body.kind == Staff && r.body.minLevel == Some(p.minLevel) && r.body.scope == Some(p.scope)
    && (r.body.domain == Some(p.domain) || (r.body.domain == None && p.domain == ""))
  }

  ghost predicate GrantsSeat(r: Row, key: Key, role: string) {
    r.active && r.body.key == key && r.body.kind == Offering && r.body.role == Some(role)
  }

  lemma {:induction false} ActiveAre(rows: seq<Row>, key: Key, r: Row)
    ensures r in ActiveRows(rows, key) <==> r in rows && r.active && r.body.key == key
    decreases |rows|
  {
    if rows != [] {
      ActiveAre(rows[..|rows| - 1], key, r);
      assert rows == rows[..|rows| - 1] + [rows[|rows| - 1]];
    }
  }

  lemma OneRowGrants(p: Policy, r: Row, key: Key, perm: Permission, role: string)
    requires r.active && r.body.key == key
    ensures perm in AddRow(p, r.body).staff <==> perm in p.staff || GrantsStaff(r, key, perm)
    ensures role in AddRow(p, r.body).offering <==> role in p.offering || GrantsSeat(r, key, role)
  {
  }

  lemma {:induction false} AssembledAre(rows: seq<Row>, key: Key, p: Permission, role: string)
    requires forall r :: r in rows ==> r.active && r.body.key == key
    ensures p in Assembled(rows).staff <==> exists r :: r in rows && GrantsStaff(r, key, p)
    ensures role in Assembled(rows).offering <==> exists r :: r in rows && GrantsSeat(r, key, role)
    decreases |rows|
  {
    if rows != [] {
      var front, last := rows[..|rows| - 1], rows[|rows| - 1];
      AssembledAre(front, key, p, role);
      OneRowGrants(Assembled(front), last, key, p, role);
      forall r ensures r in rows <==> r in front || r == last {
      }
    }
  }

  /** A pair reads exactly what its active rows grant, whatever other rows there are and however
      malformed. */
  lemma ReadsActiveRows(rows: seq<Row>, key: Key, p: Permission, role: string)
    ensures p in PolicyOf(rows, key).staff <==> exists r :: r in rows && GrantsStaff(r, key, p)
    ensures role in PolicyOf(rows, key).offering <==> exists r :: r in rows && GrantsSeat(r, key, role)
  {
    forall r ensures r in ActiveRows(rows, key) <==> r in rows && r.active && r.body.key == key {
      ActiveAre(rows, key, r);
    }
    AssembledAre(ActiveRows(rows, key), key, p, role);
  }

  ghost predicate Knows(rows: seq<Row>, key: Key) {
    exists r :: r in rows && r.body.key == key
  }

  lemma PolicyGrows(rows: seq<Row>, r: Row, key: Key)
    ensures PolicyOf(rows + [r], key) ==
      if r.active && r.body.key == key then AddRow(PolicyOf(rows, key), r.body) else PolicyOf(rows, key)
  {
    assert (rows + [r])[..|rows|] == rows;
    var found := ActiveRows(rows, key);
    assert (found + [r])[..|found|] == found;
    assert found + [] == found;
  }

  lemma {:induction false} UnknownIsNobody(rows: seq<Row>, key: Key)
    requires !Knows(rows, key)
    ensures PolicyOf(rows, key) == NOBODY
  {
    if rows != [] {
      UnknownIsNobody(rows[..|rows| - 1], key);
      PolicyGrows(rows[..|rows| - 1], rows[|rows| - 1], key);
      assert rows == rows[..|rows| - 1] + [rows[|rows| - 1]];
    }
  }

  method AssemblePolicy(rows: seq<Row>) returns (p: Policy)
    ensures p == Assembled(rows)
  {
    p := NOBODY;
    for i := 0 to |rows|
      invariant p == Assembled(rows[..i])
    {
      assert rows[..i + 1][..i] == rows[..i];
      var b := rows[i].body;
      if b.kind == Staff {
        if b.minLevel.Some? && b.scope.Some? {
          var domain := "";
          if b.domain.Some? {
            domain := b.domain.value;
          }
          p := p.(staff := p.staff + [Permission(b.minLevel.value, b.scope.value, domain)]);
        }
      } else if b.kind == Offering {
        if b.role.Some? {
          p := p.(offering := p.offering + [b.role.value]);
        }
      }
    }
    assert rows[..|rows|] == rows;
  }

  // ---- Inserting -------------------------------------------------------------------------------------

  /** The unique index sees NULL and the empty string as the same. */
  function IndexEntry(b: Body): Body {
    b.(scope := Some(if b.scope.Some? then b.scope.value else OtherScope("")),
       minLevel := Some(if b.minLevel.Some? then b.minLevel.value else OtherLevel("")),
       role := Some(if b.role.Some? then b.role.value else ""),
       domain := Some(if b.domain.Some? then b.domain.value else ""))
  }

  predicate Stored(rows: seq<Row>, b: Body) {
    exists r :: r in rows && IndexEntry(r.body) == IndexEntry(b)
  }

  predicate WellShaped(b: Body) {
    match b.kind
    case Staff => b.minLevel.Some? && b.scope.Some? && b.role.None?
    case Offering => b.role.Some? && b.minLevel.None? && b.scope.None? && b.domain.None?
    case Owner => false
  }

  /** A well-formed row is one that grants something and has no column of the other kind. */
  lemma ShapedIff(b: Body)
    ensures var pure := if b.kind == Staff then b.role == None else b.minLevel == None && b.scope == None && b.domain == None;
      WellShaped(b) <==> AddRow(NOBODY, b) != NOBODY && pure
  {
  }

  predicate SameColumn<T(==)>(a: Option<T>, b: Option<T>, empty: T) {
    a == b || (a in {None, Some(empty)} && b in {None, Some(empty)})
  }

  /** Two rows are one to the index if and only if they agree in every column, a missing value and an
      empty one being the same. */
  lemma SameEntryIff(a: Body, b: Body)
    ensures var region := SameColumn(a.scope, b.scope, OtherScope("")) && SameColumn(a.minLevel, b.minLevel, OtherLevel(""));
      var rest := SameColumn(a.role, b.role, "") && SameColumn(a.domain, b.domain, "");
      IndexEntry(a) == IndexEntry(b) <==> a.key == b.key && a.kind == b.kind && region && rest
  {
  }

  function NullIfEmpty(s: string): (o: Option<string>)
    ensures o.None? <==> |s| == 0
    ensures o.Some? ==> o.value == s
  {
    if s == "" then None else Some(s)
  }

  function StaffBody(key: Key, p: Permission): Body {
    Body(key, Staff, Some(p.scope), Some(p.minLevel), None, NullIfEmpty(p.domain))
  }

  function OfferingBody(key: Key, role: string): Body {
    Body(key, Offering, None, None, Some(role), None)
  }

  /** The n-th row of a policy: its staff permissions first, then its offering seats. */
  function BodyAt(key: Key, p: Policy, n: nat): Body
    requires n < |p.staff| + |p.offering|
  {
    if n < |p.staff| then StaffBody(key, p.staff[n]) else OfferingBody(key, p.offering[n - |p.staff|])
  }

  function Bodies(key: Key, p: Policy): (bodies: seq<Body>)
    ensures |bodies| == |p.staff| + |p.offering|
    ensures forall n :: 0 <= n < |bodies| ==> bodies[n] == BodyAt(key, p, n)
  {
    seq(|p.staff| + |p.offering|, n requires 0 <= n < |p.staff| + |p.offering| => BodyAt(key, p, n))
  }

  function NewRows(bodies: seq<Body>, firstId: nat): (rows: seq<Row>)
    ensures |rows| == |bodies|
    ensures forall i :: 0 <= i < |rows| ==> rows[i] == Row(firstId + i, bodies[i], true)
  {
    seq(|bodies|, i requires 0 <= i < |bodies| => Row(firstId + i, bodies[i], true))
  }

  /** No permission twice. */
  predicate Distinct(p: Policy) { NoRepeats(p.staff) && NoRepeats(p.offering) }

  ghost predicate IndexHolds(rows: seq<Row>) {
    forall i, j :: 0 <= i < j < |rows| ==> IndexEntry(rows[i].body) != IndexEntry(rows[j].body)
  }

  ghost predicate Valid(t: Table) {
    && IndexHolds(t.rows)
    && (forall r :: r in t.rows ==> r.id < t.nextId && WellShaped(r.body))
    && (forall i, j :: 0 <= i < j < |t.rows| ==> t.rows[i].id != t.rows[j].id)
  }

  // ---- What inserting a whole policy does ----------------------------------------------------------------

  function Joined(p: Policy, q: Policy): Policy { Policy(p.staff + q.staff, p.offering + q.offering) }

  /** The part of the policy its first n rows carry. */
  function FirstRows(p: Policy, n: nat): Policy
    requires n <= |p.staff| + |p.offering|
  {
    if n <= |p.staff| then Policy(p.staff[..n], []) else Policy(p.staff, p.offering[..n - |p.staff|])
  }

  lemma OneMoreRow(key: Key, p: Policy, n: nat, q: Policy)
    requires n < |p.staff| + |p.offering|
    ensures AddRow(Joined(q, FirstRows(p, n)), Bodies(key, p)[n]) == Joined(q, FirstRows(p, n + 1))
  {
    if n < |p.staff| {
      assert q.staff + p.staff[..n + 1] == q.staff + p.staff[..n] + [p.staff[n]];
    } else {
      var k := n - |p.staff|;
      assert p.staff[..|p.staff|] == p.staff;
      assert q.offering + p.offering[..k + 1] == q.offering + p.offering[..k] + [p.offering[k]];
    }
  }

  lemma OneMoreNewRow(rows: seq<Row>, bodies: seq<Body>, n: nat, firstId: nat)
    requires n < |bodies|
    ensures rows + NewRows(bodies[..n + 1], firstId) == rows + NewRows(bodies[..n], firstId) + [Row(firstId + n, bodies[n], true)]
  {
    var more := NewRows(bodies[..n + 1], firstId);
    assert more[..n] == NewRows(bodies[..n], firstId) && more == more[..n] + [more[n]];
  }

  lemma {:induction false} RowsAreThePolicy(rows: seq<Row>, key: Key, p: Policy, n: nat, firstId: nat)
    requires n <= |p.staff| + |p.offering|
    ensures PolicyOf(rows + NewRows(Bodies(key, p)[..n], firstId), key) == Joined(PolicyOf(rows, key), FirstRows(p, n))
  {
    if n == 0 {
      assert rows + NewRows(Bodies(key, p)[..0], firstId) == rows;
    } else {
      RowsAreThePolicy(rows, key, p, n - 1, firstId);
      var bodies := Bodies(key, p);
      OneMoreNewRow(rows, bodies, n - 1, firstId);
      PolicyGrows(rows + NewRows(bodies[..n - 1], firstId), Row(firstId + n - 1, bodies[n - 1], true), key);
      OneMoreRow(key, p, n - 1, PolicyOf(rows, key));
    }
  }

  lemma {:induction false} OtherPairsStay(rows: seq<Row>, bodies: seq<Body>, firstId: nat, other: Key)
    requires forall b :: b in bodies ==> b.key != other
    ensures PolicyOf(rows + NewRows(bodies, firstId), other) == PolicyOf(rows, other)
    decreases |bodies|
  {
    if bodies == [] {
      assert rows + NewRows(bodies, firstId) == rows;
    } else {
      var k := |bodies| - 1;
      OtherPairsStay(rows, bodies[..k], firstId, other);
      var r := Row(firstId + k, bodies[k], true);
      assert rows + NewRows(bodies, firstId) == rows + NewRows(bodies[..k], firstId) + [r];
      PolicyGrows(rows + NewRows(bodies[..k], firstId), r, other);
    }
  }

  /** A policy inserted for a pair without rows is what the pair then reads, and no other pair
      notices. */
  lemma InsertedPolicyReads(rows: seq<Row>, key: Key, p: Policy, firstId: nat, other: Key)
    requires !Knows(rows, key)
    ensures PolicyOf(rows + NewRows(Bodies(key, p), firstId), other) == if other == key then p else PolicyOf(rows, other)
    ensures Knows(rows + NewRows(Bodies(key, p), firstId), other) <==> Knows(rows, other) || (other == key && p != NOBODY)
  {
    var bodies := Bodies(key, p);
    var all := NewRows(bodies, firstId);
    if other == key {
      assert bodies[..|bodies|] == bodies;
      RowsAreThePolicy(rows, key, p, |bodies|, firstId);
      UnknownIsNobody(rows, key);
      if p != NOBODY {
        assert all[0] in rows + all;
      }
    } else {
      OtherPairsStay(rows, bodies, firstId, other);
      forall r | r in all ensures r.body.key == key {
        assert r.body in bodies;
      }
    }
  }

  function Entries(key: Key, p: Policy): (entries: seq<Body>)
    ensures |entries| == |p.staff| + |p.offering|
  {
    var bodies := Bodies(key, p);
    seq(|bodies|, i requires 0 <= i < |bodies| => IndexEntry(bodies[i]))
  }

  lemma EntriesDiffer(key: Key, p: Policy, i: nat, j: nat)
    requires i < j < |p.staff| + |p.offering|
    ensures var m := |p.staff|;
      Entries(key, p)[i] == Entries(key, p)[j] <==>
        if j < m then p.staff[i] == p.staff[j] else i >= m && p.offering[i - m] == p.offering[j - m]
  {
  }

  /** The unique index lets a policy's rows in exactly when the policy repeats nothing. */
  lemma IndexAdmitsIff(key: Key, p: Policy)
    ensures Distinct(p) <==> NoRepeats(Entries(key, p))
  {
    var m := |p.staff|;
    forall i, j | 0 <= i < j < m + |p.offering| {
      EntriesDiffer(key, p, i, j);
    }
    if NoRepeats(Entries(key, p)) {
      forall i, j | 0 <= i < j < |p.offering| ensures p.offering[i] != p.offering[j] {
        EntriesDiffer(key, p, m + i, m + j);
      }
    }
  }
}
