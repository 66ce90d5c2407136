/** The staff check: lazy in its lookups, and equal to the plain definition. */
module StaffCheck {
  import opened Wrappers
  import opened StaffRoles

  /** At least a level, at a scope that reaches this scope, in this domain when one is named. */
  datatype Permission = Permission(minLevel: Level, scope: Scope, domain: string)

  datatype Filter = Filter(program: Option<Id>, department: Option<Id>, college: Option<Id>)

  datatype Decision =
    | Deny
    | Allow(matched: Permission, filter: Filter, lineage: Option<Lineage>)

  datatype Error = TargetNotFound | ReadFailed

  /** What the reader says of each row of the resource. */
  type Reader = Id -> Result<Lineage, Error>

  predicate MeetsLevelAndDomain(role: Claim, p: Permission) {
    AtLeast(role.level, p.minLevel) && (p.domain == "" || role.domain == p.domain)
  }

  predicate SettledByRole(role: Claim, p: Permission) {
    && MeetsLevelAndDomain(role, p)
    && (WiderThan(role.scope, p.scope) ||
        (role.scope == p.scope && role.unit.None? && (p.scope == University || p.scope == Platform)))
  }

  predicate CouldSettleByUnit(role: Claim, p: Permission) {
    MeetsLevelAndDomain(role, p) && role.scope == p.scope && role.unit.Some?
  }

  predicate SettledByUnit(role: Claim, p: Permission, target: Option<Lineage>) {
    CouldSettleByUnit(role, p) && (target.None? || role.unit.value == IDFor(target.value, p.scope))
  }

  function MatchByRoleAlone(role: Claim, perms: seq<Permission>): Option<Permission> {
    if perms == [] then None
    else if SettledByRole(role, perms[0]) then Some(perms[0])
    else MatchByRoleAlone(role, perms[1..])
  }

  function MatchSameUnit(role: Claim, perms: seq<Permission>, target: Option<Lineage>): Option<Permission> {
    if perms == [] then None
    else if SettledByUnit(role, perms[0], target) then Some(perms[0])
    else MatchSameUnit(role, perms[1..], target)
  }

  predicate CouldMatchSameUnit(role: Claim, perms: seq<Permission>) {
    perms != [] && (CouldSettleByUnit(role, perms[0]) || CouldMatchSameUnit(role, perms[1..]))
  }

  /** The role's own unit, in the column of its scope. */
  function FilterFor(role: Claim): Filter {
    Filter(
      if role.scope == Program then role.unit else None,
      if role.scope == Department then role.unit else None,
      if role.scope == College then role.unit else None)
  }

  /** target is None on list and create routes. The reader is asked only in the one branch that
      needs its answer. */
  function CheckStaffArm(actor: Option<Claim>, perms: seq<Permission>, target: Option<Id>, reader: Reader):
      Result<Decision, Error> {
    if actor.None? then Success(Deny)
    else
      var role := actor.value;
      var alone := MatchByRoleAlone(role, perms);
      if alone.Some? then Success(Allow(alone.value, FilterFor(role), None))
      else if target.None? then
        match MatchSameUnit(role, perms, None)
        case Some(p) => Success(Allow(p, FilterFor(role), None))
        case None => Success(Deny)
      else if CouldMatchSameUnit(role, perms) then
        match reader(target.value)
        case Failure(e) => Failure(e)
        case Success(lineage) =>
          match MatchSameUnit(role, perms, Some(lineage))
          case Some(p) => Success(Allow(p, FilterFor(role), Some(lineage)))
          case None => Success(Deny)
      else Success(Deny)
  }

  predicate Allowed(r: Result<Decision, Error>) { r.Success? && r.value.Allow? }

  // ---- The plain definition ------------------------------------------------------------------------

  ghost predicate AloneAdmits(role: Claim, perms: seq<Permission>) {
    exists p :: p in perms && SettledByRole(role, p)
  }

  ghost predicate UnitAdmits(role: Claim, perms: seq<Permission>, target: Option<Lineage>) {
    exists p :: p in perms && SettledByUnit(role, p, target)
  }

  /** Some permission marks a region the role lies in, given the target's lineage. It says nothing
      of an order among the permissions. */
  ghost predicate Admits(actor: Option<Claim>, perms: seq<Permission>, target: Option<Lineage>) {
    actor.Some? && (AloneAdmits(actor.value, perms) || UnitAdmits(actor.value, perms, target))
  }

  lemma {:induction false} MatchByRoleAloneIff(role: Claim, perms: seq<Permission>)
    ensures var m := MatchByRoleAlone(role, perms);
      if m.Some? then m.value in perms && SettledByRole(role, m.value) else !AloneAdmits(role, perms)
  {
    if perms != [] {
      MatchByRoleAloneIff(role, perms[1..]);
    }
  }

  lemma {:induction false} MatchSameUnitIff(role: Claim, perms: seq<Permission>, target: Option<Lineage>)
    ensures var m := MatchSameUnit(role, perms, target);
      if m.Some? then m.value in perms && SettledByUnit(role, m.value, target) else !UnitAdmits(role, perms, target)
  {
    if perms != [] {
      MatchSameUnitIff(role, perms[1..], target);
    }
  }

  lemma {:induction false} CouldMatchIff(role: Claim, perms: seq<Permission>)
    ensures CouldMatchSameUnit(role, perms) <==> exists p :: p in perms && CouldSettleByUnit(role, p)
  {
    if perms != [] {
      CouldMatchIff(role, perms[1..]);
    }
  }

  /** On one row the lazy check allows exactly when the plain definition with the row's true lineage
      does. */
  lemma LazyIsEager(actor: Option<Claim>, perms: seq<Permission>, id: Id, reader: Reader)
    requires reader(id).Success?
    ensures CheckStaffArm(actor, perms, Some(id), reader).Success?
    ensures Allowed(CheckStaffArm(actor, perms, Some(id), reader)) <==> Admits(actor, perms, Some(reader(id).value))
  {
    if actor.Some? {
      MatchByRoleAloneIff(actor.value, perms);
      MatchSameUnitIff(actor.value, perms, Some(reader(id).value));
      CouldMatchIff(actor.value, perms);
    }
  }

  /** When the lookup fails the check still allows what needs no lookup, and denies the rest: it
      allows exactly when the role alone settles it. */
  lemma FailedLookupIff(actor: Option<Claim>, perms: seq<Permission>, id: Id, reader: Reader)
    requires reader(id).Failure?
    ensures Allowed(CheckStaffArm(actor, perms, Some(id), reader)) <==>
      actor.Some? && AloneAdmits(actor.value, perms)
  {
    if actor.Some? {
      MatchByRoleAloneIff(actor.value, perms);
    }
  }

  /** The answer depends on the reader exactly where its answer decides: the role alone does not
      settle it and the unit still could. */
  lemma LookupOnlyWhenItDecides(actor: Option<Claim>, perms: seq<Permission>, id: Id)
    ensures (exists r1: Reader, r2: Reader ::
        CheckStaffArm(actor, perms, Some(id), r1) != CheckStaffArm(actor, perms, Some(id), r2)) <==>
      actor.Some? && !AloneAdmits(actor.value, perms) && exists p :: p in perms && CouldSettleByUnit(actor.value, p)
  {
    if actor.Some? {
      MatchByRoleAloneIff(actor.value, perms);
      CouldMatchIff(actor.value, perms);
      var missing: Reader, broken: Reader := (_ => Failure(TargetNotFound)), (_ => Failure(ReadFailed));
      if !AloneAdmits(actor.value, perms) && CouldMatchSameUnit(actor.value, perms) {
        assert CheckStaffArm(actor, perms, Some(id), missing) == Failure(TargetNotFound);
        assert CheckStaffArm(actor, perms, Some(id), broken) == Failure(ReadFailed);
      }
    }
  }

  /** The order of the permissions plays no part in the verdict. */
  lemma OrderIsIrrelevant(actor: Option<Claim>, perms: seq<Permission>, others: seq<Permission>, target: Option<Id>, reader: Reader)
    requires forall p :: p in perms <==> p in others
    ensures Allowed(CheckStaffArm(actor, perms, target, reader)) <==> Allowed(CheckStaffArm(actor, others, target, reader))
  {
    if actor.Some? {
      var lineage := if target.Some? && reader(target.value).Success? then Some(reader(target.value).value) else None;
      MatchByRoleAloneIff(actor.value, perms);
      MatchByRoleAloneIff(actor.value, others);
      MatchSameUnitIff(actor.value, perms, lineage);
      MatchSameUnitIff(actor.value, others, lineage);
      CouldMatchIff(actor.value, perms);
      CouldMatchIff(actor.value, others);
    }
  }

  // ---- Who is allowed, written out ---------------------------------------------------------------------

  /** The permission is for the role's domain or for every one, and its scope is narrower than the
      role's, or the same in the role's own unit; on a list the unit narrows the rows instead. */
  predicate InReach(role: Claim, p: Permission, target: Option<Lineage>) {
    && (p.domain == "" || role.domain == p.domain)
    && (WiderThan(role.scope, p.scope) ||
        (role.scope == p.scope &&
         if role.unit.None? then p.scope == University || p.scope == Platform
         else target.None? || role.unit.value == IDFor(target.value, p.scope)))
  }

  function LineageOf(target: Option<Id>, reader: Reader): Option<Lineage> {
    if target.Some? && reader(target.value).Success? then Some(reader(target.value).value) else None
  }

  lemma SettledIff(role: Claim, p: Permission, target: Option<Lineage>)
    ensures SettledByRole(role, p) || SettledByUnit(role, p, target) <==> AtLeast(role.level, p.minLevel) && InReach(role, p, target)
  {
  }

  /** On a list, and on a row whose lookup succeeds: allowed if and only if the role has at least the
      level of some permission in whose reach it lies. */
  lemma AllowedIff(role: Claim, perms: seq<Permission>, target: Option<Id>, reader: Reader)
    requires target.Some? ==> reader(target.value).Success?
    ensures Allowed(CheckStaffArm(Some(role), perms, target, reader)) <==>
      exists p :: p in perms && AtLeast(role.level, p.minLevel) && InReach(role, p, LineageOf(target, reader))
  {
    if target.Some? {
      LazyIsEager(Some(role), perms, target.value, reader);
    } else {
      MatchByRoleAloneIff(role, perms);
      MatchSameUnitIff(role, perms, None);
    }
    AdmitsIff(role, perms, LineageOf(target, reader));
  }

  lemma AdmitsIff(role: Claim, perms: seq<Permission>, target: Option<Lineage>)
    ensures Admits(Some(role), perms, target) <==>
      exists p :: p in perms && AtLeast(role.level, p.minLevel) && InReach(role, p, target)
  {
    if Admits(Some(role), perms, target) {
      var p :| p in perms && (SettledByRole(role, p) || SettledByUnit(role, p, target));
      SettledIff(role, p, target);
    }
    if p :| p in perms && AtLeast(role.level, p.minLevel) && InReach(role, p, target) {
      SettledIff(role, p, target);
    }
  }

  /** The permission that is reported as matched is the first in the list that settles the question. */
  lemma {:induction false} MatchIsFirst(role: Claim, perms: seq<Permission>, target: Option<Lineage>, k: nat)
    requires k < |perms|
    ensures (forall j :: 0 <= j < k ==> !SettledByRole(role, perms[j])) && SettledByRole(role, perms[k]) ==>
      MatchByRoleAlone(role, perms) == Some(perms[k])
    ensures (forall j :: 0 <= j < k ==> !SettledByUnit(role, perms[j], target)) && SettledByUnit(role, perms[k], target) ==>
      MatchSameUnit(role, perms, target) == Some(perms[k])
    decreases |perms|
  {
    if k > 0 {
      MatchIsFirst(role, perms[1..], target, k - 1);
      assert forall j :: 0 <= j < k - 1 ==> perms[1..][j] == perms[j + 1];
    }
  }

  // ---- List routes and their filter -------------------------------------------------------------------

  predicate Passes(wanted: Option<Id>, have: Option<Id>) { wanted.None? || wanted == have }

  /** A row whose ancestors are the units the filter names. */
  predicate Inside(f: Filter, row: Lineage) {
    Passes(f.program, row.program) && Passes(f.department, row.department) && Passes(f.college, row.college)
  }

  /** For roles that passed validateRoleScope: once the list is allowed, a row is allowed on its own
      exactly when the role alone settles it or the row is inside the list's filter. */
  lemma FilterIsExact(org: OrgTree, role: Claim, perms: seq<Permission>, id: Id, reader: Reader)
    requires WellFormed(org, role) && !UnitExists(org, role.scope, NIL)
    requires reader(id).Success?
    requires Allowed(CheckStaffArm(Some(role), perms, None, reader))
    ensures Allowed(CheckStaffArm(Some(role), perms, Some(id), reader)) <==>
      AloneAdmits(role, perms) || Inside(FilterFor(role), reader(id).value)
    ensures CheckStaffArm(Some(role), perms, None, reader).value.filter == FilterFor(role)
  {
    var row := reader(id).value;
    LazyIsEager(Some(role), perms, id, reader);
    MatchByRoleAloneIff(role, perms);
    MatchSameUnitIff(role, perms, None);
    if !AloneAdmits(role, perms) {
      var q := MatchSameUnit(role, perms, None).value;
      assert Inside(FilterFor(role), row) <==> role.unit.value == IDFor(row, role.scope);
      if Inside(FilterFor(role), row) {
        assert SettledByUnit(role, q, Some(row));
      }
    }
  }

  /** A denied list leaves no row allowed, whatever the reader says. */
  lemma DeniedListDeniesRows(actor: Option<Claim>, perms: seq<Permission>, id: Id, reader: Reader)
    requires !Allowed(CheckStaffArm(actor, perms, None, reader))
    ensures CheckStaffArm(actor, perms, Some(id), reader) == Success(Deny)
  {
    if actor.Some? {
      MatchByRoleAloneIff(actor.value, perms);
      MatchSameUnitIff(actor.value, perms, None);
      CouldMatchIff(actor.value, perms);
      forall p | p in perms ensures !CouldSettleByUnit(actor.value, p) {
        assert !SettledByUnit(actor.value, p, None);
      }
    }
  }

  // ---- Floors -------------------------------------------------------------------------------------------

  function PermsReaching(perms: seq<Permission>, min: Scope): (reaching: seq<Permission>)
    ensures forall p :: p in reaching <==> p in perms && (p.scope == min || WiderThan(p.scope, min))
  {
    if perms == [] then []
    else if perms[0].scope == min || WiderThan(perms[0].scope, min) then [perms[0]] + PermsReaching(perms[1..], min)
    else PermsReaching(perms[1..], min)
  }

  /** With only the permissions at least min wide, nobody narrower than min is admitted. */
  lemma FloorHolds(actor: Option<Claim>, perms: seq<Permission>, min: Scope, target: Option<Id>, reader: Reader)
    requires Allowed(CheckStaffArm(actor, PermsReaching(perms, min), target, reader))
    ensures ScopeRank(actor.value.scope) >= ScopeRank(min)
  {
    var matched := CheckStaffArm(actor, PermsReaching(perms, min), target, reader).value;
    MatchByRoleAloneIff(actor.value, PermsReaching(perms, min));
    MatchSameUnitIff(actor.value, PermsReaching(perms, min), None);
    MatchSameUnitIff(actor.value, PermsReaching(perms, min), matched.lineage);
    assert matched.matched in PermsReaching(perms, min);
  }

  /** An unknown level satisfies exactly the required levels that are unknown themselves. */
  lemma UnknownLevelSatisfies(l: Level, min: Level)
    requires !ValidLevel(l)
    ensures AtLeast(l, min) <==> !ValidLevel(min)
  {
  }

  /** The permissions an unknown level can get through: those whose own required level is unknown. */
  function Unguarded(perms: seq<Permission>): (unguarded: seq<Permission>)
    ensures forall p :: p in unguarded <==> p in perms && !ValidLevel(p.minLevel)
  {
    if perms == [] then []
    else if !ValidLevel(perms[0].minLevel) then [perms[0]] + Unguarded(perms[1..])
    else Unguarded(perms[1..])
  }

  /** On a list, and on a row whose lookup succeeds, a role of unknown level is let in exactly when
      some permission of unknown level covers its domain and its place. */
  lemma UnknownLevelAllowedIff(role: Claim, perms: seq<Permission>, target: Option<Id>, reader: Reader)
    requires !ValidLevel(role.level)
    requires target.Some? ==> reader(target.value).Success?
    ensures Allowed(CheckStaffArm(Some(role), perms, target, reader)) <==>
      exists p :: p in Unguarded(perms) && InReach(role, p, LineageOf(target, reader))
  {
    AllowedIff(role, perms, target, reader);
    forall p | p in perms ensures AtLeast(role.level, p.minLevel) <==> p in Unguarded(perms) {
      UnknownLevelSatisfies(role.level, p.minLevel);
    }
    if p :| p in Unguarded(perms) && InReach(role, p, LineageOf(target, reader)) {
      assert p in perms;
    }
  }

  /** With a lookup that fails, exactly when such a permission is settled by the role alone; so where
      every permission has a level of the four, a role of unknown level is never let in. */
  lemma UnknownLevelFailedLookupIff(role: Claim, perms: seq<Permission>, id: Id, reader: Reader)
    requires !ValidLevel(role.level) && reader(id).Failure?
    ensures Allowed(CheckStaffArm(Some(role), perms, Some(id), reader)) <==>
      AloneAdmits(role, Unguarded(perms))
  {
    FailedLookupIff(Some(role), perms, id, reader);
    forall p | p in perms ensures SettledByRole(role, p) ==> p in Unguarded(perms) {
      UnknownLevelSatisfies(role.level, p.minLevel);
    }
  }

  /** A permission of unknown level that lets a role of unknown level in. */
  lemma UnknownLevelGetsIn(target: Option<Id>, reader: Reader)
    ensures Allowed(CheckStaffArm(Some(Claim(OtherLevel("none"), Platform, None, "")),
      [Permission(OtherLevel("other"), Program, "")], target, reader))
  {
  }
}
