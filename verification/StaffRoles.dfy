/** Staff roles as points of a level and scope space anchored in the org tree, and who may manage
    whom. */
module StaffRoles {
  import opened Wrappers

  type Id = nat

  const NIL: Id := 0

  datatype Level = Viewer | Operator | Admin | SuperAdmin | OtherLevel(name: string)

  datatype Scope = Program | Department | College | University | Platform | OtherScope(name: string)

  /** A role as the access token states it. The unit is absent for university and platform roles. */
  datatype Claim = Claim(level: Level, scope: Scope, unit: Option<Id>, domain: string)

  function LevelRank(l: Level): nat {
    match l
    case Viewer => 1
    case Operator => 2
    case Admin => 3
    case SuperAdmin => 4
    case OtherLevel(_) => 0
  }

  function ScopeRank(s: Scope): nat {
    match s
    case Program => 1
    case Department => 2
    case College => 3
    case University => 4
    case Platform => 5
    case OtherScope(_) => 0
  }

  predicate AtLeast(l: Level, min: Level) { LevelRank(l) >= LevelRank(min) }

  predicate WiderThan(s: Scope, o: Scope) { ScopeRank(s) > ScopeRank(o) }

  predicate ValidLevel(l: Level) { LevelRank(l) != 0 }

  predicate ValidScope(s: Scope) { ScopeRank(s) != 0 }

  // ---- The org tree --------------------------------------------------------------------------

  /** Each program belongs to a department and each department to a college. */
  datatype OrgTree = OrgTree(programs: map<Id, Id>, departments: map<Id, Id>, colleges: set<Id>)

  datatype Lineage = Lineage(program: Option<Id>, department: Option<Id>, college: Option<Id>)

  function OrNil(id: Option<Id>): Id { if id.Some? then id.value else NIL }

  function IDFor(l: Lineage, s: Scope): Id {
    match s
    case Program => OrNil(l.program)
    case Department => OrNil(l.department)
    case College => OrNil(l.college)
    case University => NIL
    case Platform => NIL
    case OtherScope(_) => NIL
  }

  /** The ancestry of a unit as the joins compute it; None is a missing row. */
  function UnitLineage(org: OrgTree, s: Scope, id: Id): Option<Lineage> {
    match s
    case Program =>
      if id in org.programs && org.programs[id] in org.departments then
        Some(Lineage(Some(id), Some(org.programs[id]), Some(org.departments[org.programs[id]])))
      else None
    case Department =>
      if id in org.departments then Some(Lineage(None, Some(id), Some(org.departments[id]))) else None
    case College => if id in org.colleges then Some(Lineage(None, None, Some(id))) else None
    case University => None
    case Platform => None
    case OtherScope(_) => None
  }

  predicate ChainThere(org: OrgTree, s: Scope, id: Id) {
    || (s == College && id in org.colleges)
    || (s == Department && id in org.departments)
    || (s == Program && id in org.programs && org.programs[id] in org.departments)
  }

  /** A unit has a lineage exactly when it is there and is joined to the units above, and at its own scope
      the lineage has the unit itself. */
  lemma LineageIff(org: OrgTree, s: Scope, id: Id)
    ensures UnitLineage(org, s, id).Some? <==> ChainThere(org, s, id)
    ensures UnitLineage(org, s, id).Some? ==> IDFor(UnitLineage(org, s, id).value, s) == id
  {
  }

  // ---- The relation ----------------------------------------------------------------------------

  /** What the reader answers: the tree, or nothing when the lookup fails. */
  function LineageFor(org: Option<OrgTree>, s: Scope, id: Id): Option<Lineage> {
    if org.None? then None else UnitLineage(org.value, s, id)
  }

  predicate UnitInsideActor(org: Option<OrgTree>, actor: Claim, target: Claim)
    requires target.unit.Some?
  {
    var lineage := LineageFor(org, target.scope, target.unit.value);
    && lineage.Some?
    && actor.unit.Some?
    && IDFor(lineage.value, actor.scope) != NIL
    && actor.unit.value == IDFor(lineage.value, actor.scope)
  }

  predicate CanManage(org: Option<OrgTree>, actor: Claim, target: Claim) {
    if WiderThan(actor.scope, target.scope) then
      if !AtLeast(actor.level, target.level) then false
      else if actor.scope == Platform || actor.scope == University || target.unit.None? then true
      else UnitInsideActor(org, actor, target)
    else if actor.scope == target.scope then
      if actor.unit.Some? && target.unit.Some? && actor.unit.value != target.unit.value then false
      else LevelRank(actor.level) > LevelRank(target.level)
    else false
  }

  /** A missing claim on either side manages nothing and is not managed. */
  predicate CanManageRole(org: Option<OrgTree>, actor: Option<Claim>, target: Option<Claim>) {
    actor.Some? && target.Some? && CanManage(org, actor.value, target.value)
  }

  lemma NobodyManagesNobody(org: Option<OrgTree>, c: Option<Claim>)
    ensures !CanManageRole(org, None, c) && !CanManageRole(org, c, None)
  {
  }

  predicate CanGrant(actor: Claim, target: Claim) {
    && ValidLevel(actor.level) && ValidLevel(target.level) && ValidScope(actor.scope) && ValidScope(target.scope)
    && AtLeast(actor.level, target.level)
    && WiderThan(actor.scope, target.scope)
  }

  datatype ScopeError = ScopeIDNotAllowed | ScopeIDRequired | InvalidScopeID | LookupFailed

  predicate UnitExists(org: OrgTree, s: Scope, id: Id) {
    match s
    case Program => id in org.programs
    case Department => id in org.departments
    case College => id in org.colleges
    case University => false
    case Platform => false
    case OtherScope(_) => false
  }

  /** What is wrong with a role's scope and unit; None when the role is well formed. */
  function ScopeFault(org: Option<OrgTree>, s: Scope, unit: Option<Id>): Option<ScopeError> {
    if s == Platform || s == University then (if unit.Some? then Some(ScopeIDNotAllowed) else None)
    else if unit.None? then Some(ScopeIDRequired)
    else if s.OtherScope? then Some(InvalidScopeID)
    else if org.None? then Some(LookupFailed)
    else if UnitExists(org.value, s, unit.value) then None
    else Some(InvalidScopeID)
  }

  predicate WellFormed(org: OrgTree, c: Claim) { ScopeFault(Some(org), c.scope, c.unit) == None }

  // ---- The two axes and the tree, written out ------------------------------------------------------

  lemma LevelsInOrder(l: Level, min: Level)
    ensures AtLeast(l, min) <==> match min
      case OtherLevel(_) => true
      case Viewer => !l.OtherLevel?
      case Operator => l in {Operator, Admin, SuperAdmin}
      case Admin => l in {Admin, SuperAdmin}
      case SuperAdmin => l == SuperAdmin
    ensures ValidLevel(l) <==> !l.OtherLevel?
  {
  }

  lemma ScopesInOrder(s: Scope, o: Scope)
    ensures WiderThan(s, o) <==> match s
      case OtherScope(_) => false
      case Program => o.OtherScope?
      case Department => o == Program || o.OtherScope?
      case College => o in {Program, Department} || o.OtherScope?
      case University => o in {Program, Department, College} || o.OtherScope?
      case Platform => o != Platform
    ensures ValidScope(s) <==> !s.OtherScope?
  {
  }

  /** A role is well formed if and only if it has a unit exactly where its scope has units, and the
      unit is there. */
  lemma WellFormedIff(org: OrgTree, c: Claim)
    ensures WellFormed(org, c) <==> match c.scope
      case Program => c.unit.Some? && c.unit.value in org.programs
      case Department => c.unit.Some? && c.unit.value in org.departments
      case College => c.unit.Some? && c.unit.value in org.colleges
      case University => c.unit.None?
      case Platform => c.unit.None?
      case OtherScope(_) => false
  {
  }

  /** The units above a program or a department are those the tree gives it. */
  lemma InsideIff(org: OrgTree, a: Claim, b: Claim)
    requires b.unit.Some? && a.unit.Some? && a.unit.value != NIL
    requires b.scope == Program ==> b.unit.value in org.programs && org.programs[b.unit.value] in org.departments
    requires b.scope == Department ==> b.unit.value in org.departments
    requires (a.scope == Department && b.scope == Program) || (a.scope == College && (b.scope == Program || b.scope == Department))
    ensures var above :=
        if a.scope == Department then org.programs[b.unit.value]
        else if b.scope == Department then org.departments[b.unit.value]
        else org.departments[org.programs[b.unit.value]];
      UnitInsideActor(Some(org), a, b) <==> a.unit.value == above
  {
  }

  predicate HasUnits(s: Scope) { s == Program || s == Department || s == College }

  /** What is wrong with which roles, whatever they are. */
  lemma ScopeFaultIs(org: Option<OrgTree>, s: Scope, unit: Option<Id>)
    ensures var fault, there := ScopeFault(org, s, unit), unit.Some? && org.Some? && UnitExists(org.value, s, unit.value);
      && (fault == Some(ScopeIDNotAllowed) <==> unit.Some? && (s == University || s == Platform))
      && (fault == Some(ScopeIDRequired) <==> unit.None? && s != University && s != Platform)
      && (fault == Some(LookupFailed) <==> unit.Some? && HasUnits(s) && org.None?)
      && (fault == Some(InvalidScopeID) <==> unit.Some? && (s.OtherScope? || (HasUnits(s) && org.Some? && !there)))
  {
  }

  /** Managing, for any roles, well formed or not, and with or without an answer from the tree: in a
      wider scope no lower level, and no unit to be inside of or the unit that contains it; in the same
      scope a higher level, and not two different units. */
  lemma ManageIs(org: Option<OrgTree>, a: Claim, b: Claim)
    ensures CanManage(org, a, b) <==>
      || (ScopeRank(a.scope) > ScopeRank(b.scope) && LevelRank(a.level) >= LevelRank(b.level) &&
          (a.scope == University || a.scope == Platform || b.unit == None || UnitInsideActor(org, a, b)))
      || (a.scope == b.scope && LevelRank(a.level) > LevelRank(b.level) && (a.unit == b.unit || a.unit == None || b.unit == None))
  {
  }

  /** Granting: known roles on both sides, in a narrower scope and at no higher level. */
  lemma GrantIs(a: Claim, b: Claim)
    ensures CanGrant(a, b) <==>
      && !a.level.OtherLevel? && !b.level.OtherLevel? && !a.scope.OtherScope? && !b.scope.OtherScope?
      && LevelRank(b.level) <= LevelRank(a.level) && ScopeRank(b.scope) < ScopeRank(a.scope)
  {
  }

  // ---- It is an order --------------------------------------------------------------------------

  lemma ManageIsIrreflexive(org: Option<OrgTree>, a: Claim)
    ensures !CanManage(org, a, a)
  {
  }

  /** Even with failing lookups and malformed roles, no two roles manage each other. */
  lemma ManageIsAsymmetric(org: Option<OrgTree>, a: Claim, b: Claim)
    requires CanManage(org, a, b)
    ensures !CanManage(org, b, a)
  {
  }

  /** Over well-formed roles managing is transitive. */
  lemma ManageIsTransitive(org: OrgTree, a: Claim, b: Claim, c: Claim)
    requires WellFormed(org, a) && WellFormed(org, b) && WellFormed(org, c)
    requires CanManage(Some(org), a, b) && CanManage(Some(org), b, c)
    ensures CanManage(Some(org), a, c)
  {
  }

  /** The roles in between need their units: a department role without one stands under every
      same-scope head and over every one. */
  lemma TransitivityNeedsUnits(org: OrgTree)
    ensures var a := Claim(SuperAdmin, Department, Some(1), "");
      var b := Claim(Admin, Department, None, "");
      var c := Claim(Viewer, Department, Some(2), "");
      CanManage(Some(org), a, b) && CanManage(Some(org), b, c) && !CanManage(Some(org), a, c)
  {
  }

  /** Above or beside on both axes, and strictly above on one. */
  predicate Outranks(a: Claim, b: Claim) {
    && LevelRank(a.level) >= LevelRank(b.level)
    && ScopeRank(a.scope) >= ScopeRank(b.scope)
    && (LevelRank(a.level) > LevelRank(b.level) || ScopeRank(a.scope) > ScopeRank(b.scope))
  }

  /** The actor's unit is, or contains, the target's. */
  predicate Contains(org: OrgTree, a: Claim, b: Claim) {
    || a.scope == University || a.scope == Platform
    || (a.scope == b.scope && a.unit == b.unit)
    || (b.unit.Some? && UnitInsideActor(Some(org), a, b))
  }

  /** Managing, said without its branches: the actor's unit contains the target's, the actor
      outranks the target, and within one scope the level decides. */
  lemma ManagesIff(org: OrgTree, a: Claim, b: Claim)
    requires WellFormed(org, a) && WellFormed(org, b)
    ensures CanManage(Some(org), a, b) <==> Outranks(a, b) && Contains(org, a, b)
  {
  }

  /** Granting on account creation is managing without the unit: it agrees with managing exactly
      when the actor's unit contains the target's. */
  lemma GrantIsManageInside(org: OrgTree, a: Claim, b: Claim)
    requires WellFormed(org, a) && WellFormed(org, b) && CanGrant(a, b)
    ensures CanManage(Some(org), a, b) <==> Contains(org, a, b)
  {
  }

  // Two colleges with a department each.
  const TWO_COLLEGES: OrgTree := OrgTree(map[], map[11 := 1, 12 := 2], {1, 2})

  /** An administrator of one college creates an operator in a department of the other, whom he may
      not manage. */
  lemma GrantReachesOutside()
    ensures var a := Claim(Admin, College, Some(1), "");
      var b := Claim(Operator, Department, Some(12), "");
      && WellFormed(TWO_COLLEGES, a) && WellFormed(TWO_COLLEGES, b)
      && CanGrant(a, b) && !CanManage(Some(TWO_COLLEGES), a, b)
  {
  }

  /** A failed lookup only ever denies. */
  lemma FailedLookupDenies(org: OrgTree, a: Claim, b: Claim)
    requires CanManage(None, a, b)
    ensures CanManage(Some(org), a, b)
  {
  }
}
