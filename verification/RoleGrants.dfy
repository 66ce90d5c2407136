/** Assigning and removing staff roles, and what runs of it can never do: hand out more authority
    than somebody held at the start. */
module RoleGrants {
  import opened Wrappers
  import opened StaffRoles

  type UserId = nat

  datatype Error =
    | CannotModifyOwnRole
    | CannotManageHigherRole
    | BadScope(scope: ScopeError)
    | UserNotFound
    | RoleNotFound
    | StoreFailed

  /** Why a call is refused, checks in their order; None when it goes ahead. org is what the
      lineage reader answers and units what the scope lookup answers. */
  function AssignRefusal(users: set<UserId>, org: Option<OrgTree>, units: Option<OrgTree>,
        admin: UserId, target: UserId, actor: Option<Claim>, role: Claim): Option<Error> {
    if admin == target then Some(CannotModifyOwnRole)
    else if !CanManageRole(org, actor, Some(role.(domain := ""))) then Some(CannotManageHigherRole)
    else if ScopeFault(units, role.scope, role.unit).Some? then
      Some(BadScope(ScopeFault(units, role.scope, role.unit).value))
    else if target !in users then Some(UserNotFound)
    else None
  }

  /** The first check that fails decides the answer. */
  lemma AssignErrors(users: set<UserId>, org: Option<OrgTree>, units: Option<OrgTree>,
        admin: UserId, target: UserId, actor: Option<Claim>, role: Claim)
    ensures var refusal := AssignRefusal(users, org, units, admin, target, actor, role);
      var managed, fault := CanManageRole(org, actor, Some(role.(domain := ""))), ScopeFault(units, role.scope, role.unit);
      && (refusal == Some(CannotModifyOwnRole) <==> admin == target)
      && (refusal == Some(CannotManageHigherRole) <==> admin != target && !managed)
      && (refusal == Some(UserNotFound) <==> admin != target && managed && fault == None && target !in users)
      && (refusal == None <==> admin != target && managed && fault == None && target in users)
      && forall e :: refusal == Some(BadScope(e)) <==> admin != target && managed && fault == Some(e)
  {
  }

  function RemoveRefusal(roles: map<UserId, Claim>, org: Option<OrgTree>,
        admin: UserId, target: UserId, actor: Option<Claim>): Option<Error> {
    if admin == target then Some(CannotModifyOwnRole)
    else if target !in roles then Some(RoleNotFound)
    else if !CanManageRole(org, actor, Some(roles[target].(domain := ""))) then Some(CannotManageHigherRole)
    else None
  }

  /** The stored roles and, per user, the refresh sessions that keep a token alive. */
  class RoleService {
    var users: set<UserId>
    var roles: map<UserId, Claim>
    var sessions: map<UserId, nat>

    constructor (users: set<UserId>, roles: map<UserId, Claim>, sessions: map<UserId, nat>)
      ensures this.users == users && this.roles == roles && this.sessions == sessions
    {
      this.users, this.roles, this.sessions := users, roles, sessions;
    }

    /** writes and revokes say whether the role row can be written and the sessions deleted; a
        failed revocation is logged and the call still succeeds. */
    method AssignRole(org: Option<OrgTree>, units: Option<OrgTree>, writes: bool, revokes: bool,
        admin: UserId, target: UserId, actor: Option<Claim>, role: Claim)
      returns (r: Result<Claim, Error>)
      modifies this`roles, this`sessions
      ensures var refusal := AssignRefusal(users, org, units, admin, target, actor, role);
        if refusal.Some? then r == Failure(refusal.value) && roles == old(roles) && sessions == old(sessions)
        else if !writes then r == Failure(StoreFailed) && roles == old(roles) && sessions == old(sessions)
        else
          && r == Success(role)
          && roles == old(roles)[target := role]
          && sessions == if revokes then old(sessions) - {target} else old(sessions)
      ensures roles != old(roles) ==> admin != target && target in users && actor.Some? && Outranks(actor.value, role)
      ensures admin == target <==> r == Failure(CannotModifyOwnRole)
    {
      if admin == target { return Failure(CannotModifyOwnRole); }
      var targetClaim := role.(domain := "");
      if !CanManageRole(org, actor, Some(targetClaim)) { return Failure(CannotManageHigherRole); }
      var fault := ScopeFault(units, role.scope, role.unit);
      if fault.Some? { return Failure(BadScope(fault.value)); }
      if target !in users { return Failure(UserNotFound); }
      if !writes { return Failure(StoreFailed); }
      roles := roles[target := role];
      if revokes { sessions := sessions - {target}; }
      return Success(role);
    }

    method RemoveRole(org: Option<OrgTree>, writes: bool, revokes: bool,
        admin: UserId, target: UserId, actor: Option<Claim>)
      returns (r: Result<Claim, Error>)
      modifies this`roles, this`sessions
      ensures var refusal := RemoveRefusal(old(roles), org, admin, target, actor);
        if refusal.Some? then r == Failure(refusal.value) && roles == old(roles) && sessions == old(sessions)
        else if !writes then r == Failure(StoreFailed) && roles == old(roles) && sessions == old(sessions)
        else
          && r == Success(old(roles)[target])
          && roles == old(roles) - {target}
          && sessions == if revokes then old(sessions) - {target} else old(sessions)
      ensures r.Success? ==>
        admin != target && target in old(roles) && actor.Some? && Outranks(actor.value, old(roles)[target])
      ensures admin == target <==> r == Failure(CannotModifyOwnRole)
      ensures admin != target && target !in old(roles) <==> r == Failure(RoleNotFound)
    {
      if admin == target { return Failure(CannotModifyOwnRole); }
      if target !in roles { return Failure(RoleNotFound); }
      var held := roles[target];
      if !CanManageRole(org, actor, Some(held.(domain := ""))) { return Failure(CannotManageHigherRole); }
      if !writes { return Failure(StoreFailed); }
      roles := roles - {target};
      if revokes { sessions := sessions - {target}; }
      return Success(held);
    }
  }

  // ---- Runs --------------------------------------------------------------------------------------

  /** tokens are the role claims in access tokens still live, stale ones included; created lists
      every role handed out and removed every role taken away, in order. */
  datatype World = World(org: OrgTree, users: set<UserId>, roles: map<UserId, Claim>,
    tokens: set<(UserId, Claim)>, created: seq<Claim>, removed: seq<Claim>)

  /** Lookups may fail in any step. Expire covers a token that runs out and one that is revoked. */
  datatype Action =
    | Login(user: UserId)
    | Expire(user: UserId, claim: Claim)
    | Assign(admin: UserId, target: UserId, claim: Claim, role: Claim, answers: bool)
    | Remove(admin: UserId, target: UserId, claim: Claim, answers: bool)
    | Hire(admin: UserId, user: UserId, claim: Claim, role: Claim)
    | Reorganise(org: OrgTree)

  /** A call acts under a claim of its admin's live token; without one it is refused. */
  predicate Enabled(w: World, a: Action) {
    match a
    case Login(user) => user in w.roles
    case Expire(_, _) => true
    case Assign(admin, _, claim, _, _) => (admin, claim) in w.tokens
    case Remove(admin, _, claim, _) => (admin, claim) in w.tokens
    case Hire(admin, user, claim, _) => (admin, claim) in w.tokens && user !in w.users
    case Reorganise(_) => true
  }

  predicate Grants(w: World, a: Action) {
    match a
    case Assign(admin, target, claim, role, answers) =>
      var org := if answers then Some(w.org) else None;
      AssignRefusal(w.users, org, org, admin, target, Some(claim), role) == None
    case Hire(_, _, claim, role) => CanGrant(claim, role.(domain := "")) && WellFormed(w.org, role)
    case Login(_) => false
    case Expire(_, _) => false
    case Remove(_, _, _, _) => false
    case Reorganise(_) => false
  }

  predicate TakesAway(w: World, a: Action) {
    && a.Remove?
    && var org := if a.answers then Some(w.org) else None;
      RemoveRefusal(w.roles, org, a.admin, a.target, Some(a.claim)) == None
  }

  function Step(w: World, a: Action): World
    requires Enabled(w, a)
  {
    match a
    case Login(user) => w.(tokens := w.tokens + {(user, w.roles[user])})
    case Expire(user, claim) => w.(tokens := w.tokens - {(user, claim)})
    case Assign(_, target, _, role, _) =>
      if Grants(w, a) then w.(roles := w.roles[target := role], created := w.created + [role]) else w
    case Remove(_, target, _, _) =>
      if TakesAway(w, a) then w.(roles := w.roles - {target}, removed := w.removed + [w.roles[target]]) else w
    case Hire(_, user, _, role) =>
      if Grants(w, a) then
        w.(users := w.users + {user}, roles := w.roles[user := role], created := w.created + [role])
      else w
    case Reorganise(org) => w.(org := org)
  }

  predicate IsRun(w: World, actions: seq<Action>)
    decreases |actions|
  {
    actions == [] || (Enabled(w, actions[0]) && IsRun(Step(w, actions[0]), actions[1..]))
  }

  function After(w: World, actions: seq<Action>): World
    requires IsRun(w, actions)
    decreases |actions|
  {
    if actions == [] then w else After(Step(w, actions[0]), actions[1..])
  }

  /** What a world starts from: the roles stored and the claims already in tokens. */
  ghost predicate HeldAtStart(w: World, c: Claim) {
    c in w.roles.Values || exists u: UserId :: (u, c) in w.tokens
  }

  // ---- Everything stems from a role held at the start -----------------------------------------------

  ghost predicate Under(roots: set<Claim>, below: (Claim, Claim) -> bool, c: Claim) {
    exists r :: r in roots && below(r, c)
  }

  /** c is a root's own role, or below one. */
  ghost predicate Stems(roots: set<Claim>, below: (Claim, Claim) -> bool, c: Claim) {
    c in roots || Under(roots, below, c)
  }

  ghost predicate AllStem(roots: set<Claim>, below: (Claim, Claim) -> bool, w: World) {
    && (forall u :: u in w.roles ==> Stems(roots, below, w.roles[u]))
    && (forall t :: t in w.tokens ==> Stems(roots, below, t.1))
    && (forall k :: 0 <= k < |w.created| ==> Under(roots, below, w.created[k]))
    && (forall k :: 0 <= k < |w.removed| ==> Under(roots, below, w.removed[k]))
  }

  ghost predicate Transitive(below: (Claim, Claim) -> bool) {
    forall a, b, c :: below(a, b) && below(b, c) ==> below(a, c)
  }

  lemma StepKeepsStems(roots: set<Claim>, below: (Claim, Claim) -> bool, w: World, a: Action)
    requires Transitive(below) && AllStem(roots, below, w) && Enabled(w, a)
    requires Grants(w, a) ==> below(a.claim, a.role)
    requires TakesAway(w, a) ==> below(a.claim, w.roles[a.target])
    ensures AllStem(roots, below, Step(w, a))
  {
    if TakesAway(w, a) {
      assert Stems(roots, below, (a.admin, a.claim).1);
      var r :| r in roots && (r == a.claim || below(r, a.claim));
      assert Under(roots, below, w.roles[a.target]);
      assert Step(w, a).removed == w.removed + [w.roles[a.target]];
    } else if Grants(w, a) {
      assert Stems(roots, below, (a.admin, a.claim).1);
      var r :| r in roots && (r == a.claim || below(r, a.claim));
      assert Under(roots, below, a.role);
      assert Step(w, a).created == w.created + [a.role];
    } else {
      assert Step(w, a).created == w.created;
    }
  }

  ghost function Roots(w: World): set<Claim> {
    w.roles.Values + set t | t in w.tokens :: t.1
  }

  lemma RootsStem(w: World, below: (Claim, Claim) -> bool)
    requires w.created == [] && w.removed == []
    ensures AllStem(Roots(w), below, w)
  {
  }

  // ---- On the level and scope axes, through any reorganisation ------------------------------------------

  lemma GrantsOutrank(w: World, a: Action)
    requires Grants(w, a)
    ensures Outranks(a.claim, a.role)
  {
  }

  /** A role is taken away by somebody else's act only, under a claim that outranks it, whether or not
      the lookup answers. */
  lemma RemovalsOutrank(w: World, a: Action)
    requires Enabled(w, a) && a.Remove? && Step(w, a).roles != w.roles
    ensures a.admin != a.target && a.target in w.roles && (a.admin, a.claim) in w.tokens
    ensures Outranks(a.claim, w.roles[a.target])
    ensures Step(w, a).roles == w.roles - {a.target}
  {
  }

  /** With a lookup that answers, between well-formed roles: taken away if and only if the claim
      outranks the role and its unit contains the role's. */
  lemma RemovedIff(w: World, a: Action)
    requires Enabled(w, a) && a.Remove? && a.answers && a.target in w.roles
    requires WellFormed(w.org, a.claim) && WellFormed(w.org, w.roles[a.target])
    ensures Step(w, a) ==
      if a.admin != a.target && Outranks(a.claim, w.roles[a.target]) && Contains(w.org, a.claim, w.roles[a.target]) then
        w.(roles := w.roles - {a.target}, removed := w.removed + [w.roles[a.target]])
      else w
  {
    ManagesIff(w.org, a.claim, w.roles[a.target].(domain := ""));
  }

  /** A role is handed out by somebody else's act only, under a claim that outranks it. */
  lemma AssignmentsOutrank(w: World, a: Action)
    requires Enabled(w, a) && a.Assign? && Step(w, a).created != w.created
    ensures a.admin != a.target && a.target in w.users && WellFormed(w.org, a.role)
    ensures Outranks(a.claim, a.role)
    ensures Step(w, a).roles == w.roles[a.target := a.role] && Step(w, a).created == w.created + [a.role]
  {
  }

  /** With a lookup that answers: exactly a well-formed role that the claim outranks and contains. */
  lemma AssignedIff(w: World, a: Action)
    requires Enabled(w, a) && a.Assign? && a.answers && WellFormed(w.org, a.claim) && WellFormed(w.org, a.role)
    ensures Step(w, a) ==
      if a.admin != a.target && a.target in w.users && Outranks(a.claim, a.role) && Contains(w.org, a.claim, a.role) then
        w.(roles := w.roles[a.target := a.role], created := w.created + [a.role])
      else w
  {
    ManagesIff(w.org, a.claim, a.role.(domain := ""));
  }

  /** A token states the role its user had at the login, until it expires, whatever becomes of the role. */
  lemma TokensIff(w: World, a: Action, user: UserId, claim: Claim)
    requires Enabled(w, a)
    ensures var issued, over := a == Login(user) && user in w.roles && claim == w.roles[user], a == Expire(user, claim);
      (user, claim) in Step(w, a).tokens <==> issued || ((user, claim) in w.tokens && !over)
    ensures Step(w, a).org == if a.Reorganise? then a.org else w.org
  {
  }

  /** A new account gets a well-formed role that may be granted, or there is no new account. */
  lemma HiredIff(w: World, a: Action)
    requires Enabled(w, a) && a.Hire?
    ensures Step(w, a) ==
      if CanGrant(a.claim, a.role.(domain := "")) && ScopeFault(Some(w.org), a.role.scope, a.role.unit) == None then
        w.(users := w.users + {a.user}, roles := w.roles[a.user := a.role], created := w.created + [a.role])
      else w
  {
  }

  lemma {:induction false} RunKeepsRank(roots: set<Claim>, w: World, actions: seq<Action>)
    requires IsRun(w, actions) && AllStem(roots, Outranks, w)
    ensures AllStem(roots, Outranks, After(w, actions))
    decreases |actions|
  {
    if actions != [] {
      if Grants(w, actions[0]) {
        GrantsOutrank(w, actions[0]);
      }
      if TakesAway(w, actions[0]) {
        RemovalsOutrank(w, actions[0]);
      }
      StepKeepsStems(roots, Outranks, w, actions[0]);
      RunKeepsRank(roots, Step(w, actions[0]), actions[1..]);
    }
  }

  /** Whatever is assigned, removed, hired and reorganised, with stale tokens and failing lookups:
      each role handed out is outranked by a role somebody held at the start. */
  lemma CreatedAreOutranked(w: World, actions: seq<Action>, k: nat)
    requires w.created == [] && w.removed == [] && IsRun(w, actions) && k < |After(w, actions).created|
    ensures exists root :: HeldAtStart(w, root) && Outranks(root, After(w, actions).created[k])
  {
    RootsStem(w, Outranks);
    RunKeepsRank(Roots(w), w, actions);
    RootHeld(w, After(w, actions).created[k]);
  }

  // A root of the run is a role somebody held.
  lemma RootHeld(w: World, c: Claim)
    requires Under(Roots(w), Outranks, c)
    ensures exists root :: HeldAtStart(w, root) && Outranks(root, c)
  {
    var root :| root in Roots(w) && Outranks(root, c);
    if root !in w.roles.Values {
      var t :| t in w.tokens && t.1 == root;
      assert (t.0, root) in w.tokens;
    }
  }

  /** And so is each role taken away. */
  lemma RemovedAreOutranked(w: World, actions: seq<Action>, k: nat)
    requires w.created == [] && w.removed == [] && IsRun(w, actions) && k < |After(w, actions).removed|
    ensures exists root :: HeldAtStart(w, root) && Outranks(root, After(w, actions).removed[k])
  {
    RootsStem(w, Outranks);
    RunKeepsRank(Roots(w), w, actions);
    RootHeld(w, After(w, actions).removed[k]);
  }

  // ---- In the tree, while it stands still -----------------------------------------------------------------

  /** Managing between well-formed roles. The domain plays no part in it. */
  predicate Commands(org: OrgTree, a: Claim, b: Claim) {
    WellFormed(org, a) && WellFormed(org, b) && CanManage(Some(org), a, b)
  }

  lemma CommandsIsTransitive(org: OrgTree)
    ensures Transitive((a, b) => Commands(org, a, b))
  {
    forall a, b, c | Commands(org, a, b) && Commands(org, b, c) ensures Commands(org, a, c) {
      ManageIsTransitive(org, a, b, c);
    }
  }

  lemma GrantsCommand(w: World, a: Action)
    requires Grants(w, a) && a.Assign? && WellFormed(w.org, a.claim)
    ensures Commands(w.org, a.claim, a.role)
  {
    if !a.answers {
      FailedLookupDenies(w.org, a.claim, a.role.(domain := ""));
    }
  }

  predicate NoHireNorMove(actions: seq<Action>) {
    forall i :: 0 <= i < |actions| ==> !actions[i].Hire? && !actions[i].Reorganise?
  }

  lemma {:induction false} RunKeepsCommand(roots: set<Claim>, w: World, actions: seq<Action>)
    requires IsRun(w, actions) && NoHireNorMove(actions)
    requires forall r :: r in roots ==> WellFormed(w.org, r)
    requires AllStem(roots, (a, b) => Commands(w.org, a, b), w)
    ensures AllStem(roots, (a, b) => Commands(w.org, a, b), After(w, actions))
    decreases |actions|
  {
    if actions != [] {
      var a := actions[0];
      var below := (a, b) => Commands(w.org, a, b);
      CommandsIsTransitive(w.org);
      if Grants(w, a) {
        assert Stems(roots, below, (a.admin, a.claim).1);
        GrantsCommand(w, a);
      }
      StepKeepsStems(roots, below, w, a);
      assert Step(w, a).org == w.org;
      RunKeepsCommand(roots, Step(w, a), actions[1..]);
    }
  }

  // A world the theorem starts from: nothing is handed out or taken away yet.
  ghost predicate Opening(w: World) {
    w.created == [] && w.removed == [] && forall c :: HeldAtStart(w, c) ==> WellFormed(w.org, c)
  }

  lemma RunCommands(w: World, actions: seq<Action>)
    requires Opening(w) && IsRun(w, actions) && NoHireNorMove(actions)
    ensures AllStem(Roots(w), (a, b) => Commands(w.org, a, b), After(w, actions))
    ensures forall c :: c in Roots(w) ==> HeldAtStart(w, c)
  {
    forall c | c in Roots(w) ensures HeldAtStart(w, c) {
      if c !in w.roles.Values {
        var t :| t in w.tokens && t.1 == c;
        assert (t.0, c) in w.tokens;
      }
    }
    RootsStem(w, (a, b) => Commands(w.org, a, b));
    RunKeepsCommand(Roots(w), w, actions);
  }

  /** While no unit moves and nobody is hired, the tie is the full relation: each role assigned is
      managed, unit included, by a role somebody held at the start. */
  lemma AssignedAreManaged(w: World, actions: seq<Action>, k: nat)
    requires Opening(w) && IsRun(w, actions) && NoHireNorMove(actions)
    requires k < |After(w, actions).created|
    ensures exists root :: HeldAtStart(w, root) && CanManage(Some(w.org), root, After(w, actions).created[k])
  {
    var below := (a, b) => Commands(w.org, a, b);
    RunCommands(w, actions);
    assert Under(Roots(w), below, After(w, actions).created[k]);
    var root :| root in Roots(w) && below(root, After(w, actions).created[k]);
  }

  /** And so is each role taken away. */
  lemma RemovedAreManaged(w: World, actions: seq<Action>, k: nat)
    requires Opening(w) && IsRun(w, actions) && NoHireNorMove(actions)
    requires k < |After(w, actions).removed|
    ensures exists root :: HeldAtStart(w, root) && CanManage(Some(w.org), root, After(w, actions).removed[k])
  {
    var below := (a, b) => Commands(w.org, a, b);
    RunCommands(w, actions);
    assert Under(Roots(w), below, After(w, actions).removed[k]);
    var root :| root in Roots(w) && below(root, After(w, actions).removed[k]);
  }
}
