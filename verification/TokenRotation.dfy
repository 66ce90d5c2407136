/** Refresh-token rotation under any interleaving of logins, refreshes, removals and expiries. A
    refresh fetches the token, reads its time to live, sets its used mark if nobody has, and then
    creates the successor; a revocation lists its family and then deletes what it has listed. Each
    of these is a step of its own. */
module TokenRotation {
  import opened Collections

  type Token = nat
  type Family = nat
  type CallId = nat

  /** How far a refresh has come: fetched its token, seen it alive and about to mark it, marked it
      first and about to create the successor, found it used and about to list the family, or listed
      the family and about to delete what was found. */
  datatype Stage = Fetched | Marking | Rotating | Revoking | Deleting(found: set<Token>)

  datatype Call = Call(stage: Stage, token: Token, family: Family)

  /** live and used are the Redis keys, listed the members of the families' sets. family, exchanged
      and parent record the past: the family of each token ever issued, the tokens marked in order,
      and whose successor each token is. */
  datatype World = World(
    live: set<Token>, used: set<Token>, listed: set<Token>, calls: map<CallId, Call>,
    family: map<Token, Family>, exchanged: seq<Token>, parent: map<Token, Token>)

  const START: World := World({}, {}, {}, map[], map[], [], map[])

  /** A logout everywhere leaves the families' sets alone. A token expires, and its mark later. Stop
      is any other end of a call: an error, an inactive user, a crash. */
  datatype Action =
    | Login(t: Token, f: Family)
    | Present(c: CallId, t: Token)
    | ReadTTL(c: CallId)
    | Mark(c: CallId)
    | ReadFamily(c: CallId)
    | DeleteFamily(c: CallId)
    | Create(c: CallId, t: Token)
    | Stop(c: CallId)
    | Logout(t: Token)
    | LogoutAll(ts: set<Token>)
    | Expire(t: Token)
    | Forget(t: Token)

  predicate AtStage(w: World, c: CallId, stage: Stage) { c in w.calls && w.calls[c].stage == stage }

  predicate AboutToDelete(w: World, c: CallId) { c in w.calls && w.calls[c].stage.Deleting? }

  predicate Enabled(w: World, a: Action) {
    match a
    case Login(t, f) => t !in w.family && f !in w.family.Values
    case Present(c, t) => c !in w.calls && t in w.live && t in w.family
    case ReadTTL(c) => AtStage(w, c, Fetched)
    case Mark(c) => AtStage(w, c, Marking)
    case ReadFamily(c) => AtStage(w, c, Revoking)
    case DeleteFamily(c) => AboutToDelete(w, c)
    case Create(c, t) => AtStage(w, c, Rotating) && t !in w.family
    case Stop(c) => c in w.calls
    case Logout(_) => true
    case LogoutAll(_) => true
    case Expire(_) => true
    case Forget(t) => t !in w.live
  }

  function Ended(w: World, c: CallId): World { w.(calls := w.calls - {c}) }

  function To(w: World, c: CallId, stage: Stage): World
    requires c in w.calls
  {
    w.(calls := w.calls[c := w.calls[c].(stage := stage)])
  }

  function Issued(w: World, t: Token, f: Family): World {
    w.(live := w.live + {t}, listed := w.listed + {t}, family := w.family[t := f])
  }

  function Marked(w: World, c: CallId): World
    requires c in w.calls
  {
    var t := w.calls[c].token;
    if t in w.used then To(w, c, Revoking)
    else To(w, c, Rotating).(used := w.used + {t}, exchanged := w.exchanged + [t])
  }

  function Kin(w: World, f: Family): set<Token> { set t | t in w.family && w.family[t] == f }

  function Without(w: World, ts: set<Token>): World { w.(live := w.live - ts, used := w.used - ts) }

  /** With nothing listed there is nothing to delete, and the call is over. */
  function FamilyRead(w: World, c: CallId): World
    requires c in w.calls
  {
    var found := w.listed * Kin(w, w.calls[c].family);
    if found == {} then Ended(w, c) else To(w, c, Deleting(found))
  }

  /** The pipeline of a revocation: what was found goes, and with it the family's set, whatever it
      lists by now. */
  function Revoked(w: World, f: Family, found: set<Token>): World {
    Without(w, found).(listed := w.listed - Kin(w, f))
  }

  function Step(w: World, a: Action): World
    requires Enabled(w, a)
  {
    match a
    case Login(t, f) => Issued(w, t, f)
    case Present(c, t) => w.(calls := w.calls[c := Call(Fetched, t, w.family[t])])
    case ReadTTL(c) => if w.calls[c].token in w.live then To(w, c, Marking) else Ended(w, c)
    case Mark(c) => Marked(w, c)
    case ReadFamily(c) => FamilyRead(w, c)
    case DeleteFamily(c) => Ended(Revoked(w, w.calls[c].family, w.calls[c].stage.found), c)
    case Create(c, t) =>
      Ended(Issued(w, t, w.calls[c].family), c).(parent := w.parent[t := w.calls[c].token])
    case Stop(c) => Ended(w, c)
    case Logout(t) => Without(w, {t}).(listed := w.listed - {t})
    case LogoutAll(ts) => Without(w, ts)
    case Expire(t) => w.(live := w.live - {t})
    case Forget(t) => w.(used := w.used - {t})
  }

  ghost predicate IsRun(w: World, actions: seq<Action>)
    decreases |actions|
  {
    actions == [] || (Enabled(w, actions[0]) && IsRun(Step(w, actions[0]), actions[1..]))
  }

  ghost function After(w: World, actions: seq<Action>): World
    requires IsRun(w, actions)
    decreases |actions|
  {
    if actions == [] then w else After(Step(w, actions[0]), actions[1..])
  }

  // ---- What is in the store after a step ------------------------------------------------------------

  predicate Removes(w: World, a: Action, t: Token)
    requires Enabled(w, a)
  {
    (a.Logout? && a.t == t) || (a.LogoutAll? && t in a.ts) || (a.DeleteFamily? && t in w.calls[a.c].stage.found)
  }

  /** A token is in the store from its issue until it expires or is removed. */
  lemma LiveIff(w: World, a: Action, t: Token)
    requires Enabled(w, a)
    ensures t in Step(w, a).live <==>
      ((a.Login? || a.Create?) && a.t == t) || (t in w.live && !(a.Expire? && a.t == t) && !Removes(w, a, t))
  {
  }

  /** Its mark from the first mark until it is removed or runs out, which it does after the token. */
  lemma UsedIff(w: World, a: Action, t: Token)
    requires Enabled(w, a)
    ensures a == Forget(t) ==> t !in w.live
    ensures t in Step(w, a).used <==>
      (a.Mark? && w.calls[a.c].token == t) || (t in w.used && a != Forget(t) && !Removes(w, a, t))
  {
  }

  /** Only a token in the store starts a refresh. */
  lemma PresentedIsLive(w: World, c: CallId, t: Token)
    requires Enabled(w, Present(c, t))
    ensures t in w.live && Step(w, Present(c, t)).calls == w.calls[c := Call(Fetched, t, w.family[t])]
  {
  }

  /** A refresh whose token is gone by its look ends there, as does one that fails anywhere. */
  lemma GoneTokenEnds(w: World, c: CallId)
    requires AtStage(w, c, Fetched) && w.calls[c].token !in w.live
    ensures Enabled(w, ReadTTL(c)) && Step(w, ReadTTL(c)) == w.(calls := w.calls - {c}) == Step(w, Stop(c))
  {
  }

  /** A token is in its family's set until it is logged out or the set is deleted; a logout everywhere
      leaves the sets alone. */
  lemma ListedIff(w: World, a: Action, t: Token)
    requires Enabled(w, a)
    ensures var deleted := a.DeleteFamily? && t in w.family && w.family[t] == w.calls[a.c].family;
      t in Step(w, a).listed <==> ((a.Login? || a.Create?) && a.t == t) || (t in w.listed && a != Logout(t) && !deleted)
  {
  }

  /** A revocation that finds no list has nothing to delete, and is over. */
  lemma NothingFoundEnds(w: World, c: CallId)
    requires Enabled(w, ReadFamily(c)) && forall t :: t in w.listed && t in w.family ==> w.family[t] != w.calls[c].family
    ensures Step(w, ReadFamily(c)).calls == w.calls - {c}
  {
    assert w.listed * Kin(w, w.calls[c].family) == {};
  }

  // ---- What a family can still do ------------------------------------------------------------------

  /** Whatever a family can go on from: an unused token, or a rotation in flight. */
  datatype Holder = Unused(t: Token) | InFlight(c: CallId)

  predicate Holds(w: World, f: Family, h: Holder) {
    match h
    case Unused(t) => t in w.live && t !in w.used && t in w.family && w.family[t] == f
    case InFlight(c) => AtStage(w, c, Rotating) && w.calls[c].family == f
  }

  function Holders(w: World, f: Family): set<Holder> {
    (set t | t in w.live && Holds(w, f, Unused(t)) :: Unused(t)) +
    (set c | c in w.calls && Holds(w, f, InFlight(c)) :: InFlight(c))
  }

  ghost predicate OneLine(w: World) {
    forall f, g, h :: Holds(w, f, g) && Holds(w, f, h) ==> g == h
  }

  // ---- Bookkeeping that every step keeps ----------------------------------------------------------------

  ghost predicate Recorded(w: World) {
    && w.live <= w.family.Keys
    && (forall c :: c in w.calls ==> w.calls[c].token in w.family && w.family[w.calls[c].token] == w.calls[c].family)
    && (forall c :: AtStage(w, c, Rotating) ==> w.calls[c].token in w.exchanged)
    && (forall t :: t in w.exchanged ==> t in w.family)
    && (forall t :: t in w.parent ==> t in w.family && w.parent[t] in w.exchanged)
  }

  lemma IssueKeepsRecorded(w: World, a: Action)
    requires Enabled(w, a) && Recorded(w) && (a.Login? || a.Create?)
    ensures Recorded(Step(w, a))
  {
  }

  lemma CallKeepsRecorded(w: World, a: Action)
    requires Enabled(w, a) && Recorded(w)
    requires a.Present? || a.ReadTTL? || a.Mark? || a.ReadFamily? || a.Stop?
    ensures Recorded(Step(w, a))
  {
  }

  lemma RemovalKeepsRecorded(w: World, a: Action)
    requires Enabled(w, a) && Recorded(w)
    requires a.DeleteFamily? || a.Logout? || a.LogoutAll? || a.Expire? || a.Forget?
    ensures Recorded(Step(w, a))
  {
  }

  lemma StepKeepsRecorded(w: World, a: Action)
    requires Enabled(w, a) && Recorded(w)
    ensures Recorded(Step(w, a))
  {
    if a.Login? || a.Create? {
      IssueKeepsRecorded(w, a);
    } else if a.Present? || a.ReadTTL? || a.Mark? || a.ReadFamily? || a.Stop? {
      CallKeepsRecorded(w, a);
    } else {
      RemovalKeepsRecorded(w, a);
    }
  }

  /** A call about to mark its token still finds it there. */
  ghost predicate MarkersAlive(w: World) {
    forall c :: AtStage(w, c, Marking) ==> w.calls[c].token in w.live
  }

  /** No token is taken away between a refresh's look at its time to live and its mark. With a mark
      that is one atomic step, as the port asks for, every run is quiet. */
  predicate Quiet(w: World, a: Action) {
    match a
    case Logout(t) => forall c | c in w.calls :: AtStage(w, c, Marking) ==> w.calls[c].token != t
    case LogoutAll(ts) => forall c | c in w.calls :: AtStage(w, c, Marking) ==> w.calls[c].token !in ts
    case Expire(t) => forall c | c in w.calls :: AtStage(w, c, Marking) ==> w.calls[c].token != t
    case DeleteFamily(r) => forall c | c in w.calls :: AtStage(w, c, Marking) ==>
      AboutToDelete(w, r) && w.calls[c].token !in w.calls[r].stage.found
    case ReadFamily(_) => true
    case Login(_, _) => true
    case Present(_, _) => true
    case ReadTTL(_) => true
    case Mark(_) => true
    case Create(_, _) => true
    case Stop(_) => true
    case Forget(_) => true
  }

  ghost predicate IsQuietRun(w: World, actions: seq<Action>)
    decreases |actions|
  {
    actions == [] || (Enabled(w, actions[0]) && Quiet(w, actions[0]) && IsQuietRun(Step(w, actions[0]), actions[1..]))
  }

  /** The window stays clean exactly on the quiet steps. */
  lemma QuietIff(w: World, a: Action)
    requires Enabled(w, a) && Recorded(w) && MarkersAlive(w)
    ensures MarkersAlive(Step(w, a)) <==> Quiet(w, a)
  {
    if !Quiet(w, a) {
      var c :| c in w.calls && AtStage(w, c, Marking) && w.calls[c].token !in Step(w, a).live;
      assert AtStage(Step(w, a), c, Marking);
    }
  }

  // ---- One line per family ---------------------------------------------------------------------------------

  lemma CreateReplaces(w: World, c: CallId, t: Token)
    requires Enabled(w, Create(c, t)) && Recorded(w) && OneLine(w)
    ensures OneLine(Step(w, Create(c, t)))
  {
    var v := Step(w, Create(c, t));
    forall f, g, h | Holds(v, f, g) && Holds(v, f, h) ensures g == h {
      assert Holds(w, w.calls[c].family, InFlight(c));
      assert g == Unused(t) || Holds(w, f, g);
      assert h == Unused(t) || Holds(w, f, h);
    }
  }

  lemma MarkReplaces(w: World, c: CallId)
    requires Enabled(w, Mark(c)) && Recorded(w) && OneLine(w) && MarkersAlive(w)
    ensures OneLine(Step(w, Mark(c)))
  {
    var v := Step(w, Mark(c));
    var t := w.calls[c].token;
    if t !in w.used {
      assert Holds(w, w.calls[c].family, Unused(t));
      forall f, g, h | Holds(v, f, g) && Holds(v, f, h) ensures g == h {
        assert g == InFlight(c) || Holds(w, f, g);
        assert h == InFlight(c) || Holds(w, f, h);
      }
    } else {
      forall f, g, h | Holds(v, f, g) && Holds(v, f, h) ensures g == h {
        assert Holds(w, f, g) && Holds(w, f, h);
      }
    }
  }

  lemma LoginStartsLine(w: World, t: Token, f: Family)
    requires Enabled(w, Login(t, f)) && Recorded(w) && OneLine(w)
    ensures OneLine(Step(w, Login(t, f)))
  {
    var v := Step(w, Login(t, f));
    forall e, g, h | Holds(v, e, g) && Holds(v, e, h) ensures g == h {
      assert Holds(w, e, g) || (g == Unused(t) && e == f);
      assert Holds(w, e, h) || (h == Unused(t) && e == f);
      assert !Holds(w, f, g) && !Holds(w, f, h) by {
        assert f !in w.family.Values;
      }
    }
  }

  lemma OthersAddNothing(w: World, a: Action, f: Family, h: Holder)
    requires Enabled(w, a) && Recorded(w)
    requires !a.Login? && !a.Create? && !a.Mark?
    requires Holds(Step(w, a), f, h)
    ensures Holds(w, f, h)
  {
  }

  lemma StepKeepsOneLine(w: World, a: Action)
    requires Enabled(w, a) && Recorded(w) && MarkersAlive(w) && OneLine(w)
    ensures OneLine(Step(w, a))
  {
    if a.Create? {
      CreateReplaces(w, a.c, a.t);
    } else if a.Mark? {
      MarkReplaces(w, a.c);
    } else if a.Login? {
      LoginStartsLine(w, a.t, a.f);
    } else {
      forall f, g, h | Holds(Step(w, a), f, g) && Holds(Step(w, a), f, h) ensures g == h {
        OthersAddNothing(w, a, f, g);
        OthersAddNothing(w, a, f, h);
      }
    }
  }

  /** The exact case in which a mark splits its family, quiet or not: some other holder is left
      besides the token being marked. */
  lemma MarkKeepsLineIff(w: World, c: CallId)
    requires Enabled(w, Mark(c)) && Recorded(w) && OneLine(w) && w.calls[c].token !in w.used
    ensures OneLine(Step(w, Mark(c))) <==>
      forall h :: Holds(w, w.calls[c].family, h) ==> h == Unused(w.calls[c].token)
  {
    var v, f := Step(w, Mark(c)), w.calls[c].family;
    assert Holds(v, f, InFlight(c));
    forall e, h | Holds(v, e, h) ensures h == InFlight(c) || Holds(w, e, h) {
    }
    if h :| Holds(w, f, h) && h != Unused(w.calls[c].token) {
      assert Holds(v, f, h) && h != InFlight(c);
    }
  }

  // ---- Exactly which runs stay on one line ------------------------------------------------------------

  predicate Wins(w: World, a: Action)
    requires Enabled(w, a)
  {
    a.Mark? && w.calls[a.c].token !in w.used
  }

  /** A winning mark finds nothing of its family left but the token it marks. */
  ghost predicate MarksAlone(w: World, a: Action)
    requires Enabled(w, a)
  {
    Wins(w, a) ==> forall h :: Holds(w, w.calls[a.c].family, h) ==> h == Unused(w.calls[a.c].token)
  }

  lemma LosingMarkAddsNothing(w: World, a: Action, f: Family, h: Holder)
    requires Enabled(w, a) && Recorded(w) && a.Mark? && !Wins(w, a)
    requires Holds(Step(w, a), f, h)
    ensures Holds(w, f, h)
  {
  }

  lemma StepKeepsLineIff(w: World, a: Action)
    requires Enabled(w, a) && Recorded(w) && OneLine(w)
    ensures OneLine(Step(w, a)) <==> MarksAlone(w, a)
  {
    if Wins(w, a) {
      MarkKeepsLineIff(w, a.c);
    } else if a.Create? {
      CreateReplaces(w, a.c, a.t);
    } else if a.Login? {
      LoginStartsLine(w, a.t, a.f);
    } else {
      forall f, g, h | Holds(Step(w, a), f, g) && Holds(Step(w, a), f, h) ensures g == h {
        if a.Mark? {
          LosingMarkAddsNothing(w, a, f, g);
          LosingMarkAddsNothing(w, a, f, h);
        } else {
          OthersAddNothing(w, a, f, g);
          OthersAddNothing(w, a, f, h);
        }
      }
    }
  }

  ghost predicate OneLineThroughout(w: World, actions: seq<Action>)
    requires IsRun(w, actions)
    decreases |actions|
  {
    OneLine(w) && (actions != [] ==> OneLineThroughout(Step(w, actions[0]), actions[1..]))
  }

  ghost predicate MarksAloneThroughout(w: World, actions: seq<Action>)
    requires IsRun(w, actions)
    decreases |actions|
  {
    actions != [] ==> MarksAlone(w, actions[0]) && MarksAloneThroughout(Step(w, actions[0]), actions[1..])
  }

  /** Quiet or not, a run keeps every family on one line throughout if and only if each winning mark
      in it finds nothing else left of its family. */
  lemma {:induction false} RunKeepsLineIff(w: World, actions: seq<Action>)
    requires Recorded(w) && OneLine(w) && IsRun(w, actions)
    ensures OneLineThroughout(w, actions) <==> MarksAloneThroughout(w, actions)
    decreases |actions|
  {
    if actions != [] {
      StepKeepsLineIff(w, actions[0]);
      StepKeepsRecorded(w, actions[0]);
      if OneLine(Step(w, actions[0])) {
        RunKeepsLineIff(Step(w, actions[0]), actions[1..]);
      }
    }
  }

  // ---- No token twice, no fork -----------------------------------------------------------------------------

  /** Each token was exchanged at most once, and while it lives its mark shows it. */
  ghost predicate SpentOnce(w: World) {
    && NoRepeats(w.exchanged)
    && forall t :: t in w.exchanged && t in w.live ==> t in w.used
  }

  lemma StepKeepsSpentOnce(w: World, a: Action)
    requires Enabled(w, a) && Recorded(w) && MarkersAlive(w) && SpentOnce(w)
    ensures SpentOnce(Step(w, a))
  {
  }

  /** A winning mark's token was not exchanged before. */
  predicate MarksFresh(w: World, a: Action)
    requires Enabled(w, a)
  {
    Wins(w, a) ==> w.calls[a.c].token !in w.exchanged
  }

  lemma {:induction false} ExchangedGrows(w: World, actions: seq<Action>)
    requires IsRun(w, actions)
    ensures w.exchanged <= After(w, actions).exchanged
    decreases |actions|
  {
    if actions != [] {
      ExchangedGrows(Step(w, actions[0]), actions[1..]);
    }
  }

  lemma StepExchangesOnceIff(w: World, a: Action)
    requires Enabled(w, a) && NoRepeats(w.exchanged)
    ensures NoRepeats(Step(w, a).exchanged) <==> MarksFresh(w, a)
  {
    if Wins(w, a) {
      RepeatsAtTheEnd(w.exchanged, w.calls[a.c].token);
    }
  }

  ghost predicate MarksFreshThroughout(w: World, actions: seq<Action>)
    requires IsRun(w, actions)
    decreases |actions|
  {
    actions != [] ==> MarksFresh(w, actions[0]) && MarksFreshThroughout(Step(w, actions[0]), actions[1..])
  }

  /** A run exchanges no token twice if and only if each winning mark's token was not exchanged
      before. */
  lemma {:induction false} RunExchangesOnceIff(w: World, actions: seq<Action>)
    requires NoRepeats(w.exchanged) && IsRun(w, actions)
    ensures NoRepeats(After(w, actions).exchanged) <==> MarksFreshThroughout(w, actions)
    decreases |actions|
  {
    if actions != [] {
      var v := Step(w, actions[0]);
      StepExchangesOnceIff(w, actions[0]);
      ExchangedGrows(v, actions[1..]);
      if NoRepeats(v.exchanged) {
        RunExchangesOnceIff(v, actions[1..]);
      } else {
        var i, j :| 0 <= i < j < |v.exchanged| && v.exchanged[i] == v.exchanged[j];
        assert After(v, actions[1..]).exchanged[i] == After(v, actions[1..]).exchanged[j];
      }
    }
  }

  /** No token has two successors, and none whose rotation is in flight has one already. */
  ghost predicate NoFork(w: World) {
    && (forall t, u :: t in w.parent && u in w.parent && w.parent[t] == w.parent[u] ==> t == u)
    && (forall t, c :: t in w.parent && AtStage(w, c, Rotating) ==> w.parent[t] != w.calls[c].token)
  }

  lemma CreateKeepsNoFork(w: World, a: Action)
    requires Enabled(w, a) && Recorded(w) && OneLine(w) && NoFork(w) && a.Create?
    ensures NoFork(Step(w, a))
  {
    forall c | AtStage(Step(w, a), c, Rotating) ensures w.calls[c].token != w.calls[a.c].token {
      if w.calls[c].token == w.calls[a.c].token {
        assert Holds(w, w.calls[c].family, InFlight(c)) && Holds(w, w.calls[c].family, InFlight(a.c));
      }
    }
  }

  // Whoever is rotating was so before, or has just marked a token that has no successor.
  lemma RotatorsHaveNoSuccessor(w: World, a: Action, c: CallId)
    requires Enabled(w, a) && Recorded(w) && MarkersAlive(w) && SpentOnce(w) && NoFork(w) && !a.Create?
    requires AtStage(Step(w, a), c, Rotating)
    ensures forall t :: t in w.parent ==> w.parent[t] != Step(w, a).calls[c].token
  {
    if a.Mark? && a.c == c {
      assert w.calls[c].token !in w.exchanged;
    } else {
      assert AtStage(w, c, Rotating) && Step(w, a).calls[c] == w.calls[c];
    }
  }

  lemma StepKeepsNoFork(w: World, a: Action)
    requires Enabled(w, a) && Recorded(w) && MarkersAlive(w) && SpentOnce(w) && OneLine(w) && NoFork(w)
    ensures NoFork(Step(w, a))
  {
    if a.Create? {
      CreateKeepsNoFork(w, a);
    } else {
      assert Step(w, a).parent == w.parent;
      forall c | AtStage(Step(w, a), c, Rotating) ensures forall t :: t in w.parent ==> w.parent[t] != Step(w, a).calls[c].token {
        RotatorsHaveNoSuccessor(w, a, c);
      }
    }
  }

  ghost predicate Inv(w: World) {
    Recorded(w) && MarkersAlive(w) && OneLine(w) && SpentOnce(w) && NoFork(w)
  }

  lemma {:induction false} QuietRunKeepsInv(w: World, actions: seq<Action>)
    requires Inv(w) && IsQuietRun(w, actions)
    ensures IsRun(w, actions) && Inv(After(w, actions))
    decreases |actions|
  {
    if actions != [] {
      var a := actions[0];
      StepKeepsRecorded(w, a);
      QuietIff(w, a);
      StepKeepsOneLine(w, a);
      StepKeepsSpentOnce(w, a);
      StepKeepsNoFork(w, a);
      QuietRunKeepsInv(Step(w, a), actions[1..]);
    }
  }

  lemma AtMostOne(holders: set<Holder>)
    requires forall g, h :: g in holders && h in holders ==> g == h
    ensures |holders| <= 1
  {
    if h :| h in holders {
      assert holders == {h};
    }
  }

  /** In every quiet run a family has at most one unused token or rotation in flight, no token is
      exchanged twice, and no token has two successors. */
  lemma RotationIsOneLine(actions: seq<Action>, f: Family)
    requires IsQuietRun(START, actions)
    ensures IsRun(START, actions)
    ensures |Holders(After(START, actions), f)| <= 1
    ensures NoRepeats(After(START, actions).exchanged)
    ensures NoFork(After(START, actions))
  {
    QuietRunKeepsInv(START, actions);
    AtMostOne(Holders(After(START, actions), f));
  }

  // ---- What the two steps of the mark let through ---------------------------------------------------------

  ghost predicate Leads(w: World, run: seq<Action>, last: World) {
    IsRun(w, run) && After(w, run) == last
  }

  lemma LeadsFrom(w: World, run: seq<Action>, k: nat, last: World)
    requires k < |run| && Enabled(w, run[k]) && Leads(Step(w, run[k]), run[k + 1..], last)
    ensures Leads(w, run[k..], last)
  {
    assert run[k..][1..] == run[k + 1..];
  }

  const LOGOUT_RACE: seq<Action> := [
    Login(1, 1), Present(1, 1), Present(2, 1), ReadTTL(1), ReadTTL(2), Mark(1), Logout(1), Mark(2),
    Create(1, 2), Create(2, 3)]

  const BOTH_SAW_IT: World :=
    World({1}, {}, {1}, map[1 := Call(Marking, 1, 1), 2 := Call(Marking, 1, 1)], map[1 := 1], [], map[])

  const BOTH_WON: World :=
    World({}, {1}, {}, map[1 := Call(Rotating, 1, 1), 2 := Call(Rotating, 1, 1)], map[1 := 1], [1, 1], map[])

  const FORKED: World :=
    World({2, 3}, {1}, {2, 3}, map[], map[1 := 1, 2 := 1, 3 := 1], [1, 1], map[2 := 1, 3 := 1])

  const BOTH_FETCHED: World :=
    World({1}, {}, {1}, map[1 := Call(Fetched, 1, 1), 2 := Call(Fetched, 1, 1)], map[1 := 1], [], map[])

  lemma BothCreate()
    ensures Leads(BOTH_WON, LOGOUT_RACE[8..], FORKED)
  {
    var w := Step(BOTH_WON, Create(1, 2));
    assert w.calls == map[2 := Call(Rotating, 1, 1)];
    assert Step(w, Create(2, 3)) == FORKED;
    LeadsFrom(w, LOGOUT_RACE, 9, FORKED);
    LeadsFrom(BOTH_WON, LOGOUT_RACE, 8, FORKED);
  }

  lemma BothWin()
    ensures Leads(BOTH_SAW_IT, LOGOUT_RACE[5..], FORKED)
  {
    BothCreate();
    var w := Step(BOTH_SAW_IT, Mark(1));
    var v := Step(w, Logout(1));
    assert Step(v, Mark(2)) == BOTH_WON;
    LeadsFrom(v, LOGOUT_RACE, 7, FORKED);
    LeadsFrom(w, LOGOUT_RACE, 6, FORKED);
    LeadsFrom(BOTH_SAW_IT, LOGOUT_RACE, 5, FORKED);
  }

  lemma BothSeeIt()
    ensures Leads(BOTH_FETCHED, LOGOUT_RACE[3..], FORKED)
  {
    BothWin();
    var w := Step(BOTH_FETCHED, ReadTTL(1));
    assert Step(w, ReadTTL(2)) == BOTH_SAW_IT;
    LeadsFrom(w, LOGOUT_RACE, 4, FORKED);
    LeadsFrom(BOTH_FETCHED, LOGOUT_RACE, 3, FORKED);
  }

  lemma ForkedIsBroken()
    ensures !NoRepeats(FORKED.exchanged) && !NoFork(FORKED) && !OneLine(FORKED)
    ensures !Quiet(BOTH_SAW_IT, Logout(1))
  {
    assert FORKED.exchanged[0] == FORKED.exchanged[1];
    assert 2 in FORKED.parent && 3 in FORKED.parent;
    assert Holds(FORKED, 1, Unused(2)) && Holds(FORKED, 1, Unused(3));
    assert AtStage(BOTH_SAW_IT, 1, Marking);
  }

  /** The Redis adapter reads the time to live and sets the mark in two commands. A logout in
      between takes the first mark away with the token: both refreshes win, the token is exchanged
      twice, and its family forks. */
  lemma LogoutRaceForks()
    ensures IsRun(START, LOGOUT_RACE)
    ensures var w := After(START, LOGOUT_RACE); !NoRepeats(w.exchanged) && !NoFork(w) && !OneLine(w)
  {
    BothSeeIt();
    var w := Step(START, Login(1, 1));
    var v := Step(w, Present(1, 1));
    assert Step(v, Present(2, 1)) == BOTH_FETCHED;
    LeadsFrom(v, LOGOUT_RACE, 2, FORKED);
    LeadsFrom(w, LOGOUT_RACE, 1, FORKED);
    LeadsFrom(START, LOGOUT_RACE, 0, FORKED);
    assert LOGOUT_RACE[0..] == LOGOUT_RACE;
    ForkedIsBroken();
  }

  // ---- After a reuse report ------------------------------------------------------------------------------------

  /** Nothing of the family is left to refresh with, and no refresh of it is past its look. */
  ghost predicate Dead(w: World, f: Family) {
    && f in w.family.Values
    && (forall t :: t in w.live && t in w.family ==> w.family[t] != f)
    && (forall c :: AtStage(w, c, Marking) || AtStage(w, c, Rotating) ==> w.calls[c].family != f)
  }

  /** A refresh of the family that has looked at its token and may still create a successor. */
  ghost predicate UnderWay(w: World, f: Family) {
    exists c :: (AtStage(w, c, Marking) || AtStage(w, c, Rotating)) && w.calls[c].family == f
  }

  /** A revocation ends its family exactly when, at its deletion, no refresh of the family is under
      way and every token the family still has was found when the family was listed. */
  lemma RevokeKillsIff(w: World, r: CallId)
    requires Enabled(w, DeleteFamily(r)) && Recorded(w)
    ensures Dead(Step(w, DeleteFamily(r)), w.calls[r].family) <==>
      !UnderWay(w, w.calls[r].family) && w.live * Kin(w, w.calls[r].family) <= w.calls[r].stage.found
  {
    var v, f, found := Step(w, DeleteFamily(r)), w.calls[r].family, w.calls[r].stage.found;
    assert w.family[w.calls[r].token] == f;
    if UnderWay(w, f) {
      var c :| (AtStage(w, c, Marking) || AtStage(w, c, Rotating)) && w.calls[c].family == f;
      assert AtStage(v, c, Marking) || AtStage(v, c, Rotating);
    }
    if t :| t in w.live * Kin(w, f) && t !in found {
      assert t in v.live && v.family[t] == f;
    }
  }

  /** What the listing relies on: each token there is is in its family's set. */
  predicate AllListed(w: World) { w.live <= w.listed }

  /** Only a deletion that has not found all of its family's tokens takes a token off the lists. */
  lemma StepKeepsListedIff(w: World, a: Action)
    requires Enabled(w, a) && Recorded(w) && AllListed(w)
    ensures AllListed(Step(w, a)) <==>
      (a.DeleteFamily? ==> w.live * Kin(w, w.calls[a.c].family) <= w.calls[a.c].stage.found)
  {
    if a.DeleteFamily? {
      var v, kin, found := Step(w, a), Kin(w, w.calls[a.c].family), w.calls[a.c].stage.found;
      if t :| t in w.live * kin && t !in found {
        assert t in v.live && t !in v.listed;
      }
    }
  }

  // A token issued once is never issued again.
  lemma IssuedOnce(w: World, a: Action)
    requires Enabled(w, a) && Recorded(w)
    ensures w.family.Keys <= Step(w, a).family.Keys
    ensures Step(w, a).live * w.family.Keys <= w.live
  {
  }

  lemma {:induction false} NoneComesBack(w: World, actions: seq<Action>)
    requires IsRun(w, actions) && Recorded(w)
    ensures Recorded(After(w, actions))
    ensures After(w, actions).live * w.family.Keys <= w.live
    ensures w.family.Keys <= After(w, actions).family.Keys
    decreases |actions|
  {
    if actions != [] {
      IssuedOnce(w, actions[0]);
      StepKeepsRecorded(w, actions[0]);
      NoneComesBack(Step(w, actions[0]), actions[1..]);
    }
  }

  /** Over the whole revocation, whatever happens between its listing and its deletion: when the
      family got no new token meanwhile, it ends its family unless a refresh of it is under way. */
  lemma RevocationEndsFamily(w: World, r: CallId, between: seq<Action>, v: World)
    requires Recorded(w) && AllListed(w) && Enabled(w, ReadFamily(r)) && AboutToDelete(Step(w, ReadFamily(r)), r)
    requires Leads(Step(w, ReadFamily(r)), between, v)
    requires r in v.calls && v.calls[r] == Step(w, ReadFamily(r)).calls[r]
    requires Kin(v, w.calls[r].family) == Kin(w, w.calls[r].family)
    ensures Dead(Step(v, DeleteFamily(r)), w.calls[r].family) <==> !UnderWay(v, w.calls[r].family)
  {
    StepKeepsRecorded(w, ReadFamily(r));
    NoneComesBack(Step(w, ReadFamily(r)), between);
    RevokeKillsIff(v, r);
  }

  // ---- Whole calls as runs -----------------------------------------------------------------------------------

  function Spent(w: World, t: Token): World {
    w.(used := w.used + {t}, exchanged := w.exchanged + [t])
  }

  function Succeeded(w: World, t: Token, next: Token): World
    requires t in w.family
  {
    Issued(Spent(w, t), next, w.family[t]).(parent := w.parent[next := t])
  }

  function Refreshing(c: CallId, t: Token, next: Token): seq<Action> {
    [Present(c, t), ReadTTL(c), Mark(c), Create(c, next)]
  }

  /** A refresh that nobody disturbs: its four steps spend the token and create the successor. */
  lemma UndisturbedRefresh(w: World, c: CallId, t: Token, next: Token)
    requires c !in w.calls && t in w.live && t !in w.used && t in w.family && next !in w.family
    ensures Leads(w, Refreshing(c, t, next), Succeeded(w, t, next))
  {
    var run, last := Refreshing(c, t, next), Succeeded(w, t, next);
    var w1 := Step(w, run[0]);
    var w2 := Step(w1, run[1]);
    var w3 := Step(w2, run[2]);
    assert w3.calls - {c} == w.calls;
    assert Step(w3, run[3]) == last;
    LeadsFrom(w3, run, 3, last);
    LeadsFrom(w2, run, 2, last);
    LeadsFrom(w1, run, 1, last);
    LeadsFrom(w, run, 0, last);
    assert run[0..] == run;
  }

  function ReportingReuse(c: CallId, t: Token): seq<Action> {
    [Present(c, t), ReadTTL(c), Mark(c), ReadFamily(c)]
  }

  function Listing(w: World, c: CallId, t: Token): World
    requires t in w.family
  {
    w.(calls := w.calls[c := Call(Deleting(w.listed * Kin(w, w.family[t])), t, w.family[t])])
  }

  /** A used token that is presented again: after four steps the call has listed the family. */
  lemma UndisturbedReport(w: World, c: CallId, t: Token)
    requires c !in w.calls && t in w.live && t in w.used && t in w.family && t in w.listed
    ensures Leads(w, ReportingReuse(c, t), Listing(w, c, t))
  {
    var run, last := ReportingReuse(c, t), Listing(w, c, t);
    var w1 := Step(w, run[0]);
    var w2 := Step(w1, run[1]);
    var w3 := Step(w2, run[2]);
    assert t in w.listed * Kin(w, w.family[t]);
    assert Step(w3, run[3]) == last;
    LeadsFrom(w3, run, 3, last);
    LeadsFrom(w2, run, 2, last);
    LeadsFrom(w1, run, 1, last);
    LeadsFrom(w, run, 0, last);
    assert run[0..] == run;
  }

  /** The whole revocation on its own. */
  lemma UndisturbedRevocation(w: World, c: CallId, t: Token)
    requires c !in w.calls && t in w.live && t in w.used && t in w.family && t in w.listed
    ensures Leads(w, ReportingReuse(c, t) + [DeleteFamily(c)],
                  Revoked(w, w.family[t], w.listed * Kin(w, w.family[t])))
  {
    var v, last := Listing(w, c, t), Revoked(w, w.family[t], w.listed * Kin(w, w.family[t]));
    UndisturbedReport(w, c, t);
    assert v.calls - {c} == w.calls;
    assert Step(v, DeleteFamily(c)) == last;
    Joined(w, ReportingReuse(c, t), v, [DeleteFamily(c)], last);
  }

  lemma {:induction false} Joined(w: World, first: seq<Action>, v: World, second: seq<Action>, last: World)
    requires Leads(w, first, v) && Leads(v, second, last)
    ensures Leads(w, first + second, last)
    decreases |first|
  {
    if first == [] {
      assert first + second == second;
    } else {
      Joined(Step(w, first[0]), first[1..], v, second, last);
      assert (first + second)[1..] == first[1..] + second;
    }
  }

  // ---- A revocation that comes too late ----------------------------------------------------------------------

  // Token 1 was exchanged for 2 and is presented again; between the listing and the deletion 2 is
  // exchanged for 3.
  const LATE_REVOCATION: seq<Action> :=
    [Login(1, 1)] + Refreshing(1, 1, 2) + ReportingReuse(2, 1) + Refreshing(3, 2, 3) + [DeleteFamily(2)]

  const SURVIVED: World := World({3}, {}, {}, map[], map[1 := 1, 2 := 1, 3 := 1], [1, 2], map[2 := 1, 3 := 2])

  const LOGGED_IN: World := World({1}, {}, {1}, map[], map[1 := 1], [], map[])

  const TWO_ISSUED: World := World({1, 2}, {1}, {1, 2}, map[], map[1 := 1, 2 := 1], [1], map[2 := 1])

  const LISTED_TWO: World := TWO_ISSUED.(calls := map[2 := Call(Deleting({1, 2}), 1, 1)])

  const THREE_ISSUED: World :=
    World({1, 2, 3}, {1, 2}, {1, 2, 3}, LISTED_TWO.calls, map[1 := 1, 2 := 1, 3 := 1], [1, 2], map[2 := 1, 3 := 2])

  lemma TwoAreListed()
    ensures Listing(TWO_ISSUED, 2, 1) == LISTED_TWO
  {
    assert TWO_ISSUED.listed * Kin(TWO_ISSUED, 1) == {1, 2};
  }

  lemma ReuseIsReported()
    ensures Leads(START, [Login(1, 1)] + Refreshing(1, 1, 2) + ReportingReuse(2, 1), LISTED_TWO)
  {
    assert Step(START, Login(1, 1)) == LOGGED_IN && Leads(START, [Login(1, 1)], LOGGED_IN);
    UndisturbedRefresh(LOGGED_IN, 1, 1, 2);
    assert Succeeded(LOGGED_IN, 1, 2) == TWO_ISSUED;
    Joined(START, [Login(1, 1)], LOGGED_IN, Refreshing(1, 1, 2), TWO_ISSUED);
    UndisturbedReport(TWO_ISSUED, 2, 1);
    TwoAreListed();
    Joined(START, [Login(1, 1)] + Refreshing(1, 1, 2), TWO_ISSUED, ReportingReuse(2, 1), LISTED_TWO);
  }

  lemma DeletionComesLate()
    ensures Leads(THREE_ISSUED, [DeleteFamily(2)], SURVIVED) && Quiet(THREE_ISSUED, DeleteFamily(2))
    ensures !UnderWay(THREE_ISSUED, 1)
  {
    assert Kin(THREE_ISSUED, 1) == {1, 2, 3};
    assert THREE_ISSUED.calls - {2} == map[];
    assert Step(THREE_ISSUED, DeleteFamily(2)) == SURVIVED;
  }

  /** No refresh is under way at the deletion, and still token 3 outlives it, unused; and with the
      family's set gone it is on no list any more. */
  lemma LateRevocationMisses()
    ensures Leads(START, LATE_REVOCATION, SURVIVED) && !UnderWay(THREE_ISSUED, 1)
    ensures Holds(SURVIVED, 1, Unused(3)) && !Dead(SURVIVED, 1) && !AllListed(SURVIVED)
  {
    ReuseIsReported();
    UndisturbedRefresh(LISTED_TWO, 3, 2, 3);
    assert Succeeded(LISTED_TWO, 2, 3) == THREE_ISSUED;
    var reported := [Login(1, 1)] + Refreshing(1, 1, 2) + ReportingReuse(2, 1);
    Joined(START, reported, LISTED_TWO, Refreshing(3, 2, 3), THREE_ISSUED);
    DeletionComesLate();
    Joined(START, reported + Refreshing(3, 2, 3), THREE_ISSUED, [DeleteFamily(2)], SURVIVED);
  }

  lemma StepKeepsDead(w: World, a: Action, f: Family)
    requires Enabled(w, a) && Recorded(w) && Dead(w, f)
    ensures Dead(Step(w, a), f)
    ensures Kin(Step(w, a), f) == Kin(w, f)
    ensures Step(w, a).exchanged == w.exchanged || (a.Mark? && w.calls[a.c].family != f &&
      Step(w, a).exchanged == w.exchanged + [w.calls[a.c].token])
  {
    if a.Login? || a.Create? {
      assert Step(w, a).family == w.family[a.t := if a.Login? then a.f else w.calls[a.c].family];
      var t :| t in w.family && w.family[t] == f;
      assert t != a.t && Step(w, a).family[t] == f;
    }
  }

  /** Once a family is dead no token of it is ever exchanged again and none is ever created, however
      the run goes on. */
  lemma {:induction false} DeadStaysDead(w: World, actions: seq<Action>, f: Family)
    requires Recorded(w) && Dead(w, f) && IsRun(w, actions)
    ensures Dead(After(w, actions), f) && Kin(After(w, actions), f) == Kin(w, f)
    ensures w.exchanged <= After(w, actions).exchanged
    ensures forall k :: |w.exchanged| <= k < |After(w, actions).exchanged| ==>
      After(w, actions).exchanged[k] !in Kin(w, f)
    decreases |actions|
  {
    if actions != [] {
      StepKeepsRecorded(w, actions[0]);
      StepKeepsDead(w, actions[0], f);
      DeadStaysDead(Step(w, actions[0]), actions[1..], f);
    }
  }
}
