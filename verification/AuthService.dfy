/** Login, refresh and logout as one caller runs them, on the token store's keys. */
module AuthService {
  import opened Wrappers
  import opened TokenRotation

  datatype Error = InvalidToken | TokenReused | UserRefused | StoreDown

  // Fewer holders keep a line a line.
  lemma FewerHolders(w: World, v: World)
    requires OneLine(w) && forall f, h :: Holds(v, f, h) ==> Holds(w, f, h)
    ensures OneLine(v)
  {
  }

  lemma SpendingEndsTheLine(w: World, t: Token, h: Holder)
    requires Recorded(w) && OneLine(w) && t in w.live && t !in w.used
    ensures !Holds(Spent(w, t), w.family[t], h)
  {
    assert Holds(w, w.family[t], Unused(t));
    assert Holds(Spent(w, t), w.family[t], h) ==> Holds(w, w.family[t], h);
  }

  lemma SuccessorHoldsTheLine(w: World, t: Token, next: Token)
    requires Recorded(w) && OneLine(w) && t in w.live && t !in w.used && next !in w.family
    ensures OneLine(Spent(w, t)) && OneLine(Succeeded(w, t, next))
    ensures forall h :: Holds(Succeeded(w, t, next), w.family[t], h) ==> h == Unused(next)
  {
    var v, f := Succeeded(w, t, next), w.family[t];
    FewerHolders(w, Spent(w, t));
    forall h | Holds(v, f, h) ensures h == Unused(next) {
      SpendingEndsTheLine(w, t, h);
    }
    forall e, g, h | Holds(v, e, g) && Holds(v, e, h) ensures g == h {
      assert e != f ==> Holds(w, e, g) && Holds(w, e, h);
    }
  }

  /** The store and its past, with no refresh in flight: what one call finds and leaves. */
  class Auth {
    var world: World

    ghost predicate Settled()
      reads this
    {
      world.calls == map[] && Recorded(world) && OneLine(world) && SpentOnce(world) && AllListed(world)
    }

    constructor ()
      ensures Settled() && world == START
    {
      world := START;
    }

    /** A new session: fresh token, fresh family. */
    method Login(t: Token, f: Family)
      requires Settled() && Enabled(world, TokenRotation.Login(t, f))
      modifies this
      ensures Settled() && world == Step(old(world), TokenRotation.Login(t, f))
      ensures forall h :: Holds(world, f, h) ==> h == Unused(t)
    {
      LoginStartsLine(world, t, f);
      StepKeepsSpentOnce(world, TokenRotation.Login(t, f));
      world := Issued(world, t, f);
    }

    /** userOk: the account is found and active and its role can be read; creates and revokes: the
        store takes the successor, and the revocation. A token that is presented again takes its
        whole family with it. */
    method Refresh(t: Token, next: Token, userOk: bool, creates: bool, revokes: bool) returns (r: Result<Token, Error>)
      requires Settled() && next !in world.family
      modifies this
      ensures Settled()
      ensures t !in old(world).live ==> r == Failure(InvalidToken) && world == old(world)
      ensures t in old(world).live && t in old(world).used ==> r == Failure(TokenReused)
      ensures t in old(world).live && t in old(world).used && revokes ==>
        Dead(world, old(world).family[t]) && Leads(old(world), ReportingReuse(0, t) + [DeleteFamily(0)], world)
      ensures t in old(world).live && t in old(world).used && !revokes ==> world == old(world)
      ensures r.Success? <==> t in old(world).live && t !in old(world).used && userOk && creates
      ensures r.Success? ==> r.value == next && Leads(old(world), Refreshing(0, t, next), world)
      ensures r.Success? ==> forall h :: Holds(world, old(world).family[t], h) ==> h == Unused(next)
      ensures t in old(world).live && t !in old(world).used && r.Failure? ==> world == Spent(old(world), t)
    {
      if t !in world.live { return Failure(InvalidToken); }
      var family := world.family[t];
      if t in world.used {
        if revokes {
          var found := world.listed * Kin(world, family);
          FewerHolders(world, Revoked(world, family, found));
          UndisturbedRevocation(world, 0, t);
          assert world.family[t] == family;
          world := Revoked(world, family, found);
        }
        return Failure(TokenReused);
      }
      SuccessorHoldsTheLine(world, t, next);
      UndisturbedRefresh(world, 0, t, next);
      ghost var before := world;
      world := Spent(world, t);
      if !userOk { return Failure(UserRefused); }
      if !creates { return Failure(StoreDown); }
      world := Issued(world, next, family).(parent := world.parent[next := t]);
      assert world == Succeeded(before, t, next);
      return Success(next);
    }

    method Logout(t: Token)
      requires Settled()
      modifies this
      ensures Settled() && world == Step(old(world), TokenRotation.Logout(t))
      ensures forall f, h :: Holds(world, f, h) <==> Holds(old(world), f, h) && h != Unused(t)
    {
      FewerHolders(world, Step(world, TokenRotation.Logout(t)));
      world := Step(world, TokenRotation.Logout(t));
      assert forall f, h :: Holds(world, f, h) ==> Holds(old(world), f, h);
    }
  }
}
