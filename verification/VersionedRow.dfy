/** One row guarded by a version column, and any number of concurrent calls that read it, patch
    what they read and write it back with a compare-and-swap on the version, three tries each.
    A patch maps the row it reads to the row it would write, or refuses. */
module VersionedRow {
  import opened Wrappers

  const MAX_UPDATE_RETRIES: nat := 3

  type CallId = nat

  /** Between its read and its swap a call carries the version it read and the row it will write. */
  datatype Phase<R> = ToRead | ToSwap(version: nat, next: R)

  /** since is how many commits the row had when the call began. */
  datatype Call<R, P> = Call(patch: P, since: nat, tries: nat, phase: Phase<R>)

  datatype Outcome<R> =
    | Updated(row: R)
    | Refused
    | Conflict
    | Broken

  /** How a call ended, with the number of commits before it began and when it ended. */
  datatype Ended<R, P> = Ended(patch: P, since: nat, until: nat, outcome: Outcome<R>)

  datatype Commit<P> = Commit(call: CallId, patch: P)

  /** history is the audit table some rows keep: one entry per commit, in the same transaction. */
  datatype World<R, P> = World(
    row: R, version: nat, history: seq<R>, commits: seq<Commit<P>>,
    calls: map<CallId, Call<R, P>>, ended: map<CallId, Ended<R, P>>)

  datatype Action<P> =
    | Begin(c: CallId, patch: P)
    | Read(c: CallId)
    | Swap(c: CallId)
    | WriteNow(c: CallId, patch: P)
    | Break(c: CallId)

  function Start<R, P>(row: R): World<R, P> {
    World(row, 0, [], [], map[], map[])
  }

  predicate Enabled<R, P>(w: World<R, P>, a: Action<P>) {
    match a
    case Begin(c, _) => c !in w.calls && c !in w.ended
    case WriteNow(c, _) => c !in w.calls && c !in w.ended
    case Read(c) => c in w.calls && w.calls[c].phase.ToRead?
    case Swap(c) => c in w.calls && w.calls[c].phase.ToSwap?
    case Break(c) => c in w.calls
  }

  function Finish<R, P>(w: World<R, P>, c: CallId, outcome: Outcome<R>): World<R, P>
    requires c in w.calls
  {
    w.(calls := w.calls - {c},
       ended := w.ended[c := Ended(w.calls[c].patch, w.calls[c].since, |w.commits|, outcome)])
  }

  function Committed<R, P>(w: World<R, P>, c: CallId, patch: P, next: R): World<R, P> {
    w.(row := next, version := w.version + 1, history := w.history + [next], commits := w.commits + [Commit(c, patch)])
  }

  function Step<R, P>(f: (P, R) -> Option<R>, w: World<R, P>, a: Action<P>): World<R, P>
    requires Enabled(w, a)
  {
    match a
    case Begin(c, patch) => w.(calls := w.calls[c := Call(patch, |w.commits|, 0, ToRead)])
    case Read(c) =>
      (match f(w.calls[c].patch, w.row)
       case None => Finish(w, c, Refused)
       case Some(next) => w.(calls := w.calls[c := w.calls[c].(phase := ToSwap(w.version, next))]))
    case Swap(c) =>
      var call := w.calls[c];
      if call.phase.version == w.version then
        Finish(Committed(w, c, call.patch, call.phase.next), c, Updated(call.phase.next))
      else if call.tries + 1 < MAX_UPDATE_RETRIES then
        w.(calls := w.calls[c := call.(tries := call.tries + 1, phase := ToRead)])
      else Finish(w, c, Conflict)
    case WriteNow(c, patch) =>
      // An unconditional UPDATE that bumps the version: read and write are one statement.
      var begun := w.(calls := w.calls[c := Call(patch, |w.commits|, 0, ToRead)]);
      (match f(patch, w.row)
       case None => Finish(begun, c, Refused)
       case Some(next) => Finish(Committed(begun, c, patch, next), c, Updated(next)))
    case Break(c) => Finish(w, c, Broken)
  }

  ghost predicate IsRun<R, P>(f: (P, R) -> Option<R>, w: World<R, P>, actions: seq<Action<P>>)
    decreases |actions|
  {
    actions == [] || (Enabled(w, actions[0]) && IsRun(f, Step(f, w, actions[0]), actions[1..]))
  }

  ghost function After<R, P>(f: (P, R) -> Option<R>, w: World<R, P>, actions: seq<Action<P>>): World<R, P>
    requires IsRun(f, w, actions)
    decreases |actions|
  {
    if actions == [] then w else After(f, Step(f, w, actions[0]), actions[1..])
  }

  // ---- The reference: patches applied one after the other ----------------------------------

  /** The first row with the commits' patches applied in their order. */
  function Applied<R, P>(f: (P, R) -> Option<R>, first: R, commits: seq<Commit<P>>): R
    decreases |commits|
  {
    if commits == [] then first
    else
      var before := Applied(f, first, commits[..|commits| - 1]);
      match f(commits[|commits| - 1].patch, before)
      case Some(next) => next
      case None => before
  }

  /** Each committed patch really accepted the row it was applied to. */
  ghost predicate Accepted<R, P>(f: (P, R) -> Option<R>, first: R, commits: seq<Commit<P>>) {
    forall k :: 0 <= k < |commits| ==>
      f(commits[k].patch, Applied(f, first, commits[..k])) == Some(Applied(f, first, commits[..k + 1]))
  }

  // ---- The invariant ------------------------------------------------------------------------

  /** A pending swap's row is its patch on the row of the version it read, and every failed try
      of the call is a commit that landed since it began. */
  ghost predicate CallSound<R, P>(f: (P, R) -> Option<R>, first: R, commits: seq<Commit<P>>, call: Call<R, P>) {
    && call.tries < MAX_UPDATE_RETRIES
    && (match call.phase
        case ToRead => call.since + call.tries <= |commits|
        case ToSwap(v, next) =>
          call.since + call.tries <= v <= |commits| && f(call.patch, Applied(f, first, commits[..v])) == Some(next))
  }

  /** A success is one commit between begin and end with the row it returned; anything else is no
      commit; a conflict saw three commits of others. */
  ghost predicate EndSound<R, P>(f: (P, R) -> Option<R>, first: R, commits: seq<Commit<P>>, c: CallId, e: Ended<R, P>) {
    && e.since <= e.until <= |commits|
    && (match e.outcome
        case Updated(row) =>
          e.since < e.until && commits[e.until - 1] == Commit(c, e.patch)
          && row == Applied(f, first, commits[..e.until])
          && (forall k :: 0 <= k < |commits| && commits[k].call == c ==> k == e.until - 1)
        case Conflict =>
          e.since + MAX_UPDATE_RETRIES <= e.until && (forall k :: 0 <= k < |commits| ==> commits[k].call != c)
        case _ => forall k :: 0 <= k < |commits| ==> commits[k].call != c)
  }

  ghost predicate Inv<R, P>(f: (P, R) -> Option<R>, first: R, w: World<R, P>) {
    && w.version == |w.commits| == |w.history|
    && w.row == Applied(f, first, w.commits)
    && Accepted(f, first, w.commits)
    && (forall k :: 0 <= k < |w.history| ==> w.history[k] == Applied(f, first, w.commits[..k + 1]))
    && (forall c :: c in w.calls ==> c !in w.ended && CallSound(f, first, w.commits, w.calls[c]))
    && (forall c :: c in w.ended ==> EndSound(f, first, w.commits, c, w.ended[c]))
    && (forall k :: 0 <= k < |w.commits| ==> w.commits[k].call in w.ended)
  }

  // ---- Each step keeps it -------------------------------------------------------------------

  lemma Extends<R, P>(f: (P, R) -> Option<R>, first: R, commits: seq<Commit<P>>, x: Commit<P>, next: R)
    requires Accepted(f, first, commits) && f(x.patch, Applied(f, first, commits)) == Some(next)
    ensures Applied(f, first, commits + [x]) == next
    ensures forall v :: 0 <= v <= |commits| ==> (commits + [x])[..v] == commits[..v]
    ensures Accepted(f, first, commits + [x])
  {
    var longer := commits + [x];
    assert longer[..|longer| - 1] == commits;
    forall v | 0 <= v <= |commits| ensures longer[..v] == commits[..v] {
    }
    forall k | 0 <= k < |longer|
      ensures f(longer[k].patch, Applied(f, first, longer[..k])) == Some(Applied(f, first, longer[..k + 1]))
    {
      if k == |commits| {
        assert longer[..k] == commits && longer[..k + 1] == longer;
      } else {
        assert longer[..k + 1] == commits[..k + 1] && longer[..k] == commits[..k];
      }
    }
  }

  lemma ExtendsCall<R, P>(f: (P, R) -> Option<R>, first: R, commits: seq<Commit<P>>, x: Commit<P>, call: Call<R, P>)
    requires CallSound(f, first, commits, call)
    ensures CallSound(f, first, commits + [x], call)
  {
    if call.phase.ToSwap? {
      assert (commits + [x])[..call.phase.version] == commits[..call.phase.version];
    }
  }

  lemma ExtendsEnd<R, P>(f: (P, R) -> Option<R>, first: R, commits: seq<Commit<P>>, x: Commit<P>, c: CallId, e: Ended<R, P>)
    requires EndSound(f, first, commits, c, e) && x.call != c
    ensures EndSound(f, first, commits + [x], c, e)
  {
    assert (commits + [x])[..e.until] == commits[..e.until];
  }

  // A commit by a call that has not ended: everybody else's facts survive it.
  lemma CommitKeepsInv<R, P>(f: (P, R) -> Option<R>, first: R, w: World<R, P>, c: CallId, next: R)
    requires Inv(f, first, w) && c in w.calls && f(w.calls[c].patch, w.row) == Some(next)
    ensures Inv(f, first, Finish(Committed(w, c, w.calls[c].patch, next), c, Updated(next)))
  {
    var x := Commit(c, w.calls[c].patch);
    var after := Finish(Committed(w, c, x.patch, next), c, Updated(next));
    Extends(f, first, w.commits, x, next);
    forall d | d in after.calls ensures d !in after.ended && CallSound(f, first, after.commits, after.calls[d]) {
      ExtendsCall(f, first, w.commits, x, w.calls[d]);
    }
    forall d | d in after.ended ensures EndSound(f, first, after.commits, d, after.ended[d]) {
      if d != c {
        ExtendsEnd(f, first, w.commits, x, d, w.ended[d]);
      } else {
        assert after.commits[..|w.commits| + 1] == after.commits;
        assert w.calls[c].since <= |w.commits|;
      }
    }
    forall k | 0 <= k < |after.history| ensures after.history[k] == Applied(f, first, after.commits[..k + 1]) {
      if k == |w.history| {
        assert after.commits[..k + 1] == after.commits;
      } else {
        assert after.commits[..k + 1] == w.commits[..k + 1];
      }
    }
  }

  // A call that ends without a commit.
  lemma FinishKeepsInv<R, P>(f: (P, R) -> Option<R>, first: R, w: World<R, P>, c: CallId, outcome: Outcome<R>)
    requires Inv(f, first, w) && c in w.calls && !outcome.Updated?
    requires outcome.Conflict? ==> w.calls[c].since + MAX_UPDATE_RETRIES <= |w.commits|
    ensures Inv(f, first, Finish(w, c, outcome))
  {
    assert w.calls[c].since <= |w.commits|;
  }

  lemma ReadKeepsInv<R, P>(f: (P, R) -> Option<R>, first: R, w: World<R, P>, c: CallId)
    requires Inv(f, first, w) && Enabled(w, Read(c))
    ensures Inv(f, first, Step(f, w, Read(c)))
  {
    if f(w.calls[c].patch, w.row).None? {
      FinishKeepsInv(f, first, w, c, Refused);
    } else {
      assert w.commits[..|w.commits|] == w.commits;
      assert CallSound(f, first, w.commits, w.calls[c]);
    }
  }

  lemma SwapKeepsInv<R, P>(f: (P, R) -> Option<R>, first: R, w: World<R, P>, c: CallId)
    requires Inv(f, first, w) && Enabled(w, Swap(c))
    ensures Inv(f, first, Step(f, w, Swap(c)))
  {
    var call := w.calls[c];
    assert CallSound(f, first, w.commits, call);
    if call.phase.version == w.version {
      assert w.commits[..|w.commits|] == w.commits;
      CommitKeepsInv(f, first, w, c, call.phase.next);
    } else if call.tries + 1 == MAX_UPDATE_RETRIES {
      FinishKeepsInv(f, first, w, c, Conflict);
    }
  }

  lemma WriteNowKeepsInv<R, P>(f: (P, R) -> Option<R>, first: R, w: World<R, P>, c: CallId, patch: P)
    requires Inv(f, first, w) && Enabled<R, P>(w, WriteNow(c, patch))
    ensures Inv(f, first, Step(f, w, WriteNow(c, patch)))
  {
    var begun := w.(calls := w.calls[c := Call(patch, |w.commits|, 0, ToRead)]);
    assert Inv(f, first, begun);
    match f(patch, w.row) {
      case None => FinishKeepsInv(f, first, begun, c, Refused);
      case Some(next) => CommitKeepsInv(f, first, begun, c, next);
    }
  }

  lemma StepKeepsInv<R, P>(f: (P, R) -> Option<R>, first: R, w: World<R, P>, a: Action<P>)
    requires Inv(f, first, w) && Enabled(w, a)
    ensures Inv(f, first, Step(f, w, a))
  {
    match a
    case Begin(c, patch) =>
    case Read(c) => ReadKeepsInv(f, first, w, c);
    case Swap(c) => SwapKeepsInv(f, first, w, c);
    case WriteNow(c, patch) => WriteNowKeepsInv(f, first, w, c, patch);
    case Break(c) => FinishKeepsInv(f, first, w, c, Broken);
  }

  lemma {:induction false} RunKeepsInv<R, P>(f: (P, R) -> Option<R>, first: R, w: World<R, P>, actions: seq<Action<P>>)
    requires Inv(f, first, w) && IsRun(f, w, actions)
    ensures Inv(f, first, After(f, w, actions))
    decreases |actions|
  {
    if actions != [] {
      StepKeepsInv(f, first, w, actions[0]);
      RunKeepsInv(f, first, Step(f, w, actions[0]), actions[1..]);
    }
  }

  // ---- What a caller may rely on ---------------------------------------------------------------

  ghost predicate Reachable<R, P(!new)>(f: (P, R) -> Option<R>, first: R, w: World<R, P>) {
    exists actions: seq<Action<P>> :: IsRun(f, Start(first), actions) && After(f, Start(first), actions) == w
  }

  lemma InvReached<R, P(!new)>(f: (P, R) -> Option<R>, first: R, w: World<R, P>)
    requires Reachable(f, first, w)
    ensures Inv(f, first, w)
  {
    var actions: seq<Action<P>> :| IsRun(f, Start(first), actions) && After(f, Start(first), actions) == w;
    RunKeepsInv(f, first, Start(first), actions);
  }

  /** Serializability: in every reachable world the row is the committed patches applied one after
      the other in commit order, each to the row it had seen, and the version counts them. The
      history table holds every row on the way. */
  lemma RowIsCommitsInOrder<R, P(!new)>(f: (P, R) -> Option<R>, first: R, w: World<R, P>)
    requires Reachable(f, first, w)
    ensures w.row == Applied(f, first, w.commits) && w.version == |w.commits| && Accepted(f, first, w.commits)
    ensures |w.history| == w.version
    ensures forall k :: 0 <= k < |w.history| ==> w.history[k] == Applied(f, first, w.commits[..k + 1])
  {
    InvReached(f, first, w);
  }

  // The same for one commit.
  lemma CommitAt<R, P(!new)>(f: (P, R) -> Option<R>, first: R, w: World<R, P>, k: nat)
    requires Reachable(f, first, w) && k < |w.commits|
    ensures f(w.commits[k].patch, Applied(f, first, w.commits[..k])) == Some(Applied(f, first, w.commits[..k + 1]))
    ensures |w.history| == |w.commits| == w.version && w.history[k] == Applied(f, first, w.commits[..k + 1])
  {
    RowIsCommitsInOrder(f, first, w);
  }

  /** A success is exactly one commit, made while the call ran, of the call's own patch; it returns
      the row as of that commit. Every other outcome is no commit at all. */
  lemma SuccessIsOneCommit<R, P(!new)>(f: (P, R) -> Option<R>, first: R, w: World<R, P>, c: CallId)
    requires Reachable(f, first, w) && c in w.ended
    ensures var e := w.ended[c];
      e.outcome.Updated? ==>
        && e.since < e.until <= |w.commits|
        && w.commits[e.until - 1] == Commit(c, e.patch)
        && e.outcome.row == Applied(f, first, w.commits[..e.until])
    ensures forall k :: 0 <= k < |w.commits| && w.commits[k].call == c ==>
      w.ended[c].outcome.Updated? && k == w.ended[c].until - 1
  {
    EndOf(f, first, w, c);
    assert w.ended[c].outcome.Updated? || forall k :: 0 <= k < |w.commits| ==> w.commits[k].call != c;
  }

  lemma EndOf<R, P(!new)>(f: (P, R) -> Option<R>, first: R, w: World<R, P>, c: CallId)
    requires Reachable(f, first, w) && c in w.ended
    ensures EndSound(f, first, w.commits, c, w.ended[c])
  {
    InvReached(f, first, w);
  }

  /** A call gives up as a conflict only when three other calls committed while it ran. */
  lemma ConflictSawThreeOthers<R, P(!new)>(f: (P, R) -> Option<R>, first: R, w: World<R, P>, c: CallId)
    requires Reachable(f, first, w) && c in w.ended && w.ended[c].outcome.Conflict?
    ensures w.ended[c].since + 3 <= w.ended[c].until <= |w.commits|
    ensures forall k :: w.ended[c].since <= k < w.ended[c].until ==> w.commits[k].call != c
  {
    EndOf(f, first, w, c);
  }

  /** A race lost at the first or second try costs one try and nothing else; at the third it is the end. */
  lemma LostRaceCosts<R, P>(f: (P, R) -> Option<R>, w: World<R, P>, c: CallId)
    requires Enabled(w, Swap(c)) && w.calls[c].phase.version != w.version
    ensures var v, call := Step(f, w, Swap(c)), w.calls[c];
      && v.row == w.row && v.version == w.version && v.commits == w.commits
      && if call.tries < 2 then v.calls == w.calls[c := Call(call.patch, call.since, call.tries + 1, ToRead)] && v.ended == w.ended
         else v.calls == w.calls - {c} && v.ended == w.ended[c := Ended(call.patch, call.since, |w.commits|, Conflict)]
  {
  }

  /** An unconditional write commits its patch of the row as it is, unless the patch refuses it. */
  lemma WriteNowCommits<R, P>(f: (P, R) -> Option<R>, w: World<R, P>, c: CallId, patch: P)
    requires Enabled(w, WriteNow(c, patch))
    ensures var v, next := Step(f, w, WriteNow(c, patch)), f(patch, w.row);
      if next.Some? then
        v.row == next.value && v.version == w.version + 1 && v.commits == w.commits + [Commit(c, patch)] && v.ended[c].outcome == Updated(next.value)
      else v.row == w.row && v.version == w.version && v.commits == w.commits && v.ended[c].outcome == Refused
  {
  }

  // ---- One column of the row -------------------------------------------------------------------

  /** The value the last commit that sets a column gave it, else the value it had at first. */
  function LastSet<P, V>(sets: P -> Option<V>, commits: seq<Commit<P>>, original: V): V
    decreases |commits|
  {
    if commits == [] then original
    else match sets(commits[|commits| - 1].patch)
      case Some(v) => v
      case None => LastSet(sets, commits[..|commits| - 1], original)
  }

  /** get reads a column and sets says which patches write it, and with what. */
  ghost predicate IsColumn<R(!new), P(!new), V>(f: (P, R) -> Option<R>, get: R -> V, sets: P -> Option<V>) {
    forall p, r :: f(p, r).Some? ==>
      get(f(p, r).value) == match sets(p) case Some(v) => v case None => get(r)
  }

  // Concurrent edits of different columns merge: each column ends with its own last writer.
  lemma {:induction false} ColumnsMerge<R(!new), P(!new), V>(
      f: (P, R) -> Option<R>, get: R -> V, sets: P -> Option<V>, first: R, commits: seq<Commit<P>>)
    requires IsColumn(f, get, sets) && Accepted(f, first, commits)
    ensures get(Applied(f, first, commits)) == LastSet(sets, commits, get(first))
    decreases |commits|
  {
    if commits != [] {
      var n := |commits| - 1;
      assert commits[..n + 1] == commits;
      forall k | 0 <= k < n ensures
        f(commits[..n][k].patch, Applied(f, first, commits[..n][..k])) == Some(Applied(f, first, commits[..n][..k + 1]))
      {
        assert commits[..n][..k] == commits[..k] && commits[..n][..k + 1] == commits[..k + 1];
      }
      ColumnsMerge(f, get, sets, first, commits[..n]);
      assert f(commits[n].patch, Applied(f, first, commits[..n])) == Some(Applied(f, first, commits));
    }
  }
}
