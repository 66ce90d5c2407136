/** Two use cases that count references without a guard on their row: removing an announcement's
    attachment and editing a question's image. Each reads the inode in the row, may link a new one,
    writes the row whatever it holds by then, and unlinks the inode it had read. The counts stay
    exact on just those runs in which every write still finds what its call read. */
module UnguardedColumns {
  import opened Wrappers
  import opened Tally

  type InodeId = nat
  type RowId = nat
  type CallId = nat

  /** A removal clears; an edit of a question keeps its image, clears it or replaces it. */
  datatype Plan = Keep | Clear | Replace(image: InodeId)

  datatype Call = Reading(row: RowId, seen: Option<InodeId>, plan: Plan) | Finishing(drop: Option<InodeId>)

  /** counts has each inode as often as it is counted. */
  datatype World = World(rows: map<RowId, Option<InodeId>>, counts: multiset<InodeId>, calls: map<CallId, Call>)

  datatype Action = Begin(c: CallId, row: RowId, plan: Plan) | Write(c: CallId) | Finish(c: CallId)

  predicate Enabled(w: World, a: Action) {
    match a
    case Begin(c, row, _) => c !in w.calls && row in w.rows
    case Write(c) => c in w.calls && w.calls[c].Reading? && w.calls[c].row in w.rows
    case Finish(c) => c in w.calls && w.calls[c].Finishing?
  }

  function Bag(o: Option<InodeId>): multiset<InodeId> { if o.Some? then multiset{o.value} else multiset{} }

  function NewImage(p: Plan): Option<InodeId> { if p.Replace? then Some(p.image) else None }

  function Written(call: Call): Option<InodeId>
    requires call.Reading?
  {
    match call.plan
    case Keep => call.seen
    case Clear => None
    case Replace(image) => Some(image)
  }

  function Replaced(call: Call): Option<InodeId>
    requires call.Reading?
  {
    if call.plan.Keep? then None else call.seen
  }

  function Step(w: World, a: Action): World
    requires Enabled(w, a)
  {
    match a
    case Begin(c, row, plan) =>
      World(w.rows, w.counts + Bag(NewImage(plan)), w.calls[c := Reading(row, w.rows[row], plan)])
    case Write(c) =>
      var call := w.calls[c];
      w.(rows := w.rows[call.row := Written(call)], calls := w.calls[c := Finishing(Replaced(call))])
    case Finish(c) => w.(counts := w.counts - Bag(w.calls[c].drop), calls := w.calls - {c})
  }

  // ---- What is owed a count ------------------------------------------------------------------------

  function CallOwes(call: Call): multiset<InodeId> {
    match call
    case Reading(_, _, plan) => Bag(NewImage(plan))
    case Finishing(drop) => Bag(drop)
  }

  /** The references of the rows, the links calls have taken and not yet written, and the unlinks
      they still have to make. */
  ghost function Owed(w: World): multiset<InodeId> { Sum(w.rows, Bag) + Sum(w.calls, CallOwes) }

  ghost predicate Exact(w: World) { w.counts == Owed(w) }

  /** The row still holds what the call that now writes it has read. */
  predicate StillSeen(w: World, a: Action)
    requires Enabled(w, a)
  {
    a.Write? ==> w.rows[w.calls[a.c].row] == w.calls[a.c].seen
  }

  // A sum of two parts, each of which trades something for something else.
  lemma BothMove(r: multiset<nat>, r': multiset<nat>, c: multiset<nat>, c': multiset<nat>, was: multiset<nat>,
        written: multiset<nat>, reading: multiset<nat>, replaced: multiset<nat>, seen: multiset<nat>)
    requires r' + was == r + written && c' + reading == c + replaced && written + replaced == seen + reading
    ensures (r' + c') + was == (r + c) + seen
  {
    forall i: nat ensures ((r' + c') + was)[i] == ((r + c) + seen)[i] {
      assert (r' + was)[i] == (r + written)[i];
      assert (c' + reading)[i] == (c + replaced)[i];
      assert (written + replaced)[i] == (seen + reading)[i];
    }
  }

  lemma TradesFairly(call: Call)
    requires call.Reading?
    ensures Bag(Written(call)) + Bag(Replaced(call)) == Bag(call.seen) + CallOwes(call)
  {
  }

  lemma WriteMoves(w: World, c: CallId)
    requires Enabled(w, Write(c))
    ensures Owed(Step(w, Write(c))) + Bag(w.rows[w.calls[c].row]) == Owed(w) + Bag(w.calls[c].seen)
  {
    var call, v := w.calls[c], Step(w, Write(c));
    SumReplace(w.rows, Bag, call.row, Written(call));
    SumReplace(w.calls, CallOwes, c, Finishing(Replaced(call)));
    TradesFairly(call);
    BothMove(Sum(w.rows, Bag), Sum(v.rows, Bag), Sum(w.calls, CallOwes), Sum(v.calls, CallOwes),
      Bag(w.rows[call.row]), Bag(Written(call)), CallOwes(call), Bag(Replaced(call)), Bag(call.seen));
  }

  lemma SameBag(was: Option<InodeId>, seen: Option<InodeId>, rest: multiset<InodeId>)
    requires rest + Bag(was) == rest + Bag(seen)
    ensures was == seen
  {
    assert Bag(was) + rest == rest + Bag(was) && Bag(seen) + rest == rest + Bag(seen);
    Cancel(Bag(was), Bag(seen), rest);
    assert was.Some? ==> was.value in Bag(seen);
    assert seen.Some? ==> seen.value in Bag(was);
  }

  /** A step keeps the counts exact if and only if it is not a write over something its call has not
      seen. */
  lemma StepKeepsExactIff(w: World, a: Action)
    requires Enabled(w, a) && Exact(w)
    ensures Exact(Step(w, a)) <==> StillSeen(w, a)
  {
    match a
    case Begin(c, row, plan) => SumInsert(w.calls, CallOwes, c, Reading(row, w.rows[row], plan));
    case Write(c) =>
      WriteMoves(w, c);
      if Exact(Step(w, a)) {
        SameBag(w.rows[w.calls[c].row], w.calls[c].seen, w.counts);
      } else if StillSeen(w, a) {
        Cancel(Owed(Step(w, a)), Owed(w), Bag(w.calls[c].seen));
      }
    case Finish(c) => SumRemove(w.calls, CallOwes, c);
  }

  ghost predicate IsRun(w: World, actions: seq<Action>)
    decreases |actions|
  {
    actions == [] || (Enabled(w, actions[0]) && IsRun(Step(w, actions[0]), actions[1..]))
  }

  ghost predicate ExactThroughout(w: World, actions: seq<Action>)
    requires IsRun(w, actions)
    decreases |actions|
  {
    Exact(w) && (actions != [] ==> ExactThroughout(Step(w, actions[0]), actions[1..]))
  }

  ghost predicate SeenThroughout(w: World, actions: seq<Action>)
    requires IsRun(w, actions)
    decreases |actions|
  {
    actions != [] ==> StillSeen(w, actions[0]) && SeenThroughout(Step(w, actions[0]), actions[1..])
  }

  /** Through a whole run the counts are exact if and only if every write finds the row as its call
      read it. */
  lemma {:induction false} RunKeepsExactIff(w: World, actions: seq<Action>)
    requires IsRun(w, actions) && Exact(w)
    ensures ExactThroughout(w, actions) <==> SeenThroughout(w, actions)
    decreases |actions|
  {
    if actions != [] {
      StepKeepsExactIff(w, actions[0]);
      if Exact(Step(w, actions[0])) {
        RunKeepsExactIff(Step(w, actions[0]), actions[1..]);
      }
    }
  }

  lemma OneMoreExact(w: World, a: Action, rest: seq<Action>)
    requires Exact(w) && Enabled(w, a) && IsRun(Step(w, a), rest) && ExactThroughout(Step(w, a), rest)
    ensures IsRun(w, [a] + rest) && ExactThroughout(w, [a] + rest)
  {
    assert ([a] + rest)[1..] == rest;
  }

  /** One call at a time always does. */
  lemma OneAtATime(w: World, c: CallId, row: RowId, plan: Plan)
    requires Exact(w) && Enabled(w, Begin(c, row, plan))
    ensures IsRun(w, [Begin(c, row, plan)] + ([Write(c)] + ([Finish(c)] + [])))
    ensures ExactThroughout(w, [Begin(c, row, plan)] + ([Write(c)] + ([Finish(c)] + [])))
  {
    var w1 := Step(w, Begin(c, row, plan));
    StepKeepsExactIff(w, Begin(c, row, plan));
    var w2 := Step(w1, Write(c));
    StepKeepsExactIff(w1, Write(c));
    StepKeepsExactIff(w2, Finish(c));
    OneMoreExact(w2, Finish(c), []);
    OneMoreExact(w1, Write(c), [Finish(c)] + []);
    OneMoreExact(w, Begin(c, row, plan), [Write(c)] + ([Finish(c)] + []));
  }

  // ---- Two removals of one attachment ------------------------------------------------------------------

  /** Two rows hold inode 5, and both removals of the first have read it. */
  const TWO_READ: World :=
    World(map[1 := Some(5), 2 := Some(5)], multiset{5, 5}, map[1 := Reading(1, Some(5), Clear), 2 := Reading(1, Some(5), Clear)])

  lemma TwoReadIsExact()
    ensures Exact(TWO_READ)
  {
    SumRemove(TWO_READ.rows, Bag, 1);
    SumRemove(TWO_READ.rows - {1}, Bag, 2);
    assert TWO_READ.rows - {1} - {2} == map[];
    SumRemove(TWO_READ.calls, CallOwes, 1);
    SumRemove(TWO_READ.calls - {1}, CallOwes, 2);
    assert TWO_READ.calls - {1} - {2} == map[];
  }

  const BOTH_WRITTEN: World :=
    World(map[1 := None, 2 := Some(5)], multiset{5, 5}, map[1 := Finishing(Some(5)), 2 := Finishing(Some(5))])

  lemma BothWrite()
    ensures !StillSeen(Step(TWO_READ, Write(1)), Write(2))
    ensures Step(Step(TWO_READ, Write(1)), Write(2)) == BOTH_WRITTEN
  {
    var one := Step(TWO_READ, Write(1));
    assert one.rows == map[1 := None, 2 := Some(5)];
    assert one.calls == map[1 := Finishing(Some(5)), 2 := Reading(1, Some(5), Clear)];
  }

  lemma BothFinish()
    ensures Step(Step(BOTH_WRITTEN, Finish(1)), Finish(2)) == World(map[1 := None, 2 := Some(5)], multiset{}, map[])
  {
    var three := Step(BOTH_WRITTEN, Finish(1));
    assert three.counts == multiset{5};
    assert three.calls == map[2 := Finishing(Some(5))];
  }

  /** Both write and both unlink: the inode in the second row is no longer counted. The second write
      no longer finds what its call had read. */
  lemma DoubleRemovalUncounts()
    ensures Exact(TWO_READ) && !StillSeen(Step(TWO_READ, Write(1)), Write(2))
    ensures Step(Step(TWO_READ, Write(1)), Write(2)) == BOTH_WRITTEN
    ensures Step(Step(BOTH_WRITTEN, Finish(1)), Finish(2)) == World(map[1 := None, 2 := Some(5)], multiset{}, map[])
  {
    TwoReadIsExact();
    BothWrite();
    BothFinish();
  }
}
