/** The policy cache with calls that overlap: a reader loads a pair from the store and fills the
    cache later; a writer changes the store and then drops one key, or scans the keyspace bit by bit
    and drops what the scan has found in batches. A stamp stands for what the store would assemble
    for a pair; each write of the pair gives it a new one. */
module CacheRaces {
  type Pair = nat
  type CallId = nat

  datatype Loaded = Loaded(pair: Pair, stamp: nat)

  /** A write that is committed and has keys to drop: those the scan has passed already, and those
      that were found and are not unlinked yet. */
  datatype Writer = Writer(scanning: bool, passed: set<Pair>, batch: set<Pair>)

  datatype World = World(stamps: map<Pair, nat>, cache: map<Pair, nat>, loads: map<CallId, Loaded>, writers: map<CallId, Writer>)

  const START: World := World(map[], map[], map[], map[])

  /** Create is a new permission, which names its pair; Change is a deactivation, a seed or a reset.
      A scan's next reply covers some slots of the keyspace. Crash is the end of a call before its
      time: a lost load, a failed fill, a writer that stops. */
  datatype Action =
    | Load(c: CallId, pair: Pair)
    | Fill(c: CallId)
    | Create(c: CallId, pair: Pair)
    | Change(c: CallId, changed: set<Pair>)
    | ScanNext(c: CallId, slots: set<Pair>)
    | EndScan(c: CallId, failed: bool)
    | Unlink(c: CallId, down: bool)
    | Expire(pairs: set<Pair>)
    | Crash(c: CallId)

  predicate Scanning(w: World, c: CallId) { c in w.writers && w.writers[c].scanning }

  /** A pair is loaded on a miss, and also when the cache does not answer. A scan that ends by itself
      has passed every key there is. */
  predicate Enabled(w: World, a: Action) {
    match a
    case Load(c, _) => c !in w.loads && c !in w.writers
    case Fill(c) => c in w.loads
    case Create(c, _) => c !in w.loads && c !in w.writers
    case Change(c, _) => c !in w.loads && c !in w.writers
    case ScanNext(c, _) => Scanning(w, c)
    case EndScan(c, failed) => Scanning(w, c) && (failed || w.cache.Keys <= w.writers[c].passed)
    case Unlink(c, _) => c in w.writers
    case Expire(_) => true
    case Crash(c) => c in w.loads || c in w.writers
  }

  function StampOf(w: World, pair: Pair): nat { if pair in w.stamps then w.stamps[pair] else 0 }

  function Stamped(w: World, changed: set<Pair>): World {
    w.(stamps := map p | p in w.stamps.Keys + changed :: StampOf(w, p) + if p in changed then 1 else 0)
  }

  function To(w: World, c: CallId, writer: Writer): World { w.(writers := w.writers[c := writer]) }

  /** One Unlink of what is in the batch. After the scan it is the last thing the call does. */
  function Unlinked(w: World, c: CallId, down: bool): World
    requires c in w.writers
  {
    var writer := w.writers[c];
    var v := if down then w else w.(cache := w.cache - writer.batch);
    if writer.scanning then To(v, c, writer.(batch := {})) else v.(writers := v.writers - {c})
  }

  function Step(w: World, a: Action): World
    requires Enabled(w, a)
  {
    match a
    case Load(c, pair) => w.(loads := w.loads[c := Loaded(pair, StampOf(w, pair))])
    case Fill(c) => w.(cache := w.cache[w.loads[c].pair := w.loads[c].stamp], loads := w.loads - {c})
    case Create(c, pair) => To(Stamped(w, {pair}), c, Writer(false, {}, {pair}))
    case Change(c, changed) => To(Stamped(w, changed), c, Writer(true, {}, {}))
    case ScanNext(c, slots) =>
      var writer := w.writers[c];
      To(w, c, writer.(passed := writer.passed + slots, batch := writer.batch + w.cache.Keys * slots))
    case EndScan(c, _) => To(w, c, w.writers[c].(scanning := false))
    case Unlink(c, down) => Unlinked(w, c, down)
    case Expire(pairs) => w.(cache := w.cache - pairs)
    case Crash(c) => w.(loads := w.loads - {c}, writers := w.writers - {c})
  }

  /** What is cached after a step: what a fill has just put there, and what was there and has neither run
      out nor been unlinked. */
  lemma CachedIff(w: World, a: Action, p: Pair, n: nat)
    requires Enabled(w, a)
    ensures var v := Step(w, a);
      var kept := p in w.cache && w.cache[p] == n && !(a.Expire? && p in a.pairs) && !(a.Unlink? && !a.down && p in w.writers[a.c].batch);
      p in v.cache && v.cache[p] == n <==> if a.Fill? && w.loads[a.c].pair == p then w.loads[a.c].stamp == n else kept
  {
  }

  /** The scan has still to reach the pair's slot, or has found its key and not unlinked it yet. */
  predicate AwaitedBy(writer: Writer, pair: Pair) {
    pair in writer.batch || (writer.scanning && pair !in writer.passed)
  }

  ghost predicate AwaitsDrop(w: World, pair: Pair) {
    exists c :: c in w.writers && AwaitedBy(w.writers[c], pair)
  }

  predicate Stale(w: World, pair: Pair) { pair in w.cache && w.cache[pair] != StampOf(w, pair) }

  /** An entry is current, or about to be dropped. */
  ghost predicate Fresh(w: World) {
    forall p :: Stale(w, p) ==> AwaitsDrop(w, p)
  }

  /** No write of the pair landed between its load and this fill, or some writer will still drop it:
      its scan has not passed the pair's slot yet. */
  ghost predicate FillsInTime(w: World, a: Action)
    requires Enabled(w, a)
  {
    a.Fill? ==> w.loads[a.c].stamp == StampOf(w, w.loads[a.c].pair) || AwaitsDrop(w, w.loads[a.c].pair)
  }

  /** What a failing step leaves in the cache for good: the batch of a failed Unlink, the slots a
      broken scan has not reached, all that a writer had left when it stopped. */
  predicate GivesUp(w: World, a: Action, pair: Pair)
    requires Enabled(w, a)
  {
    if a.Unlink? then a.down && pair in w.writers[a.c].batch && !(w.writers[a.c].scanning && pair !in w.writers[a.c].passed)
    else if a.EndScan? then a.failed && pair !in w.writers[a.c].batch && pair !in w.writers[a.c].passed
    else a.Crash? && a.c in w.writers && AwaitedBy(w.writers[a.c], pair)
  }

  ghost predicate AwaitsOther(w: World, c: CallId, pair: Pair) {
    exists d :: d in w.writers && d != c && AwaitedBy(w.writers[d], pair)
  }

  /** The fill comes in time, and what a failure gives up is current or some other writer's too. */
  ghost predicate Harmless(w: World, a: Action)
    requires Enabled(w, a)
  {
    FillsInTime(w, a) && forall p :: GivesUp(w, a, p) && Stale(w, p) ==> AwaitsOther(w, a.c, p)
  }

  // What one writer does leaves what the others will drop alone.
  lemma OthersAwait(w: World, v: World, c: CallId, pair: Pair)
    requires forall d :: d != c && d in w.writers ==> d in v.writers && v.writers[d] == w.writers[d]
    requires AwaitsDrop(w, pair)
    ensures AwaitsDrop(v, pair) || (c in w.writers && AwaitedBy(w.writers[c], pair))
  {
    var d :| d in w.writers && AwaitedBy(w.writers[d], pair);
    assert d != c ==> d in v.writers && AwaitedBy(v.writers[d], pair);
  }

  lemma WriteKeepsFresh(w: World, c: CallId, changed: set<Pair>, writer: Writer)
    requires c !in w.writers && Fresh(w) && forall p :: p in changed ==> AwaitedBy(writer, p)
    ensures Fresh(To(Stamped(w, changed), c, writer))
  {
    var v := To(Stamped(w, changed), c, writer);
    forall p | Stale(v, p) ensures AwaitsDrop(v, p) {
      if p in changed {
        assert c in v.writers && AwaitedBy(v.writers[c], p);
      } else {
        assert Stale(w, p);
        OthersAwait(w, v, c, p);
      }
    }
  }

  lemma ScanKeepsFresh(w: World, c: CallId, slots: set<Pair>)
    requires Scanning(w, c) && Fresh(w)
    ensures Fresh(Step(w, ScanNext(c, slots)))
  {
    var v := Step(w, ScanNext(c, slots));
    forall p | Stale(v, p) ensures AwaitsDrop(v, p) {
      assert Stale(w, p);
      OthersAwait(w, v, c, p);
      assert AwaitedBy(w.writers[c], p) ==> c in v.writers && AwaitedBy(v.writers[c], p);
    }
  }

  lemma UnlinkKeepsFresh(w: World, c: CallId)
    requires c in w.writers && Fresh(w)
    ensures Fresh(Unlinked(w, c, false))
  {
    var v := Unlinked(w, c, false);
    forall p | Stale(v, p) ensures AwaitsDrop(v, p) {
      assert Stale(w, p);
      OthersAwait(w, v, c, p);
      assert AwaitedBy(w.writers[c], p) ==> c in v.writers && AwaitedBy(v.writers[c], p);
    }
  }

  lemma EndScanKeepsFresh(w: World, c: CallId)
    requires Enabled(w, EndScan(c, false)) && Fresh(w)
    ensures Fresh(Step(w, EndScan(c, false)))
  {
    var v := Step(w, EndScan(c, false));
    forall p | Stale(v, p) ensures AwaitsDrop(v, p) {
      assert Stale(w, p) && p in w.writers[c].passed;
      OthersAwait(w, v, c, p);
      assert AwaitedBy(w.writers[c], p) ==> c in v.writers && AwaitedBy(v.writers[c], p);
    }
  }

  predicate IsFault(a: Action) {
    a.Crash? || (a.Unlink? && a.down) || (a.EndScan? && a.failed)
  }

  // A fault takes from its own call's pending pairs exactly what it gives up.
  lemma FaultGivesUp(w: World, a: Action, pair: Pair)
    requires Enabled(w, a) && IsFault(a)
    ensures AwaitsDrop(Step(w, a), pair) <==>
      AwaitsOther(w, a.c, pair) || (a.c in w.writers && AwaitedBy(w.writers[a.c], pair) && !GivesUp(w, a, pair))
  {
    var v := Step(w, a);
    if AwaitsOther(w, a.c, pair) {
      var d :| d in w.writers && d != a.c && AwaitedBy(w.writers[d], pair);
      assert d in v.writers && AwaitedBy(v.writers[d], pair);
    }
    if a.c in w.writers && AwaitedBy(w.writers[a.c], pair) && !GivesUp(w, a, pair) {
      assert a.c in v.writers && AwaitedBy(v.writers[a.c], pair);
    }
    if AwaitsDrop(v, pair) {
      var d :| d in v.writers && AwaitedBy(v.writers[d], pair);
      assert d in w.writers && AwaitedBy(w.writers[d], pair);
    }
  }

  lemma FaultKeepsFreshIff(w: World, a: Action)
    requires Enabled(w, a) && IsFault(a) && Fresh(w)
    ensures Fresh(Step(w, a)) <==> Harmless(w, a)
  {
    var v := Step(w, a);
    forall p ensures Stale(v, p) <==> Stale(w, p) {
    }
    forall p | Stale(w, p) ensures AwaitsDrop(v, p) <==> (GivesUp(w, a, p) ==> AwaitsOther(w, a.c, p)) {
      FaultGivesUp(w, a, p);
      OthersAwait(w, w.(writers := w.writers - {a.c}), a.c, p);
      assert AwaitsDrop(w.(writers := w.writers - {a.c}), p) ==> AwaitsOther(w, a.c, p);
    }
  }

  lemma FillKeepsFreshIff(w: World, c: CallId)
    requires c in w.loads && Fresh(w)
    ensures Fresh(Step(w, Fill(c))) <==> FillsInTime(w, Fill(c))
  {
    var v := Step(w, Fill(c));
    assert forall p :: AwaitsDrop(v, p) <==> AwaitsDrop(w, p);
    assert forall p :: p != w.loads[c].pair ==> (Stale(v, p) <==> Stale(w, p));
    assert Stale(v, w.loads[c].pair) <==> w.loads[c].stamp != StampOf(w, w.loads[c].pair);
  }

  /** A step keeps the cache fresh if and only if it is harmless: no fill that comes too late and no
      failure that gives up a stale entry. */
  lemma StepKeepsFreshIff(w: World, a: Action)
    requires Enabled(w, a) && Fresh(w)
    ensures Fresh(Step(w, a)) <==> Harmless(w, a)
  {
    if IsFault(a) {
      FaultKeepsFreshIff(w, a);
    } else if a.Fill? {
      FillKeepsFreshIff(w, a.c);
    } else if a.Create? {
      WriteKeepsFresh(w, a.c, {a.pair}, Writer(false, {}, {a.pair}));
    } else if a.Change? {
      WriteKeepsFresh(w, a.c, a.changed, Writer(true, {}, {}));
    } else if a.ScanNext? {
      ScanKeepsFresh(w, a.c, a.slots);
    } else if a.EndScan? {
      EndScanKeepsFresh(w, a.c);
    } else if a.Unlink? {
      UnlinkKeepsFresh(w, a.c);
    } else {
      assert forall p :: AwaitsDrop(Step(w, a), p) <==> AwaitsDrop(w, p);
      assert forall p :: Stale(Step(w, a), p) ==> Stale(w, p);
    }
  }

  ghost predicate IsRun(w: World, actions: seq<Action>)
    decreases |actions|
  {
    actions == [] || (Enabled(w, actions[0]) && IsRun(Step(w, actions[0]), actions[1..]))
  }

  ghost function After(w: World, actions: seq<Action>): World
    requires IsRun(w, actions)
    decreases |actions|
  {
    if actions == [] then w else After(Step(w, actions[0]), actions[1..])
  }

  ghost predicate FreshThroughout(w: World, actions: seq<Action>)
    requires IsRun(w, actions)
    decreases |actions|
  {
    Fresh(w) && (actions != [] ==> FreshThroughout(Step(w, actions[0]), actions[1..]))
  }

  ghost predicate HarmlessThroughout(w: World, actions: seq<Action>)
    requires IsRun(w, actions)
    decreases |actions|
  {
    actions != [] ==> Harmless(w, actions[0]) && HarmlessThroughout(Step(w, actions[0]), actions[1..])
  }

  /** Over a whole run the cache is fresh throughout if and only if every fill comes in time and no
      failure gives up a stale entry. */
  lemma {:induction false} RunKeepsFreshIff(w: World, actions: seq<Action>)
    requires IsRun(w, actions) && Fresh(w)
    ensures FreshThroughout(w, actions) <==> HarmlessThroughout(w, actions)
    decreases |actions|
  {
    if actions != [] {
      StepKeepsFreshIff(w, actions[0]);
      if Fresh(Step(w, actions[0])) {
        RunKeepsFreshIff(Step(w, actions[0]), actions[1..]);
      }
    }
  }

  lemma {:induction false} EndsFresh(w: World, actions: seq<Action>)
    requires IsRun(w, actions) && FreshThroughout(w, actions)
    ensures Fresh(After(w, actions))
    decreases |actions|
  {
    if actions != [] {
      EndsFresh(Step(w, actions[0]), actions[1..]);
    }
  }

  /** After a harmless run, once no write has keys left to drop, a cached pair answers as the store. */
  lemma SettledCacheIsTheStore(actions: seq<Action>, pair: Pair)
    requires IsRun(START, actions) && HarmlessThroughout(START, actions)
    requires After(START, actions).writers == map[] && pair in After(START, actions).cache
    ensures After(START, actions).cache[pair] == StampOf(After(START, actions), pair)
  {
    RunKeepsFreshIff(START, actions);
    EndsFresh(START, actions);
    assert !Stale(After(START, actions), pair);
  }

  // ---- Runs that leave a stale entry ---------------------------------------------------------

  const LATE_FILL: seq<Action> := [Load(1, 7), Create(2, 7), Unlink(2, false), Fill(1)]

  // The scan passes the slot while it is empty; the fill lands behind it.
  const FILL_BEHIND_SCAN: seq<Action> :=
    [Load(1, 7), Change(2, {7}), ScanNext(2, {7}), Fill(1), EndScan(2, false), Unlink(2, false)]

  const FAILED_UNLINK: seq<Action> := [Load(1, 7), Fill(1), Create(2, 7), Unlink(2, true)]

  lemma LeadsFrom(w: World, run: seq<Action>, k: nat, last: World)
    requires k < |run| && Enabled(w, run[k])
    requires IsRun(Step(w, run[k]), run[k + 1..]) && After(Step(w, run[k]), run[k + 1..]) == last
    ensures IsRun(w, run[k..]) && After(w, run[k..]) == last
  {
    assert run[k..][1..] == run[k + 1..];
  }

  ghost predicate LeavesStale(run: seq<Action>) {
    IsRun(START, run) && After(START, run).writers == map[] && Stale(After(START, run), 7)
  }

  /** A write and its drop between a load and its fill leave a stale entry that nothing but its
      expiry will remove. */
  lemma LateFillIsStale()
    ensures LeavesStale(LATE_FILL)
  {
    var run := LATE_FILL;
    var w1 := Step(START, run[0]);
    var w2 := Step(w1, run[1]);
    var w3 := Step(w2, run[2]);
    var w4 := Step(w3, run[3]);
    assert StampOf(w2, 7) == 1 && w4.cache[7] == 0;
    LeadsFrom(w3, run, 3, w4);
    LeadsFrom(w2, run, 2, w4);
    LeadsFrom(w1, run, 1, w4);
    LeadsFrom(START, run, 0, w4);
    assert run[0..] == run;
  }

  // The pair is written and its slot passed; the old policy is still on its way to the cache.
  const PASSED: World := World(map[7 := 1], map[], map[1 := Loaded(7, 0)], map[2 := Writer(true, {7}, {})])

  const FILLED_BEHIND: World := World(map[7 := 1], map[7 := 0], map[], map[])

  lemma ScanGoesOn()
    ensures IsRun(PASSED, FILL_BEHIND_SCAN[3..]) && After(PASSED, FILL_BEHIND_SCAN[3..]) == FILLED_BEHIND
  {
    var run := FILL_BEHIND_SCAN;
    var w4 := Step(PASSED, run[3]);
    var w5 := Step(w4, run[4]);
    var w6 := Step(w5, run[5]);
    assert w4.cache == map[7 := 0] && w4.loads == map[] && w6.writers == map[];
    LeadsFrom(w5, run, 5, w6);
    LeadsFrom(w4, run, 4, w6);
    LeadsFrom(PASSED, run, 3, w6);
  }

  /** So does a fill behind the cursor of a scan that is still running: at its fill the writer is
      not done, and yet it will not drop the entry. */
  lemma FillBehindScanIsStale()
    ensures LeavesStale(FILL_BEHIND_SCAN)
  {
    var run := FILL_BEHIND_SCAN;
    var w1 := Step(START, run[0]);
    var w2 := Step(w1, run[1]);
    var w3 := Step(w2, run[2]);
    assert w2.stamps == map[7 := 1];
    assert w3.writers[2].passed == {7} && w3.writers[2].batch == {};
    assert w3.writers == map[2 := Writer(true, {7}, {})];
    assert w3 == PASSED;
    ScanGoesOn();
    LeadsFrom(w2, run, 2, FILLED_BEHIND);
    LeadsFrom(w1, run, 1, FILLED_BEHIND);
    LeadsFrom(START, run, 0, FILLED_BEHIND);
    assert run[0..] == run;
  }

  /** And a failing Unlink, without any overlap. */
  lemma FailedUnlinkIsStale()
    ensures LeavesStale(FAILED_UNLINK)
  {
    var run := FAILED_UNLINK;
    var w1 := Step(START, run[0]);
    var w2 := Step(w1, run[1]);
    var w3 := Step(w2, run[2]);
    var w4 := Step(w3, run[3]);
    assert StampOf(w4, 7) == 1 && w4.cache[7] == 0;
    LeadsFrom(w3, run, 3, w4);
    LeadsFrom(w2, run, 2, w4);
    LeadsFrom(w1, run, 1, w4);
    LeadsFrom(START, run, 0, w4);
    assert run[0..] == run;
  }
}
