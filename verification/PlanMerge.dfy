/** Packing under-sized teams into groups: first-fit-decreasing with a best-fit choice, then a
    second pass that compacts the list of groups in place while it still reads from it. */
module PlanMerge {
  import opened Wrappers

  datatype Seed = Seed(team: nat, size: int)

  type Group = seq<Seed>

  function Total(g: Group): int {
    if g == [] then 0 else Total(g[..|g| - 1]) + g[|g| - 1].size
  }

  function Flatten(groups: seq<Group>): seq<Seed> {
    if groups == [] then [] else Flatten(groups[..|groups| - 1]) + groups[|groups| - 1]
  }

  function Aim(minMembers: int, maxMembers: int, target: int): int {
    if target < minMembers || target > maxMembers then minMembers else target
  }

  /** The target if the bounds allow it, and else the lower bound. */
  lemma AimIs(minMembers: int, maxMembers: int, target: int)
    ensures Aim(minMembers, maxMembers, target) == if minMembers <= target <= maxMembers then target else minMembers
  {
  }

  // ---- The stable sort ---------------------------------------------------------------------

  /** A seed goes behind every seed that is at least as large. */
  function Insert(s: Seed, sorted: seq<Seed>): seq<Seed> {
    if sorted == [] || sorted[|sorted| - 1].size >= s.size then sorted + [s]
    else Insert(s, sorted[..|sorted| - 1]) + [sorted[|sorted| - 1]]
  }

  function SortDescending(seeds: seq<Seed>): seq<Seed> {
    if seeds == [] then [] else Insert(seeds[|seeds| - 1], SortDescending(seeds[..|seeds| - 1]))
  }

  ghost predicate Descending(s: seq<Seed>) {
    forall i, j :: 0 <= i < j < |s| ==> s[i].size >= s[j].size
  }

  function OfSize(s: seq<Seed>, n: int): seq<Seed> {
    if s == [] then []
    else OfSize(s[..|s| - 1], n) + (if s[|s| - 1].size == n then [s[|s| - 1]] else [])
  }

  ghost predicate NoneBelow(s: seq<Seed>, n: int) {
    forall i :: 0 <= i < |s| ==> s[i].size >= n
  }

  lemma {:induction false} InsertKeepsFloor(s: Seed, sorted: seq<Seed>, n: int)
    requires NoneBelow(sorted, n) && s.size >= n
    ensures NoneBelow(Insert(s, sorted), n)
    decreases |sorted|
  {
    if sorted != [] && sorted[|sorted| - 1].size < s.size {
      InsertKeepsFloor(s, sorted[..|sorted| - 1], n);
    }
  }

  lemma {:induction false} InsertKeeps(s: Seed, sorted: seq<Seed>)
    ensures multiset(Insert(s, sorted)) == multiset(sorted) + multiset{s}
    decreases |sorted|
  {
    if sorted != [] && sorted[|sorted| - 1].size < s.size {
      InsertKeeps(s, sorted[..|sorted| - 1]);
      assert sorted == sorted[..|sorted| - 1] + [sorted[|sorted| - 1]];
    }
  }

  lemma {:induction false} InsertSorts(s: Seed, sorted: seq<Seed>)
    requires Descending(sorted)
    ensures Descending(Insert(s, sorted))
    decreases |sorted|
  {
    if sorted != [] && sorted[|sorted| - 1].size < s.size {
      var k := |sorted| - 1;
      InsertSorts(s, sorted[..k]);
      InsertKeepsFloor(s, sorted[..k], sorted[k].size);
    }
  }

  lemma OfSizeGrows(s: seq<Seed>, x: Seed, n: int)
    ensures OfSize(s + [x], n) == OfSize(s, n) + (if x.size == n then [x] else [])
  {
    assert (s + [x])[..|s|] == s;
  }

  lemma {:induction false} InsertIsStable(s: Seed, sorted: seq<Seed>, n: int)
    ensures OfSize(Insert(s, sorted), n) == OfSize(sorted, n) + (if s.size == n then [s] else [])
    decreases |sorted|
  {
    if sorted == [] || sorted[|sorted| - 1].size >= s.size {
      OfSizeGrows(sorted, s, n);
    } else {
      var front, last := sorted[..|sorted| - 1], sorted[|sorted| - 1];
      InsertIsStable(s, front, n);
      OfSizeGrows(Insert(s, front), last, n);
      OfSizeGrows(front, last, n);
      assert sorted == front + [last];
      assert !(s.size == n && last.size == n);
    }
  }

  lemma {:induction false} SortSorts(seeds: seq<Seed>)
    ensures Descending(SortDescending(seeds))
    decreases |seeds|
  {
    if seeds != [] {
      SortSorts(seeds[..|seeds| - 1]);
      InsertSorts(seeds[|seeds| - 1], SortDescending(seeds[..|seeds| - 1]));
    }
  }

  lemma {:induction false} SortKeeps(seeds: seq<Seed>)
    ensures multiset(SortDescending(seeds)) == multiset(seeds)
    decreases |seeds|
  {
    if seeds != [] {
      SortKeeps(seeds[..|seeds| - 1]);
      InsertKeeps(seeds[|seeds| - 1], SortDescending(seeds[..|seeds| - 1]));
      assert seeds == seeds[..|seeds| - 1] + [seeds[|seeds| - 1]];
    }
  }

  lemma {:induction false} SortKeepsOrderOf(seeds: seq<Seed>, n: int)
    ensures OfSize(SortDescending(seeds), n) == OfSize(seeds, n)
    decreases |seeds|
  {
    if seeds != [] {
      SortKeepsOrderOf(seeds[..|seeds| - 1], n);
      InsertIsStable(seeds[|seeds| - 1], SortDescending(seeds[..|seeds| - 1]), n);
    }
  }

  /** sort.SliceStable by falling size: a descending rearrangement that keeps the order of seeds of
      one size. */
  lemma SortIsStable(seeds: seq<Seed>, n: int)
    ensures Descending(SortDescending(seeds))
    ensures multiset(SortDescending(seeds)) == multiset(seeds)
    ensures OfSize(SortDescending(seeds), n) == OfSize(seeds, n)
  {
    SortSorts(seeds);
    SortKeeps(seeds);
    SortKeepsOrderOf(seeds, n);
  }

  // ---- The best fit ------------------------------------------------------------------------

  function Abs(n: int): int { if n < 0 then -n else n }

  /** Closer to the target, and among equally close the smaller. */
  predicate BetterFill(candidate: int, current: int, target: int) {
    var dc, dr := Abs(candidate - target), Abs(current - target);
    if dc != dr then dc < dr else candidate < current
  }

  function BestFit(sizes: seq<int>, size: int, maxMembers: int, target: int): (best: Option<nat>)
    ensures best.Some? ==> best.value < |sizes|
  {
    if sizes == [] then None
    else
      var k := |sizes| - 1;
      var best := BestFit(sizes[..k], size, maxMembers, target);
      if sizes[k] + size > maxMembers then best
      else if best.None? || BetterFill(sizes[k] + size, sizes[best.value] + size, target) then Some(k)
      else best
  }

  predicate Fits(sizes: seq<int>, g: nat, size: int, maxMembers: int) {
    g < |sizes| && sizes[g] + size <= maxMembers
  }

  /** The choice is the earliest of the best fitting groups, and there is none only when no group
      has room. */
  lemma {:induction false} BestFitIsEarliestBest(sizes: seq<int>, size: int, maxMembers: int, target: int)
    ensures match BestFit(sizes, size, maxMembers, target)
      case None => forall g: nat :: !Fits(sizes, g, size, maxMembers)
      case Some(b) =>
        && Fits(sizes, b, size, maxMembers)
        && (forall g: nat :: Fits(sizes, g, size, maxMembers) ==> !BetterFill(sizes[g] + size, sizes[b] + size, target))
        && (forall g: nat :: g < b && Fits(sizes, g, size, maxMembers) ==> BetterFill(sizes[b] + size, sizes[g] + size, target))
    decreases |sizes|
  {
    if sizes != [] {
      var k := |sizes| - 1;
      BestFitIsEarliestBest(sizes[..k], size, maxMembers, target);
      forall g: nat | Fits(sizes, g, size, maxMembers) && g != k ensures Fits(sizes[..k], g, size, maxMembers) {
      }
    }
  }

  // ---- The first pass ------------------------------------------------------------------------

  datatype Bins = Bins(groups: seq<Group>, sizes: seq<int>)

  ghost predicate Measured(b: Bins) {
    |b.groups| == |b.sizes| && forall g :: 0 <= g < |b.groups| ==> b.sizes[g] == Total(b.groups[g])
  }

  function Place(b: Bins, s: Seed, maxMembers: int, target: int): (r: Bins)
    requires |b.groups| == |b.sizes|
    ensures |r.groups| == |r.sizes|
  {
    match BestFit(b.sizes, s.size, maxMembers, target)
    case Some(best) =>
      if b.sizes[best] < target then
        Bins(b.groups[best := b.groups[best] + [s]], b.sizes[best := b.sizes[best] + s.size])
      else Bins(b.groups + [[s]], b.sizes + [s.size])
    case None => Bins(b.groups + [[s]], b.sizes + [s.size])
  }

  function Pack(sorted: seq<Seed>, maxMembers: int, target: int): (b: Bins)
    ensures |b.groups| == |b.sizes|
  {
    if sorted == [] then Bins([], [])
    else Place(Pack(sorted[..|sorted| - 1], maxMembers, target), sorted[|sorted| - 1], maxMembers, target)
  }

  // ---- The second pass -----------------------------------------------------------------------

  /** The earliest kept group with room. */
  function FirstRoom(keptSizes: seq<int>, size: int, maxMembers: int): (r: Option<nat>)
    ensures r.Some? ==> r.value < |keptSizes| && keptSizes[r.value] + size <= maxMembers
    ensures r.Some? ==> forall g :: 0 <= g < r.value ==> keptSizes[g] + size > maxMembers
    ensures r.None? ==> forall g :: 0 <= g < |keptSizes| ==> keptSizes[g] + size > maxMembers
  {
    if keptSizes == [] then None
    else
      var k := |keptSizes| - 1;
      match FirstRoom(keptSizes[..k], size, maxMembers)
      case Some(g) => Some(g)
      case None => if keptSizes[k] + size <= maxMembers then Some(k) else None
  }

  datatype Merged = Merged(kept: seq<Group>, keptSizes: seq<int>, unmerged: seq<Seed>)

  function MergeOne(m: Merged, group: Group, size: int, minMembers: int, maxMembers: int): (r: Merged)
    requires |m.kept| == |m.keptSizes|
    ensures |r.kept| == |r.keptSizes|
  {
    if size >= minMembers then Merged(m.kept + [group], m.keptSizes + [size], m.unmerged)
    else match FirstRoom(m.keptSizes, size, maxMembers)
      case Some(g) => Merged(m.kept[g := m.kept[g] + group], m.keptSizes[g := m.keptSizes[g] + size], m.unmerged)
      case None => Merged(m.kept, m.keptSizes, m.unmerged + group)
  }

  /** What the second pass has made of the first n groups. */
  function Merge(b: Bins, n: nat, minMembers: int, maxMembers: int): (m: Merged)
    requires n <= |b.groups| == |b.sizes|
    ensures |m.kept| == |m.keptSizes| <= n
  {
    if n == 0 then Merged([], [], [])
    else MergeOne(Merge(b, n - 1, minMembers, maxMembers), b.groups[n - 1], b.sizes[n - 1], minMembers, maxMembers)
  }

  function Packed(seeds: seq<Seed>, minMembers: int, maxMembers: int, target: int): (b: Bins)
    ensures |b.groups| == |b.sizes|
  {
    Pack(SortDescending(seeds), maxMembers, Aim(minMembers, maxMembers, target))
  }

  function Plan(seeds: seq<Seed>, minMembers: int, maxMembers: int, target: int): Merged {
    var b := Packed(seeds, minMembers, maxMembers, target);
    Merge(b, |b.groups|, minMembers, maxMembers)
  }

  // ---- Totals and contents ---------------------------------------------------------------------

  lemma {:induction false} TotalJoins(g: Group, h: Group)
    ensures Total(g + h) == Total(g) + Total(h)
    decreases |h|
  {
    if h == [] {
      assert g + h == g;
    } else {
      TotalJoins(g, h[..|h| - 1]);
      assert (g + h)[..|g + h| - 1] == g + h[..|h| - 1];
    }
  }

  lemma FlattenAppends(groups: seq<Group>, g: Group)
    ensures Flatten(groups + [g]) == Flatten(groups) + g
  {
    assert (groups + [g])[..|groups|] == groups;
  }

  lemma {:induction false} FlattenGrows(groups: seq<Group>, i: nat, more: seq<Seed>)
    requires i < |groups|
    ensures multiset(Flatten(groups[i := groups[i] + more])) == multiset(Flatten(groups)) + multiset(more)
    decreases |groups|
  {
    var k := |groups| - 1;
    var grown := groups[i := groups[i] + more];
    if i == k {
      assert grown[..k] == groups[..k];
    } else {
      FlattenGrows(groups[..k], i, more);
      assert grown[..k] == groups[..k][i := groups[..k][i] + more];
    }
  }

  lemma PlaceConserves(b: Bins, s: Seed, maxMembers: int, target: int)
    requires Measured(b)
    ensures Measured(Place(b, s, maxMembers, target))
    ensures multiset(Flatten(Place(b, s, maxMembers, target).groups)) == multiset(Flatten(b.groups)) + multiset{s}
  {
    FlattenAppends(b.groups, [s]);
    assert Total([s]) == s.size;
    var best := BestFit(b.sizes, s.size, maxMembers, target);
    if best.Some? && b.sizes[best.value] < target {
      FlattenGrows(b.groups, best.value, [s]);
      TotalJoins(b.groups[best.value], [s]);
    }
  }

  lemma {:induction false} PackConserves(sorted: seq<Seed>, maxMembers: int, target: int)
    ensures multiset(Flatten(Pack(sorted, maxMembers, target).groups)) == multiset(sorted)
    ensures Measured(Pack(sorted, maxMembers, target))
    decreases |sorted|
  {
    if sorted != [] {
      var k := |sorted| - 1;
      PackConserves(sorted[..k], maxMembers, target);
      PlaceConserves(Pack(sorted[..k], maxMembers, target), sorted[k], maxMembers, target);
      assert sorted == sorted[..k] + [sorted[k]];
    }
  }

  /** All the teams the second pass has in hand. */
  ghost function Teams(m: Merged): multiset<Seed> { multiset(Flatten(m.kept)) + multiset(m.unmerged) }

  lemma MergeOneConserves(m: Merged, group: Group, size: int, minMembers: int, maxMembers: int)
    requires |m.kept| == |m.keptSizes|
    ensures Teams(MergeOne(m, group, size, minMembers, maxMembers)) == Teams(m) + multiset(group)
  {
    FlattenAppends(m.kept, group);
    var room := FirstRoom(m.keptSizes, size, maxMembers);
    if size < minMembers && room.Some? {
      FlattenGrows(m.kept, room.value, group);
    }
  }

  lemma NothingMerged(b: Bins, minMembers: int, maxMembers: int)
    requires |b.groups| == |b.sizes|
    ensures Teams(Merge(b, 0, minMembers, maxMembers)) == TeamsOf(b.groups[..0]) == multiset{}
  {
  }

  lemma MergeOneMore(b: Bins, n: nat, minMembers: int, maxMembers: int)
    requires 0 < n <= |b.groups| == |b.sizes|
    ensures Teams(Merge(b, n, minMembers, maxMembers)) == Teams(Merge(b, n - 1, minMembers, maxMembers)) + multiset(b.groups[n - 1])
  {
    MergeOneConserves(Merge(b, n - 1, minMembers, maxMembers), b.groups[n - 1], b.sizes[n - 1], minMembers, maxMembers);
  }

  ghost function TeamsOf(groups: seq<Group>): multiset<Seed> { multiset(Flatten(groups)) }

  lemma FlattenOneMore(groups: seq<Group>, n: nat)
    requires 0 < n <= |groups|
    ensures TeamsOf(groups[..n]) == TeamsOf(groups[..n - 1]) + multiset(groups[n - 1])
  {
    assert groups[..n] == groups[..n - 1] + [groups[n - 1]];
    FlattenAppends(groups[..n - 1], groups[n - 1]);
  }

  lemma {:induction false} MergeConserves(b: Bins, n: nat, minMembers: int, maxMembers: int)
    requires n <= |b.groups| == |b.sizes|
    ensures Teams(Merge(b, n, minMembers, maxMembers)) == TeamsOf(b.groups[..n])
  {
    if n == 0 {
      NothingMerged(b, minMembers, maxMembers);
    } else {
      MergeConserves(b, n - 1, minMembers, maxMembers);
      MergeOneMore(b, n, minMembers, maxMembers);
      FlattenOneMore(b.groups, n);
    }
  }

  /** No team is lost and none appears twice: the groups and the unmerged teams together are the
      given teams. */
  lemma PlanConservesTeams(seeds: seq<Seed>, minMembers: int, maxMembers: int, target: int)
    ensures var m := Plan(seeds, minMembers, maxMembers, target);
      multiset(Flatten(m.kept)) + multiset(m.unmerged) == multiset(seeds)
  {
    var b := Packed(seeds, minMembers, maxMembers, target);
    SortIsStable(seeds, 0);
    PackConserves(SortDescending(seeds), maxMembers, Aim(minMembers, maxMembers, target));
    MergeConserves(b, |b.groups|, minMembers, maxMembers);
    assert b.groups[..|b.groups|] == b.groups;
  }

  // ---- Sizes ---------------------------------------------------------------------------------

  ghost predicate SizesUpTo(seeds: seq<Seed>, maxMembers: int) {
    forall k :: 0 <= k < |seeds| ==> 0 <= seeds[k].size <= maxMembers
  }

  ghost predicate FitAll(sizes: seq<int>, maxMembers: int) {
    forall g :: 0 <= g < |sizes| ==> 0 <= sizes[g] <= maxMembers
  }

  ghost predicate InBounds(m: Merged, minMembers: int, maxMembers: int) {
    && |m.kept| == |m.keptSizes|
    && forall r :: 0 <= r < |m.kept| ==> m.keptSizes[r] == Total(m.kept[r]) && minMembers <= m.keptSizes[r] <= maxMembers
  }

  lemma {:induction false} PackFits(sorted: seq<Seed>, maxMembers: int, target: int)
    requires SizesUpTo(sorted, maxMembers)
    ensures FitAll(Pack(sorted, maxMembers, target).sizes, maxMembers)
    decreases |sorted|
  {
    if sorted != [] {
      var k := |sorted| - 1;
      PackFits(sorted[..k], maxMembers, target);
      BestFitIsEarliestBest(Pack(sorted[..k], maxMembers, target).sizes, sorted[k].size, maxMembers, target);
    }
  }

  lemma MergeOneFits(m: Merged, group: Group, size: int, minMembers: int, maxMembers: int)
    requires InBounds(m, minMembers, maxMembers) && 0 <= size <= maxMembers && size == Total(group)
    ensures InBounds(MergeOne(m, group, size, minMembers, maxMembers), minMembers, maxMembers)
  {
    var room := FirstRoom(m.keptSizes, size, maxMembers);
    if size < minMembers && room.Some? {
      TotalJoins(m.kept[room.value], group);
    }
  }

  lemma {:induction false} MergeFits(b: Bins, n: nat, minMembers: int, maxMembers: int)
    requires Measured(b) && n <= |b.groups| && FitAll(b.sizes, maxMembers)
    ensures InBounds(Merge(b, n, minMembers, maxMembers), minMembers, maxMembers)
  {
    if n > 0 {
      MergeFits(b, n - 1, minMembers, maxMembers);
      MergeOneFits(Merge(b, n - 1, minMembers, maxMembers), b.groups[n - 1], b.sizes[n - 1], minMembers, maxMembers);
    }
  }

  lemma SortKeepsSizes(seeds: seq<Seed>, maxMembers: int)
    requires SizesUpTo(seeds, maxMembers)
    ensures SizesUpTo(SortDescending(seeds), maxMembers)
  {
    SortIsStable(seeds, 0);
    forall k | 0 <= k < |SortDescending(seeds)| ensures 0 <= SortDescending(seeds)[k].size <= maxMembers {
      assert SortDescending(seeds)[k] in multiset(seeds);
    }
  }

  lemma PackedWell(seeds: seq<Seed>, minMembers: int, maxMembers: int, target: int)
    requires SizesUpTo(seeds, maxMembers)
    ensures Measured(Packed(seeds, minMembers, maxMembers, target))
    ensures FitAll(Packed(seeds, minMembers, maxMembers, target).sizes, maxMembers)
  {
    SortKeepsSizes(seeds, maxMembers);
    PackConserves(SortDescending(seeds), maxMembers, Aim(minMembers, maxMembers, target));
    PackFits(SortDescending(seeds), maxMembers, Aim(minMembers, maxMembers, target));
  }

  /** Every group that comes back has between min and max members. */
  lemma GroupsAreInBounds(seeds: seq<Seed>, minMembers: int, maxMembers: int, target: int, r: nat)
    requires SizesUpTo(seeds, maxMembers)
    requires r < |Plan(seeds, minMembers, maxMembers, target).kept|
    ensures minMembers <= Total(Plan(seeds, minMembers, maxMembers, target).kept[r]) <= maxMembers
  {
    var b := Packed(seeds, minMembers, maxMembers, target);
    PackedWell(seeds, minMembers, maxMembers, target);
    MergeFits(b, |b.groups|, minMembers, maxMembers);
  }

  // ---- What stays unmerged ----------------------------------------------------------------------

  lemma MergeOneGrows(m: Merged, group: Group, size: nat, minMembers: int, maxMembers: int, r: nat)
    requires r < |m.kept| == |m.keptSizes|
    ensures r < |MergeOne(m, group, size, minMembers, maxMembers).kept|
    ensures m.keptSizes[r] <= MergeOne(m, group, size, minMembers, maxMembers).keptSizes[r]
  {
  }

  // Kept groups stay where they are and only grow.
  lemma {:induction false} KeptOnlyGrow(b: Bins, n: nat, later: nat, minMembers: int, maxMembers: int, r: nat)
    requires n <= later <= |b.groups| == |b.sizes| && FitAll(b.sizes, maxMembers)
    requires r < |Merge(b, n, minMembers, maxMembers).kept|
    ensures r < |Merge(b, later, minMembers, maxMembers).kept|
    ensures Merge(b, n, minMembers, maxMembers).keptSizes[r] <= Merge(b, later, minMembers, maxMembers).keptSizes[r]
    decreases later
  {
    if n < later {
      KeptOnlyGrow(b, n, later - 1, minMembers, maxMembers, r);
      MergeOneGrows(Merge(b, later - 1, minMembers, maxMembers), b.groups[later - 1], b.sizes[later - 1],
        minMembers, maxMembers, r);
    }
  }

  /** The second pass gave group g up: too small, and no group kept so far had room. */
  predicate GivenUp(b: Bins, g: nat, minMembers: int, maxMembers: int)
    requires g < |b.groups| == |b.sizes|
  {
    b.sizes[g] < minMembers && FirstRoom(Merge(b, g, minMembers, maxMembers).keptSizes, b.sizes[g], maxMembers).None?
  }

  function GivenUpTeams(b: Bins, n: nat, minMembers: int, maxMembers: int): seq<Seed>
    requires n <= |b.groups| == |b.sizes|
  {
    if n == 0 then []
    else if GivenUp(b, n - 1, minMembers, maxMembers) then
      GivenUpTeams(b, n - 1, minMembers, maxMembers) + b.groups[n - 1]
    else GivenUpTeams(b, n - 1, minMembers, maxMembers)
  }

  lemma {:induction false} UnmergedAreGivenUp(b: Bins, n: nat, minMembers: int, maxMembers: int)
    requires n <= |b.groups| == |b.sizes|
    ensures Merge(b, n, minMembers, maxMembers).unmerged == GivenUpTeams(b, n, minMembers, maxMembers)
  {
    if n > 0 {
      UnmergedAreGivenUp(b, n - 1, minMembers, maxMembers);
    }
  }

  /** The unmerged teams are exactly those of the groups given up; each of these is below the
      minimum, and even at the end it does not fit into any group that was kept before it. */
  lemma UnmergedFitNowhere(seeds: seq<Seed>, minMembers: int, maxMembers: int, target: int, g: nat, r: nat)
    requires SizesUpTo(seeds, maxMembers)
    ensures var b := Packed(seeds, minMembers, maxMembers, target);
      Plan(seeds, minMembers, maxMembers, target).unmerged == GivenUpTeams(b, |b.groups|, minMembers, maxMembers)
    ensures var b := Packed(seeds, minMembers, maxMembers, target);
      var m := Plan(seeds, minMembers, maxMembers, target);
      g < |b.groups| && GivenUp(b, g, minMembers, maxMembers) && r < |Merge(b, g, minMembers, maxMembers).kept| ==>
        Total(b.groups[g]) < minMembers && r < |m.kept| && Total(m.kept[r]) + Total(b.groups[g]) > maxMembers
  {
    var b := Packed(seeds, minMembers, maxMembers, target);
    UnmergedAreGivenUp(b, |b.groups|, minMembers, maxMembers);
    PackedWell(seeds, minMembers, maxMembers, target);
    if g < |b.groups| && GivenUp(b, g, minMembers, maxMembers) && r < |Merge(b, g, minMembers, maxMembers).kept| {
      KeptOnlyGrow(b, g, |b.groups|, minMembers, maxMembers, r);
      MergeFits(b, |b.groups|, minMembers, maxMembers);
    }
  }

  // ---- The first pass packs tightly ---------------------------------------------------------------

  /** The last team is the smallest, and without it the group is below the target. */
  ghost predicate Tight(g: Group, target: int) {
    && g != []
    && (forall j :: 0 <= j < |g| ==> g[j].size >= g[|g| - 1].size)
    && (|g| > 1 ==> Total(g) - g[|g| - 1].size < target)
  }

  ghost predicate AllTight(b: Bins, target: int) {
    forall g :: 0 <= g < |b.groups| ==> Tight(b.groups[g], target)
  }

  ghost predicate NoneSmaller(b: Bins, size: int) {
    forall g, j :: 0 <= g < |b.groups| && 0 <= j < |b.groups[g]| ==> b.groups[g][j].size >= size
  }

  lemma PlaceIsTight(b: Bins, s: Seed, maxMembers: int, target: int)
    requires Measured(b) && AllTight(b, target) && NoneSmaller(b, s.size)
    ensures AllTight(Place(b, s, maxMembers, target), target) && NoneSmaller(Place(b, s, maxMembers, target), s.size)
  {
    var best := BestFit(b.sizes, s.size, maxMembers, target);
    if best.Some? && b.sizes[best.value] < target {
      TotalJoins(b.groups[best.value], [s]);
      assert Total([s]) == s.size;
      assert Tight(b.groups[best.value] + [s], target);
    } else {
      assert Tight([s], target);
    }
  }

  lemma {:induction false} PackIsTight(sorted: seq<Seed>, maxMembers: int, target: int)
    requires Descending(sorted)
    ensures AllTight(Pack(sorted, maxMembers, target), target)
    ensures sorted != [] ==> NoneSmaller(Pack(sorted, maxMembers, target), sorted[|sorted| - 1].size)
    decreases |sorted|
  {
    if sorted != [] {
      var k := |sorted| - 1;
      PackIsTight(sorted[..k], maxMembers, target);
      PackConserves(sorted[..k], maxMembers, target);
      var b := Pack(sorted[..k], maxMembers, target);
      assert k > 0 ==> sorted[..k][k - 1].size >= sorted[k].size;
      PlaceIsTight(b, sorted[k], maxMembers, target);
    }
  }

  /** A first-pass group of several teams needs them all: without any one of them it is below the
      target. */
  lemma EveryTeamIsNeeded(seeds: seq<Seed>, minMembers: int, maxMembers: int, target: int, g: nat, j: nat)
    requires g < |Packed(seeds, minMembers, maxMembers, target).groups|
    requires |Packed(seeds, minMembers, maxMembers, target).groups[g]| > 1
    requires j < |Packed(seeds, minMembers, maxMembers, target).groups[g]|
    ensures var group := Packed(seeds, minMembers, maxMembers, target).groups[g];
      Total(group) - group[j].size < Aim(minMembers, maxMembers, target)
  {
    var aim := Aim(minMembers, maxMembers, target);
    SortIsStable(seeds, 0);
    PackIsTight(SortDescending(seeds), maxMembers, aim);
    var b := Pack(SortDescending(seeds), maxMembers, aim);
    assert Tight(b.groups[g], aim);
  }

  // ---- Where a seed goes ----------------------------------------------------------------------------

  /** The earliest among the fitting groups that no fitting group beats. */
  ghost predicate EarliestBest(sizes: seq<int>, g: nat, size: int, maxMembers: int, target: int) {
    && Fits(sizes, g, size, maxMembers)
    && (forall h: nat :: Fits(sizes, h, size, maxMembers) ==> !BetterFill(sizes[h] + size, sizes[g] + size, target))
    && (forall h: nat :: h < g && Fits(sizes, h, size, maxMembers) ==> BetterFill(sizes[g] + size, sizes[h] + size, target))
  }

  /** A seed joins a group exactly when that group is the earliest best and is below the target; in
      every other case it opens a group of its own. */
  lemma SeedJoinsIff(b: Bins, s: Seed, maxMembers: int, target: int, g: nat)
    requires Measured(b) && g < |b.groups|
    ensures EarliestBest(b.sizes, g, s.size, maxMembers, target) && b.sizes[g] < target <==>
      Place(b, s, maxMembers, target).groups == b.groups[g := b.groups[g] + [s]]
    ensures |Place(b, s, maxMembers, target).groups| == |b.groups| + 1 ==>
      Place(b, s, maxMembers, target).groups == b.groups + [[s]]
  {
    BestFitIsEarliestBest(b.sizes, s.size, maxMembers, target);
    var best := BestFit(b.sizes, s.size, maxMembers, target);
    var next := Place(b, s, maxMembers, target);
    if best.Some? && b.sizes[best.value] < target {
      assert next.groups[best.value] == b.groups[best.value] + [s];
      if best.value != g {
        assert |next.groups[best.value]| != |b.groups[best.value]|;
        assert b.groups[g := b.groups[g] + [s]][best.value] == b.groups[best.value];
      }
    }
  }

  /** How far a fill is from the target. */
  function Gap(fill: int, target: int): int { if fill < target then target - fill else fill - target }

  /** Group g before group h: nearer to the target once the seed is in; as near, the emptier; as full,
      the earlier. */
  predicate Before(sizes: seq<int>, g: nat, h: nat, size: int, target: int)
    requires g < |sizes| && h < |sizes|
  {
    var near, far := Gap(sizes[g] + size, target), Gap(sizes[h] + size, target);
    near < far || (near == far && (sizes[g] < sizes[h] || (sizes[g] == sizes[h] && g <= h)))
  }

  /** The choice in plain arithmetic: the group that comes before every group with room. */
  lemma ChosenIsNearest(sizes: seq<int>, size: int, maxMembers: int, target: int, b: nat)
    ensures BestFit(sizes, size, maxMembers, target) == Some(b) <==>
      && b < |sizes| && sizes[b] + size <= maxMembers
      && forall g: nat :: g < |sizes| && sizes[g] + size <= maxMembers ==> Before(sizes, b, g, size, target)
  {
    BestFitIsEarliestBest(sizes, size, maxMembers, target);
    var best := BestFit(sizes, size, maxMembers, target);
    if best.Some? {
      forall g: nat | g < |sizes| && sizes[g] + size <= maxMembers ensures Before(sizes, best.value, g, size, target) {
        assert Fits(sizes, g, size, maxMembers);
      }
    }
  }

  /** A seed joins group g if and only if g has room and is below the target and comes before every
      group with room. */
  lemma SeedJoinsNearest(b: Bins, s: Seed, maxMembers: int, target: int, g: nat)
    requires Measured(b) && g < |b.groups|
    ensures Place(b, s, maxMembers, target).groups == b.groups[g := b.groups[g] + [s]] <==>
      && b.sizes[g] + s.size <= maxMembers && b.sizes[g] < target
      && forall h: nat :: h < |b.sizes| && b.sizes[h] + s.size <= maxMembers ==> Before(b.sizes, g, h, s.size, target)
  {
    SeedJoinsIff(b, s, maxMembers, target, g);
    ChosenIsNearest(b.sizes, s.size, maxMembers, target, g);
    BestFitIsEarliestBest(b.sizes, s.size, maxMembers, target);
  }

  ghost predicate JoinsBelowTarget(b: Bins, s: Seed, maxMembers: int, target: int) {
    exists g: nat :: EarliestBest(b.sizes, g, s.size, maxMembers, target) && b.sizes[g] < target
  }

  /** The comment that below-target groups take priority says: whenever one of them has room, the
      seed joins one of them. It does so exactly when one of them beats every group with room that
      has reached the target. */
  lemma PriorityHoldsIff(b: Bins, s: Seed, maxMembers: int, target: int)
    ensures JoinsBelowTarget(b, s, maxMembers, target) <==>
      exists g: nat :: Fits(b.sizes, g, s.size, maxMembers) && b.sizes[g] < target &&
        forall h: nat :: Fits(b.sizes, h, s.size, maxMembers) && b.sizes[h] >= target ==>
          BetterFill(b.sizes[g] + s.size, b.sizes[h] + s.size, target)
  {
    BestFitIsEarliestBest(b.sizes, s.size, maxMembers, target);
    var best := BestFit(b.sizes, s.size, maxMembers, target);
    if best.Some? {
      assert EarliestBest(b.sizes, best.value, s.size, maxMembers, target);
    }
  }

  const CROWD: seq<Seed> := [Seed(0, 3), Seed(1, 1), Seed(2, 1), Seed(3, 1)]

  // One more team of size one, to groups that reach at most 5 and aim at 4.
  lemma PlaceCrowd(b: Bins, s: Seed, best: Option<nat>)
    requires |b.groups| == |b.sizes| && s.size == 1
    requires best.Some? ==> EarliestBest(b.sizes, best.value, 1, 5, 4)
    requires best.None? ==> forall g: nat :: !Fits(b.sizes, g, 1, 5)
    ensures BestFit(b.sizes, 1, 5, 4) == best
  {
    BestFitIsEarliestBest(b.sizes, 1, 5, 4);
    var found := BestFit(b.sizes, 1, 5, 4);
    if found.Some? && best.Some? {
      assert found.value == best.value;
    }
  }

  lemma PackOneMore(sorted: seq<Seed>, k: nat, b: Bins)
    requires k < |sorted| && Pack(sorted[..k], 5, 4) == b
    ensures Pack(sorted[..k + 1], 5, 4) == Place(b, sorted[k], 5, 4)
  {
    assert sorted[..k + 1][..k] == sorted[..k];
  }

  lemma PackTwo()
    ensures Pack(CROWD[..2], 5, 4) == Bins([CROWD[..2]], [4])
  {
    assert CROWD[..0] == [];
    PackOneMore(CROWD, 0, Bins([], []));
    var one := Bins([[CROWD[0]]], [3]);
    assert Place(Bins([], []), CROWD[0], 5, 4) == one;
    PackOneMore(CROWD, 1, one);
    PlaceCrowd(one, CROWD[1], Some(0));
    assert [CROWD[0]] + [CROWD[1]] == CROWD[..2];
    assert one.sizes[0 := 4] == [4];
  }

  lemma PackCrowd()
    ensures Pack(CROWD[..3], 5, 4) == Bins([CROWD[..2], [CROWD[2]]], [4, 1])
    ensures Pack(CROWD, 5, 4) == Bins([CROWD[..2], [CROWD[2]], [CROWD[3]]], [4, 1, 1])
  {
    var two, three := Bins([CROWD[..2]], [4]), Bins([CROWD[..2], [CROWD[2]]], [4, 1]);
    PackTwo();
    PackOneMore(CROWD, 2, two);
    PlaceCrowd(two, CROWD[2], Some(0));
    PackOneMore(CROWD, 3, three);
    PlaceCrowd(three, CROWD[3], Some(0));
    assert CROWD[..4] == CROWD;
  }

  lemma MergeTwo(b: Bins, first: Group, second: Group, third: Group)
    requires b == Bins([first, second, third], [4, 1, 1])
    ensures Merge(b, 2, 4, 5) == Merged([first + second], [5], [])
  {
    assert Merge(b, 0, 4, 5) == Merged([], [], []);
    assert Merge(b, 1, 4, 5) == Merged([first], [4], []);
    assert FirstRoom([4], 1, 5) == Some(0);
    assert [first][0 := first + second] == [first + second];
  }

  lemma MergeThree(b: Bins, first: Group, second: Group, third: Group)
    requires b == Bins([first, second, third], [4, 1, 1])
    ensures Merge(b, 3, 4, 5) == Merged([first + second], [5], third)
  {
    MergeTwo(b, first, second, third);
    assert FirstRoom([5], 1, 5) == None;
  }

  lemma MergeCrowd(b: Bins)
    requires b == Bins([CROWD[..2], [CROWD[2]], [CROWD[3]]], [4, 1, 1])
    ensures Merge(b, 3, 4, 5) == Merged([CROWD[..3]], [5], [CROWD[3]])
  {
    MergeThree(b, CROWD[..2], [CROWD[2]], [CROWD[3]]);
    assert CROWD[..2] + [CROWD[2]] == CROWD[..3];
  }

  /** Sizes 3,1,1,1 with bounds 4 to 5: the group of 3 and 1 is at the target and stays the best
      fit, so the last team opens a group of its own although a group of one has room for it, and
      it ends unmerged. */
  lemma PriorityIsLost()
    ensures Pack(CROWD[..3], 5, 4) == Bins([CROWD[..2], [CROWD[2]]], [4, 1])
    ensures Fits([4, 1], 1, CROWD[3].size, 5) && !JoinsBelowTarget(Pack(CROWD[..3], 5, 4), CROWD[3], 5, 4)
    ensures Plan(CROWD, 4, 5, 4) == Merged([CROWD[..3]], [5], [CROWD[3]])
  {
    SortedAlready(CROWD);
    PackCrowd();
    MergeCrowd(Pack(CROWD, 5, 4));
    assert forall g: nat :: EarliestBest([4, 1], g, 1, 5, 4) ==> g == 0 by {
      assert Fits([4, 1], 0, 1, 5);
    }
  }

  lemma {:induction false} SortedAlready(seeds: seq<Seed>)
    requires Descending(seeds)
    ensures SortDescending(seeds) == seeds
    decreases |seeds|
  {
    if seeds != [] {
      var k := |seeds| - 1;
      SortedAlready(seeds[..k]);
      assert k > 0 ==> seeds[..k][k - 1].size >= seeds[k].size;
      assert seeds == seeds[..k] + [seeds[k]];
    }
  }

  // ---- The program ----------------------------------------------------------------------------------

  method ChooseBest(sizes: seq<int>, size: int, maxMembers: int, target: int) returns (best: Option<nat>)
    ensures best == BestFit(sizes, size, maxMembers, target)
  {
    best := None;
    for g := 0 to |sizes|
      invariant best == BestFit(sizes[..g], size, maxMembers, target)
    {
      assert sizes[..g + 1][..g] == sizes[..g];
      if sizes[g] + size <= maxMembers {
        if best.None? || BetterFill(sizes[g] + size, sizes[best.value] + size, target) {
          best := Some(g);
        }
      }
    }
    assert sizes[..|sizes|] == sizes;
  }

  /** One round of the first loop. */
  method PlaceIn(slots: array<Group>, sizes: seq<int>, s: Seed, maxMembers: int, target: int)
    returns (newSizes: seq<int>)
    requires |sizes| < slots.Length
    modifies slots
    ensures |newSizes| <= |sizes| + 1
    ensures Bins(slots[..|newSizes|], newSizes) == Place(Bins(old(slots[..|sizes|]), sizes), s, maxMembers, target)
  {
    var best := ChooseBest(sizes, s.size, maxMembers, target);
    if best.Some? && sizes[best.value] < target {
      slots[best.value] := slots[best.value] + [s];
      newSizes := sizes[best.value := sizes[best.value] + s.size];
    } else {
      slots[|sizes|] := [s];
      newSizes := sizes + [s.size];
      assert slots[..|newSizes|] == old(slots[..|sizes|]) + [[s]];
    }
  }

  method FindRoom(keptSizes: seq<int>, size: int, maxMembers: int) returns (r: Option<nat>)
    ensures r == FirstRoom(keptSizes, size, maxMembers)
  {
    for g := 0 to |keptSizes|
      invariant forall h :: 0 <= h < g ==> keptSizes[h] + size > maxMembers
    {
      if keptSizes[g] + size <= maxMembers {
        return Some(g);
      }
    }
    return None;
  }

  /** One round of the second loop: it writes at most one slot, and none beyond the kept ones and
      the next. */
  method CompactOne(slots: array<Group>, keptSizes: seq<int>, unmerged: seq<Seed>, group: Group, size: int,
        minMembers: int, maxMembers: int)
    returns (newSizes: seq<int>, newUnmerged: seq<Seed>)
    requires |keptSizes| < slots.Length
    modifies slots
    ensures |newSizes| <= |keptSizes| + 1
    ensures slots[|keptSizes| + 1..] == old(slots[|keptSizes| + 1..])
    ensures Merged(slots[..|newSizes|], newSizes, newUnmerged) ==
      MergeOne(Merged(old(slots[..|keptSizes|]), keptSizes, unmerged), group, size, minMembers, maxMembers)
  {
    newSizes, newUnmerged := keptSizes, unmerged;
    if size >= minMembers {
      slots[|keptSizes|] := group;
      newSizes := keptSizes + [size];
      assert slots[..|newSizes|] == old(slots[..|keptSizes|]) + [group];
      return;
    }
    var room := FindRoom(keptSizes, size, maxMembers);
    if room.Some? {
      slots[room.value] := slots[room.value] + group;
      newSizes := keptSizes[room.value := keptSizes[room.value] + size];
    } else {
      newUnmerged := unmerged + group;
    }
  }

  /** The second loop. Writing to the front of the slice it reads from does no harm: the writes
      never run ahead of the reads. */
  method Compact(slots: array<Group>, sizes: seq<int>, minMembers: int, maxMembers: int)
    returns (groups: seq<Group>, unmerged: seq<Seed>)
    requires |sizes| <= slots.Length
    modifies slots
    ensures groups == Merge(Bins(old(slots[..|sizes|]), sizes), |sizes|, minMembers, maxMembers).kept
    ensures unmerged == Merge(Bins(old(slots[..|sizes|]), sizes), |sizes|, minMembers, maxMembers).unmerged
  {
    ghost var b := Bins(slots[..|sizes|], sizes);
    var keptSizes: seq<int> := [];
    unmerged := [];
    for g := 0 to |sizes|
      invariant |keptSizes| <= g
      invariant slots[g..] == old(slots[g..])
      invariant Merged(slots[..|keptSizes|], keptSizes, unmerged) == Merge(b, g, minMembers, maxMembers)
    {
      assert slots[g] == slots[g..][0] == b.groups[g];
      ghost var rest := slots[g..];
      ghost var tail := slots[|keptSizes| + 1..];
      var from := |keptSizes|;
      keptSizes, unmerged := CompactOne(slots, keptSizes, unmerged, slots[g], sizes[g], minMembers, maxMembers);
      assert slots[g + 1..] == slots[from + 1..][g - from..] == tail[g - from..] == rest[1..];
    }
    groups := slots[..|keptSizes|];
  }

  /** PlanMerge as it runs. slots is the array behind the slice of groups: the second loop writes
      the kept groups to its front while it still reads the rest of it, and what comes back is
      what the pure plan says. */
  method PlanTeams(seeds: seq<Seed>, minMembers: int, maxMembers: int, target: int)
    returns (groups: seq<Group>, unmerged: seq<Seed>)
    ensures groups == Plan(seeds, minMembers, maxMembers, target).kept
    ensures unmerged == Plan(seeds, minMembers, maxMembers, target).unmerged
  {
    var aim := Aim(minMembers, maxMembers, target);
    var sorted := SortDescending(seeds);
    var slots := new Group[|sorted|](_ => []);
    var sizes: seq<int> := [];
    for k := 0 to |sorted|
      invariant |sizes| <= k
      invariant Bins(slots[..|sizes|], sizes) == Pack(sorted[..k], maxMembers, aim)
    {
      assert sorted[..k + 1][..k] == sorted[..k];
      sizes := PlaceIn(slots, sizes, sorted[k], maxMembers, aim);
    }
    assert sorted[..|sorted|] == sorted;
    groups, unmerged := Compact(slots, sizes, minMembers, maxMembers);
  }
}
