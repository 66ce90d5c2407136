/** Adding up, over all entries of a map, the multiset of things each entry holds. */
module Tally {

  ghost function Sum<K, V>(m: map<K, V>, held: V -> multiset<nat>): multiset<nat>
    decreases |m|
  {
    if m == map[] then multiset{}
    else
      var k :| k in m;
      held(m[k]) + Sum(m - {k}, held)
  }

  // The sum does not depend on which entry is taken first.
  lemma {:induction false} SumRemove<K, V>(m: map<K, V>, held: V -> multiset<nat>, k: K)
    requires k in m
    ensures Sum(m, held) == held(m[k]) + Sum(m - {k}, held)
    decreases |m|
  {
    var first :| first in m && Sum(m, held) == held(m[first]) + Sum(m - {first}, held);
    if first != k {
      SumRemove(m - {first}, held, k);
      SumRemove(m - {k}, held, first);
      assert m - {first} - {k} == m - {k} - {first};
    }
  }

  lemma SumInsert<K, V>(m: map<K, V>, held: V -> multiset<nat>, k: K, v: V)
    requires k !in m
    ensures Sum(m[k := v], held) == Sum(m, held) + held(v)
  {
    SumRemove(m[k := v], held, k);
    assert m[k := v] - {k} == m;
  }

  lemma SumReplace<K, V>(m: map<K, V>, held: V -> multiset<nat>, k: K, v: V)
    requires k in m
    ensures Sum(m[k := v], held) + held(m[k]) == Sum(m, held) + held(v)
  {
    SumRemove(m, held, k);
    SumRemove(m[k := v], held, k);
    assert m[k := v] - {k} == m - {k};
  }

  function Only<K, V>(m: map<K, V>, s: set<K>): (r: map<K, V>)
    ensures r.Keys == m.Keys * s
    ensures forall k :: k in r ==> r[k] == m[k]
  {
    m - (m.Keys - s)
  }

  // The entries of s together with the other entries make up the whole sum.
  lemma {:induction false} SumSplit<K, V>(m: map<K, V>, held: V -> multiset<nat>, s: set<K>)
    requires s <= m.Keys
    ensures Sum(m, held) == Sum(Only(m, s), held) + Sum(m - s, held)
    decreases s
  {
    if s == {} {
      assert m - s == m && Only(m, s) == map[];
    } else {
      var k :| k in s;
      SumSplit(m, held, s - {k});
      SumRemove(Only(m, s), held, k);
      SumRemove(m - (s - {k}), held, k);
      assert Only(m, s) - {k} == Only(m, s - {k});
      assert m - (s - {k}) - {k} == m - s;
    }
  }

  // What moves inside one part of a sum moves the whole sum by as much.
  lemma Shift(rest: multiset<nat>, part: multiset<nat>, part': multiset<nat>, gone: multiset<nat>, come: multiset<nat>)
    requires part' + gone == part + come
    ensures (rest + part') + gone == (rest + part) + come
    ensures (part' + rest) + gone == (part + rest) + come
  {
    assert rest + part' == part' + rest && rest + part == part + rest;
    assert (rest + part') + gone == rest + (part' + gone);
    assert (rest + part) + come == rest + (part + come);
  }

  lemma Cancel(after: multiset<nat>, before: multiset<nat>, both: multiset<nat>)
    requires after + both == before + both
    ensures after == before
  {
    forall i: nat ensures after[i] == before[i] {
      assert (after + both)[i] == (before + both)[i];
    }
  }

  // Net effect of a step on a total, once what cancels is taken out.
  lemma Settle(after: multiset<nat>, before: multiset<nat>, gone: multiset<nat>, come: multiset<nat>,
               minus: multiset<nat>, plus: multiset<nat>)
    requires after + gone == before + come
    requires come + minus == gone + plus
    ensures after + minus == before + plus
  {
    forall i: nat ensures (after + minus)[i] == (before + plus)[i] {
      assert (after + gone)[i] == (before + come)[i];
      assert (come + minus)[i] == (gone + plus)[i];
    }
  }

  // Two changes that undo each other leave the total as it was.
  lemma Exchange(after: multiset<nat>, middle: multiset<nat>, before: multiset<nat>, x: multiset<nat>, y: multiset<nat>)
    requires after + x == middle + y
    requires middle + y == before + x
    ensures after == before
  {
    Cancel(after, before, x);
  }

  lemma Withdraw(after: multiset<nat>, before: multiset<nat>, gone: multiset<nat>)
    requires after + gone == before + multiset{}
    ensures after == before - gone && gone <= before
  {
    forall i: nat ensures before[i] == after[i] + gone[i] {
      assert (after + gone)[i] == (before + multiset{})[i];
    }
  }

  lemma Swap(whole: multiset<nat>, part: multiset<nat>, rest: multiset<nat>)
    requires whole == part + rest
    ensures rest + part == whole + multiset{}
  {
  }
}
