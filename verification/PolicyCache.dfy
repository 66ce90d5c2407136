/** The Redis decorator of the policy store: it answers like the store it hides. */
module PolicyCache {
  import opened Wrappers
  import opened Collections
  import opened PolicyStore
  import opened PolicyTable

  const PREFIX: string := "authz:policy:"
  const SCAN_BATCH_SIZE: nat := 500

  function CacheKey(key: Key): string { PREFIX + key.resource + ":" + key.action }

  /** Every resource name of the vocabulary is plain: without a colon. */
  predicate Plain(key: Key) { ':' !in key.resource }

  function BeforeColon(text: string): nat {
    if text == "" || text[0] == ':' then 0 else 1 + BeforeColon(text[1..])
  }

  lemma {:induction false} FirstColon(r: string, a: string)
    requires ':' !in r
    ensures BeforeColon(r + ":" + a) == |r|
    decreases |r|
  {
    if r != "" {
      FirstColon(r[1..], a);
      assert (r + ":" + a)[1..] == r[1..] + ":" + a;
    }
  }

  lemma ColonSplits(r: string, a: string, s: string, b: string)
    requires ':' !in r && ':' !in s && r + ":" + a == s + ":" + b
    ensures r == s && a == b
  {
    var text := r + ":" + a;
    FirstColon(r, a);
    FirstColon(s, b);
    assert r == text[..|r|] && s == text[..|s|];
    assert a == text[|r| + 1..] && b == text[|s| + 1..];
  }

  /** Pairs with plain resources never share a cache key. */
  lemma KeysAreDistinct(k: Key, l: Key)
    requires Plain(k) && Plain(l) && CacheKey(k) == CacheKey(l)
    ensures k == l
  {
    var rest := k.resource + ":" + k.action;
    assert CacheKey(k)[|PREFIX|..] == rest;
    assert CacheKey(l)[|PREFIX|..] == l.resource + ":" + l.action;
    ColonSplits(k.resource, k.action, l.resource, l.action);
  }

  /** Without that they could. */
  lemma ColonsWouldClash()
    ensures CacheKey(Key("a:b", "c")) == CacheKey(Key("a", "b:c"))
  {
    assert PREFIX + "a:b" + ":" + "c" == PREFIX + "a" + ":" + "b:c";
  }

  /** What Redis holds under one key: a policy, or bytes that are none. */
  datatype Entry = Cached(policy: Policy) | Foreign(bytes: string)

  /** A scan of the policy keys: all that are there, some perhaps more than once, nothing else. */
  predicate Scanned(redis: map<string, Entry>, found: seq<string>) {
    && (forall s :: s in redis && PREFIX <= s ==> s in found)
    && (forall s :: s in found ==> PREFIX <= s)
  }

  /** What is left when no policy key is. */
  function Others(redis: map<string, Entry>): map<string, Entry> {
    map s | s in redis && !(PREFIX <= s) :: redis[s]
  }

  lemma ScannedAreAll(redis: map<string, Entry>, found: seq<string>)
    requires Scanned(redis, found)
    ensures redis - Elements(found) == Others(redis)
  {
    forall s | s in redis ensures s in Elements(found) <==> PREFIX <= s {
    }
  }

  class Cache {
    const next: Store
    var redis: map<string, Entry>

    /** Whatever policy is cached for a pair is the one the store would assemble now. */
    ghost predicate Coherent()
      reads this, next
    {
      && PolicyStore.Valid(next.table)
      && forall k :: Plain(k) && CacheKey(k) in redis && redis[CacheKey(k)].Cached? ==>
        redis[CacheKey(k)].policy == PolicyOf(next.table.rows, k)
    }

    constructor (store: Store, redis: map<string, Entry>)
      requires PolicyStore.Valid(store.table)
      requires forall s :: s in redis ==> !(PREFIX <= s)
      ensures next == store && this.redis == redis && Coherent()
    {
      next := store;
      this.redis := redis;
      new;
      assert forall k :: PREFIX <= CacheKey(k);
    }

    /** reads and writes say whether Redis answers; up whether the store does. As long as the store
        answers the reply is the store's; a cached reply is the same one. */
    method PolicyFor(key: Key, up: bool, answers: bool, writes: bool) returns (r: Result<Policy, PolicyStore.Error>)
      requires Coherent() && Plain(key)
      modifies this`redis
      ensures Coherent()
      ensures r.Success? ==> r.value == PolicyOf(next.table.rows, key)
      ensures up ==> r.Success?
      ensures forall s :: s != CacheKey(key) ==> (s in redis <==> s in old(redis)) && (s in redis ==> redis[s] == old(redis)[s])
    {
      var cacheKey := CacheKey(key);
      if answers && cacheKey in redis && redis[cacheKey].Cached? {
        return Success(redis[cacheKey].policy);
      }
      r := next.PolicyFor(key, up);
      if r.Success? && writes {
        redis := redis[cacheKey := Cached(r.value)];
        forall k | Plain(k) && CacheKey(k) == cacheKey ensures k == key {
          KeysAreDistinct(k, key);
        }
      }
    }

    /** Time passes: any keys may run out. */
    method Expire(keys: set<string>)
      requires Coherent()
      modifies this`redis
      ensures Coherent() && redis == old(redis) - keys
    {
      redis := redis - keys;
    }

    method Invalidate(keys: seq<string>)
      modifies this`redis
      ensures redis == old(redis) - Elements(keys)
    {
      redis := redis - Elements(keys);
    }

    /** Unlinks the scanned keys 500 at a time: afterwards no policy key is left and every other
        key is as it was. */
    method InvalidateAll(found: seq<string>)
      requires Scanned(redis, found)
      modifies this`redis
      ensures redis == Others(old(redis))
    {
      var batch: seq<string> := [];
      ghost var sent: seq<string> := [];
      for i := 0 to |found|
        invariant |batch| < SCAN_BATCH_SIZE
        invariant sent + batch == found[..i]
        invariant redis == old(redis) - Elements(sent)
      {
        batch := batch + [found[i]];
        assert sent + batch == found[..i + 1];
        if |batch| == SCAN_BATCH_SIZE {
          Invalidate(batch);
          ElementsJoin(sent, batch);
          sent := sent + batch;
          batch := [];
        }
      }
      if |batch| > 0 {
        Invalidate(batch);
      }
      ElementsJoin(sent, batch);
      assert sent + batch == found;
      ScannedAreAll(old(redis), found);
    }

    /** One key is dropped although the whole table changed: no other pair reads differently. */
    method CreatePermission(b: Body, up: bool) returns (r: Result<Row, PolicyStore.Error>)
      requires Coherent() && Plain(b.key)
      modifies this`redis, next
      ensures Coherent()
      ensures r.Success? <==> up && WellShaped(b) && !Stored(old(next.table).rows, b)
      ensures next.table.rows == if r.Success? then old(next.table).rows + [r.value] else old(next.table).rows
      ensures redis == if r.Success? then old(redis) - {CacheKey(b.key)} else old(redis)
    {
      ghost var rows := next.table.rows;
      r := next.CreatePermission(b, up);
      if r.Success? {
        Invalidate([CacheKey(b.key)]);
        forall k | Plain(k) && k != b.key ensures PolicyOf(next.table.rows, k) == PolicyOf(rows, k) {
          PolicyGrows(rows, r.value, k);
        }
      }
    }

    method DeactivatePermission(id: nat, up: bool, found: seq<string>) returns (r: Result<(), PolicyStore.Error>)
      requires Coherent() && Scanned(redis, found)
      modifies this`redis, next
      ensures Coherent()
      ensures next.table.rows == if r.Success? then Deactivated(old(next.table).rows, id) else old(next.table).rows
    {
      r := next.DeactivatePermission(id, up);
      if r.Failure? { return; }
      InvalidateAll(found);
      assert forall k :: PREFIX <= CacheKey(k);
    }

    method Seed(defaults: map<Key, Policy>, up: bool, found: seq<string>) returns (r: Result<(), PolicyStore.Error>)
      requires Coherent() && Scanned(redis, found)
      modifies this`redis, next
      ensures Coherent()
      ensures r.Success? ==> Seeded(old(next.table), next.table, Missing(old(next.table).rows, defaults), defaults)
      ensures r.Failure? ==> next.table == old(next.table)
    {
      r := next.Seed(defaults, up);
      if r.Failure? { return; }
      InvalidateAll(found);
      assert forall k :: PREFIX <= CacheKey(k);
    }

    method Reset(defaults: map<Key, Policy>, up: bool, found: seq<string>) returns (r: Result<(), PolicyStore.Error>)
      requires Coherent() && Scanned(redis, found)
      modifies this`redis, next
      ensures Coherent()
      ensures r.Success? ==> forall k :: PolicyOf(next.table.rows, k) == if k in defaults then defaults[k] else NOBODY
      ensures r.Failure? ==> next.table == old(next.table)
    {
      r := next.Reset(defaults, up);
      if r.Failure? { return; }
      InvalidateAll(found);
      assert forall k :: PREFIX <= CacheKey(k);
    }
  }
}
