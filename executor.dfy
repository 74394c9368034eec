/**
 * The query execution engine: result cache keys, the FIFO-bounded result
 * cache with time-to-live, required-parameter validation, placeholder
 * binding, per-database connections with a liveness probe, row
 * normalisation, and `execute`, which ties them into a result envelope.
 *
 * The database driver is an oracle (`Driver`): its connect, probe and run
 * answers are parameters of the model, as are the clock and the process
 * environment.
 */
module Executor {
  import opened Wrappers
  import opened Text
  import OrderedDict
  import opened Models

  const MAX_CACHE_SIZE: nat := 1000

  /** Parameter values by name, in the caller's order. */
  type Params = OrderedDict.Dict<string>

  // ---------------------------------------------------------------------
  // Cache keys.

  function ParamParts(s: seq<(string, string)>): (r: seq<string>)
    ensures |r| == |s| && forall i :: 0 <= i < |s| ==> r[i] == s[i].0 + "=" + s[i].1
  {
    if s == [] then [] else [s[0].0 + "=" + s[0].1] + ParamParts(s[1..])
  }

  /** `name:k1=v1_k2=v2…` over the parameters sorted by name. */
  function CacheKey(queryName: string, params: Params): (key: string)
    ensures IsPrefix(queryName + ":", key)
  {
    var head := queryName + ":";
    var key := head + Join("_", ParamParts(SortByKey(params)));
    assert key[..|head|] == head;
    key
  }

  /**
   * One parameter gives `name:k=v`, so the same query asked with two
   * different values for one parameter is cached under two keys.
   */
  lemma {:induction false} CacheKeyOneParameter(name: string, k: string, v1: string, v2: string)
    ensures CacheKey(name, [(k, v1)]) == name + ":" + k + "=" + v1
    ensures v1 != v2 ==> CacheKey(name, [(k, v1)]) != CacheKey(name, [(k, v2)])
  {
    var head := name + ":" + k + "=";
    OneParameterKey(name, k, v1);
    OneParameterKey(name, k, v2);
    if v1 != v2 {
      assert (head + v1)[|head|..] == v1 && (head + v2)[|head|..] == v2;
    }
  }

  /** The key of a single parameter, spelt out. */
  lemma OneParameterKey(name: string, k: string, v: string)
    ensures CacheKey(name, [(k, v)]) == name + ":" + k + "=" + v
  {
    var one: Params := [(k, v)];
    assert one[1..] == [];
    assert SortByKey(one) == one;
    assert ParamParts(one) == [k + "=" + v];
  }

  /** The key does not depend on the order in which the caller listed the parameters. */
  lemma CacheKeyOrderIndependent(queryName: string, p: Params, q: Params)
    requires OrderedDict.Valid(p) && multiset(p) == multiset(q)
    ensures CacheKey(queryName, p) == CacheKey(queryName, q)
  {
    var sp, sq := SortByKey(p), SortByKey(q);
    DistinctKeysPermutation(p, sp);
    SortedUnique(sp, sq);
  }

  /** Two distinct names without ':' differ somewhere within their `name:` heads. */
  lemma HeadsDiffer(n1: string, n2: string) returns (i: nat)
    requires n1 != n2 && ':' !in n1 && ':' !in n2
    ensures i <= |n1| && i <= |n2| && (n1 + ":")[i] != (n2 + ":")[i]
  {
    var h1, h2 := n1 + ":", n2 + ":";
    if |n1| <= |n2| && n1 == n2[..|n1|] {
      i := |n1|;
      assert h2[i] == n2[i];
    } else if |n2| < |n1| && n2 == n1[..|n2|] {
      i := |n2|;
      assert h1[i] == n1[i];
    } else {
      i :| 0 <= i < |n1| && i < |n2| && n1[i] != n2[i];
      assert h1[i] == n1[i] && h2[i] == n2[i];
    }
  }

  /** A key scoped to one query name is never scoped to another. */
  lemma ScopedToOneQuery(n1: string, n2: string, k: string)
    requires n1 != n2 && ':' !in n1 && ':' !in n2
    requires IsPrefix(n2 + ":", k)
    ensures !IsPrefix(n1 + ":", k)
  {
    var i := HeadsDiffer(n1, n2);
    assert k[i] == (n2 + ":")[i];
  }

  /** Different queries never share a key when neither name holds ':'. */
  lemma CacheKeySeparatesQueries(n1: string, n2: string, p: Params, q: Params)
    requires n1 != n2 && ':' !in n1 && ':' !in n2
    ensures CacheKey(n1, p) != CacheKey(n2, q)
  {
    ScopedToOneQuery(n1, n2, CacheKey(n2, q));
  }

  /**
   * The key is not injective: a value holding `_k2=v2` for a later name `k2`
   * gives the same key as a second parameter `k2` with value `v2`.
   */
  lemma CacheKeyCollision(name: string, k1: string, v1: string, k2: string, v2: string)
    requires StrLess(k1, k2)
    ensures CacheKey(name, [(k1, v1 + "_" + k2 + "=" + v2)]) == CacheKey(name, [(k1, v1), (k2, v2)])
  {
    var one: Params := [(k1, v1 + "_" + k2 + "=" + v2)];
    var two: Params := [(k1, v1), (k2, v2)];
    AlreadySorted(k1, v1 + "_" + k2 + "=" + v2, v1, k2, v2);
    assert ParamParts(one) == [k1 + "=" + (v1 + "_" + k2 + "=" + v2)];
    assert ParamParts(two) == [k1 + "=" + v1, k2 + "=" + v2];
    JoinCons("_", k1 + "=" + v1, [k2 + "=" + v2]);
    Regroup5(k1, "=", v1, "_", k2 + "=" + v2);
  }

  /** One parameter, or two whose names are in order, are already sorted. */
  lemma AlreadySorted(k1: string, v: string, v1: string, k2: string, v2: string)
    requires StrLess(k1, k2)
    ensures SortByKey([(k1, v)]) == [(k1, v)]
    ensures SortByKey([(k1, v1), (k2, v2)]) == [(k1, v1), (k2, v2)]
  {
    var two := [(k1, v1), (k2, v2)];
    StrLessAsymmetric(k1, k2);
    assert SortByKey([(k2, v2)]) == [(k2, v2)];
    assert two[1..] == [(k2, v2)];
    assert SortByKey(two) == InsertByKey((k1, v1), [(k2, v2)]);
  }

  // ---------------------------------------------------------------------
  // The result cache as a value: entries by key plus their insertion order.

  datatype Entry = Entry(data: Option<seq<Row>>, timestamp: int)

  datatype CacheState = CacheState(entries: map<string, Entry>, order: seq<string>)

  /** No element twice. */
  predicate NoDup(s: seq<string>) {
    s == [] || (s[0] !in s[1..] && NoDup(s[1..]))
  }

  /** The set of elements of a sequence. */
  function Elements(s: seq<string>): set<string> {
    if s == [] then {} else {s[0]} + Elements(s[1..])
  }

  lemma {:induction false} ElementsIn(s: seq<string>, x: string)
    ensures x in Elements(s) <==> x in s
  {
    if s != [] {
      ElementsIn(s[1..], x);
      assert s == [s[0]] + s[1..];
    }
  }

  lemma {:induction false} ElementsAppend(s: seq<string>, k: string)
    ensures Elements(s + [k]) == Elements(s) + {k}
  {
    if s != [] {
      assert (s + [k])[1..] == s[1..] + [k];
      ElementsAppend(s[1..], k);
    }
  }

  lemma {:induction false} NoDupAppend(s: seq<string>, k: string)
    ensures NoDup(s + [k]) <==> NoDup(s) && k !in s
  {
    if s != [] {
      assert (s + [k])[1..] == s[1..] + [k];
      NoDupAppend(s[1..], k);
      assert s == [s[0]] + s[1..];
    }
  }

  /** The cache never exceeds its bound and the order lists each cached key exactly once. */
  predicate CacheInv(c: CacheState) {
    |c.entries| <= MAX_CACHE_SIZE && InStep(c)
  }

  /** The order and the entries name the same keys, each once. */
  predicate InStep(c: CacheState) {
    NoDup(c.order) && Elements(c.order) == c.entries.Keys
  }

  const EMPTY_CACHE := CacheState(map[], [])

  /** The elements of `s` not in `gone`, in order. */
  function Without(s: seq<string>, gone: set<string>): (r: seq<string>)
    ensures Elements(r) == Elements(s) - gone
    ensures NoDup(s) ==> NoDup(r)
    ensures |r| <= |s|
  {
    if s == [] then []
    else
      var t := Without(s[1..], gone);
      if s[0] in gone then t
      else
        ElementsIn(s[1..], s[0]);
        ElementsIn(t, s[0]);
        [s[0]] + t
  }

  lemma {:induction false} WithoutAbsent(s: seq<string>, gone: set<string>)
    requires Elements(s) !! gone
    ensures Without(s, gone) == s
  {
    if s != [] { WithoutAbsent(s[1..], gone); }
  }

  lemma MinusStep(m: map<string, Entry>, gone: set<string>, k: string)
    ensures (m - gone) - {k} == m - (gone + {k})
  {
  }

  lemma {:induction false} WithoutWithout(s: seq<string>, a: set<string>, b: set<string>)
    ensures Without(Without(s, a), b) == Without(s, a + b)
  {
    if s != [] {
      WithoutWithout(s[1..], a, b);
    }
  }

  /** `list.remove(k)` on a list with no duplicates: drops `k`, keeps the rest in order. */
  function RemoveFirst(s: seq<string>, k: string): (r: seq<string>)
    ensures k !in s ==> r == s
    ensures NoDup(s) ==> r == Without(s, {k})
  {
    if s == [] then []
    else if s[0] == k then
      assert NoDup(s) ==> Without(s[1..], {k}) == s[1..] by {
        if NoDup(s) {
          ElementsIn(s[1..], k);
          WithoutAbsent(s[1..], {k});
        }
      }
      s[1..]
    else
      assert s == [s[0]] + s[1..];
      [s[0]] + RemoveFirst(s[1..], k)
  }

  /** A duplicate-free sequence is as long as its set of elements. */
  lemma {:induction false} NoDupCard(s: seq<string>)
    requires NoDup(s)
    ensures |Elements(s)| == |s|
  {
    if s != [] {
      NoDupCard(s[1..]);
      ElementsIn(s[1..], s[0]);
    }
  }

  /** Under the invariant the order is exactly as long as the cache. */
  lemma OrderLength(c: CacheState)
    requires InStep(c)
    ensures |c.order| == |c.entries|
  {
    NoDupCard(c.order);
    assert |c.entries.Keys| == |c.entries|;
  }

  /** `_check_cache`: the hit or miss, and the cache after an expired entry is dropped. */
  function Probe(c: CacheState, key: string, ttl: int, now: int): (r: (Option<Entry>, CacheState))
    ensures r.0.Some? <==> ttl > 0 && key in c.entries && now - c.entries[key].timestamp < ttl
    ensures r.0.Some? ==> r.0.value == c.entries[key]
    ensures ttl <= 0 || key !in c.entries || r.0.Some? ==> r.1 == c
    ensures ttl > 0 && key in c.entries && r.0.None? ==>
              r.1.entries == c.entries - {key} && r.1.order == RemoveFirst(c.order, key)
  {
    if ttl <= 0 || key !in c.entries then (None, c)
    else if now - c.entries[key].timestamp < ttl then (Some(c.entries[key]), c)
    else (None, CacheState(c.entries - {key}, RemoveFirst(c.order, key)))
  }

  lemma ProbeKeepsInv(c: CacheState, key: string, ttl: int, now: int)
    requires CacheInv(c)
    ensures CacheInv(Probe(c, key, ttl, now).1)
  {
    var r := Probe(c, key, ttl, now).1;
    if r != c {
      assert r.entries.Keys == c.entries.Keys - {key};
      assert |r.entries.Keys| <= |c.entries.Keys|;
    }
  }

  /** An expired entry is gone from the cache and from the order. */
  lemma ProbeDropsExpired(c: CacheState, key: string, ttl: int, now: int)
    requires CacheInv(c) && ttl > 0 && key in c.entries && now - c.entries[key].timestamp >= ttl
    ensures var r := Probe(c, key, ttl, now).1; key !in r.entries && key !in r.order
  {
    ElementsIn(Probe(c, key, ttl, now).1.order, key);
  }

  /** `_cache_result`: evict the oldest entry when full, then store and record the key. */
  function Store(c: CacheState, key: string, data: Option<seq<Row>>, now: int): (r: CacheState)
    ensures key in r.entries && r.entries[key] == Entry(data, now)
  {
    var e := if |c.entries| >= MAX_CACHE_SIZE && c.order != [] then
               CacheState(c.entries - {c.order[0]}, c.order[1..])
             else c;
    CacheState(e.entries[key := Entry(data, now)], if key in e.order then e.order else e.order + [key])
  }

  lemma EvictKeepsStep(c: CacheState)
    requires InStep(c) && c.order != []
    ensures var e := CacheState(c.entries - {c.order[0]}, c.order[1..]);
            InStep(e) && |e.entries| == |c.entries| - 1
  {
    var o := c.order[0];
    var e := CacheState(c.entries - {o}, c.order[1..]);
    ElementsIn(c.order[1..], o);
    assert e.entries.Keys == c.entries.Keys - {o};
  }

  lemma AddKeepsStep(e: CacheState, key: string, v: Entry)
    requires InStep(e)
    ensures var r := CacheState(e.entries[key := v], if key in e.order then e.order else e.order + [key]);
            InStep(r) && |r.entries| <= |e.entries| + 1
  {
    var r := CacheState(e.entries[key := v], if key in e.order then e.order else e.order + [key]);
    ElementsIn(e.order, key);
    ElementsAppend(e.order, key);
    NoDupAppend(e.order, key);
    assert r.entries.Keys == e.entries.Keys + {key};
    assert |r.entries.Keys| <= |e.entries.Keys| + 1;
  }

  /** Storing keeps the cache within its bound and the order in step with it. */
  lemma StoreKeepsInv(c: CacheState, key: string, data: Option<seq<Row>>, now: int)
    requires CacheInv(c)
    ensures CacheInv(Store(c, key, data, now))
  {
    OrderLength(c);
    var e := if |c.entries| >= MAX_CACHE_SIZE && c.order != [] then
               CacheState(c.entries - {c.order[0]}, c.order[1..])
             else c;
    if |c.entries| >= MAX_CACHE_SIZE { EvictKeepsStep(c); }
    AddKeepsStep(e, key, Entry(data, now));
  }

  /** Below the bound nothing is evicted: an existing key keeps its place, a new one goes last. */
  lemma StoreBelowBound(c: CacheState, key: string, data: Option<seq<Row>>, now: int)
    requires |c.entries| < MAX_CACHE_SIZE
    ensures Store(c, key, data, now).entries == c.entries[key := Entry(data, now)]
    ensures Store(c, key, data, now).order == if key in c.order then c.order else c.order + [key]
  {
  }

  /** At the bound the oldest key is evicted first, even when `key` is already cached. */
  lemma StoreAtBoundEvictsOldest(c: CacheState, key: string, data: Option<seq<Row>>, now: int)
    requires CacheInv(c) && |c.entries| == MAX_CACHE_SIZE
    ensures var r := Store(c, key, data, now);
            && (c.order[0] != key ==> c.order[0] !in r.entries)
            && r.entries == (c.entries - {c.order[0]})[key := Entry(data, now)]
            && r.order == if key in c.order[1..] then c.order[1..] else c.order[1..] + [key]
  {
    OrderLength(c);
  }

  /**
   * The one exception to "a re-stored key keeps its place": at the bound a
   * re-stored head key is evicted first and then appended, so it moves last.
   */
  lemma StoreAtBoundMovesHeadLast(c: CacheState, data: Option<seq<Row>>, now: int)
    requires CacheInv(c) && |c.entries| == MAX_CACHE_SIZE
    ensures Store(c, c.order[0], data, now).order == c.order[1..] + [c.order[0]]
    ensures Store(c, c.order[0], data, now).entries.Keys == c.entries.Keys
  {
    OrderLength(c);
    var k := c.order[0];
    assert k !in c.order[1..];
    ElementsIn(c.order, k);
    assert k in c.entries;
  }

  /** At the bound any other re-stored key keeps its place, and the head is evicted. */
  lemma StoreAtBoundKeepsPlace(c: CacheState, key: string, data: Option<seq<Row>>, now: int)
    requires CacheInv(c) && |c.entries| == MAX_CACHE_SIZE
    requires key in c.entries && key != c.order[0]
    ensures Store(c, key, data, now).order == c.order[1..]
  {
    OrderLength(c);
    ElementsIn(c.order, key);
    assert key in c.order;
    assert key in c.order[1..] by {
      var i :| 0 <= i < |c.order| && c.order[i] == key;
      assert i > 0 && c.order[1..][i - 1] == key;
    }
  }

  /** Stores a sequence of keys in turn, all at the same time and with the same data. */
  function StoreAll(c: CacheState, keys: seq<string>, data: Option<seq<Row>>, now: int): CacheState
  {
    if keys == [] then c else Store(StoreAll(c, keys[..|keys| - 1], data, now), keys[|keys| - 1], data, now)
  }

  /** Up to the bound, storing distinct keys into an empty cache keeps them all, in order. */
  lemma {:induction false} StoreAllFromEmpty(keys: seq<string>, data: Option<seq<Row>>, now: int)
    requires NoDup(keys) && |keys| <= MAX_CACHE_SIZE
    ensures StoreAll(EMPTY_CACHE, keys, data, now).order == keys
    ensures StoreAll(EMPTY_CACHE, keys, data, now).entries.Keys == Elements(keys)
  {
    if keys != [] {
      var init, last := keys[..|keys| - 1], keys[|keys| - 1];
      assert keys == init + [last];
      NoDupAppend(init, last);
      ElementsAppend(init, last);
      StoreAllFromEmpty(init, data, now);
      NoDupCard(init);
      var c := StoreAll(EMPTY_CACHE, init, data, now);
      assert |c.entries| == |c.entries.Keys| == |init|;
    }
  }

  /** FIFO eviction: after MAX+1 distinct keys the first is gone and the others remain, in order. */
  lemma FifoEvictsFirstKey(keys: seq<string>, data: Option<seq<Row>>, now: int)
    requires NoDup(keys) && |keys| == MAX_CACHE_SIZE + 1
    ensures var r := StoreAll(EMPTY_CACHE, keys, data, now);
            keys[0] !in r.entries && r.entries.Keys == Elements(keys[1..]) && r.order == keys[1..]
  {
    var init, last := keys[..MAX_CACHE_SIZE], keys[MAX_CACHE_SIZE];
    Text.SplitLast(keys);
    NoDupAppend(init, last);
    StoreAllFromEmpty(init, data, now);
    NoDupCard(init);
    var c := StoreAll(EMPTY_CACHE, init, data, now);
    assert |c.entries| == |c.entries.Keys| == MAX_CACHE_SIZE;
    ElementsAppend(init[1..], last);
    Text.MultisetHead(init);
    ElementsIn(init[1..], keys[0]);
  }

  /** `clear_cache()`: everything goes; the count is the number of entries. */
  function ClearAll(c: CacheState): (r: (nat, CacheState))
    ensures r.1 == EMPTY_CACHE && r.0 == |c.entries|
  {
    (|c.entries|, EMPTY_CACHE)
  }

  /** The keys `clear_cache(name)` removes: those starting with `name:`. */
  function Scope(c: CacheState, queryName: string): (s: set<string>)
    ensures forall k :: k in s <==> k in c.entries && IsPrefix(queryName + ":", k)
  {
    set k | k in c.entries && IsPrefix(queryName + ":", k)
  }

  /** `clear_cache(name)`: drops exactly the scoped keys and reports how many went. */
  function ClearScoped(c: CacheState, queryName: string): (r: (nat, CacheState))
    ensures forall k :: k in r.1.entries <==> k in c.entries && !IsPrefix(queryName + ":", k)
    ensures forall k :: k in r.1.entries ==> r.1.entries[k] == c.entries[k]
    ensures r.1.order == Without(c.order, Scope(c, queryName))
    ensures r.0 + |r.1.entries| == |c.entries|
  {
    var gone := Scope(c, queryName);
    var kept := c.entries - gone;
    assert kept.Keys == c.entries.Keys - gone;
    assert gone <= c.entries.Keys;
    assert |kept.Keys| == |c.entries.Keys| - |gone|;
    (|gone|, CacheState(kept, Without(c.order, gone)))
  }

  lemma ClearScopedKeepsInv(c: CacheState, queryName: string)
    requires CacheInv(c)
    ensures CacheInv(ClearScoped(c, queryName).1)
  {
    var r := ClearScoped(c, queryName).1;
    assert r.entries.Keys == c.entries.Keys - Scope(c, queryName);
  }

  /** Clearing one query's entries leaves every other query's entries cached. */
  lemma ClearScopedKeepsOtherQueries(c: CacheState, queryName: string, other: string, p: Params)
    requires ':' !in queryName && ':' !in other && other != queryName
    requires CacheKey(other, p) in c.entries
    ensures CacheKey(other, p) in ClearScoped(c, queryName).1.entries
  {
    ScopedToOneQuery(queryName, other, CacheKey(other, p));
  }

  // ---------------------------------------------------------------------
  // Required parameters.

  /** The names of required parameters the caller did not supply, in declaration order. */
  function MissingNames(ps: seq<QueryParameter>, params: Params): (r: seq<string>)
    ensures r == [] <==> forall i :: 0 <= i < |ps| && ps[i].required ==> OrderedDict.HasKey(params, ps[i].name)
  {
    if ps == [] then []
    else
      var rest := MissingNames(ps[1..], params);
      assert forall i :: 1 <= i < |ps| ==> ps[i] == ps[1..][i - 1];
      if ps[0].required && !OrderedDict.HasKey(params, ps[0].name) then [ps[0].name] + rest else rest
  }

  /** The missing names of a non-empty list: the first parameter's name when it is missing, then the rest's. */
  lemma MissingNamesUnfold(ps: seq<QueryParameter>, params: Params)
    requires ps != []
    ensures MissingNames(ps, params) ==
              (if ps[0].required && !OrderedDict.HasKey(params, ps[0].name) then [ps[0].name] else [])
              + MissingNames(ps[1..], params)
  {
  }

  /** Position `k` of `front + rest`, for a front of at most one element, is in `rest` past the front. */
  lemma ShiftedIndex<T>(front: seq<T>, rest: seq<T>, k: nat)
    requires |front| <= k < |front + rest|
    ensures (front + rest)[k] == rest[k - |front|]
  {
  }

  /** A name is missing exactly when a required parameter has it and the caller did not supply it. */
  lemma {:induction false} MissingNamesMembers(ps: seq<QueryParameter>, params: Params, n: string)
    ensures n in MissingNames(ps, params) <==>
              !OrderedDict.HasKey(params, n) && exists i :: 0 <= i < |ps| && ps[i].required && ps[i].name == n
  {
    if ps != [] {
      MissingNamesUnfold(ps, params);
      MissingNamesMembers(ps[1..], params, n);
      if exists i :: 0 <= i < |ps| && ps[i].required && ps[i].name == n {
        var i :| 0 <= i < |ps| && ps[i].required && ps[i].name == n;
        if i > 0 {
          assert ps[1..][i - 1] == ps[i];
        }
      }
      if exists i :: 0 <= i < |ps[1..]| && ps[1..][i].required && ps[1..][i].name == n {
        var i :| 0 <= i < |ps[1..]| && ps[1..][i].required && ps[1..][i].name == n;
        assert ps[i + 1] == ps[1..][i];
      }
    }
  }

  /** Where a missing name is declared. */
  lemma {:induction false} MissingNameAt(ps: seq<QueryParameter>, params: Params, b: nat) returns (j: nat)
    requires b < |MissingNames(ps, params)|
    ensures j < |ps| && ps[j].required && ps[j].name == MissingNames(ps, params)[b]
  {
    MissingNamesUnfold(ps, params);
    var first := ps[0].required && !OrderedDict.HasKey(params, ps[0].name);
    var front: seq<string> := if first then [ps[0].name] else [];
    if first && b == 0 {
      j := 0;
    } else {
      ShiftedIndex(front, MissingNames(ps[1..], params), b);
      var j' := MissingNameAt(ps[1..], params, b - |front|);
      assert ps[j' + 1] == ps[1..][j'];
      j := j' + 1;
    }
  }

  /**
   * The missing names keep the declaration order: of two listed names, the
   * earlier one is declared before the later one.
   */
  lemma {:induction false} MissingNamesInOrder(ps: seq<QueryParameter>, params: Params, a: nat, b: nat)
    returns (i: nat, j: nat)
    requires a < b < |MissingNames(ps, params)|
    ensures i < j < |ps| && ps[i].required && ps[j].required
    ensures ps[i].name == MissingNames(ps, params)[a] && ps[j].name == MissingNames(ps, params)[b]
  {
    MissingNamesUnfold(ps, params);
    var first := ps[0].required && !OrderedDict.HasKey(params, ps[0].name);
    var front: seq<string> := if first then [ps[0].name] else [];
    var rest := MissingNames(ps[1..], params);
    ShiftedIndex(front, rest, b);
    if first && a == 0 {
      i := 0;
      var j' := MissingNameAt(ps[1..], params, b - 1);
      assert ps[j' + 1] == ps[1..][j'];
      j := j' + 1;
    } else {
      ShiftedIndex(front, rest, a);
      var i', j' := MissingNamesInOrder(ps[1..], params, a - |front|, b - |front|);
      assert ps[i' + 1] == ps[1..][i'] && ps[j' + 1] == ps[1..][j'];
      i, j := i' + 1, j' + 1;
    }
  }

  const MISSING_PREFIX := "Missing required parameters: "

  /** `_validate_parameters`: no message exactly when every required parameter is supplied. */
  function ValidateParameters(def: QueryDefinition, params: Params): (r: Option<string>)
    ensures r.None? <==>
              forall i :: 0 <= i < |def.parameters| && def.parameters[i].required ==>
                OrderedDict.HasKey(params, def.parameters[i].name)
    ensures r.Some? ==> IsPrefix(MISSING_PREFIX, r.value)
    ensures r.Some? ==> forall n :: n in MissingNames(def.parameters, params) ==> Contains(r.value, n)
    ensures r.Some? ==>
              r.value == MISSING_PREFIX + Join(", ", MissingNames(def.parameters, params)) + ". " + def.description
    ensures r.Some? ==> IsSuffix(". " + def.description, r.value)
  {
    var missing := MissingNames(def.parameters, params);
    if missing == [] then None
    else
      MissingMessageNames(missing, def.description);
      Some(MissingMessage(missing, def.description))
  }

  /** The message naming the missing parameters, then the query's description. */
  function MissingMessage(missing: seq<string>, description: string): string {
    MISSING_PREFIX + Join(", ", missing) + ". " + description
  }

  /** The message starts with its prefix, names every missing parameter, and ends with the description. */
  lemma MissingMessageNames(missing: seq<string>, description: string)
    ensures IsPrefix(MISSING_PREFIX, MissingMessage(missing, description))
    ensures forall n :: n in missing ==> Contains(MissingMessage(missing, description), n)
    ensures IsSuffix(". " + description, MissingMessage(missing, description))
  {
    var list := Join(", ", missing);
    var msg := MissingMessage(missing, description);
    AppendAssoc(MISSING_PREFIX + list, ". ", description);
    AppendSlices(MISSING_PREFIX + list, ". " + description);
    AppendSlices(MISSING_PREFIX, list + ". " + description);
    AppendAssoc(MISSING_PREFIX, list + ". ", description);
    AppendAssoc(MISSING_PREFIX, list, ". ");
    forall n | n in missing ensures Contains(msg, n) {
      var i :| 0 <= i < |missing| && missing[i] == n;
      JoinContains(", ", missing, i);
      ContainsWithin(MISSING_PREFIX, list, ". " + description, n);
    }
  }

  // ---------------------------------------------------------------------
  // Placeholder binding.

  function PlaceholderMismatch(def: QueryDefinition): string {
    "Query '" + def.name + "': SQL has " + NatToString(Count(def.sql, '?')) + " placeholders but "
      + NatToString(|def.parameters|) + " parameters defined. "
      + "Each parameter should have exactly one placeholder (?)."
  }

  /** One value per declared parameter, in declaration order, when the `?` count matches. */
  function Bind(def: QueryDefinition, params: Params): (r: Result<seq<Option<string>>, string>)
    ensures r.Ok? <==> Count(def.sql, '?') == |def.parameters|
    ensures r.Ok? ==> |r.value| == |def.parameters|
    ensures r.Ok? ==> forall i :: 0 <= i < |def.parameters| ==> r.value[i] == OrderedDict.Get(params, def.parameters[i].name)
    ensures r.Err? ==> r.error == PlaceholderMismatch(def)
  {
    var n := Count(def.sql, '?');
    if n == 0 && |def.parameters| == 0 then Ok([])
    else if n == |def.parameters| then
      Ok(seq(|def.parameters|, i requires 0 <= i < |def.parameters| => OrderedDict.Get(params, def.parameters[i].name)))
    else Err(PlaceholderMismatch(def))
  }

  // ---------------------------------------------------------------------
  // Database names and connection strings.

  predicate IsIdentChar(c: char) {
    'a' <= c <= 'z' || 'A' <= c <= 'Z' || '0' <= c <= '9' || c == '_'
  }

  predicate AllIdent(s: string) {
    forall i :: 0 <= i < |s| ==> IsIdentChar(s[i])
  }

  /**
   * The name check as written: `re.match` with `^…+$`, where `$` also
   * matches just before a newline that ends the string.
   */
  predicate AllowListAsWritten(s: string) {
    (s != [] && AllIdent(s)) || (|s| >= 2 && s[|s| - 1] == '\n' && AllIdent(s[..|s| - 1]))
  }

  /** The intended check: one or more letters, digits or underscores and nothing else. */
  predicate SafeDatabaseName(s: string) {
    s != [] && AllIdent(s)
  }

  /** The check as written lets a name with a trailing newline through. */
  lemma AllowListAdmitsTrailingNewline()
    ensures AllowListAsWritten("db\n") && !SafeDatabaseName("db\n")
    ensures '\n' in WithDatabase("Driver=x", "db\n")
  {
    assert !IsIdentChar("db\n"[2]);
    assert "db\n"[..2] == "db";
    assert WithDatabase("Driver=x", "db\n")[20] == '\n';
  }

  /** The corrected check is the written one minus exactly the names holding a newline. */
  lemma SafeDatabaseNameIsAllowListWithoutNewline(s: string)
    ensures SafeDatabaseName(s) <==> AllowListAsWritten(s) && '\n' !in s
  {
  }

  /** A name that passes the corrected check cannot add a key or a line to the connection string. */
  lemma SafeNameAddsOnlyItself(cs: string, db: string)
    requires SafeDatabaseName(db)
    ensures var r := WithDatabase(cs, db);
            r == cs || (r == cs + ";Database=" + db && ';' !in db && '=' !in db && '\n' !in db)
  {
  }

  const DATABASE_KEY := "Database="

  /** Appends `;Database=<db>` unless the string already names a database or `db` is empty. */
  function WithDatabase(cs: string, db: string): (r: string)
    ensures IsPrefix(cs, r)
    ensures db != "" ==> Contains(r, DATABASE_KEY)
    ensures Contains(cs, DATABASE_KEY) || db == "" ==> r == cs
  {
    if !Contains(cs, DATABASE_KEY) && db != "" then
      var r := cs + ";" + DATABASE_KEY + db;
      assert r[..|cs|] == cs;
      assert r[|cs| + 1..][..|DATABASE_KEY|] == DATABASE_KEY;
      assert IsPrefix(DATABASE_KEY, r[|cs| + 1..]);
      r
    else cs
  }

  /** Rewriting twice is rewriting once. */
  lemma WithDatabaseIdempotent(cs: string, db: string)
    ensures WithDatabase(WithDatabase(cs, db), db) == WithDatabase(cs, db)
  {
  }

  /** `os.getenv(key)` treated as absent when unset or empty. */
  function ConnectionString(env: map<string, string>, credKey: string): (r: Option<string>)
    ensures r.Some? <==> credKey in env && env[credKey] != ""
    ensures r.Some? ==> r.value == env[credKey]
  {
    if credKey in env && env[credKey] != "" then Some(env[credKey]) else None
  }

  function InvalidDatabase(database: string): string {
    "Invalid database name '" + database + "': must contain only alphanumeric characters and underscores"
  }

  function NoConnectionString(credKey: string): string {
    "Connection string not found in environment: " + credKey
  }

  // ---------------------------------------------------------------------
  // The driver, as an oracle.

  /** An open connection handle. */
  type Conn = nat

  /** What a cursor yields: column names, then the rows' values by position. */
  datatype Fetched = Fetched(columns: seq<string>, rows: seq<seq<SqlValue>>)

  /**
   * `NoDriver` when the ODBC module is missing. Otherwise the answers of
   * connecting to a connection string, of the `SELECT 1` liveness probe on
   * a connection, and of running a statement with bound values.
   */
  datatype Driver =
    | NoDriver
    | Odbc(connect: string -> Result<Conn, string>,
           alive: Conn -> bool,
           run: (Conn, string, seq<Option<string>>) -> Result<Fetched, string>)

  const NO_DRIVER := "pyodbc not installed - cannot execute SQL queries"

  /** Every row has a value for every column. */
  predicate WellShaped(f: Fetched) {
    forall i :: 0 <= i < |f.rows| ==> |f.rows[i]| >= |f.columns|
  }

  /** A driver whose cursors return rows as wide as their column list. */
  ghost predicate Behaves(d: Driver) {
    d.Odbc? ==> forall c, sql, b :: d.run(c, sql, b).Ok? ==> WellShaped(d.run(c, sql, b).value)
  }

  /**
   * `_get_connection`: validates the name, reads the connection string,
   * then reuses a live cached connection or opens (and records) a new one.
   */
  function Acquire(conns: map<string, Conn>, database: string, credKey: string,
                   env: map<string, string>, driver: Driver): (r: (Result<Conn, string>, map<string, Conn>))
    requires driver.Odbc?
    ensures !SafeDatabaseName(database) ==> r == (Err(InvalidDatabase(database)), conns)
    ensures SafeDatabaseName(database) && ConnectionString(env, credKey).None? ==>
              r == (Err(NoConnectionString(credKey)), conns)
    ensures r.0.Ok? ==> SafeDatabaseName(database) && database in r.1 && r.1[database] == r.0.value
    ensures r.0.Err? ==> r.1 == conns
    ensures forall d :: d != database ==> (d in r.1 <==> d in conns) && (d in conns ==> r.1[d] == conns[d])
    ensures r.0.Ok? && database in conns && driver.alive(conns[database]) ==> r == (Ok(conns[database]), conns)
    ensures r.0.Ok? && !(database in conns && driver.alive(conns[database])) ==>
              r.0 == driver.connect(WithDatabase(ConnectionString(env, credKey).value, database))
  {
    if !SafeDatabaseName(database) then (Err(InvalidDatabase(database)), conns)
    else match ConnectionString(env, credKey)
      case None => (Err(NoConnectionString(credKey)), conns)
      case Some(raw) =>
        var cs := WithDatabase(raw, database);
        if database in conns && driver.alive(conns[database]) then (Ok(conns[database]), conns)
        else match driver.connect(cs)
          case Ok(c) => (Ok(c), conns[database := c])
          case Err(e) => (Err(e), conns)
  }

  // ---------------------------------------------------------------------
  // Row normalisation.

  /** Datetimes become their ISO text; every other value is kept. */
  function Normalise(v: SqlValue): (w: SqlValue)
    ensures !w.SqlDateTime?
    ensures !v.SqlDateTime? ==> w == v
    ensures v.SqlDateTime? ==> w == SqlText(v.iso)
  {
    if v.SqlDateTime? then SqlText(v.iso) else v
  }

  /** The assignments `dict(zip(columns, row))` makes, each value normalised. */
  function RowPairs(columns: seq<string>, cells: seq<SqlValue>): (ps: seq<(string, SqlValue)>)
    requires |cells| >= |columns|
    ensures |ps| == |columns|
    ensures forall i :: 0 <= i < |columns| ==> ps[i] == (columns[i], Normalise(cells[i]))
  {
    seq(|columns|, i requires 0 <= i < |columns| => (columns[i], Normalise(cells[i])))
  }

  /** The row dict: each column assigned in turn. */
  function RowOf(columns: seq<string>, cells: seq<SqlValue>): Row
    requires |cells| >= |columns|
  {
    OrderedDict.PutAll([], RowPairs(columns, cells))
  }

  /** A converted row is a dict with no key twice. */
  lemma RowOfValid(columns: seq<string>, cells: seq<SqlValue>)
    requires |cells| >= |columns|
    ensures OrderedDict.Valid(RowOf(columns, cells))
  {
    OrderedDict.PutAllValid([], RowPairs(columns, cells));
  }

  /** The row has a key for each column and no other. */
  lemma RowOfKeys(columns: seq<string>, cells: seq<SqlValue>, c: string)
    requires |cells| >= |columns|
    ensures OrderedDict.HasKey(RowOf(columns, cells), c) <==> c in columns
  {
    var ps := RowPairs(columns, cells);
    OrderedDict.PutAllHasKey(ps, c);
    if c in columns {
      var m :| 0 <= m < |columns| && columns[m] == c;
      assert ps[m].0 == c;
    }
  }

  /** A column's value is the one from its last position: later duplicates overwrite earlier ones. */
  lemma RowOfLastWins(columns: seq<string>, cells: seq<SqlValue>, j: nat)
    requires |cells| >= |columns| && j < |columns|
    requires forall m :: j < m < |columns| ==> columns[m] != columns[j]
    ensures OrderedDict.Get(RowOf(columns, cells), columns[j]) == Some(Normalise(cells[j]))
  {
    var ps := RowPairs(columns, cells);
    OrderedDict.GetPutAll([], ps, columns[j]);
    OrderedDict.LastBindingAt(ps, j);
  }

  /** The rows of a fetch as dicts. */
  function NormalisedRows(f: Fetched): (rows: seq<Row>)
    requires WellShaped(f)
    ensures |rows| == |f.rows|
  {
    seq(|f.rows|, i requires 0 <= i < |f.rows| => RowOf(f.columns, f.rows[i]))
  }

  /** The inner conversion loop of `_execute_sql`: one row tuple to a dict. */
  method ConvertRow(columns: seq<string>, cells: seq<SqlValue>) returns (row: Row)
    requires |cells| >= |columns|
    ensures row == RowOf(columns, cells)
  {
    ghost var ps := RowPairs(columns, cells);
    row := [];
    var i := 0;
    while i < |columns|
      invariant 0 <= i <= |columns|
      invariant row == OrderedDict.PutAll([], ps[..i])
    {
      var value := cells[i];
      if value.SqlDateTime? {
        value := SqlText(value.iso);
      }
      OrderedDict.PutAllPrefix([], ps, i);
      row := OrderedDict.Put(row, columns[i], value);
      i := i + 1;
    }
    assert ps[..i] == ps;
  }

  /** The conversion loop of `_execute_sql`: every fetched row, in order. */
  method ConvertRows(f: Fetched) returns (rows: seq<Row>)
    requires WellShaped(f)
    ensures rows == NormalisedRows(f)
  {
    ghost var all := NormalisedRows(f);
    rows := [];
    var n := 0;
    while n < |f.rows|
      invariant 0 <= n <= |f.rows|
      invariant rows == all[..n]
    {
      var row := ConvertRow(f.columns, f.rows[n]);
      Text.PrefixStep(rows, all, n, row);
      rows := rows + [row];
      n := n + 1;
    }
    assert all[..n] == all;
  }

  // ---------------------------------------------------------------------
  // Running a statement.

  /** `_execute_sql`: the rows, or the message of the exception raised, and the connections after. */
  function RunSql(conns: map<string, Conn>, def: QueryDefinition, params: Params,
                  driver: Driver, env: map<string, string>): (r: (Result<seq<Row>, string>, map<string, Conn>))
    requires Behaves(driver)
    ensures driver.NoDriver? ==> r == (Err(NO_DRIVER), conns)
    ensures driver.Odbc? ==> r.1 == Acquire(conns, def.database, def.credentialsEnvKey, env, driver).1
    ensures r.0.Ok? ==> driver.Odbc? && Acquire(conns, def.database, def.credentialsEnvKey, env, driver).0.Ok?
    ensures r.0.Ok? ==> Bind(def, params).Ok?
    ensures (driver.Odbc? && Acquire(conns, def.database, def.credentialsEnvKey, env, driver).0.Ok?
             && Bind(def, params).Err?) ==> r.0 == Err(PlaceholderMismatch(def))
  {
    if driver.NoDriver? then (Err(NO_DRIVER), conns)
    else
      var acquired := Acquire(conns, def.database, def.credentialsEnvKey, env, driver);
      if acquired.0.Err? then (Err(acquired.0.error), acquired.1)
      else match Bind(def, params)
        case Err(e) => (Err(e), acquired.1)
        case Ok(values) =>
          match driver.run(acquired.0.value, def.sql, values)
          case Err(e) => (Err(e), acquired.1)
          case Ok(f) => (Ok(NormalisedRows(f)), acquired.1)
  }

  // ---------------------------------------------------------------------
  // `execute` as a function of the engine's state.

  /** Everything `execute` reads and changes besides its arguments. */
  datatype Engine = Engine(cache: CacheState, conns: map<string, Conn>)

  /** The clock readings of one call: cache probe, cache store, elapsed run time, creation stamp. */
  datatype Clock = Clock(probeAt: int, storedAt: int, elapsed: int, executedAt: string)

  const VALIDATION_ERROR := "VALIDATION_ERROR"
  const EXECUTION_ERROR := "EXECUTION_ERROR"
  const FAILED_PREFIX := "Query execution failed: "
  const FROM_CACHE := "from_cache"

  function HitMetadata(e: Entry): Metadata {
    [(FROM_CACHE, MBool(true)), ("cached_at", MInt(e.timestamp))]
  }

  function RunMetadata(rowCount: nat, elapsed: int): Metadata {
    [("row_count", MInt(rowCount)), ("execution_time_seconds", MInt(elapsed)), (FROM_CACHE, MBool(false))]
  }

  /** `rows if rows else None`. */
  function DataOf(rows: seq<Row>): (d: Option<seq<Row>>)
    ensures d.None? <==> rows == []
    ensures d.Some? ==> d.value == rows
  {
    if rows == [] then None else Some(rows)
  }

  /**
   * `execute`: a live cache entry answers first; otherwise missing required
   * parameters fail validation; otherwise the statement runs, its failure
   * becomes an execution error, and its success is returned and, with a
   * positive TTL, cached.
   */
  function ExecuteSpec(e: Engine, def: QueryDefinition, params: Params, cid: string,
                       driver: Driver, env: map<string, string>, clk: Clock): (out: (QueryResult, Engine))
    requires Behaves(driver)
    ensures out.0.correlationId == Some(cid)
    ensures OrderedDict.HasKey(out.0.metadata, EXECUTED_AT)
    ensures out.0.success <==> out.0.errorCode.None?
    ensures !out.0.success ==> out.0.errorCode == Some(VALIDATION_ERROR) || out.0.errorCode == Some(EXECUTION_ERROR)
    ensures !out.0.success ==> out.0.error.Some? && out.0.data.None?
  {
    var key := CacheKey(def.name, params);
    var probe := Probe(e.cache, key, def.cacheTtlSeconds, clk.probeAt);
    if probe.0.Some? then
      (NewResult(true, probe.0.value.data, None, None, HitMetadata(probe.0.value), Some(cid), clk.executedAt),
       Engine(probe.1, e.conns))
    else
      var invalid := ValidateParameters(def, params);
      if invalid.Some? then
        (NewResult(false, None, invalid, Some(VALIDATION_ERROR), [], Some(cid), clk.executedAt),
         Engine(probe.1, e.conns))
      else
        var run := RunSql(e.conns, def, params, driver, env);
        if run.0.Err? then
          (NewResult(false, None, Some(FAILED_PREFIX + run.0.error), Some(EXECUTION_ERROR), [], Some(cid), clk.executedAt),
           Engine(probe.1, run.1))
        else
          var data := DataOf(run.0.value);
          var cache := if def.cacheTtlSeconds > 0 then Store(probe.1, key, data, clk.storedAt) else probe.1;
          (NewResult(true, data, None, None, RunMetadata(|run.0.value|, clk.elapsed), Some(cid), clk.executedAt),
           Engine(cache, run.1))
  }

  /** `execute` keeps the cache invariant. */
  lemma ExecuteKeepsInv(e: Engine, def: QueryDefinition, params: Params, cid: string,
                        driver: Driver, env: map<string, string>, clk: Clock)
    requires Behaves(driver) && CacheInv(e.cache)
    ensures CacheInv(ExecuteSpec(e, def, params, cid, driver, env, clk).1.cache)
  {
    var key := CacheKey(def.name, params);
    ProbeKeepsInv(e.cache, key, def.cacheTtlSeconds, clk.probeAt);
    var probe := Probe(e.cache, key, def.cacheTtlSeconds, clk.probeAt);
    var c := ExecuteSpec(e, def, params, cid, driver, env, clk).1.cache;
    if probe.0.Some? || ValidateParameters(def, params).Some? {
      assert c == probe.1;
    } else {
      var run := RunSql(e.conns, def, params, driver, env);
      if run.0.Err? || def.cacheTtlSeconds <= 0 {
        assert c == probe.1;
      } else {
        StoreKeepsInv(probe.1, key, DataOf(run.0.value), clk.storedAt);
        assert c == Store(probe.1, key, DataOf(run.0.value), clk.storedAt);
      }
    }
  }

  /** A cache hit answers from the cache and touches no connection. */
  lemma ExecuteHit(e: Engine, def: QueryDefinition, params: Params, cid: string,
                   driver: Driver, env: map<string, string>, clk: Clock)
    requires Behaves(driver)
    requires var key := CacheKey(def.name, params);
             def.cacheTtlSeconds > 0 && key in e.cache.entries
             && clk.probeAt - e.cache.entries[key].timestamp < def.cacheTtlSeconds
    ensures var out := ExecuteSpec(e, def, params, cid, driver, env, clk);
            var entry := e.cache.entries[CacheKey(def.name, params)];
            && out.0.success && out.0.data == entry.data && out.1 == e
            && OrderedDict.Get(out.0.metadata, FROM_CACHE) == Some(MBool(true))
            && OrderedDict.Get(out.0.metadata, "cached_at") == Some(MInt(entry.timestamp))
  {
    var entry := e.cache.entries[CacheKey(def.name, params)];
    assert OrderedDict.Get(HitMetadata(entry), FROM_CACHE) == Some(MBool(true)) by {
      assert HitMetadata(entry)[0].0 == FROM_CACHE;
    }
    assert OrderedDict.Get(HitMetadata(entry), "cached_at") == Some(MInt(entry.timestamp)) by {
      assert HitMetadata(entry)[1].0 == "cached_at";
    }
  }

  /** Without a live entry, a missing required parameter fails validation before any connection is made. */
  lemma ExecuteMissingParameter(e: Engine, def: QueryDefinition, params: Params, cid: string,
                                driver: Driver, env: map<string, string>, clk: Clock, i: nat)
    requires Behaves(driver)
    requires Probe(e.cache, CacheKey(def.name, params), def.cacheTtlSeconds, clk.probeAt).0.None?
    requires i < |def.parameters| && def.parameters[i].required && !OrderedDict.HasKey(params, def.parameters[i].name)
    ensures var out := ExecuteSpec(e, def, params, cid, driver, env, clk);
            && !out.0.success && out.0.errorCode == Some(VALIDATION_ERROR)
            && Contains(out.0.error.value, def.parameters[i].name)
            && out.1.conns == e.conns
  {
    MissingNamesMembers(def.parameters, params, def.parameters[i].name);
  }

  /** A placeholder count that differs from the parameter count is an execution error naming both counts. */
  lemma ExecutePlaceholderMismatch(e: Engine, def: QueryDefinition, params: Params, cid: string,
                                   driver: Driver, env: map<string, string>, clk: Clock)
    requires Behaves(driver) && driver.Odbc?
    requires Probe(e.cache, CacheKey(def.name, params), def.cacheTtlSeconds, clk.probeAt).0.None?
    requires ValidateParameters(def, params).None?
    requires Acquire(e.conns, def.database, def.credentialsEnvKey, env, driver).0.Ok?
    requires Count(def.sql, '?') != |def.parameters|
    ensures var out := ExecuteSpec(e, def, params, cid, driver, env, clk);
            && !out.0.success && out.0.errorCode == Some(EXECUTION_ERROR)
            && out.0.error == Some(FAILED_PREFIX + PlaceholderMismatch(def))
  {
    assert Bind(def, params).Err?;
    assert RunSql(e.conns, def, params, driver, env).0 == Err(PlaceholderMismatch(def));
  }

  /**
   * Without a live entry and with every required parameter supplied, any
   * failure of the run is an execution error carrying the prefixed message,
   * and nothing is cached.
   */
  lemma ExecuteRunFails(e: Engine, def: QueryDefinition, params: Params, cid: string,
                        driver: Driver, env: map<string, string>, clk: Clock)
    requires Behaves(driver)
    requires Probe(e.cache, CacheKey(def.name, params), def.cacheTtlSeconds, clk.probeAt).0.None?
    requires ValidateParameters(def, params).None?
    requires RunSql(e.conns, def, params, driver, env).0.Err?
    ensures var out := ExecuteSpec(e, def, params, cid, driver, env, clk);
            var run := RunSql(e.conns, def, params, driver, env);
            && !out.0.success && out.0.data.None?
            && out.0.errorCode == Some(EXECUTION_ERROR)
            && out.0.error == Some(FAILED_PREFIX + run.0.error)
            && out.1 == Engine(Probe(e.cache, CacheKey(def.name, params), def.cacheTtlSeconds, clk.probeAt).1, run.1)
  {
  }

  /**
   * Without a live entry and with every required parameter supplied, a
   * successful run answers `rows or None` with its row count and
   * `from_cache` false, and caches that answer exactly when the TTL is
   * positive.
   */
  lemma ExecuteRunSucceeds(e: Engine, def: QueryDefinition, params: Params, cid: string,
                           driver: Driver, env: map<string, string>, clk: Clock)
    requires Behaves(driver)
    requires Probe(e.cache, CacheKey(def.name, params), def.cacheTtlSeconds, clk.probeAt).0.None?
    requires ValidateParameters(def, params).None?
    requires RunSql(e.conns, def, params, driver, env).0.Ok?
    ensures var out := ExecuteSpec(e, def, params, cid, driver, env, clk);
            var run := RunSql(e.conns, def, params, driver, env);
            var rows := run.0.value;
            var key := CacheKey(def.name, params);
            var probed := Probe(e.cache, key, def.cacheTtlSeconds, clk.probeAt).1;
            && out.0.success && out.0.error.None? && out.0.errorCode.None?
            && out.0.data == DataOf(rows)
            && OrderedDict.Get(out.0.metadata, "row_count") == Some(MInt(|rows|))
            && OrderedDict.Get(out.0.metadata, FROM_CACHE) == Some(MBool(false))
            && out.1 == Engine(if def.cacheTtlSeconds > 0 then Store(probed, key, DataOf(rows), clk.storedAt) else probed,
                               run.1)
  {
    var rows := RunSql(e.conns, def, params, driver, env).0.value;
    var m := RunMetadata(|rows|, clk.elapsed);
    assert OrderedDict.Get(m, "row_count") == Some(MInt(|rows|)) by {
      assert m[0].0 == "row_count";
    }
    assert OrderedDict.Get(m, FROM_CACHE) == Some(MBool(false)) by {
      assert m[0].0 != FROM_CACHE && m[1].0 != FROM_CACHE && m[2].0 == FROM_CACHE;
    }
  }

  /**
   * Round trip: with a positive TTL, a fresh successful run followed by
   * a second call within the TTL is answered from the cache with the same
   * data, and the second call touches no connection.
   */
  lemma ExecuteThenHit(e: Engine, def: QueryDefinition, params: Params, cid1: string, cid2: string,
                       driver: Driver, env: map<string, string>, clk1: Clock, clk2: Clock)
    requires Behaves(driver) && def.cacheTtlSeconds > 0
    requires Probe(e.cache, CacheKey(def.name, params), def.cacheTtlSeconds, clk1.probeAt).0.None?
    requires ExecuteSpec(e, def, params, cid1, driver, env, clk1).0.success
    requires clk2.probeAt - clk1.storedAt < def.cacheTtlSeconds
    ensures var first := ExecuteSpec(e, def, params, cid1, driver, env, clk1);
            var second := ExecuteSpec(first.1, def, params, cid2, driver, env, clk2);
            && second.0.success && second.0.data == first.0.data
            && OrderedDict.Get(second.0.metadata, FROM_CACHE) == Some(MBool(true))
            && second.1 == first.1
  {
    var first := ExecuteSpec(e, def, params, cid1, driver, env, clk1);
    var key := CacheKey(def.name, params);
    assert key in first.1.cache.entries && first.1.cache.entries[key] == Entry(first.0.data, clk1.storedAt);
    ExecuteHit(first.1, def, params, cid2, driver, env, clk2);
  }

  // ---------------------------------------------------------------------
  // The executor object.

  class QueryExecutor {
    var cache: map<string, Entry>
    var cacheOrder: seq<string>
    var dbConnections: map<string, Conn>

    function State(): CacheState
      reads this
    {
      CacheState(cache, cacheOrder)
    }

    function Snapshot(): Engine
      reads this
    {
      Engine(State(), dbConnections)
    }

    ghost predicate Valid()
      reads this
    {
      CacheInv(State())
    }

    constructor()
      ensures Valid() && State() == EMPTY_CACHE && dbConnections == map[]
    {
      cache := map[];
      cacheOrder := [];
      dbConnections := map[];
    }

    /** `_check_cache`. */
    method CheckCache(key: string, ttl: int, now: int) returns (cached: Option<Entry>)
      requires Valid()
      modifies this
      ensures Valid()
      ensures (cached, State()) == Probe(old(State()), key, ttl, now)
      ensures dbConnections == old(dbConnections)
    {
      ProbeKeepsInv(State(), key, ttl, now);
      if ttl <= 0 {
        return None;
      }
      if key !in cache {
        return None;
      }
      var entry := cache[key];
      if now - entry.timestamp < ttl {
        return Some(entry);
      }
      cache := cache - {key};
      if key in cacheOrder {
        cacheOrder := RemoveFirst(cacheOrder, key);
      }
      return None;
    }

    /** `_cache_result`. */
    method CacheResult(key: string, data: Option<seq<Row>>, now: int)
      requires Valid()
      modifies this
      ensures Valid()
      ensures State() == Store(old(State()), key, data, now)
      ensures dbConnections == old(dbConnections)
    {
      StoreKeepsInv(State(), key, data, now);
      if |cache| >= MAX_CACHE_SIZE {
        if cacheOrder != [] {
          var oldest := cacheOrder[0];
          cacheOrder := cacheOrder[1..];
          if oldest in cache {
            cache := cache - {oldest};
          }
        }
      }
      assert State() == if |old(cache)| >= MAX_CACHE_SIZE && old(cacheOrder) != [] then
                          CacheState(old(cache) - {old(cacheOrder)[0]}, old(cacheOrder)[1..])
                        else old(State());
      cache := cache[key := Entry(data, now)];
      if key !in cacheOrder {
        cacheOrder := cacheOrder + [key];
      }
    }

    /** `clear_cache`: everything, or the entries of one query; returns how many went. */
    method ClearCache(queryName: Option<string>) returns (count: nat)
      requires Valid()
      modifies this
      ensures Valid()
      ensures queryName.None? ==> (count, State()) == ClearAll(old(State()))
      ensures queryName.Some? ==> (count, State()) == ClearScoped(old(State()), queryName.value)
      ensures dbConnections == old(dbConnections)
    {
      if queryName.None? {
        count := |cache|;
        cache := map[];
        cacheOrder := [];
        return;
      }
      ClearScopedKeepsInv(State(), queryName.value);
      var toRemove := Scope(State(), queryName.value);
      count := |toRemove|;
      RemoveKeys(toRemove);
    }

    /** The removal loop of `clear_cache(name)`. */
    method RemoveKeys(toRemove: set<string>)
      requires NoDup(cacheOrder)
      modifies this
      ensures cache == old(cache) - toRemove
      ensures cacheOrder == Without(old(cacheOrder), toRemove)
      ensures dbConnections == old(dbConnections)
    {
      var remaining := toRemove;
      ghost var gone: set<string> := {};
      WithoutAbsent(cacheOrder, {});
      while remaining != {}
        invariant remaining + gone == toRemove && remaining !! gone
        invariant cache == old(cache) - gone
        invariant cacheOrder == Without(old(cacheOrder), gone)
        invariant dbConnections == old(dbConnections)
        decreases remaining
      {
        var k :| k in remaining;
        MinusStep(old(cache), gone, k);
        WithoutWithout(old(cacheOrder), gone, {k});
        RemoveKey(k);
        remaining := remaining - {k};
        gone := gone + {k};
      }
    }

    /** One step of that loop: the key leaves the cache and, if listed, the order. */
    method RemoveKey(k: string)
      requires NoDup(cacheOrder)
      modifies this
      ensures cache == old(cache) - {k}
      ensures cacheOrder == Without(old(cacheOrder), {k})
      ensures dbConnections == old(dbConnections)
    {
      cache := cache - {k};
      if k in cacheOrder {
        cacheOrder := RemoveFirst(cacheOrder, k);
      } else {
        ElementsIn(cacheOrder, k);
        WithoutAbsent(cacheOrder, {k});
      }
    }

    /** `_get_connection`. */
    method GetConnection(database: string, credKey: string, env: map<string, string>, driver: Driver)
      returns (r: Result<Conn, string>)
      requires driver.Odbc?
      modifies this
      ensures (r, dbConnections) == Acquire(old(dbConnections), database, credKey, env, driver)
      ensures State() == old(State())
    {
      if !SafeDatabaseName(database) {
        return Err(InvalidDatabase(database));
      }
      var raw := ConnectionString(env, credKey);
      if raw.None? {
        return Err(NoConnectionString(credKey));
      }
      var cs := WithDatabase(raw.value, database);
      if database in dbConnections {
        var conn := dbConnections[database];
        if driver.alive(conn) {
          return Ok(conn);
        }
      }
      var made := driver.connect(cs);
      if made.Err? {
        return Err(made.error);
      }
      dbConnections := dbConnections[database := made.value];
      return Ok(made.value);
    }

    /** `_execute_sql`. */
    method ExecuteSql(def: QueryDefinition, params: Params, driver: Driver, env: map<string, string>)
      returns (r: Result<seq<Row>, string>)
      requires Behaves(driver)
      modifies this
      ensures (r, dbConnections) == RunSql(old(dbConnections), def, params, driver, env)
      ensures State() == old(State())
    {
      if driver.NoDriver? {
        return Err(NO_DRIVER);
      }
      var conn := GetConnection(def.database, def.credentialsEnvKey, env, driver);
      if conn.Err? {
        return Err(conn.error);
      }
      var values := Bind(def, params);
      if values.Err? {
        return Err(values.error);
      }
      var fetched := driver.run(conn.value, def.sql, values.value);
      if fetched.Err? {
        return Err(fetched.error);
      }
      var rows := ConvertRows(fetched.value);
      return Ok(rows);
    }

    /** `execute`; a missing context gets the fresh correlation id supplied. */
    method Execute(def: QueryDefinition, params: Params, context: Option<ExecutionContext>, freshId: string,
                   driver: Driver, env: map<string, string>, clk: Clock) returns (r: QueryResult)
      requires Valid() && Behaves(driver)
      modifies this
      ensures Valid()
      ensures var cid := if context.Some? then context.value.correlationId else freshId;
              (r, Snapshot()) == ExecuteSpec(old(Snapshot()), def, params, cid, driver, env, clk)
    {
      var cid := if context.Some? then context.value.correlationId else freshId;
      ghost var before := Snapshot();
      ExecuteKeepsInv(before, def, params, cid, driver, env, clk);
      var key := CacheKey(def.name, params);
      var cached := CheckCache(key, def.cacheTtlSeconds, clk.probeAt);
      if cached.Some? {
        return NewResult(true, cached.value.data, None, None, HitMetadata(cached.value), Some(cid), clk.executedAt);
      }
      var invalid := ValidateParameters(def, params);
      if invalid.Some? {
        return NewResult(false, None, invalid, Some(VALIDATION_ERROR), [], Some(cid), clk.executedAt);
      }
      var rows := ExecuteSql(def, params, driver, env);
      if rows.Err? {
        return NewResult(false, None, Some(FAILED_PREFIX + rows.error), Some(EXECUTION_ERROR), [], Some(cid), clk.executedAt);
      }
      var data := DataOf(rows.value);
      r := NewResult(true, data, None, None, RunMetadata(|rows.value|, clk.elapsed), Some(cid), clk.executedAt);
      if def.cacheTtlSeconds > 0 {
        CacheResult(key, data, clk.storedAt);
      }
    }

    /** `close_connections`: forgets every connection. */
    method CloseConnections()
      modifies this
      ensures dbConnections == map[]
      ensures State() == old(State())
    {
      dbConnections := map[];
    }
  }
}
