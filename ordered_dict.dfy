/**
 * Python's insertion-ordered `dict` with string keys, as a sequence of
 * (key, value) pairs. Assigning `d[k] = v` overwrites the value in place
 * when `k` is already a key and appends otherwise, so iteration order is
 * the order in which keys were first inserted.
 */
module OrderedDict {
  import opened Wrappers
  import Text

  type Dict<V> = seq<(string, V)>

  function Keys<V>(d: Dict<V>): (ks: seq<string>)
    ensures |ks| == |d| && forall i :: 0 <= i < |d| ==> ks[i] == d[i].0
  {
    seq(|d|, i requires 0 <= i < |d| => d[i].0)
  }

  function Values<V>(d: Dict<V>): (vs: seq<V>)
    ensures |vs| == |d| && forall i :: 0 <= i < |d| ==> vs[i] == d[i].1
  {
    seq(|d|, i requires 0 <= i < |d| => d[i].1)
  }

  /** The values of two runs of pairs, one after the other. */
  lemma ValuesAppend<V>(a: Dict<V>, b: Dict<V>)
    ensures Values(a + b) == Values(a) + Values(b)
  {
  }

  /** Taking the pair at `j` out takes its value out of the values. */
  lemma ValuesRemove<V>(b: Dict<V>, j: nat)
    requires j < |b|
    ensures multiset(b) == multiset{b[j]} + multiset(b[..j] + b[j + 1..])
    ensures multiset(Values(b)) == multiset{b[j].1} + multiset(Values(b[..j] + b[j + 1..]))
  {
    Text.MultisetRemove(b, j);
    var vs := Values(b);
    Text.MultisetRemove(vs, j);
    assert Values(b[..j] + b[j + 1..]) == vs[..j] + vs[j + 1..];
  }

  /** The first pair and the rest. */
  lemma ValuesHead<V>(a: Dict<V>)
    requires a != []
    ensures multiset(a) == multiset{a[0]} + multiset(a[1..])
    ensures multiset(Values(a)) == multiset{a[0].1} + multiset(Values(a[1..]))
  {
    ValuesRemove(a, 0);
    assert a[..0] + a[1..] == a[1..];
  }

  /** Reordering the pairs reorders their values: each value as many times. */
  lemma {:induction false} ValuesPermutation<V>(a: Dict<V>, b: Dict<V>)
    requires multiset(a) == multiset(b)
    ensures multiset(Values(a)) == multiset(Values(b))
    decreases |a|
  {
    if a == [] {
      assert |b| == |multiset(b)| == 0;
    } else {
      var x := a[0];
      assert x in multiset(b);
      var j :| 0 <= j < |b| && b[j] == x;
      var rest := b[..j] + b[j + 1..];
      ValuesRemove(b, j);
      ValuesHead(a);
      assert multiset{x} + multiset(a[1..]) == multiset{x} + multiset(rest);
      Text.MultisetCancel(x, multiset(a[1..]), multiset(rest));
      ValuesPermutation(a[1..], rest);
    }
  }

  predicate HasKey<V>(d: Dict<V>, k: string) {
    k in Keys(d)
  }

  /** A well-formed dict: no key twice. */
  predicate Valid<V>(d: Dict<V>) {
    Text.DistinctKeys(d)
  }

  /** The position of the first pair with key `k`. */
  function IndexOf<V>(d: Dict<V>, k: string): (i: nat)
    requires HasKey(d, k)
    ensures i < |d| && d[i].0 == k
    ensures forall j :: 0 <= j < i ==> d[j].0 != k
  {
    if d[0].0 == k then 0
    else
      assert k in Keys(d[1..]) by {
        var j :| 0 <= j < |d| && Keys(d)[j] == k;
        assert Keys(d[1..])[j - 1] == k;
      }
      1 + IndexOf(d[1..], k)
  }

  /** `d.get(k)`: the value stored under `k`, if any. */
  function Get<V>(d: Dict<V>, k: string): (r: Option<V>)
    ensures r.Some? <==> HasKey(d, k)
    ensures r.Some? ==> (k, r.value) in d
    ensures Valid(d) ==> forall i :: 0 <= i < |d| && d[i].0 == k ==> r == Some(d[i].1)
  {
    if HasKey(d, k) then
      var i := IndexOf(d, k);
      assert d[i] == (k, d[i].1);
      Some(d[i].1)
    else None
  }

  /** `d[k] = v`. */
  function Put<V>(d: Dict<V>, k: string, v: V): (r: Dict<V>)
    ensures Keys(r) == if HasKey(d, k) then Keys(d) else Keys(d) + [k]
    ensures Get(r, k) == Some(v)
  {
    if HasKey(d, k) then
      var i := IndexOf(d, k);
      var r := d[i := (k, v)];
      assert Keys(r) == Keys(d);
      assert IndexOf(r, k) == i;
      r
    else
      var r := d + [(k, v)];
      assert Keys(r) == Keys(d) + [k];
      assert r[IndexOf(r, k)] == (k, v);
      r
  }

  /** After `d[k] = v` the keys are the old keys plus `k`. */
  lemma PutHasKey<V>(d: Dict<V>, k: string, v: V, k': string)
    ensures HasKey(Put(d, k, v), k') <==> HasKey(d, k') || k' == k
  {
  }

  /** Every pair after `d[k] = v` is the new binding or the pair `d` had at that place. */
  lemma PutPairs<V>(d: Dict<V>, k: string, v: V)
    ensures forall i :: 0 <= i < |Put(d, k, v)| ==> Put(d, k, v)[i] == (k, v) || (i < |d| && Put(d, k, v)[i] == d[i])
  {
    if HasKey(d, k) {
      assert Put(d, k, v) == d[IndexOf(d, k) := (k, v)];
    } else {
      assert Put(d, k, v) == d + [(k, v)];
    }
  }

  /** `d[k] = v` leaves every other key's value as it was. */
  lemma PutOther<V>(d: Dict<V>, k: string, v: V, k': string)
    requires k' != k
    ensures Get(Put(d, k, v), k') == Get(d, k')
  {
    var r := Put(d, k, v);
    PutHasKey(d, k, v, k');
    if HasKey(d, k') {
      var i := IndexOf(d, k');
      if HasKey(d, k) {
        assert r == d[IndexOf(d, k) := (k, v)];
      } else {
        assert r == d + [(k, v)];
      }
      assert r[i] == d[i] && forall j :: 0 <= j < i ==> r[j].0 == d[j].0;
      FirstIndex(r, k', i);
    }
  }

  /** An index holding `k` with no `k` before it is where `k` is found. */
  lemma FirstIndex<V>(d: Dict<V>, k: string, i: nat)
    requires i < |d| && d[i].0 == k && forall j :: 0 <= j < i ==> d[j].0 != k
    ensures HasKey(d, k) && IndexOf(d, k) == i
  {
    assert Keys(d)[i] == k;
  }

  /** `d[k] = v` never introduces a second copy of a key. */
  lemma PutValid<V>(d: Dict<V>, k: string, v: V)
    requires Valid(d)
    ensures Valid(Put(d, k, v))
  {
    var r := Put(d, k, v);
    var ks := Keys(r);
    forall i, j | 0 <= i < j < |r| ensures r[i].0 != r[j].0 {
      assert ks[i] == r[i].0 && ks[j] == r[j].0;
      if !HasKey(d, k) && j == |d| {
        assert ks[j] == k;
        assert ks[i] == Keys(d)[i];
      } else {
        assert ks[i] == Keys(d)[i] && ks[j] == Keys(d)[j];
      }
    }
  }

  /** Assigning every pair of `ps` in order, as a loop of `d[k] = v` does. */
  function PutAll<V>(d: Dict<V>, ps: seq<(string, V)>): Dict<V>
    decreases |ps|
  {
    if ps == [] then d
    else Put(PutAll(d, ps[..|ps| - 1]), ps[|ps| - 1].0, ps[|ps| - 1].1)
  }

  /** The assignments never introduce a second copy of a key. */
  lemma {:induction false} PutAllValid<V>(d: Dict<V>, ps: seq<(string, V)>)
    requires Valid(d)
    ensures Valid(PutAll(d, ps))
    decreases |ps|
  {
    if ps != [] {
      PutAllValid(d, ps[..|ps| - 1]);
      PutValid(PutAll(d, ps[..|ps| - 1]), ps[|ps| - 1].0, ps[|ps| - 1].1);
    }
  }

  /** The value the last pair with key `k` carries: the reference for "a later assignment wins". */
  function LastBinding<V>(ps: seq<(string, V)>, k: string): (r: Option<V>)
    ensures r.None? <==> forall i :: 0 <= i < |ps| ==> ps[i].0 != k
    ensures r.Some? ==> exists i :: 0 <= i < |ps| && ps[i] == (k, r.value) && forall j :: i < j < |ps| ==> ps[j].0 != k
    decreases |ps|
  {
    if ps == [] then None
    else if ps[|ps| - 1].0 == k then Some(ps[|ps| - 1].1)
    else
      var r := LastBinding(ps[..|ps| - 1], k);
      Text.FrontIndex(ps);
      r
  }

  /** The assignments one pair at a time. */
  lemma PutAllPrefix<V>(d: Dict<V>, ps: seq<(string, V)>, i: nat)
    requires i < |ps|
    ensures PutAll(d, ps[..i + 1]) == Put(PutAll(d, ps[..i]), ps[i].0, ps[i].1)
  {
    assert ps[..i + 1][..i] == ps[..i];
  }

  /** Two runs of assignments, one after the other. */
  lemma {:induction false} PutAllAppend<V>(d: Dict<V>, a: seq<(string, V)>, b: seq<(string, V)>)
    ensures PutAll(d, a + b) == PutAll(PutAll(d, a), b)
    decreases |b|
  {
    if b == [] {
      assert a + b == a;
    } else {
      var b' := b[..|b| - 1];
      assert (a + b)[..|a + b| - 1] == a + b';
      PutAllAppend(d, a, b');
    }
  }

  /** After the assignments, `k` holds the value of its last pair, or what it held before. */
  lemma {:induction false} GetPutAll<V>(d: Dict<V>, ps: seq<(string, V)>, k: string)
    ensures Get(PutAll(d, ps), k) == if LastBinding(ps, k).Some? then LastBinding(ps, k) else Get(d, k)
    decreases |ps|
  {
    if ps != [] {
      var front := ps[..|ps| - 1];
      var (k', v) := ps[|ps| - 1];
      GetPutAll(d, front, k);
      if k' != k {
        PutOther(PutAll(d, front), k', v, k);
      }
    }
  }

  /** The last pair with a key is the one no later pair shares its key with. */
  lemma LastBindingAt<V>(ps: seq<(string, V)>, j: nat)
    requires j < |ps| && forall m :: j < m < |ps| ==> ps[m].0 != ps[j].0
    ensures LastBinding(ps, ps[j].0) == Some(ps[j].1)
  {
    var k := ps[j].0;
    var r := LastBinding(ps, k);
    var i :| 0 <= i < |ps| && ps[i] == (k, r.value) && forall m :: i < m < |ps| ==> ps[m].0 != k;
    assert i == j;
  }

  /** Assigning pairs to an empty dict gives exactly their keys. */
  lemma PutAllHasKey<V>(ps: seq<(string, V)>, k: string)
    ensures HasKey(PutAll([], ps), k) <==> exists i :: 0 <= i < |ps| && ps[i].0 == k
  {
    GetPutAll([], ps, k);
  }

  /** `PutAllHasKey` for every key at once. */
  lemma PutAllKeys<V>(ps: seq<(string, V)>)
    ensures forall k :: HasKey(PutAll([], ps), k) <==> exists i :: 0 <= i < |ps| && ps[i].0 == k
  {
    forall k {
      PutAllHasKey(ps, k);
    }
  }

  /** Assigning pairs with distinct keys to an empty dict keeps their order. */
  lemma {:induction false} PutAllDistinctKeys<V>(ps: seq<(string, V)>)
    requires Text.DistinctKeys(ps)
    ensures Keys(PutAll([], ps)) == Keys(ps)
    decreases |ps|
  {
    if ps != [] {
      var front := ps[..|ps| - 1];
      var k := ps[|ps| - 1].0;
      PutAllDistinctKeys(front);
      assert !HasKey(PutAll([], front), k) by {
        assert forall j :: 0 <= j < |front| ==> Keys(front)[j] == ps[j].0;
      }
      assert Keys(ps) == Keys(front) + [k];
    }
  }
}
