/** Append-only buckets keyed by surface form: the `data[key].append(entry)`
    pattern (a `defaultdict(list)`, a JS object of arrays or a JS `Map`) shared
    by every headword-indexing loop of the pipeline. A missing key reads as the
    empty bucket, which is what `defaultdict(list)` and "create if absent" give. */
module Buckets {

  function Lookup<V>(m: map<string, seq<V>>, k: string): seq<V>
  {
    if k in m then m[k] else []
  }

  /** `n` copies of `v`. */
  function Repeat<V>(v: V, n: nat): (r: seq<V>)
    ensures |r| == n && forall i :: 0 <= i < n ==> r[i] == v
  {
    if n == 0 then [] else Repeat(v, n - 1) + [v]
  }

  /** How many times `k` occurs in `ks`. */
  function Count(ks: seq<string>, k: string): nat
  {
    if ks == [] then 0 else Count(ks[..|ks| - 1], k) + (if ks[|ks| - 1] == k then 1 else 0)
  }

  /** `for key in keys: m[key].append(v)`: one append per occurrence of a key, in order. */
  function AppendAll<V>(m: map<string, seq<V>>, keys: seq<string>, v: V): map<string, seq<V>>
  {
    if keys == [] then m
    else
      var p := AppendAll(m, keys[..|keys| - 1], v);
      var k := keys[|keys| - 1];
      p[k := Lookup(p, k) + [v]]
  }

  /** One more key appends one more copy under that key. */
  lemma AppendOne<V>(m: map<string, seq<V>>, keys: seq<string>, k: string, v: V)
    ensures AppendAll(m, keys + [k], v) == AppendAll(m, keys, v)[k := Lookup(AppendAll(m, keys, v), k) + [v]]
  {
    assert (keys + [k])[..|keys|] == keys;
  }

  /** After the appends, each bucket is the old bucket followed by one copy of
      `v` per occurrence of its key; exactly the keys in `keys` are added. */
  lemma AppendAllSpec<V>(m: map<string, seq<V>>, keys: seq<string>, v: V)
    ensures forall k :: Lookup(AppendAll(m, keys, v), k) == Lookup(m, k) + Repeat(v, Count(keys, k))
    ensures AppendAll(m, keys, v).Keys == m.Keys + set i | 0 <= i < |keys| :: keys[i]
  {
    forall k ensures Lookup(AppendAll(m, keys, v), k) == Lookup(m, k) + Repeat(v, Count(keys, k)) {
      AppendAllLookup(m, keys, v, k);
    }
    AppendAllKeys(m, keys, v);
  }

  lemma {:induction false} AppendAllLookup<V>(m: map<string, seq<V>>, keys: seq<string>, v: V, k: string)
    ensures Lookup(AppendAll(m, keys, v), k) == Lookup(m, k) + Repeat(v, Count(keys, k))
  {
    if keys != [] {
      var init := keys[..|keys| - 1];
      AppendAllLookup(m, init, v, k);
      if k == keys[|keys| - 1] {
        assert Repeat(v, Count(keys, k)) == Repeat(v, Count(init, k)) + [v];
      }
    }
  }

  lemma {:induction false} AppendAllKeys<V>(m: map<string, seq<V>>, keys: seq<string>, v: V)
    ensures AppendAll(m, keys, v).Keys == m.Keys + set i | 0 <= i < |keys| :: keys[i]
  {
    if keys != [] {
      var init := keys[..|keys| - 1];
      AppendAllKeys(m, init, v);
      assert (set i | 0 <= i < |keys| :: keys[i]) == (set i | 0 <= i < |init| :: init[i]) + {keys[|keys| - 1]};
    }
  }

  /** The buckets built by feeding every item of `items`, in order, to
      `AppendAll` under the keys `keysOf` gives it. */
  function Bucketed<V>(items: seq<V>, keysOf: V -> seq<string>): map<string, seq<V>>
  {
    if items == [] then map[]
    else AppendAll(Bucketed(items[..|items| - 1], keysOf), keysOf(items[|items| - 1]), items[|items| - 1])
  }

  /** What a bucket holds after indexing `items`: every item once per occurrence
      of the key among its own keys, in input order. */
  function Occurrences<V>(items: seq<V>, keysOf: V -> seq<string>, k: string): seq<V>
  {
    if items == [] then []
    else Occurrences(items[..|items| - 1], keysOf, k) + Repeat(items[|items| - 1], Count(keysOf(items[|items| - 1]), k))
  }

  /** Every key any item produced. */
  ghost function AllKeys<V>(items: seq<V>, keysOf: V -> seq<string>): set<string>
  {
    set i, j | 0 <= i < |items| && 0 <= j < |keysOf(items[i])| :: keysOf(items[i])[j]
  }

  /** Bucket completeness: the bucket of every key is exactly its occurrences,
      and the buckets exist for exactly the keys some item produced. */
  lemma {:induction false} BucketedSpec<V>(items: seq<V>, keysOf: V -> seq<string>)
    ensures forall k :: Lookup(Bucketed(items, keysOf), k) == Occurrences(items, keysOf, k)
    ensures Bucketed(items, keysOf).Keys == AllKeys(items, keysOf)
  {
    if items != [] {
      var init := items[..|items| - 1];
      var last := items[|items| - 1];
      BucketedSpec(init, keysOf);
      AppendAllSpec(Bucketed(init, keysOf), keysOf(last), last);
      assert items[..|items| - 1] == init;
      var lastKeys := set j | 0 <= j < |keysOf(last)| :: keysOf(last)[j];
      forall k | k in AllKeys(items, keysOf) ensures k in AllKeys(init, keysOf) + lastKeys {
        var i, j :| 0 <= i < |items| && 0 <= j < |keysOf(items[i])| && k == keysOf(items[i])[j];
        if i < |init| {
          assert init[i] == items[i];
        }
      }
      forall k | k in AllKeys(init, keysOf) ensures k in AllKeys(items, keysOf) {
        var i, j :| 0 <= i < |init| && 0 <= j < |keysOf(init[i])| && k == keysOf(init[i])[j];
        assert items[i] == init[i];
      }
      forall k | k in lastKeys ensures k in AllKeys(items, keysOf) {
        var j :| 0 <= j < |keysOf(last)| && k == keysOf(last)[j];
        assert items[|items| - 1] == last;
      }
    }
  }

  /** Buckets only grow: indexing more items keeps every old bucket as a prefix. */
  lemma {:induction false} OccurrencesGrow<V>(items: seq<V>, more: seq<V>, keysOf: V -> seq<string>, k: string)
    ensures Occurrences(items, keysOf, k) <= Occurrences(items + more, keysOf, k)
    decreases |more|
  {
    if more != [] {
      var init := more[..|more| - 1];
      OccurrencesGrow(items, init, keysOf, k);
      var all := items + more;
      assert all[..|all| - 1] == items + init;
      assert Occurrences(all, keysOf, k) ==
        Occurrences(items + init, keysOf, k) + Repeat(all[|all| - 1], Count(keysOf(all[|all| - 1]), k));
    } else {
      assert items + more == items;
    }
  }

  /** Appending under `a` and then under `b` is appending under `a + b`: the
      kanji loop followed by the kana loop files an item under all its keys. */
  lemma {:induction false} AppendAllConcat<V>(m: map<string, seq<V>>, a: seq<string>, b: seq<string>, v: V)
    ensures AppendAll(AppendAll(m, a, v), b, v) == AppendAll(m, a + b, v)
    decreases |b|
  {
    if b == [] {
      assert a + b == a;
    } else {
      var init := b[..|b| - 1];
      AppendAllConcat(m, a, init, v);
      assert (a + b)[..|a + b| - 1] == a + init;
    }
  }

  lemma {:induction false} CountPositive(ks: seq<string>, k: string)
    ensures Count(ks, k) > 0 <==> k in ks
  {
    if ks != [] {
      CountPositive(ks[..|ks| - 1], k);
      assert ks == ks[..|ks| - 1] + [ks[|ks| - 1]];
    }
  }

  /** An item is in a bucket exactly when the bucket's key is one of its keys. */
  lemma {:induction false} OccurrencesMember<V>(items: seq<V>, keysOf: V -> seq<string>, k: string, x: V)
    ensures x in Occurrences(items, keysOf, k) <==>
      exists i :: 0 <= i < |items| && items[i] == x && k in keysOf(items[i])
  {
    if items != [] {
      var init := items[..|items| - 1];
      var last := items[|items| - 1];
      OccurrencesMember(init, keysOf, k, x);
      CountPositive(keysOf(last), k);
      if exists i :: 0 <= i < |items| && items[i] == x && k in keysOf(items[i]) {
        var i :| 0 <= i < |items| && items[i] == x && k in keysOf(items[i]);
        if i < |init| {
          assert init[i] == items[i];
        } else {
          assert Repeat(last, Count(keysOf(last), k))[0] == x;
        }
      }
      if exists i :: 0 <= i < |init| && init[i] == x && k in keysOf(init[i]) {
        var i :| 0 <= i < |init| && init[i] == x && k in keysOf(init[i]);
        assert items[i] == init[i];
      }
    }
  }

  /** `0, 1, ..., n - 1`: the positions `enumerate` yields. */
  function Indices(n: nat): (r: seq<int>)
    ensures |r| == n && forall i :: 0 <= i < n ==> r[i] == i
  {
    seq(n, i => i)
  }

  /** Buckets of positions list positions in increasing order. */
  lemma {:induction false} IndexOccurrencesAscending(n: nat, keysOf: int -> seq<string>, k: string)
    ensures forall a :: 0 <= a < |Occurrences(Indices(n), keysOf, k)| ==>
      0 <= Occurrences(Indices(n), keysOf, k)[a] < n
    ensures forall a, b :: 0 <= a < b < |Occurrences(Indices(n), keysOf, k)| ==>
      Occurrences(Indices(n), keysOf, k)[a] <= Occurrences(Indices(n), keysOf, k)[b]
  {
    if n > 0 {
      IndexOccurrencesAscending(n - 1, keysOf, k);
      assert Indices(n)[..n - 1] == Indices(n - 1);
      var prev := Occurrences(Indices(n - 1), keysOf, k);
      var o := Occurrences(Indices(n), keysOf, k);
      var tail := Repeat(n - 1, Count(keysOf(n - 1), k));
      assert o == prev + tail;
      forall a | 0 <= a < |o| ensures 0 <= o[a] < n && (a >= |prev| ==> o[a] == n - 1) {
        if a >= |prev| {
          assert o[a] == tail[a - |prev|];
          assert tail[a - |prev|] == n - 1;
        } else {
          assert o[a] == prev[a];
          assert 0 <= prev[a] < n - 1;
        }
      }
      forall a, b | 0 <= a < b < |o| ensures o[a] <= o[b] {
        if b < |prev| {
          assert o[a] == prev[a] && o[b] == prev[b];
        } else if a < |prev| {
          assert o[a] == prev[a];
        }
      }
    }
  }

  /** One more item extends the buckets by that item alone. */
  lemma BucketedStep<V>(items: seq<V>, i: nat, keysOf: V -> seq<string>)
    requires i < |items|
    ensures Bucketed(items[..i + 1], keysOf) == AppendAll(Bucketed(items[..i], keysOf), keysOf(items[i]), items[i])
  {
    assert items[..i + 1][..i] == items[..i];
  }

  /** `for key in keys: data[key].append(entry)`. */
  method FileUnder<V>(data: map<string, seq<V>>, keys: seq<string>, v: V) returns (data': map<string, seq<V>>)
    ensures data' == AppendAll(data, keys, v)
  {
    data' := data;
    var j := 0;
    while j < |keys|
      invariant 0 <= j <= |keys|
      invariant data' == AppendAll(data, keys[..j], v)
    {
      data' := data'[keys[j] := Lookup(data', keys[j]) + [v]];
      assert keys[..j + 1][..j] == keys[..j];
      j := j + 1;
    }
    assert keys[..j] == keys;
  }
}
