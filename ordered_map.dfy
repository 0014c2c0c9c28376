/** Insertion-ordered dictionaries with string keys, as JavaScript's `Map` and plain objects with string
    keys behave: `set` on a new key appends it, `set` on an existing key replaces the
    value in place, and iteration visits keys in insertion order. */
module OrderedMap {
  import opened Wrappers

  /** The entries of a dictionary in iteration order. */
  type Entries<V> = seq<(string, V)>

  function KeysOf<V>(m: Entries<V>): (ks: seq<string>)
    ensures |ks| == |m|
    ensures forall i :: 0 <= i < |m| ==> ks[i] == m[i].0
  {
    if m == [] then [] else [m[0].0] + KeysOf(m[1..])
  }

  /** No key occurs twice. */
  predicate UniqueKeys<V>(m: Entries<V>) {
    forall i, j :: 0 <= i < j < |m| ==> m[i].0 != m[j].0
  }

  /** `map.get(k)`: the value stored under `k`, if any. */
  function Get<V>(m: Entries<V>, k: string): (r: Option<V>)
    ensures r.None? <==> k !in KeysOf(m)
    ensures r.Some? ==> (k, r.value) in m
  {
    if m == [] then None
    else if m[0].0 == k then Some(m[0].1)
    else Get(m[1..], k)
  }

  /** With unique keys, a stored entry is what `get` returns. */
  lemma GetEntry<V>(m: Entries<V>, i: nat)
    requires UniqueKeys(m) && i < |m|
    ensures Get(m, m[i].0) == Some(m[i].1)
  {
    if i > 0 {
      assert m[0].0 != m[i].0;
      assert m[1..][i - 1] == m[i];
      GetEntry(m[1..], i - 1);
    }
  }

  /** `map.set(k, v)`. */
  function Put<V>(m: Entries<V>, k: string, v: V): (r: Entries<V>)
    ensures Get(r, k) == Some(v)
    ensures forall k' :: k' != k ==> Get(r, k') == Get(m, k')
  {
    if m == [] then [(k, v)]
    else if m[0].0 == k then [(k, v)] + m[1..]
    else [m[0]] + Put(m[1..], k, v)
  }

  /** `set` appends a new key at the end of the iteration order and keeps the order
      of the keys already present. */
  lemma {:induction false} PutKeys<V>(m: Entries<V>, k: string, v: V)
    ensures KeysOf(Put(m, k, v)) == if k in KeysOf(m) then KeysOf(m) else KeysOf(m) + [k]
  {
    if m != [] && m[0].0 != k {
      PutKeys(m[1..], k, v);
      assert KeysOf(m) == [m[0].0] + KeysOf(m[1..]);
      assert KeysOf(Put(m, k, v)) == [m[0].0] + KeysOf(Put(m[1..], k, v));
    }
  }

  /** `set` never introduces a duplicate key. */
  lemma PutUnique<V>(m: Entries<V>, k: string, v: V)
    requires UniqueKeys(m)
    ensures UniqueKeys(Put(m, k, v))
  {
    var r := Put(m, k, v);
    PutKeys(m, k, v);
    var ks := KeysOf(r);
    forall i, j | 0 <= i < j < |r| ensures r[i].0 != r[j].0 {
      assert ks[i] == r[i].0 && ks[j] == r[j].0;
      if k !in KeysOf(m) && j == |m| {
        assert ks[i] == KeysOf(m)[i] == m[i].0;
      } else {
        assert ks[i] == m[i].0 && ks[j] == m[j].0;
      }
    }
  }

  /** Writing a key that is already present keeps its position and only changes its value. */
  lemma {:induction false} PutExisting<V>(m: Entries<V>, i: nat, v: V)
    requires UniqueKeys(m) && i < |m|
    ensures Put(m, m[i].0, v) == m[i := (m[i].0, v)]
  {
    if i > 0 {
      assert m[0].0 != m[i].0;
      assert m[1..][i - 1] == m[i];
      PutExisting(m[1..], i - 1, v);
      assert [m[0]] + m[1..][i - 1 := (m[i].0, v)] == m[i := (m[i].0, v)];
    }
  }

  /** Writing a new key appends the entry at the end. */
  lemma {:induction false} PutNew<V>(m: Entries<V>, k: string, v: V)
    requires k !in KeysOf(m)
    ensures Put(m, k, v) == m + [(k, v)]
  {
    if m != [] {
      assert KeysOf(m)[0] == m[0].0;
      assert k !in KeysOf(m[1..]) by {
        assert KeysOf(m) == [m[0].0] + KeysOf(m[1..]);
      }
      assert Put(m, k, v) == [m[0]] + Put(m[1..], k, v);
      PutNew(m[1..], k, v);
      assert [m[0]] + (m[1..] + [(k, v)]) == m + [(k, v)];
    }
  }
}
