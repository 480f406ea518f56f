/**
 * JavaScript's `Map` with string keys: a finite map that remembers the order
 * in which keys were first inserted. `set` on a present key replaces the value
 * in place; `set` on an absent key appends it; `delete` removes the key and
 * keeps the order of the rest.
 */
module OrderedMap {
  import opened Maybe

  datatype RawMap<V> = RawMap(keys: seq<string>, entries: map<string, V>)

  predicate Distinct(s: seq<string>) {
    forall i, j :: 0 <= i < j < |s| ==> s[i] != s[j]
  }

  /** The key sequence lists every key of the map exactly once. */
  ghost predicate WellFormed<V>(m: RawMap<V>) {
    Distinct(m.keys) && forall k :: k in m.entries <==> k in m.keys
  }

  type OMap<V> = m: RawMap<V> | WellFormed(m) witness RawMap([], map[])

  function Empty<V>(): (r: OMap<V>)
    ensures |r.keys| == 0 && r.entries == map[]
  {
    RawMap([], map[])
  }

  function Get<V>(m: OMap<V>, k: string): (r: Option<V>)
    ensures r.Some? <==> k in m.entries
    ensures r.Some? ==> r.value == m.entries[k]
  {
    if k in m.entries then Some(m.entries[k]) else None
  }

  /** `Map.prototype.set`. */
  function Set<V>(m: OMap<V>, k: string, v: V): (r: OMap<V>)
    ensures r.entries == m.entries[k := v]
    ensures k in m.entries ==> r.keys == m.keys
    ensures k !in m.entries ==> r.keys == m.keys + [k]
  {
    if k in m.entries then RawMap(m.keys, m.entries[k := v])
    else RawMap(m.keys + [k], m.entries[k := v])
  }

  /** The sequence `s` with every occurrence of `k` taken out, order kept. */
  function Without(s: seq<string>, k: string): (r: seq<string>)
    ensures forall x :: x in r <==> x in s && x != k
    ensures Distinct(s) ==> Distinct(r)
  {
    if |s| == 0 then []
    else
      var rest := Without(s[1..], k);
      assert Distinct(s) ==> s[0] !in s[1..];
      (if s[0] == k then [] else [s[0]]) + rest
  }

  /** `Map.prototype.delete`. */
  function Remove<V>(m: OMap<V>, k: string): (r: OMap<V>)
    ensures r.entries == m.entries - {k}
    ensures r.keys == Without(m.keys, k)
  {
    RawMap(Without(m.keys, k), m.entries - {k})
  }

  /** `Array.from(m.values())`: the values in key order. */
  function Values<V>(m: OMap<V>): (r: seq<V>)
    ensures |r| == |m.keys|
    ensures forall i :: 0 <= i < |r| ==> r[i] == m.entries[m.keys[i]]
  {
    seq(|m.keys|, i requires 0 <= i < |m.keys| => m.entries[m.keys[i]])
  }

  /** Setting a present key changes its value where it stands and moves nothing. */
  lemma SetPresentKeepsPosition<V>(m: OMap<V>, i: nat, v: V)
    requires i < |m.keys|
    ensures Values(Set(m, m.keys[i], v)) == Values(m)[i := v]
  {
  }

  /** Setting an absent key appends its value at the end. */
  lemma SetAbsentAppends<V>(m: OMap<V>, k: string, v: V)
    requires k !in m.entries
    ensures Values(Set(m, k, v)) == Values(m) + [v]
  {
  }

  /** Removing the key at position `i` cuts out exactly that position of the values. */
  lemma RemoveAt<V>(m: OMap<V>, i: nat)
    requires i < |m.keys|
    ensures Values(Remove(m, m.keys[i])) == Values(m)[..i] + Values(m)[i + 1..]
  {
    WithoutAt(m.keys, i);
    var after := Values(Remove(m, m.keys[i]));
    var before := Values(m);
    assert |after| == |before| - 1;
    forall j | 0 <= j < |after|
      ensures after[j] == (before[..i] + before[i + 1..])[j]
    {
      if j < i {
        assert Remove(m, m.keys[i]).keys[j] == m.keys[j];
      } else {
        assert Remove(m, m.keys[i]).keys[j] == m.keys[j + 1];
      }
    }
  }

  /** In a distinct sequence, removing the key at position `i` cuts out exactly that position. */
  lemma {:induction false} WithoutAt(keys: seq<string>, i: nat)
    requires Distinct(keys) && i < |keys|
    ensures Without(keys, keys[i]) == keys[..i] + keys[i + 1..]
  {
    if i == 0 {
      WithoutAbsent(keys[1..], keys[0]);
      assert keys[1..] == keys[..0] + keys[1..];
    } else {
      assert Distinct(keys[1..]);
      WithoutAt(keys[1..], i - 1);
      assert keys[1..][..i - 1] + keys[1..][i..] == keys[1..i] + keys[i + 1..];
      assert keys[..i] == [keys[0]] + keys[1..i];
    }
  }

  /** Removing an absent key leaves the sequence as it was. */
  lemma {:induction false} WithoutAbsent(keys: seq<string>, k: string)
    requires k !in keys
    ensures Without(keys, k) == keys
  {
    if |keys| > 0 {
      WithoutAbsent(keys[1..], k);
      assert keys == [keys[0]] + keys[1..];
    }
  }
}
