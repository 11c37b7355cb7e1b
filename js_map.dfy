/**
 * A JavaScript `Map`: a finite map that iterates its entries in the order in
 * which their keys were first set.  Setting an existing key replaces its value
 * in place; deleting a key removes it from the order.
 */
module JsMap {
  import opened Wrappers

  datatype OrderedMap<K(==, !new), V> = OrderedMap(keys: seq<K>, entries: map<K, V>) {

    /** The keys are distinct and are exactly the keys of `entries`. */
    ghost predicate Valid() {
      && Distinct(keys)
      && (forall k :: k in entries <==> k in keys)
    }

    /** `map.size` */
    function Size(): nat {
      |keys|
    }

    /** `map.get(k)` */
    function Get(k: K): (r: Option<V>)
      ensures r.Some? <==> k in entries
      ensures r.Some? ==> r.value == entries[k]
    {
      if k in entries then Some(entries[k]) else None
    }

    /** `map.set(k, v)`: a new key goes last, an existing key keeps its place. */
    function Set(k: K, v: V): (r: OrderedMap<K, V>)
      ensures Valid() ==> r.Valid()
      ensures r.entries == entries[k := v]
      ensures k in entries ==> r.keys == keys
      ensures k !in entries ==> r.keys == keys + [k]
    {
      if k in entries then OrderedMap(keys, entries[k := v])
      else OrderedMap(keys + [k], entries[k := v])
    }

    /** `map.delete(k)`: the key leaves the order, the others keep theirs. */
    function Delete(k: K): (r: OrderedMap<K, V>)
      ensures Valid() ==> r.Valid()
      ensures r.entries == entries - {k}
      ensures Valid() && k !in entries ==> r == this
      ensures Valid() && k in entries ==>
                exists i :: 0 <= i < |keys| && keys[i] == k && r.keys == keys[..i] + keys[i + 1..]
    {
      RemoveCutsOut(keys, k);
      OrderedMap(Remove(keys, k), entries - {k})
    }

    /** `map.values()`, in iteration order. */
    function Values(): (vs: seq<V>)
      requires Valid()
      ensures |vs| == |keys|
      ensures forall i :: 0 <= i < |keys| ==> vs[i] == entries[keys[i]]
    {
      seq(|keys|, i requires 0 <= i < |keys| => entries[keys[i]])
    }

    /** `map.entries()`, in iteration order. */
    function Entries(): (kvs: seq<(K, V)>)
      requires Valid()
      ensures |kvs| == |keys|
      ensures forall i :: 0 <= i < |keys| ==> kvs[i] == (keys[i], entries[keys[i]])
    {
      seq(|keys|, i requires 0 <= i < |keys| => (keys[i], entries[keys[i]]))
    }
  }

  /** `new Map()` */
  function Empty<K(==, !new), V>(): (m: OrderedMap<K, V>)
    ensures m.Valid() && m.Size() == 0
  {
    OrderedMap([], map[])
  }

  /** The sequence s without the occurrences of k, in the same order. */
  function Remove<K(==, !new)>(s: seq<K>, k: K): (r: seq<K>)
    ensures forall x :: x in r <==> x in s && x != k
    ensures Distinct(s) ==> Distinct(r)
    ensures k !in s ==> r == s
  {
    if s == [] then []
    else
      var rest := Remove(s[1..], k);
      assert Distinct(s) ==> s[0] !in s[1..];
      (if s[0] == k then [] else [s[0]]) + rest
  }

  /** In a sequence without repeats, removing k cuts out its one position. */
  lemma {:induction false} RemoveAt<K(!new)>(s: seq<K>, k: K, i: nat)
    requires Distinct(s) && i < |s| && s[i] == k
    ensures Remove(s, k) == s[..i] + s[i + 1..]
  {
    if i == 0 {
      assert k !in s[1..];
    } else {
      RemoveAt(s[1..], k, i - 1);
      assert s[1..][..i - 1] == s[1..i];
      assert s[1..][i..] == s[i + 1..];
      assert s[..i] == [s[0]] + s[1..i];
    }
  }

  /** Removing a key that occurs once leaves the others in the same order around the gap. */
  lemma RemoveCutsOut<K(!new)>(s: seq<K>, k: K)
    ensures Distinct(s) && k in s ==>
              exists i :: 0 <= i < |s| && s[i] == k && Remove(s, k) == s[..i] + s[i + 1..]
  {
    if Distinct(s) && k in s {
      var i :| 0 <= i < |s| && s[i] == k;
      RemoveAt(s, k, i);
    }
  }

  ghost predicate Distinct<K(!new)>(s: seq<K>) {
    forall i, j :: 0 <= i < j < |s| ==> s[i] != s[j]
  }

  /** Applies `map.set` to each pair of kvs in turn. */
  function SetAll<K(==, !new), V>(m: OrderedMap<K, V>, kvs: seq<(K, V)>): (r: OrderedMap<K, V>)
    ensures m.Valid() ==> r.Valid()
    decreases |kvs|
  {
    if kvs == [] then m
    else SetAll(m, kvs[..|kvs| - 1]).Set(kvs[|kvs| - 1].0, kvs[|kvs| - 1].1)
  }

  /**
   * After setting each pair in turn, the keys are the old ones and those of
   * kvs, a key's value is the one its last pair gives, and a key no pair
   * names keeps its value.
   */
  lemma {:induction false} SetAllFacts<K(!new), V>(m: OrderedMap<K, V>, kvs: seq<(K, V)>)
    ensures var r := SetAll(m, kvs);
      && (forall k :: k in r.entries <==> k in m.entries || exists i :: 0 <= i < |kvs| && kvs[i].0 == k)
      && (forall i :: 0 <= i < |kvs| && (forall j :: i < j < |kvs| ==> kvs[j].0 != kvs[i].0) ==>
            kvs[i].0 in r.entries && r.entries[kvs[i].0] == kvs[i].1)
      && (forall k :: k in m.entries && (forall i :: 0 <= i < |kvs| ==> kvs[i].0 != k) ==>
            k in r.entries && r.entries[k] == m.entries[k])
    decreases |kvs|
  {
    if kvs != [] {
      SetAllFacts(m, kvs[..|kvs| - 1]);
      SetAllStep(m, kvs, SetAll(m, kvs[..|kvs| - 1]));
    }
  }

  /** One more `set` keeps the three facts SetAll promises. */
  lemma SetAllStep<K(!new), V>(m: OrderedMap<K, V>, kvs: seq<(K, V)>, before: OrderedMap<K, V>)
    requires kvs != []
    requires var init := kvs[..|kvs| - 1];
      && (forall k :: k in before.entries <==> k in m.entries || exists i :: 0 <= i < |init| && init[i].0 == k)
      && (forall i :: 0 <= i < |init| && (forall j :: i < j < |init| ==> init[j].0 != init[i].0) ==>
            init[i].0 in before.entries && before.entries[init[i].0] == init[i].1)
      && (forall k :: k in m.entries && (forall i :: 0 <= i < |init| ==> init[i].0 != k) ==>
            k in before.entries && before.entries[k] == m.entries[k])
    ensures var r := before.Set(kvs[|kvs| - 1].0, kvs[|kvs| - 1].1);
      && (forall k :: k in r.entries <==> k in m.entries || exists i :: 0 <= i < |kvs| && kvs[i].0 == k)
      && (forall i :: 0 <= i < |kvs| && (forall j :: i < j < |kvs| ==> kvs[j].0 != kvs[i].0) ==>
            kvs[i].0 in r.entries && r.entries[kvs[i].0] == kvs[i].1)
      && (forall k :: k in m.entries && (forall i :: 0 <= i < |kvs| ==> kvs[i].0 != k) ==>
            k in r.entries && r.entries[k] == m.entries[k])
  {
    var n := |kvs| - 1;
    var init := kvs[..n];
    assert forall i :: 0 <= i < n ==> init[i] == kvs[i];
    var r := before.Set(kvs[n].0, kvs[n].1);
    forall i | 0 <= i < |kvs| && (forall j :: i < j < |kvs| ==> kvs[j].0 != kvs[i].0)
      ensures kvs[i].0 in r.entries && r.entries[kvs[i].0] == kvs[i].1
    {
      if i < n {
        assert kvs[n].0 != kvs[i].0;
      }
    }
  }

  /** `new Map(kvs)`: the keys of kvs, each with the value of its last pair. */
  function FromEntries<K(==, !new), V>(kvs: seq<(K, V)>): (r: OrderedMap<K, V>)
    ensures r.Valid()
    ensures forall k :: k in r.entries <==> exists i :: 0 <= i < |kvs| && kvs[i].0 == k
    ensures forall i :: 0 <= i < |kvs| && (forall j :: i < j < |kvs| ==> kvs[j].0 != kvs[i].0) ==>
              kvs[i].0 in r.entries && r.entries[kvs[i].0] == kvs[i].1
  {
    SetAllFacts(Empty(), kvs);
    SetAll(Empty(), kvs)
  }

  ghost predicate DistinctKeys<K(!new), V>(kvs: seq<(K, V)>) {
    forall i, j :: 0 <= i < j < |kvs| ==> kvs[i].0 != kvs[j].0
  }

  /** A map built from entries is empty exactly when there were no entries. */
  lemma {:induction false} FromEntriesSize<K(!new), V>(kvs: seq<(K, V)>)
    ensures FromEntries(kvs).Size() > 0 <==> |kvs| > 0
  {
    if kvs != [] {
      var last := kvs[|kvs| - 1];
      var before := SetAll(Empty(), kvs[..|kvs| - 1]);
      assert last.0 in before.Set(last.0, last.1).entries;
    }
  }

  /**
   * Built from entries with distinct keys, a map iterates exactly those
   * entries, in the given order.
   */
  lemma {:induction false} FromEntriesDistinct<K(!new), V>(kvs: seq<(K, V)>)
    requires DistinctKeys(kvs)
    ensures FromEntries(kvs).keys == seq(|kvs|, i requires 0 <= i < |kvs| => kvs[i].0)
    ensures forall i :: 0 <= i < |kvs| ==>
              kvs[i].0 in FromEntries(kvs).entries && FromEntries(kvs).entries[kvs[i].0] == kvs[i].1
  {
    if kvs != [] {
      var n := |kvs| - 1;
      var init := kvs[..n];
      FromEntriesDistinct(init);
      var before := FromEntries(init);
      assert kvs[n].0 !in before.keys by {
        forall i | 0 <= i < n ensures before.keys[i] != kvs[n].0 {
          assert before.keys[i] == init[i].0 == kvs[i].0;
        }
      }
      assert before.Valid();
      assert kvs[n].0 !in before.entries;
      assert FromEntries(kvs) == before.Set(kvs[n].0, kvs[n].1);
    }
  }

  /** Rebuilding a map from its own entries gives back the same map. */
  lemma EntriesRoundTrip<K(!new), V>(m: OrderedMap<K, V>)
    requires m.Valid()
    ensures FromEntries(m.Entries()) == m
  {
    var kvs := m.Entries();
    assert DistinctKeys(kvs);
    FromEntriesDistinct(kvs);
    var r := FromEntries(kvs);
    assert r.keys == m.keys;
    assert r.entries.Keys == m.entries.Keys;
    forall k | k in m.entries ensures r.entries[k] == m.entries[k] {
      var i :| 0 <= i < |m.keys| && m.keys[i] == k;
      assert kvs[i] == (k, m.entries[k]);
    }
  }

  /** Deleting the same key twice has the effect of deleting it once. */
  lemma DeleteTwice<K(!new), V>(m: OrderedMap<K, V>, k: K)
    requires m.Valid()
    ensures m.Delete(k).Delete(k) == m.Delete(k)
  {
  }

  /** Some value of the map satisfies p exactly when some entry does. */
  lemma ValuesSatisfy<K(!new), V>(m: OrderedMap<K, V>, p: V -> bool)
    requires m.Valid()
    ensures (exists i :: 0 <= i < |m.Values()| && p(m.Values()[i])) <==>
            (exists k :: k in m.entries && p(m.entries[k]))
  {
    var vs := m.Values();
    if k :| k in m.entries && p(m.entries[k]) {
      var i :| 0 <= i < |m.keys| && m.keys[i] == k;
      assert p(vs[i]);
    }
  }
}
