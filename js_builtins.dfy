/**
 The two JavaScript built-ins the aggregation is written with:
 `Object.values` and `Array.prototype.filter` (followed by `.length`).
 */
module JsBuiltins {

  /** No key occurs twice in the enumeration. */
  predicate NoDuplicates<K(==)>(keys: seq<K>)
  {
    forall i, j :: 0 <= i < j < |keys| ==> keys[i] != keys[j]
  }

  /**
   `keys` lists every key of `m` exactly once, in the object's property order
   (for non-index keys such as dates, the order in which they were added).
   */
  predicate Enumerates<K(==), V>(keys: seq<K>, m: map<K, V>)
  {
    && NoDuplicates(keys)
    && (forall i :: 0 <= i < |keys| ==> keys[i] in m)
    && (forall k :: k in m ==> k in keys)
  }

  /** `Object.values(m)` for the key enumeration `keys`: one value per key, in key order. */
  function ObjectValues<K, V>(m: map<K, V>, keys: seq<K>): (vs: seq<V>)
    requires forall i :: 0 <= i < |keys| ==> keys[i] in m
    ensures |vs| == |keys|
    ensures forall i :: 0 <= i < |keys| ==> vs[i] == m[keys[i]]
  {
    if keys == [] then [] else [m[keys[0]]] + ObjectValues(m, keys[1..])
  }

  /**
   `s.filter(keep)`: the elements of `s` that `keep` accepts. Each accepted
   value occurs as often as in `s`, and no rejected value occurs at all.
   */
  function Filter<T(==,!new)>(s: seq<T>, keep: T -> bool): (r: seq<T>)
    ensures |r| <= |s|
    ensures forall x :: multiset(r)[x] == (if keep(x) then multiset(s)[x] else 0)
  {
    if s == [] then []
    else
      var head := if keep(s[0]) then [s[0]] else [];
      assert s == [s[0]] + s[1..];
      assert multiset(s) == multiset([s[0]]) + multiset(s[1..]);
      head + Filter(s[1..], keep)
  }

  /** Everything `filter` yields is an accepted element of `s`, and every accepted element is kept. */
  lemma FilterMembers<T(!new)>(s: seq<T>, keep: T -> bool)
    ensures forall i :: 0 <= i < |Filter(s, keep)| ==> Filter(s, keep)[i] in s && keep(Filter(s, keep)[i])
    ensures forall i :: 0 <= i < |s| && keep(s[i]) ==> s[i] in Filter(s, keep)
  {
    var r := Filter(s, keep);
    forall i | 0 <= i < |r| ensures r[i] in s && keep(r[i]) {
      assert multiset(r)[r[i]] > 0;
    }
    forall i | 0 <= i < |s| && keep(s[i]) ensures s[i] in r {
      assert multiset(s)[s[i]] > 0;
    }
  }

  /** The keys listed in `keys` whose value in `m` is accepted by `keep`. */
  ghost function ListedKeysWhere<K, V>(m: map<K, V>, keys: seq<K>, keep: V -> bool): set<K>
  {
    set k | k in m && k in keys && keep(m[k])
  }

  /** Removing the first key of a duplicate-free enumeration removes exactly that key. */
  lemma ListedKeysWhereTail<K, V>(m: map<K, V>, keys: seq<K>, keep: V -> bool)
    requires NoDuplicates(keys) && |keys| > 0 && keys[0] in m
    ensures NoDuplicates(keys[1..])
    ensures keys[0] !in ListedKeysWhere(m, keys[1..], keep)
    ensures ListedKeysWhere(m, keys, keep)
         == ListedKeysWhere(m, keys[1..], keep) + (if keep(m[keys[0]]) then {keys[0]} else {})
  {
  }

  /**
   Counting the filtered values of a map equals counting the distinct keys whose
   value is accepted: `Object.values(m).filter(keep).length` counts entries.
   */
  lemma {:induction false} FilteredValuesCountKeys<K, V(!new)>(m: map<K, V>, keys: seq<K>, keep: V -> bool)
    requires NoDuplicates(keys)
    requires forall i :: 0 <= i < |keys| ==> keys[i] in m
    ensures |Filter(ObjectValues(m, keys), keep)| == |ListedKeysWhere(m, keys, keep)|
  {
    if keys == [] {
      assert ListedKeysWhere(m, keys, keep) == {};
    } else {
      var vs := ObjectValues(m, keys);
      ListedKeysWhereTail(m, keys, keep);
      FilteredValuesCountKeys(m, keys[1..], keep);
      assert vs[1..] == ObjectValues(m, keys[1..]);
    }
  }

  /** The keys of `m` whose value is accepted by `keep`. */
  function KeysWhere<K, V>(m: map<K, V>, keep: V -> bool): set<K>
  {
    set k | k in m && keep(m[k])
  }

  /** For a full enumeration, the filtered count is the number of accepted entries of `m`. */
  lemma FilteredValuesCountEntries<K, V(!new)>(m: map<K, V>, keys: seq<K>, keep: V -> bool)
    requires Enumerates(keys, m)
    ensures |Filter(ObjectValues(m, keys), keep)| == |KeysWhere(m, keep)|
  {
    FilteredValuesCountKeys(m, keys, keep);
    assert ListedKeysWhere(m, keys, keep) == KeysWhere(m, keep);
  }
}
