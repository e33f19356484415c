// ListMap: a dictionary from keys to lists of values (a `defaultdict(list)`
// whose `[]` returns the first value).  The dictionary contents are a value of
// type Store (keys in insertion order plus the lists); every operation is a
// function on Store, and the class ListMap applies them in place.
//
// Python detail kept here: reading a missing key through `dict.__getitem__`
// (by `[]`, `getall`, `itemsfor`, `append` and `remove`) runs the
// defaultdict's `__missing__`, which inserts the key with an empty list.
module ListMaps {
  import opened Wrappers
  import opened Seqs

  datatype ListMapError = KeyError | IndexError | ValueError

  datatype Store<K, V> = Store(keys: seq<K>, vals: map<K, seq<V>>)

  /** Keys in insertion order, each once, and exactly the keys of the map. */
  ghost predicate Valid<K(!new), V>(m: Store<K, V>)
  {
    Distinct(m.keys) && Elems(m.keys) == m.vals.Keys
  }

  function Empty<K(==,!new), V>(): (m: Store<K, V>)
    ensures Valid(m)
  {
    Store([], map[])
  }

  /** The list stored for `k` as a value; a missing key reads as the empty list. */
  function Lookup<K(==,!new), V>(m: Store<K, V>, k: K): seq<V>
  {
    if k in m.vals then m.vals[k] else []
  }

  /** `__missing__`: a missing key is inserted at the end with an empty list. */
  function Touch<K(==,!new), V>(m: Store<K, V>, k: K): (r: Store<K, V>)
    requires Valid(m)
    ensures Valid(r) && k in r.vals && r.vals[k] == Lookup(m, k)
    ensures forall j :: j != k ==> Lookup(r, j) == Lookup(m, j)
  {
    if k in m.vals then m
    else
      assert Distinct(m.keys + [k]);
      Store(m.keys + [k], m.vals[k := []])
  }

  /** `m[k] = v`: refused with KeyError when `k` is present. */
  function SetItem<K(==,!new), V>(m: Store<K, V>, k: K, v: seq<V>): (r: Result<Store<K, V>, ListMapError>)
    requires Valid(m)
    ensures r.Ok? ==> Valid(r.value)
  {
    if k in m.vals then Err(KeyError)
    else
      assert Distinct(m.keys + [k]);
      Ok(Store(m.keys + [k], m.vals[k := v]))
  }

  /** `m[k]`: the first value; IndexError for an empty (or just inserted) list. */
  function First<K(==,!new), V>(m: Store<K, V>, k: K): (r: (Store<K, V>, Result<V, ListMapError>))
    requires Valid(m)
    ensures Valid(r.0)
  {
    var t := Touch(m, k);
    if t.vals[k] == [] then (t, Err(IndexError)) else (t, Ok(t.vals[k][0]))
  }

  /** `m.getall(k)`: the whole list, in insertion order. */
  function GetAll<K(==,!new), V>(m: Store<K, V>, k: K): (r: (Store<K, V>, seq<V>))
    requires Valid(m)
    ensures Valid(r.0)
  {
    var t := Touch(m, k);
    (t, t.vals[k])
  }

  function Pairs<K(==,!new), V>(k: K, vs: seq<V>): (r: seq<(K, V)>)
    ensures |r| == |vs| && forall i :: 0 <= i < |r| ==> r[i] == (k, vs[i])
  {
    if vs == [] then [] else [(k, vs[0])] + Pairs(k, vs[1..])
  }

  function ItemsOf<K(==,!new), V>(keys: seq<K>, vals: map<K, seq<V>>): seq<(K, V)>
    requires Elems(keys) <= vals.Keys
  {
    if keys == [] then [] else Pairs(keys[0], vals[keys[0]]) + ItemsOf(keys[1..], vals)
  }

  /** `m.items()`: one (key, value) pair per stored value, key by key. */
  function Items<K(==,!new), V>(m: Store<K, V>): seq<(K, V)>
    requires Valid(m)
  {
    ItemsOf(m.keys, m.vals)
  }

  /** `m.values()`. */
  function Values<K(==,!new), V>(m: Store<K, V>): (r: seq<V>)
    requires Valid(m)
    ensures |r| == |Items(m)| && forall i :: 0 <= i < |r| ==> r[i] == Items(m)[i].1
  {
    var items := Items(m);
    seq(|items|, i requires 0 <= i < |items| => items[i].1)
  }

  /** `m.itemsfor(k)`. */
  function ItemsFor<K(==,!new), V>(m: Store<K, V>, k: K): (r: (Store<K, V>, seq<(K, V)>))
    requires Valid(m)
    ensures Valid(r.0)
  {
    var t := Touch(m, k);
    (t, Pairs(k, t.vals[k]))
  }

  /** `m.replace(k, v)`: the key now holds exactly `[v]`. */
  function Replace<K(==,!new), V>(m: Store<K, V>, k: K, v: V): (r: Store<K, V>)
    requires Valid(m)
    ensures Valid(r)
  {
    if k in m.vals then Store(m.keys, m.vals[k := [v]])
    else
      assert Distinct(m.keys + [k]);
      Store(m.keys + [k], m.vals[k := [v]])
  }

  /** `m.append(k, v)`. */
  function Append<K(==,!new), V>(m: Store<K, V>, k: K, v: V): (r: Store<K, V>)
    requires Valid(m)
    ensures Valid(r)
  {
    var t := Touch(m, k);
    Store(t.keys, t.vals[k := t.vals[k] + [v]])
  }

  /** Python's `list.remove(v)`: drops the first element equal to `v`. */
  function RemoveFirst<V(==)>(s: seq<V>, v: V): (r: seq<V>)
    requires v in s
    ensures multiset(r) == multiset(s) - multiset{v}
  {
    if s[0] == v then
      assert s == [s[0]] + s[1..];
      s[1..]
    else
      assert s == [s[0]] + s[1..];
      [s[0]] + RemoveFirst(s[1..], v)
  }

  lemma CutAfterHead<V>(x: V, t: seq<V>, j: nat)
    requires j < |t|
    ensures ([x] + t)[..j + 1] + ([x] + t)[j + 2..] == [x] + (t[..j] + t[j + 1..])
  {
    var s := [x] + t;
    assert s[..j + 1] == [x] + t[..j];
    assert s[j + 2..] == t[j + 1..];
  }

  /** What `list.remove(v)` leaves: the list with its first `v` cut out, the rest in order. */
  lemma {:induction false} RemoveFirstCutsFirst<V>(s: seq<V>, v: V, i: nat)
    requires i < |s| && s[i] == v && v !in s[..i]
    ensures RemoveFirst(s, v) == s[..i] + s[i + 1..]
  {
    if i == 0 {
      assert s[..0] + s[1..] == s[1..];
    } else {
      assert s[0] in s[..i];
      var t := s[1..];
      assert t[..i - 1] == s[1..i];
      var before, upTo := t[..i - 1], s[..i];
      forall k | 0 <= k < |before| ensures before[k] != v {
        assert before[k] == upTo[k + 1];
      }
      calc {
        RemoveFirst(s, v);
        [s[0]] + RemoveFirst(t, v);
        { RemoveFirstCutsFirst(t, v, i - 1); }
        [s[0]] + (t[..i - 1] + t[i..]);
        { CutAfterHead(s[0], t, i - 1); assert s == [s[0]] + t; }
        s[..i] + s[i + 1..];
      }
    }
  }

  /**
   * `m.remove(k, v)`: ValueError when `v` is not in the list (a missing key is
   * left behind holding the empty list); the key is deleted once its list is empty.
   */
  function Remove<K(==,!new), V(==)>(m: Store<K, V>, k: K, v: V): (r: (Store<K, V>, Result<(), ListMapError>))
    requires Valid(m)
    ensures Valid(r.0)
  {
    var t := Touch(m, k);
    if v !in t.vals[k] then (t, Err(ValueError))
    else
      var rest := RemoveFirst(t.vals[k], v);
      if rest == [] then
        assert Distinct(Without(t.keys, {k})) by { WithoutDistinct(t.keys, {k}); }
        (Store(Without(t.keys, {k}), t.vals - {k}), Ok(()))
      else (Store(t.keys, t.vals[k := rest]), Ok(()))
  }

  // ---------------------------------------------------------------------------
  // What the operations promise

  lemma SetItemRefusesPresentKey<K(!new), V>(m: Store<K, V>, k: K, v: seq<V>)
    requires Valid(m)
    ensures SetItem(m, k, v).Err? <==> k in m.vals
    ensures SetItem(m, k, v).Ok? ==> Lookup(SetItem(m, k, v).value, k) == v
  {
  }

  /** `[]` is the head of `getall`, and fails exactly when that list is empty. */
  lemma FirstIsHeadOfGetAll<K(!new), V>(m: Store<K, V>, k: K)
    requires Valid(m)
    ensures First(m, k).0 == GetAll(m, k).0
    ensures First(m, k).1.Ok? <==> GetAll(m, k).1 != []
    ensures First(m, k).1.Ok? ==> First(m, k).1.value == GetAll(m, k).1[0]
  {
  }

  /** `append` adds at the end of the key's list and touches no other key. */
  lemma AppendThenGetAll<K(!new), V>(m: Store<K, V>, k: K, v: V, j: K)
    requires Valid(m)
    ensures GetAll(Append(m, k, v), k).1 == GetAll(m, k).1 + [v]
    ensures j != k ==> Lookup(Append(m, k, v), j) == Lookup(m, j)
  {
  }

  /** `replace` leaves exactly `[v]` under the key and touches no other key. */
  lemma ReplaceThenGetAll<K(!new), V>(m: Store<K, V>, k: K, v: V, j: K)
    requires Valid(m)
    ensures GetAll(Replace(m, k, v), k).1 == [v]
    ensures j != k ==> Lookup(Replace(m, k, v), j) == Lookup(m, j)
  {
  }

  /** `remove` takes one copy of `v` out and deletes the key with its last value. */
  lemma RemoveThenGetAll<K(!new), V>(m: Store<K, V>, k: K, v: V, j: K)
    requires Valid(m)
    ensures Remove(m, k, v).1.Ok? <==> v in Lookup(m, k)
    ensures Remove(m, k, v).1.Ok? ==>
              Lookup(Remove(m, k, v).0, k) == RemoveFirst(Lookup(m, k), v) &&
              multiset(Lookup(Remove(m, k, v).0, k)) == multiset(Lookup(m, k)) - multiset{v} &&
              (k in Remove(m, k, v).0.vals <==> |Lookup(m, k)| > 1)
    ensures Remove(m, k, v).1.Err? ==> Remove(m, k, v).0 == Touch(m, k)
    ensures j != k ==> Lookup(Remove(m, k, v).0, j) == Lookup(m, j)
  {
    var t := Touch(m, k);
    if v in t.vals[k] {
      var rest := RemoveFirst(t.vals[k], v);
      assert |rest| == |Lookup(m, k)| - 1 by {
        assert |multiset(rest)| == |multiset(t.vals[k])| - 1;
      }
    }
  }

  lemma {:induction false} ItemsOfOther<K(!new), V>(keys: seq<K>, vals: map<K, seq<V>>, k: K, l: seq<V>)
    requires Elems(keys) <= vals.Keys && k !in keys
    ensures ItemsOf(keys, vals[k := l]) == ItemsOf(keys, vals)
  {
    if keys != [] {
      ItemsOfOther(keys[1..], vals, k, l);
    }
  }

  lemma {:induction false} ItemsOfUpdate<K(!new), V>(keys: seq<K>, vals: map<K, seq<V>>, k: K, l: seq<V>)
    requires Elems(keys) <= vals.Keys && Distinct(keys) && k in keys
    ensures multiset(ItemsOf(keys, vals[k := l])) ==
            multiset(ItemsOf(keys, vals)) - multiset(Pairs(k, vals[k])) + multiset(Pairs(k, l))
  {
    if keys[0] == k {
      assert k !in keys[1..] by {
        forall i | 0 <= i < |keys[1..]| ensures keys[1..][i] != k {
          assert keys[1..][i] == keys[i + 1];
        }
      }
      ItemsOfOther(keys[1..], vals, k, l);
    } else {
      assert Distinct(keys[1..]);
      ItemsOfUpdate(keys[1..], vals, k, l);
      assert multiset(Pairs(k, vals[k])) <= multiset(ItemsOf(keys[1..], vals)) by {
        ItemsOfContains(keys[1..], vals, k);
      }
    }
  }

  lemma {:induction false} ItemsOfMember<K(!new), V>(keys: seq<K>, vals: map<K, seq<V>>, k: K, v: V)
    requires Elems(keys) <= vals.Keys
    ensures (k, v) in ItemsOf(keys, vals) <==> k in keys && v in vals[k]
  {
    if keys != [] {
      ItemsOfMember(keys[1..], vals, k, v);
      var ps := Pairs(keys[0], vals[keys[0]]);
      assert (k, v) in ps <==> k == keys[0] && v in vals[k] by {
        if (k, v) in ps {
          var i :| 0 <= i < |ps| && ps[i] == (k, v);
        }
        if k == keys[0] && v in vals[k] {
          var i :| 0 <= i < |vals[k]| && vals[k][i] == v;
          assert ps[i] == (k, v);
        }
      }
      assert keys == [keys[0]] + keys[1..];
    }
  }

  /** A value comes out of `values()` exactly when some key's list holds it. */
  lemma ValuesAreStored<K(!new), V>(m: Store<K, V>, v: V)
    requires Valid(m)
    ensures v in Values(m) <==> exists k :: k in m.keys && v in Lookup(m, k)
  {
    var vs, items := Values(m), Items(m);
    if v in vs {
      var i :| 0 <= i < |vs| && vs[i] == v;
      ItemsOfMember(m.keys, m.vals, items[i].0, v);
      assert items[i] in items;
    }
    if exists k :: k in m.keys && v in Lookup(m, k) {
      var k :| k in m.keys && v in Lookup(m, k);
      ItemsOfMember(m.keys, m.vals, k, v);
      var i :| 0 <= i < |items| && items[i] == (k, v);
      assert vs[i] == v;
    }
  }

  lemma {:induction false} ItemsOfContains<K(!new), V>(keys: seq<K>, vals: map<K, seq<V>>, k: K)
    requires Elems(keys) <= vals.Keys && k in keys
    ensures multiset(Pairs(k, vals[k])) <= multiset(ItemsOf(keys, vals))
  {
    if keys[0] != k {
      ItemsOfContains(keys[1..], vals, k);
    }
  }

  lemma {:induction false} ItemsOfAppendKey<K(!new), V>(keys: seq<K>, vals: map<K, seq<V>>, k: K, l: seq<V>)
    requires Elems(keys) <= vals.Keys
    ensures ItemsOf(keys + [k], vals[k := l]) ==
            ItemsOf(keys, vals[k := l]) + Pairs(k, l)
  {
    if keys == [] {
      assert ([] + [k])[1..] == [];
    } else {
      var head := Pairs(keys[0], vals[k := l][keys[0]]);
      assert (keys + [k])[0] == keys[0];
      assert (keys + [k])[1..] == keys[1..] + [k];
      ItemsOfAppendKey(keys[1..], vals, k, l);
      ConcatAssoc(head, ItemsOf(keys[1..], vals[k := l]), Pairs(k, l));
    }
  }

  lemma PairsAppend<K(!new), V>(k: K, vs: seq<V>, v: V)
    ensures multiset(Pairs(k, vs + [v])) == multiset(Pairs(k, vs)) + multiset{(k, v)}
  {
    assert Pairs(k, vs + [v]) == Pairs(k, vs) + [(k, v)];
  }

  lemma AppendItemsPresent<K(!new), V>(m: Store<K, V>, k: K, v: V)
    requires Valid(m) && k in m.vals
    ensures multiset(Items(Append(m, k, v))) == multiset(Items(m)) + multiset{(k, v)}
  {
    var l := m.vals[k] + [v];
    assert Append(m, k, v) == Store(m.keys, m.vals[k := l]);
    PairsAppend(k, m.vals[k], v);
    ItemsOfUpdate(m.keys, m.vals, k, l);
    ItemsOfContains(m.keys, m.vals, k);
  }

  lemma AppendItemsMissing<K(!new), V>(m: Store<K, V>, k: K, v: V)
    requires Valid(m) && k !in m.vals
    ensures multiset(Items(Append(m, k, v))) == multiset(Items(m)) + multiset{(k, v)}
  {
    var t := Touch(m, k);
    assert t == Store(m.keys + [k], m.vals[k := []]);
    assert t.vals[k] + [v] == [v];
    assert t.vals[k := t.vals[k] + [v]] == m.vals[k := [v]];
    assert Append(m, k, v) == Store(m.keys + [k], m.vals[k := [v]]);
    ItemsOfAppendKey(m.keys, m.vals, k, [v]);
    ItemsOfOther(m.keys, m.vals, k, [v]);
    assert Pairs(k, [v]) == [(k, v)];
  }

  /** `append` adds exactly one pair to `items()`. */
  lemma AppendItems<K(!new), V>(m: Store<K, V>, k: K, v: V)
    requires Valid(m)
    ensures multiset(Items(Append(m, k, v))) == multiset(Items(m)) + multiset{(k, v)}
  {
    if k in m.vals {
      AppendItemsPresent(m, k, v);
    } else {
      AppendItemsMissing(m, k, v);
    }
  }

  /** The pairs of `items()` with key `k`, in order. */
  function PairsWithKey<K(==,!new), V>(s: seq<(K, V)>, k: K): seq<(K, V)>
  {
    if s == [] then [] else (if s[0].0 == k then [s[0]] else []) + PairsWithKey(s[1..], k)
  }

  lemma {:induction false} PairsWithKeyConcat<K(!new), V>(a: seq<(K, V)>, b: seq<(K, V)>, k: K)
    ensures PairsWithKey(a + b, k) == PairsWithKey(a, k) + PairsWithKey(b, k)
  {
    if a != [] {
      assert (a + b)[1..] == a[1..] + b;
      PairsWithKeyConcat(a[1..], b, k);
    } else {
      assert a + b == b;
    }
  }

  lemma {:induction false} PairsWithKeyPairs<K(!new), V>(j: K, vs: seq<V>, k: K)
    ensures PairsWithKey(Pairs(j, vs), k) == if j == k then Pairs(j, vs) else []
  {
    if vs != [] {
      PairsWithKeyPairs(j, vs[1..], k);
    }
  }

  lemma {:induction false} ItemsOfWithKey<K(!new), V>(keys: seq<K>, vals: map<K, seq<V>>, k: K)
    requires Elems(keys) <= vals.Keys && Distinct(keys)
    ensures PairsWithKey(ItemsOf(keys, vals), k) == if k in keys then Pairs(k, vals[k]) else []
  {
    if keys != [] {
      PairsWithKeyConcat(Pairs(keys[0], vals[keys[0]]), ItemsOf(keys[1..], vals), k);
      PairsWithKeyPairs(keys[0], vals[keys[0]], k);
      assert Distinct(keys[1..]);
      ItemsOfWithKey(keys[1..], vals, k);
      if keys[0] == k {
        assert k !in keys[1..] by {
          forall i | 0 <= i < |keys[1..]| ensures keys[1..][i] != k {
            assert keys[1..][i] == keys[i + 1];
          }
        }
      }
    }
  }

  /** `itemsfor(k)` is the part of `items()` whose key is `k`. */
  lemma ItemsForIsItemsWithKey<K(!new), V>(m: Store<K, V>, k: K)
    requires Valid(m)
    ensures ItemsFor(m, k).1 == PairsWithKey(Items(m), k)
  {
    ItemsOfWithKey(m.keys, m.vals, k);
  }

}

// The ListMap object: its dictionary is the pair of fields `keys` and `vals`,
// and each method replaces them by the result of the matching Store operation.
module ListMapObjects {
  import opened Wrappers
  import opened Seqs
  import opened ListMaps

  class ListMap<K(==,!new), V(==)> {
    var keys: seq<K>
    var vals: map<K, seq<V>>

    function Model(): Store<K, V>
      reads this
    {
      Store(keys, vals)
    }

    ghost predicate Inv()
      reads this
    {
      Valid(Model())
    }

    constructor ()
      ensures Inv() && Model() == Empty()
    {
      keys := [];
      vals := map[];
    }

    method SetItem(k: K, v: seq<V>) returns (r: Result<(), ListMapError>)
      requires Inv()
      modifies this
      ensures Inv()
      ensures r.Err? <==> k in old(vals)
      ensures r.Err? ==> Model() == old(Model())
      ensures r.Ok? ==> Model() == ListMaps.SetItem(old(Model()), k, v).value
    {
      if k in vals {
        return Err(KeyError);
      }
      assert Distinct(keys + [k]);
      keys := keys + [k];
      vals := vals[k := v];
      return Ok(());
    }

    /** Inserts a missing key with an empty list, as `__missing__` does. */
    method Missing(k: K)
      requires Inv()
      modifies this
      ensures Inv() && Model() == Touch(old(Model()), k)
    {
      if k !in vals {
        assert Distinct(keys + [k]);
        keys := keys + [k];
        vals := vals[k := []];
      }
    }

    method Get(k: K) returns (r: Result<V, ListMapError>)
      requires Inv()
      modifies this
      ensures Inv() && (Model(), r) == First(old(Model()), k)
    {
      Missing(k);
      if vals[k] == [] {
        return Err(IndexError);
      }
      return Ok(vals[k][0]);
    }

    method GetAll(k: K) returns (r: seq<V>)
      requires Inv()
      modifies this
      ensures Inv() && (Model(), r) == ListMaps.GetAll(old(Model()), k)
    {
      Missing(k);
      r := vals[k];
    }

    function Items(): seq<(K, V)>
      requires Inv()
      reads this
    {
      ListMaps.Items(Model())
    }

    function Values(): seq<V>
      requires Inv()
      reads this
    {
      ListMaps.Values(Model())
    }

    method ItemsFor(k: K) returns (r: seq<(K, V)>)
      requires Inv()
      modifies this
      ensures Inv() && (Model(), r) == ListMaps.ItemsFor(old(Model()), k)
    {
      var l := GetAll(k);
      r := Pairs(k, l);
    }

    method Replace(k: K, v: V)
      requires Inv()
      modifies this
      ensures Inv() && Model() == ListMaps.Replace(old(Model()), k, v)
    {
      if k !in vals {
        assert Distinct(keys + [k]);
        keys := keys + [k];
      }
      vals := vals[k := [v]];
    }

    method Append(k: K, v: V)
      requires Inv()
      modifies this
      ensures Inv() && Model() == ListMaps.Append(old(Model()), k, v)
    {
      Missing(k);
      vals := vals[k := vals[k] + [v]];
    }

    method Remove(k: K, v: V) returns (r: Result<(), ListMapError>)
      requires Inv()
      modifies this
      ensures Inv() && (Model(), r) == ListMaps.Remove(old(Model()), k, v)
    {
      Missing(k);
      if v !in vals[k] {
        return Err(ValueError);
      }
      var rest := RemoveFirst(vals[k], v);
      if rest == [] {
        WithoutDistinct(keys, {k});
        keys := Without(keys, {k});
        vals := vals - {k};
      } else {
        vals := vals[k := rest];
      }
      return Ok(());
    }
  }
}
