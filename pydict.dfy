/**
 * Python dictionaries with string keys, as the IBM WAS check builds them.
 * Iteration follows insertion order, and assigning to a key that is already
 * present replaces its value where it stands. A dictionary is therefore an
 * association list whose keys do not repeat.
 */
module PyDict {
  import opened Wrappers

  type Dict<V> = seq<(string, V)>

  /** The keys, in iteration order. */
  function Keys<V>(d: Dict<V>): (ks: seq<string>)
    ensures |ks| == |d|
    ensures forall i :: 0 <= i < |d| ==> ks[i] == d[i].0
  {
    if d == [] then [] else [d[0].0] + Keys(d[1..])
  }

  /** The dictionary invariant: no key appears twice. */
  ghost predicate NoDuplicateKeys<V>(d: Dict<V>) {
    forall i, j :: 0 <= i < j < |d| ==> d[i].0 != d[j].0
  }

  /** `d.get(k)`: the value stored under `k`, or None. */
  function Get<V>(d: Dict<V>, k: string): (r: Option<V>)
    ensures r.Some? <==> k in Keys(d)
    ensures r.Some? ==> (k, r.value) in d
  {
    if d == [] then None
    else if d[0].0 == k then Some(d[0].1)
    else Get(d[1..], k)
  }

  /** `d[k] = v`: overwrite in place when `k` is present, append otherwise. */
  function Set<V>(d: Dict<V>, k: string, v: V): Dict<V>
  {
    if d == [] then [(k, v)]
    else if d[0].0 == k then [(k, v)] + d[1..]
    else [d[0]] + Set(d[1..], k, v)
  }

  /** `dict(base, **over)`: every entry of `over` assigned, in order, onto a copy of `base`. */
  function Merge<V>(base: Dict<V>, over: Dict<V>): Dict<V>
    decreases |over|
  {
    if over == [] then base else Merge(Set(base, over[0].0, over[0].1), over[1..])
  }

  /** In a dictionary, the entry at position i is what `get` finds for its key. */
  lemma {:induction false} GetAt<V>(d: Dict<V>, i: nat)
    requires NoDuplicateKeys(d)
    requires i < |d|
    ensures Get(d, d[i].0) == Some(d[i].1)
  {
    if i > 0 {
      assert d[0].0 != d[i].0;
      assert d[1..][i - 1] == d[i];
      GetAt(d[1..], i - 1);
    }
  }

  /** After `d[k] = v`, `k` maps to `v` and every other key maps to what it mapped to before. */
  lemma {:induction false} SetGet<V>(d: Dict<V>, k: string, v: V, j: string)
    ensures Get(Set(d, k, v), j) == if j == k then Some(v) else Get(d, j)
  {
    if d != [] && d[0].0 != k {
      SetGet(d[1..], k, v, j);
    }
  }

  /** `d[k] = v` keeps the position of an existing key and appends a new one at the end. */
  lemma {:induction false} SetKeys<V>(d: Dict<V>, k: string, v: V)
    ensures Keys(Set(d, k, v)) == if k in Keys(d) then Keys(d) else Keys(d) + [k]
  {
    if d == [] {
    } else if d[0].0 == k {
      assert Keys([(k, v)] + d[1..]) == [k] + Keys(d[1..]);
    } else {
      SetKeys(d[1..], k, v);
      assert Keys(d) == [d[0].0] + Keys(d[1..]);
      assert Set(d, k, v) == [d[0]] + Set(d[1..], k, v);
      assert Keys([d[0]] + Set(d[1..], k, v)) == [d[0].0] + Keys(Set(d[1..], k, v));
    }
  }

  /** Assignment keeps a dictionary free of repeated keys. */
  lemma SetNoDuplicateKeys<V>(d: Dict<V>, k: string, v: V)
    requires NoDuplicateKeys(d)
    ensures NoDuplicateKeys(Set(d, k, v))
  {
    SetKeys(d, k, v);
    var r := Set(d, k, v);
    forall i, j | 0 <= i < j < |r| ensures r[i].0 != r[j].0 {
      assert Keys(r)[i] == r[i].0 && Keys(r)[j] == r[j].0;
      if k !in Keys(d) && j == |d| {
        assert Keys(d)[i] == r[i].0;
      } else {
        assert Keys(d)[i] == d[i].0 && Keys(d)[j] == d[j].0;
      }
    }
  }

  /** The value the last entry with key `k` carries: what assigning all entries in order leaves under `k`. */
  function LastGet<V>(entries: seq<(string, V)>, k: string): (r: Option<V>)
    ensures r.Some? <==> k in Keys(entries)
  {
    if entries == [] then None
    else
      var n := |entries| - 1;
      assert Keys(entries) == Keys(entries[..n]) + [entries[n].0];
      if entries[n].0 == k then Some(entries[n].1) else LastGet(entries[..n], k)
  }

  /** `LastGet` yields the value of the entry for `k` that no later entry for `k` follows. */
  lemma {:induction false} LastGetAt<V>(entries: seq<(string, V)>, j: nat, k: string)
    requires j < |entries| && entries[j].0 == k
    requires forall m :: j < m < |entries| ==> entries[m].0 != k
    ensures LastGet(entries, k) == Some(entries[j].1)
    decreases |entries|
  {
    var n := |entries| - 1;
    if j < n {
      var init := entries[..n];
      assert init[j] == entries[j];
      forall m | j < m < |init| ensures init[m].0 != k {
        assert init[m] == entries[m];
      }
      LastGetAt(init, j, k);
    }
  }

  /** What `LastGet` yields is the value of some entry for `k`. */
  lemma {:induction false} LastGetIn<V>(entries: seq<(string, V)>, k: string)
    ensures LastGet(entries, k).Some? ==> (k, LastGet(entries, k).value) in entries
    decreases |entries|
  {
    if entries != [] && entries[|entries| - 1].0 != k {
      LastGetIn(entries[..|entries| - 1], k);
    }
  }

  lemma {:induction false} LastGetCons<V>(x: (string, V), rest: seq<(string, V)>, k: string)
    ensures LastGet([x] + rest, k) ==
      if LastGet(rest, k).Some? then LastGet(rest, k) else if x.0 == k then Some(x.1) else None
    decreases |rest|
  {
    if rest != [] {
      var es := [x] + rest;
      assert es[..|es| - 1] == [x] + rest[..|rest| - 1];
      LastGetCons(x, rest[..|rest| - 1], k);
    }
  }

  /** In a dictionary, the last entry for a key is its only entry. */
  lemma {:induction false} LastGetOfDict<V>(d: Dict<V>, k: string)
    requires NoDuplicateKeys(d)
    ensures LastGet(d, k) == Get(d, k)
  {
    if d != [] {
      var rest := d[1..];
      assert NoDuplicateKeys(rest) by {
        forall i, j | 0 <= i < j < |rest| ensures rest[i].0 != rest[j].0 {
          assert rest[i] == d[i + 1] && rest[j] == d[j + 1];
        }
      }
      LastGetOfDict(rest, k);
      LastGetCons(d[0], rest, k);
      assert d == [d[0]] + rest;
      if d[0].0 == k {
        assert k !in Keys(rest) by {
          forall i | 0 <= i < |rest| ensures Keys(rest)[i] != k {
            assert rest[i] == d[i + 1];
          }
        }
      }
    }
  }

  /**
   * In `dict(base, **over)`, or after assigning the entries of `over` one by
   * one, the last entry of `over` for a key wins; keys `over` lacks keep their
   * value from `base`.
   */
  lemma {:induction false} MergeGet<V>(base: Dict<V>, over: seq<(string, V)>, k: string)
    ensures Get(Merge(base, over), k) == if LastGet(over, k).Some? then LastGet(over, k) else Get(base, k)
    decreases |over|
  {
    if over != [] {
      MergeGet(Set(base, over[0].0, over[0].1), over[1..], k);
      SetGet(base, over[0].0, over[0].1, k);
      LastGetCons(over[0], over[1..], k);
      assert over == [over[0]] + over[1..];
    }
  }

  /** `dict(base, **over)` for a dictionary `over`: the entry of `over` wins on a shared key. */
  lemma MergeDictGet<V>(base: Dict<V>, over: Dict<V>, k: string)
    requires NoDuplicateKeys(over)
    ensures Get(Merge(base, over), k) == if k in Keys(over) then Get(over, k) else Get(base, k)
  {
    MergeGet(base, over, k);
    LastGetOfDict(over, k);
  }

  /** Looking a key up in a dictionary grown by one new entry at the end. */
  lemma {:induction false} GetAppend<V>(d: Dict<V>, x: (string, V), k: string)
    ensures Get(d + [x], k) == if k in Keys(d) then Get(d, k) else if x.0 == k then Some(x.1) else None
  {
    if d != [] {
      assert (d + [x])[1..] == d[1..] + [x];
      assert Keys(d) == [d[0].0] + Keys(d[1..]);
      GetAppend(d[1..], x, k);
    }
  }

  /** Assigning one more entry after the others. */
  lemma {:induction false} MergeSnoc<V>(base: Dict<V>, over: seq<(string, V)>, x: (string, V))
    ensures Merge(base, over + [x]) == Set(Merge(base, over), x.0, x.1)
    decreases |over|
  {
    if over == [] {
      assert over + [x] == [x];
    } else {
      assert (over + [x])[0] == over[0];
      assert (over + [x])[1..] == over[1..] + [x];
      MergeSnoc(Set(base, over[0].0, over[0].1), over[1..], x);
    }
  }

  /** `dict(base, **over)` keeps every key of `base` where it was; new keys follow them. */
  lemma {:induction false} MergeKeepsBaseOrder<V>(base: Dict<V>, over: Dict<V>)
    ensures |Keys(base)| <= |Keys(Merge(base, over))|
    ensures Keys(Merge(base, over))[..|base|] == Keys(base)
    decreases |over|
  {
    if over != [] {
      var b' := Set(base, over[0].0, over[0].1);
      SetKeys(base, over[0].0, over[0].1);
      MergeKeepsBaseOrder(b', over[1..]);
      assert Keys(b')[..|base|] == Keys(base);
    }
  }

  /** `dict(base, **over)` is a dictionary: no key repeats. */
  lemma {:induction false} MergeNoDuplicateKeys<V>(base: Dict<V>, over: Dict<V>)
    requires NoDuplicateKeys(base)
    ensures NoDuplicateKeys(Merge(base, over))
    decreases |over|
  {
    if over != [] {
      SetNoDuplicateKeys(base, over[0].0, over[0].1);
      MergeNoDuplicateKeys(Set(base, over[0].0, over[0].1), over[1..]);
    }
  }

  /** The keys of `dict(base, **over)` are exactly those of `base` and of `over`. */
  lemma {:induction false} MergeKeySet<V>(base: Dict<V>, over: Dict<V>, k: string)
    ensures k in Keys(Merge(base, over)) <==> k in Keys(base) || k in Keys(over)
    decreases |over|
  {
    if over != [] {
      SetKeys(base, over[0].0, over[0].1);
      assert Keys(over) == [over[0].0] + Keys(over[1..]);
      MergeKeySet(Set(base, over[0].0, over[0].1), over[1..], k);
    }
  }
}
