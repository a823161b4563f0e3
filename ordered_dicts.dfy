/**
 * Python dictionaries (plain `dict` and `OrderedDict`) as the sequence of their
 * items in iteration order. A dictionary never holds a key twice; the
 * operations below keep `DistinctKeys` and the lemmas say how lookups behave.
 */
module OrderedDicts {
  import opened Wrappers
  import opened Sequences

  type ODict<V> = seq<(string, V)>

  /** `d.keys()`, in iteration order. */
  function Keys<V>(d: ODict<V>): (ks: seq<string>)
    ensures |ks| == |d| && forall i :: 0 <= i < |d| ==> ks[i] == d[i].0
  {
    seq(|d|, i requires 0 <= i < |d| => d[i].0)
  }

  /** No key occurs twice, as in every Python dictionary. */
  predicate DistinctKeys<V>(d: ODict<V>)
    decreases |d|
  {
    d == [] || (d[0].0 !in Keys(d[1..]) && DistinctKeys(d[1..]))
  }

  /** In a dictionary every key occurs once among its keys. */
  lemma {:induction false} KeyCount<V>(d: ODict<V>, x: string)
    requires DistinctKeys(d)
    ensures multiset(Keys(d))[x] == if x in Keys(d) then 1 else 0
    decreases |d|
  {
    if d != [] {
      KeyCount(d[1..], x);
      assert Keys(d) == [d[0].0] + Keys(d[1..]);
    }
  }

  /** `d[k]` when `k in d`; `None` plays the part of the KeyError. */
  function Lookup<V>(d: ODict<V>, k: string): (r: Option<V>)
    ensures r.Some? <==> k in Keys(d)
    decreases |d|
  {
    if d == [] then None
    else if d[0].0 == k then Some(d[0].1)
    else Lookup(d[1..], k)
  }

  /** `d[k]` for a key known to be present. */
  function ValueOf<V>(d: ODict<V>, k: string): V
    requires k in Keys(d)
  {
    Lookup(d, k).value
  }

  /** In a dictionary the item `(k, v)` is present exactly when `d[k]` is `v`. */
  lemma {:induction false} LookupItem<V>(d: ODict<V>, k: string, v: V)
    requires DistinctKeys(d)
    ensures (k, v) in d <==> Lookup(d, k) == Some(v)
    decreases |d|
  {
    if d != [] {
      assert DistinctKeys(d[1..]);
      LookupItem(d[1..], k, v);
    }
  }

  /** `d[k] = v`: an existing key keeps its position and takes the new value, a new key goes last. */
  function Put<V>(d: ODict<V>, k: string, v: V): (r: ODict<V>)
    ensures forall j :: Lookup(r, j) == if j == k then Some(v) else Lookup(d, j)
    ensures Keys(r) == if k in Keys(d) then Keys(d) else Keys(d) + [k]
  {
    if k in Keys(d) then
      ReplacedLookups(d, k, v);
      Replaced(d, k, v)
    else
      KeysAppend(d, [(k, v)]);
      AppendedLookups(d, k, v);
      d + [(k, v)]
  }

  /** `d` with the value of every item whose key is `k` set to `v`. */
  function Replaced<V>(d: ODict<V>, k: string, v: V): (r: ODict<V>)
    ensures |r| == |d| && forall i :: 0 <= i < |d| ==> r[i] == if d[i].0 == k then (k, v) else d[i]
    ensures Keys(r) == Keys(d)
  {
    seq(|d|, i requires 0 <= i < |d| => if d[i].0 == k then (k, v) else d[i])
  }

  lemma {:induction false} ReplacedLookup<V>(d: ODict<V>, k: string, v: V, j: string)
    ensures Lookup(Replaced(d, k, v), j) == if j == k && k in Keys(d) then Some(v) else Lookup(d, j)
    decreases |d|
  {
    if d != [] {
      assert Replaced(d, k, v)[1..] == Replaced(d[1..], k, v);
      assert Keys(d[1..]) == Keys(d)[1..];
      ReplacedLookup(d[1..], k, v, j);
    }
  }

  lemma ReplacedLookups<V>(d: ODict<V>, k: string, v: V)
    ensures forall j :: Lookup(Replaced(d, k, v), j) == if j == k && k in Keys(d) then Some(v) else Lookup(d, j)
  {
    forall j {
      ReplacedLookup(d, k, v, j);
    }
  }

  lemma AppendedLookups<V>(d: ODict<V>, k: string, v: V)
    ensures forall j :: Lookup(d + [(k, v)], j) == if j in Keys(d) then Lookup(d, j) else if j == k then Some(v) else None
  {
    forall j {
      LookupAppend(d, [(k, v)], j);
    }
  }

  /** Assigning a key keeps a dictionary's keys distinct. */
  lemma PutDistinct<V>(d: ODict<V>, k: string, v: V)
    requires DistinctKeys(d)
    ensures DistinctKeys(Put(d, k, v))
  {
    if k in Keys(d) {
      DistinctKeysSame(d, Put(d, k, v));
    } else {
      assert DistinctKeys([(k, v)]);
      DistinctAppend(d, [(k, v)]);
    }
  }

  /** Distinct keys depend on the keys alone. */
  lemma {:induction false} DistinctKeysSame<V>(d: ODict<V>, e: ODict<V>)
    requires DistinctKeys(d) && Keys(e) == Keys(d)
    ensures DistinctKeys(e)
    decreases |d|
  {
    if d != [] {
      assert Keys(d[1..]) == Keys(d)[1..];
      assert Keys(e[1..]) == Keys(e)[1..];
      DistinctKeysSame(d[1..], e[1..]);
    }
  }

  /** Assigning a key the dictionary does not hold appends the item. */
  lemma PutNew<V>(d: ODict<V>, k: string, v: V)
    requires k !in Keys(d)
    ensures Put(d, k, v) == d + [(k, v)]
  {
  }

  /** `d` without the item whose key is `k` (`del d[k]`, when it is present). */
  function Remove<V>(d: ODict<V>, k: string): (r: ODict<V>)
    ensures Lookup(r, k) == None
    ensures forall j :: j != k ==> Lookup(r, j) == Lookup(d, j)
    ensures DistinctKeys(d) ==> DistinctKeys(r)
    decreases |d|
  {
    if d == [] then []
    else if d[0].0 == k then Remove(d[1..], k)
    else
      var r := [d[0]] + Remove(d[1..], k);
      assert r[1..] == Remove(d[1..], k);
      assert Lookup(Remove(d[1..], k), d[0].0) == Lookup(d[1..], d[0].0);
      r
  }

  /** The keys of `Remove(d, k)` are those of `d` with every `k` taken out. */
  lemma RemoveKeys<V>(d: ODict<V>, k: string)
    ensures forall x :: multiset(Keys(Remove(d, k)))[x] == if x == k then 0 else multiset(Keys(d))[x]
  {
    forall x
      ensures multiset(Keys(Remove(d, k)))[x] == if x == k then 0 else multiset(Keys(d))[x]
    {
      RemoveKeyCount(d, k, x);
    }
  }

  /** How often `x` occurs among the keys of `Remove(d, k)`. */
  lemma {:induction false} RemoveKeyCount<V>(d: ODict<V>, k: string, x: string)
    ensures multiset(Keys(Remove(d, k)))[x] == if x == k then 0 else multiset(Keys(d))[x]
    decreases |d|
  {
    if d != [] {
      RemoveKeyCount(d[1..], k, x);
      var rest := Remove(d[1..], k);
      assert d == [d[0]] + d[1..];
      KeysAppend([d[0]], d[1..]);
      if d[0].0 != k {
        KeysAppend([d[0]], rest);
      }
    }
  }

  /** Looking a key up in `a + b` finds it in `a` first. */
  lemma {:induction false} LookupAppend<V>(a: ODict<V>, b: ODict<V>, k: string)
    ensures Lookup(a + b, k) == if k in Keys(a) then Lookup(a, k) else Lookup(b, k)
    decreases |a|
  {
    if a == [] {
      assert a + b == b;
    } else {
      LookupAppend(a[1..], b, k);
      assert (a + b)[1..] == a[1..] + b;
      assert Keys(a) == [a[0].0] + Keys(a[1..]);
    }
  }

  /**
   * `k` is the last keyword of `fixed` that `extra` also holds. Python 2
   * checks the written keywords against the `**` mapping from the last one
   * back to the first, so this is the key its `TypeError` names.
   */
  predicate LastClash<V>(fixed: ODict<V>, extra: ODict<V>, k: string)
  {
    exists i :: 0 <= i < |fixed| && fixed[i].0 == k && k in Keys(extra) &&
      forall j :: i < j < |fixed| ==> fixed[j].0 !in Keys(extra)
  }

  /** The keyword a doubled-key call names, if any. */
  function LastCollision<V>(fixed: ODict<V>, extra: ODict<V>): (r: Option<string>)
    ensures r.None? <==> forall i :: 0 <= i < |fixed| ==> fixed[i].0 !in Keys(extra)
    ensures r.Some? ==> LastClash(fixed, extra, r.value)
    decreases |fixed|
  {
    if fixed == [] then None
    else
      var n := |fixed| - 1;
      if fixed[n].0 in Keys(extra) then Some(fixed[n].0)
      else
        var r := LastCollision(fixed[..n], extra);
        assert forall i :: 0 <= i < n ==> fixed[..n][i] == fixed[i];
        if r.Some? then LastClashExtends(fixed, extra, r.value); r else r
  }

  /** A keyword the mapping does not hold, written last, leaves the named clash as it was. */
  lemma LastClashExtends<V>(fixed: ODict<V>, extra: ODict<V>, k: string)
    requires |fixed| > 0 && fixed[|fixed| - 1].0 !in Keys(extra)
    requires LastClash(fixed[..|fixed| - 1], extra, k)
    ensures LastClash(fixed, extra, k)
  {
    var init := fixed[..|fixed| - 1];
    var i :| 0 <= i < |init| && init[i].0 == k && k in Keys(extra) &&
      forall j :: i < j < |init| ==> init[j].0 !in Keys(extra);
    assert fixed[i].0 == k;
    assert forall j :: i < j < |init| ==> fixed[j] == init[j];
  }

  /** A key of `extra` is a keyword of `fixed` exactly when a keyword of `fixed` is a key of `extra`. */
  lemma ClashSymmetric<V>(fixed: ODict<V>, extra: ODict<V>)
    ensures (forall i :: 0 <= i < |extra| ==> extra[i].0 !in Keys(fixed)) <==>
            (forall i :: 0 <= i < |fixed| ==> fixed[i].0 !in Keys(extra))
  {
    if exists i :: 0 <= i < |extra| && extra[i].0 in Keys(fixed) {
      var i :| 0 <= i < |extra| && extra[i].0 in Keys(fixed);
      var j :| 0 <= j < |fixed| && Keys(fixed)[j] == extra[i].0;
      assert Keys(extra)[i] == fixed[j].0;
    }
    if exists j :: 0 <= j < |fixed| && fixed[j].0 in Keys(extra) {
      var j :| 0 <= j < |fixed| && fixed[j].0 in Keys(extra);
      var i :| 0 <= i < |extra| && Keys(extra)[i] == fixed[j].0;
      assert Keys(fixed)[j] == extra[i].0;
    }
  }

  /** `d` holds every entry of `fixed` and then every entry of `extra`. */
  predicate Merges<V(==)>(d: ODict<V>, fixed: ODict<V>, extra: ODict<V>)
  {
    && Keys(d) == Keys(fixed) + Keys(extra)
    && (forall k :: k in Keys(fixed) ==> Lookup(d, k) == Lookup(fixed, k))
    && (forall k :: k in Keys(extra) ==> Lookup(d, k) == Lookup(extra, k))
  }

  /**
   * A call `OrderedDict(k1=v1, ..., **extra)`: the keyword arguments as written,
   * then the mapping's items; a key given twice is a `TypeError` naming the
   * last written keyword the mapping repeats.
   */
  function Kwargs<V(==)>(fixed: ODict<V>, extra: ODict<V>): (r: Result<ODict<V>, string>)
    ensures r.Ok? <==> forall i :: 0 <= i < |extra| ==> extra[i].0 !in Keys(fixed)
    ensures r.Err? ==> r.error in Keys(fixed) && r.error in Keys(extra) && LastClash(fixed, extra, r.error)
    ensures r.Ok? ==> Merges(r.value, fixed, extra)
    ensures r.Ok? && DistinctKeys(fixed) && DistinctKeys(extra) ==> DistinctKeys(r.value)
  {
    ClashSymmetric(fixed, extra);
    match LastCollision(fixed, extra)
    case Some(k) => Err(k)
    case None =>
      KeysAppend(fixed, extra);
      forall k | k in Keys(fixed) + Keys(extra) ensures Lookup(fixed + extra, k) == if k in Keys(fixed) then Lookup(fixed, k) else Lookup(extra, k) {
        LookupAppend(fixed, extra, k);
      }
      assert DistinctKeys(fixed) && DistinctKeys(extra) ==> DistinctKeys(fixed + extra) by {
        if DistinctKeys(fixed) && DistinctKeys(extra) {
          DistinctAppend(fixed, extra);
        }
      }
      Ok(fixed + extra)
  }

  lemma KeysAppend<V>(a: ODict<V>, b: ODict<V>)
    ensures Keys(a + b) == Keys(a) + Keys(b)
  {
    var l, r := Keys(a + b), Keys(a) + Keys(b);
    forall i | 0 <= i < |a + b| ensures l[i] == r[i] {
      if i < |a| {
        assert (a + b)[i] == a[i];
      } else {
        assert (a + b)[i] == b[i - |a|];
      }
    }
  }

  lemma {:induction false} DistinctAppend<V>(a: ODict<V>, b: ODict<V>)
    requires DistinctKeys(a) && DistinctKeys(b)
    requires forall i :: 0 <= i < |b| ==> b[i].0 !in Keys(a)
    ensures DistinctKeys(a + b)
    decreases |a|
  {
    if a == [] {
      assert a + b == b;
    } else {
      assert Keys(a) == [a[0].0] + Keys(a[1..]);
      DistinctAppend(a[1..], b);
      assert (a + b)[1..] == a[1..] + b;
      KeysAppend(a[1..], b);
      assert a[0].0 !in Keys(b);
    }
  }

  /** A key not found before position `i` is looked up at position `i`. */
  lemma {:induction false} LookupAt<V>(d: ODict<V>, i: nat)
    requires i < |d| && forall j :: 0 <= j < i ==> d[j].0 != d[i].0
    ensures Lookup(d, d[i].0) == Some(d[i].1)
    decreases i
  {
    if i > 0 {
      LookupAt(d[1..], i - 1);
    }
  }

  /** A dictionary whose listed keys are pairwise different. */
  lemma {:induction false} DistinctKeysOf<V>(d: ODict<V>)
    requires Distinct(Keys(d))
    ensures DistinctKeys(d)
    decreases |d|
  {
    if d != [] {
      assert Keys(d[1..]) == Keys(d)[1..];
      DistinctKeysOf(d[1..]);
    }
  }

  /** With distinct keys, looking up the key at position `i` finds the value at position `i`. */
  lemma LookupIndex<V>(d: ODict<V>, i: nat)
    requires Distinct(Keys(d)) && i < |d|
    ensures Lookup(d, d[i].0) == Some(d[i].1)
  {
    KeysBefore(d, i);
    LookupAt(d, i);
  }

  /** With distinct keys, no key before position `i` is the key at `i`. */
  lemma KeysBefore<V>(d: ODict<V>, i: nat)
    requires Distinct(Keys(d)) && i < |d|
    ensures forall j :: 0 <= j < i ==> d[j].0 != d[i].0
  {
    var ks := Keys(d);
    assert forall j :: 0 <= j < i ==> ks[j] != ks[i];
  }

  /** With the keys known to be `ks`, all different, the key `ks[i]` finds the value at position `i`. */
  lemma LookupKeyed<V>(d: ODict<V>, ks: seq<string>, i: nat)
    requires Keys(d) == ks && Distinct(ks) && i < |d|
    ensures Lookup(d, ks[i]) == Some(d[i].1)
  {
    LookupIndex(d, i);
  }
}
