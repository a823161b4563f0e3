/**
 * The document post-processing of `gaspy/gasdb.py`: cleaning aggregated
 * documents, the fingerprint strings that documents are hashed by, the
 * "not yet simulated" filter built on them, `chunks`, and the keep-first
 * rule of duplicate removal. Mongo collections are in-memory sequences.
 */
module GasDb {
  import opened Wrappers
  import opened Sequences
  import opened OrderedDicts
  import opened StringOrder
  import opened Values

  // ---------------------------------------------------------------------------
  // _hash_doc

  /** What `_hash_doc` returns: `hash(system)`, or with `_return_hash=False` the string `system` itself. */
  datatype Digest = Hashed(h: int) | PreImage(system: string)

  /** One item of the fingerprint string: `key + '=' + str(value) + '; '`. */
  function Item(key: string, value: Value, show: Value -> string): string
  {
    key + "=" + show(value) + "; "
  }

  /** What one key adds to the fingerprint string: nothing when it is ignored. */
  function Piece(doc: Doc, key: string, ignore: seq<string>, show: Value -> string): string
  {
    if key in ignore then ""
    else
      match Lookup(doc, key)
      case Some(value) => Item(key, value, show)
      case None => ""
  }

  /** The fingerprint string built over `keys` in that order, skipping the ignored ones. */
  function Render(doc: Doc, keys: seq<string>, ignore: seq<string>, show: Value -> string): string
    decreases |keys|
  {
    if keys == [] then ""
    else Render(doc, keys[..|keys| - 1], ignore, show) + Piece(doc, keys[|keys| - 1], ignore, show)
  }

  /** Sorting the keys of a document yields keys of that document. */
  lemma SortedKeyOfDoc(doc: Doc, i: nat)
    requires i < |Sort(Keys(doc))|
    ensures Sort(Keys(doc))[i] in Keys(doc)
  {
    assert Sort(Keys(doc))[i] in multiset(Sort(Keys(doc)));
  }

  /** The pre-hash string of a document: its non-ignored items in ascending key order. */
  function PreHash(doc: Doc, ignore: seq<string>, show: Value -> string): string
  {
    Render(doc, Sort(Keys(doc)), ignore, show)
  }

  function DigestOf(doc: Doc, ignore: seq<string>, returnHash: bool, show: Value -> string, hash: string -> int): Digest
  {
    var system := PreHash(doc, ignore, show);
    if returnHash then Hashed(hash(system)) else PreImage(system)
  }

  /**
   * `_hash_doc(doc, ignore_keys, _return_hash)`. `str()` of a value (with its
   * rounding of floats) is `show`, Python's `hash` is `hash`; a missing
   * `ignore_keys` is the empty list.
   */
  method HashDoc(show: Value -> string, hash: string -> int, doc: Doc, ignoreKeys: seq<string> := [], returnHash: bool := true)
    returns (r: Digest)
    ensures r == DigestOf(doc, ignoreKeys, returnHash, show, hash)
  {
    var keys := Sort(Keys(doc));
    var system := "";
    for i := 0 to |keys|
      invariant system == Render(doc, keys[..i], ignoreKeys, show)
    {
      assert keys[..i + 1][..i] == keys[..i];
      var key := keys[i];
      ghost var piece := Piece(doc, key, ignoreKeys, show);
      assert Render(doc, keys[..i + 1], ignoreKeys, show) == system + piece;
      if key !in ignoreKeys {
        SortedKeyOfDoc(doc, i);
        var value := ValueOf(doc, key);
        assert piece == key + "=" + show(value) + "; ";
        system := system + (key + "=" + show(value) + "; ");
      } else {
        assert piece == "";
      }
    }
    assert keys[..|keys|] == keys;
    if returnHash {
      r := Hashed(hash(system));
    } else {
      r := PreImage(system);
    }
  }

  /** Rendering the same keys of two documents that agree on every non-ignored one gives the same string. */
  lemma {:induction false} RenderAgrees(d1: Doc, d2: Doc, keys: seq<string>, ignore: seq<string>, show: Value -> string)
    requires forall k :: k in keys && k !in ignore ==> Lookup(d1, k) == Lookup(d2, k)
    ensures Render(d1, keys, ignore, show) == Render(d2, keys, ignore, show)
    decreases |keys|
  {
    if keys != [] {
      RenderAgrees(d1, d2, keys[..|keys| - 1], ignore, show);
    }
  }

  /** The pre-hash string does not depend on the order in which the document's items were inserted. */
  lemma PreHashInsertionOrder(d1: Doc, d2: Doc, ignore: seq<string>, show: Value -> string)
    requires DistinctKeys(d1) && DistinctKeys(d2)
    requires forall k :: Lookup(d1, k) == Lookup(d2, k)
    ensures PreHash(d1, ignore, show) == PreHash(d2, ignore, show)
  {
    SameKeys(d1, d2);
    AscendingUnique(Sort(Keys(d1)), Sort(Keys(d2)));
    RenderAgrees(d1, d2, Sort(Keys(d1)), ignore, show);
  }

  /** Two dictionaries with the same lookups have the same keys, up to order. */
  lemma SameKeys(d1: Doc, d2: Doc)
    requires DistinctKeys(d1) && DistinctKeys(d2)
    requires forall k :: Lookup(d1, k) == Lookup(d2, k)
    ensures multiset(Keys(d1)) == multiset(Keys(d2))
  {
    forall x ensures multiset(Keys(d1))[x] == multiset(Keys(d2))[x] {
      KeyCount(d1, x);
      KeyCount(d2, x);
      assert Lookup(d1, x) == Lookup(d2, x);
    }
  }

  /** Every key of a document that is ignored contributes nothing: such a document renders as `''`. */
  lemma {:induction false} RenderAllIgnored(doc: Doc, keys: seq<string>, ignore: seq<string>, show: Value -> string)
    requires forall k :: k in keys ==> k in ignore
    ensures Render(doc, keys, ignore, show) == ""
    decreases |keys|
  {
    if keys != [] {
      RenderAllIgnored(doc, keys[..|keys| - 1], ignore, show);
    }
  }

  /** An empty document, or one whose every key is ignored, has the empty pre-hash string. */
  lemma PreHashAllIgnored(doc: Doc, ignore: seq<string>, show: Value -> string)
    requires forall k :: k in Keys(doc) ==> k in ignore
    ensures PreHash(doc, ignore, show) == ""
  {
    var keys := Sort(Keys(doc));
    forall k | k in keys ensures k in ignore {
      assert k in multiset(keys);
    }
    RenderAllIgnored(doc, keys, ignore, show);
  }

  /** `keys` with every occurrence of `k` taken out. */
  function DropKey(keys: seq<string>, k: string): (r: seq<string>)
    ensures forall j :: j in r <==> j in keys && j != k
    ensures forall x :: multiset(r)[x] == if x == k then 0 else multiset(keys)[x]
    decreases |keys|
  {
    if keys == [] then []
    else
      var init, last := keys[..|keys| - 1], keys[|keys| - 1];
      assert keys == init + [last];
      DropKey(init, k) + (if last != k then [last] else [])
  }

  /** Dropping a key from a sorted key list leaves it sorted. */
  lemma {:induction false} DropKeyAscending(keys: seq<string>, k: string)
    requires Ascending(keys)
    ensures Ascending(DropKey(keys, k))
    decreases |keys|
  {
    if keys != [] {
      var init, last := keys[..|keys| - 1], keys[|keys| - 1];
      assert keys == init + [last];
      DropKeyAscending(init, k);
      var d := DropKey(init, k);
      if last != k {
        var r := d + [last];
        forall i, j | 0 <= i < j < |r| ensures AtMost(r[i], r[j]) {
          if j == |r| - 1 {
            assert r[i] == d[i] && d[i] in init;
            var m :| 0 <= m < |init| && init[m] == d[i];
            assert keys[m] == r[i] && keys[|keys| - 1] == r[j];
          } else {
            assert r[i] == d[i] && r[j] == d[j];
          }
        }
      }
    }
  }

  /** Rendering with `k` ignored is rendering the document without `k` over the keys without `k`. */
  lemma {:induction false} RenderWithout(doc: Doc, keys: seq<string>, k: string, ignore: seq<string>, show: Value -> string)
    ensures Render(doc, keys, ignore + [k], show) == Render(Remove(doc, k), DropKey(keys, k), ignore, show)
    decreases |keys|
  {
    if keys != [] {
      var init, last := keys[..|keys| - 1], keys[|keys| - 1];
      assert keys == init + [last];
      RenderWithout(doc, init, k, ignore, show);
      var rest := DropKey(keys, k);
      if last == k {
        assert rest == DropKey(init, k);
        assert last in ignore + [k];
      } else {
        assert rest == DropKey(init, k) + [last];
        assert rest[..|rest| - 1] == DropKey(init, k);
        assert last in ignore + [k] <==> last in ignore;
        assert Lookup(Remove(doc, k), last) == Lookup(doc, last);
      }
    }
  }

  /** Ignoring a key gives the same pre-hash string as removing it from the document. */
  lemma PreHashIgnoreIsRemove(doc: Doc, k: string, ignore: seq<string>, show: Value -> string)
    ensures PreHash(doc, ignore + [k], show) == PreHash(Remove(doc, k), ignore, show)
  {
    SortedWithout(doc, k);
    RenderWithout(doc, Sort(Keys(doc)), k, ignore, show);
  }

  /** The sorted keys of the document without `k` are its sorted keys with `k` dropped. */
  lemma SortedWithout(doc: Doc, k: string)
    ensures DropKey(Sort(Keys(doc)), k) == Sort(Keys(Remove(doc, k)))
  {
    DropKeyAscending(Sort(Keys(doc)), k);
    DroppedKeys(doc, k);
    AscendingUnique(DropKey(Sort(Keys(doc)), k), Sort(Keys(Remove(doc, k))));
  }

  lemma DroppedKeys(doc: Doc, k: string)
    ensures multiset(DropKey(Sort(Keys(doc)), k)) == multiset(Keys(Remove(doc, k)))
  {
    var sorted := Sort(Keys(doc));
    var a, b := DropKey(sorted, k), Keys(Remove(doc, k));
    RemoveKeys(doc, k);
    forall x ensures multiset(a)[x] == multiset(b)[x] {
      assert multiset(sorted)[x] == multiset(Keys(doc))[x];
    }
    assert multiset(a) == multiset(b);
  }

  // ---------------------------------------------------------------------------
  // _hash_docs

  /** The key under which the `fingerprints` projection carries a document's Mongo `_id`. */
  const MongoId: string := "mongo_id"

  /** A Python list of strings owned by the caller, which `_hash_docs` may append to. */
  class KeyList {
    var items: seq<string>

    constructor (items: seq<string>)
      ensures this.items == items
    {
      this.items := items;
    }

    /** `list.append(x)` */
    method Append(x: string)
      modifies this
      ensures items == old(items) + [x]
    {
      items := items + [x];
    }
  }

  /**
   * `_hash_docs(docs, ignore_keys, _return_hashes)`. A missing (`null`) or
   * empty list is replaced by a fresh one; a non-empty list of the caller gets
   * `'mongo_id'` appended in place, and every document is hashed with it.
   */
  method HashDocs(show: Value -> string, hash: string -> int, docs: seq<Doc>, ignoreKeys: KeyList? := null,
                  returnHashes: bool := true)
    returns (hashes: seq<Digest>)
    modifies ignoreKeys
    ensures ignoreKeys != null && old(ignoreKeys.items) != [] ==> ignoreKeys.items == old(ignoreKeys.items) + [MongoId]
    ensures ignoreKeys != null && old(ignoreKeys.items) == [] ==> ignoreKeys.items == []
    ensures hashes == Map(docs, Hasher((if ignoreKeys == null then [] else old(ignoreKeys.items)) + [MongoId], returnHashes, show, hash))
  {
    var keys: KeyList;
    if ignoreKeys == null || ignoreKeys.items == [] {
      keys := new KeyList([]);
    } else {
      keys := ignoreKeys;
    }
    keys.Append(MongoId);
    ghost var used := keys.items;
    assert used == (if ignoreKeys == null then [] else old(ignoreKeys.items)) + [MongoId];
    hashes := [];
    for i := 0 to |docs|
      invariant keys.items == used
      invariant ignoreKeys != null && ignoreKeys != keys ==> ignoreKeys.items == old(ignoreKeys.items)
      invariant hashes == Map(docs[..i], Hasher(used, returnHashes, show, hash))
    {
      var h := HashDoc(show, hash, docs[i], keys.items, returnHashes);
      assert docs[..i + 1][..i] == docs[..i];
      hashes := hashes + [h];
    }
    assert docs[..|docs|] == docs;
  }

  /** `_hash_doc` with the ignore list and flags fixed, as a function of the document. */
  function Hasher(ignore: seq<string>, returnHash: bool, show: Value -> string, hash: string -> int): Doc -> Digest
  {
    doc => DigestOf(doc, ignore, returnHash, show, hash)
  }

  /** Two documents that differ only in their `mongo_id` get the same result from `_hash_docs`. */
  lemma HashDocsIgnoresMongoId(d1: Doc, d2: Doc, given: seq<string>, returnHashes: bool, show: Value -> string, hash: string -> int)
    requires Remove(d1, MongoId) == Remove(d2, MongoId)
    ensures DigestOf(d1, given + [MongoId], returnHashes, show, hash) == DigestOf(d2, given + [MongoId], returnHashes, show, hash)
  {
    PreHashIgnoreIsRemove(d1, MongoId, given, show);
    PreHashIgnoreIsRemove(d2, MongoId, given, show);
  }

  // ---------------------------------------------------------------------------
  // get_unsimulated_catalog_docs (once both collections are read)

  const SimulatedIgnore: seq<string> := ["mongo_id", "formula", "energy", "adsorbates", "adslab_calculation_date"]
  const CatalogIgnore: seq<string> := ["mongo_id", "formula"]

  /** The hash of a simulated adsorption document, as `_hash_docs` computes it there. */
  function SimulatedHash(doc: Doc, show: Value -> string, hash: string -> int): Digest
  {
    DigestOf(doc, SimulatedIgnore + [MongoId], true, show, hash)
  }

  /** The hash of a catalog document, as `_hash_docs` computes it there. */
  function CatalogHash(doc: Doc, show: Value -> string, hash: string -> int): Digest
  {
    DigestOf(doc, CatalogIgnore + [MongoId], true, show, hash)
  }

  function SimulatedHashes(simulated: seq<Doc>, show: Value -> string, hash: string -> int): set<Digest>
  {
    set s | s in simulated :: SimulatedHash(s, show, hash)
  }

  /** Whether a catalog document still needs simulating: its hash is not among those of the simulated documents. */
  function NotSimulated(simulated: seq<Doc>, show: Value -> string, hash: string -> int): Doc -> bool
  {
    d => CatalogHash(d, show, hash) !in SimulatedHashes(simulated, show, hash)
  }

  /**
   * The filtering part of `get_unsimulated_catalog_docs`: `simulated` and
   * `catalog` are what `_get_attempted_adsorption_docs` and `get_catalog_docs`
   * returned.
   */
  method UnsimulatedCatalogDocs(simulated: seq<Doc>, catalog: seq<Doc>, show: Value -> string, hash: string -> int)
    returns (docs: seq<Doc>)
    ensures docs == Filter(catalog, NotSimulated(simulated, show, hash))
  {
    var simulatedKeys := new KeyList(SimulatedIgnore);
    var hashesSimulated := HashDocs(show, hash, simulated, simulatedKeys, true);
    var catalogKeys := new KeyList(CatalogIgnore);
    var hashesCatalog := HashDocs(show, hash, catalog, catalogKeys, true);
    var hashesUnsimulated := (set h | h in hashesCatalog) - (set h | h in hashesSimulated);

    SimulatedHashSet(simulated, hashesSimulated, show, hash);
    ghost var done := SimulatedHashes(simulated, show, hash);
    forall i | 0 <= i < |catalog|
      ensures hashesCatalog[i] in hashesUnsimulated <==> CatalogHash(catalog[i], show, hash) !in done
    {
      assert hashesCatalog[i] in (set h | h in hashesCatalog);
    }
    docs := KeepUnsimulated(catalog, hashesCatalog, hashesUnsimulated, done, show, hash);
    UnsimulatedIsFilter(catalog, simulated, show, hash);
  }

  /**
   * The loop of `get_unsimulated_catalog_docs`: keep, in order, the catalog
   * documents whose hash is among the unsimulated ones.
   */
  method KeepUnsimulated(catalog: seq<Doc>, hashesCatalog: seq<Digest>, hashesUnsimulated: set<Digest>,
                         ghost done: set<Digest>, show: Value -> string, hash: string -> int)
    returns (docs: seq<Doc>)
    requires |hashesCatalog| == |catalog|
    requires forall i :: 0 <= i < |catalog| ==>
      (hashesCatalog[i] in hashesUnsimulated <==> CatalogHash(catalog[i], show, hash) !in done)
    ensures docs == Unsimulated(catalog, done, show, hash)
  {
    docs := [];
    for i := 0 to |catalog|
      invariant docs == Unsimulated(catalog[..i], done, show, hash)
    {
      assert catalog[..i + 1][..i] == catalog[..i];
      if hashesCatalog[i] in hashesUnsimulated {
        docs := docs + [catalog[i]];
      }
    }
    assert catalog[..|catalog|] == catalog;
  }

  /** The catalog documents, in order, whose hash is not in `done`. */
  function Unsimulated(catalog: seq<Doc>, done: set<Digest>, show: Value -> string, hash: string -> int): seq<Doc>
    decreases |catalog|
  {
    if catalog == [] then []
    else
      var d := catalog[|catalog| - 1];
      Unsimulated(catalog[..|catalog| - 1], done, show, hash) + (if CatalogHash(d, show, hash) !in done then [d] else [])
  }

  lemma {:induction false} UnsimulatedIsFilter(catalog: seq<Doc>, simulated: seq<Doc>, show: Value -> string, hash: string -> int)
    ensures Unsimulated(catalog, SimulatedHashes(simulated, show, hash), show, hash) == Filter(catalog, NotSimulated(simulated, show, hash))
    decreases |catalog|
  {
    if catalog != [] {
      var init, d := catalog[..|catalog| - 1], catalog[|catalog| - 1];
      assert catalog == init + [d];
      UnsimulatedIsFilter(init, simulated, show, hash);
      FilterSnoc(init, d, NotSimulated(simulated, show, hash));
    }
  }

  lemma SimulatedHashSet(simulated: seq<Doc>, hashes: seq<Digest>, show: Value -> string, hash: string -> int)
    requires |hashes| == |simulated|
    requires forall j :: 0 <= j < |simulated| ==> hashes[j] == SimulatedHash(simulated[j], show, hash)
    ensures (set h | h in hashes) == SimulatedHashes(simulated, show, hash)
  {
    forall h | h in hashes ensures h in SimulatedHashes(simulated, show, hash) {
      var j :| 0 <= j < |hashes| && hashes[j] == h;
      assert simulated[j] in simulated;
    }
    forall s | s in simulated ensures SimulatedHash(s, show, hash) in hashes {
      var j :| 0 <= j < |simulated| && simulated[j] == s;
      assert hashes[j] == SimulatedHash(s, show, hash);
    }
  }

  /** The unsimulated documents appear in the catalog, in catalog order. */
  lemma UnsimulatedIsSubsequence(simulated: seq<Doc>, catalog: seq<Doc>, show: Value -> string, hash: string -> int)
    ensures IsSubsequence(Filter(catalog, NotSimulated(simulated, show, hash)), catalog)
  {
    FilterIsSubsequence(catalog, NotSimulated(simulated, show, hash));
  }

  /** A catalog document is returned exactly when no simulated document has its hash. */
  lemma UnsimulatedMembership(simulated: seq<Doc>, catalog: seq<Doc>, show: Value -> string, hash: string -> int, d: Doc)
    ensures d in Filter(catalog, NotSimulated(simulated, show, hash)) <==>
      d in catalog && forall s :: s in simulated ==> SimulatedHash(s, show, hash) != CatalogHash(d, show, hash)
  {
    var r := Filter(catalog, NotSimulated(simulated, show, hash));
    if d in r {
      var i :| 0 <= i < |r| && r[i] == d;
    }
    if d in catalog && forall s :: s in simulated ==> SimulatedHash(s, show, hash) != CatalogHash(d, show, hash) {
      var i :| 0 <= i < |catalog| && catalog[i] == d;
    }
  }

  /** Catalog documents with the same hash are all kept or all dropped: repeated hashes are not collapsed. */
  lemma UnsimulatedKeepsRepeats(simulated: seq<Doc>, catalog: seq<Doc>, show: Value -> string, hash: string -> int, i: nat, j: nat)
    requires i < |catalog| && j < |catalog|
    requires CatalogHash(catalog[i], show, hash) == CatalogHash(catalog[j], show, hash)
    ensures catalog[i] in Filter(catalog, NotSimulated(simulated, show, hash)) <==> catalog[j] in Filter(catalog, NotSimulated(simulated, show, hash))
  {
    UnsimulatedMembership(simulated, catalog, show, hash, catalog[i]);
    UnsimulatedMembership(simulated, catalog, show, hash, catalog[j]);
  }

  // ---------------------------------------------------------------------------
  // _clean_up_aggregated_docs

  /** The key Mongo's `$group` stage puts the grouped fields under. */
  const IdKey: string := "_id"

  /** `[doc['_id'] for doc in docs]`: the whole list is built first, so any document without `'_id'` raises. */
  function UnwrapIds(docs: seq<Doc>): (r: Result<seq<Value>, Exception>)
    ensures r.Err? ==> r.error == KeyError(IdKey)
    ensures r.Ok? ==> |r.value| == |docs|
    decreases |docs|
  {
    if docs == [] then Ok([])
    else
      match Lookup(docs[0], IdKey)
      case None => Err(KeyError(IdKey))
      case Some(v) =>
        var rest := UnwrapIds(docs[1..]);
        if rest.Err? then rest else Ok([v] + rest.value)
  }

  /** A document whose keys are `expected_keys` (compared as lists, as `keys()` gives them in Python 2). */
  predicate HasKeys(v: Value, expected: seq<string>)
  {
    v.Dict? && Keys(v.entries) == expected
  }

  /** The position of the first document whose keys do not match, where the loop breaks. */
  function FirstMismatch(ids: seq<Value>, expected: seq<string>): (k: nat)
    ensures k <= |ids|
    ensures forall i :: 0 <= i < k ==> HasKeys(ids[i], expected)
    ensures k < |ids| ==> !HasKeys(ids[k], expected)
    decreases |ids|
  {
    if ids == [] || !HasKeys(ids[0], expected) then 0
    else
      var k := 1 + FirstMismatch(ids[1..], expected);
      assert forall i :: 1 <= i < |ids| ==> ids[i] == ids[1..][i - 1];
      k
  }

  predicate NoNoneValue(doc: Doc)
  {
    forall i :: 0 <= i < |doc| ==> doc[i].1 != Null
  }

  predicate AllDicts(vs: seq<Value>)
  {
    forall i :: 0 <= i < |vs| ==> vs[i].Dict?
  }

  /** The dictionaries inside a run of `Dict` values. */
  function EntriesOf(vs: seq<Value>): (r: seq<Doc>)
    requires AllDicts(vs)
    ensures |r| == |vs| && forall i :: 0 <= i < |vs| ==> vs[i] == Dict(r[i])
  {
    seq(|vs|, i requires 0 <= i < |vs| && vs[i].Dict? => vs[i].entries)
  }

  /** The documents before the first mismatch are all dictionaries. */
  lemma MatchedAreDicts(ids: seq<Value>, expected: seq<string>, i: nat)
    requires i <= FirstMismatch(ids, expected)
    ensures AllDicts(ids[..i])
  {
  }

  lemma EntriesOfSnoc(vs: seq<Value>, i: nat)
    requires i < |vs| && AllDicts(vs[..i + 1])
    ensures AllDicts(vs[..i])
    ensures EntriesOf(vs[..i + 1]) == EntriesOf(vs[..i]) + [vs[i].entries]
  {
    assert vs[..i + 1][..i] == vs[..i];
  }

  /**
   * What `_clean_up_aggregated_docs` returns: every document of the unwrapped
   * list before the first one with the wrong keys, minus those holding a `None`.
   * The first document with the wrong keys that is not a dictionary at all
   * makes `.keys()` raise.
   */
  function CleanUp(docs: seq<Doc>, expected: seq<string>): Result<seq<Doc>, Exception>
  {
    match UnwrapIds(docs)
    case Err(e) => Err(e)
    case Ok(ids) =>
      var k := FirstMismatch(ids, expected);
      if k < |ids| && !ids[k].Dict? then Err(AttributeError)
      else Ok(Filter(EntriesOf(ids[..k]), NoNoneValue))
  }

  /** The inner loop of `_clean_up_aggregated_docs`: does the document hold no `None`? */
  method IsClean(doc: Doc) returns (isClean: bool)
    ensures isClean <==> NoNoneValue(doc)
  {
    isClean := true;
    var j := 0;
    while j < |doc|
      invariant j <= |doc|
      invariant forall m :: 0 <= m < j ==> doc[m].1 != Null
    {
      if doc[j].1 == Null {
        isClean := false;
        break;
      }
      j := j + 1;
    }
  }

  /** A matching document before the first mismatch moves the mismatch bound one further. */
  lemma MatchedNext(ids: seq<Value>, expected: seq<string>, i: nat)
    requires i < |ids| && i <= FirstMismatch(ids, expected) && HasKeys(ids[i], expected)
    ensures i + 1 <= FirstMismatch(ids, expected)
  {
  }

  /** A mismatching document at or before the first mismatch is the first mismatch. */
  lemma MismatchHere(ids: seq<Value>, expected: seq<string>, i: nat)
    requires i < |ids| && i <= FirstMismatch(ids, expected) && !HasKeys(ids[i], expected)
    ensures i == FirstMismatch(ids, expected)
  {
  }

  /** `_clean_up_aggregated_docs(docs, expected_keys)`; the warning on an empty result is not modelled. */
  method CleanUpAggregatedDocs(docs: seq<Doc>, expectedKeys: seq<string>) returns (r: Result<seq<Doc>, Exception>)
    ensures r == CleanUp(docs, expectedKeys)
  {
    var unwrapped := UnwrapIds(docs);
    if unwrapped.Err? {
      return Err(unwrapped.error);
    }
    var ids := unwrapped.value;
    ghost var k := FirstMismatch(ids, expectedKeys);
    assert CleanUp(docs, expectedKeys) ==
      if k < |ids| && !ids[k].Dict? then Err(AttributeError) else Ok(Filter(EntriesOf(ids[..k]), NoNoneValue));
    var cleanedDocs: seq<Doc> := [];
    var i := 0;
    MatchedAreDicts(ids, expectedKeys, 0);
    while i < |ids|
      invariant i <= k && AllDicts(ids[..i])
      invariant cleanedDocs == Filter(EntriesOf(ids[..i]), NoNoneValue)
    {
      var doc := ids[i];
      if !doc.Dict? {
        MismatchHere(ids, expectedKeys, i);
        return Err(AttributeError);
      }
      if Keys(doc.entries) != expectedKeys {
        MismatchHere(ids, expectedKeys, i);
        break;
      }
      var isClean := IsClean(doc.entries);
      MatchedNext(ids, expectedKeys, i);
      MatchedAreDicts(ids, expectedKeys, i + 1);
      EntriesOfSnoc(ids, i);
      FilterSnoc(EntriesOf(ids[..i]), doc.entries, NoNoneValue);
      if isClean {
        cleanedDocs := cleanedDocs + [doc.entries];
      }
      i := i + 1;
    }
    assert i == k;
    return Ok(cleanedDocs);
  }

  /** Every cleaned document is a `None`-free dictionary found before the first mismatch, and every such one is kept. */
  lemma CleanUpMembership(docs: seq<Doc>, expected: seq<string>, d: Doc)
    requires UnwrapIds(docs).Ok?
    requires CleanUp(docs, expected).Ok?
    ensures var ids := UnwrapIds(docs).value;
      d in CleanUp(docs, expected).value <==> Dict(d) in ids[..FirstMismatch(ids, expected)] && NoNoneValue(d)
  {
    var ids := UnwrapIds(docs).value;
    var prefix := EntriesOf(ids[..FirstMismatch(ids, expected)]);
    var r := CleanUp(docs, expected).value;
    if d in r {
      var i :| 0 <= i < |r| && r[i] == d;
      var j :| 0 <= j < |prefix| && prefix[j] == d;
      assert ids[..FirstMismatch(ids, expected)][j] == Dict(d);
    }
    if Dict(d) in ids[..FirstMismatch(ids, expected)] && NoNoneValue(d) {
      var j :| 0 <= j < FirstMismatch(ids, expected) && ids[..FirstMismatch(ids, expected)][j] == Dict(d);
      assert prefix[j] == d;
    }
  }

  /** The cleaned documents keep their relative order. */
  lemma CleanUpKeepsOrder(docs: seq<Doc>, expected: seq<string>)
    requires UnwrapIds(docs).Ok?
    requires CleanUp(docs, expected).Ok?
    ensures var ids := UnwrapIds(docs).value;
      IsSubsequence(CleanUp(docs, expected).value, EntriesOf(ids[..FirstMismatch(ids, expected)]))
  {
    var ids := UnwrapIds(docs).value;
    FilterIsSubsequence(EntriesOf(ids[..FirstMismatch(ids, expected)]), NoNoneValue);
  }

  /**
   * The loop stops at the first mismatch: documents after it never matter, as
   * long as they have an `'_id'` for the list comprehension that runs first.
   */
  lemma CleanUpStopsEarly(docs: seq<Doc>, more: seq<Doc>, expected: seq<string>)
    requires UnwrapIds(docs).Ok? && UnwrapIds(more).Ok?
    requires FirstMismatch(UnwrapIds(docs).value, expected) < |docs|
    ensures CleanUp(docs + more, expected) == CleanUp(docs, expected)
  {
    var ids, extra := UnwrapIds(docs).value, UnwrapIds(more).value;
    UnwrapIdsAppend(docs, more);
    FirstMismatchPrefix(ids, extra, expected);
    var k := FirstMismatch(ids, expected);
    assert (ids + extra)[..k] == ids[..k];
    assert (ids + extra)[k] == ids[k];
  }

  lemma UnwrapIdsAppend(docs: seq<Doc>, more: seq<Doc>)
    requires UnwrapIds(docs).Ok? && UnwrapIds(more).Ok?
    ensures UnwrapIds(docs + more) == Ok(UnwrapIds(docs).value + UnwrapIds(more).value)
  {
    UnwrapIdsAppendOk(docs, more);
    UnwrapIdsAppendValues(docs, more);
  }

  lemma UnwrapIdsAppendOk(docs: seq<Doc>, more: seq<Doc>)
    requires UnwrapIds(docs).Ok? && UnwrapIds(more).Ok?
    ensures UnwrapIds(docs + more).Ok?
  {
    var all := docs + more;
    UnwrapIdsSpec(docs);
    UnwrapIdsSpec(more);
    UnwrapIdsSpec(all);
    forall i | 0 <= i < |all| ensures IdKey in Keys(all[i]) {
      assert i < |docs| ==> all[i] == docs[i];
      assert i >= |docs| ==> all[i] == more[i - |docs|];
    }
  }

  lemma UnwrapIdsAppendValues(docs: seq<Doc>, more: seq<Doc>)
    requires UnwrapIds(docs).Ok? && UnwrapIds(more).Ok? && UnwrapIds(docs + more).Ok?
    ensures UnwrapIds(docs + more).value == UnwrapIds(docs).value + UnwrapIds(more).value
  {
    var u, w, r := UnwrapIds(docs).value, UnwrapIds(more).value, UnwrapIds(docs + more).value;
    forall i | 0 <= i < |r| ensures r[i] == (u + w)[i] {
      UnwrapIdsAppendAt(docs, more, i);
    }
  }

  lemma UnwrapIdsAppendAt(docs: seq<Doc>, more: seq<Doc>, i: nat)
    requires UnwrapIds(docs).Ok? && UnwrapIds(more).Ok? && UnwrapIds(docs + more).Ok? && i < |docs| + |more|
    ensures UnwrapIds(docs + more).value[i] == (UnwrapIds(docs).value + UnwrapIds(more).value)[i]
  {
    var all := docs + more;
    UnwrapIdsValues(all);
    if i < |docs| {
      UnwrapIdsValues(docs);
      assert all[i] == docs[i];
    } else {
      UnwrapIdsValues(more);
      assert all[i] == more[i - |docs|];
    }
  }

  /** Each unwrapped value is that document's `'_id'`. */
  lemma {:induction false} UnwrapIdsValues(docs: seq<Doc>)
    requires UnwrapIds(docs).Ok?
    ensures forall i :: 0 <= i < |docs| ==> Lookup(docs[i], IdKey) == Some(UnwrapIds(docs).value[i])
    decreases |docs|
  {
    if docs != [] {
      UnwrapIdsValues(docs[1..]);
      assert forall i :: 1 <= i < |docs| ==> docs[i] == docs[1..][i - 1];
    }
  }

  /** The unwrapping succeeds exactly when every document has an `'_id'`, and then yields those values in order. */
  lemma {:induction false} UnwrapIdsSpec(docs: seq<Doc>)
    ensures UnwrapIds(docs).Ok? <==> forall i :: 0 <= i < |docs| ==> IdKey in Keys(docs[i])
    ensures UnwrapIds(docs).Ok? ==> forall i :: 0 <= i < |docs| ==> Lookup(docs[i], IdKey) == Some(UnwrapIds(docs).value[i])
    decreases |docs|
  {
    if docs != [] {
      UnwrapIdsSpec(docs[1..]);
      assert forall i :: 1 <= i < |docs| ==> docs[i] == docs[1..][i - 1];
    }
  }

  lemma {:induction false} FirstMismatchPrefix(ids: seq<Value>, extra: seq<Value>, expected: seq<string>)
    requires FirstMismatch(ids, expected) < |ids|
    ensures FirstMismatch(ids + extra, expected) == FirstMismatch(ids, expected)
    decreases |ids|
  {
    if HasKeys(ids[0], expected) {
      assert (ids + extra)[1..] == ids[1..] + extra;
      FirstMismatchPrefix(ids[1..], extra, expected);
    }
  }

  /** No cleaned document holds a `None` value. */
  lemma CleanUpNoNone(docs: seq<Doc>, expected: seq<string>)
    requires CleanUp(docs, expected).Ok?
    ensures forall d :: d in CleanUp(docs, expected).value ==> NoNoneValue(d)
  {
    var r := CleanUp(docs, expected).value;
    forall d | d in r ensures NoNoneValue(d) {
      var i :| 0 <= i < |r| && r[i] == d;
    }
  }

  // ---------------------------------------------------------------------------
  // chunks

  /** The groups `chunks(s, size)` yields for `size >= 1`, each consumed in full before the next is asked for. */
  function Split<T>(s: seq<T>, size: nat): (r: seq<seq<T>>)
    requires size >= 1
    ensures forall i :: 0 <= i < |r| ==> 0 < |r[i]| <= size
    ensures forall i :: 0 <= i < |r| - 1 ==> |r[i]| == size
    ensures |r| * size >= |s| > (|r| - 1) * size
    decreases |s|
  {
    if s == [] then []
    else if |s| <= size then [s]
    else
      var rest := Split(s[size..], size);
      assert forall i :: 1 <= i < |rest| + 1 ==> ([s[..size]] + rest)[i] == rest[i - 1];
      [s[..size]] + rest
  }

  /**
   * `chunks(iterable, size)`. With `size < 1` the first chunk fails as soon as
   * it is read past its first element (`islice` rejects a negative stop).
   */
  function Chunks<T>(s: seq<T>, size: int := 10): (r: Result<seq<seq<T>>, Exception>)
    ensures size >= 1 ==> r.Ok? && Flatten(r.value) == s
    ensures size < 1 ==> (r.Ok? <==> s == [])
    ensures r.Err? ==> r.error == ValueError
    ensures r.Ok? ==> forall i :: 0 <= i < |r.value| ==> 0 < |r.value[i]| <= size && (i < |r.value| - 1 ==> |r.value[i]| == size)
  {
    if size < 1 then (if s == [] then Ok([]) else Err(ValueError))
    else
      SplitFlatten(s, size);
      Ok(Split(s, size))
  }

  /** The chunks put back together are the input. */
  lemma {:induction false} SplitFlatten<T>(s: seq<T>, size: nat)
    requires size >= 1
    ensures Flatten(Split(s, size)) == s
    decreases |s|
  {
    if s != [] {
      if |s| <= size {
        assert Flatten([s]) == s + Flatten([]);
      } else {
        SplitFlatten(s[size..], size);
        var r := Split(s, size);
        assert r[1..] == Split(s[size..], size);
        assert s == s[..size] + s[size..];
      }
    }
  }

  // ---------------------------------------------------------------------------
  // _remove_duplicates_in_a_collection

  /** A stored document: its Mongo `_id` and the value of its identifying query. */
  datatype Row = Row(id: int, key: Value)

  function Ids(rows: seq<Row>): (r: set<int>)
    ensures forall i :: 0 <= i < |rows| ==> rows[i].id in r
    decreases |rows|
  {
    if rows == [] then {} else Ids(rows[..|rows| - 1]) + {rows[|rows| - 1].id}
  }

  function KeySet(rows: seq<Row>): (r: set<Value>)
    ensures forall i :: 0 <= i < |rows| ==> rows[i].key in r
    decreases |rows|
  {
    if rows == [] then {} else KeySet(rows[..|rows| - 1]) + {rows[|rows| - 1].key}
  }

  /** Mongo keeps `_id` unique within a collection. */
  predicate UniqueIds(rows: seq<Row>)
    decreases |rows|
  {
    rows == [] || (UniqueIds(rows[..|rows| - 1]) && rows[|rows| - 1].id !in Ids(rows[..|rows| - 1]))
  }

  /** The rows left after deleting every document whose `_id` is in `gone`. */
  function WithoutIds(rows: seq<Row>, gone: set<int>): seq<Row>
    decreases |rows|
  {
    if rows == [] then []
    else
      var last := rows[|rows| - 1];
      WithoutIds(rows[..|rows| - 1], gone) + (if last.id in gone then [] else [last])
  }

  /** The reference outcome: the first row of each identifying value, in collection order. */
  function FirstPerKey(rows: seq<Row>): seq<Row>
    decreases |rows|
  {
    if rows == [] then []
    else
      var init, last := rows[..|rows| - 1], rows[|rows| - 1];
      FirstPerKey(init) + (if last.key in KeySet(init) then [] else [last])
  }

  /**
   * One `$group` output document: the identifying value, the `$addToSet` of
   * `_id`s and the `$sum: 1` count of the documents folded in.
   */
  datatype Group = Group(key: Value, mongoIds: seq<int>, count: nat)

  function GroupKeys(groups: seq<Group>): set<Value>
    decreases |groups|
  {
    if groups == [] then {} else GroupKeys(groups[..|groups| - 1]) + {groups[|groups| - 1].key}
  }

  function GroupIds(groups: seq<Group>): set<int>
    decreases |groups|
  {
    if groups == [] then {} else GroupIds(groups[..|groups| - 1]) + Elems(groups[|groups| - 1].mongoIds)
  }

  /** `$addToSet`: the id is added unless the set already holds it. */
  function AddToSet(ids: seq<int>, id: int): (r: seq<int>)
    ensures Elems(r) == Elems(ids) + {id}
  {
    if id in ids then ids else ids + [id]
  }

  /**
   * `$group` folding one more document in: `$addToSet` on the group of its
   * value, or a new group when the value is new. The order of `$group`'s
   * output is unspecified; here a new group goes first.
   */
  function AddToGroups(groups: seq<Group>, row: Row): (r: seq<Group>)
    ensures |r| >= |groups|
    ensures GroupKeys(r) == GroupKeys(groups) + {row.key}
    ensures GroupIds(r) == GroupIds(groups) + {row.id}
    decreases |groups|
  {
    if groups == [] then [Group(row.key, [row.id], 1)]
    else
      var init, last := groups[..|groups| - 1], groups[|groups| - 1];
      if last.key == row.key then
        var r := init + [Group(row.key, AddToSet(last.mongoIds, row.id), last.count + 1)];
        assert r[..|r| - 1] == init;
        r
      else
        var a := AddToGroups(init, row);
        var r := a + [last];
        assert r[..|r| - 1] == a;
        r
  }

  /** The `$group` stage, documents taken in collection order: one group per identifying value, holding every id. */
  function GroupBy(rows: seq<Row>): (r: seq<Group>)
    ensures GroupKeys(r) == KeySet(rows)
    ensures GroupIds(r) == Ids(rows)
    decreases |rows|
  {
    if rows == [] then [] else AddToGroups(GroupBy(rows[..|rows| - 1]), rows[|rows| - 1])
  }

  /** The `$match: {count: {$gt: 1}}` test. */
  predicate HasDuplicates(g: Group)
  {
    g.count > 1
  }

  /**
   * The `$group` then `$match: {count: {$gt: 1}}` pipeline. With unique `_id`s
   * these are the groups holding more than one id.
   */
  function DuplicateGroups(rows: seq<Row>): (r: seq<Group>)
    ensures UniqueIds(rows) ==> forall g :: g in r <==> g in GroupBy(rows) && |g.mongoIds| > 1
  {
    assert UniqueIds(rows) ==> forall g :: g in GroupBy(rows) ==> (HasDuplicates(g) <==> |g.mongoIds| > 1) by {
      if UniqueIds(rows) {
        GroupCounts(rows);
      }
    }
    Filter(GroupBy(rows), HasDuplicates)
  }

  function Elems(s: seq<int>): set<int>
  {
    set x | x in s
  }

  /** Python's `s[1:]`, which is empty for an empty list. */
  function Tail(s: seq<int>): (r: seq<int>)
    ensures |s| > 0 ==> s == [s[0]] + r
    ensures |s| == 0 ==> r == []
  {
    if s == [] then [] else s[1..]
  }

  /** Every `doc['mongo_ids'][1:]` put together: the ids the nested loop deletes. */
  function ExtraIds(groups: seq<Group>): set<int>
    decreases |groups|
  {
    if groups == [] then {}
    else ExtraIds(groups[..|groups| - 1]) + Elems(Tail(groups[|groups| - 1].mongoIds))
  }

  /** The ids of rows whose identifying value already occurred earlier in the collection. */
  function LaterIds(rows: seq<Row>): set<int>
    decreases |rows|
  {
    if rows == [] then {}
    else
      var init, last := rows[..|rows| - 1], rows[|rows| - 1];
      LaterIds(init) + (if last.key in KeySet(init) then {last.id} else {})
  }

  /** A collection held in memory, standing for the Mongo collection the pipeline runs against. */
  class Collection {
    var rows: seq<Row>

    predicate Valid()
      reads this
    {
      UniqueIds(rows)
    }

    constructor(rows: seq<Row>)
      requires UniqueIds(rows)
      ensures Valid() && this.rows == rows
    {
      this.rows := rows;
    }

    /** `collection.delete_one({'_id': id})`. */
    method DeleteOne(id: int)
      requires Valid()
      modifies this
      ensures Valid()
      ensures rows == WithoutIds(old(rows), {id})
    {
      WithoutIdsUnique(rows, {id});
      rows := WithoutIds(rows, {id});
    }

    /**
     * The inner loop of `_remove_duplicates_in_a_collection`: delete every id of
     * `ids`, one `delete_one` each. `original` and `before` are ghost bookkeeping:
     * the table before any deletion and what has been deleted from it so far.
     */
    method DeleteAll(ids: seq<int>, ghost original: seq<Row>, ghost before: set<int>)
      requires Valid() && rows == WithoutIds(original, before)
      modifies this
      ensures Valid()
      ensures rows == WithoutIds(original, before + Elems(ids))
    {
      ghost var deleted := before;
      var j := 0;
      while j < |ids|
        invariant j <= |ids| && Valid()
        invariant deleted == before + Elems(ids[..j])
        invariant rows == WithoutIds(original, deleted)
      {
        WithoutIdsTwice(original, deleted, ids[j]);
        ElemsSnoc(ids, j);
        DeleteOne(ids[j]);
        deleted := deleted + {ids[j]};
        j := j + 1;
      }
      assert ids[..j] == ids;
    }

    /** `_remove_duplicates_in_a_collection`: for each group with more than one `_id`, delete all but the first. */
    method RemoveDuplicates()
      requires Valid()
      modifies this
      ensures Valid()
      ensures rows == FirstPerKey(old(rows))
    {
      var docs := DuplicateGroups(rows);
      ghost var original := rows;
      WithoutNothing(original);
      var i := 0;
      while i < |docs|
        invariant i <= |docs| && Valid()
        invariant rows == WithoutIds(original, ExtraIds(docs[..i]))
      {
        var extraMongoIds := Tail(docs[i].mongoIds);
        ExtraIdsSnoc(docs, i);
        DeleteAll(extraMongoIds, original, ExtraIds(docs[..i]));
        i := i + 1;
      }
      assert docs[..i] == docs;
      DeletedAreLater(original);
      KeepFirstPerKey(original);
    }
  }

  lemma ExtraIdsSnoc(groups: seq<Group>, i: nat)
    requires i < |groups|
    ensures ExtraIds(groups[..i + 1]) == ExtraIds(groups[..i]) + Elems(Tail(groups[i].mongoIds))
  {
    assert groups[..i + 1][..i] == groups[..i];
  }

  lemma ElemsSnoc(s: seq<int>, j: nat)
    requires j < |s|
    ensures Elems(s[..j + 1]) == Elems(s[..j]) + {s[j]}
  {
    assert s[..j + 1] == s[..j] + [s[j]];
  }

  lemma {:induction false} WithoutIdsUnique(rows: seq<Row>, gone: set<int>)
    requires UniqueIds(rows)
    ensures UniqueIds(WithoutIds(rows, gone))
    decreases |rows|
  {
    if rows != [] {
      var init, last := rows[..|rows| - 1], rows[|rows| - 1];
      WithoutIdsUnique(init, gone);
      WithoutIdsSubset(init, gone);
      var w := WithoutIds(init, gone);
      if last.id !in gone {
        var r := w + [last];
        assert r[..|r| - 1] == w;
        assert WithoutIds(rows, gone) == r;
      } else {
        assert WithoutIds(rows, gone) == w;
      }
    }
  }

  lemma {:induction false} WithoutIdsSubset(rows: seq<Row>, gone: set<int>)
    ensures Ids(WithoutIds(rows, gone)) <= Ids(rows)
    decreases |rows|
  {
    if rows != [] {
      var init, last := rows[..|rows| - 1], rows[|rows| - 1];
      WithoutIdsSubset(init, gone);
      var w := WithoutIds(init, gone);
      if last.id !in gone {
        var r := w + [last];
        assert r[..|r| - 1] == w;
        assert WithoutIds(rows, gone) == r;
        assert Ids(r) == Ids(w) + {last.id};
      } else {
        assert WithoutIds(rows, gone) == w;
      }
    }
  }

  lemma {:induction false} WithoutNothing(rows: seq<Row>)
    ensures WithoutIds(rows, {}) == rows
    decreases |rows|
  {
    if rows != [] {
      WithoutNothing(rows[..|rows| - 1]);
    }
  }

  lemma {:induction false} WithoutIdsTwice(rows: seq<Row>, gone: set<int>, x: int)
    ensures WithoutIds(WithoutIds(rows, gone), {x}) == WithoutIds(rows, gone + {x})
    decreases |rows|
  {
    if rows != [] {
      var init, last := rows[..|rows| - 1], rows[|rows| - 1];
      WithoutIdsTwice(init, gone, x);
      var w := WithoutIds(init, gone);
      if last.id !in gone {
        var r := w + [last];
        assert r[..|r| - 1] == w;
        calc {
          WithoutIds(r, {x});
          WithoutIds(w, {x}) + (if last.id in {x} then [] else [last]);
          WithoutIds(init, gone + {x}) + (if last.id in gone + {x} then [] else [last]);
        }
      } else {
        assert WithoutIds(rows, gone) == w;
        assert WithoutIds(rows, gone + {x}) == WithoutIds(init, gone + {x});
      }
    }
  }

  /** Deleting an id no row carries changes nothing. */
  lemma {:induction false} WithoutForeignId(rows: seq<Row>, gone: set<int>, x: int)
    requires x !in Ids(rows)
    ensures WithoutIds(rows, gone + {x}) == WithoutIds(rows, gone)
    decreases |rows|
  {
    if rows != [] {
      WithoutForeignId(rows[..|rows| - 1], gone, x);
    }
  }

  lemma {:induction false} LaterIdsAreIds(rows: seq<Row>)
    ensures LaterIds(rows) <= Ids(rows)
    decreases |rows|
  {
    if rows != [] {
      LaterIdsAreIds(rows[..|rows| - 1]);
    }
  }

  /** Deleting the later rows of every identifying value leaves the first row of each. */
  lemma {:induction false} KeepFirstPerKey(rows: seq<Row>)
    requires UniqueIds(rows)
    ensures WithoutIds(rows, LaterIds(rows)) == FirstPerKey(rows)
    decreases |rows|
  {
    if rows != [] {
      var init, last := rows[..|rows| - 1], rows[|rows| - 1];
      KeepFirstPerKey(init);
      LaterIdsAreIds(init);
      if last.key in KeySet(init) {
        WithoutForeignId(init, LaterIds(init), last.id);
      } else {
        assert LaterIds(rows) == LaterIds(init);
      }
    }
  }

  /** What the aggregation feeds the delete loop is exactly the later rows of each identifying value. */
  lemma DeletedAreLater(rows: seq<Row>)
    requires UniqueIds(rows)
    ensures ExtraIds(DuplicateGroups(rows)) == LaterIds(rows)
  {
    GroupByExtras(rows);
    ExtraIdsOfDuplicates(GroupBy(rows));
  }

  predicate NonEmptyGroups(groups: seq<Group>)
  {
    forall i :: 0 <= i < |groups| ==> |groups[i].mongoIds| > 0
  }

  /** The facts `$group` keeps as it folds documents in. */
  lemma {:induction false} GroupByExtras(rows: seq<Row>)
    requires UniqueIds(rows)
    ensures NonEmptyGroups(GroupBy(rows))
    ensures GroupKeys(GroupBy(rows)) == KeySet(rows)
    ensures GroupIds(GroupBy(rows)) == Ids(rows)
    ensures ExtraIds(GroupBy(rows)) == LaterIds(rows)
    ensures CountsIds(GroupBy(rows))
    decreases |rows|
  {
    if rows != [] {
      var init, last := rows[..|rows| - 1], rows[|rows| - 1];
      GroupByExtras(init);
      AddToGroupsCounts(GroupBy(init), last);
      AddToGroupsNonEmpty(GroupBy(init), last);
      AddToGroupsExtras(GroupBy(init), last);
    }
  }

  // ---------------------------------------------------------------------------
  // One `$group` document per identifying value, holding that value's ids

  /** The ids of the rows whose identifying value is `k`. */
  function IdsOfKey(rows: seq<Row>, k: Value): set<int>
    decreases |rows|
  {
    if rows == [] then {}
    else IdsOfKey(rows[..|rows| - 1], k) + (if rows[|rows| - 1].key == k then {rows[|rows| - 1].id} else {})
  }

  /** No identifying value heads two groups. */
  predicate DistinctGroupKeys(groups: seq<Group>)
    decreases |groups|
  {
    groups == [] ||
    (DistinctGroupKeys(groups[..|groups| - 1]) && groups[|groups| - 1].key !in GroupKeys(groups[..|groups| - 1]))
  }

  /** The ids the groups of value `k` hold between them. */
  function GroupIdsOfKey(groups: seq<Group>, k: Value): set<int>
    decreases |groups|
  {
    if groups == [] then {}
    else
      var last := groups[|groups| - 1];
      GroupIdsOfKey(groups[..|groups| - 1], k) + (if last.key == k then Elems(last.mongoIds) else {})
  }

  /**
   * The `$group` output has one document per identifying value, and the
   * `mongo_ids` of each are exactly the ids of the rows holding its value.
   */
  lemma GroupByPerKey(rows: seq<Row>)
    ensures var g := GroupBy(rows);
      forall i, j :: 0 <= i < j < |g| ==> g[i].key != g[j].key
    ensures var g := GroupBy(rows);
      forall i :: 0 <= i < |g| ==> Elems(g[i].mongoIds) == IdsOfKey(rows, g[i].key)
  {
    var g := GroupBy(rows);
    GroupByDistinct(rows);
    DistinctAt(g);
    forall i | 0 <= i < |g|
      ensures Elems(g[i].mongoIds) == IdsOfKey(rows, g[i].key)
    {
      GroupIdsAt(g, i);
      GroupByIdsOfKey(rows, g[i].key);
    }
  }

  /**
   * With unique `_id`s, `$group` then `$match: {count: {$gt: 1}}` yields one
   * document per identifying value held by several rows: distinct values,
   * each with the ids of all its rows, and every such value present.
   */
  lemma DuplicateGroupsPerKey(rows: seq<Row>)
    requires UniqueIds(rows)
    ensures var d := DuplicateGroups(rows);
      forall i, j :: 0 <= i < j < |d| ==> d[i].key != d[j].key
    ensures forall g :: g in DuplicateGroups(rows) ==>
      Elems(g.mongoIds) == IdsOfKey(rows, g.key) && |IdsOfKey(rows, g.key)| > 1
    ensures forall k :: |IdsOfKey(rows, k)| > 1 ==> exists g :: g in DuplicateGroups(rows) && g.key == k
  {
    DuplicateGroupsDistinct(rows);
    DuplicateGroupsIds(rows);
    DuplicateGroupsCover(rows);
  }

  lemma DuplicateGroupsDistinct(rows: seq<Row>)
    ensures var d := DuplicateGroups(rows);
      forall i, j :: 0 <= i < j < |d| ==> d[i].key != d[j].key
  {
    GroupByDistinct(rows);
    FilterDistinct(GroupBy(rows));
    DistinctAt(DuplicateGroups(rows));
  }

  lemma DuplicateGroupsIds(rows: seq<Row>)
    requires UniqueIds(rows)
    ensures forall g :: g in DuplicateGroups(rows) ==>
      Elems(g.mongoIds) == IdsOfKey(rows, g.key) && |IdsOfKey(rows, g.key)| > 1
  {
    var all := GroupBy(rows);
    forall g | g in DuplicateGroups(rows)
      ensures Elems(g.mongoIds) == IdsOfKey(rows, g.key) && |IdsOfKey(rows, g.key)| > 1
    {
      var i :| 0 <= i < |all| && all[i] == g;
      DuplicateGroupAt(rows, i);
    }
  }

  lemma DuplicateGroupsCover(rows: seq<Row>)
    requires UniqueIds(rows)
    ensures forall k :: |IdsOfKey(rows, k)| > 1 ==> exists g :: g in DuplicateGroups(rows) && g.key == k
  {
    var all := GroupBy(rows);
    forall k | |IdsOfKey(rows, k)| > 1
      ensures exists g :: g in DuplicateGroups(rows) && g.key == k
    {
      IdsOfKeyKeys(rows, k);
      var i := GroupKeyIndex(all, k);
      DuplicateGroupAt(rows, i);
      assert all[i] in DuplicateGroups(rows);
    }
  }

  /** A group passes `$match` exactly when its value is held by several rows, whose ids it holds. */
  lemma DuplicateGroupAt(rows: seq<Row>, i: nat)
    requires UniqueIds(rows) && i < |GroupBy(rows)|
    ensures var g := GroupBy(rows)[i];
      && Elems(g.mongoIds) == IdsOfKey(rows, g.key)
      && (HasDuplicates(g) <==> |IdsOfKey(rows, g.key)| > 1)
  {
    var all := GroupBy(rows);
    var g := all[i];
    GroupByDistinct(rows);
    GroupIdsAt(all, i);
    GroupByIdsOfKey(rows, g.key);
    GroupByExtras(rows);
    assert g.count == |g.mongoIds|;
    GroupByUnrepeated(rows);
    AllUnrepeatedAt(all, i);
    ElemsExact(g.mongoIds);
  }

  /** A list of ids none of which occurs twice, as `$addToSet` keeps them. */
  predicate Unrepeated(s: seq<int>)
    decreases |s|
  {
    s == [] || (Unrepeated(s[..|s| - 1]) && s[|s| - 1] !in s[..|s| - 1])
  }

  /** Every group's ids are unrepeated. */
  predicate AllUnrepeated(groups: seq<Group>)
    decreases |groups|
  {
    groups == [] || (AllUnrepeated(groups[..|groups| - 1]) && Unrepeated(groups[|groups| - 1].mongoIds))
  }

  lemma {:induction false} AllUnrepeatedAt(groups: seq<Group>, i: nat)
    requires AllUnrepeated(groups) && i < |groups|
    ensures Unrepeated(groups[i].mongoIds)
    decreases |groups|
  {
    if i < |groups| - 1 {
      assert groups[i] == groups[..|groups| - 1][i];
      AllUnrepeatedAt(groups[..|groups| - 1], i);
    }
  }

  lemma {:induction false} GroupByUnrepeated(rows: seq<Row>)
    ensures AllUnrepeated(GroupBy(rows))
    decreases |rows|
  {
    if rows != [] {
      GroupByUnrepeated(rows[..|rows| - 1]);
      AddToGroupsUnrepeated(GroupBy(rows[..|rows| - 1]), rows[|rows| - 1]);
    }
  }

  /** `$addToSet` never repeats an id. */
  lemma {:induction false} AddToGroupsUnrepeated(groups: seq<Group>, row: Row)
    requires AllUnrepeated(groups)
    ensures AllUnrepeated(AddToGroups(groups, row))
    decreases |groups|
  {
    var r := AddToGroups(groups, row);
    if groups == [] {
      assert [row.id][..0] == [];
      assert r[..|r| - 1] == [];
    } else {
      var init, last := groups[..|groups| - 1], groups[|groups| - 1];
      if last.key == row.key {
        var ids := AddToSet(last.mongoIds, row.id);
        assert ids != last.mongoIds ==> ids[..|ids| - 1] == last.mongoIds;
        assert r[..|r| - 1] == init;
      } else {
        AddToGroupsUnrepeated(init, row);
        assert r[..|r| - 1] == AddToGroups(init, row);
      }
    }
  }

  /** An unrepeated list has as many distinct items as items. */
  lemma {:induction false} ElemsExact(s: seq<int>)
    requires Unrepeated(s)
    ensures |Elems(s)| == |s|
    decreases |s|
  {
    if s != [] {
      var init := s[..|s| - 1];
      ElemsExact(init);
      assert Elems(s) == Elems(init) + {s[|s| - 1]};
    }
  }

  /** Folding a row in keeps the group values distinct. */
  lemma {:induction false} AddToGroupsDistinct(groups: seq<Group>, row: Row)
    requires DistinctGroupKeys(groups)
    ensures DistinctGroupKeys(AddToGroups(groups, row))
    decreases |groups|
  {
    var r := AddToGroups(groups, row);
    if groups == [] {
      assert r[..|r| - 1] == [];
    } else {
      var init, last := groups[..|groups| - 1], groups[|groups| - 1];
      if last.key == row.key {
        assert r[..|r| - 1] == init;
      } else {
        AddToGroupsDistinct(init, row);
        var a := AddToGroups(init, row);
        assert r[..|r| - 1] == a;
      }
    }
  }

  lemma {:induction false} GroupByDistinct(rows: seq<Row>)
    ensures DistinctGroupKeys(GroupBy(rows))
    decreases |rows|
  {
    if rows != [] {
      GroupByDistinct(rows[..|rows| - 1]);
      AddToGroupsDistinct(GroupBy(rows[..|rows| - 1]), rows[|rows| - 1]);
    }
  }

  /** Folding a row in adds its id to the ids of its value and to no other value's. */
  lemma {:induction false} AddToGroupsIdsOfKey(groups: seq<Group>, row: Row, k: Value)
    ensures GroupIdsOfKey(AddToGroups(groups, row), k) ==
      GroupIdsOfKey(groups, k) + (if k == row.key then {row.id} else {})
    decreases |groups|
  {
    if groups == [] {
      assert [Group(row.key, [row.id], 1)][..0] == [];
      assert Elems([row.id]) == {row.id};
    } else if groups[|groups| - 1].key == row.key {
      AddToGroupsIdsOfKeySame(groups, row, k);
    } else {
      AddToGroupsIdsOfKey(groups[..|groups| - 1], row, k);
      AddToGroupsIdsOfKeyOther(groups, row, k);
    }
  }

  lemma AddToGroupsIdsOfKeySame(groups: seq<Group>, row: Row, k: Value)
    requires groups != [] && groups[|groups| - 1].key == row.key
    ensures GroupIdsOfKey(AddToGroups(groups, row), k) ==
      GroupIdsOfKey(groups, k) + (if k == row.key then {row.id} else {})
  {
    var init, last := groups[..|groups| - 1], groups[|groups| - 1];
    var g := Group(row.key, AddToSet(last.mongoIds, row.id), last.count + 1);
    assert AddToGroups(groups, row) == init + [g];
    GroupIdsOfKeySnoc(init, g, k);
  }

  lemma AddToGroupsIdsOfKeyOther(groups: seq<Group>, row: Row, k: Value)
    requires groups != [] && groups[|groups| - 1].key != row.key
    requires GroupIdsOfKey(AddToGroups(groups[..|groups| - 1], row), k) ==
      GroupIdsOfKey(groups[..|groups| - 1], k) + (if k == row.key then {row.id} else {})
    ensures GroupIdsOfKey(AddToGroups(groups, row), k) ==
      GroupIdsOfKey(groups, k) + (if k == row.key then {row.id} else {})
  {
    var init, last := groups[..|groups| - 1], groups[|groups| - 1];
    assert AddToGroups(groups, row) == AddToGroups(init, row) + [last];
    GroupIdsOfKeySnoc(AddToGroups(init, row), last, k);
  }

  lemma GroupIdsOfKeySnoc(groups: seq<Group>, g: Group, k: Value)
    ensures GroupIdsOfKey(groups + [g], k) == GroupIdsOfKey(groups, k) + (if g.key == k then Elems(g.mongoIds) else {})
  {
    assert (groups + [g])[..|groups|] == groups;
  }

  lemma {:induction false} GroupByIdsOfKey(rows: seq<Row>, k: Value)
    ensures GroupIdsOfKey(GroupBy(rows), k) == IdsOfKey(rows, k)
    decreases |rows|
  {
    if rows != [] {
      GroupByIdsOfKey(rows[..|rows| - 1], k);
      AddToGroupsIdsOfKey(GroupBy(rows[..|rows| - 1]), rows[|rows| - 1], k);
    }
  }

  /** The value of every group is among the group values. */
  lemma {:induction false} GroupKeyAt(groups: seq<Group>, i: nat)
    requires i < |groups|
    ensures groups[i].key in GroupKeys(groups)
    decreases |groups|
  {
    if i < |groups| - 1 {
      GroupKeyAt(groups[..|groups| - 1], i);
    }
  }

  /** A group value is the value of some group. */
  lemma {:induction false} GroupKeyIndex(groups: seq<Group>, k: Value) returns (i: nat)
    requires k in GroupKeys(groups)
    ensures i < |groups| && groups[i].key == k
    decreases |groups|
  {
    var init := groups[..|groups| - 1];
    if k in GroupKeys(init) {
      i := GroupKeyIndex(init, k);
    } else {
      i := |groups| - 1;
    }
  }

  /** A value no group has holds no ids. */
  lemma {:induction false} NoGroupNoIds(groups: seq<Group>, k: Value)
    requires k !in GroupKeys(groups)
    ensures GroupIdsOfKey(groups, k) == {}
    decreases |groups|
  {
    if groups != [] {
      NoGroupNoIds(groups[..|groups| - 1], k);
    }
  }

  /** With distinct values, a group holds all the ids of its value. */
  lemma {:induction false} GroupIdsAt(groups: seq<Group>, i: nat)
    requires DistinctGroupKeys(groups) && i < |groups|
    ensures Elems(groups[i].mongoIds) == GroupIdsOfKey(groups, groups[i].key)
    decreases |groups|
  {
    var init, last := groups[..|groups| - 1], groups[|groups| - 1];
    if i == |groups| - 1 {
      NoGroupNoIds(init, last.key);
    } else {
      assert groups[i] == init[i];
      GroupIdsAt(init, i);
      GroupKeyAt(init, i);
    }
  }

  /** The recursive distinctness of group values, by position. */
  lemma {:induction false} DistinctAt(groups: seq<Group>)
    requires DistinctGroupKeys(groups)
    ensures forall i, j :: 0 <= i < j < |groups| ==> groups[i].key != groups[j].key
    decreases |groups|
  {
    if groups != [] {
      var init := groups[..|groups| - 1];
      DistinctAt(init);
      forall i, j | 0 <= i < j < |groups|
        ensures groups[i].key != groups[j].key
      {
        assert groups[i] == init[i];
        if j == |groups| - 1 {
          GroupKeyAt(init, i);
        } else {
          assert groups[j] == init[j];
        }
      }
    }
  }

  /** The `$match` stage keeps the group values distinct. */
  lemma {:induction false} FilterDistinct(groups: seq<Group>)
    requires DistinctGroupKeys(groups)
    ensures DistinctGroupKeys(Filter(groups, HasDuplicates))
    ensures GroupKeys(Filter(groups, HasDuplicates)) <= GroupKeys(groups)
    decreases |groups|
  {
    if groups != [] {
      var init, last := groups[..|groups| - 1], groups[|groups| - 1];
      FilterDistinct(init);
      var fi := Filter(init, HasDuplicates);
      if HasDuplicates(last) {
        var f := fi + [last];
        assert Filter(groups, HasDuplicates) == f;
        assert f[..|f| - 1] == fi;
      } else {
        assert Filter(groups, HasDuplicates) == fi;
      }
    }
  }

  /** A value held by a row is a group value. */
  lemma {:induction false} IdsOfKeyKeys(rows: seq<Row>, k: Value)
    requires IdsOfKey(rows, k) != {}
    ensures k in KeySet(rows)
    decreases |rows|
  {
    var init := rows[..|rows| - 1];
    if IdsOfKey(init, k) != {} {
      IdsOfKeyKeys(init, k);
    }
  }

  /** A list has at least as many items as distinct items. */
  lemma {:induction false} ElemsLength(s: seq<int>)
    ensures |Elems(s)| <= |s|
    decreases |s|
  {
    if s != [] {
      var init := s[..|s| - 1];
      ElemsLength(init);
      assert Elems(s) == Elems(init) + {s[|s| - 1]};
    }
  }

  /** Every group's `$sum: 1` count equals the number of its `_id`s. */
  predicate CountsIds(groups: seq<Group>)
  {
    forall i :: 0 <= i < |groups| ==> groups[i].count == |groups[i].mongoIds|
  }

  /**
   * With `_id`s unique, `$addToSet` never meets an id twice, so each group's
   * count is the number of its ids and `count > 1` holds exactly for the groups
   * with more than one id.
   */
  lemma GroupCounts(rows: seq<Row>)
    requires UniqueIds(rows)
    ensures forall g :: g in GroupBy(rows) ==> g.count == |g.mongoIds|
    ensures forall g :: g in GroupBy(rows) ==> (HasDuplicates(g) <==> |g.mongoIds| > 1)
  {
    GroupByExtras(rows);
  }

  lemma CountsIdsInit(groups: seq<Group>)
    requires CountsIds(groups) && groups != []
    ensures CountsIds(groups[..|groups| - 1])
    ensures groups[|groups| - 1].count == |groups[|groups| - 1].mongoIds|
  {
  }

  /** Folding in a document whose id is new keeps every count equal to its number of ids. */
  lemma {:induction false} AddToGroupsCounts(groups: seq<Group>, row: Row)
    requires CountsIds(groups) && row.id !in GroupIds(groups)
    ensures CountsIds(AddToGroups(groups, row))
    decreases |groups|
  {
    if groups != [] {
      var init, last := groups[..|groups| - 1], groups[|groups| - 1];
      if last.key == row.key {
        assert row.id !in last.mongoIds;
      } else {
        assert GroupIds(groups) == GroupIds(init) + Elems(last.mongoIds);
        AddToGroupsCounts(init, row);
      }
    }
  }

  /** The groups `$group` builds are never empty. */
  lemma {:induction false} AddToGroupsNonEmpty(groups: seq<Group>, row: Row)
    requires NonEmptyGroups(groups)
    ensures NonEmptyGroups(AddToGroups(groups, row))
    decreases |groups|
  {
    if groups != [] {
      var init, last := groups[..|groups| - 1], groups[|groups| - 1];
      if last.key != row.key {
        AddToGroupsNonEmpty(init, row);
      }
    }
  }

  /** A new id of an already grouped value becomes one of the ids the delete loop removes. */
  lemma {:induction false} AddToGroupsExtras(groups: seq<Group>, row: Row)
    requires NonEmptyGroups(groups) && row.id !in GroupIds(groups)
    ensures ExtraIds(AddToGroups(groups, row)) == ExtraIds(groups) + (if row.key in GroupKeys(groups) then {row.id} else {})
    decreases |groups|
  {
    if groups != [] {
      var init, last := groups[..|groups| - 1], groups[|groups| - 1];
      var r := AddToGroups(groups, row);
      if last.key == row.key {
        var g := Group(row.key, AddToSet(last.mongoIds, row.id), last.count + 1);
        assert r == init + [g];
        assert r[..|r| - 1] == init;
        assert row.id !in last.mongoIds;
        assert Tail(g.mongoIds) == Tail(last.mongoIds) + [row.id];
      } else {
        AddToGroupsExtras(init, row);
        var a := AddToGroups(init, row);
        assert r == a + [last];
        assert r[..|r| - 1] == a;
      }
    }
  }

  /** Dropping the groups with a single `_id` drops no extra id. */
  lemma {:induction false} ExtraIdsOfDuplicates(groups: seq<Group>)
    requires CountsIds(groups)
    ensures ExtraIds(Filter(groups, HasDuplicates)) == ExtraIds(groups)
    decreases |groups|
  {
    if groups != [] {
      var init, last := groups[..|groups| - 1], groups[|groups| - 1];
      CountsIdsInit(groups);
      ExtraIdsOfDuplicates(init);
      var fi := Filter(init, HasDuplicates);
      if HasDuplicates(last) {
        var f := fi + [last];
        assert Filter(groups, HasDuplicates) == f;
        assert f[..|f| - 1] == fi;
        assert ExtraIds(f) == ExtraIds(fi) + Elems(Tail(last.mongoIds));
      } else {
        assert Filter(groups, HasDuplicates) == fi;
        assert Tail(last.mongoIds) == [];
      }
    }
  }

  lemma {:induction false} KeySetMember(rows: seq<Row>, k: Value) returns (j: nat)
    requires k in KeySet(rows)
    ensures j < |rows| && rows[j].key == k
    decreases |rows|
  {
    var init := rows[..|rows| - 1];
    if k in KeySet(init) {
      j := KeySetMember(init, k);
    } else {
      j := |rows| - 1;
    }
  }

  lemma {:induction false} FirstPerKeyIds(rows: seq<Row>)
    ensures Ids(FirstPerKey(rows)) <= Ids(rows)
    decreases |rows|
  {
    if rows != [] {
      var init, last := rows[..|rows| - 1], rows[|rows| - 1];
      FirstPerKeyIds(init);
      var f := FirstPerKey(init);
      if last.key !in KeySet(init) {
        var r := f + [last];
        assert FirstPerKey(rows) == r;
        assert r[..|r| - 1] == f;
      } else {
        assert FirstPerKey(rows) == f;
      }
    }
  }

  /** The survivors keep their collection order. */
  lemma {:induction false} FirstPerKeyIsSubsequence(rows: seq<Row>)
    ensures IsSubsequence(FirstPerKey(rows), rows)
    decreases |rows|
  {
    if rows != [] {
      var init, last := rows[..|rows| - 1], rows[|rows| - 1];
      FirstPerKeyIsSubsequence(init);
      var f := FirstPerKey(init);
      assert init + [last] == rows;
      if last.key !in KeySet(init) {
        var r := f + [last];
        assert FirstPerKey(rows) == r;
        assert r[..|r| - 1] == f;
      } else {
        assert FirstPerKey(rows) == f;
        SubsequenceOfLonger(f, init, last);
      }
    }
  }

  /**
   * A document survives exactly when no earlier document has its identifying
   * value: the first of each duplicated value stays, the others go, and a
   * value held by a single document keeps that document.
   */
  lemma {:induction false} FirstPerKeyMembership(rows: seq<Row>, i: nat)
    requires UniqueIds(rows) && i < |rows|
    ensures rows[i] in FirstPerKey(rows) <==> forall j :: 0 <= j < i ==> rows[j].key != rows[i].key
    decreases |rows|
  {
    var init, last := rows[..|rows| - 1], rows[|rows| - 1];
    var f := FirstPerKey(init);
    FirstPerKeyIds(init);
    assert last !in f;
    if i < |init| {
      FirstPerKeyMembership(init, i);
      assert rows[i] == init[i] && rows[i] != last by {
        assert init[i].id in Ids(init);
      }
      assert forall j :: 0 <= j < i ==> rows[j] == init[j];
    } else {
      if last.key in KeySet(init) {
        var j := KeySetMember(init, last.key);
        assert rows[j].key == rows[i].key;
      } else {
        assert forall j :: 0 <= j < i ==> rows[j] == init[j];
      }
    }
  }

  /** Exactly one document of each identifying value survives. */
  lemma {:induction false} FirstPerKeyOnePerKey(rows: seq<Row>)
    ensures KeySet(FirstPerKey(rows)) == KeySet(rows)
    ensures forall i, j :: 0 <= i < j < |FirstPerKey(rows)| ==> FirstPerKey(rows)[i].key != FirstPerKey(rows)[j].key
    decreases |rows|
  {
    if rows != [] {
      var init, last := rows[..|rows| - 1], rows[|rows| - 1];
      FirstPerKeyOnePerKey(init);
      var f := FirstPerKey(init);
      if last.key !in KeySet(init) {
        var r := f + [last];
        assert FirstPerKey(rows) == r;
        forall i | 0 <= i < |f| ensures r[i].key != last.key {
          assert r[i] == f[i];
        }
      } else {
        assert FirstPerKey(rows) == f;
      }
    }
  }
}
