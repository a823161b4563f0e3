# GASpy document helpers and default settings, in Dafny

This project models two parts of GASpy, a framework that runs and catalogues
DFT adsorption calculations, and proves what they promise.

- **Document post-processing** (`gaspy/gasdb.py`):
  - cleaning the documents a Mongo aggregation returns (`_clean_up_aggregated_docs`);
  - the fingerprint string a flat document is hashed by (`_hash_doc`, `_hash_docs`);
  - the "not yet simulated" filter of `get_unsimulated_catalog_docs`;
  - `chunks`;
  - the keep-first rule of `_remove_duplicates_in_a_collection`.

  Mongo collections are in-memory sequences. The collection that duplicate
  removal deletes from is a `Collection` object whose `rows` field each
  `delete_one` updates.
- **Default settings** (`gaspy/defaults.py`):
  - the `fingerprints` projection;
  - `xc_settings` and `calc_settings`;
  - the parameter dictionaries of `gas_parameters`, `bulk_parameters`, `slab_parameters` and `adsorption_parameters`;
  - the `adsorbates_dict` library.

Python dictionaries are sequences of their items (`OrderedDicts.ODict`): an `OrderedDict` filled by `d[k] = v` in insertion order, every other dictionary in the order the code writes it (see "Left out"). Their values are a small `Value` datatype.

Files:

- `wrappers.dfy`: `Option` and `Result`.
- `values.dfy`: documents and values; `Atoms` as its list of chemical symbols; the Python exceptions the code can raise.
- `sequences.dfy`: `Filter`, `Map`, subsequences, `Flatten`.
- `string_order.dfy`: Python's string order and `sorted` on a list of strings.
- `ordered_dicts.dfy`: lookup, assignment, deletion, and the `OrderedDict(k=v, ..., **extra)` call.
- `gasdb.dfy`: the document helpers.
- `defaults.dfy`: the settings builders.

The loops of the source are methods proved against a function that specifies them. Examples:

- the `is_clean` loop of `_clean_up_aggregated_docs`;
- the `system +=` loop of `_hash_doc`;
- the append loop of the unsimulated filter;
- the nested `delete_one` loop of duplicate removal;
- the overwrite loop of `calc_settings`.

The entry-by-entry assignments of `adsorbates_dict` are a method too, written as the same sequence of assignments.

The properties the source promises are lemmas about those functions.

Where the documentation and the code disagree, the model follows the code. The docstring of `_clean_up_aggregated_docs` says a document with the wrong keys is deleted. The code instead `break`s out of the loop at the first such document (gaspy/gasdb.py:127-129). `CleanUp` and `CleanUpAggregatedDocs` model that `break`, and `CleanUpStopsEarly` states its consequence: nothing after the first mismatch is ever returned.

## Model

| member | source | states |
|---|---|---|
| StringOrder.Sort | gaspy/gasdb.py:343 | `sorted(doc.keys())`: the result is in ascending Python string order and is a permutation of the input |
| OrderedDicts.Put | gaspy/defaults.py:85 | `d[k] = v`: afterwards `k` maps to `v` and every other key keeps its value. A key already present keeps its place; a new key is appended at the end |
| OrderedDicts.Kwargs | gaspy/defaults.py:104-111 | `OrderedDict(k1=v1, ..., **extra)` succeeds exactly when no key of `extra` is a keyword already given. The result then holds the keywords followed by `extra`. Otherwise the error names the last written keyword that `extra` also holds, the one Python 2 reports |
| OrderedDicts.LastCollision | gaspy/defaults.py:104-111 | the doubled keyword of a call, if any: none exactly when no written keyword is a key of the mapping, and otherwise a written keyword the mapping holds after which no written keyword is in the mapping |
| GasDb.HashDoc | gaspy/gasdb.py:323-356 | `ignore_keys` is empty and `_return_hash` True when omitted. `_hash_doc` returns `hash(system)`, or with `_return_hash=False` the string `system` itself. `system` is the `key=str(value); ` items of the non-ignored keys in ascending key order |
| GasDb.RenderAgrees | gaspy/gasdb.py:343-349 | two documents that agree on every non-ignored key render the same fingerprint string |
| GasDb.PreHashInsertionOrder | gaspy/gasdb.py:343-349 | the pre-hash string does not depend on the order in which the document's items were inserted |
| GasDb.PreHashAllIgnored | gaspy/gasdb.py:342-349 | an empty document, or one whose every key is ignored, gives `''` |
| GasDb.PreHashIgnoreIsRemove | gaspy/gasdb.py:343-349 | ignoring key `k` gives the same pre-hash string as deleting `k` from the document |
| GasDb.SortedWithout | gaspy/gasdb.py:343-344 | the sorted keys of the document without `k` equal its sorted keys with `k` dropped |
| GasDb.KeyList.Append | gaspy/gasdb.py:315 | `ignore_keys.append('mongo_id')` extends the caller's list by exactly that item |
| GasDb.HashDocs | gaspy/gasdb.py:294-320 | `ignore_keys` is `None` and `_return_hashes` True when omitted. One result per document, in input order, each the `_hash_doc` of that document with the ignore list plus `'mongo_id'`. A caller's non-empty list gets `'mongo_id'` appended in place. A missing or empty list is replaced and the caller's list is left as it was |
| GasDb.HashDocsIgnoresMongoId | gaspy/gasdb.py:313-319 | two documents that differ only in `mongo_id` get the same result from `_hash_docs` |
| GasDb.UnsimulatedCatalogDocs | gaspy/gasdb.py:232-244 | the unsimulated documents are the catalog documents, in order, whose catalog hash is not among the simulated hashes |
| GasDb.KeepUnsimulated | gaspy/gasdb.py:240-244 | the append loop over `zip(docs_catalog, hashes_catalog)` keeps exactly the documents whose hash is in `hashes_unsimulated`, in catalog order |
| GasDb.UnsimulatedIsFilter | gaspy/gasdb.py:238-244 | the loop's recursive specification equals a filter of the catalog by "hash not among the simulated hashes" |
| GasDb.SimulatedHashSet | gaspy/gasdb.py:232-238 | `set(hashes_simulated)` is the set of the simulated documents' hashes |
| GasDb.UnsimulatedIsSubsequence | gaspy/gasdb.py:240-244 | the result is a subsequence of the catalog documents |
| GasDb.UnsimulatedMembership | gaspy/gasdb.py:238-244 | a document is returned exactly when it is a catalog document whose hash no simulated document has |
| GasDb.UnsimulatedKeepsRepeats | gaspy/gasdb.py:238-244 | catalog documents with equal hashes are all kept or all dropped; repeated hashes are not collapsed |
| GasDb.UnwrapIds | gaspy/gasdb.py:121 | `[doc['_id'] for doc in docs]` yields one value per document, or `KeyError('_id')` |
| GasDb.UnwrapIdsSpec | gaspy/gasdb.py:121 | the unwrapping succeeds exactly when every document has `'_id'`, and then value `i` is document `i`'s `'_id'` |
| GasDb.UnwrapIdsValues | gaspy/gasdb.py:121 | each unwrapped value is its document's `'_id'` |
| GasDb.FirstMismatch | gaspy/gasdb.py:127-129 | the position where the loop breaks: every earlier document has exactly the expected keys, and the document there does not |
| GasDb.FirstMismatchPrefix | gaspy/gasdb.py:127-129 | documents appended after a mismatch do not move the point where the loop breaks |
| GasDb.IsClean | gaspy/gasdb.py:125-134 | the `is_clean` flag is set exactly when the document holds no `None` value |
| GasDb.CleanUpAggregatedDocs | gaspy/gasdb.py:121-137 | the loop returns the unwrapped documents before the first mismatch, minus those with a `None` value. A missing `'_id'` gives `KeyError`; a mismatching value that is not a dictionary gives `AttributeError` |
| GasDb.CleanUpMembership | gaspy/gasdb.py:121-137 | a document is returned exactly when it is an unwrapped document before the first mismatch and holds no `None` |
| GasDb.CleanUpKeepsOrder | gaspy/gasdb.py:121-137 | the returned documents keep their original relative order |
| GasDb.CleanUpStopsEarly | gaspy/gasdb.py:127-129 | once a document with the wrong keys occurs, appending further documents changes nothing in the result |
| GasDb.CleanUpNoNone | gaspy/gasdb.py:130-137 | no returned document holds a `None` value |
| GasDb.Split | gaspy/gasdb.py:494-501 | for `size >= 1` the groups are non-empty and hold at most `size` elements, and all but the last hold exactly `size` |
| GasDb.SplitFlatten | gaspy/gasdb.py:494-501 | the groups put back together are the input |
| GasDb.Chunks | gaspy/gasdb.py:494-501 | `chunks(s, size)`, with `size` 10 when omitted, partitions `s` for `size >= 1` into non-empty chunks of at most `size` items, all but the last of exactly `size`. For `size < 1` it fails on any non-empty input, because `islice` rejects the negative stop, and the failure is a `ValueError` |
| GasDb.AddToSet | gaspy/gasdb.py:390 | `$addToSet` adds the id to the group's ids |
| GasDb.AddToGroups | gaspy/gasdb.py:386-391 | folding one document into the `$group` output adds its identifying value to the group values and its id to the grouped ids; no group is lost |
| GasDb.GroupBy | gaspy/gasdb.py:386-391 | the `$group` output has a group for exactly the identifying values of the collection, and its ids are exactly the collection's ids |
| GasDb.AddToGroupsCounts | gaspy/gasdb.py:390-391 | folding in a document whose id is new keeps each group's `$sum: 1` count equal to its number of ids |
| GasDb.GroupCounts | gaspy/gasdb.py:389-393 | with unique `_id`s, every group's `count` is the size of its `mongo_ids`, so `count > 1` holds exactly for the groups with more than one id |
| GasDb.DuplicateGroups | gaspy/gasdb.py:386-395 | with unique `_id`s, the documents past `$match: {count: {$gt: 1}}` are exactly the groups holding more than one id |
| GasDb.GroupByPerKey | gaspy/gasdb.py:386-391 | `$group` makes one document per identifying value: no two groups share a value, and the `mongo_ids` of each group are exactly the ids of the documents holding its value |
| GasDb.DuplicateGroupAt | gaspy/gasdb.py:386-393 | with unique `_id`s, a group's ids are the ids of the documents with its value, and it passes `count > 1` exactly when more than one document holds that value |
| GasDb.DuplicateGroupsPerKey | gaspy/gasdb.py:386-395 | with unique `_id`s, `docs` has one entry per identifying value held by several documents: no value twice, each entry holding every id of its value, and every such value present |
| GasDb.Tail | gaspy/gasdb.py:402 | `doc['mongo_ids'][1:]` is every id but the first, and empty for an empty list |
| GasDb.GroupByExtras | gaspy/gasdb.py:386-391 | the `$group` stage yields non-empty groups covering every identifying value and every id. Their ids after the first are exactly the ids of documents whose value occurred earlier |
| GasDb.ExtraIdsOfDuplicates | gaspy/gasdb.py:392-395 | the `$match count > 1` stage drops no id that the delete loop would remove |
| GasDb.DeletedAreLater | gaspy/gasdb.py:386-402 | the ids the nested loop deletes are exactly those of documents whose identifying value occurred earlier in the collection |
| GasDb.Collection.DeleteOne | gaspy/gasdb.py:404 | `delete_one({'_id': id})` removes the document with that id and keeps the others in order |
| GasDb.Collection.DeleteAll | gaspy/gasdb.py:403-404 | the inner loop removes exactly the ids of `extra_mongo_ids` |
| GasDb.Collection.RemoveDuplicates | gaspy/gasdb.py:386-404 | afterwards the collection holds the first document of each identifying value, in collection order |
| GasDb.KeepFirstPerKey | gaspy/gasdb.py:399-404 | deleting the later documents of each identifying value leaves the first one of each |
| GasDb.FirstPerKeyIsSubsequence | gaspy/gasdb.py:399-404 | the surviving documents are a subsequence of the collection |
| GasDb.FirstPerKeyMembership | gaspy/gasdb.py:399-404 | a document survives exactly when no earlier document has its identifying value; a value held by one document keeps it |
| GasDb.FirstPerKeyOnePerKey | gaspy/gasdb.py:399-404 | exactly one document per identifying value survives |
| Defaults.Fingerprints | gaspy/defaults.py:15-56 | `fingerprints(simulated)`, with `simulated` False when omitted: its keys are the nine shared ones, followed by `energy` and `adsorbates` when simulated, and it opens with the six entries both versions share |
| Defaults.FingerprintsKeys | gaspy/defaults.py:34-56 | `fingerprints(False)` has the nine keys `mongo_id` … `nextnearestcoordination`; `fingerprints(True)` adds `energy` and `adsorbates`; no key repeats |
| Defaults.FingerprintsCoordination | gaspy/defaults.py:34-56 | the three coordination keys read `$processed_data.fp_final.*` when simulated and `$processed_data.fp_init.*` otherwise |
| Defaults.FingerprintsSimulatedExtras | gaspy/defaults.py:44-45 | `energy` and `adsorbates` read `$results.energy` and the adsorbate names, and exist only in the simulated version |
| Defaults.FingerprintsSimulatedExtends | gaspy/defaults.py:35-52 | the `_id` and calculation-information keys read the same paths in both versions |
| Defaults.XcSettings | gaspy/defaults.py:66-72 | `xc_settings('rpbe')` is `{gga: 'RP', pp: 'PBE'}`. Any other functional is read from the `xc_defaults` table, and a functional missing there is `KeyError` |
| Defaults.OverlayLookup | gaspy/defaults.py:84-85 | after the overwrite loop, a key of the functional's settings holds its value there, and every other key keeps its base value |
| Defaults.OverlayKeys | gaspy/defaults.py:84-85 | the base keys keep their places, and the overwrite keeps keys distinct |
| Defaults.CalcSettingsOf | gaspy/defaults.py:75-87 | `calc_settings` fails exactly when `xc_settings` does, with its `KeyError`. Otherwise the keys are distinct and include `encut` and `pp_version` |
| Defaults.CalcSettings | gaspy/defaults.py:80-87 | the overwrite loop computes exactly `CalcSettingsOf` |
| Defaults.CalcSettingsLookup | gaspy/defaults.py:80-87 | an entry of the functional overrides the base entry; the base `encut=350` and `pp_version='5.4'` stay otherwise |
| Defaults.CalcSettingsRpbe | gaspy/defaults.py:66-87 | `calc_settings('rpbe')` holds `encut: 350`, `pp_version: '5.4'`, `gga: 'RP'` and `pp: 'PBE'` |
| Defaults.Mapping.Assign | gaspy/defaults.py:131 | `settings['encut'] = encut` on the copy updates that key and nothing else |
| Defaults.Resolve | gaspy/defaults.py:126-127 | a string `settings` is expanded through `calc_settings`; a mapping is used as given |
| Defaults.WithSettings | gaspy/defaults.py:104-111 | the keyword call succeeds exactly when no settings key repeats a fixed VASP keyword. It then yields the fixed keywords followed by the settings. Otherwise it raises `TypeError` naming the last written fixed keyword that the settings repeat |
| Defaults.GasParameters | gaspy/defaults.py:90-111 | `settings` is `'beef-vdw'` when omitted. A failing `calc_settings` propagates. Otherwise the call fails exactly when a settings key collides with a fixed gas keyword, and the `TypeError` names the last written fixed keyword that collides |
| Defaults.GasParametersShape | gaspy/defaults.py:104-111 | keys `gasname`, `relaxed`, `vasp_settings`; `gasname` passes through and `relaxed` is `True`. `vasp_settings` is `ibrion=2, nsw=100, isif=0, kpts=[1,1,1], ediffg=-0.03` followed by every settings entry |
| Defaults.BulkParametersOf | gaspy/defaults.py:114-142 | `settings`, `encut` and `max_atoms` are `'beef-vdw'`, `500.` and `50` when omitted. The same error behaviour as the gas case, applied to the settings after `encut` is written |
| Defaults.BulkParameters | gaspy/defaults.py:114-142 | with the same defaults, computes `BulkParametersOf` and leaves the caller's settings mapping unchanged, because it works on a deep copy |
| Defaults.BulkParametersShape | gaspy/defaults.py:132-142 | keys `mpid`, `relaxed`, `max_atoms`, `vasp_settings`. `vasp_settings` is the fixed bulk keywords and then the settings. Its `encut` is always the `encut` argument |
| Defaults.BulkEncutNoClash | gaspy/defaults.py:130-142 | writing `encut` never causes or removes a keyword clash, since `encut` is not a fixed bulk keyword |
| Defaults.SlabParameters | gaspy/defaults.py:145-184 | `settings` is `'beef-vdw'` when omitted; the same error behaviour for the fixed slab keywords |
| Defaults.SlabParametersShape | gaspy/defaults.py:162-184 | `miller`, `top` and `shift` pass through; `max_miller=2`, `relaxed=True` and the fixed `slab_generate_settings` and `get_slab_settings`. `vasp_settings` is the fixed slab keywords followed by the settings |
| Defaults.SlabParametersIgnoreSettings | gaspy/defaults.py:162-184 | every entry but `vasp_settings` is the same whatever the settings are |
| Defaults.AdsorbatesDict | gaspy/defaults.py:198-231 | the dictionary filled entry by entry is the library: `''`, `U`, `H`, `O`, `C`, `CO`, `OH`, `OOH`, in the order they are written |
| Defaults.LibraryKeys | gaspy/defaults.py:198-231 | the library's keys are exactly those eight names, none twice |
| Defaults.AdsorbateLookup | gaspy/defaults.py:198-231 | looking up each name finds its own entry |
| Defaults.AdsorbateAtoms | gaspy/defaults.py:198-231 | the entries have 0, 1, 1, 1, 1, 2, 2 and 3 atoms, whose symbols spell the name |
| Defaults.AdsorbateOf | gaspy/defaults.py:262-267 | a library name yields that name and the library's atoms. An unknown name raises `KeyError`, which is not caught. An `Atoms` object yields its formula and itself |
| Defaults.AdsorptionParameters | gaspy/defaults.py:234-285 | `adsorption_site`, `slabrepeat`, `num_slab_atoms` and `settings` are `None`, `'(1, 1)'`, `0` and `'beef-vdw'` when omitted. A failing `calc_settings` or an unknown name propagates. Otherwise the call fails exactly on a keyword clash with the fixed adsorption keywords |
| Defaults.AdsorptionParametersShape | gaspy/defaults.py:269-285 | `numtosubmit=2`, `min_xy=4.5`, `relaxed=True`; `num_slab_atoms` and `slabrepeat` pass through. There is one adsorbate entry with the name, the pickled atoms and the site. `vasp_settings` is the fixed adsorption keywords followed by the settings |
| Defaults.AdsorptionParametersByName | gaspy/defaults.py:262-276 | a name outside the library raises `KeyError` rather than falling back. A known name gives one entry under that name, with the library's atoms and the given site |

## Left out

- Mongo access is not modelled. This covers `get_mongo_collection`, the aggregation pipelines and `allowDiskUse`. The documents and collections are the inputs.
- The `print` after each deletion, `tqdm` progress bars, and the warning on an empty clean-up result are not modelled.
- Image dumping and the JSON export are not modelled.
- `tasks.py` is not part of this model.
- Python's builtin `hash` is a parameter `hash: string -> int`, because it differs between interpreter runs. Only the pre-hash string is reasoned about.
- `str()` of a value, including the `round(value, 2)` of floats, is a parameter `show: Value -> string`. Floats are exact reals.
- `Vasp.xc_defaults`, used by `xc_settings` for functionals other than `rpbe`, is a parameter `table`.
- `get_chemical_formula()` of a caller's `Atoms` object is a parameter `formula`.
- `Atoms` are their chemical symbols only. Positions and the Hookean constraints of `OOH` are not modelled.
- `pickle.dumps(atoms).encode('hex')` is the opaque value `Pickled(atoms)`.
- Dictionary order follows insertion order where the code writes `d[k] = v` into an `OrderedDict`, as `OrderedDict` guarantees. This holds for the overwrite loop of `calc_settings`, and for `settings['encut'] = encut` when `settings` names a functional, so that the copy is the `OrderedDict` built by `calc_settings`. A mapping the caller passes is modelled in its given order, with `encut` overwritten in place or written last.
- Every other dictionary is modelled in the order it is written. Python 2 passes keyword arguments, `**settings` included, through a plain `dict`, and plain dicts iterate in string-hash order. This covers `OrderedDict(gga='RP', pp='PBE')`, `OrderedDict({'encut': 350, 'pp_version': '5.4'})`, the plain dicts of `fingerprints` and `adsorbates_dict`, and every dictionary the four parameter builders return. The members below state the written order for this reason.
- Fingerprints: its keys are in written order, not Python 2 hash order.
- FingerprintsKeys: the key sequences it states are in written order, not Python 2 hash order.
- AdsorbatesDict: the library's keys are in written order, not Python 2 hash order.
- XcSettings: `RpbeSettings` lists `gga` before `pp` as written, not in Python 2 hash order.
- CalcSettingsRpbe: the base keys and the `rpbe` keys are in written order; the entries are exact, the order is not Python 2's.
- GasParametersShape: the outer keys and the `vasp_settings` keys are in written order, with the settings after the fixed keywords, not in Python 2 hash order.
- BulkParametersShape: the outer keys and the `vasp_settings` keys are in written order, with the settings after the fixed keywords, not in Python 2 hash order.
- SlabParametersShape: the outer keys, the nested settings dictionaries and the `vasp_settings` keys are in written order, not in Python 2 hash order.
- AdsorptionParametersShape: the outer keys, the adsorbate entry and the `vasp_settings` keys are in written order, not in Python 2 hash order.
- A doubled keyword raises `TypeError` naming the last written keyword that the `**` mapping repeats, because Python 2 checks the written keywords against the mapping from last to first. The wording of the message is not modelled.
- `_clean_up_aggregated_docs` compares `doc.keys()` with `expected_keys` as lists, in iteration order.
- Mongo leaves the order of `$group` output and of `$addToSet` arrays unspecified. The model adds the ids of a group in collection order, so the "first" id of a group is the first document of that value in the collection. It lists the groups in the reverse order of their first appearance, a new group going in front; the set of deleted ids does not depend on the order of the groups.
- `chunks` is a lazy generator sharing one iterator. It is modelled as a function on sequences, with each chunk consumed in full before the next one is requested.
- `adsorption_parameters` reaches its `except TypeError` branch for an `Atoms` argument only if `Atoms` is unhashable, so that the dictionary lookup raises `TypeError`. Under Python 2's default identity hashing the lookup would instead raise a `KeyError` that is not caught. ASE is not part of this model. The model takes the `except` branch for every `Atoms` argument, as the code intends.
- AdsorbateAtoms: states the atom counts and the symbols of each entry. It does not state the positions, which are not modelled.
