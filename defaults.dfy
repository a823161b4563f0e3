/**
 * GASpy's default settings: the fingerprint projection for Mongo aggregation,
 * the VASP calculation settings per exchange-correlation functional, and the
 * parameter dictionaries handed to the gas, bulk, slab and adsorption tasks.
 */
module Defaults {
  import opened Wrappers
  import opened Sequences
  import opened OrderedDicts
  import opened Values

  // ---------------------------------------------------------------------------
  // fingerprints

  /** The keys of `fingerprints(simulated)`, in the order they are written. */
  const FingerprintKeys: seq<string> :=
    ["mongo_id", "mpid", "formula", "miller", "shift", "top",
     "coordination", "neighborcoord", "nextnearestcoordination"]

  /** The keys only `fingerprints(True)` has. */
  const SimulatedKeys: seq<string> := ["energy", "adsorbates"]

  /** The three coordination fingerprints, read from the initial or from the relaxed structure. */
  const CoordinationKeys: seq<string> := ["coordination", "neighborcoord", "nextnearestcoordination"]

  /** The six entries both versions of `fingerprints` share: the `_id` and the calculation information. */
  const CalculationInfo: ODict<Value> :=
    [("mongo_id", Str("$_id")),
     ("mpid", Str("$processed_data.calculation_info.mpid")),
     ("formula", Str("$processed_data.calculation_info.formula")),
     ("miller", Str("$processed_data.calculation_info.miller")),
     ("shift", Str("$processed_data.calculation_info.shift")),
     ("top", Str("$processed_data.calculation_info.top"))]

  /** Where the coordination fingerprints live: the initial structure, or the relaxed one. */
  function FingerprintStage(simulated: bool): string
  {
    if simulated then "fp_final" else "fp_init"
  }

  /** The Mongo path `$processed_data.<stage>.<field>`. */
  function StagePath(stage: string, field: string): Value
  {
    Str("$processed_data." + stage + "." + field)
  }

  /** `fingerprints(simulated)`: new document key to the Mongo path it is read from. */
  function Fingerprints(simulated: bool := false): (r: ODict<Value>)
    ensures Keys(r) == FingerprintKeys + (if simulated then SimulatedKeys else [])
    ensures forall i :: 0 <= i < 6 ==> r[i] == CalculationInfo[i]
  {
    var stage := FingerprintStage(simulated);
    CalculationInfo
    + [("coordination", StagePath(stage, "coordination")),
       ("neighborcoord", StagePath(stage, "neighborcoord")),
       ("nextnearestcoordination", StagePath(stage, "nextnearestcoordination"))]
    + (if simulated then [("energy", Str("$results.energy")),
                          ("adsorbates", Str("$processed_data.calculation_info.adsorbate_names"))]
       else [])
  }

  /** `fingerprints(False)` has the nine keys; `fingerprints(True)` has them and then `energy` and `adsorbates`, none twice. */
  lemma FingerprintsKeys(simulated: bool)
    ensures Keys(Fingerprints(simulated)) == FingerprintKeys + (if simulated then SimulatedKeys else [])
    ensures Distinct(Keys(Fingerprints(simulated))) && DistinctKeys(Fingerprints(simulated))
  {
    assert Distinct(FingerprintKeys + (if simulated then SimulatedKeys else []));
    DistinctKeysOf(Fingerprints(simulated));
  }

  /** The coordination keys point into `fp_init` for the catalog and into `fp_final` for simulated documents. */
  lemma FingerprintsCoordination(simulated: bool, i: nat)
    requires i < |CoordinationKeys|
    ensures Lookup(Fingerprints(simulated), CoordinationKeys[i]) ==
      Some(StagePath(if simulated then "fp_final" else "fp_init", CoordinationKeys[i]))
  {
    FingerprintsKeys(simulated);
    LookupIndex(Fingerprints(simulated), i + 6);
  }

  /** Only the simulated fingerprints read the energy and the adsorbate names. */
  lemma FingerprintsSimulatedExtras(simulated: bool)
    ensures simulated ==> Lookup(Fingerprints(simulated), "energy") == Some(Str("$results.energy"))
    ensures simulated ==> Lookup(Fingerprints(simulated), "adsorbates") == Some(Str("$processed_data.calculation_info.adsorbate_names"))
    ensures !simulated ==> Lookup(Fingerprints(simulated), "energy") == None && Lookup(Fingerprints(simulated), "adsorbates") == None
  {
    FingerprintsKeys(simulated);
    if simulated {
      LookupIndex(Fingerprints(simulated), 9);
      LookupIndex(Fingerprints(simulated), 10);
    }
  }

  /** Every other key reads the same path in both versions. */
  lemma FingerprintsSimulatedExtends(k: string)
    requires k in Keys(CalculationInfo)
    ensures Lookup(Fingerprints(true), k) == Lookup(Fingerprints(false), k) == Lookup(CalculationInfo, k)
  {
    var t, f := Fingerprints(true), Fingerprints(false);
    assert t == CalculationInfo + t[6..] && f == CalculationInfo + f[6..];
    LookupAppend(CalculationInfo, t[6..], k);
    LookupAppend(CalculationInfo, f[6..], k);
  }

  // ---------------------------------------------------------------------------
  // xc_settings, calc_settings

  /** `OrderedDict(gga='RP', pp='PBE')`. */
  const RpbeSettings: ODict<Value> := [("gga", Str("RP")), ("pp", Str("PBE"))]

  /** The settings every functional starts from. */
  const BaseSettings: ODict<Value> := [("encut", Int(350)), ("pp_version", Str("5.4"))]

  /**
   * `xc_settings(xc)`. Any functional but `rpbe` is read from the Vasp
   * package's `xc_defaults` table, passed here as `table`.
   */
  function XcSettings(xc: string, table: map<string, ODict<Value>>): (r: Result<ODict<Value>, Exception>)
    ensures xc == "rpbe" ==> r == Ok(RpbeSettings)
    ensures xc != "rpbe" ==> (r.Ok? <==> xc in table)
    ensures xc != "rpbe" && xc in table ==> r.value == table[xc]
    ensures r.Err? ==> r.error == KeyError(xc)
  {
    if xc == "rpbe" then Ok(RpbeSettings)
    else if xc in table then Ok(table[xc])
    else Err(KeyError(xc))
  }

  /** Writing every item of `over` into `base`, in order, as `settings[key] = value` does. */
  function Overlay(base: ODict<Value>, over: ODict<Value>): ODict<Value>
    decreases |over|
  {
    if over == [] then base else Overlay(Put(base, over[0].0, over[0].1), over[1..])
  }

  lemma OverlayFirst(base: ODict<Value>, over: ODict<Value>)
    requires over != []
    ensures Overlay(base, over) == Overlay(Put(base, over[0].0, over[0].1), over[1..])
  {
  }

  /** After the overlay a key of `over` holds its value there and every other key keeps the base value. */
  lemma {:induction false} OverlayLookup(base: ODict<Value>, over: ODict<Value>, k: string)
    requires DistinctKeys(over)
    ensures Lookup(Overlay(base, over), k) == if k in Keys(over) then Lookup(over, k) else Lookup(base, k)
    decreases |over|
  {
    if over != [] {
      OverlayLookup(Put(base, over[0].0, over[0].1), over[1..], k);
    }
  }

  /** The base keys keep their places; the new keys follow them. */
  lemma {:induction false} OverlayKeys(base: ODict<Value>, over: ODict<Value>)
    ensures Keys(base) <= Keys(Overlay(base, over))
    ensures DistinctKeys(base) ==> DistinctKeys(Overlay(base, over))
    decreases |over|
  {
    if over != [] {
      if DistinctKeys(base) {
        PutDistinct(base, over[0].0, over[0].1);
      }
      OverlayKeys(Put(base, over[0].0, over[0].1), over[1..]);
    }
  }

  /** What `calc_settings(xc)` returns. */
  function CalcSettingsOf(xc: string, table: map<string, ODict<Value>>): (r: Result<ODict<Value>, Exception>)
    ensures r.Ok? <==> XcSettings(xc, table).Ok?
    ensures r.Err? ==> r.error == KeyError(xc)
    ensures r.Ok? ==> DistinctKeys(r.value) && Keys(BaseSettings) <= Keys(r.value)
  {
    match XcSettings(xc, table)
    case Err(e) => Err(e)
    case Ok(x) =>
      OverlayKeys(BaseSettings, x);
      Ok(Overlay(BaseSettings, x))
  }

  /** `calc_settings(xc)`: start from the base settings, then write the functional's entries over them. */
  method CalcSettings(xc: string, table: map<string, ODict<Value>>) returns (r: Result<ODict<Value>, Exception>)
    ensures r == CalcSettingsOf(xc, table)
  {
    var settings := BaseSettings;
    var defaultSettings := XcSettings(xc, table);
    if defaultSettings.Err? {
      return Err(defaultSettings.error);
    }
    var items := defaultSettings.value;
    var i := 0;
    while i < |items|
      invariant i <= |items|
      invariant Overlay(settings, items[i..]) == Overlay(BaseSettings, items)
    {
      assert items[i..][1..] == items[i + 1..];
      OverlayFirst(settings, items[i..]);
      settings := Put(settings, items[i].0, items[i].1);
      i := i + 1;
    }
    return Ok(settings);
  }

  /** An entry of the functional's settings overrides the base one; every other base entry stays. */
  lemma CalcSettingsLookup(xc: string, table: map<string, ODict<Value>>, k: string)
    requires XcSettings(xc, table).Ok? && DistinctKeys(XcSettings(xc, table).value)
    ensures var x := XcSettings(xc, table).value;
      Lookup(CalcSettingsOf(xc, table).value, k) == if k in Keys(x) then Lookup(x, k) else Lookup(BaseSettings, k)
  {
    OverlayLookup(BaseSettings, XcSettings(xc, table).value, k);
  }

  /** `calc_settings('rpbe')` spelled out. */
  lemma CalcSettingsRpbe(table: map<string, ODict<Value>>)
    ensures CalcSettingsOf("rpbe", table) ==
      Ok([("encut", Int(350)), ("pp_version", Str("5.4")), ("gga", Str("RP")), ("pp", Str("PBE"))])
  {
    var gga, pp := ("gga", Str("RP")), ("pp", Str("PBE"));
    assert Keys(BaseSettings) == ["encut", "pp_version"];
    PutNew(BaseSettings, gga.0, gga.1);
    var once := BaseSettings + [gga];
    assert Keys(once) == ["encut", "pp_version", "gga"];
    PutNew(once, pp.0, pp.1);
    assert RpbeSettings == [gga, pp] && RpbeSettings[1..] == [pp];
    calc {
      Overlay(BaseSettings, RpbeSettings);
      Overlay(once, [pp]);
      Overlay(once + [pp], []);
      [("encut", Int(350)), ("pp_version", Str("5.4")), ("gga", Str("RP")), ("pp", Str("PBE"))];
    }
    assert XcSettings("rpbe", table) == Ok(RpbeSettings);
  }

  // ---------------------------------------------------------------------------
  // The `settings` argument

  /** A caller-owned settings dictionary. */
  class Mapping {
    var entries: ODict<Value>

    constructor(entries: ODict<Value>)
      ensures this.entries == entries
    {
      this.entries := entries;
    }

    /** `settings[key] = value`. */
    method Assign(key: string, value: Value)
      modifies this
      ensures entries == Put(old(entries), key, value)
    {
      entries := Put(entries, key, value);
    }
  }

  /** The `settings` argument: a functional's name (a `str`) or a dictionary used as given. */
  datatype Settings = Named(xc: string) | Given(m: Mapping)

  function Footprint(settings: Settings): set<object>
  {
    if settings.Given? then {settings.m} else {}
  }

  /** `if isinstance(settings, str): settings = calc_settings(settings)`. */
  function Resolve(settings: Settings, table: map<string, ODict<Value>>): (r: Result<ODict<Value>, Exception>)
    reads Footprint(settings)
    ensures settings.Named? ==> r == CalcSettingsOf(settings.xc, table)
    ensures settings.Given? ==> r == Ok(settings.m.entries)
  {
    match settings
    case Named(xc) => CalcSettingsOf(xc, table)
    case Given(m) => Ok(m.entries)
  }

  /** `OrderedDict(<fixed>, **settings)`, a doubled key becoming the `TypeError` that names the last written keyword the settings repeat. */
  function WithSettings(fixed: ODict<Value>, settings: ODict<Value>): (r: Result<ODict<Value>, Exception>)
    ensures r.Ok? <==> forall i :: 0 <= i < |settings| ==> settings[i].0 !in Keys(fixed)
    ensures r.Err? ==> r.error.TypeError? && r.error.key in Keys(fixed) && r.error.key in Keys(settings)
    ensures r.Err? ==> LastClash(fixed, settings, r.error.key)
    ensures r.Ok? ==> Merges(r.value, fixed, settings)
  {
    match Kwargs(fixed, settings)
    case Ok(d) => Ok(d)
    case Err(k) => Err(TypeError(k))
  }

  /** The entry `key` of `d` is a dictionary holding `fixed` followed by `settings`. */
  predicate MergedAt(d: ODict<Value>, key: string, fixed: ODict<Value>, settings: ODict<Value>)
  {
    var x := Lookup(d, key);
    x.Some? && x.value.Dict? && Merges(x.value.entries, fixed, settings)
  }

  /** The `settings` dictionary is free of the fixed keys, so the keyword call goes through. */
  predicate Compatible(fixed: ODict<Value>, settings: ODict<Value>)
  {
    forall i :: 0 <= i < |settings| ==> settings[i].0 !in Keys(fixed)
  }

  /**
   * The error behaviour every parameter builder shares: a failing
   * `calc_settings` propagates, and otherwise the call fails exactly when the
   * settings repeat one of the fixed VASP keywords, naming the last written
   * keyword they repeat.
   */
  predicate FailsAsKwargs(r: Result<ODict<Value>, Exception>, resolved: Result<ODict<Value>, Exception>, fixed: ODict<Value>)
  {
    && (resolved.Err? ==> r == Err(resolved.error))
    && (resolved.Ok? ==> (r.Ok? <==> Compatible(fixed, resolved.value)))
    && (resolved.Ok? && r.Err? ==>
          r.error.TypeError? && r.error.key in Keys(fixed) && r.error.key in Keys(resolved.value) &&
          LastClash(fixed, resolved.value, r.error.key))
  }

  // ---------------------------------------------------------------------------
  // gas_parameters

  const GasVasp: ODict<Value> :=
    [("ibrion", Int(2)), ("nsw", Int(100)), ("isif", Int(0)),
     ("kpts", List([Int(1), Int(1), Int(1)])), ("ediffg", Float(-0.03))]

  /** `gas_parameters(gasname, settings)`. */
  function GasParameters(table: map<string, ODict<Value>>, gasname: string, settings: Settings := Named("beef-vdw"))
    : (r: Result<ODict<Value>, Exception>)
    reads Footprint(settings)
    ensures FailsAsKwargs(r, Resolve(settings, table), GasVasp)
  {
    match Resolve(settings, table)
    case Err(e) => Err(e)
    case Ok(s) =>
      match WithSettings(GasVasp, s)
      case Err(e) => Err(e)
      case Ok(vasp) => Ok(GasDict(gasname, vasp))
  }

  /** The keys of what `gas_parameters` returns, in the order they are written. */
  const GasKeys: seq<string> := ["gasname", "relaxed", "vasp_settings"]

  /** The dictionary `gas_parameters` builds around the merged VASP settings. */
  function GasDict(gasname: string, vasp: ODict<Value>): ODict<Value>
  {
    [("gasname", Str(gasname)), ("relaxed", Bool(true)), ("vasp_settings", Dict(vasp))]
  }

  /** A gas is always relaxed, with the fixed VASP keywords followed by every settings entry. */
  lemma GasParametersShape(gasname: string, settings: Settings, table: map<string, ODict<Value>>)
    requires GasParameters(table, gasname, settings).Ok?
    ensures var r, s := GasParameters(table, gasname, settings).value, Resolve(settings, table).value;
      && Keys(r) == GasKeys
      && Lookup(r, "gasname") == Some(Str(gasname))
      && Lookup(r, "relaxed") == Some(Bool(true))
      && MergedAt(r, "vasp_settings", GasVasp, s)
  {
    var s := Resolve(settings, table).value;
    var vasp := WithSettings(GasVasp, s).value;
    assert GasParameters(table, gasname, settings).value == GasDict(gasname, vasp);
    GasDictLookups(gasname, vasp);
  }

  lemma GasDictLookups(gasname: string, vasp: ODict<Value>)
    ensures var r := GasDict(gasname, vasp);
      && Keys(r) == GasKeys
      && Lookup(r, "gasname") == Some(Str(gasname))
      && Lookup(r, "relaxed") == Some(Bool(true))
      && Lookup(r, "vasp_settings") == Some(Dict(vasp))
  {
    var r := GasDict(gasname, vasp);
    assert Keys(r) == GasKeys && Distinct(GasKeys);
    LookupKeyed(r, GasKeys, 0);
    LookupKeyed(r, GasKeys, 1);
    LookupKeyed(r, GasKeys, 2);
  }

  // ---------------------------------------------------------------------------
  // bulk_parameters

  const BulkVasp: ODict<Value> :=
    [("ibrion", Int(1)), ("nsw", Int(100)), ("isif", Int(7)), ("isym", Int(0)),
     ("ediff", Float(0.00000001)), ("kpts", List([Int(10), Int(10), Int(10)])), ("prec", Str("Accurate"))]

  /** The settings `bulk_parameters` hands on: the resolved ones with `encut` overwritten. */
  function BulkSettings(settings: Settings, encut: Value, table: map<string, ODict<Value>>): (r: Result<ODict<Value>, Exception>)
    reads Footprint(settings)
  {
    match Resolve(settings, table)
    case Err(e) => Err(e)
    case Ok(s) => Ok(Put(s, "encut", encut))
  }

  /** What `bulk_parameters(mpid, settings, encut, max_atoms)` returns. */
  function BulkParametersOf(table: map<string, ODict<Value>>, mpid: string, settings: Settings := Named("beef-vdw"),
                            encut: Value := Float(500.0), maxAtoms: Value := Int(50))
    : (r: Result<ODict<Value>, Exception>)
    reads Footprint(settings)
    ensures FailsAsKwargs(r, BulkSettings(settings, encut, table), BulkVasp)
  {
    match BulkSettings(settings, encut, table)
    case Err(e) => Err(e)
    case Ok(s) =>
      match WithSettings(BulkVasp, s)
      case Err(e) => Err(e)
      case Ok(vasp) => Ok(BulkDict(mpid, maxAtoms, vasp))
  }

  /** The keys of what `bulk_parameters` returns, in the order they are written. */
  const BulkKeys: seq<string> := ["mpid", "relaxed", "max_atoms", "vasp_settings"]

  /** The dictionary `bulk_parameters` builds around the merged VASP settings. */
  function BulkDict(mpid: string, maxAtoms: Value, vasp: ODict<Value>): ODict<Value>
  {
    [("mpid", Str(mpid)), ("relaxed", Bool(true)), ("max_atoms", maxAtoms), ("vasp_settings", Dict(vasp))]
  }

  lemma BulkDictLookups(mpid: string, maxAtoms: Value, vasp: ODict<Value>)
    ensures var r := BulkDict(mpid, maxAtoms, vasp);
      && Keys(r) == BulkKeys
      && Lookup(r, "mpid") == Some(Str(mpid))
      && Lookup(r, "relaxed") == Some(Bool(true))
      && Lookup(r, "max_atoms") == Some(maxAtoms)
      && Lookup(r, "vasp_settings") == Some(Dict(vasp))
  {
    var r := BulkDict(mpid, maxAtoms, vasp);
    assert Keys(r) == BulkKeys && Distinct(BulkKeys);
    LookupKeyed(r, BulkKeys, 0);
    LookupKeyed(r, BulkKeys, 1);
    LookupKeyed(r, BulkKeys, 2);
    LookupKeyed(r, BulkKeys, 3);
  }

  /**
   * `bulk_parameters(mpid, settings, encut, max_atoms)`. The settings are
   * deep-copied before `encut` is written, so the caller's dictionary is left
   * as it was.
   */
  method BulkParameters(table: map<string, ODict<Value>>, mpid: string, settings: Settings := Named("beef-vdw"),
                        encut: Value := Float(500.0), maxAtoms: Value := Int(50))
    returns (r: Result<ODict<Value>, Exception>)
    ensures settings.Given? ==> settings.m.entries == old(settings.m.entries)
    ensures r == BulkParametersOf(table, mpid, settings, encut, maxAtoms)
  {
    var resolved := Resolve(settings, table);
    if resolved.Err? {
      return Err(resolved.error);
    }
    var copy := new Mapping(resolved.value);
    copy.Assign("encut", encut);
    var vasp := WithSettings(BulkVasp, copy.entries);
    if vasp.Err? {
      return Err(vasp.error);
    }
    r := Ok(BulkDict(mpid, maxAtoms, vasp.value));
  }

  /**
   * A bulk is always relaxed; its VASP settings are the fixed keywords and then
   * the caller's settings, whose `encut` is the argument whatever they held.
   */
  lemma BulkParametersShape(table: map<string, ODict<Value>>, mpid: string, settings: Settings, encut: Value, maxAtoms: Value)
    requires BulkParametersOf(table, mpid, settings, encut, maxAtoms).Ok?
    ensures var r, s := BulkParametersOf(table, mpid, settings, encut, maxAtoms).value, BulkSettings(settings, encut, table).value;
      && Keys(r) == BulkKeys
      && Lookup(r, "mpid") == Some(Str(mpid))
      && Lookup(r, "relaxed") == Some(Bool(true))
      && Lookup(r, "max_atoms") == Some(maxAtoms)
      && MergedAt(r, "vasp_settings", BulkVasp, s)
      && Lookup(Lookup(r, "vasp_settings").value.entries, "encut") == Some(encut)
  {
    var s := BulkSettings(settings, encut, table).value;
    var vasp := WithSettings(BulkVasp, s).value;
    assert BulkParametersOf(table, mpid, settings, encut, maxAtoms).value == BulkDict(mpid, maxAtoms, vasp);
    BulkDictLookups(mpid, maxAtoms, vasp);
    PutMerged(vasp, BulkVasp, Resolve(settings, table).value, "encut", encut);
  }

  /** A merge with settings that were just given a value for `k` holds that value under `k`. */
  lemma PutMerged(d: ODict<Value>, fixed: ODict<Value>, s: ODict<Value>, k: string, v: Value)
    requires Merges(d, fixed, Put(s, k, v))
    ensures Lookup(d, k) == Some(v)
  {
    assert k in Keys(Put(s, k, v));
  }

  lemma EncutNotFixed()
    ensures "encut" !in Keys(BulkVasp)
  {
  }

  /** `encut` is not a fixed bulk keyword, so overwriting it never causes the keyword clash by itself. */
  lemma BulkEncutNoClash(settings: Settings, encut: Value, table: map<string, ODict<Value>>)
    requires Resolve(settings, table).Ok?
    ensures BulkSettings(settings, encut, table).Ok?
    ensures Compatible(BulkVasp, BulkSettings(settings, encut, table).value) <==> Compatible(BulkVasp, Resolve(settings, table).value)
  {
    EncutNotFixed();
    PutCompatible(BulkVasp, Resolve(settings, table).value, "encut", encut);
  }

  /** Writing a key that is not fixed leaves the settings exactly as compatible as they were. */
  lemma PutCompatible(fixed: ODict<Value>, s: ODict<Value>, k: string, v: Value)
    requires k !in Keys(fixed)
    ensures Compatible(fixed, Put(s, k, v)) <==> Compatible(fixed, s)
  {
    var t := Put(s, k, v);
    if Compatible(fixed, s) {
      forall i | 0 <= i < |t| ensures t[i].0 !in Keys(fixed) {
        assert t[i].0 in Keys(t);
      }
    }
    if Compatible(fixed, t) {
      forall i | 0 <= i < |s| ensures s[i].0 !in Keys(fixed) {
        if s[i].0 != k {
          assert s[i].0 in Keys(t);
          var j :| 0 <= j < |t| && t[j].0 == s[i].0;
        }
      }
    }
  }

  // ---------------------------------------------------------------------------
  // slab_parameters

  const SlabVasp: ODict<Value> :=
    [("ibrion", Int(2)), ("nsw", Int(100)), ("isif", Int(0)), ("isym", Int(0)),
     ("kpts", List([Int(4), Int(4), Int(1)])), ("lreal", Str("Auto")), ("ediffg", Float(-0.03))]

  const SlabGenerateSettings: ODict<Value> :=
    [("min_slab_size", Float(7.0)), ("min_vacuum_size", Float(20.0)), ("lll_reduce", Bool(false)),
     ("center_slab", Bool(true)), ("primitive", Bool(true)), ("max_normal_search", Int(1))]

  const GetSlabSettings: ODict<Value> :=
    [("tol", Float(0.3)), ("bonds", Null), ("max_broken_bonds", Int(0)), ("symmetrize", Bool(false))]

  /** `slab_parameters(miller, top, shift, settings)`. */
  function SlabParameters(table: map<string, ODict<Value>>, miller: Value, top: Value, shift: Value, settings: Settings := Named("beef-vdw"))
    : (r: Result<ODict<Value>, Exception>)
    reads Footprint(settings)
    ensures FailsAsKwargs(r, Resolve(settings, table), SlabVasp)
  {
    match Resolve(settings, table)
    case Err(e) => Err(e)
    case Ok(s) =>
      match WithSettings(SlabVasp, s)
      case Err(e) => Err(e)
      case Ok(vasp) => Ok(SlabDict(miller, top, shift, vasp))
  }

  /** The keys of what `slab_parameters` returns, in the order they are written. */
  const SlabKeys: seq<string> := ["miller", "top", "max_miller", "shift", "relaxed", "vasp_settings",
                                 "slab_generate_settings", "get_slab_settings"]

  /** The dictionary `slab_parameters` builds around the merged VASP settings. */
  function SlabDict(miller: Value, top: Value, shift: Value, vasp: ODict<Value>): ODict<Value>
  {
    [("miller", miller), ("top", top), ("max_miller", Int(2)), ("shift", shift), ("relaxed", Bool(true)),
     ("vasp_settings", Dict(vasp)), ("slab_generate_settings", Dict(SlabGenerateSettings)),
     ("get_slab_settings", Dict(GetSlabSettings))]
  }

  lemma SlabDictLookups(miller: Value, top: Value, shift: Value, vasp: ODict<Value>)
    ensures var r := SlabDict(miller, top, shift, vasp);
      && Keys(r) == SlabKeys
      && Lookup(r, "miller") == Some(miller)
      && Lookup(r, "top") == Some(top)
      && Lookup(r, "max_miller") == Some(Int(2))
      && Lookup(r, "shift") == Some(shift)
      && Lookup(r, "relaxed") == Some(Bool(true))
      && Lookup(r, "vasp_settings") == Some(Dict(vasp))
      && Lookup(r, "slab_generate_settings") == Some(Dict(SlabGenerateSettings))
      && Lookup(r, "get_slab_settings") == Some(Dict(GetSlabSettings))
  {
    var r := SlabDict(miller, top, shift, vasp);
    assert Keys(r) == SlabKeys && Distinct(SlabKeys);
    LookupKeyed(r, SlabKeys, 0);
    LookupKeyed(r, SlabKeys, 1);
    LookupKeyed(r, SlabKeys, 2);
    LookupKeyed(r, SlabKeys, 3);
    LookupKeyed(r, SlabKeys, 4);
    LookupKeyed(r, SlabKeys, 5);
    LookupKeyed(r, SlabKeys, 6);
    LookupKeyed(r, SlabKeys, 7);
  }

  /** `miller`, `top` and `shift` pass through; the rest is fixed, but for the settings after the fixed VASP keywords. */
  lemma SlabParametersShape(miller: Value, top: Value, shift: Value, settings: Settings, table: map<string, ODict<Value>>)
    requires SlabParameters(table, miller, top, shift, settings).Ok?
    ensures var r, s := SlabParameters(table, miller, top, shift, settings).value, Resolve(settings, table).value;
      && Keys(r) == SlabKeys
      && Lookup(r, "miller") == Some(miller)
      && Lookup(r, "top") == Some(top)
      && Lookup(r, "shift") == Some(shift)
      && Lookup(r, "max_miller") == Some(Int(2))
      && Lookup(r, "relaxed") == Some(Bool(true))
      && MergedAt(r, "vasp_settings", SlabVasp, s)
      && Lookup(r, "slab_generate_settings") == Some(Dict(SlabGenerateSettings))
      && Lookup(r, "get_slab_settings") == Some(Dict(GetSlabSettings))
  {
    var s := Resolve(settings, table).value;
    var vasp := WithSettings(SlabVasp, s).value;
    assert SlabParameters(table, miller, top, shift, settings).value == SlabDict(miller, top, shift, vasp);
    SlabDictLookups(miller, top, shift, vasp);
  }

  /** Only `vasp_settings` depends on `settings`; every other entry is the same whatever the settings are. */
  lemma SlabParametersIgnoreSettings(miller: Value, top: Value, shift: Value, s1: Settings, s2: Settings,
                                     table: map<string, ODict<Value>>, k: string)
    requires SlabParameters(table, miller, top, shift, s1).Ok? && SlabParameters(table, miller, top, shift, s2).Ok?
    requires k != "vasp_settings"
    ensures Lookup(SlabParameters(table, miller, top, shift, s1).value, k) == Lookup(SlabParameters(table, miller, top, shift, s2).value, k)
  {
    var v1 := WithSettings(SlabVasp, Resolve(s1, table).value).value;
    var v2 := WithSettings(SlabVasp, Resolve(s2, table).value).value;
    assert SlabParameters(table, miller, top, shift, s1).value == SlabDict(miller, top, shift, v1);
    assert SlabParameters(table, miller, top, shift, s2).value == SlabDict(miller, top, shift, v2);
    SlabDictOthers(miller, top, shift, v1, v2, k);
  }

  /** Two slab dictionaries that differ only in their VASP settings agree on every other key. */
  lemma SlabDictOthers(miller: Value, top: Value, shift: Value, v1: ODict<Value>, v2: ODict<Value>, k: string)
    requires k != "vasp_settings"
    ensures Lookup(SlabDict(miller, top, shift, v1), k) == Lookup(SlabDict(miller, top, shift, v2), k)
  {
    var r1, r2 := SlabDict(miller, top, shift, v1), SlabDict(miller, top, shift, v2);
    assert Keys(r1) == SlabKeys && Keys(r2) == SlabKeys && Distinct(SlabKeys);
    if k in SlabKeys {
      var i :| 0 <= i < |SlabKeys| && SlabKeys[i] == k;
      assert i != 5;
      LookupKeyed(r1, SlabKeys, i);
      LookupKeyed(r2, SlabKeys, i);
    }
  }

  // ---------------------------------------------------------------------------
  // adsorbates_dict

  const AdsorbateNames: seq<string> := ["", "U", "H", "O", "C", "CO", "OH", "OOH"]

  /** The adsorbate library, in the order its entries are added. */
  const AdsorbateLibrary: ODict<Atoms> :=
    [("", Atoms([])), ("U", Atoms(["U"])), ("H", Atoms(["H"])), ("O", Atoms(["O"])), ("C", Atoms(["C"])),
     ("CO", Atoms(["C", "O"])), ("OH", Atoms(["O", "H"])), ("OOH", Atoms(["O", "O", "H"]))]

  /** The number of atoms of each library entry, in the order of `AdsorbateNames`. */
  const AtomCounts: seq<nat> := [0, 1, 1, 1, 1, 2, 2, 3]

  /** `adsorbates_dict()`: an empty dictionary, then one assignment per adsorbate; each name is new, so each item is appended. */
  method AdsorbatesDict() returns (adsorbates: ODict<Atoms>)
    ensures adsorbates == AdsorbateLibrary
  {
    adsorbates := [];
    PutNew(adsorbates, "", Atoms([]));
    adsorbates := Put(adsorbates, "", Atoms([]));
    PutNew(adsorbates, "U", Atoms(["U"]));
    adsorbates := Put(adsorbates, "U", Atoms(["U"]));
    PutNew(adsorbates, "H", Atoms(["H"]));
    adsorbates := Put(adsorbates, "H", Atoms(["H"]));
    PutNew(adsorbates, "O", Atoms(["O"]));
    adsorbates := Put(adsorbates, "O", Atoms(["O"]));
    PutNew(adsorbates, "C", Atoms(["C"]));
    adsorbates := Put(adsorbates, "C", Atoms(["C"]));
    PutNew(adsorbates, "CO", Atoms(["C", "O"]));
    adsorbates := Put(adsorbates, "CO", Atoms(["C", "O"]));
    PutNew(adsorbates, "OH", Atoms(["O", "H"]));
    adsorbates := Put(adsorbates, "OH", Atoms(["O", "H"]));
    PutNew(adsorbates, "OOH", Atoms(["O", "O", "H"]));
    adsorbates := Put(adsorbates, "OOH", Atoms(["O", "O", "H"]));
  }

  /** The library's keys are the eight names, none of them twice. */
  lemma LibraryKeys()
    ensures Keys(AdsorbateLibrary) == AdsorbateNames && Distinct(AdsorbateNames)
  {
  }

  /** Looking up the i-th name finds the i-th entry. */
  lemma AdsorbateLookup(i: nat)
    requires i < |AdsorbateNames|
    ensures Lookup(AdsorbateLibrary, AdsorbateNames[i]) == Some(AdsorbateLibrary[i].1)
  {
    LibraryKeys();
    LookupKeyed(AdsorbateLibrary, AdsorbateNames, i);
  }

  /** The i-th entry has `AtomCounts[i]` atoms, and their symbols spell its name. */
  lemma AdsorbateAtoms(i: nat)
    requires i < |AdsorbateNames|
    ensures |AdsorbateLibrary[i].1.symbols| == AtomCounts[i]
    ensures Flatten(AdsorbateLibrary[i].1.symbols) == AdsorbateNames[i]
  {
  }

  // ---------------------------------------------------------------------------
  // adsorption_parameters

  /** The `adsorbate` argument: a name to look up in the library, or an `Atoms` object of the caller's. */
  datatype Adsorbate = Name(name: string) | Structure(atoms: Atoms)

  const AdsorptionVasp: ODict<Value> :=
    [("ibrion", Int(2)), ("nsw", Int(200)), ("isif", Int(0)), ("isym", Int(0)),
     ("kpts", List([Int(4), Int(4), Int(1)])), ("lreal", Str("Auto")), ("ediffg", Float(-0.03)),
     ("symprec", Float(0.0000000001))]

  /**
   * The name and the atoms of the adsorbate. A name missing from the library
   * raises `KeyError`: only the `TypeError` of an unhashable `Atoms` key is
   * caught, and that path names the structure by its chemical formula.
   */
  function AdsorbateOf(adsorbate: Adsorbate, formula: Atoms -> string): (r: Result<(string, Atoms), Exception>)
    ensures adsorbate.Name? ==> (r.Ok? <==> adsorbate.name in AdsorbateNames)
    ensures adsorbate.Name? && r.Ok? ==> r.value.0 == adsorbate.name && Lookup(AdsorbateLibrary, adsorbate.name) == Some(r.value.1)
    ensures adsorbate.Name? && r.Err? ==> r.error == KeyError(adsorbate.name)
    ensures adsorbate.Structure? ==> r == Ok((formula(adsorbate.atoms), adsorbate.atoms))
  {
    match adsorbate
    case Name(n) =>
      assert Keys(AdsorbateLibrary) == AdsorbateNames;
      (match Lookup(AdsorbateLibrary, n)
       case None => Err(KeyError(n))
       case Some(atoms) => Ok((n, atoms)))
    case Structure(atoms) => Ok((formula(atoms), atoms))
  }

  /** `adsorption_parameters(adsorbate, adsorption_site, slabrepeat, num_slab_atoms, settings)`. */
  function AdsorptionParameters(table: map<string, ODict<Value>>, formula: Atoms -> string, adsorbate: Adsorbate,
                                adsorptionSite: Value := Null, slabrepeat: Value := Str("(1, 1)"),
                                numSlabAtoms: Value := Int(0), settings: Settings := Named("beef-vdw"))
    : (r: Result<ODict<Value>, Exception>)
    reads Footprint(settings)
    ensures Resolve(settings, table).Ok? && AdsorbateOf(adsorbate, formula).Err? ==> r == Err(AdsorbateOf(adsorbate, formula).error)
    ensures AdsorbateOf(adsorbate, formula).Ok? ==> FailsAsKwargs(r, Resolve(settings, table), AdsorptionVasp)
    ensures Resolve(settings, table).Err? ==> r == Err(Resolve(settings, table).error)
  {
    match Resolve(settings, table)
    case Err(e) => Err(e)
    case Ok(s) =>
      match AdsorbateOf(adsorbate, formula)
      case Err(e) => Err(e)
      case Ok((name, atoms)) =>
        match WithSettings(AdsorptionVasp, s)
        case Err(e) => Err(e)
        case Ok(vasp) => Ok(AdsorptionDict(AdsorbateEntry(name, atoms, adsorptionSite), slabrepeat, numSlabAtoms, vasp))
  }

  /** The one entry of the `adsorbates` list: the name, the pickled atoms and the site. */
  function AdsorbateEntry(name: string, atoms: Atoms, adsorptionSite: Value): Value
  {
    Dict([("name", Str(name)), ("atoms", Pickled(atoms)), ("adsorption_site", adsorptionSite)])
  }

  /** The keys of what `adsorption_parameters` returns, in the order they are written. */
  const AdsorptionKeys: seq<string> := ["numtosubmit", "min_xy", "relaxed", "num_slab_atoms", "slabrepeat",
                                       "adsorbates", "vasp_settings"]

  /** The dictionary `adsorption_parameters` builds around the adsorbate entry and the merged VASP settings. */
  function AdsorptionDict(entry: Value, slabrepeat: Value, numSlabAtoms: Value, vasp: ODict<Value>): ODict<Value>
  {
    [("numtosubmit", Int(2)), ("min_xy", Float(4.5)), ("relaxed", Bool(true)),
     ("num_slab_atoms", numSlabAtoms), ("slabrepeat", slabrepeat),
     ("adsorbates", List([entry])), ("vasp_settings", Dict(vasp))]
  }

  lemma AdsorptionDictLookups(entry: Value, slabrepeat: Value, numSlabAtoms: Value, vasp: ODict<Value>)
    ensures var r := AdsorptionDict(entry, slabrepeat, numSlabAtoms, vasp);
      && Keys(r) == AdsorptionKeys
      && Lookup(r, "numtosubmit") == Some(Int(2))
      && Lookup(r, "min_xy") == Some(Float(4.5))
      && Lookup(r, "relaxed") == Some(Bool(true))
      && Lookup(r, "num_slab_atoms") == Some(numSlabAtoms)
      && Lookup(r, "slabrepeat") == Some(slabrepeat)
      && Lookup(r, "adsorbates") == Some(List([entry]))
      && Lookup(r, "vasp_settings") == Some(Dict(vasp))
  {
    var r := AdsorptionDict(entry, slabrepeat, numSlabAtoms, vasp);
    assert Keys(r) == AdsorptionKeys && Distinct(AdsorptionKeys);
    LookupKeyed(r, AdsorptionKeys, 0);
    LookupKeyed(r, AdsorptionKeys, 1);
    LookupKeyed(r, AdsorptionKeys, 2);
    LookupKeyed(r, AdsorptionKeys, 3);
    LookupKeyed(r, AdsorptionKeys, 4);
    LookupKeyed(r, AdsorptionKeys, 5);
    LookupKeyed(r, AdsorptionKeys, 6);
  }

  /** One adsorbate entry, under the adsorbate's name; fixed submission settings; the caller's settings after the fixed VASP keywords. */
  lemma AdsorptionParametersShape(adsorbate: Adsorbate, adsorptionSite: Value, slabrepeat: Value, numSlabAtoms: Value,
                                  settings: Settings, table: map<string, ODict<Value>>, formula: Atoms -> string)
    requires AdsorptionParameters(table, formula, adsorbate, adsorptionSite, slabrepeat, numSlabAtoms, settings).Ok?
    ensures AdsorbateOf(adsorbate, formula).Ok?
    ensures var r := AdsorptionParameters(table, formula, adsorbate, adsorptionSite, slabrepeat, numSlabAtoms, settings).value;
      var s, (name, atoms) := Resolve(settings, table).value, AdsorbateOf(adsorbate, formula).value;
      && Keys(r) == AdsorptionKeys
      && Lookup(r, "numtosubmit") == Some(Int(2))
      && Lookup(r, "min_xy") == Some(Float(4.5))
      && Lookup(r, "relaxed") == Some(Bool(true))
      && Lookup(r, "num_slab_atoms") == Some(numSlabAtoms)
      && Lookup(r, "slabrepeat") == Some(slabrepeat)
      && Lookup(r, "adsorbates") ==
           Some(List([AdsorbateEntry(name, atoms, adsorptionSite)]))
      && MergedAt(r, "vasp_settings", AdsorptionVasp, s)
  {
    var s := Resolve(settings, table).value;
    var (name, atoms) := AdsorbateOf(adsorbate, formula).value;
    var vasp := WithSettings(AdsorptionVasp, s).value;
    var entry := AdsorbateEntry(name, atoms, adsorptionSite);
    assert AdsorptionParameters(table, formula, adsorbate, adsorptionSite, slabrepeat, numSlabAtoms, settings).value
      == AdsorptionDict(entry, slabrepeat, numSlabAtoms, vasp);
    AdsorptionDictLookups(entry, slabrepeat, numSlabAtoms, vasp);
  }

  /** A library adsorbate asked for by name comes back under that name, with the library's atoms; an unknown name raises `KeyError`. */
  lemma AdsorptionParametersByName(n: string, adsorptionSite: Value, slabrepeat: Value, numSlabAtoms: Value,
                                   settings: Settings, table: map<string, ODict<Value>>, formula: Atoms -> string)
    requires Resolve(settings, table).Ok?
    ensures n !in AdsorbateNames ==>
      AdsorptionParameters(table, formula, Name(n), adsorptionSite, slabrepeat, numSlabAtoms, settings) == Err(KeyError(n))
    ensures AdsorptionParameters(table, formula, Name(n), adsorptionSite, slabrepeat, numSlabAtoms, settings).Ok? ==>
      && n in AdsorbateNames
      && Lookup(AdsorptionParameters(table, formula, Name(n), adsorptionSite, slabrepeat, numSlabAtoms, settings).value, "adsorbates")
         == Some(List([AdsorbateEntry(n, ValueOf(AdsorbateLibrary, n), adsorptionSite)]))
  {
    if AdsorptionParameters(table, formula, Name(n), adsorptionSite, slabrepeat, numSlabAtoms, settings).Ok? {
      AdsorptionParametersShape(Name(n), adsorptionSite, slabrepeat, numSlabAtoms, settings, table, formula);
    }
  }
}
