/**
 * The config store of ConfigRepository.kt: copy-on-write updates of the persisted
 * preferences (saved configs by id, the config chosen per device, usage timestamps),
 * the lookups by id and by device, the rolling usage window and the startup cleanup.
 * Durations and instants are whole milliseconds; `clock.now()` is a parameter.
 */
module ConfigRepository {
  import opened Wrappers
  import opened LinkedMaps
  import opened Util
  import opened DspModel

  /** The configs a store holds are keyed by their own id, at most once each. */
  predicate WellKeyed(configs: Entries<string, DspConfig>) {
    DistinctKeys(configs) && forall i :: 0 <= i < |configs| ==> configs[i].1.id == configs[i].0
  }

  /** `updateConfig(config)`: `configs + (config.id to config)`. */
  function UpdateConfig(p: DspPrefs, config: DspConfig): (r: DspPrefs)
  {
    p.(configs := Put(p.configs, config.id, config))
  }

  /** `updateConfig` stores the config under its id and leaves every other config, and
      every other preference, as it was; a config already saved keeps its place in the
      list and a new one comes last. */
  lemma UpdateConfigSpec(p: DspPrefs, config: DspConfig)
    ensures var r := UpdateConfig(p, config);
      ToMap(r.configs) == ToMap(p.configs)[config.id := config] &&
      (config.id !in Keys(p.configs) ==> r.configs == p.configs + [(config.id, config)]) &&
      (config.id in Keys(p.configs) ==>
        |r.configs| == |p.configs| && KeyList(r.configs) == KeyList(p.configs)) &&
      r.configsByDevice == p.configsByDevice && r.configUsages == p.configUsages &&
      r.dspEnabled == p.dspEnabled && r.lastAudioSessionId == p.lastAudioSessionId
  {
    PutToMap(p.configs, config.id, config);
    PutPositions(p.configs, config.id, config);
    if config.id in Keys(p.configs) { PutKeyList(p.configs, config.id, config); }
  }

  /** Storing a config under its own id keeps a store well-keyed. */
  lemma PutWellKeyed(configs: Entries<string, DspConfig>, config: DspConfig)
    requires WellKeyed(configs)
    ensures WellKeyed(Put(configs, config.id, config))
  {
    var r := Put(configs, config.id, config);
    PutDistinct(configs, config.id, config);
    PutMembers(configs, config.id, config);
    forall i | 0 <= i < |r| ensures r[i].1.id == r[i].0 {
      assert r[i] in r;
      if r[i] != (config.id, config) {
        var j :| 0 <= j < |configs| && configs[j] == r[i];
      }
    }
  }

  /** The filter `{ it != id }`. */
  function Except(id: string): (keep: string -> bool)
    ensures forall k :: keep(k) <==> k != id
  {
    k => k != id
  }

  /** `deleteConfig(id)`: `configs.filterKeys { it != id }`. */
  function DeleteConfig(p: DspPrefs, id: string): (r: DspPrefs)
  {
    p.(configs := FilterKeys(p.configs, Except(id)))
  }

  /** `deleteConfig` removes exactly the config saved under `id` and leaves the other
      preferences alone. */
  lemma DeleteConfigSpec(p: DspPrefs, id: string)
    ensures var r := DeleteConfig(p, id);
      ToMap(r.configs) == ToMap(p.configs) - {id} &&
      r.configsByDevice == p.configsByDevice && r.configUsages == p.configUsages &&
      r.dspEnabled == p.dspEnabled && r.lastAudioSessionId == p.lastAudioSessionId
  {
    FilterKeysToMap(p.configs, Except(id));
    RestrictExcept(ToMap(p.configs), id);
  }

  lemma RestrictExcept<V>(m: map<string, V>, id: string)
    ensures Restrict(m, Except(id)) == m - {id}
  {
    assert Restrict(m, Except(id)).Keys == (m - {id}).Keys;
  }

  /** Deleting twice is deleting once, and deleting an id that is not saved changes
      nothing. */
  lemma DeleteConfigIdempotent(p: DspPrefs, id: string)
    ensures DeleteConfig(DeleteConfig(p, id), id) == DeleteConfig(p, id)
    ensures id !in Keys(p.configs) ==> DeleteConfig(p, id) == p
  {
    var r := FilterKeys(p.configs, Except(id));
    FilterKeysMembers(p.configs, Except(id));
    assert forall i :: 0 <= i < |r| ==> r[i] in r;
    FilterKeysAll(r, Except(id));
    if id !in Keys(p.configs) {
      FilterKeysAll(p.configs, Except(id));
    }
  }

  /** Deleting keeps a store well-keyed. */
  lemma DeleteWellKeyed(configs: Entries<string, DspConfig>, keep: string -> bool)
    requires WellKeyed(configs)
    ensures WellKeyed(FilterKeys(configs, keep))
  {
    var r := FilterKeys(configs, keep);
    FilterKeysMembers(configs, keep);
    FilterKeysDistinct(configs, keep);
    forall i | 0 <= i < |r| ensures r[i].1.id == r[i].0 {
      assert r[i] in r;
      var j :| 0 <= j < |configs| && configs[j] == r[i];
    }
  }

  /** `updateDeviceConfig(deviceId, configId)`: `configsByDevice + (deviceId to configId)`. */
  function UpdateDeviceConfig(p: DspPrefs, deviceId: string, configId: string): (r: DspPrefs)
  {
    p.(configsByDevice := p.configsByDevice[deviceId := configId])
  }

  /** `updateDeviceConfig` maps the device to the config, keeps every other device's
      entry and changes no other preference; mapping a device twice keeps the last id. */
  lemma UpdateDeviceConfigSpec(p: DspPrefs, deviceId: string, configId: string, later: string)
    ensures var r := UpdateDeviceConfig(p, deviceId, configId);
      r.configsByDevice.Keys == p.configsByDevice.Keys + {deviceId} &&
      r.configsByDevice[deviceId] == configId &&
      (forall d :: d in p.configsByDevice && d != deviceId ==> r.configsByDevice[d] == p.configsByDevice[d]) &&
      r.configs == p.configs && r.configUsages == p.configUsages &&
      r.dspEnabled == p.dspEnabled && r.lastAudioSessionId == p.lastAudioSessionId &&
      UpdateDeviceConfig(r, deviceId, later) == UpdateDeviceConfig(p, deviceId, later)
  {
    var r := UpdateDeviceConfig(p, deviceId, configId);
    assert r.configsByDevice[deviceId := later] == p.configsByDevice[deviceId := later];
  }

  /** The configs of a list whose id is `id`, in order. */
  function WithConfigId(configs: Entries<string, DspConfig>, id: string): (r: seq<DspConfig>)
    ensures forall c :: c in r ==> c.id == id
  {
    if configs == [] then []
    else (if configs[0].1.id == id then [configs[0].1] else []) + WithConfigId(configs[1..], id)
  }

  /** `config(id)`: `configs.values.singleOrNull { it.id == id }`, where no config (a
      `null` that `mapNotNull` swallows) means the flow emits nothing. */
  function ConfigById(p: DspPrefs, id: string): (r: Option<DspConfig>)
    ensures r.Some? ==> r.value.id == id
  {
    var m := WithConfigId(p.configs, id);
    if |m| == 1 then Some(m[0]) else None
  }

  /** In a well-keyed list the configs carrying an id are the one saved under it. */
  lemma {:induction false} WithConfigIdKeyed(configs: Entries<string, DspConfig>, id: string)
    requires WellKeyed(configs)
    ensures WithConfigId(configs, id) == match Get(configs, id) case None => [] case Some(c) => [c]
  {
    if configs != [] {
      var t := configs[1..];
      DistinctCons(configs);
      KeysCons(configs);
      assert forall i :: 0 <= i < |t| ==> t[i] == configs[i + 1];
      WithConfigIdKeyed(t, id);
      if configs[0].0 == id {
        assert Get(t, id).None?;
      }
    }
  }

  /** In a well-keyed store `config(id)` finds exactly the config saved under the id. */
  lemma ConfigByIdSpec(p: DspPrefs, id: string)
    requires WellKeyed(p.configs)
    ensures ConfigById(p, id) == Get(p.configs, id)
  {
    WithConfigIdKeyed(p.configs, id);
  }

  /** `config(id)` emits nothing when several saved configs carry the id. */
  lemma {:induction false} ConfigByIdSeveral(p: DspPrefs, id: string, i: int, j: int)
    requires 0 <= i < j < |p.configs| && p.configs[i].1.id == id && p.configs[j].1.id == id
    ensures ConfigById(p, id).None?
  {
    WithConfigIdSeveral(p.configs, id, i, j);
  }

  lemma {:induction false} WithConfigIdMember(configs: Entries<string, DspConfig>, id: string, i: int)
    requires 0 <= i < |configs| && configs[i].1.id == id
    ensures |WithConfigId(configs, id)| >= 1
  {
    if i > 0 && configs[0].1.id != id {
      WithConfigIdMember(configs[1..], id, i - 1);
    }
  }

  lemma {:induction false} WithConfigIdSeveral(configs: Entries<string, DspConfig>, id: string, i: int, j: int)
    requires 0 <= i < j < |configs| && configs[i].1.id == id && configs[j].1.id == id
    ensures |WithConfigId(configs, id)| >= 2
  {
    if i == 0 {
      WithConfigIdMember(configs[1..], id, j - 1);
    } else if configs[0].1.id == id {
      WithConfigIdMember(configs[1..], id, i - 1);
    } else {
      WithConfigIdSeveral(configs[1..], id, i - 1, j - 1);
    }
  }

  /** `deviceConfig(deviceId)` as written: no mapping gives `DspConfig.Default`; a mapping
      gives what `config(id)` emits, and since that flow drops nulls the
      `config ?: DspConfig.Default` fallback (and the re-mapping it launches) is never
      reached: a device mapped to a missing config gets no value (`None`). */
  function DeviceConfigAsWritten(p: DspPrefs, deviceId: string, default: DspConfig): (r: Option<DspConfig>)
    ensures deviceId !in p.configsByDevice ==> r == Some(default)
    ensures deviceId in p.configsByDevice ==> r == ConfigById(p, p.configsByDevice[deviceId])
  {
    if deviceId !in p.configsByDevice then Some(default)
    else ConfigById(p, p.configsByDevice[deviceId])
  }

  /** A device mapped to a config that was deleted: the store as written emits no config
      for it, and it stays mapped to the missing id. */
  lemma DeviceConfigAsWrittenDangling(default: DspConfig)
    ensures var p := DspPrefs(false, None, [], map["audio_device_phone" := "gone"], map[]);
      DeviceConfigAsWritten(p, "audio_device_phone", default).None?
  {
  }

  /** What a device resolves to, and whether the store re-maps the device to the default
      config afterwards. */
  datatype Resolved = Resolved(config: DspConfig, heal: bool)

  /** `deviceConfig(deviceId)` as intended: the mapped config when it is found, otherwise
      `DspConfig.Default`, re-mapping the device to the default when its mapped config is
      missing. */
  function DeviceConfig(p: DspPrefs, deviceId: string, default: DspConfig): (r: Resolved)
  {
    if deviceId !in p.configsByDevice then Resolved(default, false)
    else match ConfigById(p, p.configsByDevice[deviceId])
      case Some(c) => Resolved(c, false)
      case None => Resolved(default, true)
  }

  /** Applying the heal: `updateDeviceConfig(deviceId, DspConfig.Default.id)`. */
  function Heal(p: DspPrefs, deviceId: string, default: DspConfig): (r: DspPrefs)
  {
    var res := DeviceConfig(p, deviceId, default);
    if res.heal then UpdateDeviceConfig(p, deviceId, default.id) else p
  }

  /** Every device resolves to a config: an unmapped one to the default; in a well-keyed
      store, a mapped one to the config saved under its id if there is one, and otherwise
      to the default with a heal; the resolution agrees with the code as written
      whenever that emits a value; and after the heal the device is mapped to the
      default's id and resolves to a config with that id. */
  lemma DeviceConfigSpec(p: DspPrefs, deviceId: string, default: DspConfig)
    requires WellKeyed(p.configs)
    ensures var r := DeviceConfig(p, deviceId, default);
      (deviceId !in p.configsByDevice ==> r == Resolved(default, false)) &&
      (deviceId in p.configsByDevice ==>
        (p.configsByDevice[deviceId] in Keys(p.configs) ==>
           r == Resolved(ToMap(p.configs)[p.configsByDevice[deviceId]], false)) &&
        (p.configsByDevice[deviceId] !in Keys(p.configs) ==> r == Resolved(default, true))) &&
      (DeviceConfigAsWritten(p, deviceId, default).Some? ==>
        DeviceConfigAsWritten(p, deviceId, default) == Some(r.config)) &&
      (r.heal ==>
        var q := Heal(p, deviceId, default);
        q.configsByDevice == p.configsByDevice[deviceId := default.id] &&
        DeviceConfig(q, deviceId, default).config.id == default.id)
  {
    if deviceId in p.configsByDevice {
      ConfigByIdSpec(p, p.configsByDevice[deviceId]);
    }
    var q := Heal(p, deviceId, default);
    if q.configsByDevice != p.configsByDevice {
      ConfigByIdSpec(q, default.id);
    }
  }

  /** `configUsed(id)`: `now` appended to the id's usage list, created when absent. */
  function ConfigUsed(usages: map<string, seq<int>>, id: string, now: int): (r: map<string, seq<int>>)
  {
    usages[id := (if id in usages then usages[id] else []) + [now]]
  }

  /** `configUsed` ends the id's list with `now` after all its earlier usages, and changes
      no other id. */
  lemma ConfigUsedSpec(usages: map<string, seq<int>>, id: string, now: int)
    ensures var r := ConfigUsed(usages, id, now);
      r.Keys == usages.Keys + {id} &&
      |r[id]| >= 1 && r[id][|r[id]| - 1] == now &&
      r[id][..|r[id]| - 1] == (if id in usages then usages[id] else []) &&
      forall other :: other in usages && other != id ==> r[other] == usages[other]
  {
    var r := ConfigUsed(usages, id, now);
    assert r[id][..|r[id]| - 1] == (if id in usages then usages[id] else []);
  }

  /** `filter { it > cutoff }` on a usage list. */
  function After(usages: seq<int>, cutoff: int): (r: seq<int>)
    ensures |r| <= |usages|
    ensures forall x :: x in r ==> x in usages && x > cutoff
    ensures forall x :: x in usages && x > cutoff ==> x in r
  {
    if usages == [] then []
    else (if usages[0] > cutoff then [usages[0]] else []) + After(usages[1..], cutoff)
  }

  /** A list whose every usage is recent is kept whole. */
  lemma {:induction false} AfterAll(usages: seq<int>, cutoff: int)
    requires forall i :: 0 <= i < |usages| ==> usages[i] > cutoff
    ensures After(usages, cutoff) == usages
  {
    if usages != [] {
      assert forall i :: 0 <= i < |usages[1..]| ==> usages[1..][i] == usages[i + 1];
      AfterAll(usages[1..], cutoff);
      assert usages == [usages[0]] + usages[1..];
    }
  }

  /** Filtering a list with one more usage filters the list and then that usage. */
  lemma {:induction false} AfterSnoc(usages: seq<int>, x: int, cutoff: int)
    ensures After(usages + [x], cutoff) == After(usages, cutoff) + (if x > cutoff then [x] else [])
  {
    if usages != [] {
      assert (usages + [x])[1..] == usages[1..] + [x];
      AfterSnoc(usages[1..], x, cutoff);
    }
  }

  /** `trim(since)` as a value: each id's usages later than `now - since`, in order, and
      only the ids that keep at least one. */
  function TrimmedUsages(usages: map<string, seq<int>>, now: int, since: int): (r: map<string, seq<int>>)
  {
    map id | id in usages && After(usages[id], now - since) != [] :: After(usages[id], now - since)
  }

  /** Trimming adds no id, drops exactly the ids left without a usage, keeps only usages
      strictly later than `now - since`, and keeps all of those. */
  lemma TrimmedUsagesSpec(usages: map<string, seq<int>>, now: int, since: int)
    ensures var r := TrimmedUsages(usages, now, since);
      r.Keys <= usages.Keys &&
      (forall id :: id in usages ==>
        (id in r <==> exists x :: x in usages[id] && x > now - since)) &&
      forall id :: id in r ==>
        r[id] == After(usages[id], now - since) &&
        (forall x :: x in r[id] ==> x > now - since) &&
        (forall x :: x in usages[id] && x > now - since ==> x in r[id])
  {
    var r := TrimmedUsages(usages, now, since);
    forall id | id in usages
      ensures id in r <==> exists x :: x in usages[id] && x > now - since
    {
      var kept := After(usages[id], now - since);
      if kept != [] { assert kept[0] in kept; }
    }
  }

  /** Trimming twice at the same instant is trimming once. */
  lemma TrimIdempotent(usages: map<string, seq<int>>, now: int, since: int)
    ensures TrimmedUsages(TrimmedUsages(usages, now, since), now, since) == TrimmedUsages(usages, now, since)
  {
    var r := TrimmedUsages(usages, now, since);
    forall id | id in r ensures After(r[id], now - since) == r[id] {
      assert forall i :: 0 <= i < |r[id]| ==> r[id][i] in r[id];
      AfterAll(r[id], now - since);
    }
  }

  /** A usage just recorded survives a trim at the same instant with a positive window. */
  lemma TrimKeepsFreshUsage(usages: map<string, seq<int>>, id: string, now: int, since: int)
    requires since > 0
    ensures var r := TrimmedUsages(ConfigUsed(usages, id, now), now, since);
      id in r && r[id][|r[id]| - 1] == now
  {
    var u := ConfigUsed(usages, id, now);
    AfterSnoc(if id in usages then usages[id] else [], now, now - since);
  }

  /** `trim(since)`: every id's list filtered into a fresh map, one id at a time. */
  method Trim(usages: map<string, seq<int>>, now: int, since: int) returns (r: map<string, seq<int>>)
    ensures r == TrimmedUsages(usages, now, since)
  {
    r := map[];
    var remaining := usages.Keys;
    while remaining != {}
      invariant remaining <= usages.Keys
      invariant r == map id | id in usages && id !in remaining && After(usages[id], now - since) != [] ::
        After(usages[id], now - since)
      decreases remaining
    {
      var id :| id in remaining;
      var kept := After(usages[id], now - since);
      if kept != [] {
        r := r[id := kept];
      }
      remaining := remaining - {id};
    }
  }

  /** 28 days in milliseconds. */
  const UsageWindow: int := 28 * 24 * 60 * 60 * 1000

  /** The device entries the cleanup keeps: all of them while the adapter is off,
      otherwise those whose device id is a bonded address. */
  function SurvivingDevices(byDevice: map<string, string>, adapterEnabled: bool, bonded: seq<string>)
    : (r: map<string, string>)
    ensures !adapterEnabled ==> r == byDevice
    ensures adapterEnabled ==> forall d :: d in r <==> d in byDevice && d in bonded
    ensures forall d :: d in r ==> d in byDevice && r[d] == byDevice[d]
  {
    if !adapterEnabled then byDevice else Restrict(byDevice, a => a in bonded)
  }

  /** The filter `{ !it.key.isUUID || it.key in byDevice.values }`: a config survives when
      it is a named one or a device entry refers to it. */
  function KeepsConfig(byDevice: map<string, string>): (keep: string -> bool)
    ensures forall k :: keep(k) <==> !IsUUID(k) || k in byDevice.Values
  {
    k => !IsUUID(k) || k in byDevice.Values
  }

  /** The startup cleanup (`init`): usages trimmed to 28 days, device entries pruned to
      bonded devices when the adapter is on, and the UUID-named configs that no surviving
      device entry refers to deleted. */
  function Cleanup(p: DspPrefs, adapterEnabled: bool, bonded: seq<string>, now: int): (r: DspPrefs)
  {
    var byDevice := SurvivingDevices(p.configsByDevice, adapterEnabled, bonded);
    p.(configUsages := TrimmedUsages(p.configUsages, now, UsageWindow),
       configsByDevice := byDevice,
       configs := FilterKeys(p.configs, KeepsConfig(byDevice)))
  }

  /** After the cleanup a config is saved exactly when it was saved before and either its
      id is not a UUID or a surviving device entry refers to it, with the value it had;
      the usages are trimmed to 2419200000 ms; the other preferences are kept. */
  lemma CleanupSpec(p: DspPrefs, adapterEnabled: bool, bonded: seq<string>, now: int)
    ensures var r := Cleanup(p, adapterEnabled, bonded, now);
      ToMap(r.configs) ==
        Restrict(ToMap(p.configs), KeepsConfig(r.configsByDevice)) &&
      r.configUsages == TrimmedUsages(p.configUsages, now, 2419200000) &&
      r.dspEnabled == p.dspEnabled && r.lastAudioSessionId == p.lastAudioSessionId
  {
    var r := Cleanup(p, adapterEnabled, bonded, now);
    FilterKeysToMap(p.configs, KeepsConfig(r.configsByDevice));
  }

  /** No device entry that survives the cleanup loses the config it found before, and a
      well-keyed store stays well-keyed. */
  lemma CleanupKeepsReferenced(p: DspPrefs, adapterEnabled: bool, bonded: seq<string>, now: int)
    ensures var r := Cleanup(p, adapterEnabled, bonded, now);
      (forall d :: d in r.configsByDevice && r.configsByDevice[d] in Keys(p.configs) ==>
        r.configsByDevice[d] in Keys(r.configs)) &&
      (WellKeyed(p.configs) ==> WellKeyed(r.configs))
  {
    var r := Cleanup(p, adapterEnabled, bonded, now);
    var byDevice := r.configsByDevice;
    var keep := KeepsConfig(byDevice);
    FilterKeysMembers(p.configs, keep);
    forall d | d in byDevice && byDevice[d] in Keys(p.configs)
      ensures byDevice[d] in Keys(r.configs)
    {
      assert byDevice[d] in byDevice.Values;
      var j :| 0 <= j < |p.configs| && p.configs[j].0 == byDevice[d];
      assert keep(p.configs[j].0);
    }
    if WellKeyed(p.configs) {
      DeleteWellKeyed(p.configs, keep);
    }
  }

  /** Cleaning up twice with the same bonded devices at the same instant is cleaning up
      once. */
  lemma CleanupIdempotent(p: DspPrefs, adapterEnabled: bool, bonded: seq<string>, now: int)
    ensures var r := Cleanup(p, adapterEnabled, bonded, now);
      Cleanup(r, adapterEnabled, bonded, now) == r
  {
    var r := Cleanup(p, adapterEnabled, bonded, now);
    var s := Cleanup(r, adapterEnabled, bonded, now);
    TrimIdempotent(p.configUsages, now, UsageWindow);
    assert s.configsByDevice == r.configsByDevice;
    var keep := KeepsConfig(r.configsByDevice);
    FilterKeysMembers(p.configs, keep);
    assert forall i :: 0 <= i < |r.configs| ==> r.configs[i] in r.configs;
    FilterKeysAll(r.configs, keep);
  }
}
