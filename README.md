# DSP: a model of the audio effect core

This project models the core of an Android DSP app. The app attaches effects to the
audio sessions of the phone and applies the equalizer, bass boost and post gain of the
config chosen for the current output device. The model covers six parts of the app:

- **DSP feature** (`DspFeature`, `DspCodec`, `AudioEffects`). The list of live audio
  session ids is a fold over open/close broadcasts, seeded by the persisted last
  session id. Each session's custom effect is constructed with up to five attempts.
  A session that never constructs is dropped from the list. `Apply` writes the effect
  parameters 1202, 116, 1201, 112 and 1500, each whenever its key changes. The byte
  encoding of the parameter ids, the short values and the float arrays is modelled
  down to the byte.
- **Session worker** (`AudioSessionWorker`). The worker fixes the stored equalizer
  schema on start. It keeps a registry of sessions, each with three effects, driven by
  START/STOP events and replayed from the persisted known ids. A START constructs with
  up to three attempts, and a session constructed on a retry needs a resync. Every live
  session gets the enable flag, and every session is released on shutdown. As in the
  code, a START for an id that already has a session replaces that session without
  releasing it.
- **Audio device repository** (`AudioDeviceRepository`). The listed devices are the
  bonded Bluetooth devices, then the phone speaker, then the wired output. The current
  device is the active A2DP device when exactly one listed device has its address,
  otherwise the wired output when plugged in, otherwise the phone. The connection
  query is also modelled.
- **Config repository** (`ConfigRepository`, `LinkedMaps`, `DspModel`). The store
  holds saved configs in insertion order, the config per device and the usage
  timestamps. The model covers update, delete, lookup by id, resolution per device,
  usage recording, the 28-day usage window and the startup cleanup.
- **Home screen logic** (`Ui`, `Sorting`). It covers the band labels, the
  "update frequencies" dialog (text, parser, re-keying), band edits and the rule that
  forks a named config into a custom one. It also covers the saved-config list
  (filtered, sorted, cut into rows of two) and what selecting a config does.
- **UUID recogniser** (`Util`). A config whose id is a lower-case UUID is a custom
  config; any other id is a named one.

Stateful parts of the source are classes whose methods carry `modifies` clauses. This
covers the effect objects, the session objects, the session registry and the session
list holder. The fill loop of the float buffer is a method over a Dafny `array`.
Everything else is functions and lemmas. Kotlin maps whose iteration order matters are
insertion-ordered entry lists, and `toMap` relates them to Dafny maps.

`DspPrefs.kt` declares only `dspEnabled` and `bassBoost`. The other files read and
write `lastAudioSessionId`, `configs`, `configsByDevice` and `configUsages`.
`DspModel.DspPrefs` follows those uses, not the declaration.

## Model

All source paths are under `app/src/main/kotlin/com/ivianuu/dsp/`, written out in
full below.

| member | source | states |
|---|---|---|
| Util.IsUUIDIffShape | app/src/main/kotlin/com/ivianuu/dsp/Util.kt:6-10 | a string matches the UUID pattern exactly when it has 36 characters, hyphens at positions 8, 13, 18 and 23, and lower-case hexadecimal digits everywhere else |
| Util.ShapeMatches | app/src/main/kotlin/com/ivianuu/dsp/Util.kt:6-10 | that character-level shape is enough for the pattern to match |
| Util.UUIDLength | app/src/main/kotlin/com/ivianuu/dsp/Util.kt:6-10 | every UUID is 36 characters long |
| Util.UpperCaseRejected | app/src/main/kotlin/com/ivianuu/dsp/Util.kt:6-7 | a string with an upper-case hexadecimal letter is not a UUID |
| Util.ExtendedRejected | app/src/main/kotlin/com/ivianuu/dsp/Util.kt:9-10 | `matches` covers the whole string, so a UUID with anything appended is no longer a UUID |
| DspCodec.ToByte | app/src/main/kotlin/com/ivianuu/dsp/DspFeature.kt:221-222 | `toByte` keeps the value modulo 256, as a signed byte |
| DspCodec.ToShort | app/src/main/kotlin/com/ivianuu/dsp/DspFeature.kt:198 | `toShort` keeps the value modulo 65536, and is the identity on the 16-bit range |
| DspCodec.ParameterIdLanes | app/src/main/kotlin/com/ivianuu/dsp/DspFeature.kt:220-223 | the id argument is 4 bytes, and byte i is bits 8i to 8i+7 of the 32-bit id |
| DspCodec.ParameterIdRoundTrip | app/src/main/kotlin/com/ivianuu/dsp/DspFeature.kt:220-223 | reading the 4 bytes back, low byte first, gives the parameter id, negative ids included |
| DspCodec.ShortRoundTrip | app/src/main/kotlin/com/ivianuu/dsp/DspFeature.kt:224-226 | a short value is 2 bytes, the low byte first, and they reassemble to the value |
| DspCodec.WordBytesLanes | app/src/main/kotlin/com/ivianuu/dsp/DspFeature.kt:246-247 | `putFloat` lays out the raw word's bytes low-first in little-endian order and high-first in big-endian order |
| DspCodec.FloatArrayLayout | app/src/main/kotlin/com/ivianuu/dsp/DspFeature.kt:244-247 | a buffer of N floats is 4N bytes, and float i sits at bytes 4i to 4i+3 |
| DspCodec.FloatArrayRoundTrip | app/src/main/kotlin/com/ivianuu/dsp/DspFeature.kt:244-247 | every raw float word written into the buffer is read back unchanged |
| DspCodec.FillFloatBuffer | app/src/main/kotlin/com/ivianuu/dsp/DspFeature.kt:244-247 | the fill loop over a `4N`-byte array leaves exactly the specified buffer bytes |
| DspCodec.PutFloat | app/src/main/kotlin/com/ivianuu/dsp/DspFeature.kt:247 | one `putFloat` writes the word's 4 bytes after the bytes already written, and the bytes before and after them are untouched |
| DspModel.SortedByBand | app/src/main/kotlin/com/ivianuu/dsp/DspFeature.kt:175-177 | `toList().sortedBy { it.first }` is a permutation of the entries, ordered by band |
| DspModel.SortedByBandStrict | app/src/main/kotlin/com/ivianuu/dsp/DspFeature.kt:175-177 | the bands of an equalizer map, listed this way, are strictly ascending and are the map's bands |
| DspFeature.EqPayload | app/src/main/kotlin/com/ivianuu/dsp/DspFeature.kt:179-184 | the payload of parameter 116 has 2 + 2N floats and starts with two -1 markers |
| DspFeature.EqPayloadParts | app/src/main/kotlin/com/ivianuu/dsp/DspFeature.kt:175-184 | after the markers come the N bands of the sorted entries, then their N gains, in the same order |
| DspFeature.EqPayloadBandsAscending | app/src/main/kotlin/com/ivianuu/dsp/DspFeature.kt:175-184 | the bands in the payload are strictly ascending |
| DspFeature.EqPayloadCoversMap | app/src/main/kotlin/com/ivianuu/dsp/DspFeature.kt:173-184 | every equalizer entry appears in the payload as a band with its gain at the matching offset |
| DspFeature.EqPayloadFromMap | app/src/main/kotlin/com/ivianuu/dsp/DspFeature.kt:173-184 | every band of the payload, with the gain at its offset, is an equalizer entry |
| DspFeature.CompositionWriteRules | app/src/main/kotlin/com/ivianuu/dsp/DspFeature.kt:165-209 | each write follows its rule: the enabled flag, 1202 set to 1, 116 with the payload, 1201 set to 1 or 0 by the sign of the bass boost, 112 with the boost as a short, 1500 with `[-0.1, 60, gain]` |
| DspFeature.FirstCompositionWritesAll | app/src/main/kotlin/com/ivianuu/dsp/DspFeature.kt:163-209 | the first composition makes all six writes, in source order |
| DspFeature.CompositionUnchangedWritesNothing | app/src/main/kotlin/com/ivianuu/dsp/DspFeature.kt:163-209 | a later composition with unchanged keys writes nothing |
| DspFeature.CompositionRerunsOnChange | app/src/main/kotlin/com/ivianuu/dsp/DspFeature.kt:163-209 | a later composition makes each of the five keyed writes exactly when that write's key changed |
| DspFeature.CompositionEqSwitchOnce | app/src/main/kotlin/com/ivianuu/dsp/DspFeature.kt:168-171 | the equalizer switch 1202 is written only by the first composition |
| DspFeature.ApplyReorderedWritesNothing | app/src/main/kotlin/com/ivianuu/dsp/DspFeature.kt:173 | an equalizer with the same entries in another order is an equal key, so it writes nothing |
| DspFeature.RawWriteRoundTrip | app/src/main/kotlin/com/ivianuu/dsp/DspFeature.kt:218-257 | each `setParameter` call's bytes decode back to the write's parameter id and its short or float words |
| DspFeature.AudioSession.SetParameterShort | app/src/main/kotlin/com/ivianuu/dsp/DspFeature.kt:218-236 | the effect receives one call with the 4 id bytes and the 2 value bytes, and nothing else changes |
| DspFeature.AudioSession.SetParameterFloatArray | app/src/main/kotlin/com/ivianuu/dsp/DspFeature.kt:238-257 | the effect receives one call with the 4 id bytes and the 4N buffer bytes, and nothing else changes |
| DspFeature.AudioSession.Apply | app/src/main/kotlin/com/ivianuu/dsp/DspFeature.kt:162-210 | the effect receives exactly the selected writes of this composition, in order, and the new keys are remembered |
| DspFeature.AudioSession.Release | app/src/main/kotlin/com/ivianuu/dsp/DspFeature.kt:212-216 | the effect is released and receives no other write |
| DspFeature.SessionEvent | app/src/main/kotlin/com/ivianuu/dsp/DspFeature.kt:84 | an event is the broadcast's action and its session extra, or -1 when the extra is missing |
| DspFeature.RemoveFirst | app/src/main/kotlin/com/ivianuu/dsp/DspFeature.kt:92 | `list - x` removes one occurrence of x; an absent x changes nothing |
| DspFeature.StepMultiset | app/src/main/kotlin/com/ivianuu/dsp/DspFeature.kt:89-95 | an open adds one occurrence of the id, a close removes one, and any other action changes nothing |
| DspFeature.FoldAppend | app/src/main/kotlin/com/ivianuu/dsp/DspFeature.kt:89-95 | folding a concatenation of events folds the second part over the first |
| DspFeature.SeedFirst | app/src/main/kotlin/com/ivianuu/dsp/DspFeature.kt:85-88 | a persisted last session id is folded as an open before every broadcast; without one only the broadcasts count |
| DspFeature.OpenThenClose | app/src/main/kotlin/com/ivianuu/dsp/DspFeature.kt:91-92 | opening and then closing a session leaves the same live ids, counted with multiplicity |
| DspFeature.AudioSessionFeature.OnEvent | app/src/main/kotlin/com/ivianuu/dsp/DspFeature.kt:89-95 | the session list takes one step of the fold, and the preferences are unchanged |
| DspFeature.AudioSessionFeature.Collect | app/src/main/kotlin/com/ivianuu/dsp/DspFeature.kt:78-95 | starting from the current list, the collector's loop ends with the fold of the seeded events |
| DspFeature.AudioSessionFeature.CreateSession | app/src/main/kotlin/com/ivianuu/dsp/DspFeature.kt:101-122 | up to five attempts are made. Failure drops one occurrence of the id. Success yields a fresh session and persists its id as `lastAudioSessionId` |
| AudioEffects.RetryCharacterised | app/src/main/kotlin/com/ivianuu/dsp/DspFeature.kt:105-110 | a retry makes at least one attempt and at most the limit. It succeeds exactly when an attempt within the limit succeeds, and it stops at the first success |
| AudioEffects.CreateUpTo | app/src/main/kotlin/com/ivianuu/dsp/DspFeature.kt:102-110 | the retry loop consumes exactly the attempts of that retry and returns a pristine effect exactly when it succeeds |
| AudioEffects.EffectFactory.TryCreate | app/src/main/kotlin/com/ivianuu/dsp/DspFeature.kt:148-156 | one construction attempt consumes one outcome and yields a fresh, untouched effect exactly when that outcome is a success |
| AudioSessionWorker.Fix | app/src/main/kotlin/com/ivianuu/dsp/AudioSessionWorker.kt:60 | `fix` keeps the bass boost and the post gain |
| AudioSessionWorker.FixSchema | app/src/main/kotlin/com/ivianuu/dsp/AudioSessionWorker.kt:60 | after `fix` the bands are exactly the configured bands, each once. A kept band keeps its level and a new band gets 0.5 |
| AudioSessionWorker.FixIdempotent | app/src/main/kotlin/com/ivianuu/dsp/AudioSessionWorker.kt:60 | fixing a fixed config changes nothing |
| AudioSessionWorker.FixPrefs | app/src/main/kotlin/com/ivianuu/dsp/AudioSessionWorker.kt:59-65 | the current config and every saved config are fixed, and the saved configs keep their ids and their order |
| AudioSessionWorker.FixPrefsIdempotent | app/src/main/kotlin/com/ivianuu/dsp/AudioSessionWorker.kt:59-65 | rewriting the preferences on a second start changes nothing |
| AudioSessionWorker.AudioSession.constructor | app/src/main/kotlin/com/ivianuu/dsp/AudioSessionWorker.kt:194-199 | a new session holds three fresh, distinct effects that nothing was written to, and needs no resync |
| AudioSessionWorker.AudioSession.Apply | app/src/main/kotlin/com/ivianuu/dsp/AudioSessionWorker.kt:205-219 | every effect ends with the enable flag and the resync is cleared. A session that needed a resync first writes `false` to all three effects |
| AudioSessionWorker.AudioSession.Release | app/src/main/kotlin/com/ivianuu/dsp/AudioSessionWorker.kt:244-249 | all three effects are released and their enable flags are untouched |
| AudioSessionWorker.SessionFactory.TryCreate | app/src/main/kotlin/com/ivianuu/dsp/AudioSessionWorker.kt:137-149 | one `AudioSession(sessionId)` attempt consumes one outcome of the script. It yields a session exactly when that outcome succeeds, and the session is fresh, built for the id, with three fresh, distinct effects that nothing was written to, none released, and no resync pending |
| AudioSessionWorker.NewSession | app/src/main/kotlin/com/ivianuu/dsp/AudioSessionWorker.kt:137-154 | up to three attempts are made. A session is returned exactly when one succeeds, and it needs a resync exactly when it was not the first attempt |
| AudioSessionWorker.SessionRegistry.Start | app/src/main/kotlin/com/ivianuu/dsp/AudioSessionWorker.kt:136-169 | success binds a fresh session built for the id, with fresh effects, to the id, changes no other entry, publishes the map and adds the id to the known ids. Failure only removes the id from the known ids |
| AudioSessionWorker.SessionRegistry.Stop | app/src/main/kotlin/com/ivianuu/dsp/AudioSessionWorker.kt:170-179 | the id is unbound and its session, if any, released. The id is forgotten and the map is published |
| AudioSessionWorker.SessionRegistry.Handle | app/src/main/kotlin/com/ivianuu/dsp/AudioSessionWorker.kt:134-181 | START does all that `Start` promises: three attempts at most from the script, a fresh session built for the id, with fresh effects, bound and published and the id known on success (with a resync pending after a retry), and only the id forgotten on failure. STOP does all that `Stop` promises and leaves the script alone |
| AudioSessionWorker.SessionRegistry.Replay | app/src/main/kotlin/com/ivianuu/dsp/AudioSessionWorker.kt:129-169 | every known id is replayed as START exactly once, in some order. The script is consumed by that many STARTs in turn, and the ids still known are exactly those whose START succeeded, each bound to a fresh session built for it, with fresh effects. Every other session is untouched, and one snapshot per new session follows the earlier ones |
| AudioSessionWorker.Replayed | app/src/main/kotlin/com/ivianuu/dsp/AudioSessionWorker.kt:129-169 | the ids kept by a replay are ids that were replayed |
| AudioSessionWorker.ReplayedCount | app/src/main/kotlin/com/ivianuu/dsp/AudioSessionWorker.kt:129-169 | a replay of distinct ids keeps as many ids as STARTs succeeded, which is also how many snapshots it publishes |
| AudioSessionWorker.ReplayAllSucceed | app/src/main/kotlin/com/ivianuu/dsp/AudioSessionWorker.kt:129-169 | when every first attempt succeeds, the replay keeps every id it replays and consumes one attempt per id |
| AudioSessionWorker.ReplayAllFail | app/src/main/kotlin/com/ivianuu/dsp/AudioSessionWorker.kt:129-169 | for every script whose attempts all fail, the replay keeps no id, and the script left over still fails every attempt |
| AudioSessionWorker.KnownAfter | app/src/main/kotlin/com/ivianuu/dsp/AudioSessionWorker.kt:134-181 | an id known after the broadcasts was known before or was the subject of a START |
| AudioSessionWorker.KnownAfterUntouched | app/src/main/kotlin/com/ivianuu/dsp/AudioSessionWorker.kt:134-181 | an id no broadcast names is known afterwards exactly when it was known before |
| AudioSessionWorker.KnownAfterLast | app/src/main/kotlin/com/ivianuu/dsp/AudioSessionWorker.kt:134-181 | an id is known after the broadcasts exactly when the last broadcast naming it was a START whose attempts, drawn from what the earlier broadcasts left of the script, succeeded |
| AudioSessionWorker.LiveAfter | app/src/main/kotlin/com/ivianuu/dsp/AudioSessionWorker.kt:134-181 | an id bound after the broadcasts was bound before or was the subject of a START |
| AudioSessionWorker.Snapshots | app/src/main/kotlin/com/ivianuu/dsp/AudioSessionWorker.kt:134-181 | the broadcasts publish at most one snapshot each, and a run of STOPs publishes one snapshot per STOP |
| AudioSessionWorker.LiveAfterUnsettled | app/src/main/kotlin/com/ivianuu/dsp/AudioSessionWorker.kt:134-181 | an id that no STOP names and no successful START names is bound afterwards exactly when it was bound before |
| AudioSessionWorker.LiveAfterLast | app/src/main/kotlin/com/ivianuu/dsp/AudioSessionWorker.kt:134-181 | an id is bound after the broadcasts exactly when the last broadcast that settles it (a STOP, or a START that succeeds) is a START |
| AudioSessionWorker.SessionRegistry.HandleAll | app/src/main/kotlin/com/ivianuu/dsp/AudioSessionWorker.kt:134-181 | handling the broadcasts one by one consumes the script as their STARTs do in turn. It leaves known exactly the ids `KnownAfter` gives and bound exactly the ids `LiveAfter` gives, every bound session being the one built for its id. It appends one snapshot per broadcast that settles its id, keeps the earlier snapshots, and the last snapshot is the final map |
| AudioSessionWorker.SessionRegistry.Collect | app/src/main/kotlin/com/ivianuu/dsp/AudioSessionWorker.kt:129-181 | the collector first replays every known id as START, once each, and only then handles the broadcasts. Their STARTs draw their attempts from the script the replay left over. The ids known at the end are those `KnownAfter` gives from the replay's kept ids. The ids bound at the end are those `LiveAfter` gives from the ids bound before plus the replay's kept ids. The snapshots are the earlier ones, then one per kept replay, then one per settling broadcast, and the last is the final map |
| AudioSessionWorker.SessionRegistry.Shutdown | app/src/main/kotlin/com/ivianuu/dsp/AudioSessionWorker.kt:183-186 | every session still in the map is released |
| AudioSessionWorker.SessionRegistry.ApplyAll | app/src/main/kotlin/com/ivianuu/dsp/AudioSessionWorker.kt:93-97 | every live session ends enabled as requested, with no resync pending |
| AudioDeviceRepository.Id | app/src/main/kotlin/com/ivianuu/dsp/AudioDeviceRepository.kt:53-67 | the phone and the wired output have fixed ids, and a Bluetooth device's id is its address |
| AudioDeviceRepository.FromBonded | app/src/main/kotlin/com/ivianuu/dsp/AudioDeviceRepository.kt:123-124 | a bonded device becomes a Bluetooth device with its address and its alias, or its name when it has no alias |
| AudioDeviceRepository.AudioDevices | app/src/main/kotlin/com/ivianuu/dsp/AudioDeviceRepository.kt:116-129 | the list is the bonded devices in order, then the phone, then the wired output. Without the permission or an adapter it is only the last two |
| AudioDeviceRepository.SingleOrNullSpec | app/src/main/kotlin/com/ivianuu/dsp/AudioDeviceRepository.kt:105 | `singleOrNull` finds the device held by the only position with the id. It finds nothing when no position or several positions hold the id |
| AudioDeviceRepository.ConnectedBluetoothDevice | app/src/main/kotlin/com/ivianuu/dsp/AudioDeviceRepository.kt:94-106 | with A2DP off or no active address there is no device, whatever the proxy would say. Otherwise the active address is looked up with `singleOrNull` |
| AudioDeviceRepository.CurrentAudioDeviceSpec | app/src/main/kotlin/com/ivianuu/dsp/AudioDeviceRepository.kt:79-113 | the current device is always a listed device. With A2DP off it is the wired output when plugged in, else the phone. A uniquely listed active address wins. An ambiguous or unlisted address, or none at all, falls back to the wired output when plugged in, else the phone |
| AudioDeviceRepository.CurrentAudioDeviceIn | app/src/main/kotlin/com/ivianuu/dsp/AudioDeviceRepository.kt:103-112 | the same choice over any device list holding the phone and the wired output |
| AudioDeviceRepository.IsAudioDeviceConnectedSpec | app/src/main/kotlin/com/ivianuu/dsp/AudioDeviceRepository.kt:157-174 | `single` fails exactly when no device or several devices have the id. Otherwise the phone is connected, the wired output is not, and a Bluetooth device is connected exactly when its remote device says so |
| AudioDeviceRepository.FixedDevicesFound | app/src/main/kotlin/com/ivianuu/dsp/AudioDeviceRepository.kt:116-129 | when no bonded address equals a fixed id, the phone and the wired output are each found by their id |
| LinkedMaps.PutToMap | app/src/main/kotlin/com/ivianuu/dsp/ConfigRepository.kt:57 | `map + (k to v)` on an ordered map means `m[k := v]` on the map it stands for |
| LinkedMaps.PutKeyList | app/src/main/kotlin/com/ivianuu/dsp/Ui.kt:152 | putting a key that is already present keeps the key order |
| LinkedMaps.FilterKeysToMap | app/src/main/kotlin/com/ivianuu/dsp/ConfigRepository.kt:63 | `filterKeys` keeps exactly the entries whose key passes |
| Sorting.SortSorted | app/src/main/kotlin/com/ivianuu/dsp/Ui.kt:179 | `sortedBy` returns a sorted permutation of its input |
| Sorting.SortStable | app/src/main/kotlin/com/ivianuu/dsp/Ui.kt:179-180 | the sort is stable: the items tied with any given item come out in their input order |
| Sorting.TiesCommute | app/src/main/kotlin/com/ivianuu/dsp/Ui.kt:179-180 | picking the items tied on one key and then on another gives the same as the other way round |
| Sorting.SortTwice | app/src/main/kotlin/com/ivianuu/dsp/Ui.kt:179-180 | a stable sort after another sort orders by the second key, then by the first among equal second keys |
| ConfigRepository.UpdateConfigSpec | app/src/main/kotlin/com/ivianuu/dsp/ConfigRepository.kt:55-59 | the config is stored under its id and no other config or preference changes. A known id keeps its place, and a new id comes last |
| ConfigRepository.PutWellKeyed | app/src/main/kotlin/com/ivianuu/dsp/ConfigRepository.kt:55-59 | an update keeps every config stored under its own id, once |
| ConfigRepository.DeleteConfigSpec | app/src/main/kotlin/com/ivianuu/dsp/ConfigRepository.kt:61-65 | exactly the config under the id is removed, and the other preferences are unchanged |
| ConfigRepository.DeleteConfigIdempotent | app/src/main/kotlin/com/ivianuu/dsp/ConfigRepository.kt:61-65 | deleting twice is deleting once, and deleting an unsaved id changes nothing |
| ConfigRepository.DeleteWellKeyed | app/src/main/kotlin/com/ivianuu/dsp/ConfigRepository.kt:61-65 | deleting keeps the store well keyed |
| ConfigRepository.UpdateDeviceConfigSpec | app/src/main/kotlin/com/ivianuu/dsp/ConfigRepository.kt:67-73 | the device is mapped to the config and every other device keeps its entry. Nothing else changes, and the last of two mappings wins |
| ConfigRepository.ConfigById | app/src/main/kotlin/com/ivianuu/dsp/ConfigRepository.kt:51-53 | a config found by `config(id)` carries that id |
| ConfigRepository.ConfigByIdSpec | app/src/main/kotlin/com/ivianuu/dsp/ConfigRepository.kt:51-53 | in a well-keyed store `config(id)` finds exactly the config saved under the id |
| ConfigRepository.ConfigByIdSeveral | app/src/main/kotlin/com/ivianuu/dsp/ConfigRepository.kt:51-53 | when two saved configs carry the id, `config(id)` emits nothing |
| ConfigRepository.DeviceConfigAsWritten | app/src/main/kotlin/com/ivianuu/dsp/ConfigRepository.kt:75-90 | as written, an unmapped device gets the default config, and a mapped device gets whatever `config(id)` emits, possibly nothing |
| ConfigRepository.DeviceConfigAsWrittenDangling | app/src/main/kotlin/com/ivianuu/dsp/ConfigRepository.kt:75-90 | as written, a device mapped to a deleted config gets no config and stays mapped |
| ConfigRepository.DeviceConfigSpec | app/src/main/kotlin/com/ivianuu/dsp/ConfigRepository.kt:75-90 | every device resolves to a config: the mapped one when it is saved, otherwise the default. Only the dangling case re-maps the device to the default id |
| ConfigRepository.ConfigUsedSpec | app/src/main/kotlin/com/ivianuu/dsp/ConfigRepository.kt:92-103 | `now` is appended after the id's earlier usages, the list is created when absent, and no other id changes |
| ConfigRepository.After | app/src/main/kotlin/com/ivianuu/dsp/ConfigRepository.kt:109 | the filter keeps exactly the usages later than the cutoff |
| ConfigRepository.TrimmedUsagesSpec | app/src/main/kotlin/com/ivianuu/dsp/ConfigRepository.kt:105-112 | trimming adds no id. An id survives exactly when it has a usage inside the window, and it keeps exactly those usages, in order |
| ConfigRepository.TrimIdempotent | app/src/main/kotlin/com/ivianuu/dsp/ConfigRepository.kt:105-112 | trimming twice at the same instant is trimming once |
| ConfigRepository.TrimKeepsFreshUsage | app/src/main/kotlin/com/ivianuu/dsp/ConfigRepository.kt:92-112 | a usage recorded at `now` survives a trim at `now` with a positive window |
| ConfigRepository.Trim | app/src/main/kotlin/com/ivianuu/dsp/ConfigRepository.kt:105-112 | the loop over the ids builds exactly the trimmed map |
| ConfigRepository.SurvivingDevices | app/src/main/kotlin/com/ivianuu/dsp/ConfigRepository.kt:38-40 | with the adapter off every device entry survives. Otherwise exactly the entries whose key is a bonded address survive, with their values |
| ConfigRepository.KeepsConfig | app/src/main/kotlin/com/ivianuu/dsp/ConfigRepository.kt:45 | a config survives exactly when its id is not a UUID or a device entry refers to it |
| ConfigRepository.CleanupSpec | app/src/main/kotlin/com/ivianuu/dsp/ConfigRepository.kt:35-48 | a config stays exactly when it was saved and is named or still referenced. Usages are trimmed to 28 days (2419200000 ms) and the other preferences are kept |
| ConfigRepository.CleanupKeepsReferenced | app/src/main/kotlin/com/ivianuu/dsp/ConfigRepository.kt:35-48 | no surviving device entry loses the config it found, and a well-keyed store stays well keyed |
| ConfigRepository.CleanupIdempotent | app/src/main/kotlin/com/ivianuu/dsp/ConfigRepository.kt:35-48 | a second cleanup with the same bonded devices at the same instant changes nothing |
| Ui.BandLabelThousands | app/src/main/kotlin/com/ivianuu/dsp/Ui.kt:236-241 | from 1000 to 9999 Hz the label is `D.Dk` with the truncated first decimal, or `Dk` for a whole number of thousands |
| Ui.BandLabelTensOfThousands | app/src/main/kotlin/com/ivianuu/dsp/Ui.kt:242-247 | from 10000 to 99999 Hz the label is `DD.Dk`, or `DDk` for a whole number of thousands |
| Ui.BandLabelExamples | app/src/main/kotlin/com/ivianuu/dsp/Ui.kt:234-241 | 31 Hz reads "31", 1000 Hz "1k", and both 1600 and 1650 Hz "1.6k" |
| Ui.BandLabelHighExamples | app/src/main/kotlin/com/ivianuu/dsp/Ui.kt:242-247 | 16000 Hz reads "16k" and 12500 Hz "12.5k" |
| Ui.ToIntOrNull | app/src/main/kotlin/com/ivianuu/dsp/Ui.kt:126 | a parsed value is a 32-bit `Int` |
| Ui.IntRoundTrip | app/src/main/kotlin/com/ivianuu/dsp/Ui.kt:123-126 | every 32-bit integer's text parses back to it |
| Ui.BlankRejected | app/src/main/kotlin/com/ivianuu/dsp/Ui.kt:126 | an entry containing a blank does not parse, because entries are not trimmed |
| Ui.JoinSplit | app/src/main/kotlin/com/ivianuu/dsp/Ui.kt:123-125 | joining the pieces of a split gives the text back |
| Ui.SplitJoin | app/src/main/kotlin/com/ivianuu/dsp/Ui.kt:123-125 | splitting a join of comma-free pieces gives the pieces back |
| Ui.ParseFrequenciesSpec | app/src/main/kotlin/com/ivianuu/dsp/Ui.kt:125-128 | the dialog is accepted exactly when 15 entries parse, and its answer is those entries' values; unparseable entries are dropped |
| Ui.FrequencyTextRoundTrip | app/src/main/kotlin/com/ivianuu/dsp/Ui.kt:122-128 | confirming the dialog's initial text unchanged on a 15-band equalizer gives its bands back |
| Ui.RekeySpec | app/src/main/kotlin/com/ivianuu/dsp/Ui.kt:130 | after re-keying the bands are exactly the given ones, each once. A kept band keeps its gain and a new band has 0 |
| Ui.UpdateBandSpec | app/src/main/kotlin/com/ivianuu/dsp/Ui.kt:150-153 | a band change sets that band's gain and no other. An existing band keeps the band order, and a new band is added at the end |
| Ui.SetDspEnabledSpec | app/src/main/kotlin/com/ivianuu/dsp/Ui.kt:86-93 | the switch always turns the DSP off, turns it on only when the permission is granted, and changes no other preference |
| Ui.SubtitleSpec | app/src/main/kotlin/com/ivianuu/dsp/Ui.kt:98-106 | a named config shows its id, and the subtitle reads "Custom" exactly for a custom config or a config named "Custom" |
| Ui.EditCurrentSpec | app/src/main/kotlin/com/ivianuu/dsp/Ui.kt:52-57 | an edit of a custom (UUID) config updates it in place under its own id, and an edit of a named config gets the fresh id. The device is mapped to that custom config holding the edited settings, no other saved config or device entry changes, and usages, the DSP switch and the last session id are kept |
| Ui.EditKeepsNamed | app/src/main/kotlin/com/ivianuu/dsp/Ui.kt:52-57 | an edit never changes a named config |
| Ui.SaveAsSpec | app/src/main/kotlin/com/ivianuu/dsp/Ui.kt:70-75 | "Save config" stores the current settings under the entered id and maps the device to it, and no other saved config changes |
| Ui.Named | app/src/main/kotlin/com/ivianuu/dsp/Ui.kt:59-61 | the list keeps exactly the configs whose id is not a UUID |
| Ui.SavedConfigsSpec | app/src/main/kotlin/com/ivianuu/dsp/Ui.kt:178-180 | the list is a permutation of the named configs, by descending usage score (-1 when absent), and by case-insensitive id among equal scores. Configs equal on both keys keep their saved order |
| Ui.RowsSpec | app/src/main/kotlin/com/ivianuu/dsp/Ui.kt:181 | `chunked(2)` rows concatenate to the list, number half the items rounded up, and hold two items each; only the last may hold one, exactly when the count is odd |
| Ui.FullSpanRow | app/src/main/kotlin/com/ivianuu/dsp/Ui.kt:184 | only the last row spans the full line, and it does so exactly when the number of configs is odd |
| Ui.SelectConfigRecords | app/src/main/kotlin/com/ivianuu/dsp/Ui.kt:189-191 | selecting maps the device to the config and records one usage of it |
| Ui.SelectConfigDeletes | app/src/main/kotlin/com/ivianuu/dsp/Ui.kt:189-193 | selecting deletes exactly the previous config when it was custom, and nothing otherwise, so a selected named config stays saved |

## Left out

- Usage scores (`mapToUsageScores`, `configUsages` as a flow of floats, ConfigRepository.kt:31-33 and 114-151) are float and interpolator arithmetic. The model takes the score per id as a parameter of `Ui.SavedConfigs`.
- `AudioSessionWorker.AudioSession.Apply` does not model the bass boost strength, the band levels or the target gain (AudioSessionWorker.kt:221-241). Those are float interpolations into platform effect calls. Only the enable and resync part is modelled.
- `Float.floatToRawIntBits` is a parameter of the model (`floatBits`), and `ByteOrder.nativeOrder()` is a parameter (`order`). Float arrays are sequences of reals.
- Reflection (`getConstructor`, `getMethod`, `invoke`) and the exceptions it can throw are not modelled. A construction that throws is a failed outcome in a script of outcomes, held by a factory object.
- The reference-counted A2DP proxy (`RefCountedResource`) is not modelled. Its answer, the active device address, is a parameter.
- Flows, coroutines, `parForEach`, `delay(1000)`, `distinctUntilChanged`, Compose lifecycles, logging and notifications are not modelled. Each flow is modelled by the value it emits for given inputs. Compose's keyed effects are modelled by comparing keys with those of the previous composition.
- `randomId()` is the parameter `freshId` of `Ui.EditCurrent`, and `clock.now()` is the parameter `now`. Durations are whole milliseconds.
- `DspConfig.Default`, `EqBands` and `DefaultEqBands` are parameters. The files that define them are not part of this model.
- The config DspFeature.kt applies (lines 128-134) is a parameter of `DspFeature.AudioSession.Apply`. The lookup that produces it (`config(it.id)` keyed by the device id) is not part of this model.
- `Ui.ToIntOrNull` and `Ui.Lower` handle ASCII digits and letters only. Kotlin's Unicode digits and case mapping are not modelled.
- `ConfigRepository.ConfigUsed` is the update one `configUsed` launch makes. The ordering of concurrent launches is not modelled.
- `Ui.BandLabel` below 1000 Hz is stated only by example (`Ui.BandLabelExamples`), since that label is `toString` itself.
- The permission request behind the DSP switch is not modelled. Its answer is the parameter `granted` of `Ui.SetDspEnabled`.
- The iteration order of the persisted set of known session ids is not fixed by the model. `AudioSessionWorker.SessionRegistry.Replay` replays the ids in an unspecified order and names that order in a ghost result.
- HeadsetService.kt, HomeUi.kt and the backup screen are outside the modelled core.

## Findings

| source | as written | input that shows it | evidently intended | confidence | as-written member | corrected member |
|---|---|---|---|---|---|---|
| app/src/main/kotlin/com/ivianuu/dsp/ConfigRepository.kt:75-90 | `config(id)` drops a missing config with `mapNotNull`, so the `?: DspConfig.Default.also { updateDeviceConfig(...) }` fallback can never run. A device mapped to a deleted config gets no config at all and is never re-mapped | `configsByDevice = {"audio_device_phone" -> "gone"}` and no saved configs | a device whose config is missing falls back to the default config and is re-mapped to the default id | not executed | ConfigRepository.DeviceConfigAsWritten, ConfigRepository.DeviceConfigAsWrittenDangling | ConfigRepository.DeviceConfig, ConfigRepository.DeviceConfigSpec |
