/**
 * DspFeature.kt: the session-id bookkeeping of `audioSessionFeature`, its retry of the
 * effect construction, and the `AudioSession` that writes a `DspConfig` to the custom
 * effect as raw parameter writes.
 *
 * `Apply` is a Compose function whose `LaunchedEffect`s run when their keys change. It is
 * modelled as one call per composition. The session remembers the keys of the last call
 * (`Applied`), and the call makes each write whose key differs from them, in the order of
 * the source.
 */
module DspFeature {
  import opened Wrappers
  import opened DspCodec
  import opened LinkedMaps
  import opened Sorting
  import opened DspModel
  import opened AudioEffects

  // ---------------------------------------------------------------------------------
  // Parameter payloads

  const EqSwitchParam: Int32 := 1202
  const EqLevelsParam: Int32 := 116
  const BassBoostSwitchParam: Int32 := 1201
  const BassBoostGainParam: Int32 := 112
  const PostGainParam: Int32 := 1500

  /** The bands of an entry list as floats, in list order. */
  function BandValues(kvs: Entries<int, int>): (r: seq<real>)
    ensures |r| == |kvs| && forall i :: 0 <= i < |kvs| ==> r[i] == kvs[i].0 as real
  {
    seq(|kvs|, i requires 0 <= i < |kvs| => kvs[i].0 as real)
  }

  /** The gains of an entry list as floats, in list order. */
  function GainValues(kvs: Entries<int, int>): (r: seq<real>)
    ensures |r| == |kvs| && forall i :: 0 <= i < |kvs| ==> r[i] == kvs[i].1 as real
  {
    seq(|kvs|, i requires 0 <= i < |kvs| => kvs[i].1 as real)
  }

  /** The float array written to parameter 116: two -1 markers, then the bands in
      ascending order, then their gains in the same order. */
  function EqPayload(eqDb: Entries<int, int>): (r: seq<real>)
    ensures |r| == 2 + 2 * |eqDb|
    ensures r[0] == -1.0 && r[1] == -1.0
  {
    var sorted := SortedByBand(eqDb);
    [-1.0, -1.0] + BandValues(sorted) + GainValues(sorted)
  }

  /** For an equalizer map of N bands, the payload holds N bands after the markers and
      N gains after them, and the bands are strictly ascending. */
  lemma EqPayloadBandsAscending(eqDb: Entries<int, int>)
    requires DistinctKeys(eqDb)
    ensures var r, n := EqPayload(eqDb), |eqDb|;
      var bands, gains := r[2..2 + n], r[2 + n..];
      |bands| == n && |gains| == n &&
      forall i, j :: 0 <= i < j < n ==> bands[i] < bands[j]
  {
    EqPayloadParts(eqDb);
    SortedByBandStrict(eqDb);
  }

  /** Every entry of the equalizer map appears in the payload as a band and, at the
      same offset among the gains, its gain. */
  lemma EqPayloadCoversMap(eqDb: Entries<int, int>)
    ensures var r, n := EqPayload(eqDb), |eqDb|;
      var bands, gains := r[2..2 + n], r[2 + n..];
      forall i :: 0 <= i < n ==>
        exists j :: 0 <= j < n && bands[j] == eqDb[i].0 as real && gains[j] == eqDb[i].1 as real
  {
    var n := |eqDb|;
    var s := SortedByBand(eqDb);
    var bands, gains := BandValues(s), GainValues(s);
    EqPayloadParts(eqDb);
    forall i | 0 <= i < n
      ensures exists j :: 0 <= j < n && bands[j] == eqDb[i].0 as real && gains[j] == eqDb[i].1 as real
    {
      var j := IndexIn(eqDb, s, i);
      assert bands[j] == eqDb[i].0 as real && gains[j] == eqDb[i].1 as real;
    }
  }

  /** Every band of the payload, with the gain at the same offset, is an entry of the
      equalizer map. */
  lemma EqPayloadFromMap(eqDb: Entries<int, int>)
    ensures var r, n := EqPayload(eqDb), |eqDb|;
      var bands, gains := r[2..2 + n], r[2 + n..];
      forall j :: 0 <= j < n ==>
        exists i :: 0 <= i < n && bands[j] == eqDb[i].0 as real && gains[j] == eqDb[i].1 as real
  {
    var n := |eqDb|;
    var s := SortedByBand(eqDb);
    var bands, gains := BandValues(s), GainValues(s);
    EqPayloadParts(eqDb);
    forall j | 0 <= j < n
      ensures exists i :: 0 <= i < n && bands[j] == eqDb[i].0 as real && gains[j] == eqDb[i].1 as real
    {
      var i := IndexIn(s, eqDb, j);
      assert bands[j] == eqDb[i].0 as real && gains[j] == eqDb[i].1 as real;
    }
  }

  /** Where an element of a list sits in a rearrangement of it. */
  lemma IndexIn(a: Entries<int, int>, b: Entries<int, int>, i: int) returns (j: int)
    requires multiset(a) == multiset(b) && 0 <= i < |a|
    ensures 0 <= j < |b| && b[j] == a[i]
  {
    assert a[i] in multiset(b);
    j :| 0 <= j < |b| && b[j] == a[i];
  }

  /** The payload is the markers, the bands and the gains of the sorted entries. */
  lemma EqPayloadParts(eqDb: Entries<int, int>)
    ensures var r, n, s := EqPayload(eqDb), |eqDb|, SortedByBand(eqDb);
      r[2..2 + n] == BandValues(s) && r[2 + n..] == GainValues(s)
  {
    var s := SortedByBand(eqDb);
    var r := [-1.0, -1.0] + BandValues(s) + GainValues(s);
    assert r == EqPayload(eqDb);
    assert r[2..2 + |eqDb|] == BandValues(s);
    assert r[2 + |eqDb|..] == GainValues(s);
  }

  /** One thing `Apply` does to the effect. */
  datatype EffectCall =
    | SetEnabled(on: bool)
    | SetShort(param: Int32, value: Int16)
    | SetFloats(param: Int32, values: seq<real>)

  /** The keys of `Apply`'s effects: the `enabled` flag, the equalizer as a map (Kotlin
      compares maps by content, whatever their order), the bass boost gain (whose sign
      is the switch's key) and the post gain. */
  datatype Applied = Applied(enabled: bool, eq: map<int, int>, bassBoostDb: int, postGainDb: int)

  function EffectKeys(enabled: bool, config: DspConfig): (keys: Applied)
    ensures keys.eq.Keys == Keys(config.eqDb)
  {
    Applied(enabled, ToMap(config.eqDb), config.bassBoostDb, config.postGainDb)
  }

  /** Every write `Apply` can make, in the order of its effects: the `enabled` flag, the
      equalizer switch, the equalizer levels, the bass boost switch and gain, and the post
      gain. */
  function Writes(keys: Applied, eqLevels: seq<real>): (w: seq<EffectCall>)
    ensures |w| == 6
  {
    [SetEnabled(keys.enabled),
     SetShort(EqSwitchParam, 1),
     SetFloats(EqLevelsParam, eqLevels),
     SetShort(BassBoostSwitchParam, if keys.bassBoostDb > 0 then 1 else 0),
     SetShort(BassBoostGainParam, ToShort(keys.bassBoostDb)),
     SetFloats(PostGainParam, [-0.1, 60.0, keys.postGainDb as real])]
  }

  /** Which effects rerun: all on the first composition; later, those whose key changed
      (the equalizer switch's key never does). */
  function Rerun(last: Option<Applied>, keys: Applied): (m: seq<bool>)
    ensures |m| == 6
  {
    match last
    case None => [true, true, true, true, true, true]
    case Some(a) =>
      [a.enabled != keys.enabled,
       false,
       a.eq != keys.eq,
       (a.bassBoostDb > 0) != (keys.bassBoostDb > 0),
       a.bassBoostDb != keys.bassBoostDb,
       a.postGainDb != keys.postGainDb]
  }

  /** The first `n` writes the mask selects, in order. */
  function Selected(all: seq<EffectCall>, mask: seq<bool>, n: nat): (r: seq<EffectCall>)
    requires n <= |all| && n <= |mask|
    decreases n
  {
    if n == 0 then []
    else Selected(all, mask, n - 1) + (if mask[n - 1] then [all[n - 1]] else [])
  }

  /** A write is selected exactly when its slot is among the first `n` and is on. */
  lemma {:induction false} SelectedMembers(all: seq<EffectCall>, mask: seq<bool>, n: nat)
    requires n <= |all| && n <= |mask|
    ensures forall c :: c in Selected(all, mask, n) <==> exists k :: 0 <= k < n && mask[k] && all[k] == c
  {
    if n > 0 {
      SelectedMembers(all, mask, n - 1);
    }
  }

  /** The writes of one composition with keys `keys`, given the keys of the previous one
      and the equalizer payload. */
  function Composition(last: Option<Applied>, keys: Applied, eqLevels: seq<real>): (calls: seq<EffectCall>)
  {
    var all := Writes(keys, eqLevels);
    Selected(all, Rerun(last, keys), |all|)
  }

  /** The calls `Apply(enabled, config)` makes, given the keys of the previous call. */
  function ApplyCalls(last: Option<Applied>, enabled: bool, config: DspConfig): (calls: seq<EffectCall>)
  {
    Composition(last, EffectKeys(enabled, config), EqPayload(config.eqDb))
  }

  /** Whatever composition it is, each write carries its fixed rule: `enabled` is the
      flag, the equalizer switch is 1, the bass boost switch is 1 exactly when the gain is
      positive and 0 otherwise, the gain is the config's gain as a short (itself when it
      fits), the post gain is a triple ending in the config's post gain, and the
      equalizer levels are the payload. */
  lemma CompositionWriteRules(last: Option<Applied>, keys: Applied, eqLevels: seq<real>)
    ensures forall c :: c in Composition(last, keys, eqLevels) ==>
      (c.SetEnabled? ==> c.on == keys.enabled) &&
      (c.SetShort? && c.param == EqSwitchParam ==> c.value == 1) &&
      (c.SetShort? && c.param == BassBoostSwitchParam ==>
        (c.value == 1 <==> keys.bassBoostDb > 0) && (c.value == 0 <==> keys.bassBoostDb <= 0)) &&
      (c.SetShort? && c.param == BassBoostGainParam ==>
        c.value == ToShort(keys.bassBoostDb) &&
        (-0x8000 <= keys.bassBoostDb < 0x8000 ==> c.value == keys.bassBoostDb)) &&
      (c.SetFloats? && c.param == PostGainParam ==>
        |c.values| == 3 && c.values[2] == keys.postGainDb as real) &&
      (c.SetFloats? && c.param == EqLevelsParam ==> c.values == eqLevels)
  {
    var all := Writes(keys, eqLevels);
    SelectedMembers(all, Rerun(last, keys), |all|);
  }

  /** The first composition sets the `enabled` flag, turns the equalizer on and writes
      every parameter, in the order of the source. */
  lemma FirstCompositionWritesAll(keys: Applied, eqLevels: seq<real>)
    ensures Composition(None, keys, eqLevels) == Writes(keys, eqLevels)
  {
    var all := Writes(keys, eqLevels);
    var m := Rerun(None, keys);
    assert Selected(all, m, 0) == all[..0];
    assert Selected(all, m, 1) == all[..1];
    assert Selected(all, m, 2) == all[..2];
    assert Selected(all, m, 3) == all[..3];
    assert Selected(all, m, 4) == all[..4];
    assert Selected(all, m, 5) == all[..5];
    assert Selected(all, m, 6) == all[..6];
  }

  /** A composition with the same keys as the last one writes nothing. */
  lemma CompositionUnchangedWritesNothing(keys: Applied, eqLevels: seq<real>)
    ensures Composition(Some(keys), keys, eqLevels) == []
  {
    var all := Writes(keys, eqLevels);
    var m := Rerun(Some(keys), keys);
    assert Selected(all, m, 6) == [];
  }

  /** A write whose slot no other slot shares is selected exactly when its bit is on. */
  lemma SelectedSlot(all: seq<EffectCall>, mask: seq<bool>, k: nat)
    requires |all| == |mask| && k < |all|
    requires forall j :: 0 <= j < |all| && j != k ==> all[j] != all[k]
    ensures all[k] in Selected(all, mask, |all|) <==> mask[k]
  {
    SelectedMembers(all, mask, |all|);
  }

  /** The six writes are pairwise different: each has its own kind or parameter. */
  lemma WritesDistinct(keys: Applied, eqLevels: seq<real>)
    ensures var all := Writes(keys, eqLevels);
      forall j, k :: 0 <= j < |all| && 0 <= k < |all| && j != k ==> all[j] != all[k]
  {
    var all := Writes(keys, eqLevels);
    assert all[0].SetEnabled? && all[1].SetShort? && all[2].SetFloats?;
    assert all[3].SetShort? && all[4].SetShort? && all[5].SetFloats?;
    assert all[1].param == 1202 && all[3].param == 1201 && all[4].param == 112;
    assert all[2].param == 116 && all[5].param == 1500;
  }

  /** Later compositions write the equalizer levels exactly when the equalizer map changed,
      the bass boost switch exactly when the sign of the gain changed, and the gain
      exactly when it changed. */
  lemma CompositionRerunsOnChange(last: Applied, keys: Applied, eqLevels: seq<real>)
    ensures var calls, all := Composition(Some(last), keys, eqLevels), Writes(keys, eqLevels);
      (all[0] in calls <==> last.enabled != keys.enabled) &&
      (all[2] in calls <==> last.eq != keys.eq) &&
      (all[3] in calls <==> (last.bassBoostDb > 0) != (keys.bassBoostDb > 0)) &&
      (all[4] in calls <==> last.bassBoostDb != keys.bassBoostDb) &&
      (all[5] in calls <==> last.postGainDb != keys.postGainDb)
  {
    var all, mask := Writes(keys, eqLevels), Rerun(Some(last), keys);
    WritesDistinct(keys, eqLevels);
    SelectedSlot(all, mask, 0);
    SelectedSlot(all, mask, 2);
    SelectedSlot(all, mask, 3);
    SelectedSlot(all, mask, 4);
    SelectedSlot(all, mask, 5);
  }

  /** Later compositions never write the equalizer switch again. */
  lemma CompositionEqSwitchOnce(last: Applied, keys: Applied, eqLevels: seq<real>)
    ensures forall c :: c in Composition(Some(last), keys, eqLevels) ==>
      !(c.SetShort? && c.param == EqSwitchParam)
  {
    var all := Writes(keys, eqLevels);
    SelectedMembers(all, Rerun(Some(last), keys), |all|);
  }

  /** Reordering the equalizer entries, with the other settings unchanged, makes a
      composition that writes nothing: the effect is keyed on the map, not the list. */
  lemma ApplyReorderedWritesNothing(enabled: bool, config: DspConfig, eqDb: Entries<int, int>)
    requires ToMap(eqDb) == ToMap(config.eqDb)
    ensures ApplyCalls(Some(EffectKeys(enabled, config)), enabled, config.(eqDb := eqDb)) == []
  {
    assert EffectKeys(enabled, config.(eqDb := eqDb)) == EffectKeys(enabled, config);
    CompositionUnchangedWritesNothing(EffectKeys(enabled, config), EqPayload(eqDb));
  }

  // ---------------------------------------------------------------------------------
  // Raw parameter writes

  /** The words of a float array, through the platform's `Float.floatToRawIntBits`. */
  function FloatWords(values: seq<real>, floatBits: real -> Int32): (words: seq<Int32>)
    ensures |words| == |values| && forall i :: 0 <= i < |values| ==> words[i] == floatBits(values[i])
  {
    seq(|values|, i requires 0 <= i < |values| => floatBits(values[i]))
  }

  /** The `setParameter` call a write makes: `setParameterShort` and
      `setParameterFloatArray` put the parameter id in 4 bytes and the value after it. */
  function RawWrite(call: EffectCall, floatBits: real -> Int32, order: ByteOrder): (w: seq<(seq<Int8>, seq<Int8>)>)
  {
    match call
    case SetEnabled(_) => []
    case SetShort(p, v) => [(EncodeParameterId(p), EncodeShort(v))]
    case SetFloats(p, vs) => [(EncodeParameterId(p), FloatArrayBytes(FloatWords(vs, floatBits), order))]
  }

  /** The `setParameter` calls of a sequence of writes, in order. */
  function RawWrites(calls: seq<EffectCall>, floatBits: real -> Int32, order: ByteOrder): (ws: seq<(seq<Int8>, seq<Int8>)>)
    decreases |calls|
  {
    if calls == [] then [] else
      RawWrites(calls[..|calls| - 1], floatBits, order) + RawWrite(calls[|calls| - 1], floatBits, order)
  }

  /** The `enabled` assignments of a sequence of writes, in order. */
  function EnabledWrites(calls: seq<EffectCall>): (ws: seq<bool>)
    decreases |calls|
  {
    if calls == [] then [] else
      var last := calls[|calls| - 1];
      EnabledWrites(calls[..|calls| - 1]) + (if last.SetEnabled? then [last.on] else [])
  }

  lemma WritesSnoc(calls: seq<EffectCall>, c: EffectCall, floatBits: real -> Int32, order: ByteOrder)
    ensures RawWrites(calls + [c], floatBits, order) == RawWrites(calls, floatBits, order) + RawWrite(c, floatBits, order)
    ensures EnabledWrites(calls + [c]) == EnabledWrites(calls) + (if c.SetEnabled? then [c.on] else [])
  {
    assert (calls + [c])[..|calls|] == calls;
  }

  /** Selecting one more slot adds its parameter writes at the end. */
  lemma SelectedStepRaw(all: seq<EffectCall>, mask: seq<bool>, k: nat, floatBits: real -> Int32, order: ByteOrder,
                        params: seq<(seq<Int8>, seq<Int8>)>)
    requires k < |all| && k < |mask|
    ensures params + RawWrites(Selected(all, mask, k), floatBits, order) +
      (if mask[k] then RawWrite(all[k], floatBits, order) else []) ==
      params + RawWrites(Selected(all, mask, k + 1), floatBits, order)
  {
    var before := Selected(all, mask, k);
    if mask[k] {
      assert Selected(all, mask, k + 1) == before + [all[k]];
      WritesSnoc(before, all[k], floatBits, order);
    } else {
      assert Selected(all, mask, k + 1) == before + [];
      assert before + [] == before;
    }
  }

  /** Selecting one more slot adds its `enabled` assignment, if any, at the end. */
  lemma SelectedStepEnabled(all: seq<EffectCall>, mask: seq<bool>, k: nat, enables: seq<bool>)
    requires k < |all| && k < |mask|
    ensures enables + EnabledWrites(Selected(all, mask, k)) +
      (if mask[k] && all[k].SetEnabled? then [all[k].on] else []) ==
      enables + EnabledWrites(Selected(all, mask, k + 1))
  {
    var before := Selected(all, mask, k);
    if mask[k] {
      assert Selected(all, mask, k + 1) == before + [all[k]];
      assert (before + [all[k]])[..|before|] == before;
    } else {
      assert Selected(all, mask, k + 1) == before + [];
      assert before + [] == before;
    }
  }

  /** The raw write of a parameter decodes back to it: the id from its 4 bytes, a short
      from its 2 bytes, and the float words from a buffer of 4 bytes per value. */
  lemma RawWriteRoundTrip(call: EffectCall, floatBits: real -> Int32, order: ByteOrder)
    requires !call.SetEnabled?
    ensures var w := RawWrite(call, floatBits, order);
      |w| == 1 && |w[0].0| == 4 && DecodeInt32(w[0].0) == call.param &&
      (call.SetShort? ==> |w[0].1| == 2 && DecodeShort(w[0].1) == call.value) &&
      (call.SetFloats? ==>
        |w[0].1| == 4 * |call.values| &&
        DecodeFloatArray(w[0].1, order) == FloatWords(call.values, floatBits))
  {
    ParameterIdRoundTrip(call.param);
    ParameterIdLanes(call.param);
    match call
    case SetShort(_, v) => ShortRoundTrip(v);
    case SetFloats(_, vs) =>
      FloatArrayLayout(FloatWords(vs, floatBits), order);
      FloatArrayRoundTrip(FloatWords(vs, floatBits), order);
  }

  /** `AudioSession` of DspFeature.kt: the custom effect of one audio session. */
  class AudioSession {
    const sessionId: int
    const jamesDSP: AudioEffect
    /** `Float.floatToRawIntBits`, and the platform's native byte order. */
    const floatBits: real -> Int32
    const order: ByteOrder
    var applied: Option<Applied>

    constructor (sessionId: int, jamesDSP: AudioEffect, floatBits: real -> Int32, order: ByteOrder)
      ensures this.sessionId == sessionId && this.jamesDSP == jamesDSP
      ensures this.floatBits == floatBits && this.order == order && applied.None?
    {
      this.sessionId := sessionId;
      this.jamesDSP := jamesDSP;
      this.floatBits := floatBits;
      this.order := order;
      applied := None;
    }

    /** `setParameterShort`. */
    method SetParameterShort(parameter: Int32, value: Int16)
      modifies jamesDSP
      ensures jamesDSP.parameterWrites ==
        old(jamesDSP.parameterWrites) + RawWrite(SetShort(parameter, value), floatBits, order)
      ensures jamesDSP.enabledWrites == old(jamesDSP.enabledWrites)
      ensures jamesDSP.enabled == old(jamesDSP.enabled) && jamesDSP.released == old(jamesDSP.released)
    {
      var arguments := EncodeParameterId(parameter);
      var result := EncodeShort(value);
      jamesDSP.SetParameter(arguments, result);
    }

    /** `setParameterFloatArray`: fills a buffer of 4 bytes per value in native order. */
    method SetParameterFloatArray(parameter: Int32, value: seq<real>)
      modifies jamesDSP
      ensures jamesDSP.parameterWrites ==
        old(jamesDSP.parameterWrites) + RawWrite(SetFloats(parameter, value), floatBits, order)
      ensures jamesDSP.enabledWrites == old(jamesDSP.enabledWrites)
      ensures jamesDSP.enabled == old(jamesDSP.enabled) && jamesDSP.released == old(jamesDSP.released)
    {
      var arguments := EncodeParameterId(parameter);
      var result := FillFloatBuffer(FloatWords(value, floatBits), order);
      jamesDSP.SetParameter(arguments, result);
    }

    /** Makes one write: `enabled = on`, `setParameterShort` or `setParameterFloatArray`. */
    method Perform(call: EffectCall)
      modifies jamesDSP
      ensures jamesDSP.parameterWrites == old(jamesDSP.parameterWrites) + RawWrite(call, floatBits, order)
      ensures jamesDSP.enabledWrites ==
        old(jamesDSP.enabledWrites) + (if call.SetEnabled? then [call.on] else [])
      ensures jamesDSP.released == old(jamesDSP.released)
    {
      match call
      case SetEnabled(on) => jamesDSP.SetEnabled(on);
      case SetShort(p, v) => SetParameterShort(p, v);
      case SetFloats(p, vs) => SetParameterFloatArray(p, vs);
    }

    /** Runs slot `k` of `all` when `rerun` says its key changed. */
    method RunSlot(all: seq<EffectCall>, rerun: seq<bool>, k: nat)
      requires k < |all| && k < |rerun|
      modifies jamesDSP
      ensures jamesDSP.parameterWrites == old(jamesDSP.parameterWrites) +
        (if rerun[k] then RawWrite(all[k], floatBits, order) else [])
      ensures jamesDSP.enabledWrites == old(jamesDSP.enabledWrites) +
        (if rerun[k] && all[k].SetEnabled? then [all[k].on] else [])
      ensures jamesDSP.released == old(jamesDSP.released)
    {
      if rerun[k] {
        Perform(all[k]);
      }
    }

    /** The `LaunchedEffect`s of one composition, one per slot, in order. */
    method RunSlots(all: seq<EffectCall>, rerun: seq<bool>)
      requires |all| == |rerun|
      modifies jamesDSP
      ensures jamesDSP.parameterWrites == old(jamesDSP.parameterWrites) +
        RawWrites(Selected(all, rerun, |all|), floatBits, order)
      ensures jamesDSP.enabledWrites == old(jamesDSP.enabledWrites) +
        EnabledWrites(Selected(all, rerun, |all|))
      ensures jamesDSP.released == old(jamesDSP.released)
    {
      ghost var params, enables, released := jamesDSP.parameterWrites, jamesDSP.enabledWrites, jamesDSP.released;
      var k := 0;
      while k < |all|
        invariant 0 <= k <= |all|
        invariant jamesDSP.parameterWrites == params + RawWrites(Selected(all, rerun, k), floatBits, order)
        invariant jamesDSP.enabledWrites == enables + EnabledWrites(Selected(all, rerun, k))
        invariant jamesDSP.released == released
      {
        SelectedStepRaw(all, rerun, k, floatBits, order, params);
        SelectedStepEnabled(all, rerun, k, enables);
        RunSlot(all, rerun, k);
        k := k + 1;
      }
    }

    /** One composition of `Apply(enabled, config)`: the effect receives exactly the
        writes `ApplyCalls` lists, as raw parameter writes and `enabled` assignments. */
    method Apply(enabled: bool, config: DspConfig)
      modifies this, jamesDSP
      ensures applied == Some(EffectKeys(enabled, config))
      ensures jamesDSP.parameterWrites == old(jamesDSP.parameterWrites) +
        RawWrites(ApplyCalls(old(applied), enabled, config), floatBits, order)
      ensures jamesDSP.enabledWrites == old(jamesDSP.enabledWrites) +
        EnabledWrites(ApplyCalls(old(applied), enabled, config))
      ensures jamesDSP.released == old(jamesDSP.released)
    {
      var keys := EffectKeys(enabled, config);
      var all := Writes(keys, EqPayload(config.eqDb));
      var rerun := Rerun(applied, keys);
      RunSlots(all, rerun);
      applied := Some(keys);
    }

    /** `release()`. */
    method Release()
      modifies jamesDSP
      ensures jamesDSP.released
      ensures jamesDSP.parameterWrites == old(jamesDSP.parameterWrites)
      ensures jamesDSP.enabledWrites == old(jamesDSP.enabledWrites)
    {
      jamesDSP.Release();
    }
  }

  // ---------------------------------------------------------------------------------
  // Session-id bookkeeping

  /** The action of a broadcast the feature receives. */
  datatype Action = OpenSession | CloseSession | OtherAction(name: string)

  /** A broadcast: its action and its `EXTRA_AUDIO_SESSION` extra, if any. */
  datatype Broadcast = Broadcast(action: Action, sessionExtra: Option<int>)

  /** `getIntExtra(EXTRA_AUDIO_SESSION, -1)`. */
  function SessionEvent(b: Broadcast): (e: (Action, int))
    ensures e.0 == b.action
    ensures b.sessionExtra.None? ==> e.1 == -1
    ensures b.sessionExtra.Some? ==> e.1 == b.sessionExtra.value
  {
    (b.action, b.sessionExtra.GetOr(-1))
  }

  /** `list - x`: drops the first occurrence of `x`, if any. */
  function RemoveFirst(s: seq<int>, x: int): (r: seq<int>)
    ensures multiset(r) == multiset(s) - multiset{x}
    ensures x !in s ==> r == s
    ensures x in s ==> |r| == |s| - 1
  {
    if s == [] then []
    else if s[0] == x then
      assert s == [s[0]] + s[1..];
      s[1..]
    else
      assert s == [s[0]] + s[1..];
      [s[0]] + RemoveFirst(s[1..], x)
  }

  /** One event of the fold: open appends, close drops one occurrence, others keep. */
  function Step(ids: seq<int>, e: (Action, int)): (r: seq<int>)
  {
    match e.0
    case OpenSession => ids + [e.1]
    case CloseSession => RemoveFirst(ids, e.1)
    case OtherAction(_) => ids
  }

  /** The session list after a sequence of events, the last one applied last. */
  function Fold(ids: seq<int>, events: seq<(Action, int)>): (r: seq<int>)
    decreases |events|
  {
    if events == [] then ids else Step(Fold(ids, events[..|events| - 1]), events[|events| - 1])
  }

  /** The events of a sequence of broadcasts. */
  function BroadcastEvents(broadcasts: seq<Broadcast>): (es: seq<(Action, int)>)
    ensures |es| == |broadcasts|
    ensures forall i :: 0 <= i < |broadcasts| ==> es[i] == SessionEvent(broadcasts[i])
  {
    seq(|broadcasts|, i requires 0 <= i < |broadcasts| => SessionEvent(broadcasts[i]))
  }

  /** The events the collector sees: the persisted last session id as an open event
      (`onStart`), then the broadcasts. */
  function SeededEvents(lastAudioSessionId: Option<int>, broadcasts: seq<Broadcast>): (es: seq<(Action, int)>)
  {
    (if lastAudioSessionId.Some? then [(OpenSession, lastAudioSessionId.value)] else []) +
    BroadcastEvents(broadcasts)
  }

  /** With a persisted seed, the list starts as if that session had just opened;
      without one, from the broadcasts alone. */
  lemma SeedFirst(ids: seq<int>, lastAudioSessionId: Option<int>, broadcasts: seq<Broadcast>)
    ensures lastAudioSessionId.Some? ==>
      Fold(ids, SeededEvents(lastAudioSessionId, broadcasts)) ==
      Fold(ids + [lastAudioSessionId.value], BroadcastEvents(broadcasts))
    ensures lastAudioSessionId.None? ==>
      Fold(ids, SeededEvents(lastAudioSessionId, broadcasts)) == Fold(ids, BroadcastEvents(broadcasts))
  {
    if lastAudioSessionId.Some? {
      var open := (OpenSession, lastAudioSessionId.value);
      FoldAppend(ids, [open], BroadcastEvents(broadcasts));
      assert [open][..0] == [];
    } else {
      assert SeededEvents(lastAudioSessionId, broadcasts) == BroadcastEvents(broadcasts);
    }
  }

  /** What one event does to the multiset of live ids. */
  lemma StepMultiset(ids: seq<int>, e: (Action, int))
    ensures e.0.OpenSession? ==> multiset(Step(ids, e)) == multiset(ids) + multiset{e.1}
    ensures e.0.CloseSession? ==> multiset(Step(ids, e)) == multiset(ids) - multiset{e.1}
    ensures e.0.OtherAction? ==> Step(ids, e) == ids
    ensures e.0.CloseSession? && e.1 !in ids ==> Step(ids, e) == ids
  {
  }

  /** Folding a concatenation folds the second part over the first. */
  lemma {:induction false} FoldAppend(ids: seq<int>, a: seq<(Action, int)>, b: seq<(Action, int)>)
    ensures Fold(ids, a + b) == Fold(Fold(ids, a), b)
    decreases |b|
  {
    if b != [] {
      var init, last := b[..|b| - 1], b[|b| - 1];
      FoldAppend(ids, a, init);
      assert (a + b)[..|a + b| - 1] == a + init;
      assert (a + b)[|a + b| - 1] == last;
      calc {
        Fold(ids, a + b);
        Step(Fold(ids, a + init), last);
        Step(Fold(Fold(ids, a), init), last);
        Fold(Fold(ids, a), b);
      }
    } else {
      assert a + b == a;
    }
  }

  /** Folding one more event of a list applies it last. */
  lemma FoldPrefix(ids: seq<int>, events: seq<(Action, int)>, i: nat)
    requires i < |events|
    ensures Fold(ids, events[..i + 1]) == Step(Fold(ids, events[..i]), events[i])
  {
    assert events[..i + 1][..i] == events[..i];
  }

  /** Opening a session and closing it again leaves the same live ids, counted with
      multiplicity. */
  lemma OpenThenClose(ids: seq<int>, x: int)
    ensures multiset(Fold(ids, [(OpenSession, x), (CloseSession, x)])) == multiset(ids)
  {
    var open, close := (OpenSession, x), (CloseSession, x);
    assert [open, close][..1] == [open];
    assert [open][..0] == [];
    assert Fold(ids, [open]) == ids + [x];
    assert Fold(ids, [open, close]) == RemoveFirst(ids + [x], x);
  }

  /** `audioSessionFeature`'s state: the live session ids and the persisted preferences. */
  class AudioSessionFeature {
    var audioSessionIds: seq<int>
    var prefs: DspPrefs

    constructor (prefs: DspPrefs)
      ensures audioSessionIds == [] && this.prefs == prefs
    {
      audioSessionIds := [];
      this.prefs := prefs;
    }

    /** The `collect` handler for one event (lines 89-95). */
    method OnEvent(e: (Action, int))
      modifies this
      ensures audioSessionIds == Step(old(audioSessionIds), e)
      ensures prefs == old(prefs)
    {
      match e.0
      case OpenSession => audioSessionIds := audioSessionIds + [e.1];
      case CloseSession => audioSessionIds := RemoveFirst(audioSessionIds, e.1);
      case OtherAction(_) =>
    }

    /** The broadcast collector: the persisted seed first, then every broadcast. */
    method Collect(broadcasts: seq<Broadcast>)
      modifies this
      ensures audioSessionIds ==
        Fold(old(audioSessionIds), SeededEvents(old(prefs).lastAudioSessionId, broadcasts))
      ensures prefs == old(prefs)
    {
      var events := SeededEvents(prefs.lastAudioSessionId, broadcasts);
      ghost var start := audioSessionIds;
      var i := 0;
      while i < |events|
        invariant 0 <= i <= |events|
        invariant audioSessionIds == Fold(start, events[..i])
        invariant prefs == old(prefs)
      {
        OnEvent(events[i]);
        FoldPrefix(start, events, i);
        i := i + 1;
      }
      assert events[..|events|] == events;
    }

    /** The `remember` block of a session id: up to five construction attempts, stopping
        at the first success. A session that never constructs is dropped from the list;
        one that does becomes the persisted recovery seed. */
    method CreateSession(sessionId: int, factory: EffectFactory, floatBits: real -> Int32, order: ByteOrder)
      returns (session: AudioSession?)
      modifies this, factory
      ensures (session != null) == RetrySucceeds(old(factory.outcomes), 5)
      ensures factory.outcomes == Drop(old(factory.outcomes), RetryAttempts(old(factory.outcomes), 5))
      ensures session == null ==>
        audioSessionIds == RemoveFirst(old(audioSessionIds), sessionId) && prefs == old(prefs)
      ensures session != null ==>
        fresh(session) && fresh(session.jamesDSP) && session.sessionId == sessionId &&
        session.applied.None? && audioSessionIds == old(audioSessionIds) &&
        prefs == old(prefs).(lastAudioSessionId := Some(sessionId))
    {
      var effect := CreateUpTo(factory, 5);
      if effect == null {
        audioSessionIds := RemoveFirst(audioSessionIds, sessionId);
        session := null;
      } else {
        session := new AudioSession(sessionId, effect, floatBits, order);
        prefs := prefs.(lastAudioSessionId := Some(sessionId));
      }
    }
  }
}
