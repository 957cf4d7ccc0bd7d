/**
 * AudioSessionWorker.kt: the normalisation of the equalizer band schema (`fix`), the
 * `AudioSession` over the platform's BassBoost, Equalizer and LoudnessEnhancer effects
 * with its resync step, and the registry `audioSessions()` keeps from START and STOP
 * events, with the persisted set of known session ids.
 *
 * `Config` and the band list `EqBands` are declared outside the files of this model: the
 * config is the record `fix` copies, and the band list is a parameter.
 */
module AudioSessionWorker {
  import opened Wrappers
  import opened LinkedMaps
  import opened AudioEffects

  // ---------------------------------------------------------------------------------
  // The band schema

  /** A config as the worker reads it: equalizer levels keyed by band, the bass boost
      and the post gain, all as fractions. */
  datatype Config = Config(eq: Entries<int, real>, bassBoost: real, postGain: real)

  /** The part of the preferences the worker rewrites on start. */
  datatype WorkerPrefs = WorkerPrefs(currentConfig: Config, configs: Entries<string, Config>)

  /** `eq[band] ?: 0.5f`. */
  function FixedLevel(eq: Entries<int, real>): int -> real {
    band => Get(eq, band).GetOr(0.5)
  }

  /** `Config.fix()`: the equalizer gets exactly the bands of `bands`, in their order,
      each with its old level, or 0.5 where it had none. */
  function Fix(c: Config, bands: seq<int>): (r: Config)
    ensures r.bassBoost == c.bassBoost && r.postGain == c.postGain
  {
    c.(eq := AssociateWith(bands, FixedLevel(c.eq)))
  }

  /** After `fix`, the bands are exactly `bands`, none twice; a band the config had keeps
      its level and any other gets 0.5. */
  lemma FixSchema(c: Config, bands: seq<int>)
    ensures Keys(Fix(c, bands).eq) == set b | b in bands
    ensures DistinctKeys(Fix(c, bands).eq)
    ensures forall b :: b in bands && b in Keys(c.eq) ==> Get(Fix(c, bands).eq, b) == Get(c.eq, b)
    ensures forall b :: b in bands && b !in Keys(c.eq) ==> Get(Fix(c, bands).eq, b) == Some(0.5)
  {
    AssociateWithKeys(bands, FixedLevel(c.eq));
    AssociateWithDistinct(bands, FixedLevel(c.eq));
    forall b | b in bands
      ensures Get(Fix(c, bands).eq, b) == Some(FixedLevel(c.eq)(b))
    {
      AssociateWithGet(bands, FixedLevel(c.eq), b);
    }
  }

  /** Fixing a fixed config changes nothing. */
  lemma FixIdempotent(c: Config, bands: seq<int>)
    ensures Fix(Fix(c, bands), bands) == Fix(c, bands)
  {
    var once := Fix(c, bands);
    forall b | b in bands ensures FixedLevel(once.eq)(b) == FixedLevel(c.eq)(b) {
      AssociateWithGet(bands, FixedLevel(c.eq), b);
    }
    AssociateWithCongruent(bands, FixedLevel(once.eq), FixedLevel(c.eq));
  }

  function FixWith(bands: seq<int>): Config -> Config {
    c => Fix(c, bands)
  }

  /** The `pref.updateData` on start: the current config and every saved one are fixed,
      and the saved configs keep their ids and order. */
  function FixPrefs(p: WorkerPrefs, bands: seq<int>): (r: WorkerPrefs)
    ensures r.currentConfig == Fix(p.currentConfig, bands)
    ensures |r.configs| == |p.configs|
    ensures forall i :: 0 <= i < |p.configs| ==>
      r.configs[i].0 == p.configs[i].0 && r.configs[i].1 == Fix(p.configs[i].1, bands)
  {
    WorkerPrefs(Fix(p.currentConfig, bands), MapValues(p.configs, FixWith(bands)))
  }

  /** Fixing the preferences twice is fixing them once. */
  lemma FixPrefsIdempotent(p: WorkerPrefs, bands: seq<int>)
    ensures FixPrefs(FixPrefs(p, bands), bands) == FixPrefs(p, bands)
  {
    var once := FixPrefs(p, bands);
    var twice := FixPrefs(once, bands);
    FixIdempotent(p.currentConfig, bands);
    forall i | 0 <= i < |p.configs| ensures twice.configs[i] == once.configs[i] {
      FixIdempotent(p.configs[i].1, bands);
    }
    assert twice.configs == once.configs;
  }

  // ---------------------------------------------------------------------------------
  // One session

  /** `AudioSession`: the three effects of one audio session and the resync flag. */
  class AudioSession {
    const sessionId: int
    const bassBoost: AudioEffect
    const equalizer: AudioEffect
    const loudnessEnhancer: AudioEffect
    var needsResync: bool

    /** The three effects are distinct objects. */
    predicate Valid() {
      bassBoost != equalizer && bassBoost != loudnessEnhancer && equalizer != loudnessEnhancer
    }

    function Effects(): set<object> {
      {bassBoost, equalizer, loudnessEnhancer}
    }

    /** Every effect's `enabled` flag is `on`. */
    predicate Enabled(on: bool)
      reads bassBoost, equalizer, loudnessEnhancer
    {
      bassBoost.enabled == on && equalizer.enabled == on && loudnessEnhancer.enabled == on
    }

    /** Every effect was released. */
    predicate Released()
      reads bassBoost, equalizer, loudnessEnhancer
    {
      bassBoost.released && equalizer.released && loudnessEnhancer.released
    }

    /** A session as constructed: distinct effects nothing was written to, no resync. */
    predicate Pristine()
      reads this, bassBoost, equalizer, loudnessEnhancer
    {
      Valid() && !needsResync && Enabled(false) &&
      bassBoost.enabledWrites == [] && equalizer.enabledWrites == [] && loudnessEnhancer.enabledWrites == [] &&
      bassBoost.parameterWrites == [] && equalizer.parameterWrites == [] &&
      loudnessEnhancer.parameterWrites == [] && !bassBoost.released && !equalizer.released &&
      !loudnessEnhancer.released
    }

    constructor (sessionId: int)
      ensures this.sessionId == sessionId && Pristine()
      ensures fresh(bassBoost) && fresh(equalizer) && fresh(loudnessEnhancer)
    {
      this.sessionId := sessionId;
      bassBoost := new AudioEffect();
      equalizer := new AudioEffect();
      loudnessEnhancer := new AudioEffect();
      needsResync := false;
    }

    /** The `enabled` part of `apply(enabled, config)`: a session that needs a resync
        first disables all three effects and clears the flag; then each effect is set to
        `enabled`. */
    method Apply(enabled: bool)
      requires Valid()
      modifies this, bassBoost, equalizer, loudnessEnhancer
      ensures !needsResync && Enabled(enabled)
      ensures var w := if old(needsResync) then [false, enabled] else [enabled];
        bassBoost.enabledWrites == old(bassBoost.enabledWrites) + w &&
        equalizer.enabledWrites == old(equalizer.enabledWrites) + w &&
        loudnessEnhancer.enabledWrites == old(loudnessEnhancer.enabledWrites) + w
      ensures bassBoost.parameterWrites == old(bassBoost.parameterWrites)
      ensures equalizer.parameterWrites == old(equalizer.parameterWrites)
      ensures loudnessEnhancer.parameterWrites == old(loudnessEnhancer.parameterWrites)
      ensures bassBoost.released == old(bassBoost.released) && equalizer.released == old(equalizer.released)
      ensures loudnessEnhancer.released == old(loudnessEnhancer.released)
    {
      if needsResync {
        bassBoost.SetEnabled(false);
        equalizer.SetEnabled(false);
        loudnessEnhancer.SetEnabled(false);
        needsResync := false;
      }
      bassBoost.SetEnabled(enabled);
      equalizer.SetEnabled(enabled);
      loudnessEnhancer.SetEnabled(enabled);
    }

    /** `release()`: releases the three effects. */
    method Release()
      requires Valid()
      modifies bassBoost, equalizer, loudnessEnhancer
      ensures Released()
      ensures bassBoost.enabledWrites == old(bassBoost.enabledWrites)
      ensures equalizer.enabledWrites == old(equalizer.enabledWrites)
      ensures loudnessEnhancer.enabledWrites == old(loudnessEnhancer.enabledWrites)
    {
      bassBoost.Release();
      equalizer.Release();
      loudnessEnhancer.Release();
    }
  }

  /** The `AudioSession(sessionId)` constructor, which throws when the platform refuses
      any of its effects: each call consumes one outcome of the script. */
  class SessionFactory {
    var outcomes: seq<bool>

    constructor (script: seq<bool>)
      ensures outcomes == script
    {
      outcomes := script;
    }

    method TryCreate(sessionId: int) returns (session: AudioSession?)
      modifies this
      ensures outcomes == Drop(old(outcomes), 1)
      ensures (session != null) == Succeeds(old(outcomes), 0)
      ensures session != null ==>
        fresh(session) && fresh(session.Effects()) && session.sessionId == sessionId && session.Pristine()
    {
      var ok := Succeeds(outcomes, 0);
      outcomes := Drop(outcomes, 1);
      if ok {
        session := new AudioSession(sessionId);
      } else {
        session := null;
      }
    }
  }

  /** The START construction: up to three attempts, stopping at the first success; a
      session made by the second or third attempt needs a resync. */
  method NewSession(sessionId: int, factory: SessionFactory) returns (session: AudioSession?)
    modifies factory
    ensures factory.outcomes == Drop(old(factory.outcomes), RetryAttempts(old(factory.outcomes), 3))
    ensures (session != null) == RetrySucceeds(old(factory.outcomes), 3)
    ensures session != null ==>
      fresh(session) && fresh(session.Effects()) && session.sessionId == sessionId &&
      session.needsResync == (RetryAttempts(old(factory.outcomes), 3) > 1) &&
      session.Valid() && session.Enabled(false)
  {
    ghost var script := factory.outcomes;
    DropDrop(script, 0);
    DropDrop(script, 1);
    DropDrop(script, 2);
    session := factory.TryCreate(sessionId);
    if session == null {
      session := factory.TryCreate(sessionId);
      if session != null {
        session.needsResync := true;
      } else {
        session := factory.TryCreate(sessionId);
        if session != null {
          session.needsResync := true;
        }
      }
    }
  }

  // ---------------------------------------------------------------------------------
  // The registry

  datatype SessionEvent = Start | Stop

  /** The effects of every session of a map. */
  function EffectsOf(m: map<int, AudioSession>): set<object> {
    (set s | s in m.Values :: s.bassBoost as object) +
    (set s | s in m.Values :: s.equalizer as object) +
    (set s | s in m.Values :: s.loudnessEnhancer as object)
  }

  /** The script left after `n` STARTs in a row, each retrying up to three times. */
  function AfterStarts(outcomes: seq<bool>, n: nat): seq<bool> {
    if n == 0 then outcomes
    else
      var before := AfterStarts(outcomes, n - 1);
      Drop(before, RetryAttempts(before, 3))
  }

  /** The ids of `order`, replayed as STARTs one after another from `outcomes`, whose
      START constructed a session; they are ids of `order`. */
  function Replayed(outcomes: seq<bool>, order: seq<int>): (r: set<int>)
    ensures forall id :: id in r ==> id in order
  {
    if order == [] then {}
    else
      var n := |order| - 1;
      Replayed(outcomes, order[..n]) + (if RetrySucceeds(AfterStarts(outcomes, n), 3) then {order[n]} else {})
  }

  /** One more replayed id. */
  lemma ReplayedSnoc(outcomes: seq<bool>, order: seq<int>, id: int)
    ensures var before := AfterStarts(outcomes, |order|);
      AfterStarts(outcomes, |order + [id]|) == Drop(before, RetryAttempts(before, 3)) &&
      Replayed(outcomes, order + [id]) ==
        Replayed(outcomes, order) + (if RetrySucceeds(before, 3) then {id} else {})
  {
    assert (order + [id])[..|order|] == order;
  }

  predicate Distinct(s: seq<int>) {
    forall i, j :: 0 <= i < j < |s| ==> s[i] != s[j]
  }

  /** How many of `n` STARTs in a row from `outcomes` constructed a session. */
  function Started(outcomes: seq<bool>, n: nat): (k: nat)
    ensures k <= n
  {
    if n == 0 then 0
    else Started(outcomes, n - 1) + (if RetrySucceeds(AfterStarts(outcomes, n - 1), 3) then 1 else 0)
  }

  /** The ids of `order` were replayed from `script` and those of `remaining` are still
      to replay, together the ids of `k0` once each; `kept` are the replays that
      constructed a session. */
  ghost predicate ReplayOrder(script: seq<bool>, k0: set<int>, remaining: set<int>, order: seq<int>, kept: set<int>) {
    remaining <= k0 && Distinct(order) &&
    (forall id :: id in order <==> id in k0 && id !in remaining) &&
    kept == Replayed(script, order)
  }

  /** Replaying one more id of `remaining`. */
  lemma ReplayOrderStep(script: seq<bool>, k0: set<int>, remaining: set<int>, order: seq<int>, kept: set<int>, id: int)
    requires ReplayOrder(script, k0, remaining, order, kept) && id in remaining
    ensures var before := AfterStarts(script, |order|);
      var ok := RetrySucceeds(before, 3);
      id !in kept &&
      ReplayOrder(script, k0, remaining - {id}, order + [id], kept + (if ok then {id} else {})) &&
      AfterStarts(script, |order + [id]|) == Drop(before, RetryAttempts(before, 3)) &&
      Started(script, |order + [id]|) == Started(script, |order|) + (if ok then 1 else 0)
  {
    assert id !in order;
    ReplayedSnoc(script, order, id);
  }

  /** A replay with no id left replayed every id once. */
  lemma ReplayOrderDone(script: seq<bool>, k0: set<int>, order: seq<int>, kept: set<int>)
    requires ReplayOrder(script, k0, {}, order, kept)
    ensures Distinct(order) && forall id :: id in order <==> id in k0
    ensures kept == Replayed(script, order) && kept <= k0 && |kept| == Started(script, |order|)
  {
    ReplayedCount(script, order);
  }

  /** What a finished replay leaves: from the script `script`, the known ids `k0`, the
      map `s0` and the snapshots `p0`, the replay in `order` ends with the ids `known`
      bound in `sessions` and the snapshots `published`. */
  lemma ReplayDone(script: seq<bool>, k0: set<int>, s0: map<int, AudioSession>, p0: seq<map<int, AudioSession>>,
                   order: seq<int>, kept: set<int>, known: set<int>, sessions: map<int, AudioSession>,
                   published: seq<map<int, AudioSession>>)
    requires ReplayOrder(script, k0, {}, order, kept)
    requires ReplayedSoFar(known, sessions, published, s0, p0, {}, kept, Started(script, |order|))
    ensures Distinct(order) && forall id :: id in order <==> id in k0
    ensures known == Replayed(script, order) && known <= k0
    ensures sessions.Keys == s0.Keys + known
    ensures forall id :: id in s0 && id !in known ==> sessions[id] == s0[id]
    ensures |published| == |p0| + |known| && published[..|p0|] == p0
  {
    ReplayOrderDone(script, k0, order, kept);
  }

  /** Replaying distinct ids keeps as many ids as STARTs succeeded. */
  lemma {:induction false} ReplayedCount(outcomes: seq<bool>, order: seq<int>)
    requires Distinct(order)
    ensures |Replayed(outcomes, order)| == Started(outcomes, |order|)
  {
    if order != [] {
      var n := |order| - 1;
      assert Distinct(order[..n]);
      ReplayedCount(outcomes, order[..n]);
      assert order[n] !in order[..n];
      assert order[n] !in Replayed(outcomes, order[..n]);
    }
  }

  /** When each of the first `n` attempts of the script succeeds, `n` STARTs in a row
      consume one attempt each. */
  lemma {:induction false} FirstTries(outcomes: seq<bool>, n: nat)
    requires forall i: nat :: i < n ==> Succeeds(outcomes, i)
    ensures AfterStarts(outcomes, n) == Drop(outcomes, n)
  {
    if n == 0 {
      DropDrop(outcomes, 0);
    } else {
      FirstTries(outcomes, n - 1);
      var before := Drop(outcomes, n - 1);
      assert Succeeds(before, 0);
      calc {
        AfterStarts(outcomes, n);
        Drop(before, RetryAttempts(before, 3));
        { FirstTryStep(before); }
        Drop(before, 1);
        { DropDrop(outcomes, n - 1); }
        Drop(outcomes, n);
      }
    }
  }

  /** A START whose first attempt succeeds consumes one attempt. */
  lemma FirstTryStep(before: seq<bool>)
    requires Succeeds(before, 0)
    ensures Drop(before, RetryAttempts(before, 3)) == Drop(before, 1)
  {
  }

  /** ... and the START after them succeeds when its attempt does. */
  lemma FirstTry(outcomes: seq<bool>, n: nat)
    requires forall i: nat :: i <= n ==> Succeeds(outcomes, i)
    ensures RetrySucceeds(AfterStarts(outcomes, n), 3)
  {
    FirstTries(outcomes, n);
    assert Succeeds(Drop(outcomes, n), 0);
  }

  /** A replay on a script whose first attempts all succeed keeps every id it replays,
      and consumes one attempt per id. */
  lemma {:induction false} ReplayAllSucceed(outcomes: seq<bool>, order: seq<int>)
    requires forall i: nat :: i < |order| ==> Succeeds(outcomes, i)
    ensures AfterStarts(outcomes, |order|) == Drop(outcomes, |order|)
    ensures forall id :: id in order ==> id in Replayed(outcomes, order)
  {
    FirstTries(outcomes, |order|);
    if order != [] {
      var n := |order| - 1;
      ReplayAllSucceed(outcomes, order[..n]);
      FirstTry(outcomes, n);
      assert forall id :: id in order ==> id in order[..n] || id == order[n];
    }
  }

  /** A replay on a script whose every attempt fails keeps no id, and leaves a script
      that still fails every attempt. */
  lemma {:induction false} ReplayAllFail(outcomes: seq<bool>, order: seq<int>)
    requires forall i: nat :: !Succeeds(outcomes, i)
    ensures forall i: nat :: !Succeeds(AfterStarts(outcomes, |order|), i)
    ensures Replayed(outcomes, order) == {}
  {
    if order != [] {
      var n := |order| - 1;
      ReplayAllFail(outcomes, order[..n]);
      var before := AfterStarts(outcomes, n);
      assert |order[..n]| == n;
      RetryCharacterised(before, 3);
      assert !RetrySucceeds(before, 3);
      var after := Drop(before, RetryAttempts(before, 3));
      assert forall i: nat :: !Succeeds(after, i) by {
        forall i: nat ensures !Succeeds(after, i) {
          assert Succeeds(after, i) == Succeeds(before, RetryAttempts(before, 3) + i);
        }
      }
    }
  }

  /** The script left after the broadcasts `events`: a START takes up to three attempts,
      a STOP none. */
  function AfterEvents(outcomes: seq<bool>, events: seq<(SessionEvent, int)>): seq<bool> {
    if events == [] then outcomes
    else
      var before := AfterEvents(outcomes, events[..|events| - 1]);
      if events[|events| - 1].0.Start? then Drop(before, RetryAttempts(before, 3)) else before
  }

  /** The known ids after the broadcasts `events`, from the ids `known` and the script
      `outcomes`: a START whose construction succeeds adds its id, and a failed START or
      a STOP removes it. Only ids known before or started since are known. */
  function KnownAfter(known: set<int>, outcomes: seq<bool>, events: seq<(SessionEvent, int)>): (r: set<int>)
    ensures forall id :: id in r ==> id in known || exists i :: 0 <= i < |events| && events[i] == (Start, id)
  {
    if events == [] then known
    else
      var n := |events| - 1;
      var k := KnownAfter(known, outcomes, events[..n]);
      if events[n].0.Start? && RetrySucceeds(AfterEvents(outcomes, events[..n]), 3) then k + {events[n].1}
      else k - {events[n].1}
  }

  /** An id no broadcast names stays as it was. */
  lemma {:induction false} KnownAfterUntouched(known: set<int>, outcomes: seq<bool>,
                                               events: seq<(SessionEvent, int)>, id: int)
    requires forall i :: 0 <= i < |events| ==> events[i].1 != id
    ensures id in KnownAfter(known, outcomes, events) <==> id in known
  {
    if events != [] {
      var n := |events| - 1;
      assert forall i :: 0 <= i < n ==> events[..n][i] == events[i];
      KnownAfterUntouched(known, outcomes, events[..n], id);
    }
  }

  /** The last broadcast naming an id, at `i`, decides whether it is known: it is exactly
      when that broadcast is a START whose construction succeeded. */
  lemma {:induction false} KnownAfterLast(known: set<int>, outcomes: seq<bool>,
                                          events: seq<(SessionEvent, int)>, id: int, i: nat)
    requires i < |events| && events[i].1 == id
    requires forall j :: i < j < |events| ==> events[j].1 != id
    ensures id in KnownAfter(known, outcomes, events) <==>
      events[i].0.Start? && RetrySucceeds(AfterEvents(outcomes, events[..i]), 3)
  {
    var n := |events| - 1;
    if i < n {
      var prefix := events[..n];
      assert prefix[i] == events[i] && prefix[..i] == events[..i];
      assert forall j :: i < j < n ==> prefix[j] == events[j];
      KnownAfterLast(known, outcomes, prefix, id, i);
    }
  }

  /** Whether the broadcast at `i` changes whether its id is live: a STOP always does, and
      a START does when its construction succeeds on what the earlier broadcasts left of
      the script. */
  predicate Settles(outcomes: seq<bool>, events: seq<(SessionEvent, int)>, i: nat)
    requires i < |events|
  {
    events[i].0.Stop? || RetrySucceeds(AfterEvents(outcomes, events[..i]), 3)
  }

  /** The ids bound to a session after the broadcasts `events`, from the ids `live` and
      the script `outcomes`: a START whose construction succeeds binds its id, a STOP
      unbinds it, and a failed START leaves the map alone. Only ids live before or
      started since are live. */
  function LiveAfter(live: set<int>, outcomes: seq<bool>, events: seq<(SessionEvent, int)>): (r: set<int>)
    ensures forall id :: id in r ==> id in live || exists i :: 0 <= i < |events| && events[i] == (Start, id)
  {
    if events == [] then live
    else
      var n := |events| - 1;
      var l := LiveAfter(live, outcomes, events[..n]);
      if events[n].0.Stop? then l - {events[n].1}
      else if RetrySucceeds(AfterEvents(outcomes, events[..n]), 3) then l + {events[n].1}
      else l
  }

  /** The number of snapshots the broadcasts publish: one per STOP and one per START
      whose construction succeeds. */
  function Snapshots(outcomes: seq<bool>, events: seq<(SessionEvent, int)>): (n: nat)
    ensures n <= |events|
    ensures (forall i :: 0 <= i < |events| ==> events[i].0.Stop?) ==> n == |events|
  {
    if events == [] then 0
    else
      var n := |events| - 1;
      Snapshots(outcomes, events[..n]) + if Settles(outcomes, events, n) then 1 else 0
  }

  /** An id no broadcast settles stays as live as it was. */
  lemma {:induction false} LiveAfterUnsettled(live: set<int>, outcomes: seq<bool>,
                                              events: seq<(SessionEvent, int)>, id: int)
    requires forall i :: 0 <= i < |events| && events[i].1 == id ==> !Settles(outcomes, events, i)
    ensures id in LiveAfter(live, outcomes, events) <==> id in live
  {
    if events != [] {
      var n := |events| - 1;
      var prefix := events[..n];
      forall i | 0 <= i < n && prefix[i].1 == id
        ensures !Settles(outcomes, prefix, i)
      {
        assert prefix[i] == events[i] && prefix[..i] == events[..i];
      }
      LiveAfterUnsettled(live, outcomes, prefix, id);
    }
  }

  /** The last broadcast settling an id, at `i`, decides whether it is live: it is
      exactly when that broadcast is a START, so an id is live afterwards when a START
      naming it succeeded and no STOP naming it came later. */
  lemma {:induction false} LiveAfterLast(live: set<int>, outcomes: seq<bool>,
                                         events: seq<(SessionEvent, int)>, id: int, i: nat)
    requires i < |events| && events[i].1 == id && Settles(outcomes, events, i)
    requires forall j :: i < j < |events| && events[j].1 == id ==> !Settles(outcomes, events, j)
    ensures id in LiveAfter(live, outcomes, events) <==> events[i].0.Start?
  {
    var n := |events| - 1;
    if i < n {
      var prefix := events[..n];
      assert prefix[i] == events[i] && prefix[..i] == events[..i];
      forall j | i < j < n && prefix[j].1 == id
        ensures !Settles(outcomes, prefix, j)
      {
        assert prefix[j] == events[j] && prefix[..j] == events[..j];
      }
      LiveAfterLast(live, outcomes, prefix, id, i);
    }
  }

  /** The registry's `known`, `sessions` and `published` after some replays, the ids of
      `remaining` still to replay: the ids of `kept` are bound to new sessions over the
      map `s0`, each of the `started` new sessions published one snapshot after `p0`, and
      every other id of `s0` keeps its session. */
  ghost predicate ReplayedSoFar(known: set<int>, sessions: map<int, AudioSession>,
                                published: seq<map<int, AudioSession>>, s0: map<int, AudioSession>,
                                p0: seq<map<int, AudioSession>>, remaining: set<int>, kept: set<int>,
                                started: nat)
  {
    known == remaining + kept &&
    sessions.Keys == s0.Keys + kept &&
    (forall id :: id in s0 && id !in kept ==> id in sessions && sessions[id] == s0[id]) &&
    |published| == |p0| + started && published[..|p0|] == p0
  }

  /** The replay followed by the broadcasts, on the fields' values: from the script `o0`,
      the map `s0` and the snapshots `p0`, the replay in `order` leaves the known ids
      `k1`, the map `s1`, the snapshots `p1` and the script `afterReplay`, from which the
      broadcasts `events` leave the known ids `k2`, the map `s2` and the snapshots `p2`. */
  lemma CollectDone(o0: seq<bool>, s0: map<int, AudioSession>, p0: seq<map<int, AudioSession>>,
                    order: seq<int>, afterReplay: seq<bool>, k1: set<int>, s1: map<int, AudioSession>,
                    p1: seq<map<int, AudioSession>>, events: seq<(SessionEvent, int)>,
                    k2: set<int>, s2: map<int, AudioSession>, p2: seq<map<int, AudioSession>>)
    requires k1 == Replayed(o0, order) && s1.Keys == s0.Keys + k1
    requires |p1| == |p0| + |k1| && p1[..|p0|] == p0
    requires k2 == KnownAfter(k1, afterReplay, events) && s2.Keys == LiveAfter(s1.Keys, afterReplay, events)
    requires |p2| == |p1| + Snapshots(afterReplay, events) && p2[..|p1|] == p1
    ensures k2 == KnownAfter(Replayed(o0, order), afterReplay, events)
    ensures s2.Keys == LiveAfter(s0.Keys + Replayed(o0, order), afterReplay, events)
    ensures |p2| == |p0| + |Replayed(o0, order)| + Snapshots(afterReplay, events)
    ensures p2[..|p0|] == p0
  {
    assert p2[..|p0|] == p1[..|p0|];
  }

  /** A replayed START that constructs `session` for `id` keeps the replay's invariants
      one id further on, from the fields before (`known`, `sessions`, `published`,
      `footprint`) to those after (`known'`, `sessions'`, `published'`, `footprint'`). */
  lemma ReplayKept(known: set<int>, sessions: map<int, AudioSession>, published: seq<map<int, AudioSession>>,
                   footprint: set<object>, known': set<int>, sessions': map<int, AudioSession>,
                   published': seq<map<int, AudioSession>>, footprint': set<object>,
                   s0: map<int, AudioSession>, p0: seq<map<int, AudioSession>>, f0: set<object>,
                   remaining: set<int>, kept: set<int>, started: nat, id: int, session: AudioSession)
    requires ReplayedSoFar(known, sessions, published, s0, p0, remaining, kept, started) && Built(footprint, sessions, f0, kept)
    requires id in remaining && id !in kept
    requires sessions' == sessions[id := session] && published' == published + [sessions'] && known' == known + {id}
    requires footprint' == footprint + {session} + session.Effects() && ({session} + session.Effects()) !! footprint
    ensures ReplayedSoFar(known', sessions', published', s0, p0, remaining - {id}, kept + {id}, started + 1)
    ensures Built(footprint', sessions', f0, kept + {id})
  {
    assert published'[..|p0|] == published[..|p0|];
    forall x | x in kept + {id}
      ensures x in sessions' && Joined(footprint', sessions'[x], f0)
    {
      if x != id {
        assert sessions'[x] == sessions[x];
      }
    }
  }

  /** A replayed START that fails keeps the replay's invariants one id further on: the
      id is no longer known and nothing else changes. */
  lemma ReplayDropped(known: set<int>, sessions: map<int, AudioSession>, published: seq<map<int, AudioSession>>,
                      footprint: set<object>, known': set<int>,
                      s0: map<int, AudioSession>, p0: seq<map<int, AudioSession>>, f0: set<object>,
                      remaining: set<int>, kept: set<int>, started: nat, id: int)
    requires ReplayedSoFar(known, sessions, published, s0, p0, remaining, kept, started) && Built(footprint, sessions, f0, kept)
    requires id in remaining && id !in kept && known' == known - {id}
    ensures ReplayedSoFar(known', sessions, published, s0, p0, remaining - {id}, kept, started)
  {
  }

  /** The sessions bound to the ids of `kept`, and their effects, joined the footprint
      after it was `f0`. */
  ghost predicate Built(footprint: set<object>, sessions: map<int, AudioSession>, f0: set<object>, kept: set<int>) {
    f0 <= footprint &&
    forall id :: id in kept ==> id in sessions && Joined(footprint, sessions[id], f0)
  }

  /** The session `s` and its three effects are in the footprint and were not in `f0`. */
  ghost predicate Joined(footprint: set<object>, s: AudioSession, f0: set<object>) {
    s in footprint && s !in f0 &&
    s.bassBoost in footprint && s.bassBoost !in f0 &&
    s.equalizer in footprint && s.equalizer !in f0 &&
    s.loudnessEnhancer in footprint && s.loudnessEnhancer !in f0
  }

  /** `audioSessions()`: the live sessions by id, the persisted known ids, and the
      snapshots of the map sent downstream, in order. The ghost `footprint` holds every
      session the registry constructed and the effects of each. */
  class SessionRegistry {
    var sessions: map<int, AudioSession>
    var known: set<int>
    var published: seq<map<int, AudioSession>>
    ghost var footprint: set<object>

    /** Every live session is well formed, was built for the id it is bound to and has its
        effects in the footprint, and the last snapshot sent is the current map. */
    ghost predicate Valid()
      reads this
    {
      (forall s :: s in sessions.Values ==> s.Valid()) &&
      (forall id :: id in sessions ==> sessions[id].sessionId == id && sessions[id].Effects() <= footprint) &&
      (|published| > 0 ==> published[|published| - 1] == sessions)
    }

    /** A new collector: no sessions yet, and the persisted known ids. */
    constructor (known: set<int>)
      ensures sessions == map[] && this.known == known && published == [] && footprint == {} && Valid()
    {
      sessions := map[];
      this.known := known;
      published := [];
      footprint := {};
    }

    /** START: a constructed session is bound to the id (any session bound before is
        replaced, not released), the map is published and the id becomes known; when
        construction fails three times, nothing but the known ids changes, and the id is
        no longer known. */
    method Start(sessionId: int, factory: SessionFactory)
      requires Valid()
      modifies this, factory
      ensures Valid()
      ensures factory.outcomes == Drop(old(factory.outcomes), RetryAttempts(old(factory.outcomes), 3))
      ensures RetrySucceeds(old(factory.outcomes), 3) ==>
        sessionId in sessions && fresh(sessions[sessionId]) && fresh(sessions[sessionId].Effects()) &&
        sessions[sessionId].sessionId == sessionId &&
        sessions == old(sessions)[sessionId := sessions[sessionId]] &&
        sessions[sessionId].needsResync == (RetryAttempts(old(factory.outcomes), 3) > 1) &&
        published == old(published) + [sessions] && known == old(known) + {sessionId} &&
        footprint == old(footprint) + {sessions[sessionId]} + sessions[sessionId].Effects()
      ensures !RetrySucceeds(old(factory.outcomes), 3) ==>
        sessions == old(sessions) && published == old(published) && known == old(known) - {sessionId} &&
        footprint == old(footprint)
      ensures old(footprint) <= footprint && fresh(footprint - old(footprint))
    {
      var session := NewSession(sessionId, factory);
      if session != null {
        sessions := sessions[sessionId := session];
        published := published + [sessions];
        known := known + {sessionId};
        footprint := footprint + {session} + session.Effects();
      } else {
        known := known - {sessionId};
      }
    }

    /** STOP: the id is unbound and its session, if there was one, released; the id is no
        longer known and the map is published. */
    method Stop(sessionId: int)
      requires Valid()
      modifies this, if sessionId in sessions then sessions[sessionId].Effects() else {}
      ensures Valid()
      ensures sessions == old(sessions) - {sessionId}
      ensures sessionId in old(sessions) ==> old(sessions)[sessionId].Released()
      ensures known == old(known) - {sessionId}
      ensures published == old(published) + [sessions]
      ensures footprint == old(footprint)
    {
      if sessionId in sessions {
        var removed := sessions[sessionId];
        sessions := sessions - {sessionId};
        removed.Release();
      }
      known := known - {sessionId};
      published := published + [sessions];
    }

    /** One event of the collector: START as `Start`, STOP as `Stop`. */
    method Handle(event: SessionEvent, sessionId: int, factory: SessionFactory)
      requires Valid()
      modifies this, factory, if sessionId in sessions then sessions[sessionId].Effects() else {}
      ensures Valid()
      ensures event.Start? ==>
        factory.outcomes == Drop(old(factory.outcomes), RetryAttempts(old(factory.outcomes), 3))
      ensures event.Start? && RetrySucceeds(old(factory.outcomes), 3) ==>
        sessionId in sessions && fresh(sessions[sessionId]) && fresh(sessions[sessionId].Effects()) &&
        sessions[sessionId].sessionId == sessionId &&
        sessions == old(sessions)[sessionId := sessions[sessionId]] &&
        sessions[sessionId].needsResync == (RetryAttempts(old(factory.outcomes), 3) > 1) &&
        published == old(published) + [sessions] && known == old(known) + {sessionId}
      ensures event.Start? && !RetrySucceeds(old(factory.outcomes), 3) ==>
        sessions == old(sessions) && published == old(published) && known == old(known) - {sessionId}
      ensures event.Stop? ==>
        sessions == old(sessions) - {sessionId} &&
        (sessionId in old(sessions) ==> old(sessions)[sessionId].Released()) &&
        known == old(known) - {sessionId} && published == old(published) + [sessions] &&
        factory.outcomes == old(factory.outcomes)
      ensures old(footprint) <= footprint && fresh(footprint - old(footprint))
    {
      match event
      case Start => Start(sessionId, factory);
      case Stop => Stop(sessionId);
    }

    /** `onStart`: every id known when the collector starts is replayed as START, once
        each, in the set's iteration order, which `order` names. Each replay takes its
        attempts from the script in turn; afterwards the ids still known are exactly
        those whose replay constructed a new session, each bound to it, an id whose
        replay failed keeps whatever it was bound to, and one snapshot was published per
        new session after those published before. */
    method Replay(factory: SessionFactory) returns (ghost order: seq<int>)
      requires Valid()
      modifies this, factory
      ensures Valid()
      ensures Distinct(order) && forall id :: id in order <==> id in old(known)
      ensures factory.outcomes == AfterStarts(old(factory.outcomes), |order|)
      ensures known == Replayed(old(factory.outcomes), order)
      ensures known <= old(known)
      ensures sessions.Keys == old(sessions).Keys + known
      ensures forall id :: id in known ==> fresh(sessions[id]) && fresh(sessions[id].Effects()) && sessions[id].sessionId == id
      ensures forall id :: id in old(sessions) && id !in known ==> sessions[id] == old(sessions)[id]
      ensures |published| == |old(published)| + |known| && published[..|old(published)|] == old(published)
      ensures old(footprint) <= footprint && fresh(footprint - old(footprint))
    {
      ghost var kept;
      order, kept := ReplayAll(factory, factory.outcomes, known, sessions, published, footprint);
      ReplayDone(old(factory.outcomes), old(known), old(sessions), old(published), order, kept, known, sessions, published);
    }

    /** The loop of `Replay`, from the script `script`, the known ids `k0`, the map `s0`,
        the snapshots `p0` and the footprint `f0` it starts with. */
    method ReplayAll(factory: SessionFactory, ghost script: seq<bool>, ghost k0: set<int>,
                     ghost s0: map<int, AudioSession>, ghost p0: seq<map<int, AudioSession>>,
                     ghost f0: set<object>)
      returns (ghost order: seq<int>, ghost kept: set<int>)
      requires Valid() && factory.outcomes == script && known == k0 && sessions == s0 && published == p0
      requires footprint == f0
      modifies this, factory
      ensures Valid()
      ensures ReplayOrder(script, k0, {}, order, kept)
      ensures ReplayedSoFar(known, sessions, published, s0, p0, {}, kept, Started(script, |order|)) && Built(footprint, sessions, f0, kept)
      ensures factory.outcomes == AfterStarts(script, |order|)
      ensures fresh(footprint - f0)
    {
      kept := {};
      var remaining := known;
      order := [];
      while remaining != {}
        invariant Valid()
        invariant ReplayOrder(script, k0, remaining, order, kept)
        invariant ReplayedSoFar(known, sessions, published, s0, p0, remaining, kept, Started(script, |order|)) && Built(footprint, sessions, f0, kept)
        invariant factory.outcomes == AfterStarts(script, |order|)
        invariant fresh(footprint - f0)
        decreases remaining
      {
        var id := Pick(remaining);
        ReplayOrderStep(script, k0, remaining, order, kept, id);
        ghost var kept' := kept + if RetrySucceeds(factory.outcomes, 3) then {id} else {};
        ReplayStep(id, factory, s0, p0, f0, remaining, kept, kept', Started(script, |order|), Started(script, |order + [id]|));
        remaining := remaining - {id};
        order := order + [id];
        kept := kept';
      }
      assert remaining == {};
    }

    /** One replayed START, of an id not replayed before: the replay's invariants hold
        again with `kept'` and `started'`, which count the id only when its START
        succeeds. */
    method ReplayStep(id: int, factory: SessionFactory, ghost s0: map<int, AudioSession>,
                      ghost p0: seq<map<int, AudioSession>>, ghost f0: set<object>,
                      ghost remaining: set<int>, ghost kept: set<int>, ghost kept': set<int>,
                      ghost started: nat, ghost started': nat)
      requires Valid() && id in remaining && id !in kept
      requires ReplayedSoFar(known, sessions, published, s0, p0, remaining, kept, started) && Built(footprint, sessions, f0, kept)
      requires kept' == kept + if RetrySucceeds(factory.outcomes, 3) then {id} else {}
      requires started' == started + if RetrySucceeds(factory.outcomes, 3) then 1 else 0
      modifies this, factory
      ensures Valid()
      ensures factory.outcomes == Drop(old(factory.outcomes), RetryAttempts(old(factory.outcomes), 3))
      ensures ReplayedSoFar(known, sessions, published, s0, p0, remaining - {id}, kept', started') && Built(footprint, sessions, f0, kept')
      ensures old(footprint) <= footprint && fresh(footprint - old(footprint))
    {
      ghost var ok := RetrySucceeds(factory.outcomes, 3);
      Start(id, factory);
      if ok {
        var session := sessions[id];
        assert {session} + session.Effects() !! old(footprint);
        ReplayKept(old(known), old(sessions), old(published), old(footprint), known, sessions, published, footprint,
                   s0, p0, f0, remaining, kept, started, id, session);
      } else {
        ReplayDropped(old(known), old(sessions), old(published), old(footprint), known, s0, p0, f0, remaining, kept, started, id);
      }
    }

    /** The whole collector: `onStart` replays the known ids as STARTs first, and only
        then are the broadcasts `events` handled, one by one, their STARTs drawing their
        attempts from the script the replay left over, `afterReplay`. The ids bound at
        the end are those `LiveAfter` gives from the ids bound before and those the
        replay kept, and the snapshots are those of the replay and then one per
        broadcast that settles its id, the last of them the final map. */
    method Collect(factory: SessionFactory, events: seq<(SessionEvent, int)>)
      returns (ghost order: seq<int>, ghost afterReplay: seq<bool>)
      requires Valid()
      modifies this, factory, footprint
      ensures Valid()
      ensures Distinct(order) && forall id :: id in order <==> id in old(known)
      ensures afterReplay == AfterStarts(old(factory.outcomes), |order|)
      ensures factory.outcomes == AfterEvents(afterReplay, events)
      ensures known == KnownAfter(Replayed(old(factory.outcomes), order), afterReplay, events)
      ensures sessions.Keys == LiveAfter(old(sessions).Keys + Replayed(old(factory.outcomes), order), afterReplay, events)
      ensures |published| ==
        |old(published)| + |Replayed(old(factory.outcomes), order)| + Snapshots(afterReplay, events)
      ensures published[..|old(published)|] == old(published)
      ensures |published| > |old(published)| ==> published[|published| - 1] == sessions
      ensures old(footprint) <= footprint && fresh(footprint - old(footprint))
    {
      order := Replay(factory);
      afterReplay := factory.outcomes;
      ghost var k1, s1, p1 := known, sessions, published;
      HandleAll(factory, events);
      CollectDone(old(factory.outcomes), old(sessions), old(published), order, afterReplay, k1, s1, p1, events,
                  known, sessions, published);
    }

    /** The broadcasts after the replay, handled one by one: the script, the known ids,
        the live ids and the snapshots evolve as `AfterEvents`, `KnownAfter`, `LiveAfter`
        and `Snapshots` say. */
    method HandleAll(factory: SessionFactory, events: seq<(SessionEvent, int)>)
      requires Valid()
      modifies this, factory, footprint
      ensures Valid()
      ensures factory.outcomes == AfterEvents(old(factory.outcomes), events)
      ensures known == KnownAfter(old(known), old(factory.outcomes), events)
      ensures sessions.Keys == LiveAfter(old(sessions).Keys, old(factory.outcomes), events)
      ensures |published| == |old(published)| + Snapshots(old(factory.outcomes), events)
      ensures published[..|old(published)|] == old(published)
      ensures old(footprint) <= footprint && fresh(footprint - old(footprint))
    {
      var i := 0;
      while i < |events|
        invariant 0 <= i <= |events|
        invariant Valid()
        invariant HandledSoFar(factory, old(known), old(sessions).Keys, old(factory.outcomes), old(published), events[..i])
        invariant old(footprint) <= footprint && fresh(footprint - old(footprint))
      {
        HandleStep(factory, old(known), old(sessions).Keys, old(factory.outcomes), old(published), events, i);
        i := i + 1;
      }
      assert events[..|events|] == events;
    }

    /** The registry after the broadcasts `done`, from the known ids `k0`, the live ids
        `live0`, the script `o0` and the snapshots `p0` it started with. */
    ghost predicate HandledSoFar(factory: SessionFactory, k0: set<int>, live0: set<int>, o0: seq<bool>,
                                 p0: seq<map<int, AudioSession>>, done: seq<(SessionEvent, int)>)
      reads this, factory
    {
      factory.outcomes == AfterEvents(o0, done) &&
      known == KnownAfter(k0, o0, done) &&
      sessions.Keys == LiveAfter(live0, o0, done) &&
      |published| == |p0| + Snapshots(o0, done) && published[..|p0|] == p0
    }

    /** One broadcast, the one at `i`, handled after those before it. */
    method HandleStep(factory: SessionFactory, ghost k0: set<int>, ghost live0: set<int>, ghost o0: seq<bool>,
                      ghost p0: seq<map<int, AudioSession>>, events: seq<(SessionEvent, int)>, i: nat)
      requires Valid() && i < |events|
      requires HandledSoFar(factory, k0, live0, o0, p0, events[..i])
      modifies this, factory, footprint
      ensures Valid()
      ensures HandledSoFar(factory, k0, live0, o0, p0, events[..i + 1])
      ensures old(footprint) <= footprint && fresh(footprint - old(footprint))
    {
      assert events[..i + 1][..i] == events[..i];
      Handle(events[i].0, events[i].1, factory);
    }

    /** The `guarantee` finaliser: every session still in the map is released. */
    method Shutdown()
      requires Valid()
      modifies EffectsOf(sessions)
      ensures forall s :: s in sessions.Values ==> s.Released()
    {
      var remaining := sessions.Values;
      while remaining != {}
        invariant remaining <= sessions.Values
        invariant forall s :: s in sessions.Values && s !in remaining ==> s.Released()
        decreases remaining
      {
        var s :| s in remaining;
        assert s.Effects() <= EffectsOf(sessions);
        ReleaseStep(s, sessions.Values - remaining);
        remaining := remaining - {s};
      }
    }

    /** The collector of the worker: every live session gets `apply(enabled, config)`;
        afterwards none needs a resync and every effect's `enabled` flag is `enabled`. */
    method ApplyAll(enabled: bool)
      requires Valid()
      modifies sessions.Values, EffectsOf(sessions)
      ensures forall s :: s in sessions.Values ==> !s.needsResync && s.Enabled(enabled)
    {
      var remaining := sessions.Values;
      while remaining != {}
        invariant remaining <= sessions.Values
        invariant forall s :: s in sessions.Values && s !in remaining ==> !s.needsResync && s.Enabled(enabled)
        decreases remaining
      {
        var s :| s in remaining;
        assert s.Effects() <= EffectsOf(sessions);
        ApplyStep(s, enabled, sessions.Values - remaining);
        remaining := remaining - {s};
      }
    }
  }

  /** One step of the collector: `s` is applied, and the sessions applied before stay
      applied, since any effect they share with `s` is now set to the same flag. */
  method ApplyStep(s: AudioSession, enabled: bool, done: set<AudioSession>)
    requires s.Valid()
    requires forall t :: t in done ==> !t.needsResync && t.Enabled(enabled)
    modifies s, s.Effects()
    ensures forall t :: t in done + {s} ==> !t.needsResync && t.Enabled(enabled)
  {
    s.Apply(enabled);
    forall t | t in done ensures !t.needsResync && t.Enabled(enabled) {
      assert t.bassBoost in s.Effects() || unchanged(t.bassBoost);
      assert t.equalizer in s.Effects() || unchanged(t.equalizer);
      assert t.loudnessEnhancer in s.Effects() || unchanged(t.loudnessEnhancer);
    }
  }

  /** One step of the finaliser: `s` is released, and the sessions released before stay
      released. */
  method ReleaseStep(s: AudioSession, done: set<AudioSession>)
    requires s.Valid()
    requires forall t :: t in done ==> t.Released()
    modifies s.Effects()
    ensures forall t :: t in done + {s} ==> t.Released()
  {
    s.Release();
    forall t | t in done ensures t.Released() {
      assert t.bassBoost in s.Effects() || unchanged(t.bassBoost);
      assert t.equalizer in s.Effects() || unchanged(t.equalizer);
      assert t.loudnessEnhancer in s.Effects() || unchanged(t.loudnessEnhancer);
    }
  }

  /** An element of a non-empty set. */
  method Pick<T>(s: set<T>) returns (x: T)
    requires s != {}
    ensures x in s
  {
    x :| x in s;
  }
}
