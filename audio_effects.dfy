/**
 * The platform side both session classes drive: an `android.media.audiofx.AudioEffect`
 * (the custom effect of DspFeature.kt, and the BassBoost, Equalizer and LoudnessEnhancer of
 * AudioSessionWorker.kt), and its constructor, which may throw. Whether a construction
 * throws is outside the program, so it is a script of outcomes that the constructor
 * consumes one per attempt; `RetryAttempts` and `RetrySucceeds` say what a bounded retry
 * over such a script does.
 */
module AudioEffects {
  import opened DspCodec

  /** An audio effect as the core observes it: its `enabled` flag with the history of
      every assignment to it, the raw `setParameter(arguments, value)` calls made on it,
      and whether it was released. */
  class AudioEffect {
    var enabled: bool
    var enabledWrites: seq<bool>
    var parameterWrites: seq<(seq<Int8>, seq<Int8>)>
    var released: bool

    constructor ()
      ensures !enabled && enabledWrites == [] && parameterWrites == [] && !released
    {
      enabled := false;
      enabledWrites := [];
      parameterWrites := [];
      released := false;
    }

    /** `effect.enabled = on`. */
    method SetEnabled(on: bool)
      modifies this
      ensures enabled == on && enabledWrites == old(enabledWrites) + [on]
      ensures parameterWrites == old(parameterWrites) && released == old(released)
    {
      enabled := on;
      enabledWrites := enabledWrites + [on];
    }

    /** The hidden `setParameter(byte[], byte[])`. */
    method SetParameter(arguments: seq<Int8>, value: seq<Int8>)
      modifies this
      ensures parameterWrites == old(parameterWrites) + [(arguments, value)]
      ensures enabled == old(enabled) && enabledWrites == old(enabledWrites)
      ensures released == old(released)
    {
      parameterWrites := parameterWrites + [(arguments, value)];
    }

    /** `release()`. */
    method Release()
      modifies this
      ensures released
      ensures enabled == old(enabled) && enabledWrites == old(enabledWrites)
      ensures parameterWrites == old(parameterWrites)
    {
      released := true;
    }
  }

  /** Whether attempt `i` (from 0) of a script succeeds; past its end every attempt fails. */
  predicate Succeeds(outcomes: seq<bool>, i: nat) {
    i < |outcomes| && outcomes[i]
  }

  /** The script after `n` attempts. */
  function Drop(outcomes: seq<bool>, n: nat): (r: seq<bool>)
    ensures forall i: nat :: Succeeds(r, i) == Succeeds(outcomes, n + i)
  {
    if n >= |outcomes| then [] else outcomes[n..]
  }

  /** One more attempt after `n`. */
  lemma DropDrop(outcomes: seq<bool>, n: nat)
    ensures Drop(Drop(outcomes, n), 1) == Drop(outcomes, n + 1)
    ensures Drop(outcomes, 0) == outcomes
  {
    if n < |outcomes| {
      assert outcomes[n..][1..] == outcomes[n + 1..];
    }
  }

  /** The attempts a retry that stops at the first success makes, with at most `limit`. */
  function RetryAttempts(outcomes: seq<bool>, limit: nat): (n: nat)
    decreases limit
  {
    if limit == 0 then 0
    else if Succeeds(outcomes, 0) then 1
    else 1 + RetryAttempts(Drop(outcomes, 1), limit - 1)
  }

  /** Whether such a retry ends with a constructed effect. */
  predicate RetrySucceeds(outcomes: seq<bool>, limit: nat)
    decreases limit
  {
    limit > 0 && (Succeeds(outcomes, 0) || RetrySucceeds(Drop(outcomes, 1), limit - 1))
  }

  /** A retry makes at most `limit` attempts; it fails exactly when each of them fails,
      and when it succeeds, its last attempt is the first success. */
  lemma {:induction false} RetryCharacterised(outcomes: seq<bool>, limit: nat)
    ensures RetryAttempts(outcomes, limit) <= limit
    ensures limit > 0 ==> RetryAttempts(outcomes, limit) >= 1
    ensures RetrySucceeds(outcomes, limit) <==> exists i: nat :: i < limit && Succeeds(outcomes, i)
    ensures !RetrySucceeds(outcomes, limit) ==> RetryAttempts(outcomes, limit) == limit
    ensures RetrySucceeds(outcomes, limit) ==>
      Succeeds(outcomes, RetryAttempts(outcomes, limit) - 1) &&
      forall i: nat :: i < RetryAttempts(outcomes, limit) - 1 ==> !Succeeds(outcomes, i)
    decreases limit
  {
    if limit > 0 && !Succeeds(outcomes, 0) {
      var rest := Drop(outcomes, 1);
      RetryCharacterised(rest, limit - 1);
      if exists i: nat :: i < limit && Succeeds(outcomes, i) {
        var i: nat :| i < limit && Succeeds(outcomes, i);
        assert i > 0 && Succeeds(rest, i - 1);
      }
      if RetrySucceeds(rest, limit - 1) {
        var j: nat :| j < limit - 1 && Succeeds(rest, j);
        assert Succeeds(outcomes, j + 1);
        var n := RetryAttempts(rest, limit - 1);
        assert Succeeds(outcomes, 1 + (n - 1));
        forall i: nat | i < n ensures !Succeeds(outcomes, i) {
          if i > 0 { assert !Succeeds(rest, i - 1); }
        }
      }
    }
  }

  /** The retry after `n` failed attempts, one attempt further: it ends there on a
      success, and otherwise goes on with one attempt fewer. */
  lemma RetryStep(outcomes: seq<bool>, n: nat, limit: nat)
    requires n < limit
    ensures var rest := Drop(outcomes, n);
      (Succeeds(rest, 0) ==> RetryAttempts(rest, limit - n) == 1 && RetrySucceeds(rest, limit - n)) &&
      (!Succeeds(rest, 0) ==>
        RetryAttempts(rest, limit - n) == 1 + RetryAttempts(Drop(outcomes, n + 1), limit - n - 1) &&
        RetrySucceeds(rest, limit - n) == RetrySucceeds(Drop(outcomes, n + 1), limit - n - 1))
  {
    DropDrop(outcomes, n);
  }

  /** The constructor that may throw: each call consumes one outcome of the script. */
  class EffectFactory {
    var outcomes: seq<bool>

    constructor (script: seq<bool>)
      ensures outcomes == script
    {
      outcomes := script;
    }

    /** One construction attempt: a fresh effect, or null where the platform throws. */
    method TryCreate() returns (effect: AudioEffect?)
      modifies this
      ensures outcomes == Drop(old(outcomes), 1)
      ensures (effect != null) == Succeeds(old(outcomes), 0)
      ensures effect != null ==>
        fresh(effect) && !effect.enabled && effect.enabledWrites == [] &&
        effect.parameterWrites == [] && !effect.released
    {
      var ok := Succeeds(outcomes, 0);
      outcomes := Drop(outcomes, 1);
      if ok {
        effect := new AudioEffect();
      } else {
        effect := null;
      }
    }
  }

  /** `while (effect == null && attempt < limit)`: construction attempts until the first
      success, at most `limit` of them. */
  method CreateUpTo(factory: EffectFactory, limit: nat) returns (effect: AudioEffect?)
    modifies factory
    ensures factory.outcomes == Drop(old(factory.outcomes), RetryAttempts(old(factory.outcomes), limit))
    ensures (effect != null) == RetrySucceeds(old(factory.outcomes), limit)
    ensures effect != null ==>
      fresh(effect) && effect.parameterWrites == [] && effect.enabledWrites == [] &&
      !effect.enabled && !effect.released
  {
    ghost var script := factory.outcomes;
    effect := null;
    var attempt := 0;
    DropDrop(script, 0);
    while effect == null && attempt < limit
      invariant 0 <= attempt <= limit
      invariant factory.outcomes == Drop(script, attempt)
      invariant effect == null ==>
        RetryAttempts(script, limit) == attempt + RetryAttempts(Drop(script, attempt), limit - attempt) &&
        RetrySucceeds(script, limit) == RetrySucceeds(Drop(script, attempt), limit - attempt)
      invariant effect != null ==>
        RetryAttempts(script, limit) == attempt && RetrySucceeds(script, limit) &&
        fresh(effect) && effect.parameterWrites == [] && effect.enabledWrites == [] &&
        !effect.enabled && !effect.released
    {
      DropDrop(script, attempt);
      RetryStep(script, attempt, limit);
      effect := factory.TryCreate();
      attempt := attempt + 1;
    }
  }
}
