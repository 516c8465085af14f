/** Normalised volume and signal strength, and what the delivered updates tell an observer. */
module AudioLevels {
  import opened Common
  import opened AudioModel

  /** Raw values above this wrap around to a positive level. */
  const WRAP: int := 0x8000_000E
  const VOLUME_STEPS: int := 28
  const SIGNAL_STEPS: int := 2

  /** The `k`-th of `n` equal steps from 0 to 1. */
  function Step(k: int, n: int): real
    requires n > 0
  {
    k as real / n as real
  }

  ghost predicate OnGrid(x: real, n: int)
    requires n > 0
  {
    exists k: int :: 0 <= k <= n && x == Step(k, n)
  }

  ghost predicate AllOnGrid(levels: map<string, real>, n: int)
    requires n > 0
  {
    forall a | a in levels :: OnGrid(levels[a], n)
  }

  /** Of 28 steps: full up to 14, none from 42, and full again once the value has wrapped around. */
  function VolumeStepOf(volume: u32): int {
    if volume > WRAP || volume <= 14 then 28 else if volume >= 42 then 0 else 42 - volume
  }

  /** Of two steps. */
  function SignalStepOf(strength: u32): int {
    if strength > 2 then 2 else strength
  }

  /**
   * The volume is the raw value's distance below 42 in 28 steps, cut off at both ends; from 2^31 + 15 on the negated
   * value has wrapped to a positive one and the result is full volume.
   */
  lemma {:induction false} VolumeSteps(volume: u32)
    ensures NormalizeVolume(volume) == Step(VolumeStepOf(volume), VOLUME_STEPS)
    ensures OnGrid(NormalizeVolume(volume), VOLUME_STEPS) && 0.0 <= NormalizeVolume(volume) <= 1.0
  {
    var k := VolumeStepOf(volume);
    var d := Int32(Int32(-(volume as int)) - MAX_VOLUME_DECIBELS);
    assert d == if volume > WRAP then 0x1_0000_000E - volume else 14 - volume;
    assert (MIN_VOLUME_DECIBELS - MAX_VOLUME_DECIBELS) as real == -28.0;
    assert 1.0 - d as real / -28.0 == (28 + d) as real / 28.0;
    assert NormalizeVolume(volume) == Clip((28 + d) as real / 28.0) == Step(k, VOLUME_STEPS);
  }

  /** A larger raw value is never louder, exactly as long as it does not wrap or the smaller one is at full volume. */
  lemma {:induction false} VolumeAntitoneIff(v: u32, w: u32)
    requires v <= w
    ensures NormalizeVolume(w) <= NormalizeVolume(v) <==> w <= WRAP || v <= 14 || v > WRAP
  {
    VolumeSteps(v);
    VolumeSteps(w);
  }

  lemma {:induction false} SignalSteps(strength: u32)
    ensures NormalizeSignalStrength(strength) == Step(SignalStepOf(strength), SIGNAL_STEPS)
    ensures OnGrid(NormalizeSignalStrength(strength), SIGNAL_STEPS) && 0.0 <= NormalizeSignalStrength(strength) <= 1.0
  {
    var k := SignalStepOf(strength);
    assert NormalizeSignalStrength(strength) == Step(k, SIGNAL_STEPS);
  }

  lemma {:induction false} SignalMonotone(s: u32, t: u32)
    requires s <= t
    ensures NormalizeSignalStrength(s) <= NormalizeSignalStrength(t)
  {
    SignalSteps(s);
    SignalSteps(t);
  }

  /** On a grid this coarse the epsilon test is equality. */
  lemma {:induction false} GridEquality(x: real, y: real, n: int)
    requires (n == VOLUME_STEPS || n == SIGNAL_STEPS) && OnGrid(x, n) && OnGrid(y, n)
    ensures IsEqual(x, y) <==> x == y
  {
    var j: int :| 0 <= j <= n && x == Step(j, n);
    var k: int :| 0 <= k <= n && y == Step(k, n);
    StepDistance(j, k, n);
  }

  lemma {:induction false} StepDistance(j: int, k: int, n: int)
    requires n == VOLUME_STEPS || n == SIGNAL_STEPS
    ensures IsEqual(Step(j, n), Step(k, n)) <==> j == k
  {
    if n == VOLUME_STEPS {
      assert Step(j, n) - Step(k, n) == (j - k) as real / 28.0;
    } else {
      assert Step(j, n) - Step(k, n) == (j - k) as real / 2.0;
    }
    assert j > k ==> (j - k) as real >= 1.0;
    assert j < k ==> (k - j) as real >= 1.0;
  }

  /** What an observer who only keeps the latest update per attendee knows. */
  function Replay(updates: seq<LevelUpdate>): map<string, real> {
    if updates == [] then map[]
    else Replay(Init(updates))[Last(updates).attendee.attendeeId := Last(updates).level]
  }

  /** Every update tells the observer something new. */
  predicate OnlyChanges(updates: seq<LevelUpdate>) {
    updates == []
    || (OnlyChanges(Init(updates))
        && var known, u := Replay(Init(updates)), Last(updates);
           u.attendee.attendeeId !in known || known[u.attendee.attendeeId] != u.level)
  }

  ghost predicate Rebuilt(updates: seq<LevelUpdate>, levels: map<string, real>, n: int)
    requires n > 0
  {
    Replay(updates) == levels && OnlyChanges(updates) && AllOnGrid(levels, n)
  }

  lemma {:induction false} UpdateRebuilds(
    updates: seq<LevelUpdate>, levels: map<string, real>, who: Attendee, level: real, n: int)
    requires (n == VOLUME_STEPS || n == SIGNAL_STEPS) && Rebuilt(updates, levels, n) && OnGrid(level, n)
    ensures Rebuilt(if Changed(levels, who.attendeeId, level) then updates + [LevelUpdate(who, level)] else updates,
                    levels[who.attendeeId := level], n)
  {
    assert Init(updates + [LevelUpdate(who, level)]) == updates;
    if who.attendeeId in levels {
      GridEquality(levels[who.attendeeId], level, n);
    }
    if !Changed(levels, who.attendeeId, level) {
      assert levels[who.attendeeId := level] == levels;
    }
  }

  lemma StreamKeepsLevels(log: AudioLog, e: StreamInfo)
    ensures var after := StreamStep(log, e);
            && after.volumes == log.volumes && after.signals == log.signals
            && after.adapter.volume == log.adapter.volume && after.adapter.signal == log.adapter.signal
  {
  }

  /**
   * The updates rebuild the cache. After any run, replaying every delivered volume and signal update gives exactly the
   * stored levels, every update delivered was a change, and all stored levels lie on their grid.
   */
  lemma {:induction false} UpdatesRebuildCache(inputs: seq<AudioInput>)
    ensures var log := AudioRun(inputs);
            && Rebuilt(log.volumes, log.adapter.volume, VOLUME_STEPS)
            && Rebuilt(log.signals, log.adapter.signal, SIGNAL_STEPS)
  {
    if inputs != [] {
      UpdatesRebuildCache(Init(inputs));
      var log, x := AudioRun(Init(inputs)), Last(inputs);
      match x
      case Stream(e) => StreamKeepsLevels(log, e);
      case Level(e) =>
        if e.streamId.Some? && e.streamId.value in log.adapter.streamToAttendee {
          var who := Owner(log.adapter, e.streamId.value);
          if e.volume.Some? {
            VolumeSteps(e.volume.value);
            UpdateRebuilds(log.volumes, log.adapter.volume, who, NormalizeVolume(e.volume.value), VOLUME_STEPS);
          }
          if e.signalStrength.Some? {
            SignalSteps(e.signalStrength.value);
            UpdateRebuilds(log.signals, log.adapter.signal, who, NormalizeSignalStrength(e.signalStrength.value),
                SIGNAL_STEPS);
          }
        }
    }
  }
}
