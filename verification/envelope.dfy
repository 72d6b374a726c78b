/** The envelope generator of the voice (`synth_t::eg_t`): a per-sample level
    integrator with a pressed branch (attack, decay, sustain) and a released
    branch (release). Levels and times are real numbers; single-precision
    rounding is not modelled. */
module Envelope {

  /** Time advanced by one rendered sample, in seconds: one frame at the
      stream's `SAMPLE_RATE` of 44100 Hz. The literal is kept so that the
      solver sees the constant directly. */
  const Dt: real := 1.0 / 44100.0

  /** Attack, decay and release are durations in seconds; sustain is a level. */
  datatype Params = Params(attack: real, decay: real, sustain: real, release: real)

  /** Generator state: its parameters, the current level `out` and the time `t`
      elapsed in the current branch. */
  datatype Eg = Eg(p: Params, out: real, t: real)

  /** Parameters set by `audio_init`. */
  const DefaultParams: Params := Params(0.1, 0.0, 1.0, 0.1)

  /** The two-sided clamp applied after every branch. */
  function Clamp(x: real): (r: real)
    ensures 0.0 <= r <= 1.0
    ensures 0.0 <= x <= 1.0 ==> r == x
    ensures x > 1.0 ==> r == 1.0
    ensures x < 0.0 ==> r == 0.0
  {
    if x > 1.0 then 1.0 else if x < 0.0 then 0.0 else x
  }

  /** Lower clamp only; the level a falling ramp reaches. */
  function Floor0(x: real): real
  {
    if x < 0.0 then 0.0 else x
  }

  /** `eg_t::pressed`: one sample with the gate held. The requirement `t >= 0`
      holds in every reachable state (time starts at 0, is only reset to 0 and
      only grows), and it is what makes every division's divisor positive: the
      branch guards `t < attack` and `attack <= t < attack + decay` then force
      `attack > 0` and `decay > 0`. */
  function Pressed(e: Eg): (r: Eg)
    requires e.t >= 0.0
    ensures r.p == e.p
    ensures r.t == e.t + Dt
    ensures 0.0 <= r.out <= 1.0
    ensures e.p.decay >= 0.0 && e.t >= e.p.attack + e.p.decay ==> r.out == Clamp(e.p.sustain)
    ensures e.t < e.p.attack && 0.0 <= e.out <= 1.0 ==> e.out <= r.out
    ensures e.p.attack <= e.t < e.p.attack + e.p.decay && e.p.sustain <= 1.0 && 0.0 <= e.out <= 1.0
            ==> r.out <= e.out
  {
    var level :=
      if e.t < e.p.attack then
        e.out + (1.0 / e.p.attack) * Dt
      else if e.t < e.p.attack + e.p.decay then
        e.out - ((1.0 - e.p.sustain) / e.p.decay) * Dt
      else
        e.p.sustain;
    Eg(e.p, Clamp(level), e.t + Dt)
  }

  /** `eg_t::released`: one sample with the gate open. The slope is computed
      from `sustain`, not from the level actually held when the note stopped. */
  function Released(e: Eg): (r: Eg)
    requires e.t >= 0.0
    ensures r.p == e.p
    ensures r.t == e.t + Dt
    ensures 0.0 <= r.out <= 1.0
    ensures e.t >= e.p.release ==> r.out == 0.0
    ensures e.p.sustain >= 0.0 && 0.0 <= e.out <= 1.0 ==> r.out <= e.out
  {
    var level :=
      if e.t < e.p.release then
        e.out - (e.p.sustain / e.p.release) * Dt
      else
        0.0;
    Eg(e.p, Clamp(level), e.t + Dt)
  }

  /** `synth_t::envelope_factor`: the gate (`midi_enable`) selects the branch. */
  function Factor(gate: bool, e: Eg): (r: Eg)
    requires e.t >= 0.0
    ensures gate ==> r == Pressed(e)
    ensures !gate ==> r == Released(e)
  {
    if gate then Pressed(e) else Released(e)
  }

  /** `n` consecutive samples with a fixed gate. */
  function Run(e: Eg, gate: bool, n: nat): (r: Eg)
    requires e.t >= 0.0
    ensures r.p == e.p
    ensures r.t == e.t + n as real * Dt
    ensures n > 0 ==> 0.0 <= r.out <= 1.0
    ensures 0.0 <= e.out <= 1.0 ==> 0.0 <= r.out <= 1.0
    decreases n
  {
    if n == 0 then e else Factor(gate, Run(e, gate, n - 1))
  }

  /** The last of `n` samples is one generator step from the first `n - 1`. */
  lemma RunLast(e: Eg, gate: bool, n: nat)
    requires e.t >= 0.0 && n > 0
    ensures Run(e, gate, n) == Factor(gate, Run(e, gate, n - 1))
  {
  }

  lemma DivideBelowOne(x: real, a: real)
    requires 0.0 <= x <= a && a > 0.0
    ensures x / a <= 1.0
  {
  }

  lemma AddOverDivisor(x: real, d: real, a: real)
    requires a > 0.0
    ensures x / a + (1.0 / a) * d == (x + d) / a
  {
  }

  /** The amount one released sample subtracts while inside the release. */
  function ReleaseStepSize(p: Params): real
    requires p.release > 0.0
  {
    (p.sustain / p.release) * Dt
  }

  /** The per-sample fall of the decay branch. */
  function DecayStepSize(p: Params): real
    requires p.decay > 0.0
  {
    ((1.0 - p.sustain) / p.decay) * Dt
  }

  /** `k` repetitions of `step`, summed one at a time. */
  function Repeat(k: nat, step: real): real
  {
    if k == 0 then 0.0 else Repeat(k - 1, step) + step
  }

  lemma {:induction false} RepeatIsProduct(k: nat, step: real)
    ensures Repeat(k, step) == k as real * step
  {
    if k > 0 {
      RepeatIsProduct(k - 1, step);
    }
  }

  lemma {:induction false} RepeatNonNegative(k: nat, step: real)
    requires step >= 0.0
    ensures Repeat(k, step) >= 0.0
  {
    if k > 0 {
      RepeatNonNegative(k - 1, step);
    }
  }

  /** Clamping a floored ramp after one more falling step floors the ramp. */
  lemma FallingStep(x: real, step: real)
    requires x <= 1.0 && step >= 0.0
    ensures Clamp(Floor0(x) - step) == Floor0(x - step)
  {
  }

  /** `k` samples span `k · Dt` seconds, and the last of them starts before
      that time. */
  lemma SampleTimes(k: nat)
    requires k > 0
    ensures (k - 1) as real * Dt + Dt == k as real * Dt
  {
  }

  /** From silence at time 0, every sample of the attack adds the same step,
      so the level equals the elapsed time over the attack duration for as
      long as the attack lasts. */
  lemma {:induction false} AttackRamp(e: Eg, k: nat)
    requires e.out == 0.0 && e.t == 0.0 && e.p.attack > 0.0
    requires k as real * Dt <= e.p.attack
    ensures Run(e, true, k).out == Run(e, true, k).t / e.p.attack
  {
    if k > 0 {
      var a := e.p.attack;
      SampleTimes(k);
      AttackRamp(e, k - 1);
      var prev := Run(e, true, k - 1);
      assert prev.t < a;
      AddOverDivisor(prev.t, Dt, a);
      DivideBelowOne(prev.t + Dt, a);
    }
  }

  /** The per-sample rise of the attack branch. */
  function AttackStepSize(p: Params): real
    requires p.attack > 0.0
  {
    (1.0 / p.attack) * Dt
  }

  /** Upper clamp only; the level a rising ramp reaches. */
  function Ceil1(x: real): real
  {
    if x > 1.0 then 1.0 else x
  }

  /** Clamping a capped ramp after one more rising step caps the ramp. */
  lemma RisingStep(x: real, step: real)
    requires x >= 0.0 && step >= 0.0
    ensures Clamp(Ceil1(x) + step) == Ceil1(x + step)
  {
  }

  /** One pressed sample inside the attack adds one attack step. */
  lemma AttackStep(x: Eg)
    requires 0.0 <= x.t < x.p.attack
    ensures Pressed(x).out == Clamp(x.out + AttackStepSize(x.p))
  {
  }

  /** The `k`-th sample starts at or after `t0` and strictly before `t0 + k · Dt`. */
  lemma SampleWindow(t0: real, k: nat)
    requires k > 0
    ensures t0 <= t0 + (k - 1) as real * Dt < t0 + k as real * Dt
  {
    SampleTimes(k);
  }

  /** From time 0 the attack ramp rises by the same step every sample, from
      whatever level the voice carried over (a re-press during the release
      restarts the clock but keeps the level), and stops at 1: after `k`
      samples inside the attack the level is `out + k · step`, capped at 1,
      where the step is `1 / attack · Dt`. */
  lemma {:induction false} AttackRampFrom(e: Eg, k: nat)
    requires e.t == 0.0 && 0.0 <= e.out <= 1.0 && e.p.attack > 0.0
    requires k as real * Dt <= e.p.attack
    ensures Run(e, true, k).out == Ceil1(e.out + Repeat(k, AttackStepSize(e.p)))
  {
    if k > 0 {
      var step := AttackStepSize(e.p);
      SampleTimes(k);
      AttackRampFrom(e, k - 1);
      var prev := Run(e, true, k - 1);
      assert prev.t < e.p.attack;
      AttackStep(prev);
      RepeatNonNegative(k - 1, step);
      RisingStep(e.out + Repeat(k - 1, step), step);
    }
  }

  /** Once past `attack + decay`, every pressed sample yields the clamped
      sustain level. */
  lemma {:induction false} HoldsAtSustain(e: Eg, n: nat)
    requires e.t >= 0.0 && e.p.decay >= 0.0 && e.t >= e.p.attack + e.p.decay && n > 0
    ensures Run(e, true, n).out == Clamp(e.p.sustain)
  {
    if n > 1 {
      HoldsAtSustain(e, n - 1);
    }
    var prev := Run(e, true, n - 1);
    assert prev.t >= e.t;
  }

  /** From time 0 the release ramp falls by the same step every sample, from
      whatever level it starts at, and stops at 0: after `k` samples inside the
      release duration the level is `out - k · step`, floored at 0, where the
      step is `sustain / release · Dt`. */
  lemma {:induction false} ReleaseRamp(e: Eg, k: nat)
    requires e.t == 0.0 && 0.0 <= e.out <= 1.0
    requires e.p.sustain >= 0.0 && e.p.release > 0.0
    requires k as real * Dt <= e.p.release
    ensures Run(e, false, k).out == Floor0(e.out - Repeat(k, ReleaseStepSize(e.p)))
  {
    if k > 0 {
      var step := ReleaseStepSize(e.p);
      SampleTimes(k);
      ReleaseRamp(e, k - 1);
      var prev := Run(e, false, k - 1);
      assert prev.t < e.p.release;
      RepeatNonNegative(k - 1, step);
      FallingStep(e.out - Repeat(k - 1, step), step);
    }
  }

  /** Inside the decay the ramp falls by the same step every sample, from
      whatever level the attack reached, and stops at 0: after `k` samples
      that all start inside the decay the level is `out - k · step`, floored
      at 0, where the step is `(1 - sustain) / decay · Dt`. The ramp may begin
      at any time past the attack's end, such as the first sample after an
      attack that is not a whole number of samples long. */
  lemma {:induction false} DecayRamp(e: Eg, k: nat)
    requires e.t >= 0.0 && e.p.attack <= e.t && 0.0 <= e.out <= 1.0
    requires 0.0 <= e.p.sustain <= 1.0 && e.p.decay > 0.0
    requires e.t + k as real * Dt <= e.p.attack + e.p.decay
    ensures Run(e, true, k).out == Floor0(e.out - Repeat(k, DecayStepSize(e.p)))
  {
    if k > 0 {
      SampleWindow(e.t, k);
      DecayRamp(e, k - 1);
      DecayWindow(e, k);
      DecayNext(e, k);
    }
  }

  /** The inductive step of the decay ramp: one more sample that starts
      inside the decay takes one more step off the floored ramp. */
  lemma DecayNext(e: Eg, k: nat)
    requires e.t >= 0.0 && 0.0 <= e.out <= 1.0
    requires 0.0 <= e.p.sustain <= 1.0 && e.p.decay > 0.0 && k > 0
    requires e.p.attack <= Run(e, true, k - 1).t < e.p.attack + e.p.decay
    requires Run(e, true, k - 1).out == Floor0(e.out - Repeat(k - 1, DecayStepSize(e.p)))
    ensures Run(e, true, k).out == Floor0(e.out - Repeat(k, DecayStepSize(e.p)))
  {
    var step := DecayStepSize(e.p);
    var prev := Run(e, true, k - 1);
    var before := e.out - Repeat(k - 1, step);
    assert Pressed(prev).out == Floor0(before - step) by {
      DecayStepNonNegative(e.p);
      RepeatNonNegative(k - 1, step);
      DecayFallStep(prev, before);
    }
    assert before - step == e.out - Repeat(k, step);
  }

  /** The last of `k` samples that end inside the decay starts inside it. */
  lemma DecayWindow(e: Eg, k: nat)
    requires e.t >= 0.0 && e.p.attack <= e.t
    requires k > 0 && e.t + k as real * Dt <= e.p.attack + e.p.decay
    ensures e.p.attack <= Run(e, true, k - 1).t < e.p.attack + e.p.decay
  {
    SampleWindow(e.t, k);
  }

  /** With a sustain at most 1, the decay never raises the level. */
  lemma DecayStepNonNegative(p: Params)
    requires p.decay > 0.0 && p.sustain <= 1.0
    ensures DecayStepSize(p) >= 0.0
  {
    var slope := (1.0 - p.sustain) / p.decay;
    assert slope >= 0.0;
  }

  /** One pressed sample inside the decay moves a floored ramp one step on. */
  lemma DecayFallStep(x: Eg, before: real)
    requires x.t >= 0.0 && x.p.decay > 0.0 && x.p.attack <= x.t < x.p.attack + x.p.decay
    requires x.p.sustain <= 1.0 && before <= 1.0 && x.out == Floor0(before)
    ensures Pressed(x).out == Floor0(before - DecayStepSize(x.p))
  {
    DecayStep(x);
    DecayStepNonNegative(x.p);
    FallingStep(before, DecayStepSize(x.p));
  }

  /** One pressed sample inside the decay subtracts one decay step. */
  lemma DecayStep(x: Eg)
    requires x.t >= 0.0 && x.p.decay > 0.0 && x.p.attack <= x.t < x.p.attack + x.p.decay
    ensures Pressed(x).out == Clamp(x.out - DecayStepSize(x.p))
  {
  }

  /** Once past `release`, every released sample yields 0. */
  lemma {:induction false} SilentAfterRelease(e: Eg, n: nat)
    requires e.t >= 0.0 && e.t >= e.p.release && n > 0
    ensures Run(e, false, n).out == 0.0
  {
    if n > 1 {
      SilentAfterRelease(e, n - 1);
    }
    var prev := Run(e, false, n - 1);
    assert prev.t >= e.t;
  }

  /** With the parameters of `audio_init`, a note started from silence reaches
      full level after exactly `attack · SAMPLE_RATE` = 4410 samples and then
      holds there for as long as the gate stays set. */
  lemma DefaultAttackReachesFull(n: nat)
    requires n > 0
    ensures Run(Eg(DefaultParams, 0.0, 0.0), true, 4410).out == 1.0
    ensures Run(Run(Eg(DefaultParams, 0.0, 0.0), true, 4410), true, n).out == 1.0
  {
    var e := Eg(DefaultParams, 0.0, 0.0);
    AttackRamp(e, 4410);
    var full := Run(e, true, 4410);
    assert full.t == 4410 as real * Dt;
    HoldsAtSustain(full, n);
  }

  /** With the parameters of `audio_init`, a note released from the sustain
      level falls to 0 after exactly `release · SAMPLE_RATE` = 4410 samples and
      stays silent afterwards. */
  lemma DefaultReleaseReachesZero(n: nat)
    requires n > 0
    ensures Run(Eg(DefaultParams, 1.0, 0.0), false, 4410).out == 0.0
    ensures Run(Run(Eg(DefaultParams, 1.0, 0.0), false, 4410), false, n).out == 0.0
  {
    var e := Eg(DefaultParams, 1.0, 0.0);
    var step := ReleaseStepSize(DefaultParams);
    assert step == 10.0 / 44100.0;
    RepeatIsProduct(4410, step);
    assert Repeat(4410, step) == 1.0;
    ReleaseRamp(e, 4410);
    var silent := Run(e, false, 4410);
    assert silent.out == 0.0;
    assert silent.t == 4410 as real * Dt;
    SilentAfterRelease(silent, n);
  }
}
