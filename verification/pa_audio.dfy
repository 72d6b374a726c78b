/** The push-mode voice of `src/pa_audio.cpp`: the command type, the synth
    state the render callback owns, the application of one dequeued command,
    and the per-frame render loop over the 4096-entry wavetable.

    The lock-free ring buffer is modelled as a bounded FIFO sequence; the
    one-pole filter is a parameter (`VcfProcess`) because its arithmetic is
    floating point; the phase increment is a parameter because it comes from
    the floating-point `midi_to_freq`. */
module PaAudio {
  import Envelope

  /** Entries of each wavetable (`OSC_TABLE_SIZE`). */
  const TableSize: int := 4096

  /** Capacity of the command ring buffer set up by `audio_init`. */
  const QueueCapacity: int := 1024

  /** `synth_command_t`: the note number or controller value travels in `value`;
      a stop carries none. */
  datatype Command = Start(note: int) | Stop | Control(value: int)

  /** The render-owned part of `synth_t`: gate (`midi_enable`), pitch
      (`midi_no`), wavetable phase, filter cutoff and history, and the envelope. */
  datatype Synth = Synth(
    midiEnable: bool,
    midiNo: int,
    phase: int,
    cutoff: real,
    eg: Envelope.Eg,
    vcfOut: real)

  /** `vcf_t::process`: given cutoff, previous output and input, the new output. */
  type VcfProcess = (real, real, real) -> real

  /** What every reachable state satisfies: the phase indexes the table, the
      envelope time is not negative and the level lies in [0, 1]. */
  predicate Valid(s: Synth)
  {
    && 0 <= s.phase < TableSize
    && s.eg.t >= 0.0
    && 0.0 <= s.eg.out <= 1.0
  }

  /** The state `audio_init` leaves behind: note 69 gated on, the envelope
      parameters 0.1 / 0 / 1 / 0.1, cutoff 500 Hz; everything else is zero
      because the synth lives in static storage. */
  function Init(): (s: Synth)
    ensures Valid(s)
    ensures s.midiEnable && s.midiNo == 69 && s.cutoff == 500.0
    ensures s.eg.p == Envelope.DefaultParams && s.eg.out == 0.0 && s.eg.t == 0.0
    ensures s.phase == 0 && s.vcfOut == 0.0
  {
    Synth(true, 69, 0, 500.0, Envelope.Eg(Envelope.DefaultParams, 0.0, 0.0), 0.0)
  }

  /** The controller-to-cutoff map: 0..127 spread linearly over 100..5100 Hz. */
  function CutoffOf(value: int): (c: real)
    ensures 0 <= value <= 127 ==> 100.0 <= c <= 5100.0
    ensures value == 0 ==> c == 100.0
    ensures value == 127 ==> c == 5100.0
  {
    100.0 + (value as real / 127.0) * 5000.0
  }

  /** A larger controller value never lowers the cutoff. */
  lemma CutoffMonotone(v: int, w: int)
    requires v <= w
    ensures CutoffOf(v) <= CutoffOf(w)
  {
  }

  /** Applying one dequeued command before rendering. */
  function Apply(s: Synth, c: Command): (r: Synth)
    ensures Valid(s) ==> Valid(r)
    ensures r.phase == s.phase && r.vcfOut == s.vcfOut
    ensures r.eg.p == s.eg.p && r.eg.out == s.eg.out
    // a start gates the voice on, takes the pitch, and restarts the envelope
    // clock only when the voice was not already sounding (legato keeps it)
    ensures c.Start? ==> r.midiEnable && r.midiNo == c.note && r.cutoff == s.cutoff
    ensures c.Start? ==> r.eg.t == (if s.midiEnable then s.eg.t else 0.0)
    // a stop gates the voice off and restarts the envelope clock; pitch and
    // cutoff are kept
    ensures c.Stop? ==> !r.midiEnable && r.eg.t == 0.0 && r.midiNo == s.midiNo && r.cutoff == s.cutoff
    // a controller change touches the cutoff and nothing else
    ensures c.Control? ==> r.(cutoff := s.cutoff) == s && r.cutoff == CutoffOf(c.value)
  {
    match c
    case Start(note) =>
      var t := if !s.midiEnable then 0.0 else s.eg.t;
      s.(midiEnable := true, midiNo := note, eg := s.eg.(t := t))
    case Stop =>
      s.(midiEnable := false, eg := s.eg.(t := 0.0))
    case Control(value) =>
      s.(cutoff := CutoffOf(value))
  }

  /** A start on a sounding voice only retunes it: the envelope is exactly as
      it was, so the note glides on without re-attacking. */
  lemma LegatoKeepsEnvelope(s: Synth, note: int)
    requires s.midiEnable
    ensures Apply(s, Start(note)).eg == s.eg
    ensures Apply(s, Start(note)) == s.(midiNo := note)
  {
  }

  /** A start after a stop is a fresh note: the envelope clock restarts and
      only the level carries over. */
  lemma FreshNoteRestartsEnvelope(s: Synth, note: int)
    ensures Apply(Apply(s, Stop), Start(note)).eg == s.eg.(t := 0.0)
    ensures Apply(Apply(s, Stop), Start(note)).midiEnable
  {
  }

  /** The producer side: `audio_send_control`, `audio_start_midi` and
      `audio_stop_midi` write one command; a full buffer drops it. */
  function Send(q: seq<Command>, c: Command): (r: seq<Command>)
    ensures |q| < QueueCapacity ==> r == q + [c]
    ensures |q| >= QueueCapacity ==> r == q
    ensures |q| <= QueueCapacity ==> |r| <= QueueCapacity
  {
    if |q| < QueueCapacity then q + [c] else q
  }

  /** Sending a whole sequence, one command after the other. */
  function SendAll(q: seq<Command>, cs: seq<Command>): (r: seq<Command>)
    decreases |cs|
  {
    if |cs| == 0 then q else SendAll(Send(q, cs[0]), cs[1..])
  }

  /** The callback's read: at most one command leaves the queue per block, the
      oldest; with none pending, state and queue are untouched. */
  function Dequeue(s: Synth, q: seq<Command>): (r: (Synth, seq<Command>))
    ensures |q| == 0 ==> r == (s, q)
    ensures |q| > 0 ==> r.1 == q[1..] && r.0 == Apply(s, q[0])
    ensures Valid(s) ==> Valid(r.0)
  {
    if |q| == 0 then (s, q) else (Apply(s, q[0]), q[1..])
  }

  /** FIFO: whatever fits is queued after what was pending, in sending order,
      and what does not fit is dropped. */
  lemma {:induction false} SendAllKeepsOrder(q: seq<Command>, cs: seq<Command>)
    requires |q| + |cs| <= QueueCapacity
    ensures SendAll(q, cs) == q + cs
    decreases |cs|
  {
    if |cs| > 0 {
      SendAllKeepsOrder(q + [cs[0]], cs[1..]);
      assert q + [cs[0]] + cs[1..] == q + cs;
    }
  }

  /** A full buffer keeps its contents exactly: every further send is dropped. */
  lemma {:induction false} FullQueueDropsAll(q: seq<Command>, cs: seq<Command>)
    requires |q| >= QueueCapacity
    ensures SendAll(q, cs) == q
    decreases |cs|
  {
    if |cs| > 0 {
      FullQueueDropsAll(q, cs[1..]);
    }
  }

  /** Successive blocks dequeue the sent commands one at a time, oldest first. */
  lemma DequeueTakesOldest(s: Synth, q: seq<Command>, cs: seq<Command>)
    requires |q| + |cs| <= QueueCapacity && |q| + |cs| > 0
    ensures Dequeue(s, SendAll(q, cs)).1 == (q + cs)[1..]
    ensures Dequeue(s, SendAll(q, cs)).0 == Apply(s, (q + cs)[0])
  {
    SendAllKeepsOrder(q, cs);
  }

  /** The phase after one more frame: add the increment, wrap at the table. */
  function Advance(phase: int, inc: nat): (r: int)
    requires 0 <= phase
    ensures 0 <= r < TableSize
  {
    (phase + inc) % TableSize
  }

  /** Wrapping before or after adding the increment lands on the same entry. */
  lemma ModAddLeft(a: int, b: int)
    requires a >= 0 && b >= 0
    ensures (a % TableSize + b) % TableSize == (a + b) % TableSize
  {
    assert a == (a / TableSize) * TableSize + a % TableSize;
    ShiftByTable(a % TableSize + b, a / TableSize);
  }

  /** Adding whole turns of the table does not move the wrapped phase. */
  lemma ShiftByTable(x: int, q: int)
    requires x >= 0 && q >= 0
    ensures (x + q * TableSize) % TableSize == x % TableSize
  {
  }

  /** The oscillator's table entry scaled by the envelope level. */
  function Scale(entry: real, level: real): real
  {
    entry * level
  }

  /** One frame of the callback's loop: read the triangle table at the phase,
      scale by the envelope, filter, and advance the phase. The filter output
      is the sample written to both channels. */
  function Frame(s: Synth, inc: nat, table: seq<real>, vcf: VcfProcess): (r: (Synth, real))
    requires Valid(s) && |table| == TableSize
    ensures Valid(r.0)
    ensures r.0.phase == (s.phase + inc) % TableSize
    ensures r.0.eg == Envelope.Factor(s.midiEnable, s.eg)
    ensures r.0.midiEnable == s.midiEnable && r.0.midiNo == s.midiNo && r.0.cutoff == s.cutoff
    // the filter is fed the table entry at the phase before it advances,
    // scaled by the level after this sample's envelope step
    ensures r.1 == r.0.vcfOut
    ensures r.1 == vcf(s.cutoff, s.vcfOut, Scale(table[s.phase], Envelope.Factor(s.midiEnable, s.eg).out))
  {
    var eg := Envelope.Factor(s.midiEnable, s.eg);
    var x := Scale(table[s.phase], eg.out);
    var y := vcf(s.cutoff, s.vcfOut, x);
    (s.(phase := Advance(s.phase, inc), eg := eg, vcfOut := y), y)
  }

  /** The state after `n` frames. */
  function Frames(s: Synth, n: nat, inc: nat, table: seq<real>, vcf: VcfProcess): (r: Synth)
    requires Valid(s) && |table| == TableSize
    ensures Valid(r)
    ensures r.midiEnable == s.midiEnable && r.midiNo == s.midiNo && r.cutoff == s.cutoff
    decreases n
  {
    if n == 0 then s else Frame(Frames(s, n - 1, inc, table, vcf), inc, table, vcf).0
  }

  /** The sample the frame after `i` frames writes. */
  function SampleAt(s: Synth, i: nat, inc: nat, table: seq<real>, vcf: VcfProcess): real
    requires Valid(s) && |table| == TableSize
  {
    Frame(Frames(s, i, inc, table, vcf), inc, table, vcf).1
  }

  /** The callback's render loop: `frames` frames, each writing its sample
      to the left and the right channel, so `2 · frames` values in all. The
      state is that of `frames` frames (see `FramesPhase` for the phase), the
      envelope has taken `frames` steps of the branch the gate selects, and
      gate, pitch and cutoff are unchanged. */
  method Render(s: Synth, frames: nat, inc: nat, table: seq<real>, vcf: VcfProcess)
    returns (out: seq<real>, s': Synth)
    requires Valid(s) && |table| == TableSize
    ensures Valid(s')
    ensures s' == Frames(s, frames, inc, table, vcf)
    ensures |out| == 2 * frames
    ensures forall i :: 0 <= i < frames ==> out[2 * i] == out[2 * i + 1]
    ensures forall i :: 0 <= i < frames ==> out[2 * i] == SampleAt(s, i, inc, table, vcf)
    ensures s'.eg == Envelope.Run(s.eg, s.midiEnable, frames)
    ensures s'.midiEnable == s.midiEnable && s'.midiNo == s.midiNo && s'.cutoff == s.cutoff
  {
    out := [];
    s' := s;
    var i := 0;
    while i < frames
      invariant 0 <= i <= frames
      invariant Valid(s')
      invariant s' == Frames(s, i, inc, table, vcf)
      invariant |out| == 2 * i
      invariant forall j :: 0 <= j < i ==> out[2 * j] == out[2 * j + 1]
      invariant forall j :: 0 <= j < i ==> out[2 * j] == SampleAt(s, j, inc, table, vcf)
      invariant s'.eg == Envelope.Run(s.eg, s.midiEnable, i)
    {
      var next := Frame(s', inc, table, vcf);
      var out' := out + [next.1, next.1];
      assert forall j :: 0 <= j < 2 * i ==> out'[j] == out[j];
      assert out'[2 * i] == next.1 && out'[2 * i + 1] == next.1;
      out := out';
      s' := next.0;
      i := i + 1;
    }
  }

  /** After `n` frames the phase has moved `n · inc` steps round the table. */
  lemma {:induction false} FramesPhase(s: Synth, n: nat, inc: nat, table: seq<real>, vcf: VcfProcess)
    requires Valid(s) && |table| == TableSize
    ensures Frames(s, n, inc, table, vcf).phase == (s.phase + n * inc) % TableSize
    decreases n
  {
    if n > 0 {
      FramesPhase(s, n - 1, inc, table, vcf);
      ModAddLeft(s.phase + (n - 1) * inc, inc);
      OneMoreFrame(n, inc);
    }
  }

  /** `n` frames of `inc` steps are `n - 1` frames and one more. */
  lemma OneMoreFrame(n: nat, inc: nat)
    requires n > 0
    ensures (n - 1) * inc + inc == n * inc
  {
  }

  /** The whole callback: dequeue at most one command, then render at the
      per-sample phase increment of the pitch the state now holds (`incOf`,
      standing for the truncated `(int)(midi_to_freq(midi_no) *
      OSC_TABLE_SIZE / SAMPLE_RATE)`). With nothing queued, gate, pitch, envelope clock and
      cutoff enter the render loop exactly as they were; otherwise the render
      starts from the state after applying the oldest command. */
  method Callback(s: Synth, q: seq<Command>, frames: nat, incOf: int -> nat, table: seq<real>, vcf: VcfProcess)
    returns (out: seq<real>, s': Synth, q': seq<Command>)
    requires Valid(s) && |table| == TableSize
    ensures Valid(s')
    ensures |q| > 0 ==> q' == q[1..]
    ensures |q| == 0 ==> q' == q
    ensures s' == Frames(Dequeue(s, q).0, frames, incOf(Dequeue(s, q).0.midiNo), table, vcf)
    ensures |out| == 2 * frames
    ensures forall i :: 0 <= i < frames ==>
              var x := SampleAt(Dequeue(s, q).0, i, incOf(Dequeue(s, q).0.midiNo), table, vcf);
              out[2 * i] == x && out[2 * i + 1] == x
    ensures |q| == 0 ==> s'.eg == Envelope.Run(s.eg, s.midiEnable, frames)
    ensures |q| == 0 ==> s'.midiEnable == s.midiEnable && s'.midiNo == s.midiNo && s'.cutoff == s.cutoff
    ensures |q| > 0 ==> s'.eg == Envelope.Run(Apply(s, q[0]).eg, Apply(s, q[0]).midiEnable, frames)
    ensures |q| > 0 && q[0].Start? ==> s'.midiEnable && s'.midiNo == q[0].note && s'.cutoff == s.cutoff
    ensures |q| > 0 && q[0].Stop? ==> !s'.midiEnable && s'.midiNo == s.midiNo && s'.cutoff == s.cutoff
    ensures |q| > 0 && q[0].Control? ==> s'.midiEnable == s.midiEnable && s'.midiNo == s.midiNo
                                         && s'.cutoff == CutoffOf(q[0].value)
  {
    var d := Dequeue(s, q);
    q' := d.1;
    out, s' := Render(d.0, frames, incOf(d.0.midiNo), table, vcf);
  }

  /** Over any whole number of table lengths of frames (4096, 8192, ...) the
      oscillator comes back to the phase it started from, whatever the
      increment: it is periodic in the table length. */
  lemma PhaseReturnsAfterTableLength(s: Synth, k: nat, inc: nat, table: seq<real>, vcf: VcfProcess)
    requires Valid(s) && |table| == TableSize
    ensures Frames(s, k * TableSize, inc, table, vcf).phase == s.phase
  {
    var n := k * TableSize;
    var m := k * inc;
    FramesPhase(s, n, inc, table, vcf);
    TurnsCommute(k, inc);
    WholeTurns(s.phase, m);
  }

  /** `k` table lengths of `inc` steps are `k · inc` whole turns. */
  lemma TurnsCommute(k: nat, inc: nat)
    ensures (k * TableSize) * inc == TableSize * (k * inc)
  {
  }

  /** `inc` whole turns of the table bring an index back to itself. */
  lemma WholeTurns(p: int, inc: nat)
    requires 0 <= p < TableSize
    ensures (p + TableSize * inc) % TableSize == p
  {
    ShiftByTable(p, inc);
    assert (p + inc * TableSize) % TableSize == p;
  }
}
