/** The control-event translation of `loop` in `src/main.cpp`: the number key
    becomes a note with change detection, and one MIDI message at most is read
    and decoded into a synth command, with a pressed-note counter deciding when
    to stop. The status byte is split as in the Channel Voice Messages of the
    MIDI 1.0 Detailed Specification: Note Off is 8nH and Note On is 9nH, with
    the channel n in the low nibble. Velocity is read but never used. */
module MainLoop {
  import opened Wrappers
  import opened PaAudio

  /** The two statics of `loop`. */
  datatype Translator = Translator(lastMidi: int, pressedNoteCount: int)

  /** Their initial values: the A above middle C, nothing pressed. */
  function Init(): (t: Translator)
    ensures t.lastMidi == 69 && t.pressedNoteCount == 0
    ensures Keyboard(t, 0).1 == None
  {
    Translator(69, 0)
  }

  /** A MIDI message as `Pm_Read` delivers it: status byte and two data bytes. */
  datatype MidiEvent = MidiEvent(status: bv8, data1: bv8, data2: bv8)

  /** The note the number keys select: `hardware_number() + 69`. */
  function KeyboardNote(number: int): (note: int)
    requires 0 <= number <= 10
    ensures 69 <= note <= 79
    ensures note - 69 == number
  {
    number + 69
  }

  /** The keyboard half of `loop`: a command only when the note differs from
      the last one; note 69 (no number key) stops, any other note starts. The
      new note is remembered either way. */
  function Keyboard(t: Translator, number: int): (r: (Translator, Option<Command>))
    requires 0 <= number <= 10
    ensures r.0.lastMidi == number + 69
    ensures r.0.pressedNoteCount == t.pressedNoteCount
    ensures r.1.Some? <==> number + 69 != t.lastMidi
    ensures r.1 == Some(Stop) <==> number == 0 && t.lastMidi != 69
    ensures r.1.Some? && number != 0 ==> r.1 == Some(Start(number + 69))
  {
    var midi := KeyboardNote(number);
    if midi != t.lastMidi then
      var cmd := if midi == 69 then Stop else Start(midi);
      (t.(lastMidi := midi), Some(cmd))
    else
      (t, None)
  }

  /** Holding the same number key, frame after frame, sends nothing after the
      first frame. */
  lemma RepeatedNumberIsSilent(t: Translator, number: int)
    requires 0 <= number <= 10
    ensures Keyboard(Keyboard(t, number).0, number).1 == None
    ensures Keyboard(Keyboard(t, number).0, number).0 == Keyboard(t, number).0
  {
  }

  /** The status byte split into message nibble and channel nibble. */
  function Decode(status: bv8): (r: (bv8, bv8))
    ensures r.0 | r.1 == status
    ensures r.0 & 0x0F == 0 && r.1 & 0xF0 == 0
    ensures r.1 as int < 16
    ensures r.0 as int == status as int - status as int % 16
  {
    (status & 0xF0, status & 0x0F)
  }

  /** The MIDI half of `loop`, given what `Pm_Read` returned. Note On counts up
      and starts the note in data byte 1, whatever the velocity; Note Off counts
      down and stops only when the count reaches zero; every other message is
      ignored. */
  function Midi(t: Translator, ev: Option<MidiEvent>): (r: (Translator, Option<Command>))
    ensures r.0.lastMidi == t.lastMidi
    ensures ev.None? ==> r == (t, None)
    ensures ev.Some? && Decode(ev.value.status).0 == 0x90 ==>
              r.0.pressedNoteCount == t.pressedNoteCount + 1 && r.1 == Some(Start(ev.value.data1 as int))
    ensures ev.Some? && Decode(ev.value.status).0 == 0x80 ==>
              r.0.pressedNoteCount == t.pressedNoteCount - 1
              && (r.1 == Some(Stop) <==> t.pressedNoteCount == 1)
              && (r.1.Some? ==> r.1 == Some(Stop))
    ensures ev.Some? && Decode(ev.value.status).0 != 0x90 && Decode(ev.value.status).0 != 0x80 ==>
              r == (t, None)
  {
    match ev
    case None => (t, None)
    case Some(e) =>
      var cmd := Decode(e.status).0;
      if cmd == 0x90 then
        (t.(pressedNoteCount := t.pressedNoteCount + 1), Some(Start(e.data1 as int)))
      else if cmd == 0x80 then
        var count := t.pressedNoteCount - 1;
        (t.(pressedNoteCount := count), if count == 0 then Some(Stop) else None)
      else
        (t, None)
  }

  /** A Note On with velocity zero still starts the note: the velocity byte
      plays no part. */
  lemma VelocityIgnored(t: Translator, status: bv8, data1: bv8, v: bv8, w: bv8)
    ensures Midi(t, Some(MidiEvent(status, data1, v))) == Midi(t, Some(MidiEvent(status, data1, w)))
  {
  }

  /** The message kind alone decides the outcome; the channel nibble is
      ignored, so every channel drives the synth. */
  lemma ChannelIgnored(t: Translator, s1: bv8, s2: bv8, data1: bv8, data2: bv8)
    requires Decode(s1).0 == Decode(s2).0
    ensures Midi(t, Some(MidiEvent(s1, data1, data2))) == Midi(t, Some(MidiEvent(s2, data1, data2)))
  {
  }

  function IsNoteOn(e: MidiEvent): bool
  {
    Decode(e.status).0 == 0x90
  }

  function IsNoteOff(e: MidiEvent): bool
  {
    Decode(e.status).0 == 0x80
  }

  /** Note On messages minus Note Off messages in a history. */
  function Balance(evs: seq<MidiEvent>): int
    decreases |evs|
  {
    if |evs| == 0 then 0
    else Balance(evs[..|evs| - 1])
         + (if IsNoteOn(evs[|evs| - 1]) then 1 else 0)
         - (if IsNoteOff(evs[|evs| - 1]) then 1 else 0)
  }

  /** Feeding a history of messages, one per loop. */
  function MidiRun(t: Translator, evs: seq<MidiEvent>): (r: (Translator, seq<Command>))
    decreases |evs|
  {
    if |evs| == 0 then (t, [])
    else
      var prev := MidiRun(t, evs[..|evs| - 1]);
      var step := Midi(prev.0, Some(evs[|evs| - 1]));
      (step.0, prev.1 + (if step.1.Some? then [step.1.value] else []))
  }

  /** The counter is the number of Note On messages minus the number of Note
      Off messages seen since it started. It is never clamped: a Note Off with
      nothing pressed drives it below zero. */
  lemma {:induction false} CountIsBalance(t: Translator, evs: seq<MidiEvent>)
    ensures MidiRun(t, evs).0.pressedNoteCount == t.pressedNoteCount + Balance(evs)
    ensures MidiRun(t, evs).0.lastMidi == t.lastMidi
    decreases |evs|
  {
    if |evs| > 0 {
      CountIsBalance(t, evs[..|evs| - 1]);
    }
  }

  /** A stop is emitted by a Note Off exactly when the counter returns to
      zero: from a fresh counter, pressing two keys and releasing both stops
      the voice once, at the second release. */
  lemma TwoKeysStopOnce(t: Translator, a: bv8, b: bv8, v: bv8)
    requires t.pressedNoteCount == 0
    ensures
      var on1 := MidiEvent(0x90, a, v);
      var on2 := MidiEvent(0x90, b, v);
      var off1 := MidiEvent(0x80, a, 0);
      var off2 := MidiEvent(0x80, b, 0);
      MidiRun(t, [on1, on2, off1, off2]).1 == [Start(a as int), Start(b as int), Stop]
  {
    var on1 := MidiEvent(0x90, a, v);
    var on2 := MidiEvent(0x90, b, v);
    var off1 := MidiEvent(0x80, a, 0);
    var off2 := MidiEvent(0x80, b, 0);
    assert Decode(0x90).0 == 0x90 && Decode(0x80).0 == 0x80;
    assert [on1][..0] == [];
    assert MidiRun(t, [on1][..0]) == (t, []);
    var r1 := MidiRun(t, [on1]);
    assert r1.0.pressedNoteCount == 1 && r1.1 == [Start(a as int)];
    assert [on1, on2][..1] == [on1];
    var r2 := MidiRun(t, [on1, on2]);
    assert r2.0.pressedNoteCount == 2 && r2.1 == [Start(a as int), Start(b as int)];
    assert [on1, on2, off1][..2] == [on1, on2];
    var r3 := MidiRun(t, [on1, on2, off1]);
    assert r3.0.pressedNoteCount == 1 && r3.1 == [Start(a as int), Start(b as int)];
    assert [on1, on2, off1, off2][..3] == [on1, on2, off1];
  }

  /** Because the counter is never clamped, a Note Off that arrives before
      any Note On (a key held while the program started) leaves it at -1;
      a later press and release then brings it back to -1, not 0, so the
      note is started and never stopped by MIDI. */
  lemma StrayNoteOffSuppressesStop(a: bv8, b: bv8, v: bv8)
    ensures
      var stray := MidiEvent(0x80, a, 0);
      var on := MidiEvent(0x90, b, v);
      var off := MidiEvent(0x80, b, 0);
      && MidiRun(Init(), [stray, on, off]).1 == [Start(b as int)]
      && MidiRun(Init(), [stray, on, off]).0.pressedNoteCount == -1
  {
    var stray := MidiEvent(0x80, a, 0);
    var on := MidiEvent(0x90, b, v);
    var off := MidiEvent(0x80, b, 0);
    assert Decode(0x90).0 == 0x90 && Decode(0x80).0 == 0x80;
    assert [stray][..0] == [];
    assert MidiRun(Init(), [stray][..0]) == (Init(), []);
    var r1 := MidiRun(Init(), [stray]);
    assert r1.0.pressedNoteCount == -1 && r1.1 == [];
    assert [stray, on][..1] == [stray];
    var r2 := MidiRun(Init(), [stray, on]);
    assert r2.0.pressedNoteCount == 0 && r2.1 == [Start(b as int)];
    assert [stray, on, off][..2] == [stray, on];
  }

  /** What one `loop` does, in order. */
  datatype Effect = Emit(cmd: Command) | AudioTick | Render

  /** One `loop`: the keyboard command first, then the MIDI command, then the
      audio tick and the frame's rendering. */
  function Loop(t: Translator, number: int, ev: Option<MidiEvent>): (r: (Translator, seq<Effect>))
    requires 0 <= number <= 10
    ensures |r.1| >= 2 && r.1[|r.1| - 2..] == [AudioTick, Render]
    ensures |r.1| <= 4
    ensures forall i :: 0 <= i < |r.1| - 2 ==> r.1[i].Emit?
    ensures |r.1| == 2 + (if Keyboard(t, number).1.Some? then 1 else 0)
                        + (if Midi(Keyboard(t, number).0, ev).1.Some? then 1 else 0)
    // the keyboard's command comes first, the MIDI command right after it
    ensures Keyboard(t, number).1.Some? ==> r.1[0] == Emit(Keyboard(t, number).1.value)
    ensures Midi(Keyboard(t, number).0, ev).1.Some? ==>
              r.1[|r.1| - 3] == Emit(Midi(Keyboard(t, number).0, ev).1.value)
    ensures r.0 == Midi(Keyboard(t, number).0, ev).0
  {
    var kb := Keyboard(t, number);
    var mi := Midi(kb.0, ev);
    var emitted := (if kb.1.Some? then [Emit(kb.1.value)] else [])
                   + (if mi.1.Some? then [Emit(mi.1.value)] else []);
    (mi.0, emitted + [AudioTick, Render])
  }

  /** The keyboard and the MIDI halves work on separate statics: neither one
      disturbs the other's state. */
  lemma HalvesAreIndependent(t: Translator, number: int, ev: Option<MidiEvent>)
    requires 0 <= number <= 10
    ensures Loop(t, number, ev).0.lastMidi == Keyboard(t, number).0.lastMidi
    ensures Loop(t, number, ev).0.pressedNoteCount == Midi(t, ev).0.pressedNoteCount
  {
  }
}
