# meowsynth core in Dafny

This project models the discrete cores of meowsynth, a small monophonic synth. The audio, MIDI and windowing plumbing around them is left out. Each core is written as immutable state plus pure step functions, and each comes with proofs about them:

- **Voice** (`src/pa_audio.cpp`; modules `Envelope`, `PaAudio`).
  - A synth command is applied to the render-owned synth state. This covers the gate (`midi_enable`), the pitch (`midi_no`), the envelope clock (`eg.t`) and the filter cutoff.
  - The envelope generator has a pressed and a released branch, each followed by the clamp, and `envelope_factor` chooses between them. Levels and times are `real`.
  - The render callback dequeues at most one command, then renders frames. The integer phase walks the 4096-entry wavetable, and each sample is written to both channels.
  - The producers push commands into a 1024-entry FIFO, and commands that do not fit are dropped.
- **Pull-mode buffer scheduler** (`src/openal_audio.cpp`; module `OpenAlAudio`). It covers `fill_and_queue_next_buffer` and `audio_tick`, working over an abstract source record (playing flag and queued buffer names) and the answer of the finished-buffer query. It also counts rendered blocks and logged underruns.
- **Control-event translation** (`src/main.cpp`; module `MainLoop`).
  - The number key becomes a note from 69 to 79, with change detection.
  - The MIDI status byte is split into message and channel nibbles. Following the Channel Voice Messages of the MIDI 1.0 Detailed Specification, Note Off is 8nH and Note On is 9nH.
  - A pressed-note counter decides when a stop is sent.
  - One `loop` performs its effects in a fixed order.
- **Input layer** (`src/platform/desktop.cpp`, `src/platform/web.cpp`; modules `Hardware`, `Desktop`, `Web`).
  - `Hardware` holds the 64-slot pending-event list with its per-frame reset and its report, plus `hardware_number` and the two axes. The two platform files carry identical copies of this code, and it is defined once here.
  - `Desktop` models the callback-driven frame.
  - `Web` models the polled frame with rising-edge detectors and the cached mouse state.
  - Which keys are down is an input, given as a set of keys.
- **`array_swap_last`** (`src/state.hpp`; module `ArrayState`). It is modelled both as a sequence function and as an in-place array method.

Calls into code the model cannot see are abstracted as follows:
- The one-pole filter (`VcfProcess`) and the triangle table are parameters. The phase increment is a parameter of the render loop, and the callback takes it as a function of the pitch (`incOf`, standing for the truncated per-sample increment `(int)(midi_to_freq(midi_no) * OSC_TABLE_SIZE / SAMPLE_RATE)` of src/pa_audio.cpp:181 and 189).
- OpenAL's answer to the source-state query is the playing flag of the source record. Its answer to the finished-buffer query, asked after any priming and `alSourcePlay`, is a parameter of the tick, bounded by the number of queued buffers.
- PortMidi's answer is an optional `MidiEvent`.
- GLFW's answers are a set of held keys and a sequence of callback deliveries.

The envelope functions require `t >= 0`. Every reachable state keeps this: `t` starts at 0, is only ever reset to 0, and only grows. With `t >= 0`, each branch guard forces its divisor to be positive (`attack`, `decay` or `release`), which is what makes the real-number divisions meaningful.

Four behaviours of the code worth noting:
- The phase increment is truncated toward zero by `(int)`.
- The producers ignore whether the ring-buffer write succeeded.
- The release slope is computed from `sustain`, whatever level the note had reached. `Envelope.ReleaseRamp` states this.
- A MIDI Note On with velocity 0 still starts the note.

## Model

| member | source | states |
|---|---|---|
| `Envelope.Clamp` | src/pa_audio.cpp:98-99 | The result always lies in [0, 1]. Values already inside are kept, values above become 1 and values below become 0. |
| `Envelope.Pressed` | src/pa_audio.cpp:86-102 | Requires `t >= 0`. The level stays in [0, 1] and the time advances by exactly 1/44100. Past `attack + decay` (with `decay >= 0`) the level is the clamped sustain. A level in [0, 1] never falls during the attack and never rises during the decay (when `sustain <= 1`). |
| `Envelope.Released` | src/pa_audio.cpp:104-118 | Requires `t >= 0`. The level stays in [0, 1] and the time advances by exactly 1/44100. Past `release` the level is 0. With a non-negative sustain, a level in [0, 1] never rises. |
| `Envelope.Factor` | src/pa_audio.cpp:120-127 | Runs the pressed branch exactly when the gate (`midi_enable`) is set, and the released branch otherwise. |
| `Envelope.Run` | src/pa_audio.cpp:184 | After n samples the parameters are unchanged and the time is t + n/44100. The level is in [0, 1] after at least one sample, or from the start if it began there. |
| `Envelope.AttackRamp` | src/pa_audio.cpp:88-89 | Starting from level 0 at time 0, for as long as the attack lasts, the level equals elapsed time divided by `attack`. It is a straight ramp; it reaches exactly 1 at the attack's end when the attack lasts a whole number of samples. |
| `Envelope.AttackRampFrom` | src/pa_audio.cpp:88-89 | Starting at time 0 from any level in [0, 1], such as the level a re-press during the release carries over, after k samples inside the attack the level is the starting level plus k steps of `1/attack · Dt`, capped at 1. |
| `Envelope.HoldsAtSustain` | src/pa_audio.cpp:92-93 | Once past `attack + decay`, every further pressed sample yields the clamped sustain level. |
| `Envelope.DecayRamp` | src/pa_audio.cpp:90-91 | From any time at or past the end of the attack, with a sustain in [0, 1], after k samples that all start inside the decay the level is the starting level minus k steps of `(1 - sustain)/decay · Dt`, floored at 0. |
| `Envelope.ReleaseRamp` | src/pa_audio.cpp:106-107 | Starting from any level in [0, 1] at time 0, after k samples inside the release the level is the starting level minus k steps of `sustain/release · Dt`, floored at 0. The slope does not depend on the starting level. |
| `Envelope.SilentAfterRelease` | src/pa_audio.cpp:108-109 | Once past `release`, every further released sample yields 0. |
| `Envelope.DefaultAttackReachesFull` | src/pa_audio.cpp:246-249 | With `audio_init`'s parameters, a note started from silence reaches level 1 after exactly 4410 samples and stays at 1 for as long as the gate is held. |
| `Envelope.DefaultReleaseReachesZero` | src/pa_audio.cpp:246-249 | With `audio_init`'s parameters, a note released from the sustain level reaches 0 after exactly 4410 samples and stays at 0. |
| `PaAudio.Init` | src/pa_audio.cpp:243-251 | The initial state has note 69 gated on, cutoff 500, the 0.1/0/1/0.1 envelope, and level, time, phase and filter history 0. It satisfies the render invariant. |
| `PaAudio.CutoffOf` | src/pa_audio.cpp:174-177 | Maps a controller value in 0..127 to a cutoff in [100, 5100]. 0 maps to exactly 100 and 127 to exactly 5100. |
| `PaAudio.CutoffMonotone` | src/pa_audio.cpp:175-176 | A larger controller value never gives a lower cutoff. |
| `PaAudio.Apply` | src/pa_audio.cpp:165-177 | Start gates the voice on and sets the pitch. It zeroes `eg.t` only if the voice was off. Stop gates the voice off and zeroes `eg.t`, and keeps the pitch, level and cutoff. Control changes the cutoff and nothing else. Every command preserves the render invariant and leaves phase and filter history alone. |
| `PaAudio.LegatoKeepsEnvelope` | src/pa_audio.cpp:165-169 | A start on a sounding voice changes only the pitch. The envelope is untouched. |
| `PaAudio.FreshNoteRestartsEnvelope` | src/pa_audio.cpp:165-173 | A start after a stop gates the voice on with the envelope clock at 0 and the level carried over. |
| `PaAudio.Send` | src/pa_audio.cpp:214-235 | A command is appended while fewer than 1024 are pending, and dropped otherwise. The queue never exceeds 1024. |
| `PaAudio.SendAllKeepsOrder` | src/pa_audio.cpp:222-228 | Commands that fit are queued behind the pending ones, in sending order (FIFO). |
| `PaAudio.FullQueueDropsAll` | src/pa_audio.cpp:253-258 | A full queue keeps its contents unchanged, whatever is sent to it. |
| `PaAudio.Dequeue` | src/pa_audio.cpp:163-178 | At most one command is taken per callback, and it is the oldest. With nothing pending, both state and queue are unchanged. The render invariant is kept. |
| `PaAudio.DequeueTakesOldest` | src/pa_audio.cpp:164 | After a run of sends that fits, the next callback applies the oldest pending command and leaves the rest in order. |
| `PaAudio.Advance` | src/pa_audio.cpp:189-190 | For a non-negative phase and increment, the next phase lies in [0, 4096), so `triangle[phase]` is in bounds. |
| `PaAudio.Frame` | src/pa_audio.cpp:180-191 | One frame advances the phase by the increment modulo 4096 and the envelope by one step of the branch the gate selects. Gate, pitch and cutoff are kept. The sample is the filter's output for the table entry at the phase before it advances, scaled by the level after this sample's envelope step. It becomes the new filter history. |
| `PaAudio.Frames` | src/pa_audio.cpp:180-191 | Any number of frames keeps the render invariant, gate, pitch and cutoff. |
| `PaAudio.Render` | src/pa_audio.cpp:180-191 | Writes 2·frames values, and both values of frame i are the sample of the (i+1)-th frame from the starting state. The final state is exactly that of `frames` frames, and the envelope ends where `frames` envelope steps take it. Gate, pitch and cutoff are unchanged. |
| `PaAudio.FramesPhase` | src/pa_audio.cpp:189-190 | After n frames the phase is (phase + n·inc) mod 4096: the oscillator moves n increments round the table. |
| `PaAudio.Callback` | src/pa_audio.cpp:160-191 | The queue loses at most its head. The render starts from the state after dequeuing, at the increment of the pitch that state holds, and both channels of each frame carry that render's samples. With no command pending, gate, pitch, envelope clock and cutoff enter the render loop exactly as they were. A start renders the new note gated on, a stop renders gated off with the old pitch, and a control renders at the new cutoff. |
| `PaAudio.PhaseReturnsAfterTableLength` | src/pa_audio.cpp:189-190 | After any whole number of table lengths of frames (4096, 8192, ...), the oscillator's phase is back where it started, for any increment. |
| `OpenAlAudio.Init` | src/openal_audio.cpp:87-89 | The scheduler starts with the two distinct buffers `alGenBuffers` gave, `next_buffer` 0, no underruns and an idle, empty source. |
| `OpenAlAudio.Unqueue` | src/openal_audio.cpp:142-150 | Removes exactly the n oldest queued names and keeps the rest in order. |
| `OpenAlAudio.FillAndQueueNext` | src/openal_audio.cpp:114-125 | Renders one block and queues exactly `buffer_list[next_buffer]`. `next_buffer` moves to the other buffer, staying in [0, 2). |
| `OpenAlAudio.TwoFillsQueueBoth` | src/openal_audio.cpp:123-124 | Two fills queue both distinct buffers, current one first, and `next_buffer` ends where it started. |
| `OpenAlAudio.Primed` | src/openal_audio.cpp:132-137 | A source that is not playing gets both buffers queued, current one first, with two blocks rendered and `next_buffer` restored. A playing source is left alone. Either way the source is playing afterwards. |
| `OpenAlAudio.Tick` | src/openal_audio.cpp:127-151 | The finished-buffer count is the answer after priming and play. Afterwards the source is playing and exactly the finished buffers, oldest first, have left the queue. The render count grows by 2 for a stopped source plus 1 for exactly one finished buffer. The underrun count grows exactly when more than one buffer had finished. The queue length changes by blocks rendered minus buffers finished. |
| `OpenAlAudio.StoppedSourceIsPrimed` | src/openal_audio.cpp:132-137 | A source that is not playing and reports nothing finished after the play gets both buffers queued and two blocks rendered, then plays. `next_buffer` is restored. |
| `OpenAlAudio.RestartedSourceReplacesStale` | src/openal_audio.cpp:132-145 | A stopped source still holding one stale buffer that is reported finished after the play loses that buffer and receives three blocks in one tick: both buffers, then the first again. |
| `OpenAlAudio.OneProcessedIsReplaced` | src/openal_audio.cpp:142-145 | With exactly one finished buffer on a playing source, the oldest name is unqueued and exactly one block is rendered and queued. |
| `OpenAlAudio.FirstTickIsSteady` | src/openal_audio.cpp:127-137 | The first tick after `audio_init` leaves the source playing with the buffer `next_buffer` names first and the other behind it (the steady rotation). |
| `OpenAlAudio.SteadyTickRefillsConsumed` | src/openal_audio.cpp:112-145 | In the steady rotation, a single finished buffer is the one `next_buffer` names, so the fresh block is rendered into the buffer just unqueued; a tick with zero or one finished buffer keeps the rotation steady. |
| `OpenAlAudio.UnderrunReclaimsWithoutRendering` | src/openal_audio.cpp:146-150 | With more than one finished buffer, an underrun is logged and every finished name is unqueued. No block is rendered and `next_buffer` is unchanged. |
| `OpenAlAudio.IdleTickChangesNothing` | src/openal_audio.cpp:139-150 | A playing source with nothing finished is left exactly as it was. |
| `OpenAlAudio.FirstTick` | src/openal_audio.cpp:127-137 | The first tick after init queues buffer 0 then buffer 1 and starts playback, with `next_buffer` back at 0. |
| `Hardware.Empty` | src/platform/desktop.cpp:14-15 | At start the list is valid and nothing is pending. |
| `Hardware.Reset` | src/platform/desktop.cpp:126 | Only the count goes back to zero. Nothing is pending afterwards, and the slots keep their old contents. |
| `Hardware.PushAsWritten` | src/platform/desktop.cpp:19-27 | The overflow message is logged exactly when the list is full. The store goes out of bounds exactly then too. Otherwise the event is appended. (web.cpp:34-42 is the same code.) |
| `Hardware.OverflowGuardDoesNotStopStore` | src/platform/desktop.cpp:21-26 | With 64 events pending, the guard logs and the store still goes to index 64, past the 64-slot list. |
| `Hardware.Push` | src/platform/desktop.cpp:19-27 | Below capacity, the event goes to slot `count`, the count grows by one and no other slot changes. A full list drops the event. The list never overflows. |
| `Hardware.PushAgreesBelowCapacity` | src/platform/desktop.cpp:25-26 | Below capacity, the corrected push and the code as written agree exactly. |
| `Hardware.PushAllAppends` | src/platform/desktop.cpp:25-26 | Pushes that fit are appended to the pending events, in order. |
| `Hardware.PushAllKeepsPrefix` | src/platform/desktop.cpp:19-27 | After a reset, the list holds a frame's events in order. With the corrected push, a frame of more than 64 events keeps the first 64. The code as written stores out of bounds instead (see Findings). |
| `Hardware.Events` | src/platform/desktop.cpp:160-164 | The reported count and list show exactly the pending events. |
| `Hardware.Number` | src/platform/desktop.cpp:215-229 | The result is in [0, 10]. It is 0 exactly when no digit key is down. Otherwise it is the number of a pressed digit (key 0 counts as 10) and no pressed digit comes earlier in the order 1..9, 0. (web.cpp:232-245 is the same code.) |
| `Hardware.XAxis` | src/platform/desktop.cpp:166-179 | Returns -1, 0 or 1. It is 1 exactly when D is held and -1 exactly when A is held without D. |
| `Hardware.YAxis` | src/platform/desktop.cpp:181-194 | Returns -1, 0 or 1. It is 1 exactly when S is held and -1 exactly when W is held without S. |
| `Desktop.EventOf` | src/platform/desktop.cpp:29-61 | Left press gives Touch. Space, H, L, F1, F2 and F3 presses give Jump, the two fast hammers and F1, F2, F3, each exactly for its key. Only presses produce events, and never the held-key hammer events. |
| `Desktop.Frame` | src/platform/desktop.cpp:123-139 | When the step begins, the pending list holds exactly this frame's events: the callbacks' events in delivery order, then HammerCw if J is held, then HammerCcw if K is held. The frame is built on the corrected push, so more than 64 events are truncated to the first 64. The code as written stores out of bounds instead (see Findings). |
| `Desktop.FrameForgetsEarlierFrames` | src/platform/desktop.cpp:126-127 | Because of the reset, what a frame reports does not depend on anything earlier frames left in the list. |
| `Desktop.HeldKeysComeLast` | src/platform/desktop.cpp:129-134 | With J and K held, their events follow every polled event, J before K. |
| `Web.Init` | src/platform/web.cpp:21-32 | At start nothing is pending and every key flag and the mouse cache are clear. |
| `Web.Loop` | src/platform/web.cpp:100-150 | When the step begins, the pending list holds exactly this frame's events, in check order. Each key flag then mirrors its key's current state, and the mouse cache mirrors the button. |
| `Web.FrameEventsExactly` | src/platform/web.cpp:105-147 | HammerCw and HammerCcw are pushed exactly while J and K are held. Jump, the fast hammers and Touch are pushed exactly on a released-to-pressed transition of Space, H, L and the mouse button. |
| `Web.TouchIsDown` | src/platform/web.cpp:227-230 | Reports the cached mouse state, not a fresh query. |
| `Web.HoldingPushesOnce` | src/platform/web.cpp:112-147 | Holding Space, H, L or the mouse button across two frames pushes their events in the second frame never. |
| `Web.ReleaseRearms` | src/platform/web.cpp:112-121 | Press, release, press of Space pushes Jump again on the second press. |
| `Web.TouchIsDownAfterLoop` | src/platform/web.cpp:147 | After a loop, the touch query reports the button state that loop saw. |
| `MainLoop.Init` | src/main.cpp:58-72 | `loop`'s statics start at note 69 with nothing pressed, so a first frame with no number key sends nothing. |
| `MainLoop.KeyboardNote` | src/main.cpp:60 | For a number in [0, 10], the note lies in [69, 79], and the note minus 69 gives back the number. |
| `MainLoop.Keyboard` | src/main.cpp:62-70 | A command is sent exactly when the note differs from `last_midi`. It is a stop exactly when no number is pressed and the last note was not 69, and otherwise a start of the new note. `last_midi` becomes the note and the note counter is untouched. |
| `MainLoop.RepeatedNumberIsSilent` | src/main.cpp:62-70 | Repeating the same number sends nothing and changes nothing. |
| `MainLoop.Decode` | src/main.cpp:76-77 | The message nibble and channel nibble recombine to the status byte. The message has a zero low nibble, the channel lies in [0, 15], and the message is the status rounded down to a multiple of 16. |
| `MainLoop.Midi` | src/main.cpp:75-90 | Note On adds one to the count and starts data byte 1. Note Off subtracts one and stops exactly when the count reaches 0. Any other message, or no message, changes nothing and sends nothing. |
| `MainLoop.VelocityIgnored` | src/main.cpp:78-85 | The outcome does not depend on the velocity byte, so a Note On with velocity 0 still starts the note. |
| `MainLoop.ChannelIgnored` | src/main.cpp:76-89 | Two messages whose status bytes differ only in the channel have the same outcome. |
| `MainLoop.CountIsBalance` | src/main.cpp:72-89 | Over any history, the counter equals its start plus Note Ons minus Note Offs, never clamped at 0. The keyboard note is untouched. |
| `MainLoop.TwoKeysStopOnce` | src/main.cpp:82-89 | From a zero count, two Note Ons then two Note Offs send start, start and one stop, the stop at the second release. |
| `MainLoop.StrayNoteOffSuppressesStop` | src/main.cpp:72-89 | From the initial statics, a Note Off with nothing pressed, then a press and release, sends only the start. The count ends at -1, so MIDI never stops that note. |
| `MainLoop.Loop` | src/main.cpp:56-94 | One loop emits exactly the keyboard's command if there is one, then exactly the MIDI command if there is one, in that order. They are followed by the audio tick and then rendering. |
| `MainLoop.HalvesAreIndependent` | src/main.cpp:58-89 | The keyboard half decides `last_midi` and the MIDI half decides the note counter. Neither disturbs the other. |
| `ArrayState.SwapLast` | src/state.hpp:5-8 | The slot at `index` receives the old `arr[count-1]` and every other slot, `arr[count-1]` included, is unchanged. |
| `ArrayState.ArraySwapLast` | src/state.hpp:5-8 | The in-place copy on an array writes only `arr[index]`, with the old last live element. It matches `SwapLast`. |
| `ArrayState.RemoveBySwapLast` | src/state.hpp:5-8 | After the caller shrinks the count by one, the live elements are exactly the old ones with the element at `index` removed once (as multisets). |
| `ArrayState.SwapLastOfLastIsIdentity` | src/state.hpp:7 | In the model, copying the last live element onto itself leaves the contents unchanged. In C this `memcpy` has overlapping source and destination, which section 7.24.2.1 of ISO/IEC 9899:2011 leaves undefined. The model treats this case as the identity, which is not something the source guarantees. |

## Left out

- The one-pole filter `vcf_t::process` uses floating-point arithmetic. It is a parameter of the render functions.
- `midi_to_freq` and the float-to-int phase increment are floating point. The increment is a non-negative integer parameter of the render.
- The wavetable setup `setup_osc_tables` is floating point (`sin`, `fabs`). The table is a 4096-entry parameter.
- Single-precision rounding in the envelope is not modelled. The envelope works over `real`.
- The `PaUtilRingBuffer` internals and their lock-free visibility are a concurrency concern. The command channel is a bounded FIFO sequence.
- `audio_visual_1` is an unsynchronised cross-thread read.
- PortAudio stream open, start, stop and terminate are foreign I/O.
- `fill_buffer` renders a block through `audio_callback`, which is not part of this model, and casts float samples to bytes. A rendered block is counted, not computed.
- OpenAL device, context, source and buffer setup and teardown are foreign I/O. The source-state answer is the record's playing flag, which `alSourcePlay` sets. The finished-buffer answer is a parameter of each tick, so what the backend reports is not derived from playback time.
- OpenAlAudio.Tick: the underrun branch unqueues into a 2-slot static array (openal_audio.cpp:147-149). With more than two finished buffers, `alSourceUnqueueBuffers` writes past that array, the same kind of out-of-bounds store as the `push_event` finding. The model keeps the names in the source record and allows any finished count up to the queue length, so that store is not modelled.
- PortMidi device enumeration, open, close and the draining poll are foreign I/O, and so are the `Pm_Message*` accessors. A read message is an optional status/data byte triple.
- GLFW and GL are left out: window and context creation, callback registration, `glfwGetTime`, cursor position, window size, rumble and the Escape key closing the window. The emscripten main loop and the desktop `hardware_touch_is_down` (a direct GLFW query) are left out for the same reason. Key state is a set of held keys, and callback deliveries are an input sequence.
- The step the platform loops call is `loop` of `src/main.cpp` (registered by `hardware_set_loop( loop )` at main.cpp:113). It is modelled by `MainLoop.Loop`, which reads the keys through `hardware_number` and never reads `hardware_events`. The frame models `Desktop.Frame` and `Web.Loop` stop where that step begins, and `Hardware.Events` states what `hardware_events` would report there.
- `render.cpp` only issues GL clear calls.
- C `int` widths are not modelled. `pressed_note_count`, `midi_no` and the phase are unbounded integers: no count of notes in a session overflows, and the phase stays below 4096 plus the increment.

## Findings

| source | as written | input that shows it | evidently intended | confidence | as-written member | corrected member |
|---|---|---|---|---|---|---|
| src/platform/desktop.cpp:21-26 | The full-list guard only logs. The store to `pending_event_list[pending_event_count]` and the increment run anyway. | 64 events already pending in one frame, then one more `push_event`: the store goes to index 64 of a 64-slot array. web.cpp:36-41 has the same guard but cannot reach it: web's loop pushes at most 6 events per frame (`Web.FrameEvents`), and its mouse callback is not registered (web.cpp:85). | Drop the event once the list is full, so the count never exceeds 64. | medium, not executed | `Hardware.PushAsWritten` (shown by `Hardware.OverflowGuardDoesNotStopStore`) | `Hardware.Push` |
