/** The per-frame input handling of `src/platform/desktop.cpp`: the count is
    reset, the GLFW callbacks run during polling and push one event per key or
    button press, then the held J and K keys push their events, and the step
    registered with `hardware_set_loop` runs. That step is `loop` of
    `src/main.cpp`, modelled by `MainLoop.Loop`; the frame model stops where
    it begins. The callbacks' deliveries are an input sequence; the keys held
    at the end of polling are a set. */
module Desktop {
  import opened Wrappers
  import opened Hardware

  /** One callback delivery during `glfwPollEvents`. */
  datatype Input =
    | KeyAction(key: Key, press: bool)
    | LeftButton(press: bool)
    | OtherButton(press: bool)

  /** `handle_key` and `handle_mouse_button`: which event, if any, a delivery
      pushes. Only presses count; Escape closes the window instead. */
  function EventOf(i: Input): (r: Option<Event>)
    ensures r == Some(Touch) <==> i == LeftButton(true)
    ensures r == Some(Jump) <==> i == KeyAction(KeySpace, true)
    ensures r == Some(FastHammerCw) <==> i == KeyAction(KeyH, true)
    ensures r == Some(FastHammerCcw) <==> i == KeyAction(KeyL, true)
    ensures r == Some(F1) <==> i == KeyAction(KeyF1, true)
    ensures r == Some(F2) <==> i == KeyAction(KeyF2, true)
    ensures r == Some(F3) <==> i == KeyAction(KeyF3, true)
    ensures r.Some? ==> r.value != HammerCw && r.value != HammerCcw
    ensures r.Some? ==> (i.KeyAction? && i.press) || i == LeftButton(true)
  {
    match i
    case LeftButton(press) => if press then Some(Touch) else None
    case OtherButton(_) => None
    case KeyAction(key, press) =>
      if !press then None
      else if key == KeySpace then Some(Jump)
      else if key == KeyH then Some(FastHammerCw)
      else if key == KeyL then Some(FastHammerCcw)
      else if key == KeyF1 then Some(F1)
      else if key == KeyF2 then Some(F2)
      else if key == KeyF3 then Some(F3)
      else None
  }

  /** The events the callbacks push, in delivery order. */
  function Polled(inputs: seq<Input>): (es: seq<Event>)
    ensures |es| <= |inputs|
    decreases |inputs|
  {
    if |inputs| == 0 then []
    else
      var rest := Polled(inputs[1..]);
      match EventOf(inputs[0])
      case Some(e) => [e] + rest
      case None => rest
  }

  /** The events one frame pushes, before the list bound applies. */
  function FrameEvents(inputs: seq<Input>, down: set<Key>): seq<Event>
  {
    Polled(inputs) + When(KeyJ in down, HammerCw) + When(KeyK in down, HammerCcw)
  }

  /** One iteration of `hardware_set_loop` up to the step: reset, poll, then
      the held-key checks. The result is the list the step sees through
      `hardware_events`: this frame's events only, the first 64 of them. */
  function Frame(b: EventBuffer, inputs: seq<Input>, down: set<Key>): (r: EventBuffer)
    requires Valid(b)
    ensures Valid(r)
    ensures |FrameEvents(inputs, down)| <= Capacity ==> Pending(r) == FrameEvents(inputs, down)
    ensures |FrameEvents(inputs, down)| > Capacity ==> Pending(r) == FrameEvents(inputs, down)[..Capacity]
  {
    var polled := PushAll(Reset(b), Polled(inputs));
    var withJ := if KeyJ in down then Push(polled, HammerCw) else polled;
    var r := if KeyK in down then Push(withJ, HammerCcw) else withJ;
    FrameIsPushAll(b, inputs, down);
    PushAllKeepsPrefix(Reset(b), FrameEvents(inputs, down));
    r
  }

  lemma FrameIsPushAll(b: EventBuffer, inputs: seq<Input>, down: set<Key>)
    requires Valid(b)
    ensures
      var polled := PushAll(Reset(b), Polled(inputs));
      var withJ := if KeyJ in down then Push(polled, HammerCw) else polled;
      (if KeyK in down then Push(withJ, HammerCcw) else withJ)
        == PushAll(Reset(b), FrameEvents(inputs, down))
  {
    var start := Reset(b);
    var j := When(KeyJ in down, HammerCw);
    var k := When(KeyK in down, HammerCcw);
    PushAllSplit(start, Polled(inputs), j);
    PushAllSplit(start, Polled(inputs) + j, k);
  }

  /** The reset makes a frame's list independent of everything earlier
      frames left behind. */
  lemma FrameForgetsEarlierFrames(b1: EventBuffer, b2: EventBuffer, inputs: seq<Input>, down: set<Key>)
    requires Valid(b1) && Valid(b2)
    ensures Pending(Frame(b1, inputs, down)) == Pending(Frame(b2, inputs, down))
  {
  }

  /** The held J and K keys come after every polled event, J before K. */
  lemma HeldKeysComeLast(b: EventBuffer, inputs: seq<Input>, down: set<Key>)
    requires Valid(b) && |inputs| + 2 <= Capacity
    requires KeyJ in down && KeyK in down
    ensures Pending(Frame(b, inputs, down)) == Polled(inputs) + [HammerCw, HammerCcw]
  {
  }
}
