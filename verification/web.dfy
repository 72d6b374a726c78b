/** The per-frame input handling of `src/platform/web.cpp`. There are no
    event callbacks here: every frame resets the list, pushes one event per
    held J or K key, and turns Space, H, L and the left mouse button into
    events on their released-to-pressed transition only, remembering each
    key's state for the next frame. The step runs once, after all of that. */
module Web {
  import opened Hardware

  /** The web layer's static state: the event list, the three key flags
      (`last1` Space, `last2` H, `last3` L) and the cached mouse state. */
  datatype WebState = WebState(buf: EventBuffer, last1: bool, last2: bool, last3: bool, touchState: bool)

  predicate Valid(w: WebState)
  {
    Hardware.Valid(w.buf)
  }

  /** Static storage at start: nothing pressed, nothing pending. */
  function Init(): (w: WebState)
    ensures Valid(w) && Pending(w.buf) == []
    ensures !w.last1 && !w.last2 && !w.last3 && !w.touchState
  {
    WebState(Empty(), false, false, false, false)
  }

  /** A rising edge: pressed now, not pressed in the previous frame. */
  predicate Rising(last: bool, now: bool)
  {
    now && !last
  }

  /** The events one frame pushes, in the order the loop checks. */
  function FrameEvents(w: WebState, down: set<Key>, mouseDown: bool): (es: seq<Event>)
    ensures |es| <= 6
  {
    When(KeyJ in down, HammerCw)
    + When(KeyK in down, HammerCcw)
    + When(Rising(w.last1, KeySpace in down), Jump)
    + When(Rising(w.last2, KeyH in down), FastHammerCw)
    + When(Rising(w.last3, KeyL in down), FastHammerCcw)
    + When(Rising(w.touchState, mouseDown), Touch)
  }

  /** The web `loop` up to `intern.step()`. The step then sees exactly this
      frame's events; every flag now mirrors the current key or button
      state. */
  function Loop(w: WebState, down: set<Key>, mouseDown: bool): (r: WebState)
    requires Valid(w)
    ensures Valid(r)
    ensures Pending(r.buf) == FrameEvents(w, down, mouseDown)
    ensures r.last1 == (KeySpace in down) && r.last2 == (KeyH in down) && r.last3 == (KeyL in down)
    ensures r.touchState == mouseDown
  {
    var es := FrameEvents(w, down, mouseDown);
    PushAllAppends(Reset(w.buf), es);
    WebState(PushAll(Reset(w.buf), es), KeySpace in down, KeyH in down, KeyL in down, mouseDown)
  }

  /** Which events a frame pushes: J and K while held; Space, H, L and the
      mouse button only on a released-to-pressed transition. */
  lemma FrameEventsExactly(w: WebState, down: set<Key>, mouseDown: bool)
    ensures Jump in FrameEvents(w, down, mouseDown) <==> KeySpace in down && !w.last1
    ensures FastHammerCw in FrameEvents(w, down, mouseDown) <==> KeyH in down && !w.last2
    ensures FastHammerCcw in FrameEvents(w, down, mouseDown) <==> KeyL in down && !w.last3
    ensures Touch in FrameEvents(w, down, mouseDown) <==> mouseDown && !w.touchState
    ensures HammerCw in FrameEvents(w, down, mouseDown) <==> KeyJ in down
    ensures HammerCcw in FrameEvents(w, down, mouseDown) <==> KeyK in down
  {
    var a := When(KeyJ in down, HammerCw);
    var b := When(KeyK in down, HammerCcw);
    var c := When(Rising(w.last1, KeySpace in down), Jump);
    var d := When(Rising(w.last2, KeyH in down), FastHammerCw);
    var e := When(Rising(w.last3, KeyL in down), FastHammerCcw);
    var f := When(Rising(w.touchState, mouseDown), Touch);
    assert FrameEvents(w, down, mouseDown) == a + b + c + d + e + f;
    forall x: Event
      ensures x in FrameEvents(w, down, mouseDown) <==> x in a || x in b || x in c || x in d || x in e || x in f
    {
    }
  }

  /** `hardware_touch_is_down`: the mouse state cached by the last loop, not
      a fresh query. */
  function TouchIsDown(w: WebState): (down: bool)
    ensures down == w.touchState
  {
    w.touchState
  }

  /** Holding Space, H, L and the mouse button across two frames pushes each
      of their events in the first frame at most, never in the second. */
  lemma HoldingPushesOnce(w: WebState, down: set<Key>, mouseDown: bool)
    requires Valid(w)
    ensures
      var second := Loop(Loop(w, down, mouseDown), down, mouseDown);
      && Jump !in Pending(second.buf)
      && FastHammerCw !in Pending(second.buf)
      && FastHammerCcw !in Pending(second.buf)
      && Touch !in Pending(second.buf)
  {
    var first := Loop(w, down, mouseDown);
    FrameEventsExactly(first, down, mouseDown);
  }

  /** Releasing a key for one frame re-arms it: press, release, press pushes
      the event twice. */
  lemma ReleaseRearms(w: WebState, down: set<Key>, mouseDown: bool)
    requires Valid(w) && KeySpace in down
    ensures Jump in Pending(Loop(w.(last1 := false), down, mouseDown).buf)
    ensures Jump in Pending(Loop(Loop(Loop(w, down, mouseDown), down - {KeySpace}, mouseDown), down, mouseDown).buf)
  {
    FrameEventsExactly(w.(last1 := false), down, mouseDown);
    var released := Loop(Loop(w, down, mouseDown), down - {KeySpace}, mouseDown);
    FrameEventsExactly(released, down, mouseDown);
  }

  /** After a loop, `hardware_touch_is_down` reports the button state that
      loop saw. */
  lemma TouchIsDownAfterLoop(w: WebState, down: set<Key>, mouseDown: bool)
    requires Valid(w)
    ensures TouchIsDown(Loop(w, down, mouseDown)) == mouseDown
  {
  }
}
