/** What the desktop and the web platform layers share: the `event_t` values,
    the fixed 64-slot pending-event list that `push_event` appends to and
    `hardware_events` reports, and the key queries (`hardware_number` and the
    two axes). Both platform files carry identical copies of this code; it is
    defined once here. Which keys are down is an input: a set of keys. */
module Hardware {

  /** Slots in `pending_event_list`. */
  const Capacity: int := 64

  /** `event_t`. */
  datatype Event =
    | Touch | Jump | HammerCw | HammerCcw | FastHammerCw | FastHammerCcw | F1 | F2 | F3

  /** The pending-event list and its count. Slots past the count keep
      whatever an earlier frame left there. */
  datatype EventBuffer = EventBuffer(slots: seq<Event>, count: int)

  predicate Valid(b: EventBuffer)
  {
    |b.slots| == Capacity && 0 <= b.count <= Capacity
  }

  /** The events the current frame has collected, oldest first. */
  function Pending(b: EventBuffer): seq<Event>
    requires Valid(b)
  {
    b.slots[..b.count]
  }

  /** The list at program start: static storage, so every slot holds the
      zero event and the count is zero. */
  function Empty(): (b: EventBuffer)
    ensures Valid(b) && Pending(b) == []
  {
    EventBuffer(seq(Capacity, _ => Touch), 0)
  }

  /** The per-frame reset: only the count goes back to zero. */
  function Reset(b: EventBuffer): (r: EventBuffer)
    requires Valid(b)
    ensures Valid(r) && Pending(r) == [] && r.slots == b.slots
  {
    b.(count := 0)
  }

  /** Where `push_event` as written leaves the list: the guard on a full list
      only logs, and the store goes ahead at index `count` either way. */
  datatype PushOutcome = Stored(buffer: EventBuffer) | OutOfBounds(index: int)

  /** `push_event` as written: the first component says whether the overflow
      message was logged, the second where the store went. A store at index 64
      or beyond falls outside the 64-slot list. */
  function PushAsWritten(b: EventBuffer, e: Event): (r: (bool, PushOutcome))
    requires Valid(b)
    ensures r.0 <==> b.count >= Capacity
    ensures r.1.OutOfBounds? <==> b.count >= Capacity
    ensures r.1.Stored? ==> Valid(r.1.buffer) && Pending(r.1.buffer) == Pending(b) + [e]
  {
    var logged := b.count >= Capacity;
    if b.count < Capacity then
      var nb := EventBuffer(b.slots[b.count := e], b.count + 1);
      assert Pending(nb) == Pending(b) + [e];
      (logged, Stored(nb))
    else
      (logged, OutOfBounds(b.count))
  }

  /** The input that shows the defect: with 64 events already pending, the
      guard fires and logs, and the store still goes to index 64. */
  lemma OverflowGuardDoesNotStopStore(b: EventBuffer, e: Event)
    requires Valid(b) && b.count == Capacity
    ensures PushAsWritten(b, e) == (true, OutOfBounds(64))
  {
  }

  /** `push_event` with the guard doing what it evidently means to: a full
      list drops the event; otherwise the event goes to slot `count` and the
      count grows by one. The list never overflows. */
  function Push(b: EventBuffer, e: Event): (r: EventBuffer)
    requires Valid(b)
    ensures Valid(r)
    ensures b.count < Capacity ==> r.count == b.count + 1 && r.slots[b.count] == e
    ensures b.count < Capacity ==> Pending(r) == Pending(b) + [e]
    ensures b.count < Capacity ==> forall i :: 0 <= i < Capacity && i != b.count ==> r.slots[i] == b.slots[i]
    ensures b.count >= Capacity ==> r == b
  {
    if b.count < Capacity then
      var nb := EventBuffer(b.slots[b.count := e], b.count + 1);
      assert Pending(nb) == Pending(b) + [e];
      nb
    else
      b
  }

  /** Where the as-written store stays in bounds, the two agree. */
  lemma PushAgreesBelowCapacity(b: EventBuffer, e: Event)
    requires Valid(b) && b.count < Capacity
    ensures PushAsWritten(b, e) == (false, Stored(Push(b, e)))
  {
  }

  /** Pushing a sequence of events in order. */
  function PushAll(b: EventBuffer, es: seq<Event>): (r: EventBuffer)
    requires Valid(b)
    ensures Valid(r)
    decreases |es|
  {
    if |es| == 0 then b else PushAll(Push(b, es[0]), es[1..])
  }

  /** Pushes that fit are appended in order; the rest are dropped. */
  lemma {:induction false} PushAllAppends(b: EventBuffer, es: seq<Event>)
    requires Valid(b) && b.count + |es| <= Capacity
    ensures Pending(PushAll(b, es)) == Pending(b) + es
    decreases |es|
  {
    if |es| > 0 {
      PushAllAppends(Push(b, es[0]), es[1..]);
      assert Pending(b) + [es[0]] + es[1..] == Pending(b) + es;
    }
  }

  /** However many events a frame produces, the list keeps the first 64 of
      them, in order. */
  lemma {:induction false} PushAllKeepsPrefix(b: EventBuffer, es: seq<Event>)
    requires Valid(b) && b.count == 0
    ensures |es| <= Capacity ==> Pending(PushAll(b, es)) == es
    ensures |es| > Capacity ==> Pending(PushAll(b, es)) == es[..Capacity]
  {
    if |es| <= Capacity {
      PushAllAppends(b, es);
    } else {
      PushAllAppends(b, es[..Capacity]);
      PushAllSplit(b, es[..Capacity], es[Capacity..]);
      assert es[..Capacity] + es[Capacity..] == es;
      FullDropsAll(PushAll(b, es[..Capacity]), es[Capacity..]);
    }
  }

  lemma {:induction false} PushAllSplit(b: EventBuffer, xs: seq<Event>, ys: seq<Event>)
    requires Valid(b)
    ensures PushAll(b, xs + ys) == PushAll(PushAll(b, xs), ys)
    decreases |xs|
  {
    if |xs| > 0 {
      assert (xs + ys)[0] == xs[0];
      assert (xs + ys)[1..] == xs[1..] + ys;
      PushAllSplit(Push(b, xs[0]), xs[1..], ys);
    } else {
      assert xs + ys == ys;
    }
  }

  lemma {:induction false} FullDropsAll(b: EventBuffer, es: seq<Event>)
    requires Valid(b) && b.count == Capacity
    ensures PushAll(b, es) == b
    decreases |es|
  {
    if |es| > 0 {
      FullDropsAll(b, es[1..]);
    }
  }

  /** `[e]` when `c` holds, nothing otherwise. */
  function When(c: bool, e: Event): (r: seq<Event>)
    ensures e in r <==> c
    ensures |r| <= 1
  {
    if c then [e] else []
  }

  /** `hardware_events`: the count and the list itself. */
  function Events(b: EventBuffer): (r: (int, seq<Event>))
    requires Valid(b)
    ensures 0 <= r.0 <= |r.1| && r.1[..r.0] == Pending(b)
  {
    (b.count, b.slots)
  }

  /** The keys the platform layers ask about. Digits are `Digit(0)` to
      `Digit(9)`. */
  datatype Key =
    | Digit(d: int)
    | KeyA | KeyD | KeyW | KeyS
    | KeyJ | KeyK | KeyH | KeyL
    | KeySpace | KeyEscape | KeyF1 | KeyF2 | KeyF3

  /** The number a digit key stands for: 1..9 for keys 1..9, and 10 for key 0,
      which comes last on the keyboard row. */
  function DigitNumber(d: int): int
  {
    if d == 0 then 10 else d
  }

  /** `hardware_number`: the number of the pressed digit key that comes first
      in the order 1, 2, ..., 9, 0; zero if no digit key is pressed. */
  function Number(down: set<Key>): (n: int)
    ensures 0 <= n <= 10
    ensures n == 0 <==> forall d :: 0 <= d <= 9 ==> Digit(d) !in down
    ensures n != 0 ==> Digit(n % 10) in down && DigitNumber(n % 10) == n
    ensures n != 0 ==> forall d :: 0 <= d <= 9 && Digit(d) in down ==> n <= DigitNumber(d)
  {
    if Digit(1) in down then 1
    else if Digit(2) in down then 2
    else if Digit(3) in down then 3
    else if Digit(4) in down then 4
    else if Digit(5) in down then 5
    else if Digit(6) in down then 6
    else if Digit(7) in down then 7
    else if Digit(8) in down then 8
    else if Digit(9) in down then 9
    else if Digit(0) in down then 10
    else 0
  }

  /** One axis from its negative and positive key: the positive key, checked
      second, overrides. */
  function Axis(down: set<Key>, negative: Key, positive: Key): (v: int)
    ensures v == -1 || v == 0 || v == 1
    ensures v == 1 <==> positive in down
    ensures v == -1 <==> negative in down && positive !in down
    ensures v == 0 <==> negative !in down && positive !in down
  {
    var v := if negative in down then -1 else 0;
    if positive in down then 1 else v
  }

  /** `hardware_x_axis`: A is left, D is right, D wins. */
  function XAxis(down: set<Key>): (dx: int)
    ensures dx == -1 || dx == 0 || dx == 1
    ensures dx == 1 <==> KeyD in down
    ensures dx == -1 <==> KeyA in down && KeyD !in down
  {
    Axis(down, KeyA, KeyD)
  }

  /** `hardware_y_axis`: W is up, S is down, S wins. */
  function YAxis(down: set<Key>): (dy: int)
    ensures dy == -1 || dy == 0 || dy == 1
    ensures dy == 1 <==> KeyS in down
    ensures dy == -1 <==> KeyW in down && KeyS !in down
  {
    Axis(down, KeyW, KeyS)
  }
}
