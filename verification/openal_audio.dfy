/** The pull-mode buffer scheduler of `src/openal_audio.cpp`: two buffers
    rotate through the backend's source queue, and each tick decides from the
    source's state how many blocks to render and queue.

    The backend is abstract. `Source` holds what the tick's first query
    answers (whether the source is playing) and the buffer names queued on
    it, oldest first. The second query, how many queued buffers the source
    has finished, is asked after any priming and `alSourcePlay`, so its
    answer is a parameter of the tick, bounded by what is queued at that
    moment. Rendering a block (`fill_buffer`) is counted, not computed. */
module OpenAlAudio {

  /** Buffers in rotation (`BUFFER_COUNT`). */
  const BufferCount: int := 2

  datatype Source = Source(playing: bool, queue: seq<nat>)

  /** Scheduler state: the two buffer names from `alGenBuffers`, the index of
      the buffer to fill next, the source, how many blocks were rendered, and
      how many underruns were logged. */
  datatype Pull = Pull(buffers: seq<nat>, next: int, src: Source, rendered: nat, underruns: nat)

  /** Two distinct buffer names, and `next` indexes one of them. */
  predicate Valid(p: Pull)
  {
    && |p.buffers| == BufferCount
    && p.buffers[0] != p.buffers[1]
    && 0 <= p.next < BufferCount
  }

  /** The state after `audio_init`: a fresh source and `next_buffer` zero. */
  function Init(b0: nat, b1: nat): (p: Pull)
    requires b0 != b1
    ensures Valid(p)
    ensures !p.src.playing && p.src.queue == [] && p.next == 0 && p.rendered == 0
    ensures p.buffers == [b0, b1] && p.underruns == 0
  {
    Pull([b0, b1], 0, Source(false, []), 0, 0)
  }

  /** `alSourceUnqueueBuffers`: the `n` oldest queued buffers leave the queue. */
  function Unqueue(src: Source, n: int): (r: Source)
    requires 0 <= n <= |src.queue|
    ensures |r.queue| == |src.queue| - n
    ensures forall i :: 0 <= i < |r.queue| ==> r.queue[i] == src.queue[n + i]
    ensures r.playing == src.playing
  {
    src.(queue := src.queue[n..])
  }

  /** `fill_and_queue_next_buffer`: render one block into the buffer `next`
      names, queue exactly that buffer, and move `next` to the other one. */
  function FillAndQueueNext(p: Pull): (r: Pull)
    requires Valid(p)
    ensures Valid(r)
    ensures r.src.queue == p.src.queue + [p.buffers[p.next]]
    ensures r.rendered == p.rendered + 1
    ensures r.next == (p.next + 1) % BufferCount && r.next != p.next
    ensures r.buffers == p.buffers && r.underruns == p.underruns
    ensures r.src.playing == p.src.playing
  {
    var id := p.buffers[p.next];
    p.(src := p.src.(queue := p.src.queue + [id]),
       rendered := p.rendered + 1,
       next := (p.next + 1) % BufferCount)
  }

  /** Two fills in a row queue both buffers, the current one first, and leave
      `next` where it started. */
  lemma TwoFillsQueueBoth(p: Pull)
    requires Valid(p)
    ensures FillAndQueueNext(FillAndQueueNext(p)).next == p.next
    ensures FillAndQueueNext(FillAndQueueNext(p)).src.queue
            == p.src.queue + [p.buffers[p.next], p.buffers[1 - p.next]]
    ensures p.buffers[p.next] != p.buffers[1 - p.next]
    ensures FillAndQueueNext(FillAndQueueNext(p)).rendered == p.rendered + 2
  {
  }

  /** The first half of `audio_tick`: a source that is not playing gets two
      fresh blocks and is started; a playing one is left alone. */
  function Primed(p: Pull): (r: Pull)
    requires Valid(p)
    ensures Valid(r) && r.src.playing
    ensures r.buffers == p.buffers && r.underruns == p.underruns
    ensures p.src.playing ==> r == p
    ensures !p.src.playing ==> r.src.queue == p.src.queue + [p.buffers[p.next], p.buffers[1 - p.next]]
    ensures !p.src.playing ==> r.next == p.next && r.rendered == p.rendered + 2
  {
    TwoFillsQueueBoth(p);
    if !p.src.playing then
      var q := FillAndQueueNext(FillAndQueueNext(p));
      q.(src := q.src.(playing := true))
    else
      p
  }

  /** Blocks a tick renders: two to prime a stopped source, plus one to
      replace a single finished buffer. */
  function BlocksRendered(playing: bool, processed: int): nat
  {
    (if !playing then 2 else 0) + (if processed == 1 then 1 else 0)
  }

  /** `audio_tick`, given the answer `processed` of the finished-buffer query
      made after the priming. Then the finished buffers are dealt with:
      exactly one is unqueued and replaced by a fresh block; more than one is
      an underrun, logged, and all of them are unqueued without rendering. */
  function Tick(p: Pull, processed: int): (r: Pull)
    requires Valid(p)
    requires 0 <= processed <= |p.src.queue| + (if p.src.playing then 0 else 2)
    ensures Valid(r)
    ensures r.src.playing
    ensures r.buffers == p.buffers
    ensures r.rendered == p.rendered + BlocksRendered(p.src.playing, processed)
    ensures r.underruns == p.underruns + (if processed > 1 then 1 else 0)
    ensures |r.src.queue| == |p.src.queue| + BlocksRendered(p.src.playing, processed) - processed
    // every finished buffer has been taken off the queue, oldest first
    ensures r.src.queue[..|r.src.queue| - (if processed == 1 then 1 else 0)] == Primed(p).src.queue[processed..]
  {
    var primed := Primed(p);
    if processed == 1 then
      FillAndQueueNext(primed.(src := Unqueue(primed.src, 1)))
    else if processed > 1 then
      primed.(src := Unqueue(primed.src, processed), underruns := primed.underruns + 1)
    else
      primed
  }

  /** A source that is not playing gets both buffers queued, `next` comes back
      to where it was, and playback starts. */
  lemma StoppedSourceIsPrimed(p: Pull)
    requires Valid(p) && !p.src.playing
    ensures Tick(p, 0).src.queue == p.src.queue + [p.buffers[p.next], p.buffers[1 - p.next]]
    ensures Tick(p, 0).next == p.next
    ensures Tick(p, 0).rendered == p.rendered + 2
    ensures Tick(p, 0).src.playing
  {
    TwoFillsQueueBoth(p);
  }

  /** A stopped source that still holds finished buffers: the answer after
      the play decides, so one stale buffer is replaced by a third block in
      the same tick. */
  lemma RestartedSourceReplacesStale(p: Pull, b: nat)
    requires Valid(p) && !p.src.playing && p.src.queue == [b]
    ensures Tick(p, 1).src.queue == [p.buffers[p.next], p.buffers[1 - p.next], p.buffers[p.next]]
    ensures Tick(p, 1).rendered == p.rendered + 3
    ensures Tick(p, 1).next == 1 - p.next
    ensures Tick(p, 1).underruns == p.underruns
  {
    TwoFillsQueueBoth(p);
    var q := Primed(p);
    assert q.src.queue == [b, p.buffers[p.next], p.buffers[1 - p.next]];
    assert q.src.queue[1..] == [p.buffers[p.next], p.buffers[1 - p.next]];
  }

  /** One finished buffer: the oldest is unqueued and exactly one fresh block
      is queued behind the rest. */
  lemma OneProcessedIsReplaced(p: Pull)
    requires Valid(p) && p.src.playing && |p.src.queue| >= 1
    ensures Tick(p, 1).src.queue == p.src.queue[1..] + [p.buffers[p.next]]
    ensures Tick(p, 1).rendered == p.rendered + 1
    ensures Tick(p, 1).next == 1 - p.next
    ensures Tick(p, 1).underruns == p.underruns
  {
  }

  /** More than one finished buffer: an underrun is logged and every finished
      buffer leaves the queue, with no block rendered. */
  lemma UnderrunReclaimsWithoutRendering(p: Pull, processed: int)
    requires Valid(p) && p.src.playing && 1 < processed <= |p.src.queue|
    ensures Tick(p, processed).src.queue == p.src.queue[processed..]
    ensures Tick(p, processed).rendered == p.rendered
    ensures Tick(p, processed).next == p.next
    ensures Tick(p, processed).underruns == p.underruns + 1
  {
  }

  /** Nothing finished on a playing source: the tick changes nothing. */
  lemma IdleTickChangesNothing(p: Pull)
    requires Valid(p) && p.src.playing
    ensures Tick(p, 0) == p
  {
  }

  /** The first tick after `audio_init` queues buffer 0 then buffer 1 and
      starts playback with `next` back at 0. */
  lemma FirstTick(b0: nat, b1: nat)
    requires b0 != b1
    ensures Tick(Init(b0, b1), 0).src.queue == [b0, b1]
    ensures Tick(Init(b0, b1), 0).next == 0
    ensures Tick(Init(b0, b1), 0).src.playing
  {
    StoppedSourceIsPrimed(Init(b0, b1));
  }

  /** The steady rotation: the source plays the buffer `next` names first and
      the other one behind it, so the oldest queued buffer is the one the next
      fill will render into. */
  predicate Steady(p: Pull)
    requires Valid(p)
  {
    p.src.playing && p.src.queue == [p.buffers[p.next], p.buffers[1 - p.next]]
  }

  /** The first tick after `audio_init` enters the steady rotation. */
  lemma FirstTickIsSteady(b0: nat, b1: nat)
    requires b0 != b1
    ensures Steady(Tick(Init(b0, b1), 0))
  {
    StoppedSourceIsPrimed(Init(b0, b1));
  }

  /** In the steady rotation a single finished buffer is the one `next`
      names, so the fresh block goes into the buffer just unqueued, and the
      rotation stays steady whether zero or one buffer has finished. */
  lemma SteadyTickRefillsConsumed(p: Pull, processed: int)
    requires Valid(p) && Steady(p) && 0 <= processed <= 1
    ensures processed == 1 ==> p.src.queue[0] == p.buffers[p.next]
    ensures Steady(Tick(p, processed))
  {
  }
}
