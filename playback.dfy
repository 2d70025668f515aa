/**
 * The playback side of the realtime voice demo, as values: the jitter-buffered
 * FIFO of assistant audio chunks, the fade-out that an interruption triggers,
 * and what one audio-device callback, one session event and one microphone
 * block do to that state. The class in RealtimeAgent performs the same steps
 * in place and is proved equal to the functions here.
 */
module Playback {
  import opened Wrappers

  const SampleRate: nat := 48000
  const FadeOutMs: nat := 12
  /** `int(SAMPLE_RATE * (FADE_OUT_MS / 1000.0))`: 576 samples at 48 kHz. */
  const FadeSamples: nat := SampleRate * FadeOutMs / 1000
  /** How many chunks must be queued before playback (re)starts. */
  const PrebufferChunks: nat := 3
  /** Microphone RMS energy at or above which the user is taken to be talking over the assistant. */
  const EnergyThreshold: real := 0.12
  const Int16Min: int := -32768
  const Int16Max: int := 32767

  function Min(a: int, b: int): int { if a <= b then a else b }
  function Max(a: int, b: int): int { if a >= b then a else b }

  /** One piece of assistant audio: its samples and the item and content part it belongs to. */
  datatype Chunk = Chunk(samples: seq<int>, itemId: string, contentIndex: int)

  /** Which item and content part a played sample belongs to. */
  datatype Tag = Tag(itemId: string, contentIndex: int)

  function TagOf(c: Chunk): Tag { Tag(c.itemId, c.contentIndex) }

  /** One report to the playback tracker: `count` samples of the given item were played. */
  datatype Report = Report(itemId: string, contentIndex: int, count: nat)

  /** The playback fields of the demo object. */
  datatype Player = Player(
    queue: seq<Chunk>,        // output_queue, head first
    current: Option<Chunk>,   // current_audio_chunk
    position: nat,            // chunk_position
    prebuffering: bool,
    fading: bool,
    fadeTotal: nat,           // fade_total_samples
    fadeDone: nat,            // fade_done_samples
    interrupt: bool)          // interrupt_event is set

  /** The state right after construction. */
  const Initial: Player := Player([], None, 0, true, false, 0, 0, false)

  /**
   * What every step keeps: an idle player is at position 0 and not fading; a
   * current chunk always has samples left; a fade is only under way during an
   * interruption and never reaches past the current chunk or beyond 576 samples;
   * and a chunk is only held while prebuffering when an interruption is pending.
   */
  predicate Inv(p: Player) {
    && (p.current.None? ==> p.position == 0 && !p.fading)
    && (p.current.Some? ==> p.position < |p.current.value.samples|)
    && (p.fading ==>
          p.current.Some? && p.interrupt && p.fadeDone < p.fadeTotal <= FadeSamples &&
          p.position + (p.fadeTotal - p.fadeDone) <= |p.current.value.samples|)
    && (p.prebuffering && p.current.Some? ==> p.interrupt)
  }

  lemma InitialInv()
    ensures Inv(Initial) && Initial.prebuffering && !Initial.interrupt && Pending(Initial) == []
  {
  }

  /** The number of chunks not yet finished. */
  function Count(p: Player): nat {
    |p.queue| + (if p.current.Some? then 1 else 0)
  }

  // ---------------------------------------------------------------------------
  // The normal path: filling a frame from the current chunk and the queue
  // ---------------------------------------------------------------------------

  /** One turn of the filling loop either stops or copies a (possibly empty) segment. */
  datatype Step = Stop(next: Player) | Continue(next: Player, copied: seq<int>, reports: seq<Report>)

  /** What a filling or fading loop produced: the new state, the samples written and the reports sent. */
  datatype Filled = Filled(next: Player, out: seq<int>, reports: seq<Report>)

  /** Taking the head of the queue as the current chunk; this ends prebuffering. */
  function Dequeue(p: Player): Player
    requires |p.queue| > 0
  {
    p.(prebuffering := false, current := Some(p.queue[0]), queue := p.queue[1..], position := 0)
  }

  /** Moving `n` samples further into the current chunk, dropping it once it is used up. */
  function Advance(p: Player, n: nat): Player
    requires p.current.Some? && p.position + n <= |p.current.value.samples|
  {
    var q := p.(position := p.position + n);
    if q.position >= |p.current.value.samples| then Drop(q) else q
  }

  /** Letting go of the current chunk. */
  function Drop(p: Player): Player {
    p.(current := None, position := 0)
  }

  /**
   * Copying from the current chunk into `room` free samples of the frame. A chunk
   * with nothing left is dropped even when nothing was copied.
   */
  function Copy(p: Player, room: nat): (r: Step)
    requires p.current.Some? && room > 0
    ensures r.Continue? && |r.copied| <= room
    ensures |r.copied| > 0 || Count(r.next) < Count(p)
  {
    var c := p.current.value;
    var n := Min(room, |c.samples| - p.position);
    if n > 0 then
      Continue(Advance(p, n), c.samples[p.position..p.position + n], [Report(c.itemId, c.contentIndex, n)])
    else
      Continue(Drop(p), [], [])
  }

  /** The copy as the source writes it: the exhausted chunk is only dropped after copying something. */
  function CopyAsWritten(p: Player, room: nat): (r: Step)
    requires p.current.Some? && room > 0
    ensures r.Continue? && |r.copied| <= room
  {
    var c := p.current.value;
    var n := Min(room, |c.samples| - p.position);
    if n > 0 then
      Continue(Advance(p, n), c.samples[p.position..p.position + n], [Report(c.itemId, c.contentIndex, n)])
    else
      Continue(p, [], [])
  }

  /**
   * One turn of the filling loop with `room > 0` samples still to fill: the
   * prebuffer gate, the dequeue, then the copy. Every turn that goes on either
   * copies a sample or finishes a chunk, so the loop ends.
   */
  function FillStep(p: Player, room: nat): (r: Step)
    requires room > 0
    ensures r.Continue? ==> |r.copied| <= room && (|r.copied| > 0 || Count(r.next) < Count(p))
  {
    if p.current.None? then
      if p.prebuffering && |p.queue| < PrebufferChunks then Stop(p)
      else if |p.queue| == 0 then Stop(p.(prebuffering := false))
      else Copy(Dequeue(p), room)
    else Copy(p, room)
  }

  /** The same turn with the copy as written. */
  function FillStepAsWritten(p: Player, room: nat): (r: Step)
    requires room > 0
    ensures r.Continue? ==> |r.copied| <= room
  {
    if p.current.None? then
      if p.prebuffering && |p.queue| < PrebufferChunks then Stop(p)
      else if |p.queue| == 0 then Stop(p.(prebuffering := false))
      else CopyAsWritten(Dequeue(p), room)
    else CopyAsWritten(p, room)
  }

  /** The whole filling loop for `room` samples. */
  function Fill(p: Player, room: nat): (r: Filled)
    ensures |r.out| <= room
    decreases room, Count(p), 1
  {
    if room == 0 then Filled(p, [], []) else FillAfter(FillStep(p, room), room, Count(p))
  }

  /** The rest of the filling loop after one turn that left `count` chunks unfinished before it. */
  function FillAfter(st: Step, room: nat, count: nat): (r: Filled)
    requires room > 0
    requires st.Continue? ==> |st.copied| <= room && (|st.copied| > 0 || Count(st.next) < count)
    ensures |r.out| <= room
    decreases room, count, 0
  {
    match st
    case Stop(q) => Filled(q, [], [])
    case Continue(q, c, rs) =>
      var rest := Fill(q, room - |c|);
      Filled(rest.next, c + rest.out, rs + rest.reports)
  }

  /** A turn of the filling loop that goes on is followed by the rest of the loop on the smaller room. */
  lemma FillContinues(p: Player, room: nat)
    requires room > 0 && FillStep(p, room).Continue?
    ensures var st := FillStep(p, room); var rest := Fill(st.next, room - |st.copied|);
      Fill(p, room) == Filled(rest.next, st.copied + rest.out, st.reports + rest.reports)
  {
  }

  /** A turn of the filling loop that stops ends the loop; so does a full frame. */
  lemma FillStops(p: Player, room: nat)
    requires room == 0 || FillStep(p, room).Stop?
    ensures Fill(p, room) == Filled(if room == 0 then p else FillStep(p, room).next, [], [])
  {
  }

  /** The audio still to be played, in order: the rest of the current chunk, then the queue. */
  function Remaining(p: Player): seq<int> {
    if p.current.Some? && p.position <= |p.current.value.samples|
    then p.current.value.samples[p.position..] else []
  }

  function Flatten(q: seq<Chunk>): seq<int> {
    if |q| == 0 then [] else q[0].samples + Flatten(q[1..])
  }

  function Pending(p: Player): seq<int> {
    Remaining(p) + Flatten(p.queue)
  }

  /** The item and content part of every sample still to be played. */
  function Repeat(t: Tag, n: nat): (r: seq<Tag>)
    ensures |r| == n
  {
    seq(n, _ => t)
  }

  function RemainingTags(p: Player): seq<Tag> {
    if p.current.Some? && p.position <= |p.current.value.samples|
    then Repeat(TagOf(p.current.value), |p.current.value.samples| - p.position) else []
  }

  function QueueTags(q: seq<Chunk>): seq<Tag> {
    if |q| == 0 then [] else Repeat(TagOf(q[0]), |q[0].samples|) + QueueTags(q[1..])
  }

  function PendingTags(p: Player): seq<Tag> {
    RemainingTags(p) + QueueTags(p.queue)
  }

  /** The tag of every sample that a list of reports accounts for. */
  function Expand(rs: seq<Report>): seq<Tag> {
    if |rs| == 0 then [] else Repeat(Tag(rs[0].itemId, rs[0].contentIndex), rs[0].count) + Expand(rs[1..])
  }

  lemma RepeatAdd(t: Tag, a: nat, b: nat)
    ensures Repeat(t, a + b) == Repeat(t, a) + Repeat(t, b)
  {
  }

  lemma {:induction false} ExpandAppend(a: seq<Report>, b: seq<Report>)
    ensures Expand(a + b) == Expand(a) + Expand(b)
    decreases |a|
  {
    if |a| > 0 {
      assert (a + b)[1..] == a[1..] + b;
      ExpandAppend(a[1..], b);
    } else {
      assert a + b == b;
    }
  }

  lemma {:induction false} FlattenTagsLength(q: seq<Chunk>)
    ensures |QueueTags(q)| == |Flatten(q)|
    decreases |q|
  {
    if |q| > 0 { FlattenTagsLength(q[1..]); }
  }

  /** Every pending sample has exactly one tag. */
  lemma PendingTagsLength(p: Player)
    ensures |PendingTags(p)| == |Pending(p)|
  {
    FlattenTagsLength(p.queue);
  }

  lemma SliceSplit(s: seq<int>, i: nat, j: nat)
    requires i <= j <= |s|
    ensures s[i..] == s[i..j] + s[j..]
  {
  }

  /** After advancing, what remains of the chunk is the rest past the `n` samples, under the same tag. */
  lemma AdvanceRest(p: Player, n: nat)
    requires p.current.Some? && p.position + n <= |p.current.value.samples|
    ensures var c := p.current.value; var q := Advance(p, n);
      q.queue == p.queue &&
      Remaining(q) == c.samples[p.position + n..] &&
      RemainingTags(q) == Repeat(TagOf(c), |c.samples| - p.position - n)
  {
  }

  /** Copying takes a prefix of the rest of the current chunk. */
  lemma CopySamples(p: Player, room: nat)
    requires p.current.Some? && room > 0
    ensures Copy(p, room).next.queue == p.queue
    ensures Remaining(p) == Copy(p, room).copied + Remaining(Copy(p, room).next)
  {
    var s := p.current.value.samples;
    var n := Min(room, |s| - p.position);
    if n > 0 {
      CopyTakes(p, room, n);
    } else {
      assert Remaining(p) == [] by {
        if p.position <= |s| { assert s[p.position..] == []; }
      }
      assert Copy(p, room) == Continue(Drop(p), [], []);
    }
  }

  lemma CopyTakes(p: Player, room: nat, n: nat)
    requires p.current.Some? && room > 0 && n == Min(room, |p.current.value.samples| - p.position) && n > 0
    ensures Copy(p, room).next.queue == p.queue
    ensures Remaining(p) == Copy(p, room).copied + Remaining(Copy(p, room).next)
  {
    var c := p.current.value;
    var s := c.samples;
    assert Copy(p, room) == Continue(Advance(p, n), s[p.position..p.position + n], [Report(c.itemId, c.contentIndex, n)]);
    AdvanceRest(p, n);
    SliceSplit(s, p.position, p.position + n);
  }

  /** Copying reports the copied samples under the current chunk's item. */
  lemma CopyTags(p: Player, room: nat)
    requires p.current.Some? && room > 0
    ensures RemainingTags(p) == Expand(Copy(p, room).reports) + RemainingTags(Copy(p, room).next)
  {
    var c := p.current.value;
    var n := Min(room, |c.samples| - p.position);
    if n > 0 {
      assert Copy(p, room).reports == [Report(c.itemId, c.contentIndex, n)];
      assert Copy(p, room).next == Advance(p, n);
      var left := |c.samples| - p.position - n;
      RepeatAdd(TagOf(c), n, left);
      AdvanceRest(p, n);
      assert Expand([Report(c.itemId, c.contentIndex, n)]) == Repeat(TagOf(c), n);
    }
  }

  lemma Regroup<T>(a: seq<T>, b: seq<T>, c: seq<T>, bc: seq<T>)
    requires bc == b + c
    ensures a + bc == (a + b) + c
  {
  }

  /** `whole` splits as `a ++ mid` and `mid` as `b ++ last`, so `whole` is `(a ++ b) ++ last`. */
  lemma Chain<T>(whole: seq<T>, a: seq<T>, mid: seq<T>, b: seq<T>, last: seq<T>, ab: seq<T>)
    requires whole == a + mid && mid == b + last && ab == a + b
    ensures whole == ab + last
  {
  }

  /** Copying moves a prefix of the pending audio into the frame and reports it under its chunk's tag. */
  lemma CopyConserves(p: Player, room: nat)
    requires p.current.Some? && room > 0
    ensures Pending(p) == Copy(p, room).copied + Pending(Copy(p, room).next)
    ensures PendingTags(p) == Expand(Copy(p, room).reports) + PendingTags(Copy(p, room).next)
  {
    var r := Copy(p, room);
    CopySamples(p, room);
    CopyTags(p, room);
    Regroup(r.copied, Remaining(r.next), Flatten(p.queue), Pending(r.next));
    Regroup(Expand(r.reports), RemainingTags(r.next), QueueTags(p.queue), PendingTags(r.next));
  }

  /** Taking the head of the queue does not change what is pending. */
  lemma DequeueConserves(p: Player)
    requires p.current.None? && |p.queue| > 0
    ensures Pending(Dequeue(p)) == Pending(p) && PendingTags(Dequeue(p)) == PendingTags(p)
  {
    var c := p.queue[0];
    assert c.samples[0..] == c.samples;
  }

  /** One turn of the loop conserves the pending audio and its tags. */
  lemma StepConserves(p: Player, room: nat)
    requires room > 0
    ensures FillStep(p, room).Stop? ==>
      Pending(FillStep(p, room).next) == Pending(p) && PendingTags(FillStep(p, room).next) == PendingTags(p)
    ensures FillStep(p, room).Continue? ==>
      Pending(p) == FillStep(p, room).copied + Pending(FillStep(p, room).next) &&
      PendingTags(p) == Expand(FillStep(p, room).reports) + PendingTags(FillStep(p, room).next)
  {
    if p.current.None? {
      if !(p.prebuffering && |p.queue| < PrebufferChunks) && |p.queue| > 0 {
        DequeueConserves(p);
        CopyConserves(Dequeue(p), room);
      }
    } else {
      CopyConserves(p, room);
    }
  }

  /** One turn of the normal path keeps the invariant and leaves the fade fields alone. */
  lemma StepKeepsInv(p: Player, room: nat)
    requires room > 0
    ensures var q := FillStep(p, room).next;
      q.interrupt == p.interrupt && q.fading == p.fading && q.fadeTotal == p.fadeTotal && q.fadeDone == p.fadeDone
    ensures Inv(p) && !p.interrupt ==> Inv(FillStep(p, room).next)
  {
  }

  /**
   * The normal path plays the pending audio strictly in FIFO order: what it
   * writes is a prefix of the pending audio, what stays pending is the rest, and
   * the reports tag every written sample with the item of the chunk it came from.
   */
  lemma FillConserves(p: Player, room: nat)
    ensures Pending(p) == Fill(p, room).out + Pending(Fill(p, room).next)
    ensures PendingTags(p) == Expand(Fill(p, room).reports) + PendingTags(Fill(p, room).next)
  {
    FillConservesSamples(p, room);
    FillConservesTags(p, room);
  }

  lemma FillConservesSamples(p: Player, room: nat)
    ensures Pending(p) == Fill(p, room).out + Pending(Fill(p, room).next)
  {
    var f := SamplesUpTo(p, room);
  }

  /** The sample conservation, by induction on the loop, handing back the loop's result. */
  lemma {:induction false} SamplesUpTo(p: Player, room: nat) returns (f: Filled)
    ensures f == Fill(p, room)
    ensures Pending(p) == f.out + Pending(f.next)
    decreases room, Count(p)
  {
    if room == 0 || FillStep(p, room).Stop? {
      FillStops(p, room);
      if room > 0 { StepConserves(p, room); }
      f := Fill(p, room);
    } else {
      var st := FillStep(p, room);
      FillContinues(p, room);
      StepConserves(p, room);
      var rest := SamplesUpTo(st.next, room - |st.copied|);
      f := Filled(rest.next, st.copied + rest.out, st.reports + rest.reports);
      Chain(Pending(p), st.copied, Pending(st.next), rest.out, Pending(rest.next), f.out);
    }
  }

  lemma FillConservesTags(p: Player, room: nat)
    ensures PendingTags(p) == Expand(Fill(p, room).reports) + PendingTags(Fill(p, room).next)
  {
    var f := TagsUpTo(p, room);
  }

  /** The tag conservation, by induction on the loop, handing back the loop's result. */
  lemma {:induction false} TagsUpTo(p: Player, room: nat) returns (f: Filled)
    ensures f == Fill(p, room)
    ensures PendingTags(p) == Expand(f.reports) + PendingTags(f.next)
    decreases room, Count(p)
  {
    if room == 0 || FillStep(p, room).Stop? {
      FillStops(p, room);
      if room > 0 { StepConserves(p, room); }
      f := Fill(p, room);
    } else {
      var st := FillStep(p, room);
      FillContinues(p, room);
      StepTags(p, room);
      var rest := TagsUpTo(st.next, room - |st.copied|);
      f := Filled(rest.next, st.copied + rest.out, st.reports + rest.reports);
      TagsLink(p, st, rest, f);
    }
  }

  lemma StepTags(p: Player, room: nat)
    requires room > 0 && FillStep(p, room).Continue?
    ensures PendingTags(p) == Expand(FillStep(p, room).reports) + PendingTags(FillStep(p, room).next)
  {
    StepConserves(p, room);
  }

  lemma TagsLink(p: Player, st: Step, rest: Filled, whole: Filled)
    requires st.Continue?
    requires PendingTags(p) == Expand(st.reports) + PendingTags(st.next)
    requires PendingTags(st.next) == Expand(rest.reports) + PendingTags(rest.next)
    requires whole == Filled(rest.next, st.copied + rest.out, st.reports + rest.reports)
    ensures PendingTags(p) == Expand(whole.reports) + PendingTags(whole.next)
  {
    ExpandAppend(st.reports, rest.reports);
    Chain(PendingTags(p), Expand(st.reports), PendingTags(st.next), Expand(rest.reports),
          PendingTags(rest.next), Expand(st.reports + rest.reports));
  }

  /** The normal path keeps the invariant and never touches the fade or the interrupt flag. */
  lemma {:induction false} FillKeepsInv(p: Player, room: nat)
    ensures var q := Fill(p, room).next;
      q.interrupt == p.interrupt && q.fading == p.fading && q.fadeTotal == p.fadeTotal && q.fadeDone == p.fadeDone
    ensures Inv(p) && !p.interrupt ==> Inv(Fill(p, room).next)
    decreases room, Count(p)
  {
    if room == 0 || FillStep(p, room).Stop? {
      FillStops(p, room);
      if room > 0 { StepKeepsInv(p, room); }
    } else {
      var st := FillStep(p, room);
      FillContinues(p, room);
      StepKeepsInv(p, room);
      FillKeepsInv(st.next, room - |st.copied|);
    }
  }

  /** The frame is left partly silent only when no audio may be played: the queue is dry or still prebuffering. */
  predicate Starved(p: Player) {
    p.current.None? && (|p.queue| == 0 || (p.prebuffering && |p.queue| < PrebufferChunks))
  }

  /** The normal path stops short of the frame length only when it is starved. */
  lemma {:induction false} FillStopsOnlyWhenStarved(p: Player, room: nat)
    ensures |Fill(p, room).out| < room ==> Starved(Fill(p, room).next)
    decreases room, Count(p)
  {
    if room == 0 || FillStep(p, room).Stop? {
      FillStops(p, room);
    } else {
      var st := FillStep(p, room);
      FillContinues(p, room);
      FillStopsOnlyWhenStarved(st.next, room - |st.copied|);
    }
  }

  /**
   * The normal path never grows the queue, it ends prebuffering only by
   * taking a chunk from a queue that held at least the prebuffer target, and it
   * never turns prebuffering back on.
   */
  lemma {:induction false} FillPrebufferFlip(p: Player, room: nat)
    ensures |Fill(p, room).next.queue| <= |p.queue|
    ensures p.prebuffering && !Fill(p, room).next.prebuffering ==>
      |p.queue| >= PrebufferChunks && |Fill(p, room).next.queue| < |p.queue|
    ensures Fill(p, room).next.prebuffering ==> p.prebuffering
    decreases room, Count(p)
  {
    if room == 0 || FillStep(p, room).Stop? {
      FillStops(p, room);
      if room > 0 { StepPrebufferFlip(p, room); }
    } else {
      var st := FillStep(p, room);
      FillContinues(p, room);
      StepPrebufferFlip(p, room);
      FillPrebufferFlip(st.next, room - |st.copied|);
    }
  }

  /** One turn of the loop never grows the queue, ends prebuffering only by a dequeue from a full enough queue, and never rearms it. */
  lemma StepPrebufferFlip(p: Player, room: nat)
    requires room > 0
    ensures |FillStep(p, room).next.queue| <= |p.queue|
    ensures p.prebuffering && !FillStep(p, room).next.prebuffering ==>
      |p.queue| >= PrebufferChunks && |FillStep(p, room).next.queue| < |p.queue|
    ensures FillStep(p, room).next.prebuffering ==> p.prebuffering
  {
  }

  // ---------------------------------------------------------------------------
  // The interrupt path: a short linear fade of the current chunk, then a flush
  // ---------------------------------------------------------------------------

  /** `np.clip(x, -32768.0, 32767.0)`. */
  function Clip(x: real): real {
    if x < Int16Min as real then Int16Min as real
    else if x > Int16Max as real then Int16Max as real
    else x
  }

  /** The float-to-int16 cast, which drops the fraction towards zero. */
  function TruncateToInt(x: real): int {
    if x >= 0.0 then x.Floor else -((-x).Floor)
  }

  /** The gain of the `idx`-th sample of a fade over `total` samples: a ramp from 1 down towards 0. */
  function Gain(idx: nat, total: nat): real
    requires idx < total
  {
    1.0 - (idx as real) / (total as real)
  }

  /** A sample scaled by gain `g`, clipped to the int16 range and cast back. */
  function Scale(x: int, g: real): int {
    TruncateToInt(Clip(x as real * g))
  }

  function RampSample(x: int, idx: nat, total: nat): int
    requires idx < total
  {
    Scale(x, Gain(idx, total))
  }

  /** The ramped copy of a segment whose first sample is the `start`-th of the fade. */
  function Ramped(seg: seq<int>, start: nat, total: nat): (r: seq<int>)
    requires start + |seg| <= total
    ensures |r| == |seg|
  {
    seq(|seg|, k requires 0 <= k < |seg| => RampSample(seg[k], start + k, total))
  }

  /** The gain starts at 1 and stays in (0, 1] over the fade. */
  lemma GainBounds(idx: nat, total: nat)
    requires idx < total
    ensures 0.0 < Gain(idx, total) <= 1.0
    ensures idx == 0 ==> Gain(idx, total) == 1.0
  {
    var q := (idx as real) / (total as real);
    assert q * (total as real) == idx as real;
    assert q < 1.0;
  }

  /** The gain falls strictly from one sample of the fade to the next. */
  lemma GainDecreasing(i: nat, j: nat, total: nat)
    requires i < j < total
    ensures Gain(j, total) < Gain(i, total)
  {
    var t := total as real;
    assert (i as real) / t < (j as real) / t by {
      assert (j as real) / t - (i as real) / t == ((j - i) as real) / t;
    }
  }

  /**
   * A faded sample is an int16 value, has the sign of the original and is no
   * louder than it; the first sample of a fade is the original sample.
   */
  lemma RampSampleBounds(x: int, idx: nat, total: nat)
    requires idx < total
    ensures Int16Min <= RampSample(x, idx, total) <= Int16Max
    ensures x >= 0 ==> 0 <= RampSample(x, idx, total) <= x
    ensures x <= 0 ==> x <= RampSample(x, idx, total) <= 0
    ensures idx == 0 && Int16Min <= x <= Int16Max ==> RampSample(x, idx, total) == x
  {
    GainBounds(idx, total);
    ScaledBounds(x, Gain(idx, total));
  }

  /** The bounds of a faded sample, for any gain in (0, 1]. */
  lemma ScaledBounds(x: int, g: real)
    requires 0.0 < g <= 1.0
    ensures Int16Min <= Scale(x, g) <= Int16Max
    ensures x >= 0 ==> 0 <= Scale(x, g) <= x
    ensures x <= 0 ==> x <= Scale(x, g) <= 0
    ensures g == 1.0 && Int16Min <= x <= Int16Max ==> Scale(x, g) == x
  {
    var y := ScaleSign(x, g);
    CastBounds(x, y);
  }

  /** Clipping and casting a value that lies between 0 and an integer `x`. */
  lemma CastBounds(x: int, y: real)
    requires x >= 0 ==> 0.0 <= y <= x as real
    requires x <= 0 ==> x as real <= y <= 0.0
    ensures Int16Min <= TruncateToInt(Clip(y)) <= Int16Max
    ensures x >= 0 ==> 0 <= TruncateToInt(Clip(y)) <= x
    ensures x <= 0 ==> x <= TruncateToInt(Clip(y)) <= 0
    ensures y == x as real && Int16Min <= x <= Int16Max ==> TruncateToInt(Clip(y)) == x
  {
    ClipBetween(x, y);
    TruncateBounds(Clip(y));
  }

  /** Scaling an integer by a gain in (0, 1] keeps its sign and never makes it louder. */
  lemma ScaleSign(x: int, g: real) returns (y: real)
    requires 0.0 < g <= 1.0
    ensures y == x as real * g
    ensures x >= 0 ==> 0.0 <= y <= x as real
    ensures x <= 0 ==> x as real <= y <= 0.0
  {
    y := x as real * g;
    if x >= 0 {
      ScaleDown(x as real, g);
    } else {
      ScaleDown(-(x as real), g);
      assert y == -((-(x as real)) * g);
    }
  }

  /** Clipping a value that lies between 0 and an integer `x` keeps it there and brings it into int16 range. */
  lemma ClipBetween(x: int, y: real)
    requires x >= 0 ==> 0.0 <= y <= x as real
    requires x <= 0 ==> x as real <= y <= 0.0
    ensures x >= 0 ==> 0.0 <= Clip(y) <= x as real
    ensures x <= 0 ==> x as real <= Clip(y) <= 0.0
    ensures Int16Min as real <= Clip(y) <= Int16Max as real
    ensures Int16Min <= x <= Int16Max ==> Clip(x as real) == x as real
  {
  }

  /** The cast moves a value towards zero by less than one, never across it. */
  lemma TruncateBounds(c: real)
    ensures c >= 0.0 ==> 0 <= TruncateToInt(c) && TruncateToInt(c) as real <= c
    ensures c <= 0.0 ==> TruncateToInt(c) <= 0 && c <= TruncateToInt(c) as real
    ensures Int16Min as real <= c <= Int16Max as real ==> Int16Min <= TruncateToInt(c) <= Int16Max
    ensures c == c.Floor as real ==> TruncateToInt(c) == c.Floor
  {
  }

  /** Scaling by a gain in (0, 1] never moves a non-negative value up or below zero. */
  lemma ScaleDown(a: real, g: real)
    requires 0.0 <= a && 0.0 < g <= 1.0
    ensures 0.0 <= a * g <= a
  {
    assert a * (1.0 - g) >= 0.0;
  }

  /** The fade bookkeeping that the interrupt path sets up once per interruption. */
  function FadeSetup(p: Player): (q: Player)
    requires p.current.Some?
    ensures q.fading && q.current == p.current && q.position == p.position && q.queue == p.queue
    ensures q.interrupt == p.interrupt && q.prebuffering == p.prebuffering
    ensures !p.fading ==> q.fadeDone == 0 && q.fadeTotal <= FadeSamples
  {
    if p.fading then p
    else p.(fading := true, fadeDone := 0,
            fadeTotal := Min(FadeSamples, Max(0, |p.current.value.samples| - p.position)))
  }

  /** What the fading loop needs of the state it starts from. */
  predicate FadeReady(p: Player) {
    p.current.Some? && p.fadeDone <= p.fadeTotal &&
    p.position + (p.fadeTotal - p.fadeDone) <= |p.current.value.samples|
  }

  /**
   * The setup fades over the rest of the current chunk, at most 576 samples;
   * a fade already under way is kept as it is.
   */
  lemma FadeSetupSpec(p: Player)
    requires Inv(p) && p.current.Some? && p.interrupt
    ensures var q := FadeSetup(p); var left := |p.current.value.samples| - p.position;
      FadeReady(q) && q.fading && 0 < q.fadeTotal <= FadeSamples && q.fadeDone < q.fadeTotal &&
      q.queue == p.queue && q.current == p.current && q.position == p.position &&
      (!p.fading ==> q.fadeDone == 0 && (q.fadeTotal == left || q.fadeTotal == FadeSamples < left))
  {
  }

  /** The fading loop over `room` free samples of the frame. */
  function FadeLoop(p: Player, room: nat): (r: Filled)
    requires FadeReady(p)
    ensures |r.out| <= room
    decreases p.fadeTotal - p.fadeDone
  {
    if room > 0 && p.fadeDone < p.fadeTotal then
      var c := p.current.value;
      var n := Min(room, p.fadeTotal - p.fadeDone);
      var out := Ramped(c.samples[p.position..p.position + n], p.fadeDone, p.fadeTotal);
      var rest := FadeLoop(p.(position := p.position + n, fadeDone := p.fadeDone + n), room - n);
      Filled(rest.next, out + rest.out, [Report(c.itemId, c.contentIndex, n)] + rest.reports)
    else
      Filled(p, [], [])
  }

  /** A turn of the fading loop that goes on ramps one segment in front of the rest of the loop. */
  lemma FadeLoopContinues(p: Player, room: nat)
    requires FadeReady(p) && room > 0 && p.fadeDone < p.fadeTotal
    ensures var n := Min(room, p.fadeTotal - p.fadeDone); var c := p.current.value;
      var rest := FadeLoop(p.(position := p.position + n, fadeDone := p.fadeDone + n), room - n);
      FadeLoop(p, room) ==
        Filled(rest.next, Ramped(c.samples[p.position..p.position + n], p.fadeDone, p.fadeTotal) + rest.out,
               [Report(c.itemId, c.contentIndex, n)] + rest.reports)
  {
  }

  /**
   * The fading loop runs at most one segment: it ramps the next `k` samples of the
   * current chunk, `k` being whichever is smaller of the free room and the fade
   * left, advances the position and the fade counter by the same `k`, and touches
   * nothing else.
   */
  lemma FadeLoopOneSegment(p: Player, room: nat)
    requires FadeReady(p)
    ensures var k := Min(room, p.fadeTotal - p.fadeDone); var r := FadeLoop(p, room); var c := p.current.value;
      r.next == p.(position := p.position + k, fadeDone := p.fadeDone + k) &&
      r.out == Ramped(c.samples[p.position..p.position + k], p.fadeDone, p.fadeTotal) &&
      r.reports == (if k > 0 then [Report(c.itemId, c.contentIndex, k)] else [])
  {
    var k := Min(room, p.fadeTotal - p.fadeDone);
    var c := p.current.value;
    if room > 0 && p.fadeDone < p.fadeTotal {
      var q := p.(position := p.position + k, fadeDone := p.fadeDone + k);
      assert FadeLoop(q, room - k) == Filled(q, [], []);
    } else {
      assert c.samples[p.position..p.position + k] == [];
    }
  }

  // ---------------------------------------------------------------------------
  // The output callback
  // ---------------------------------------------------------------------------

  /** What one callback leaves: the new state, the frame handed to the device and the tracker reports. */
  datatype CallbackResult = CallbackResult(next: Player, frame: seq<int>, reports: seq<Report>)

  function Zeros(n: nat): (z: seq<int>)
    ensures |z| == n
  {
    seq(n, _ => 0)
  }

  /** Interrupt with nothing playing: drop the queue, rearm the prebuffer, clear the flag. */
  function FlushIdle(p: Player): (r: Player)
    ensures |r.queue| == 0 && r.prebuffering && !r.interrupt
    ensures r.current == p.current && r.position == p.position
    ensures p.current.None? ==> !AssistantPlaying(r) && Pending(r) == []
  {
    p.(queue := [], prebuffering := true, interrupt := false)
  }

  /** The end of a fade: drop the chunk and the queue, rearm the prebuffer, clear the flag. */
  function FadeComplete(p: Player): (r: Player)
    ensures !AssistantPlaying(r) && Pending(r) == []
    ensures r.prebuffering && !r.interrupt && !r.fading
  {
    p.(current := None, position := 0, queue := [], fading := false, prebuffering := true, interrupt := false)
  }

  /** `_output_callback` for a frame of `frames` samples. */
  function Callback(p: Player, frames: nat): (r: CallbackResult)
    requires Inv(p)
    ensures |r.frame| == frames
  {
    if p.interrupt then
      if p.current.None? then CallbackResult(FlushIdle(p), Zeros(frames), [])
      else
        var q := FadeSetup(p);
        FadeSetupSpec(p);
        var f := FadeLoop(q, frames);
        CallbackResult(if f.next.fadeDone >= f.next.fadeTotal then FadeComplete(f.next) else f.next,
                       f.out + Zeros(frames - |f.out|), f.reports)
    else
      var f := Fill(p, frames);
      CallbackResult(f.next, f.out + Zeros(frames - |f.out|), f.reports)
  }

  /** Every callback keeps the invariant. */
  lemma CallbackKeepsInv(p: Player, frames: nat)
    requires Inv(p)
    ensures Inv(Callback(p, frames).next)
  {
    if p.interrupt {
      if p.current.Some? {
        FadeSetupSpec(p);
        FadeLoopOneSegment(FadeSetup(p), frames);
      }
    } else {
      FillKeepsInv(p, frames);
    }
  }

  /**
   * Without an interruption the frame is a prefix of the pending audio followed
   * by silence, the rest stays pending in order, the reports tag exactly the
   * samples played, and a silent tail means the player is starved.
   */
  lemma NormalCallback(p: Player, frames: nat)
    requires Inv(p) && !p.interrupt
    ensures var r := Callback(p, frames); var k := |Pending(p)| - |Pending(r.next)|;
      0 <= k <= frames && k <= |PendingTags(p)| &&
      r.frame == Pending(p)[..k] + Zeros(frames - k) &&
      Pending(r.next) == Pending(p)[k..] &&
      Expand(r.reports) == PendingTags(p)[..k] &&
      (k < frames ==> Starved(r.next))
  {
    var f := Fill(p, frames);
    FillConserves(p, frames);
    FillStopsOnlyWhenStarved(p, frames);
    PendingTagsLength(p);
    var k := |f.out|;
    assert Pending(p)[..k] == f.out && Pending(p)[k..] == Pending(f.next);
    assert PendingTags(p)[..k] == Expand(f.reports) by {
      PendingTagsLength(f.next);
    }
  }

  /** While prebuffering below the target with nothing current, a callback plays silence and changes nothing. */
  lemma CallbackGate(p: Player, frames: nat)
    requires Inv(p) && !p.interrupt && p.current.None? && p.prebuffering && |p.queue| < PrebufferChunks
    ensures Callback(p, frames) == CallbackResult(p, Zeros(frames), [])
  {
    FillStops(p, frames);
  }

  /**
   * A callback ends prebuffering only on the normal path and only by taking a
   * chunk from a full enough queue; without an interrupt it never rearms it.
   */
  lemma CallbackPrebufferFlip(p: Player, frames: nat)
    requires Inv(p)
    ensures var r := Callback(p, frames);
      p.prebuffering && !r.next.prebuffering ==>
        !p.interrupt && |p.queue| >= PrebufferChunks && |r.next.queue| < |p.queue|
    ensures !p.interrupt && !p.prebuffering ==> !Callback(p, frames).next.prebuffering
  {
    if p.interrupt {
      if p.current.Some? {
        FadeSetupSpec(p);
        FadeLoopOneSegment(FadeSetup(p), frames);
      }
    } else {
      FillPrebufferFlip(p, frames);
    }
  }

  /** Interrupt with nothing current: silence, an empty queue, prebuffering rearmed and the flag cleared. */
  lemma InterruptWhileIdle(p: Player, frames: nat)
    requires Inv(p) && p.interrupt && p.current.None?
    ensures var r := Callback(p, frames);
      r.frame == Zeros(frames) && r.reports == [] && r.next.queue == [] && Pending(r.next) == [] &&
      r.next.prebuffering && !r.next.interrupt && r.next.current.None?
  {
  }

  /**
   * Interrupt with a current chunk: the frame holds only the ramped next samples
   * of the current chunk (never queued audio) and then silence. If the fade is
   * finished the player is flushed; otherwise it keeps fading with the queue
   * untouched and both counters advanced by the frame length.
   */
  lemma InterruptFades(p: Player, frames: nat)
    requires Inv(p) && p.interrupt && p.current.Some?
    ensures var q := FadeSetup(p); var c := p.current.value; var r := Callback(p, frames);
      var k := Min(frames, q.fadeTotal - q.fadeDone);
      p.position + k <= |c.samples| && q.fadeDone + k <= q.fadeTotal &&
      r.frame == Ramped(c.samples[p.position..p.position + k], q.fadeDone, q.fadeTotal) + Zeros(frames - k) &&
      r.reports == (if k > 0 then [Report(c.itemId, c.contentIndex, k)] else []) &&
      (q.fadeDone + k == q.fadeTotal ==> r.next == FadeComplete(q.(position := p.position + k, fadeDone := q.fadeTotal))) &&
      (q.fadeDone + k < q.fadeTotal ==>
        k == frames && r.next == q.(position := p.position + frames, fadeDone := q.fadeDone + frames))
  {
    FadeSetupSpec(p);
    FadeLoopOneSegment(FadeSetup(p), frames);
  }

  /** A frame of at least 576 samples finishes any interruption in one callback. */
  lemma FadeFinishesWithinFrame(p: Player, frames: nat)
    requires Inv(p) && p.interrupt && frames >= FadeSamples
    ensures var r := Callback(p, frames);
      !r.next.interrupt && r.next.prebuffering && r.next.current.None? && r.next.queue == [] &&
      !r.next.fading && Pending(r.next) == []
  {
    if p.current.Some? {
      FadeSetupSpec(p);
      FadeLoopOneSegment(FadeSetup(p), frames);
    }
  }

  // ---------------------------------------------------------------------------
  // Session events and the microphone barge-in
  // ---------------------------------------------------------------------------

  /** The session events the dispatcher distinguishes. */
  datatype Event =
    | AgentStart | AgentEnd | Handoff | ToolStart | ToolEnd | AudioEnd
    | Audio(data: seq<int>, itemId: string, contentIndex: int)
    | AudioInterrupted
    | Error | HistoryUpdated | HistoryAdded | RawModelEvent | Unknown

  /** The state effect of `_on_event`; `upsample` stands for the 24 kHz to 48 kHz resampler. */
  function Dispatch(p: Player, e: Event, upsample: seq<int> -> seq<int>): (r: Player)
    ensures r.current == p.current && r.position == p.position && r.fading == p.fading
    ensures |r.queue| == |p.queue| + (if e.Audio? then 1 else 0)
    ensures r.interrupt == (p.interrupt || e.AudioInterrupted?)
  {
    match e
    case Audio(data, itemId, contentIndex) => p.(queue := p.queue + [Chunk(upsample(data), itemId, contentIndex)])
    case AudioInterrupted => p.(prebuffering := true, interrupt := true)
    case _ => p
  }

  lemma {:induction false} FlattenAppend(q: seq<Chunk>, c: Chunk)
    ensures Flatten(q + [c]) == Flatten(q) + c.samples
    decreases |q|
  {
    if |q| == 0 {
      assert q + [c] == [c];
    } else {
      assert (q + [c])[1..] == q[1..] + [c];
      FlattenAppend(q[1..], c);
    }
  }

  /**
   * Events keep the invariant. An audio event appends its resampled samples at
   * the end of the pending audio, an interruption sets the prebuffer and interrupt
   * flags, and every other event changes nothing.
   */
  lemma DispatchEffects(p: Player, e: Event, upsample: seq<int> -> seq<int>)
    requires Inv(p)
    ensures var q := Dispatch(p, e, upsample);
      Inv(q) &&
      (e.Audio? ==> Pending(q) == Pending(p) + upsample(e.data) &&
                    q.queue == p.queue + [Chunk(upsample(e.data), e.itemId, e.contentIndex)] &&
                    q.(queue := p.queue) == p) &&
      (e.AudioInterrupted? ==> q == p.(prebuffering := true, interrupt := true)) &&
      (!e.Audio? && !e.AudioInterrupted? ==> q == p)
  {
    if e.Audio? {
      FlattenAppend(p.queue, Chunk(upsample(e.data), e.itemId, e.contentIndex));
    }
  }

  /** One microphone block: the new state and the block sent to the session, if any. */
  datatype CaptureResult = CaptureResult(next: Player, sent: Option<seq<int>>)

  predicate AssistantPlaying(p: Player) {
    p.current.Some? || |p.queue| > 0
  }

  /** The barge-in branch of the capture loop; `block` is the block after downsampling. */
  function Capture(p: Player, energy: real, block: seq<int>): (r: CaptureResult)
    ensures r.sent.Some? ==> r.sent.value == block
    ensures r.next.current == p.current && r.next.position == p.position && r.next.queue == p.queue
    ensures r.next.interrupt ==> p.interrupt || energy >= EnergyThreshold
  {
    if AssistantPlaying(p) then
      if energy >= EnergyThreshold then CaptureResult(p.(interrupt := true), Some(block))
      else CaptureResult(p, None)
    else CaptureResult(p, Some(block))
  }

  /**
   * A block is held back exactly when the assistant is playing and the user is
   * quiet; the interrupt is raised exactly when the user talks over the
   * assistant; nothing else changes and the invariant is kept.
   */
  lemma CaptureSpec(p: Player, energy: real, block: seq<int>)
    requires Inv(p)
    ensures var r := Capture(p, energy, block);
      Inv(r.next) &&
      (r.sent.None? <==> AssistantPlaying(p) && energy < EnergyThreshold) &&
      (r.sent.Some? ==> r.sent.value == block) &&
      (r.next.interrupt <==> p.interrupt || (AssistantPlaying(p) && energy >= EnergyThreshold)) &&
      r.next == p.(interrupt := r.next.interrupt)
  {
  }

  // ---------------------------------------------------------------------------
  // The zero-length chunk
  // ---------------------------------------------------------------------------

  /**
   * As written, a current chunk with no samples is never dropped: a turn of the
   * loop leaves the state as it is and copies nothing, so the loop never ends.
   */
  lemma AsWrittenStallsOnEmptyChunk(p: Player, room: nat)
    requires p.current.None? && !p.prebuffering && |p.queue| > 0 && p.queue[0].samples == [] && room > 0
    ensures FillStepAsWritten(p, room) == Continue(Dequeue(p), [], [])
    ensures FillStepAsWritten(Dequeue(p), room) == Continue(Dequeue(p), [], [])
    ensures FillStep(p, room) == Continue(Dequeue(p).(current := None), [], [])
    ensures Count(FillStep(p, room).next) < Count(p)
  {
  }

  /** As long as every queued chunk has samples, the written and the corrected loop turn agree. */
  lemma AsWrittenAgrees(p: Player, room: nat)
    requires Inv(p) && room > 0
    requires forall i :: 0 <= i < |p.queue| ==> |p.queue[i].samples| > 0
    ensures FillStepAsWritten(p, room) == FillStep(p, room)
  {
    if p.current.None? && |p.queue| > 0 {
      assert |p.queue[0].samples| > 0;
    }
  }
}
