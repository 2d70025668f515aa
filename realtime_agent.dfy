/**
 * The demo object that owns the playback state. Its audio-device callback, its
 * session-event handler and one turn of its microphone loop update the fields
 * in place; each is proved to do exactly what the matching function of Playback
 * describes, so every property proved there holds of the object.
 */
module RealtimeAgent {
  import opened Wrappers
  import opened Playback

  /** Python's `s[:m]` for any int `m`: a negative `m` counts from the end. */
  function PrefixUpTo(s: string, m: int): (r: string)
    ensures r <= s
  {
    if m >= 0 then s[..Min(m, |s|)] else s[..Max(0, |s| + m)]
  }

  /** `_truncate_str`: a string longer than `maxLength` is cut there and marked with "...". */
  function TruncateStr(s: string, maxLength: int): (r: string)
    ensures |s| <= maxLength ==> r == s
    ensures maxLength >= 0 ==> |r| <= maxLength + 3
    ensures |s| > maxLength ==> |r| >= 3 && r[..|r| - 3] <= s
  {
    if |s| > maxLength then PrefixUpTo(s, maxLength) + "..." else s
  }

  /**
   * A short string comes back unchanged; a long one becomes its first
   * `maxLength` characters followed by "...", so it is never longer than
   * `maxLength + 3` and always starts like the original.
   */
  lemma TruncateStrSpec(s: string, maxLength: nat)
    ensures |s| <= maxLength ==> TruncateStr(s, maxLength) == s
    ensures |s| > maxLength ==>
      TruncateStr(s, maxLength) == s[..maxLength] + "..." && |TruncateStr(s, maxLength)| == maxLength + 3
    ensures |TruncateStr(s, maxLength)| <= maxLength + 3
    ensures TruncateStr(s, maxLength)[..Min(|s|, maxLength)] == s[..Min(|s|, maxLength)]
  {
  }

  /** Regrouping a concatenation, for the ghost report log. */
  lemma Associative<T>(a: seq<T>, b: seq<T>, c: seq<T>)
    ensures (a + b) + c == a + (b + c)
  {
  }

  /** The output written so far in front of what the rest of a loop will write. */
  function Prepend(out: seq<int>, rs: seq<Report>, f: Filled): Filled {
    Filled(f.next, out + f.out, rs + f.reports)
  }

  lemma PrependTwice(a: seq<int>, ra: seq<Report>, b: seq<int>, rb: seq<Report>, f: Filled)
    ensures Prepend(a, ra, Prepend(b, rb, f)) == Prepend(a + b, ra + rb, f)
  {
    assert a + (b + f.out) == (a + b) + f.out;
    assert ra + (rb + f.reports) == (ra + rb) + f.reports;
  }

  /**
   * What the filling loop from `p` over a frame of `frames` samples keeps after
   * `filled` samples: the whole loop is what has been written and played so far
   * followed by `rest`, the loop from the present state `cur`.
   */
  ghost predicate FillSoFar(p: Player, frames: nat, filled: int, written: seq<int>, played: seq<Report>,
                            rest: Filled, cur: Player)
  {
    0 <= filled <= frames && |written| == filled &&
    rest == Fill(cur, frames - filled) && Fill(p, frames) == Prepend(written, played, rest)
  }

  /** The filling loop's account of a frame stays right across a turn that goes on. */
  lemma FillAdvances(p: Player, frames: nat, filled: nat, written: seq<int>, played: seq<Report>, rest: Filled, s: Player)
    returns (rest': Filled)
    requires FillSoFar(p, frames, filled, written, played, rest, s) && filled < frames
    requires FillStep(s, frames - filled).Continue?
    ensures var st := FillStep(s, frames - filled);
      FillSoFar(p, frames, filled + |st.copied|, written + st.copied, played + st.reports, rest', st.next)
  {
    var room := frames - filled;
    var st := FillStep(s, room);
    rest' := Fill(st.next, room - |st.copied|);
    FillContinues(s, room);
    assert rest == Prepend(st.copied, st.reports, rest');
    PrependTwice(written, played, st.copied, st.reports, rest');
  }

  /** A turn that stops the filling loop leaves the loop's result as what has been written and played. */
  lemma FillTurnStops(p: Player, frames: nat, filled: nat, written: seq<int>, played: seq<Report>, rest: Filled, s: Player)
    requires FillSoFar(p, frames, filled, written, played, rest, s) && filled < frames
    requires FillStep(s, frames - filled).Stop?
    ensures Fill(p, frames) == Prepend(written, played, Filled(FillStep(s, frames - filled).next, [], []))
  {
    FillStops(s, frames - filled);
  }

  /**
   * What the fading loop from `q` over a frame of `frames` samples keeps after
   * `filled` samples: `cur` is ready to fade and the whole loop is what has been
   * written and played so far followed by `rest`, the loop from `cur`.
   */
  ghost predicate FadeSoFar(q: Player, frames: nat, filled: int, written: seq<int>, played: seq<Report>,
                            rest: Filled, cur: Player)
  {
    FadeReady(q) && FadeReady(cur) && 0 <= filled <= frames && |written| == filled &&
    rest == FadeLoop(cur, frames - filled) && FadeLoop(q, frames) == Prepend(written, played, rest)
  }

  /** The fading loop's account of a frame stays right across one ramped segment. */
  lemma FadeAdvances(q: Player, frames: nat, filled: nat, written: seq<int>, played: seq<Report>, rest: Filled,
                     s: Player, out: seq<int>, report: Report, next: Player)
    returns (rest': Filled)
    requires FadeSoFar(q, frames, filled, written, played, rest, s) && filled < frames && s.fadeDone < s.fadeTotal
    requires var n := Min(frames - filled, s.fadeTotal - s.fadeDone); var c := s.current.value;
      out == Ramped(c.samples[s.position..s.position + n], s.fadeDone, s.fadeTotal) &&
      report == Report(c.itemId, c.contentIndex, n) &&
      next == s.(position := s.position + n, fadeDone := s.fadeDone + n)
    ensures FadeSoFar(q, frames, filled + |out|, written + out, played + [report], rest', next)
  {
    var room := frames - filled;
    var n := Min(room, s.fadeTotal - s.fadeDone);
    rest' := FadeLoop(next, room - n);
    FadeLoopContinues(s, room);
    assert rest == Prepend(out, [report], rest');
    PrependTwice(written, played, out, [report], rest');
    assert |out| == n;
  }

  class NoUIDemo {
    var outputQueue: seq<Chunk>
    var currentAudioChunk: Option<Chunk>
    var chunkPosition: nat
    var prebuffering: bool
    const prebufferTargetChunks: nat
    var fading: bool
    var fadeTotalSamples: nat
    var fadeDoneSamples: nat
    const fadeSamples: nat
    /** Whether `interrupt_event` is set. */
    var interruptEvent: bool
    /** Everything reported to the playback tracker so far, oldest first. */
    ghost var reports: seq<Report>

    function State(): Player
      reads this
    {
      Player(outputQueue, currentAudioChunk, chunkPosition, prebuffering,
             fading, fadeTotalSamples, fadeDoneSamples, interruptEvent)
    }

    predicate Valid()
      reads this
    {
      Inv(State()) && prebufferTargetChunks == PrebufferChunks && fadeSamples == FadeSamples
    }

    /** `__init__`: an empty queue, nothing playing, and prebuffering armed. */
    constructor ()
      ensures Valid() && State() == Initial && reports == []
    {
      outputQueue := [];
      currentAudioChunk := None;
      chunkPosition := 0;
      prebuffering := true;
      prebufferTargetChunks := PrebufferChunks;
      fading := false;
      fadeTotalSamples := 0;
      fadeDoneSamples := 0;
      fadeSamples := SampleRate * FadeOutMs / 1000;
      interruptEvent := false;
      reports := [];
    }

    /** Drains the queue one chunk at a time. */
    method ClearQueue()
      modifies this
      ensures State() == old(State()).(queue := [])
      ensures reports == old(reports)
    {
      while |outputQueue| > 0
        invariant State() == old(State()).(queue := outputQueue)
        invariant reports == old(reports)
        decreases |outputQueue|
      {
        outputQueue := outputQueue[1..];
      }
    }

    /** `outdata.fill(0)`. */
    method Silence(outdata: array<int>)
      modifies outdata
      ensures outdata[..] == Zeros(outdata.Length)
    {
      forall i | 0 <= i < outdata.Length {
        outdata[i] := 0;
      }
    }

    /**
     * `_output_callback` for a frame of `outdata.Length` samples: the frame, the
     * new state and the tracker reports are those of `Callback`, and the object
     * stays valid.
     */
    method OutputCallback(outdata: array<int>)
      requires Valid()
      modifies this, outdata
      ensures Valid()
      ensures var r := Callback(old(State()), outdata.Length);
        State() == r.next && outdata[..] == r.frame && reports == old(reports) + r.reports
    {
      ghost var p := State();
      CallbackKeepsInv(p, outdata.Length);
      if interruptEvent {
        Silence(outdata);
        if currentAudioChunk.None? {
          ClearQueue();
          prebuffering := true;
          interruptEvent := false;
          return;
        }
        FadeOut(outdata);
        return;
      }
      Silence(outdata);
      PlayQueued(outdata);
    }

    /** The interrupt path with a current chunk: the fade setup, the ramp, and the flush once the fade is done. */
    method FadeOut(outdata: array<int>)
      requires Valid() && interruptEvent && currentAudioChunk.Some?
      requires outdata[..] == Zeros(outdata.Length)
      modifies this, outdata
      ensures var r := Callback(old(State()), outdata.Length);
        State() == r.next && outdata[..] == r.frame && reports == old(reports) + r.reports
    {
      ghost var p := State();
      if !fading {
        fading := true;
        fadeDoneSamples := 0;
        var remainingInChunk := |currentAudioChunk.value.samples| - chunkPosition;
        fadeTotalSamples := Min(fadeSamples, Max(0, remainingInChunk));
      }
      assert State() == FadeSetup(p);
      FadeSetupSpec(p);
      RampDown(outdata);
      if fadeDoneSamples >= fadeTotalSamples {
        currentAudioChunk := None;
        chunkPosition := 0;
        ClearQueue();
        fading := false;
        prebuffering := true;
        interruptEvent := false;
      }
    }

    /** The fading loop: ramps the next samples of the current chunk into the silent frame. */
    method RampDown(outdata: array<int>)
      requires FadeReady(State())
      requires outdata[..] == Zeros(outdata.Length)
      modifies this, outdata
      ensures var f := FadeLoop(old(State()), outdata.Length);
        State() == f.next && outdata[..] == f.out + Zeros(outdata.Length - |f.out|) &&
        reports == old(reports) + f.reports
    {
      ghost var q := State();
      var samples := currentAudioChunk.value.samples;
      var itemId := currentAudioChunk.value.itemId;
      var contentIndex := currentAudioChunk.value.contentIndex;
      var samplesFilled := 0;
      ghost var written: seq<int> := [];
      ghost var played: seq<Report> := [];
      ghost var rest := FadeLoop(q, outdata.Length);
      assert Prepend([], [], rest) == rest;
      assert reports == old(reports) + [];
      while samplesFilled < outdata.Length && fadeDoneSamples < fadeTotalSamples
        invariant FadeSoFar(q, outdata.Length, samplesFilled, written, played, rest, State())
        invariant currentAudioChunk == Some(Chunk(samples, itemId, contentIndex))
        invariant outdata[..] == written + Zeros(outdata.Length - samplesFilled)
        invariant reports == old(reports) + played
        decreases fadeTotalSamples - fadeDoneSamples
      {
        samplesFilled, written, played, rest :=
          RampSegment(outdata, samplesFilled, samples, itemId, contentIndex, written, old(reports), played, rest, q);
      }
      assert written + [] == written && played + [] == played;
    }

    /** One turn of the fading loop: ramps the next segment into the frame after `filled` samples. */
    method RampSegment(outdata: array<int>, filled: nat, samples: seq<int>, itemId: string, contentIndex: int,
                       ghost written: seq<int>, ghost base: seq<Report>, ghost played: seq<Report>,
                       ghost rest: Filled, ghost q: Player)
      returns (filled': nat, ghost written': seq<int>, ghost played': seq<Report>, ghost rest': Filled)
      requires FadeSoFar(q, outdata.Length, filled, written, played, rest, State())
      requires currentAudioChunk == Some(Chunk(samples, itemId, contentIndex))
      requires outdata[..] == written + Zeros(outdata.Length - filled)
      requires reports == base + played
      requires filled < outdata.Length && fadeDoneSamples < fadeTotalSamples
      modifies this, outdata
      ensures FadeSoFar(q, outdata.Length, filled', written', played', rest', State())
      ensures currentAudioChunk == Some(Chunk(samples, itemId, contentIndex))
      ensures outdata[..] == written' + Zeros(outdata.Length - filled')
      ensures reports == base + played'
      ensures fadeTotalSamples == old(fadeTotalSamples) && fadeDoneSamples > old(fadeDoneSamples)
    {
      var remainingOutput := outdata.Length - filled;
      var remainingFade := fadeTotalSamples - fadeDoneSamples;
      var n := Min(remainingOutput, remainingFade);
      var ramped := Ramped(samples[chunkPosition..chunkPosition + n], fadeDoneSamples, fadeTotalSamples);
      ghost var report := Report(itemId, contentIndex, n);
      ghost var next := State().(position := chunkPosition + n, fadeDone := fadeDoneSamples + n);
      rest' := FadeAdvances(q, outdata.Length, filled, written, played, rest, State(), ramped, report, next);
      Blit(outdata, filled, written, ramped);
      reports := reports + [report];
      Associative(base, played, [report]);
      filled' := filled + n;
      chunkPosition := chunkPosition + n;
      fadeDoneSamples := fadeDoneSamples + n;
      written' := written + ramped;
      played' := played + [report];
      assert State() == next;
    }

    /** The normal path: fill the silent frame from the current chunk and the queue, behind the prebuffer gate. */
    method PlayQueued(outdata: array<int>)
      requires Valid()
      requires outdata[..] == Zeros(outdata.Length)
      modifies this, outdata
      ensures var f := Fill(old(State()), outdata.Length);
        State() == f.next && outdata[..] == f.out + Zeros(outdata.Length - |f.out|) &&
        reports == old(reports) + f.reports
    {
      ghost var p := State();
      var samplesFilled := 0;
      ghost var written: seq<int> := [];
      ghost var played: seq<Report> := [];
      ghost var rest := Fill(p, outdata.Length);
      assert Prepend([], [], rest) == rest;
      assert reports == old(reports) + [];
      while samplesFilled < outdata.Length
        invariant FillSoFar(p, outdata.Length, samplesFilled, written, played, rest, State())
        invariant outdata[..] == written + Zeros(outdata.Length - samplesFilled)
        invariant reports == old(reports) + played
        decreases outdata.Length - samplesFilled, Count(State())
      {
        var stopped;
        samplesFilled, stopped, written, played, rest :=
          FillTurn(outdata, samplesFilled, written, old(reports), played, rest, p);
        if stopped {
          break;
        }
      }
      if samplesFilled == outdata.Length {
        FillStops(State(), 0);
      }
      assert written + [] == written && played + [] == played;
    }

    /**
     * One turn of the filling loop with the frame filled up to `filled`: the
     * prebuffer gate, the dequeue and the copy of `FillStep`. When the turn stops
     * the loop, the loop from `p` is what has been written and played.
     */
    method FillTurn(outdata: array<int>, filled: nat, ghost written: seq<int>, ghost base: seq<Report>,
                    ghost played: seq<Report>, ghost rest: Filled, ghost p: Player)
      returns (filled': nat, stopped: bool, ghost written': seq<int>, ghost played': seq<Report>, ghost rest': Filled)
      requires prebufferTargetChunks == PrebufferChunks
      requires FillSoFar(p, outdata.Length, filled, written, played, rest, State()) && filled < outdata.Length
      requires outdata[..] == written + Zeros(outdata.Length - filled) && reports == base + played
      modifies this, outdata
      ensures filled' <= outdata.Length
      ensures outdata[..] == written' + Zeros(outdata.Length - filled') && reports == base + played'
      ensures stopped ==> filled' == filled && Fill(p, outdata.Length) == Prepend(written', played', Filled(State(), [], []))
      ensures !stopped ==> FillSoFar(p, outdata.Length, filled', written', played', rest', State())
      ensures !stopped ==> filled' > filled || (filled' == filled && Count(State()) < Count(old(State())))
    {
      ghost var s := State();
      ghost var room := outdata.Length - filled;
      written', played', rest' := written, played, rest;
      if currentAudioChunk.None? {
        if prebuffering && |outputQueue| < prebufferTargetChunks {
          FillTurnStops(p, outdata.Length, filled, written, played, rest, s);
          return filled, true, written', played', rest';
        }
        prebuffering := false;
        if |outputQueue| == 0 {
          FillTurnStops(p, outdata.Length, filled, written, played, rest, s);
          return filled, true, written', played', rest';
        }
        currentAudioChunk := Some(outputQueue[0]);
        outputQueue := outputQueue[1..];
        chunkPosition := 0;
      }
      assert FillStep(s, room) == Copy(State(), room);
      filled', written', played', rest' := PlayCurrent(outdata, filled, written, base, played, rest, p, s);
      stopped := false;
    }

    /** The copy that ends a turn going on, with the filling loop's account carried across it. */
    method PlayCurrent(outdata: array<int>, filled: nat, ghost written: seq<int>, ghost base: seq<Report>,
                       ghost played: seq<Report>, ghost rest: Filled, ghost p: Player, ghost s: Player)
      returns (filled': nat, ghost written': seq<int>, ghost played': seq<Report>, ghost rest': Filled)
      requires currentAudioChunk.Some? && filled < outdata.Length
      requires FillSoFar(p, outdata.Length, filled, written, played, rest, s)
      requires FillStep(s, outdata.Length - filled) == Copy(State(), outdata.Length - filled) && Count(State()) == Count(s)
      requires outdata[..] == written + Zeros(outdata.Length - filled) && reports == base + played
      modifies this, outdata
      ensures filled' <= outdata.Length
      ensures outdata[..] == written' + Zeros(outdata.Length - filled') && reports == base + played'
      ensures FillSoFar(p, outdata.Length, filled', written', played', rest', State())
      ensures filled' > filled || (filled' == filled && Count(State()) < Count(s))
    {
      ghost var st := FillStep(s, outdata.Length - filled);
      filled' := CopyFromCurrent(outdata, filled, written);
      Associative(base, played, st.reports);
      rest' := FillAdvances(p, outdata.Length, filled, written, played, rest, s);
      written', played' := written + st.copied, played + st.reports;
    }

    /** One copy from the current chunk into the frame from position `filled` on. */
    method CopyFromCurrent(outdata: array<int>, filled: nat, ghost written: seq<int>) returns (filled': nat)
      requires currentAudioChunk.Some?
      requires filled == |written| < outdata.Length && outdata[..] == written + Zeros(outdata.Length - filled)
      modifies this, outdata
      ensures var r := Copy(old(State()), outdata.Length - filled);
        State() == r.next && filled' == filled + |r.copied| &&
        outdata[..] == written + r.copied + Zeros(outdata.Length - filled') &&
        reports == old(reports) + r.reports
    {
      var samples := currentAudioChunk.value.samples;
      var itemId := currentAudioChunk.value.itemId;
      var contentIndex := currentAudioChunk.value.contentIndex;
      var remainingOutput := outdata.Length - filled;
      var remainingChunk := |samples| - chunkPosition;
      var samplesToCopy := Min(remainingOutput, remainingChunk);
      filled' := filled;
      if samplesToCopy > 0 {
        var chunkData := samples[chunkPosition..chunkPosition + samplesToCopy];
        Blit(outdata, filled, written, chunkData);
        filled' := filled + samplesToCopy;
        chunkPosition := chunkPosition + samplesToCopy;
        reports := reports + [Report(itemId, contentIndex, samplesToCopy)];
      }
      // A used-up chunk is let go of even when nothing was copied from it.
      if chunkPosition >= |samples| {
        currentAudioChunk := None;
        chunkPosition := 0;
      }
    }

    /** `_on_event`: an audio event queues its resampled samples, an interruption arms the fade and the prebuffer. */
    method OnEvent(e: Event, upsample: seq<int> -> seq<int>)
      requires Valid()
      modifies this
      ensures Valid() && State() == Dispatch(old(State()), e, upsample) && reports == old(reports)
    {
      DispatchEffects(State(), e, upsample);
      match e
      case Audio(data, itemId, contentIndex) =>
        var audio48k := upsample(data);
        outputQueue := outputQueue + [Chunk(audio48k, itemId, contentIndex)];
      case AudioInterrupted =>
        prebuffering := true;
        interruptEvent := true;
      case _ =>
    }

    /**
     * The barge-in decision for one microphone block of the given energy: returns
     * the block to send to the session, if any, and raises the interrupt when the
     * user talks over the assistant.
     */
    method CaptureBlock(energy: real, block: seq<int>) returns (sent: Option<seq<int>>)
      requires Valid()
      modifies this
      ensures var r := Capture(old(State()), energy, block);
        Valid() && State() == r.next && sent == r.sent && reports == old(reports)
    {
      CaptureSpec(State(), energy, block);
      var assistantPlaying := currentAudioChunk.Some? || |outputQueue| > 0;
      sent := None;
      if assistantPlaying {
        if energy >= EnergyThreshold {
          interruptEvent := true;
          sent := Some(block);
        }
      } else {
        sent := Some(block);
      }
    }
  }

  /**
   * Numpy's slice assignment `a[at : at + len(seg)] = seg` into a frame that
   * holds `written` and then silence from `at` on.
   */
  method Blit(a: array<int>, at: nat, ghost written: seq<int>, seg: seq<int>)
    requires at == |written| && at + |seg| <= a.Length && a[..] == written + Zeros(a.Length - at)
    modifies a
    ensures a[..] == written + seg + Zeros(a.Length - |written| - |seg|)
  {
    forall i | 0 <= i < |seg| {
      a[at + i] := seg[i];
    }
    assert a[..] == written + seg + Zeros(a.Length - at - |seg|) by {
      forall j | 0 <= j < a.Length
        ensures a[j] == (written + seg + Zeros(a.Length - at - |seg|))[j]
      {
        if j < at {
          assert a[j] == old(a[..])[j];
        } else if j >= at + |seg| {
          assert a[j] == old(a[..])[j];
        }
      }
    }
  }
}
