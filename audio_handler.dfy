/**
 * Audio capture: the recording flag that gates the capture callback, and the
 * assembly loop that buffers captured blocks and hands one concatenated chunk
 * on whenever two seconds of samples have been collected.
 */
module Audio {
  import opened Wrappers
  import opened Config

  /** One captured block: its samples, in order (mono, one value per frame). */
  type Frame = seq<real>

  /** The samples a chunk needs before it is handed on: CHUNK_DURATION seconds at SAMPLE_RATE. */
  const THRESHOLD: nat := CHUNK_DURATION * SAMPLE_RATE

  /** The buffered duration in seconds, kept exactly. */
  function Duration(samples: nat): real
  {
    samples as real / SAMPLE_RATE as real
  }

  /** Comparing the duration with CHUNK_DURATION is comparing the sample count with the threshold. */
  lemma DurationReachesChunk(samples: nat)
    ensures Duration(samples) >= CHUNK_DURATION as real <==> samples >= THRESHOLD
    ensures THRESHOLD == CHUNK_SIZE
  {
    var d := Duration(samples);
    assert d * SAMPLE_RATE as real == samples as real;
  }

  /** The blocks joined end to end, `np.concatenate`. */
  function Concat(frames: seq<Frame>): seq<real>
  {
    if frames == [] then [] else Concat(frames[..|frames| - 1]) + frames[|frames| - 1]
  }

  lemma ConcatSnoc(frames: seq<Frame>, f: Frame)
    ensures Concat(frames + [f]) == Concat(frames) + f
  {
    assert (frames + [f])[..|frames|] == frames;
  }

  /**
   * What one pass of the loop sees: whether the loop test found the recording
   * flag set, what the queue read gave (a block, or nothing before the
   * timeout), and whether handing a chunk on would succeed (the conversion
   * and the chunk callback may raise).
   */
  datatype Tick = Tick(recording: bool, frame: Option<Frame>, delivered: bool)

  /** The loop's local state: the chunks handed on so far, the buffer and its sample count. */
  datatype Assembly = Assembly(emitted: seq<seq<real>>, buffer: seq<Frame>, samples: nat)

  /**
   * One pass with a block: it joins the buffer; once the buffer holds enough
   * samples the concatenation is handed on and the buffer reset. If handing
   * on raises, the reset is skipped and the block stays buffered.
   */
  function Step(st: Assembly, t: Tick): Assembly
  {
    match t.frame
    case None => st
    case Some(f) =>
      var buffer := st.buffer + [f];
      var samples := st.samples + |f|;
      if samples >= THRESHOLD && t.delivered then Assembly(st.emitted + [Concat(buffer)], [], 0)
      else Assembly(st.emitted, buffer, samples)
  }

  /** The loop from a state over the given passes, up to the first pass that finds recording stopped. */
  function RunFrom(st: Assembly, ticks: seq<Tick>): Assembly
    decreases |ticks|
  {
    if ticks == [] || !ticks[0].recording then st else RunFrom(Step(st, ticks[0]), ticks[1..])
  }

  /** The whole loop, from its empty buffer. */
  function Run(ticks: seq<Tick>): Assembly
  {
    RunFrom(Assembly([], [], 0), ticks)
  }

  /** The blocks the loop takes from the queue before it stops. */
  function Received(ticks: seq<Tick>): seq<Frame>
    decreases |ticks|
  {
    if ticks == [] || !ticks[0].recording then []
    else (match ticks[0].frame case Some(f) => [f] case None => []) + Received(ticks[1..])
  }

  /** The loop of `_process_audio_chunks`, over the passes it makes. */
  method ProcessAudioChunks(ticks: seq<Tick>) returns (emitted: seq<seq<real>>, buffer: seq<Frame>, samples: nat)
    ensures Assembly(emitted, buffer, samples) == Run(ticks)
  {
    emitted, buffer, samples := [], [], 0;
    var i := 0;
    while i < |ticks| && ticks[i].recording
      invariant 0 <= i <= |ticks|
      invariant RunFrom(Assembly(emitted, buffer, samples), ticks[i..]) == Run(ticks)
    {
      var t := ticks[i];
      assert ticks[i..][1..] == ticks[i + 1..];
      match t.frame {
        case None =>
        case Some(f) =>
          buffer := buffer + [f];
          samples := samples + |f|;
          if samples >= CHUNK_DURATION * SAMPLE_RATE && t.delivered {
            emitted := emitted + [Concat(buffer)];
            buffer := [];
            samples := 0;
          }
      }
      i := i + 1;
    }
  }

  /** The sample count is the buffer's size, and every chunk handed on is at least two seconds long. */
  ghost predicate Consistent(st: Assembly)
  {
    && st.samples == |Concat(st.buffer)|
    && forall k :: 0 <= k < |st.emitted| ==> |st.emitted[k]| >= THRESHOLD
  }

  lemma StepConsistent(st: Assembly, t: Tick)
    requires Consistent(st)
    ensures Consistent(Step(st, t))
  {
    if t.frame.Some? {
      ConcatSnoc(st.buffer, t.frame.value);
    }
  }

  /**
   * Whatever happens, the sample count matches the buffer and no chunk
   * shorter than two seconds is handed on; a partial buffer left when
   * recording stops is dropped, never sent.
   */
  lemma {:induction false} RunConsistent(st: Assembly, ticks: seq<Tick>)
    requires Consistent(st)
    ensures Consistent(RunFrom(st, ticks))
    decreases |ticks|
  {
    if ticks != [] && ticks[0].recording {
      StepConsistent(st, ticks[0]);
      RunConsistent(Step(st, ticks[0]), ticks[1..]);
    }
  }

  /**
   * No sample is lost, duplicated or reordered: the chunks handed on, followed
   * by what is still buffered, are exactly the received blocks in arrival order.
   */
  lemma {:induction false} RunConserves(st: Assembly, ticks: seq<Tick>)
    ensures var end := RunFrom(st, ticks);
      Concat(end.emitted) + Concat(end.buffer) == Concat(st.emitted) + Concat(st.buffer) + Concat(Received(ticks))
    decreases |ticks|
  {
    if ticks != [] && ticks[0].recording {
      var next := Step(st, ticks[0]);
      RunConserves(next, ticks[1..]);
      var got := match ticks[0].frame case Some(f) => [f] case None => [];
      var rest := Received(ticks[1..]);
      assert Received(ticks) == got + rest;
      StepConserves(st, ticks[0]);
      ConcatAppend(got, rest);
    }
  }

  /** One pass moves its block, if any, to the end of what is emitted and buffered. */
  lemma StepConserves(st: Assembly, t: Tick)
    ensures var next := Step(st, t);
      Concat(next.emitted) + Concat(next.buffer) ==
        Concat(st.emitted) + Concat(st.buffer) + Concat(match t.frame case Some(f) => [f] case None => [])
  {
    match t.frame {
      case None =>
      case Some(f) =>
        ConcatSnoc([], f);
        assert [] + [f] == [f];
        ConcatSnoc(st.buffer, f);
        if st.samples + |f| >= THRESHOLD && t.delivered {
          ConcatSnoc(st.emitted, Concat(st.buffer + [f]));
        }
    }
  }

  /** Joining two runs of blocks is joining their concatenations. */
  lemma ConcatAppend(a: seq<Frame>, b: seq<Frame>)
    requires |a| <= 1
    ensures Concat(a + b) == Concat(a) + Concat(b)
  {
    if a == [] {
      assert a + b == b;
    } else {
      ConcatPrepend(a[0], b);
      assert a == [a[0]];
      ConcatSnoc([], a[0]);
      assert [] + [a[0]] == [a[0]];
    }
  }

  lemma {:induction false} ConcatPrepend(f: Frame, frames: seq<Frame>)
    ensures Concat([f] + frames) == f + Concat(frames)
    decreases |frames|
  {
    if frames != [] {
      var n := |frames| - 1;
      ConcatPrepend(f, frames[..n]);
      assert ([f] + frames)[..n + 1] == [f] + frames[..n];
    } else {
      assert [f] + frames == [f];
      assert Concat([f]) == Concat([]) + f;
    }
  }

  /** The loop from the empty buffer hands on all it received, except what is still buffered. */
  lemma RunFromEmpty(ticks: seq<Tick>)
    ensures Concat(Run(ticks).emitted) + Concat(Run(ticks).buffer) == Concat(Received(ticks))
    ensures Consistent(Run(ticks))
  {
    RunConserves(Assembly([], [], 0), ticks);
    RunConsistent(Assembly([], [], 0), ticks);
  }

  /** Every pass whose hand-on would succeed. */
  ghost predicate AllDelivered(ticks: seq<Tick>)
  {
    forall j :: 0 <= j < |ticks| ==> ticks[j].delivered
  }

  /** While every hand-on succeeds, the buffer holds less than two seconds between passes. */
  lemma {:induction false} BufferStaysShort(st: Assembly, ticks: seq<Tick>)
    requires st.samples < THRESHOLD
    requires AllDelivered(ticks)
    ensures RunFrom(st, ticks).samples < THRESHOLD
    decreases |ticks|
  {
    if ticks != [] && ticks[0].recording {
      BufferStaysShort(Step(st, ticks[0]), ticks[1..]);
    }
  }

  /**
   * With the capture block size equal to one chunk, every block is handed on
   * on its own, in order, and nothing waits in the buffer, as long as every
   * hand-on succeeds.
   */
  lemma {:induction false} FullBlocksHandedOnAlone(st: Assembly, ticks: seq<Tick>)
    requires st.buffer == [] && st.samples == 0
    requires AllDelivered(ticks)
    requires forall j :: 0 <= j < |ticks| && ticks[j].frame.Some? ==> |ticks[j].frame.value| == CHUNK_SIZE
    ensures RunFrom(st, ticks).emitted == st.emitted + Received(ticks)
    ensures RunFrom(st, ticks).buffer == []
    decreases |ticks|
  {
    if ticks != [] && ticks[0].recording {
      var next := Step(st, ticks[0]);
      FullBlocksHandedOnAlone(next, ticks[1..]);
      match ticks[0].frame {
        case None =>
          assert Received(ticks) == Received(ticks[1..]);
        case Some(f) =>
          assert |ticks[0].frame.value| == CHUNK_SIZE == THRESHOLD;
          assert ticks[0].delivered;
          assert st.buffer + [f] == [f];
          ConcatSnoc([], f);
          assert [] + [f] == [f];
          assert Concat([f]) == f;
          assert next.emitted == st.emitted + [f];
          assert Received(ticks) == [f] + Received(ticks[1..]);
          assert st.emitted + [f] + Received(ticks[1..]) == st.emitted + Received(ticks);
      }
    }
  }

  /** Nothing after the first pass that finds recording stopped has any effect. */
  lemma {:induction false} StopEndsLoop(st: Assembly, ticks: seq<Tick>, j: nat)
    requires j < |ticks| && !ticks[j].recording
    ensures RunFrom(st, ticks) == RunFrom(st, ticks[..j])
    ensures Received(ticks) == Received(ticks[..j])
    decreases j
  {
    if j > 0 && ticks[0].recording {
      StopEndsLoop(Step(st, ticks[0]), ticks[1..], j - 1);
      assert ticks[..j][1..] == ticks[1..][..j - 1];
    }
  }

  /** The capture side: the recording flag and the queue the callback fills. */
  class AudioHandler {
    var isRecording: bool
    var queue: seq<Frame>

    constructor ()
      ensures !isRecording && queue == []
    {
      isRecording := false;
      queue := [];
    }

    /** Sets the flag; opening the input stream is not modelled. */
    method StartRecording()
      modifies this
      ensures isRecording && queue == old(queue)
    {
      isRecording := true;
    }

    /** Clears the flag; queued blocks stay queued (closing the stream is not modelled). */
    method StopRecording()
      modifies this
      ensures !isRecording && queue == old(queue)
    {
      isRecording := false;
    }

    /** The capture callback: a copy of the block is queued only while recording. */
    method AudioCallback(indata: Frame)
      modifies this
      ensures isRecording == old(isRecording)
      ensures queue == if old(isRecording) then old(queue) + [indata] else old(queue)
    {
      if isRecording {
        queue := queue + [indata];
      }
    }
  }
}
