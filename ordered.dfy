/**
 * The ordering layer of the connected-packet codec (`src/codec/ordered.rs`).
 *
 * `Order` wraps an upstream stream of decoded connected packets. For every
 * `FrameSet` it pulls, each frame that carries an ordering annotation
 * `(frame_index, channel)` is released only when it is the next index its
 * channel expects; frames that arrive early are held in that channel's map
 * and released as soon as the gap before them closes. Frames without an
 * annotation, and packets other than `FrameSet`, pass through untouched.
 *
 * The first half of the module is a pure specification of one pull
 * (`Poll`) and of a whole run (`Collect`), with the lemmas that state what
 * the layer promises. The class `Order` at the end is the imperative engine:
 * an array of per-channel states mutated in place, proved to follow the
 * specification step for step.
 */
module Ordered {
  import opened Wrappers
  import Bytes

  /** Wire width of `frame_index`: a 24-bit little-endian field (`Uint24le`). */
  const INDEX_LIMIT: nat := 0x100_0000

  type U24 = x: nat | x < INDEX_LIMIT

  /** `connected::Ordered`: the ordering annotation of a frame. */
  datatype OrderedTag = OrderedTag(frameIndex: U24, channel: Bytes.U8)

  /**
   * `connected::Frame`. Only the ordering annotation matters here; `body`
   * stands for everything else the frame carries (flags, reliability and
   * fragment headers, payload), which this layer never inspects.
   */
  datatype Frame = Frame(ordered: Option<OrderedTag>, body: seq<Bytes.byte>)

  /** `connected::FrameSet`: `seqNum` stands for its non-frame fields. */
  datatype FrameSet = FrameSet(seqNum: U24, frames: seq<Frame>)

  /** `connected::Packet`: every kind other than `FrameSet` is opaque here. */
  datatype Packet = FrameSetPacket(frameSet: FrameSet) | OtherPacket(id: nat)

  /** `CodecError`: the ordered-frame error, or an error raised upstream. */
  datatype CodecError =
    | OrderedFrame(channel: nat, maxChannels: nat)
    | Upstream(code: nat)

  /** One item of the stream: `Result<connected::Packet, CodecError>`. */
  type Item = Result<Packet, CodecError>

  /**
   * `Ordering`: per-channel state. `read` is the next index the channel may
   * release; `pending` (`map` in `ordered.rs`) holds frames that arrived early,
   * keyed by their `frame_index`.
   */
  datatype Ordering = Ordering(pending: map<nat, Frame>, read: nat)

  /** `Ordering::default()`. */
  function DefaultOrdering(): Ordering
  {
    Ordering(map[], 0)
  }

  /** The per-channel states `Ordered::ordered` builds for `n` channels. */
  function InitialOrdering(n: nat): (r: seq<Ordering>)
    ensures |r| == n
  {
    seq(n, _ => DefaultOrdering())
  }

  /** Frame `f` is annotated with index `index` on channel `c`. */
  predicate Tagged(f: Frame, index: nat, c: nat)
  {
    f.ordered.Some? && f.ordered.value.frameIndex == index && f.ordered.value.channel == c
  }

  /** Frame `f` is annotated with some index on channel `c`. */
  predicate OnChannel(f: Frame, c: nat)
  {
    f.ordered.Some? && f.ordered.value.channel == c
  }

  /**
   * The invariant of channel `c`'s state between two frames: every held
   * frame is keyed by its own index on channel `c`, and that index lies
   * strictly above `read` and below the wire limit. `read` itself never
   * passes the wire limit, so the `u32` counter of `ordered.rs` cannot overflow.
   */
  ghost predicate ChannelValid(o: Ordering, c: nat)
  {
    && o.read <= INDEX_LIMIT
    && forall k :: k in o.pending ==> o.read < k < INDEX_LIMIT && Tagged(o.pending[k], k, c)
  }

  ghost predicate ChannelsValid(chans: seq<Ordering>)
  {
    forall c :: 0 <= c < |chans| ==> ChannelValid(chans[c], c)
  }

  /** The indices a, a+1, ..., b-1. */
  function Range(a: nat, b: nat): (r: seq<nat>)
    requires a <= b
    ensures |r| == b - a
    ensures forall i :: 0 <= i < |r| ==> r[i] == a + i
  {
    seq(b - a, i => a + i)
  }

  lemma RangeAppend(a: nat, b: nat, c: nat)
    requires a <= b <= c
    ensures Range(a, b) + Range(b, c) == Range(a, c)
  {
    assert forall i :: 0 <= i < c - a ==> (Range(a, b) + Range(b, c))[i] == a + i;
  }

  /** The frame indices, in order, of the frames of `frames` on channel `c`. */
  function ChannelIndices(frames: seq<Frame>, c: nat): seq<nat>
  {
    if frames == [] then []
    else
      var last := frames[|frames| - 1];
      ChannelIndices(frames[..|frames| - 1], c)
        + (if OnChannel(last, c) then [last.ordered.value.frameIndex as nat] else [])
  }

  lemma {:induction false} ChannelIndicesAppend(a: seq<Frame>, b: seq<Frame>, c: nat)
    ensures ChannelIndices(a + b, c) == ChannelIndices(a, c) + ChannelIndices(b, c)
    decreases |b|
  {
    if b != [] {
      assert (a + b)[..|a + b| - 1] == a + b[..|b| - 1];
      ChannelIndicesAppend(a, b[..|b| - 1], c);
    } else {
      assert a + b == a;
    }
  }

  /** The frames of `frames` without an ordering annotation, in order. */
  function Unordered(frames: seq<Frame>): seq<Frame>
  {
    if frames == [] then []
    else
      var last := frames[|frames| - 1];
      Unordered(frames[..|frames| - 1]) + (if last.ordered.None? then [last] else [])
  }

  lemma {:induction false} UnorderedAppend(a: seq<Frame>, b: seq<Frame>)
    ensures Unordered(a + b) == Unordered(a) + Unordered(b)
    decreases |b|
  {
    if b != [] {
      assert (a + b)[..|a + b| - 1] == a + b[..|b| - 1];
      UnorderedAppend(a, b[..|b| - 1]);
    } else {
      assert a + b == a;
    }
  }

  // ---------------------------------------------------------------------
  // One channel
  // ---------------------------------------------------------------------

  /**
   * The drain loop (`while let Some(next) = map.remove(&read)`): release
   * the longest run of held frames starting at `read`, advancing `read`
   * past each. The result is the new state and the frames released.
   */
  function Drain(o: Ordering): (r: (Ordering, seq<Frame>))
    ensures o.read <= r.0.read
    ensures forall k :: o.read <= k < r.0.read ==> k in o.pending
    ensures r.0.read !in o.pending
    ensures forall k :: k in r.0.pending <==> k in o.pending && !(o.read <= k < r.0.read)
    ensures forall k :: k in r.0.pending ==> r.0.pending[k] == o.pending[k]
    ensures |r.1| == r.0.read - o.read
    ensures forall i :: 0 <= i < |r.1| ==> o.read + i in o.pending && r.1[i] == o.pending[o.read + i]
    decreases |o.pending|
  {
    if o.read in o.pending then
      var next := o.pending[o.read];
      var rest := Drain(Ordering(o.pending - {o.read}, o.read + 1));
      assert forall k :: k in o.pending - {o.read} ==> k in o.pending;
      (rest.0, [next] + rest.1)
    else
      (o, [])
  }

  /** One round of `Drain`: the frame held under `read` goes out first. */
  lemma DrainStep(o: Ordering)
    requires o.read in o.pending
    ensures var rest := Drain(Ordering(o.pending - {o.read}, o.read + 1));
      Drain(o) == (rest.0, [o.pending[o.read]] + rest.1)
  {
  }

  /** `Drain` stops as soon as nothing is held under `read`. */
  lemma DrainStop(o: Ordering)
    requires o.read !in o.pending
    ensures Drain(o) == (o, [])
  {
  }

  /**
   * One annotated frame `f` with index `index` arriving on a channel in
   * state `o` (the `match frame_index.cmp(&read)` in `ordered.rs`): a stale
   * frame is dropped, an early one is held under its index (replacing any
   * frame already held there), and the expected one is released together
   * with the run of held frames it unblocks.
   */
  function Accept(o: Ordering, f: Frame, index: nat): (Ordering, seq<Frame>)
  {
    if index < o.read then
      (o, [])
    else if index > o.read then
      (Ordering(o.pending[index := f], o.read), [])
    else
      var drained := Drain(Ordering(o.pending, o.read + 1));
      (drained.0, [f] + drained.1)
  }

  /**
   * Accepting a frame of channel `c` keeps the channel invariant, never
   * moves `read` backwards, and releases exactly the indices between the
   * old and the new `read`, in increasing order. Afterwards nothing is
   * held under the new `read`.
   */
  lemma AcceptReleasesInOrder(o: Ordering, f: Frame, index: nat, c: nat)
    requires ChannelValid(o, c) && Tagged(f, index, c) && index < INDEX_LIMIT
    ensures ChannelValid(Accept(o, f, index).0, c)
    ensures o.read <= Accept(o, f, index).0.read
    ensures Accept(o, f, index).0.read !in Accept(o, f, index).0.pending
    ensures ChannelIndices(Accept(o, f, index).1, c) == Range(o.read, Accept(o, f, index).0.read)
    ensures forall g :: g in Accept(o, f, index).1 ==> OnChannel(g, c)
  {
    if index == o.read {
      ReleaseInOrder(o, f, c);
    }
  }

  /** The expected frame and the run it unblocks. */
  lemma ReleaseInOrder(o: Ordering, f: Frame, c: nat)
    requires ChannelValid(o, c) && Tagged(f, o.read, c) && o.read < INDEX_LIMIT
    ensures var d := Drain(Ordering(o.pending, o.read + 1));
      && ChannelValid(d.0, c)
      && d.0.read !in d.0.pending
      && ChannelIndices([f] + d.1, c) == Range(o.read, d.0.read)
      && forall g :: g in [f] + d.1 ==> OnChannel(g, c)
  {
    ReleaseKeepsValid(o, c);
    ReleaseIndices(o, f, c);
  }

  /** After the release the channel is valid and nothing waits at `read`. */
  lemma ReleaseKeepsValid(o: Ordering, c: nat)
    requires ChannelValid(o, c) && o.read < INDEX_LIMIT
    ensures var d := Drain(Ordering(o.pending, o.read + 1));
      ChannelValid(d.0, c) && d.0.read !in d.0.pending
  {
    var d := Drain(Ordering(o.pending, o.read + 1));
    assert forall k :: k in d.0.pending ==> d.0.read < k by {
      forall k | k in d.0.pending ensures d.0.read < k {
        assert k in o.pending && !(o.read + 1 <= k < d.0.read);
        assert k != d.0.read;
      }
    }
    assert d.0.read <= INDEX_LIMIT by {
      if d.0.read > o.read + 1 {
        assert d.0.read - 1 in o.pending;
      }
    }
  }

  /** The released frames are the expected one and the run after it. */
  lemma ReleaseIndices(o: Ordering, f: Frame, c: nat)
    requires ChannelValid(o, c) && Tagged(f, o.read, c)
    ensures var d := Drain(Ordering(o.pending, o.read + 1));
      && ChannelIndices([f] + d.1, c) == Range(o.read, d.0.read)
      && forall g :: g in [f] + d.1 ==> OnChannel(g, c)
  {
    var start := Ordering(o.pending, o.read + 1);
    var d := Drain(start);
    DrainedIndices(start, d.1, c);
    FrameThenRun(f, d.1, c, o.read, d.0.read);
  }

  /** Frame `a` of channel `c` followed by frames `a+1 .. b-1` of it. */
  lemma FrameThenRun(f: Frame, run: seq<Frame>, c: nat, a: nat, b: nat)
    requires Tagged(f, a, c) && a + 1 <= b
    requires ChannelIndices(run, c) == Range(a + 1, b)
    requires forall g :: g in run ==> OnChannel(g, c)
    ensures ChannelIndices([f] + run, c) == Range(a, b)
    ensures forall g :: g in [f] + run ==> OnChannel(g, c)
  {
    ChannelIndicesAppend([f], run, c);
    assert ChannelIndices([f], c) == [a] by {
      assert [f][..0] == [];
    }
    RangeAppend(a, a + 1, b);
  }

  /** The frames the drain releases carry the indices it passes over. */
  lemma DrainedIndices(start: Ordering, out: seq<Frame>, c: nat)
    requires forall k :: k in start.pending ==> Tagged(start.pending[k], k, c)
    requires out == Drain(start).1
    ensures ChannelIndices(out, c) == Range(start.read, Drain(start).0.read)
    ensures forall g :: g in out ==> OnChannel(g, c)
  {
    IndicesOfRun(out, start.read, c);
  }

  /** A run of frames tagged a, a+1, ... on channel c lists those indices. */
  lemma {:induction false} IndicesOfRun(out: seq<Frame>, a: nat, c: nat)
    requires forall i :: 0 <= i < |out| ==> Tagged(out[i], a + i, c)
    ensures ChannelIndices(out, c) == Range(a, a + |out|)
    decreases |out|
  {
    if out != [] {
      var n := |out|;
      IndicesOfRun(out[..n - 1], a, c);
      RangeAppend(a, a + n - 1, a + n);
    }
  }

  // ---------------------------------------------------------------------
  // One batch of frames
  // ---------------------------------------------------------------------

  /**
   * What scanning (part of) a batch yields: the channel states and the
   * frames to emit so far, or the channel states at the moment the scan
   * stopped on an out-of-range channel, with the error.
   */
  datatype BatchResult =
    | Processed(chans: seq<Ordering>, out: seq<Frame>)
    | Failed(chans: seq<Ordering>, error: CodecError)

  /** The body of the `for frame in frame_set.frames` loop, for one frame. */
  function StepFrame(chans: seq<Ordering>, maxChannels: nat, f: Frame): (r: BatchResult)
    requires |chans| == maxChannels
    ensures |r.chans| == maxChannels
  {
    match f.ordered
    case None => Processed(chans, [f])
    case Some(tag) =>
      if tag.channel >= maxChannels then
        Failed(chans, OrderedFrame(tag.channel, maxChannels))
      else
        var accepted := Accept(chans[tag.channel], f, tag.frameIndex);
        Processed(chans[tag.channel := accepted.0], accepted.1)
  }

  /** Continue a scan with one more frame; a failed scan stays failed. */
  function Continue(r: BatchResult, maxChannels: nat, f: Frame): (r': BatchResult)
    requires |r.chans| == maxChannels
    ensures |r'.chans| == maxChannels
  {
    match r
    case Failed(_, _) => r
    case Processed(chans, out) =>
      match StepFrame(chans, maxChannels, f)
      case Failed(chans', e) => Failed(chans', e)
      case Processed(chans', more) => Processed(chans', out + more)
  }

  /** Scanning the frames of one `FrameSet`, in their order. */
  function ProcessFrames(chans: seq<Ordering>, maxChannels: nat, frames: seq<Frame>): (r: BatchResult)
    requires |chans| == maxChannels
    ensures |r.chans| == maxChannels
    decreases |frames|
  {
    if frames == [] then Processed(chans, [])
    else Continue(ProcessFrames(chans, maxChannels, frames[..|frames| - 1]), maxChannels, frames[|frames| - 1])
  }

  /** Scanning `a + b` is scanning `a`, then continuing with `b`. */
  function ContinueAll(r: BatchResult, maxChannels: nat, frames: seq<Frame>): (r': BatchResult)
    requires |r.chans| == maxChannels
    ensures |r'.chans| == maxChannels
    decreases |frames|
  {
    if frames == [] then r
    else Continue(ContinueAll(r, maxChannels, frames[..|frames| - 1]), maxChannels, frames[|frames| - 1])
  }

  lemma {:induction false} ProcessFramesAppend(chans: seq<Ordering>, maxChannels: nat, a: seq<Frame>, b: seq<Frame>)
    requires |chans| == maxChannels
    ensures ProcessFrames(chans, maxChannels, a + b)
         == ContinueAll(ProcessFrames(chans, maxChannels, a), maxChannels, b)
    decreases |b|
  {
    if b == [] {
      assert a + b == a;
    } else {
      assert (a + b)[..|a + b| - 1] == a + b[..|b| - 1];
      ProcessFramesAppend(chans, maxChannels, a, b[..|b| - 1]);
    }
  }

  /** A failed scan ignores the rest of the batch. */
  lemma {:induction false} ContinueAllFailed(r: BatchResult, maxChannels: nat, frames: seq<Frame>)
    requires |r.chans| == maxChannels && r.Failed?
    ensures ContinueAll(r, maxChannels, frames) == r
    decreases |frames|
  {
    if frames != [] {
      ContinueAllFailed(r, maxChannels, frames[..|frames| - 1]);
    }
  }

  /** One frame keeps every channel valid and releases each channel in order. */
  lemma StepFrameInOrder(chans: seq<Ordering>, maxChannels: nat, f: Frame)
    requires |chans| == maxChannels && ChannelsValid(chans)
    ensures ChannelsValid(StepFrame(chans, maxChannels, f).chans)
    ensures forall c :: 0 <= c < maxChannels ==>
      chans[c].read <= StepFrame(chans, maxChannels, f).chans[c].read
    ensures StepFrame(chans, maxChannels, f).Processed? ==>
      forall c :: 0 <= c < maxChannels ==>
        ChannelIndices(StepFrame(chans, maxChannels, f).out, c)
          == Range(chans[c].read, StepFrame(chans, maxChannels, f).chans[c].read)
    ensures StepFrame(chans, maxChannels, f).Processed? ==>
      Unordered(StepFrame(chans, maxChannels, f).out) == Unordered([f])
  {
    var r := StepFrame(chans, maxChannels, f);
    assert [f][..0] == [];
    match f.ordered
    case None =>
    case Some(tag) =>
      if tag.channel < maxChannels {
        var ch: nat := tag.channel;
        AcceptReleasesInOrder(chans[ch], f, tag.frameIndex, ch);
        var out := r.out;
        forall c | 0 <= c < maxChannels
          ensures ChannelIndices(out, c) == Range(chans[c].read, r.chans[c].read)
        {
          if c != ch {
            NoChannelIndices(out, c, ch);
          }
        }
        NoUnordered(out, ch);
      }
  }

  /** Frames all on channel `ch` list no index of another channel. */
  lemma {:induction false} NoChannelIndices(out: seq<Frame>, c: nat, ch: nat)
    requires c != ch && forall g :: g in out ==> OnChannel(g, ch)
    ensures ChannelIndices(out, c) == []
    decreases |out|
  {
    if out != [] {
      assert out[|out| - 1] in out;
      NoChannelIndices(out[..|out| - 1], c, ch);
    }
  }

  /** Frames all on channel `ch` contain no unannotated frame. */
  lemma {:induction false} NoUnordered(out: seq<Frame>, ch: nat)
    requires forall g :: g in out ==> OnChannel(g, ch)
    ensures Unordered(out) == []
    decreases |out|
  {
    if out != [] {
      assert out[|out| - 1] in out;
      NoUnordered(out[..|out| - 1], ch);
    }
  }

  /**
   * Scanning a batch keeps every channel valid and never moves a `read`
   * backwards. When the scan completes, the frames it emits for each
   * channel carry exactly the indices from the channel's old `read` up to
   * its new one, in increasing order, and the unannotated frames come out
   * exactly as they went in, in the same relative order.
   */
  lemma {:induction false} ProcessFramesInOrder(chans: seq<Ordering>, maxChannels: nat, frames: seq<Frame>)
    requires |chans| == maxChannels && ChannelsValid(chans)
    ensures ChannelsValid(ProcessFrames(chans, maxChannels, frames).chans)
    ensures forall c :: 0 <= c < maxChannels ==>
      chans[c].read <= ProcessFrames(chans, maxChannels, frames).chans[c].read
    ensures ProcessFrames(chans, maxChannels, frames).Processed? ==>
      forall c :: 0 <= c < maxChannels ==>
        ChannelIndices(ProcessFrames(chans, maxChannels, frames).out, c)
          == Range(chans[c].read, ProcessFrames(chans, maxChannels, frames).chans[c].read)
    ensures ProcessFrames(chans, maxChannels, frames).Processed? ==>
      Unordered(ProcessFrames(chans, maxChannels, frames).out) == Unordered(frames)
    decreases |frames|
  {
    if frames != [] {
      var n := |frames|;
      var init := frames[..n - 1];
      var f := frames[n - 1];
      assert frames == init + [f];
      ProcessFramesInOrder(chans, maxChannels, init);
      var prev := ProcessFrames(chans, maxChannels, init);
      if prev.Processed? {
        StepFrameInOrder(prev.chans, maxChannels, f);
        var step := StepFrame(prev.chans, maxChannels, f);
        if step.Processed? {
          forall c | 0 <= c < maxChannels
            ensures ChannelIndices(prev.out + step.out, c) == Range(chans[c].read, step.chans[c].read)
          {
            ChannelIndicesAppend(prev.out, step.out, c);
            RangeAppend(chans[c].read, prev.chans[c].read, step.chans[c].read);
          }
          UnorderedAppend(prev.out, step.out);
          UnorderedAppend(init, [f]);
        }
      }
    }
  }

  /** A scan that emits nothing leaves every channel's `read` where it was. */
  lemma EmptyOutputKeepsRead(chans: seq<Ordering>, maxChannels: nat, frames: seq<Frame>)
    requires |chans| == maxChannels && ChannelsValid(chans)
    requires ProcessFrames(chans, maxChannels, frames).Processed?
    requires ProcessFrames(chans, maxChannels, frames).out == []
    ensures forall c :: 0 <= c < maxChannels ==>
      ProcessFrames(chans, maxChannels, frames).chans[c].read == chans[c].read
  {
    ProcessFramesInOrder(chans, maxChannels, frames);
    var r := ProcessFrames(chans, maxChannels, frames);
    forall c | 0 <= c < maxChannels ensures r.chans[c].read == chans[c].read {
      assert |Range(chans[c].read, r.chans[c].read)| == 0;
    }
  }

  /** Frame `f` names a channel outside `[0, maxChannels)`. */
  predicate BadChannel(f: Frame, maxChannels: nat)
  {
    f.ordered.Some? && f.ordered.value.channel >= maxChannels
  }

  /**
   * A batch fails exactly when one of its frames names a channel at or
   * above `maxChannels`. The error is raised by the first such frame,
   * whatever follows it: it names that frame's channel and the limit, the
   * frames gathered so far are dropped, and the channel updates made by
   * the frames before it stay in place.
   */
  lemma {:induction false} FailsAtFirstBadChannel(chans: seq<Ordering>, maxChannels: nat, frames: seq<Frame>, i: nat)
    requires |chans| == maxChannels
    requires i < |frames| && BadChannel(frames[i], maxChannels)
    requires forall j :: 0 <= j < i ==> !BadChannel(frames[j], maxChannels)
    ensures ProcessFrames(chans, maxChannels, frames)
         == Failed(ProcessFrames(chans, maxChannels, frames[..i]).chans,
                   OrderedFrame(frames[i].ordered.value.channel, maxChannels))
  {
    var prefix := frames[..i];
    NoBadChannelProcesses(chans, maxChannels, prefix);
    assert frames[..i + 1] == prefix + [frames[i]];
    assert frames[..i + 1][..i] == prefix;
    var failed := ProcessFrames(chans, maxChannels, frames[..i + 1]);
    assert frames == frames[..i + 1] + frames[i + 1..];
    ProcessFramesAppend(chans, maxChannels, frames[..i + 1], frames[i + 1..]);
    ContinueAllFailed(failed, maxChannels, frames[i + 1..]);
  }

  /** A batch with no out-of-range channel is always scanned to the end. */
  lemma {:induction false} NoBadChannelProcesses(chans: seq<Ordering>, maxChannels: nat, frames: seq<Frame>)
    requires |chans| == maxChannels
    requires forall j :: 0 <= j < |frames| ==> !BadChannel(frames[j], maxChannels)
    ensures ProcessFrames(chans, maxChannels, frames).Processed?
    decreases |frames|
  {
    if frames != [] {
      NoBadChannelProcesses(chans, maxChannels, frames[..|frames| - 1]);
    }
  }

  /** Channels no frame of the batch names keep their state. */
  lemma {:induction false} UntouchedChannels(chans: seq<Ordering>, maxChannels: nat, frames: seq<Frame>, c: nat)
    requires |chans| == maxChannels && c < maxChannels
    requires forall j :: 0 <= j < |frames| ==> !OnChannel(frames[j], c)
    ensures ProcessFrames(chans, maxChannels, frames).chans[c] == chans[c]
    decreases |frames|
  {
    if frames != [] {
      UntouchedChannels(chans, maxChannels, frames[..|frames| - 1], c);
    }
  }

  /**
   * A stale frame has no effect at all: inserting, anywhere in a batch,
   * a frame whose index is below the `read` its channel has reached at
   * that point leaves the whole result of the batch unchanged.
   */
  lemma StaleFrameIgnored(chans: seq<Ordering>, maxChannels: nat, a: seq<Frame>, f: Frame, b: seq<Frame>)
    requires |chans| == maxChannels
    requires f.ordered.Some? && f.ordered.value.channel < maxChannels
    requires ProcessFrames(chans, maxChannels, a).Processed?
    requires f.ordered.value.frameIndex
           < ProcessFrames(chans, maxChannels, a).chans[f.ordered.value.channel].read
    ensures ProcessFrames(chans, maxChannels, a + [f] + b) == ProcessFrames(chans, maxChannels, a + b)
  {
    var prev := ProcessFrames(chans, maxChannels, a);
    ProcessFramesAppend(chans, maxChannels, a, [f]);
    assert ContinueAll(prev, maxChannels, [f]) == Continue(prev, maxChannels, f) by {
      assert [f][..0] == [];
    }
    assert prev.out + [] == prev.out;
    assert ProcessFrames(chans, maxChannels, a + [f]) == prev;
    ProcessFramesAppend(chans, maxChannels, a + [f], b);
    ProcessFramesAppend(chans, maxChannels, a, b);
  }

  /**
   * An early frame is held, not emitted: scanning it adds it to its
   * channel's map under its index (replacing whatever was held there),
   * leaves every `read` and every other channel as it was, and adds no
   * output frame.
   */
  lemma EarlyFrameHeld(chans: seq<Ordering>, maxChannels: nat, a: seq<Frame>, f: Frame)
    requires |chans| == maxChannels
    requires f.ordered.Some? && f.ordered.value.channel < maxChannels
    requires ProcessFrames(chans, maxChannels, a).Processed?
    requires f.ordered.value.frameIndex
           > ProcessFrames(chans, maxChannels, a).chans[f.ordered.value.channel].read
    ensures ProcessFrames(chans, maxChannels, a + [f]).Processed?
    ensures ProcessFrames(chans, maxChannels, a + [f]).out == ProcessFrames(chans, maxChannels, a).out
    ensures forall c :: 0 <= c < maxChannels ==>
      var before := ProcessFrames(chans, maxChannels, a).chans[c];
      var after := ProcessFrames(chans, maxChannels, a + [f]).chans[c];
      && after.read == before.read
      && after.pending == if c == f.ordered.value.channel
                          then before.pending[f.ordered.value.frameIndex := f]
                          else before.pending
  {
    assert (a + [f])[..|a + [f]| - 1] == a;
    assert ProcessFrames(chans, maxChannels, a).out + [] == ProcessFrames(chans, maxChannels, a).out;
  }

  // ---------------------------------------------------------------------
  // The stream
  // ---------------------------------------------------------------------

  /**
   * The answer to one pull, with the channel states and the position in
   * the upstream sequence afterwards. `item == None` is end of stream.
   */
  datatype PollOutcome = PollOutcome(item: Option<Item>, chans: seq<Ordering>, pos: nat)

  /**
   * `Order::poll_next` on an upstream that is the finite sequence
   * `upstream`, of which the first `pos` items have been pulled already.
   * Errors and packets other than `FrameSet` are passed on as they are; a
   * `FrameSet` is scanned, and yields either the ordered-frame error or a
   * `FrameSet` with the emitted frames and the input's other fields. A
   * batch that emits nothing is not passed on: the next item is pulled.
   */
  function Poll(chans: seq<Ordering>, maxChannels: nat, upstream: seq<Item>, pos: nat): (r: PollOutcome)
    requires |chans| == maxChannels && pos <= |upstream|
    ensures |r.chans| == maxChannels && r.pos <= |upstream|
    ensures r.item.None? ==> r.pos == |upstream|
    ensures r.item.Some? ==> pos < r.pos
    decreases |upstream| - pos
  {
    if pos == |upstream| then PollOutcome(None, chans, pos)
    else
      match upstream[pos]
      case Err(e) => PollOutcome(Some(Err(e)), chans, pos + 1)
      case Ok(packet) =>
        if !packet.FrameSetPacket? then PollOutcome(Some(Ok(packet)), chans, pos + 1)
        else
          var frameSet := packet.frameSet;
          match ProcessFrames(chans, maxChannels, frameSet.frames)
          case Failed(chans', e) => PollOutcome(Some(Err(e)), chans', pos + 1)
          case Processed(chans', out) =>
            if out != [] then
              PollOutcome(Some(Ok(FrameSetPacket(frameSet.(frames := out)))), chans', pos + 1)
            else
              Poll(chans', maxChannels, upstream, pos + 1)
  }

  /** Errors and packets other than `FrameSet` come out unchanged, with no state change. */
  lemma PollPassesThrough(chans: seq<Ordering>, maxChannels: nat, upstream: seq<Item>, pos: nat)
    requires |chans| == maxChannels && pos < |upstream|
    requires upstream[pos].Err? || !upstream[pos].value.FrameSetPacket?
    ensures Poll(chans, maxChannels, upstream, pos) == PollOutcome(Some(upstream[pos]), chans, pos + 1)
  {
  }

  /** One pull that meets a `FrameSet`, in terms of the scan of its frames. */
  lemma PollBatch(chans: seq<Ordering>, maxChannels: nat, upstream: seq<Item>, pos: nat)
    requires |chans| == maxChannels && pos < |upstream|
    requires upstream[pos].Ok? && upstream[pos].value.FrameSetPacket?
    ensures var frameSet := upstream[pos].value.frameSet;
      var scanned := ProcessFrames(chans, maxChannels, frameSet.frames);
      Poll(chans, maxChannels, upstream, pos)
        == if scanned.Failed? then PollOutcome(Some(Err(scanned.error)), scanned.chans, pos + 1)
           else if scanned.out != [] then
             PollOutcome(Some(Ok(FrameSetPacket(frameSet.(frames := scanned.out)))), scanned.chans, pos + 1)
           else Poll(scanned.chans, maxChannels, upstream, pos + 1)
  {
  }

  /**
   * One pull keeps every channel valid and never moves a channel's `read`
   * backwards. A pull that ends the stream or passes on a packet other
   * than a `FrameSet` leaves every `read` where it was: the batches it
   * skipped emitted nothing.
   */
  lemma {:induction false} PollKeepsValid(chans: seq<Ordering>, maxChannels: nat, upstream: seq<Item>, pos: nat)
    requires |chans| == maxChannels && pos <= |upstream| && ChannelsValid(chans)
    ensures ChannelsValid(Poll(chans, maxChannels, upstream, pos).chans)
    ensures forall c :: 0 <= c < maxChannels ==>
      chans[c].read <= Poll(chans, maxChannels, upstream, pos).chans[c].read
    ensures (|| Poll(chans, maxChannels, upstream, pos).item.None?
             || (Poll(chans, maxChannels, upstream, pos).item.value.Ok?
                 && !Poll(chans, maxChannels, upstream, pos).item.value.value.FrameSetPacket?)) ==>
      forall c :: 0 <= c < maxChannels ==>
        Poll(chans, maxChannels, upstream, pos).chans[c].read == chans[c].read
    decreases |upstream| - pos
  {
    if pos < |upstream| && upstream[pos].Ok? && upstream[pos].value.FrameSetPacket? {
      var frames := upstream[pos].value.frameSet.frames;
      PollBatch(chans, maxChannels, upstream, pos);
      ProcessFramesInOrder(chans, maxChannels, frames);
      var scanned := ProcessFrames(chans, maxChannels, frames);
      if scanned.Processed? && scanned.out == [] {
        EmptyOutputKeepsRead(chans, maxChannels, frames);
        PollKeepsValid(scanned.chans, maxChannels, upstream, pos + 1);
      }
    }
  }

  /**
   * One pull never emits an empty `FrameSet`. The `FrameSet` it emits is
   * the scan of the last upstream item it pulled, which was a `FrameSet`
   * with the same non-frame fields. Each channel's frames in it carry
   * exactly the indices from the channel's `read` before the pull to its
   * `read` after, in order.
   */
  lemma {:induction false} PollEmitsInOrder(chans: seq<Ordering>, maxChannels: nat, upstream: seq<Item>, pos: nat)
    requires |chans| == maxChannels && pos <= |upstream| && ChannelsValid(chans)
    ensures (&& Poll(chans, maxChannels, upstream, pos).item.Some?
             && Poll(chans, maxChannels, upstream, pos).item.value.Ok?
             && Poll(chans, maxChannels, upstream, pos).item.value.value.FrameSetPacket?) ==>
      var r := Poll(chans, maxChannels, upstream, pos);
      var emitted := r.item.value.value.frameSet;
      && emitted.frames != []
      && upstream[r.pos - 1].Ok?
      && upstream[r.pos - 1].value.FrameSetPacket?
      && upstream[r.pos - 1].value.frameSet.seqNum == emitted.seqNum
      && forall c :: 0 <= c < maxChannels ==>
           && chans[c].read <= r.chans[c].read
           && ChannelIndices(emitted.frames, c) == Range(chans[c].read, r.chans[c].read)
    decreases |upstream| - pos
  {
    if pos < |upstream| && upstream[pos].Ok? && upstream[pos].value.FrameSetPacket? {
      var frames := upstream[pos].value.frameSet.frames;
      PollBatch(chans, maxChannels, upstream, pos);
      ProcessFramesInOrder(chans, maxChannels, frames);
      var scanned := ProcessFrames(chans, maxChannels, frames);
      if scanned.Processed? && scanned.out == [] {
        EmptyOutputKeepsRead(chans, maxChannels, frames);
        PollEmitsInOrder(scanned.chans, maxChannels, upstream, pos + 1);
      }
    }
  }

  /** The frames an item carries out of the layer: a batch's, or none. */
  function PolledFrames(item: Option<Item>): seq<Frame>
  {
    if item.Some? && item.value.Ok? && item.value.value.FrameSetPacket? then
      item.value.value.frameSet.frames
    else
      []
  }

  /** `PollEmitsInOrder` for one channel `c`. */
  lemma PollInOrderAt(chans: seq<Ordering>, maxChannels: nat, upstream: seq<Item>, pos: nat, c: nat)
    requires |chans| == maxChannels && pos <= |upstream| && ChannelsValid(chans) && c < maxChannels
    ensures var p := Poll(chans, maxChannels, upstream, pos);
      && ChannelsValid(p.chans)
      && chans[c].read <= p.chans[c].read
      && ((p.item.None? || p.item.value.Ok?) ==>
            ChannelIndices(PolledFrames(p.item), c) == Range(chans[c].read, p.chans[c].read))
  {
    var p := Poll(chans, maxChannels, upstream, pos);
    PollKeepsValid(chans, maxChannels, upstream, pos);
    PollEmitsInOrder(chans, maxChannels, upstream, pos);
    if p.item.None? || (p.item.value.Ok? && !p.item.value.value.FrameSetPacket?) {
      assert ChannelIndices([], c) == [] == Range(chans[c].read, chans[c].read);
    }
  }

  /**
   * A whole run as the unit tests of `ordered.rs` consume it: pull until end of
   * stream, or until the first error, after which the consumer tears the
   * stream down. The result is the items received and the final states.
   */
  function Collect(chans: seq<Ordering>, maxChannels: nat, upstream: seq<Item>, pos: nat): (r: (seq<Item>, seq<Ordering>))
    requires |chans| == maxChannels && pos <= |upstream|
    ensures |r.1| == maxChannels
    decreases |upstream| - pos
  {
    var p := Poll(chans, maxChannels, upstream, pos);
    match p.item
    case None => ([], p.chans)
    case Some(Err(e)) => ([Err(e)], p.chans)
    case Some(Ok(packet)) =>
      var rest := Collect(p.chans, maxChannels, upstream, p.pos);
      ([Ok(packet)] + rest.0, rest.1)
  }

  /** All frames of the `FrameSet` items among `items`, in order. */
  function EmittedFrames(items: seq<Item>): seq<Frame>
  {
    if items == [] then []
    else
      (if items[0].Ok? && items[0].value.FrameSetPacket? then items[0].value.frameSet.frames else [])
        + EmittedFrames(items[1..])
  }

  /** No item of `items` is an error. */
  predicate NoError(items: seq<Item>)
  {
    items == [] || (items[0].Ok? && NoError(items[1..]))
  }

  /**
   * In-order delivery over a whole run: for every channel, the frames
   * emitted carry the indices read, read+1, read+2, ... with no gap and
   * no repetition, starting from the channel's `read` at the start of the
   * run (0 for a freshly built layer). When the run ends without an error
   * they reach the channel's final `read`; an ordered-frame error may
   * leave `read` ahead of what was emitted, because `ordered.rs` does not
   * roll back the updates made by the failing batch.
   */
  lemma CollectInOrder(chans: seq<Ordering>, maxChannels: nat, upstream: seq<Item>, pos: nat)
    requires |chans| == maxChannels && pos <= |upstream| && ChannelsValid(chans)
    ensures forall c :: 0 <= c < maxChannels ==>
      var indices := ChannelIndices(EmittedFrames(Collect(chans, maxChannels, upstream, pos).0), c);
      && chans[c].read + |indices| <= Collect(chans, maxChannels, upstream, pos).1[c].read
      && indices == Range(chans[c].read, chans[c].read + |indices|)
    ensures NoError(Collect(chans, maxChannels, upstream, pos).0) ==>
      forall c :: 0 <= c < maxChannels ==>
        ChannelIndices(EmittedFrames(Collect(chans, maxChannels, upstream, pos).0), c)
          == Range(chans[c].read, Collect(chans, maxChannels, upstream, pos).1[c].read)
  {
    var r := Collect(chans, maxChannels, upstream, pos);
    var emitted := EmittedFrames(r.0);
    forall c | 0 <= c < maxChannels
      ensures && chans[c].read + |ChannelIndices(emitted, c)| <= r.1[c].read
              && ChannelIndices(emitted, c) == Range(chans[c].read, chans[c].read + |ChannelIndices(emitted, c)|)
    {
      var mid := CollectContiguousAt(chans, maxChannels, upstream, pos, c);
    }
    if NoError(r.0) {
      forall c | 0 <= c < maxChannels
        ensures ChannelIndices(emitted, c) == Range(chans[c].read, r.1[c].read)
      {
        CollectCompleteAt(chans, maxChannels, upstream, pos, c);
      }
    }
  }

  /**
   * The first half of `CollectInOrder`, for one channel `c`: the indices
   * emitted are `Range(chans[c].read, mid)` for some `mid` no later than
   * the channel's final `read`.
   */
  lemma {:induction false} CollectContiguousAt(chans: seq<Ordering>, maxChannels: nat, upstream: seq<Item>, pos: nat, c: nat)
    returns (mid: nat)
    requires |chans| == maxChannels && pos <= |upstream| && ChannelsValid(chans) && c < maxChannels
    ensures chans[c].read <= mid <= Collect(chans, maxChannels, upstream, pos).1[c].read
    ensures ChannelIndices(EmittedFrames(Collect(chans, maxChannels, upstream, pos).0), c) == Range(chans[c].read, mid)
    decreases |upstream| - pos
  {
    var p := Poll(chans, maxChannels, upstream, pos);
    var r := Collect(chans, maxChannels, upstream, pos);
    PollInOrderAt(chans, maxChannels, upstream, pos, c);
    var start := chans[c].read;
    if p.item.Some? && p.item.value.Ok? {
      var rest := Collect(p.chans, maxChannels, upstream, p.pos);
      assert r.0 == [p.item.value] + rest.0 && r.1 == rest.1;
      assert r.0[1..] == rest.0;
      mid := CollectContiguousAt(p.chans, maxChannels, upstream, p.pos, c);
      assert EmittedFrames(r.0) == PolledFrames(p.item) + EmittedFrames(rest.0);
      ChannelIndicesAppend(PolledFrames(p.item), EmittedFrames(rest.0), c);
      RangeAppend(start, p.chans[c].read, mid);
    } else {
      mid := start;
      assert r.1 == p.chans;
      assert EmittedFrames(r.0) == [];
      assert ChannelIndices([], c) == [] == Range(start, start);
    }
  }

  /** The second half of `CollectInOrder`, for one channel `c`. */
  lemma {:induction false} CollectCompleteAt(chans: seq<Ordering>, maxChannels: nat, upstream: seq<Item>, pos: nat, c: nat)
    requires |chans| == maxChannels && pos <= |upstream| && ChannelsValid(chans) && c < maxChannels
    requires NoError(Collect(chans, maxChannels, upstream, pos).0)
    ensures var r := Collect(chans, maxChannels, upstream, pos);
      && chans[c].read <= r.1[c].read
      && ChannelIndices(EmittedFrames(r.0), c) == Range(chans[c].read, r.1[c].read)
    decreases |upstream| - pos
  {
    var p := Poll(chans, maxChannels, upstream, pos);
    var r := Collect(chans, maxChannels, upstream, pos);
    PollInOrderAt(chans, maxChannels, upstream, pos, c);
    var start := chans[c].read;
    if p.item.Some? && p.item.value.Ok? {
      var rest := Collect(p.chans, maxChannels, upstream, p.pos);
      assert r.0 == [p.item.value] + rest.0 && r.1 == rest.1;
      assert r.0[1..] == rest.0;
      CollectCompleteAt(p.chans, maxChannels, upstream, p.pos, c);
      assert EmittedFrames(r.0) == PolledFrames(p.item) + EmittedFrames(rest.0);
      ChannelIndicesAppend(PolledFrames(p.item), EmittedFrames(rest.0), c);
      RangeAppend(start, p.chans[c].read, r.1[c].read);
    } else if p.item.None? {
      assert r.0 == [] && r.1 == p.chans;
      assert ChannelIndices([], c) == [] == Range(start, start);
    }
  }

  // ---------------------------------------------------------------------
  // Nothing is lost
  // ---------------------------------------------------------------------

  /**
   * Channel state `o` accounts for the indices `seen` that arrived on its
   * channel since it was `start`: every index that arrived has been passed
   * by `read` or is held in the map, `read` has passed only indices that
   * arrived or were held in `start`, and the map holds only indices that
   * arrived or were held in `start`.
   */
  ghost predicate Accounted(o: Ordering, start: Ordering, seen: seq<nat>)
  {
    && (forall k :: k in seen ==> k < o.read || k in o.pending)
    && (forall k :: start.read <= k < o.read ==> k in seen || k in start.pending)
    && (forall k :: k in o.pending ==> k in seen || k in start.pending)
  }

  /** Every channel of `chans` accounts for the frames `seen` since `starts`. */
  ghost predicate AllAccounted(chans: seq<Ordering>, starts: seq<Ordering>, seen: seq<Frame>)
  {
    && |chans| == |starts|
    && forall c :: 0 <= c < |chans| ==> Accounted(chans[c], starts[c], ChannelIndices(seen, c))
  }

  /**
   * One annotated frame loses nothing: whichever branch of the comparison
   * it takes, its index ends up passed by `read` or held, and so does every
   * index that was accounted for before.
   */
  lemma AcceptKeepsAccount(o: Ordering, f: Frame, index: nat, start: Ordering, seen: seq<nat>)
    requires Accounted(o, start, seen)
    ensures Accounted(Accept(o, f, index).0, start, seen + [index])
  {
    if index == o.read {
      var d := Drain(Ordering(o.pending, o.read + 1));
      assert forall k :: o.read + 1 <= k < d.0.read ==> k in o.pending;
    }
  }

  /** One frame of the `for` loop keeps every channel's account. */
  lemma StepFrameKeepsAccount(chans: seq<Ordering>, maxChannels: nat, f: Frame, starts: seq<Ordering>, seen: seq<Frame>)
    requires |chans| == maxChannels && AllAccounted(chans, starts, seen)
    ensures StepFrame(chans, maxChannels, f).Processed? ==>
      AllAccounted(StepFrame(chans, maxChannels, f).chans, starts, seen + [f])
  {
    var r := StepFrame(chans, maxChannels, f);
    if r.Processed? {
      forall c | 0 <= c < maxChannels
        ensures Accounted(r.chans[c], starts[c], ChannelIndices(seen + [f], c))
      {
        ChannelIndicesAppend(seen, [f], c);
        assert [f][..0] == [];
        if OnChannel(f, c) {
          AcceptKeepsAccount(chans[c], f, f.ordered.value.frameIndex, starts[c], ChannelIndices(seen, c));
        } else {
          assert ChannelIndices(seen + [f], c) == ChannelIndices(seen, c);
        }
      }
    }
  }

  /** A whole batch scanned to the end keeps every channel's account. */
  lemma {:induction false} ProcessFramesKeepsAccount(chans: seq<Ordering>, maxChannels: nat, frames: seq<Frame>, starts: seq<Ordering>, seen: seq<Frame>)
    requires |chans| == maxChannels && AllAccounted(chans, starts, seen)
    ensures ProcessFrames(chans, maxChannels, frames).Processed? ==>
      AllAccounted(ProcessFrames(chans, maxChannels, frames).chans, starts, seen + frames)
    decreases |frames|
  {
    if frames == [] {
      assert seen + frames == seen;
    } else {
      var init, f := frames[..|frames| - 1], frames[|frames| - 1];
      ProcessFramesKeepsAccount(chans, maxChannels, init, starts, seen);
      var prev := ProcessFrames(chans, maxChannels, init);
      if prev.Processed? {
        StepFrameKeepsAccount(prev.chans, maxChannels, f, starts, seen + init);
        assert seen + init + [f] == seen + frames;
      }
    }
  }

  /**
   * Conservation over one batch: after a scan that runs to the end, every
   * annotated frame of the batch has had its index passed by its channel's
   * `read` (it was released, or it was stale) or is held in its channel's
   * map; no frame is thrown away unseen.
   */
  lemma BatchLosesNothing(chans: seq<Ordering>, maxChannels: nat, frames: seq<Frame>)
    requires |chans| == maxChannels
    ensures var r := ProcessFrames(chans, maxChannels, frames);
      r.Processed? ==>
        forall c, i :: 0 <= c < maxChannels && i in ChannelIndices(frames, c) ==>
          i < r.chans[c].read || i in r.chans[c].pending
  {
    assert AllAccounted(chans, chans, []);
    ProcessFramesKeepsAccount(chans, maxChannels, frames, chans, []);
    assert [] + frames == frames;
  }

  /** The frames of the `FrameSet`s among the first `n` upstream items, in order. */
  function Arrived(upstream: seq<Item>, n: nat): seq<Frame>
    requires n <= |upstream|
  {
    if n == 0 then [] else Arrived(upstream, n - 1) + PolledFrames(Some(upstream[n - 1]))
  }

  /**
   * One pull keeps every channel's account of the frames pulled so far,
   * unless it ends in an error.
   */
  lemma {:induction false} PollKeepsAccount(chans: seq<Ordering>, maxChannels: nat, upstream: seq<Item>, pos: nat, starts: seq<Ordering>)
    requires |chans| == maxChannels && pos <= |upstream|
    requires AllAccounted(chans, starts, Arrived(upstream, pos))
    ensures var p := Poll(chans, maxChannels, upstream, pos);
      (p.item.None? || p.item.value.Ok?) ==> AllAccounted(p.chans, starts, Arrived(upstream, p.pos))
    decreases |upstream| - pos
  {
    if pos < |upstream| && upstream[pos].Ok? {
      if upstream[pos].value.FrameSetPacket? {
        PollBatch(chans, maxChannels, upstream, pos);
        ScanKeepsAccount(chans, maxChannels, upstream, pos, starts);
        var scanned := ProcessFrames(chans, maxChannels, upstream[pos].value.frameSet.frames);
        if scanned.Processed? && scanned.out == [] {
          PollKeepsAccount(scanned.chans, maxChannels, upstream, pos + 1, starts);
        }
      } else {
        PollPassesThrough(chans, maxChannels, upstream, pos);
        assert PolledFrames(Some(upstream[pos])) == [];
        assert Arrived(upstream, pos + 1) == Arrived(upstream, pos);
      }
    }
  }

  /** Scanning the `FrameSet` at `pos` to the end extends the account by its frames. */
  lemma ScanKeepsAccount(chans: seq<Ordering>, maxChannels: nat, upstream: seq<Item>, pos: nat, starts: seq<Ordering>)
    requires |chans| == maxChannels && pos < |upstream|
    requires upstream[pos].Ok? && upstream[pos].value.FrameSetPacket?
    requires AllAccounted(chans, starts, Arrived(upstream, pos))
    ensures var scanned := ProcessFrames(chans, maxChannels, upstream[pos].value.frameSet.frames);
      scanned.Processed? ==> AllAccounted(scanned.chans, starts, Arrived(upstream, pos + 1))
  {
    var frames := upstream[pos].value.frameSet.frames;
    ProcessFramesKeepsAccount(chans, maxChannels, frames, starts, Arrived(upstream, pos));
    assert Arrived(upstream, pos + 1) == Arrived(upstream, pos) + frames;
  }

  /** A run without an error keeps every channel's account of the whole upstream. */
  lemma {:induction false} CollectKeepsAccount(chans: seq<Ordering>, maxChannels: nat, upstream: seq<Item>, pos: nat, starts: seq<Ordering>)
    requires |chans| == maxChannels && pos <= |upstream|
    requires AllAccounted(chans, starts, Arrived(upstream, pos))
    ensures NoError(Collect(chans, maxChannels, upstream, pos).0) ==>
      AllAccounted(Collect(chans, maxChannels, upstream, pos).1, starts, Arrived(upstream, |upstream|))
    decreases |upstream| - pos
  {
    var p := Poll(chans, maxChannels, upstream, pos);
    var r := Collect(chans, maxChannels, upstream, pos);
    PollKeepsAccount(chans, maxChannels, upstream, pos, starts);
    if p.item.Some? && p.item.value.Ok? {
      var rest := Collect(p.chans, maxChannels, upstream, p.pos);
      assert r.0 == [p.item.value] + rest.0 && r.1 == rest.1;
      assert r.0[1..] == rest.0;
      CollectKeepsAccount(p.chans, maxChannels, upstream, p.pos, starts);
    }
  }

  /** A run keeps every channel valid. */
  lemma {:induction false} CollectKeepsValid(chans: seq<Ordering>, maxChannels: nat, upstream: seq<Item>, pos: nat)
    requires |chans| == maxChannels && pos <= |upstream| && ChannelsValid(chans)
    ensures ChannelsValid(Collect(chans, maxChannels, upstream, pos).1)
    decreases |upstream| - pos
  {
    var p := Poll(chans, maxChannels, upstream, pos);
    PollKeepsValid(chans, maxChannels, upstream, pos);
    if p.item.Some? && p.item.value.Ok? {
      CollectKeepsValid(p.chans, maxChannels, upstream, p.pos);
    }
  }

  /**
   * Every frame is delivered: from a freshly built layer, if the frames
   * arriving on channel `c` over a run without error carry exactly the
   * indices 0 .. n-1 (in any order, split into batches in any way), the
   * run emits on `c` exactly the indices 0 .. n-1, in order, and ends with
   * `read == n` and nothing held on `c`.
   */
  lemma DeliversEveryFrame(maxChannels: nat, upstream: seq<Item>, c: nat, n: nat)
    requires c < maxChannels
    requires NoError(Collect(InitialOrdering(maxChannels), maxChannels, upstream, 0).0)
    requires forall i: nat :: i in ChannelIndices(Arrived(upstream, |upstream|), c) <==> i < n
    ensures ChannelIndices(EmittedFrames(Collect(InitialOrdering(maxChannels), maxChannels, upstream, 0).0), c)
         == Range(0, n)
    ensures Collect(InitialOrdering(maxChannels), maxChannels, upstream, 0).1[c] == Ordering(map[], n)
  {
    var init := InitialOrdering(maxChannels);
    var r := Collect(init, maxChannels, upstream, 0);
    var seen := ChannelIndices(Arrived(upstream, |upstream|), c);
    assert AllAccounted(init, init, Arrived(upstream, 0));
    CollectKeepsAccount(init, maxChannels, upstream, 0, init);
    CollectKeepsValid(init, maxChannels, upstream, 0);
    CollectInOrder(init, maxChannels, upstream, 0);
    SettledChannel(r.1[c], init[c], seen, c, n);
  }

  /**
   * A channel that started empty, is valid, and accounts for exactly the
   * indices 0 .. n-1 has released all of them and holds nothing.
   */
  lemma SettledChannel(fin: Ordering, start: Ordering, seen: seq<nat>, c: nat, n: nat)
    requires start == DefaultOrdering() && Accounted(fin, start, seen) && ChannelValid(fin, c)
    requires forall i: nat :: i in seen <==> i < n
    ensures fin == Ordering(map[], n)
  {
    if fin.read < n {
      ghost var arrived := fin.read in seen;
      assert false;
    }
    if n < fin.read {
      ghost var arrived := n in seen;
      assert false;
    }
    if fin.pending != map[] {
      var k :| k in fin.pending;
      ghost var arrived := k in seen;
      assert false;
    }
  }

  /**
   * A packet that is not a `FrameSet`, or a `FrameSet` with at least one
   * frame and no ordering annotation on any of them.
   */
  predicate Unannotated(item: Item)
  {
    && item.Ok?
    && (item.value.FrameSetPacket? ==>
          && item.value.frameSet.frames != []
          && forall j :: 0 <= j < |item.value.frameSet.frames| ==> item.value.frameSet.frames[j].ordered.None?)
  }

  /**
   * Pass-through: over an upstream whose items are all packets and whose
   * frames carry no ordering annotation, a run reproduces the upstream
   * item for item, except that a `FrameSet` with no frames at all is
   * skipped like any batch that emits nothing.
   */
  lemma {:induction false} CollectWithoutAnnotations(chans: seq<Ordering>, maxChannels: nat, upstream: seq<Item>, pos: nat)
    requires |chans| == maxChannels && pos <= |upstream|
    requires forall i :: pos <= i < |upstream| ==> Unannotated(upstream[i])
    ensures Collect(chans, maxChannels, upstream, pos).0 == upstream[pos..]
    ensures Collect(chans, maxChannels, upstream, pos).1 == chans
    decreases |upstream| - pos
  {
    if pos < |upstream| {
      UnannotatedItem(chans, maxChannels, upstream, pos);
      CollectWithoutAnnotations(chans, maxChannels, upstream, pos + 1);
      assert upstream[pos..] == [upstream[pos]] + upstream[pos + 1..];
    }
  }

  /** One step of `CollectWithoutAnnotations`: the next item comes out as it is. */
  lemma UnannotatedItem(chans: seq<Ordering>, maxChannels: nat, upstream: seq<Item>, pos: nat)
    requires |chans| == maxChannels && pos < |upstream| && Unannotated(upstream[pos])
    ensures Collect(chans, maxChannels, upstream, pos)
      == ([upstream[pos]] + Collect(chans, maxChannels, upstream, pos + 1).0, Collect(chans, maxChannels, upstream, pos + 1).1)
  {
    var packet := upstream[pos].value;
    if packet.FrameSetPacket? {
      UnannotatedPassThrough(chans, maxChannels, packet.frameSet.frames);
      assert packet.frameSet.(frames := packet.frameSet.frames) == packet.frameSet;
      assert Poll(chans, maxChannels, upstream, pos) == PollOutcome(Some(upstream[pos]), chans, pos + 1);
    } else {
      PollPassesThrough(chans, maxChannels, upstream, pos);
    }
  }

  /**
   * The exception to pass-through: a `FrameSet` with no frames at all
   * emits nothing, so it is swallowed like a batch whose frames were all
   * held, and a run over it alone yields no item.
   */
  lemma EmptyBatchSkipped(chans: seq<Ordering>, maxChannels: nat, seqNum: U24)
    requires |chans| == maxChannels
    ensures Collect(chans, maxChannels, [Ok(FrameSetPacket(FrameSet(seqNum, [])))], 0) == ([], chans)
  {
    var upstream := [Ok(FrameSetPacket(FrameSet(seqNum, [])))];
    assert Poll(chans, maxChannels, upstream, 1) == PollOutcome(None, chans, 1);
    assert Poll(chans, maxChannels, upstream, 0) == PollOutcome(None, chans, 1);
  }

  /** A batch without annotations comes out as it went in. */
  lemma {:induction false} UnannotatedPassThrough(chans: seq<Ordering>, maxChannels: nat, frames: seq<Frame>)
    requires |chans| == maxChannels
    requires forall j :: 0 <= j < |frames| ==> frames[j].ordered.None?
    ensures ProcessFrames(chans, maxChannels, frames) == Processed(chans, frames)
    decreases |frames|
  {
    if frames != [] {
      var prefix, last := frames[..|frames| - 1], frames[|frames| - 1];
      assert ProcessFrames(chans, maxChannels, frames) == Continue(ProcessFrames(chans, maxChannels, prefix), maxChannels, last);
      UnannotatedPassThrough(chans, maxChannels, prefix);
      assert StepFrame(chans, maxChannels, last) == Processed(chans, [last]);
      assert prefix + [last] == frames;
    }
  }

  // ---------------------------------------------------------------------
  // The two scenarios of the unit tests of `ordered.rs`
  // ---------------------------------------------------------------------

  /** A test frame: annotated `(channel, frame_index)`, empty body. */
  function TestFrame(channel: Bytes.U8, index: U24): Frame
  {
    Frame(Some(OrderedTag(index, channel)), [])
  }

  /** A test `FrameSet` with sequence number 0. */
  function TestFrameSet(frames: seq<Frame>): Item
  {
    Ok(FrameSetPacket(FrameSet(0, frames)))
  }

  /**
   * `test_ordered_works`: channel 0 receives 1, 0, 2, 4, 3 in one batch and
   * emits one batch 0, 1, 2, 3, 4; the next batch holds index 1 of channel
   * 1, which is buffered, so the stream then ends.
   */
  lemma OrderedWorks()
    ensures Collect(InitialOrdering(10), 10, [
              TestFrameSet([TestFrame(0, 1), TestFrame(0, 0), TestFrame(0, 2), TestFrame(0, 4), TestFrame(0, 3)]),
              TestFrameSet([TestFrame(1, 1)])], 0).0
         == [TestFrameSet([TestFrame(0, 0), TestFrame(0, 1), TestFrame(0, 2), TestFrame(0, 3), TestFrame(0, 4)])]
    ensures Collect(InitialOrdering(10), 10, [
              TestFrameSet([TestFrame(0, 1), TestFrame(0, 0), TestFrame(0, 2), TestFrame(0, 4), TestFrame(0, 3)]),
              TestFrameSet([TestFrame(1, 1)])], 0).1
         == InitialOrdering(10)[0 := Ordering(map[], 5)][1 := Ordering(map[1 := TestFrame(1, 1)], 0)]
  {
    var chans := InitialOrdering(10);
    var f0, f1, f2, f3, f4 := TestFrame(0, 0), TestFrame(0, 1), TestFrame(0, 2), TestFrame(0, 3), TestFrame(0, 4);
    var upstream := [TestFrameSet([f1, f0, f2, f4, f3]), TestFrameSet([TestFrame(1, 1)])];
    ScanFirstTestBatch();
    var s5 := chans[0 := Ordering(map[], 5)];
    assert s5[1] == Ordering(map[], 0);
    ProcessFramesSnoc(s5, 10, [], TestFrame(1, 1));
    var s6 := s5[1 := Ordering(map[1 := TestFrame(1, 1)], 0)];
    assert ProcessFrames(s5, 10, [TestFrame(1, 1)]) == Processed(s6, []);
    assert Poll(chans, 10, upstream, 0)
        == PollOutcome(Some(TestFrameSet([f0, f1, f2, f3, f4])), s5, 1);
    assert Poll(s5, 10, upstream, 1) == PollOutcome(None, s6, 2);
  }

  /** The first batch of `test_ordered_works`, frame by frame. */
  lemma ScanFirstTestBatch()
    ensures ProcessFrames(InitialOrdering(10), 10,
              [TestFrame(0, 1), TestFrame(0, 0), TestFrame(0, 2), TestFrame(0, 4), TestFrame(0, 3)])
         == Processed(InitialOrdering(10)[0 := Ordering(map[], 5)],
              [TestFrame(0, 0), TestFrame(0, 1), TestFrame(0, 2), TestFrame(0, 3), TestFrame(0, 4)])
  {
    var chans := InitialOrdering(10);
    var f0, f1, f2, f3, f4 := TestFrame(0, 0), TestFrame(0, 1), TestFrame(0, 2), TestFrame(0, 3), TestFrame(0, 4);
    ScanFirstTestFrames();
    var s3 := chans[0 := Ordering(map[], 3)];

    ProcessFramesSnoc(chans, 10, [f1, f0, f2], f4);
    var s4 := chans[0 := Ordering(map[4 := f4], 3)];
    assert s3[0 := Ordering(map[][4 := f4], 3)] == s4;
    assert [f1, f0, f2] + [f4] == [f1, f0, f2, f4] && [f0, f1, f2] + [] == [f0, f1, f2];
    assert StepFrame(s3, 10, f4) == Processed(s4, []);
    assert ProcessFrames(chans, 10, [f1, f0, f2, f4]) == Processed(s4, [f0, f1, f2]);

    ProcessFramesSnoc(chans, 10, [f1, f0, f2, f4], f3);
    DrainOne(f4, 4);
    var s5 := chans[0 := Ordering(map[], 5)];
    assert s4[0 := Ordering(map[], 5)] == s5;
    assert [f1, f0, f2, f4] + [f3] == [f1, f0, f2, f4, f3] && [f0, f1, f2] + [f3, f4] == [f0, f1, f2, f3, f4];
    assert s4[0] == Ordering(map[4 := f4], 3);
    assert [f3] + [f4] == [f3, f4];
    assert Accept(s4[0], f3, 3) == (Ordering(map[], 5), [f3, f4]);
    assert StepFrame(s4, 10, f3) == Processed(s5, [f3, f4]);
  }

  /** The first three frames of that batch: 1 is held, 0 releases 0 and 1, then 2. */
  lemma ScanFirstTestFrames()
    ensures ProcessFrames(InitialOrdering(10), 10, [TestFrame(0, 1), TestFrame(0, 0), TestFrame(0, 2)])
         == Processed(InitialOrdering(10)[0 := Ordering(map[], 3)], [TestFrame(0, 0), TestFrame(0, 1), TestFrame(0, 2)])
  {
    var chans := InitialOrdering(10);
    assert chans[0] == Ordering(map[], 0);
    var f0, f1, f2 := TestFrame(0, 0), TestFrame(0, 1), TestFrame(0, 2);

    ProcessFramesSnoc(chans, 10, [], f1);
    var s1 := chans[0 := Ordering(map[1 := f1], 0)];
    assert ProcessFrames(chans, 10, [f1]) == Processed(s1, []);

    ProcessFramesSnoc(chans, 10, [f1], f0);
    DrainOne(f1, 1);
    var s2 := chans[0 := Ordering(map[], 2)];
    assert ProcessFrames(chans, 10, [f1, f0]) == Processed(s2, [f0, f1]);

    ProcessFramesSnoc(chans, 10, [f1, f0], f2);
    assert Drain(Ordering(map[], 3)) == (Ordering(map[], 3), []);
    assert s2[0] == Ordering(map[], 2);
    assert [f2] + [] == [f2];
    assert Accept(s2[0], f2, 2) == (Ordering(map[], 3), [f2]);
    var s3 := chans[0 := Ordering(map[], 3)];
    assert s2[0 := Ordering(map[], 3)] == s3;
    assert [f1, f0] + [f2] == [f1, f0, f2] && [f0, f1] + [f2] == [f0, f1, f2];
    assert StepFrame(s2, 10, f2) == Processed(s3, [f2]);
  }

  /** Draining a map that holds one frame, under the expected index. */
  lemma DrainOne(f: Frame, k: nat)
    ensures Drain(Ordering(map[k := f], k)) == (Ordering(map[], k + 1), [f])
  {
    var m := map[k := f];
    assert m - {k} == map[];
    var rest := Drain(Ordering(map[], k + 1));
    assert rest == (Ordering(map[], k + 1), []);
    assert [f] + rest.1 == [f];
  }

  /** Scanning one more frame. */
  lemma ProcessFramesSnoc(chans: seq<Ordering>, maxChannels: nat, a: seq<Frame>, f: Frame)
    requires |chans| == maxChannels
    ensures ProcessFrames(chans, maxChannels, a + [f]) == Continue(ProcessFrames(chans, maxChannels, a), maxChannels, f)
  {
    assert (a + [f])[..|a|] == a;
  }

  /**
   * `test_ordered_channel_exceed`: with ten channels, a frame on channel 10
   * makes the first pull return the ordered-frame error.
   */
  lemma ChannelExceed()
    ensures Collect(InitialOrdering(10), 10, [TestFrameSet([TestFrame(10, 1)])], 0).0
         == [Err(OrderedFrame(10, 10))]
  {
    assert [TestFrame(10, 1)][..0] == [];
  }

  // ---------------------------------------------------------------------
  // The imperative engine
  // ---------------------------------------------------------------------

  /**
   * `Order`: the ordering layer over the upstream stream. `upstream` is the
   * wrapped stream as the finite sequence of items it yields, and `pos`
   * counts the items pulled from it so far; `ordering` is the
   * `Vec<Ordering>` of per-channel states, updated in place.
   */
  class Order {
    const upstream: seq<Item>
    var pos: nat
    const maxChannels: nat
    const ordering: array<Ordering>

    ghost predicate Valid()
      reads this, ordering
    {
      && 0 < maxChannels < 255
      && ordering.Length == maxChannels
      && pos <= |upstream|
      && ChannelsValid(ordering[..])
    }

    /**
     * `Ordered::ordered`: `ordered.rs` asserts `max_channels < u8::MAX` (so
     * 255 itself is refused) and `max_channels > 0`, then builds one
     * default state per channel.
     */
    constructor (upstream: seq<Item>, maxChannels: nat)
      requires 0 < maxChannels < 255
      ensures Valid() && fresh(ordering)
      ensures this.upstream == upstream && pos == 0 && this.maxChannels == maxChannels
      ensures ordering[..] == InitialOrdering(maxChannels)
      ensures forall c :: 0 <= c < maxChannels ==> ordering[c].read == 0 && ordering[c].pending == map[]
    {
      this.upstream := upstream;
      this.pos := 0;
      this.maxChannels := maxChannels;
      this.ordering := new Ordering[maxChannels](_ => DefaultOrdering());
      new;
      assert ordering[..] == InitialOrdering(maxChannels);
    }

    /**
     * The scan of one `FrameSet`'s frames (the `for frame in
     * frame_set.frames` loop with its drain loop), changing the channel
     * states in place. On an out-of-range channel it stops with the error
     * and the frames gathered so far are dropped.
     */
    method ProcessFrameSet(frames: seq<Frame>) returns (res: Result<seq<Frame>, CodecError>)
      requires Valid()
      modifies ordering
      ensures Valid()
      ensures ProcessFrames(old(ordering[..]), maxChannels, frames)
           == if res.Ok? then Processed(ordering[..], res.value) else Failed(ordering[..], res.error)
    {
      var out: seq<Frame> := [];
      for i := 0 to |frames|
        invariant Valid()
        invariant ProcessFrames(old(ordering[..]), maxChannels, frames[..i]) == Processed(ordering[..], out)
      {
        var frame := frames[i];
        assert frames[..i + 1][..i] == frames[..i];
        ghost var before := ordering[..];
        StepFrameInOrder(before, maxChannels, frame);
        match frame.ordered {
          case None =>
            out := out + [frame];
          case Some(tag) =>
            var channel: nat := tag.channel;
            if channel >= maxChannels {
              ghost var failed := ProcessFrames(old(ordering[..]), maxChannels, frames[..i + 1]);
              assert failed == Failed(ordering[..], OrderedFrame(channel, maxChannels));
              ProcessFramesAppend(old(ordering[..]), maxChannels, frames[..i + 1], frames[i + 1..]);
              ContinueAllFailed(failed, maxChannels, frames[i + 1..]);
              assert frames[..i + 1] + frames[i + 1..] == frames;
              return Err(OrderedFrame(channel, maxChannels));
            }
            var released := Deliver(channel, frame, tag.frameIndex);
            out := out + released;
        }
        assert ordering[..] == StepFrame(before, maxChannels, frame).chans;
      }
      assert frames[..|frames|] == frames;
      return Ok(out);
    }

    /**
     * One annotated frame `frame` with index `index` on channel `channel`
     * (the `match frame_index.cmp(&read)` and the drain loop after it),
     * changing that channel's state in place. Returns the frames released.
     */
    method Deliver(channel: nat, frame: Frame, index: nat) returns (released: seq<Frame>)
      requires Valid() && channel < maxChannels
      requires Tagged(frame, index, channel) && index < INDEX_LIMIT
      modifies ordering
      ensures Valid()
      ensures ordering[..] == old(ordering[..])[channel := Accept(old(ordering[channel]), frame, index).0]
      ensures released == Accept(old(ordering[channel]), frame, index).1
    {
      ghost var before := ordering[..];
      AcceptReleasesInOrder(before[channel], frame, index, channel);
      var o := ordering[channel];
      if index < o.read {
        // a stale frame: dropped
        released := [];
      } else if index > o.read {
        ordering[channel] := Ordering(o.pending[index := frame], o.read);
        released := [];
      } else {
        ordering[channel] := Ordering(o.pending, o.read + 1);
        var drained := DrainChannel(channel);
        released := [frame] + drained;
      }
      assert ordering[..] == before[channel := Accept(before[channel], frame, index).0];
    }

    /**
     * The drain loop: while the map holds a frame under `read`, remove it,
     * release it and advance `read`.
     */
    method DrainChannel(channel: nat) returns (released: seq<Frame>)
      requires channel < ordering.Length
      modifies ordering
      ensures ordering[..] == old(ordering[..])[channel := Drain(old(ordering[channel])).0]
      ensures released == Drain(old(ordering[channel])).1
    {
      ghost var before := ordering[..];
      ghost var spec := Drain(ordering[channel]);
      released := [];
      while ordering[channel].read in ordering[channel].pending
        invariant forall i :: 0 <= i < ordering.Length && i != channel ==> ordering[i] == before[i]
        invariant Drain(ordering[channel]).0 == spec.0
        invariant spec.1 == released + Drain(ordering[channel]).1
        decreases |ordering[channel].pending|
      {
        var cur := ordering[channel];
        var next := cur.pending[cur.read];
        var after := Ordering(cur.pending - {cur.read}, cur.read + 1);
        DrainStep(cur);
        ordering[channel] := after;
        Bytes.AppendAssoc(released, [next], Drain(after).1);
        released := released + [next];
      }
      DrainStop(ordering[channel]);
      assert ordering[..] == before[channel := ordering[channel]];
    }

    /**
     * `Order::poll_next`: pull upstream items until one yields something to
     * pass on, and return it; `None` is end of stream.
     */
    method PollNext() returns (item: Option<Item>)
      requires Valid()
      modifies this, ordering
      ensures Valid()
      ensures Poll(old(ordering[..]), maxChannels, upstream, old(pos)) == PollOutcome(item, ordering[..], pos)
    {
      while pos < |upstream|
        invariant Valid()
        invariant Poll(old(ordering[..]), maxChannels, upstream, old(pos)) == Poll(ordering[..], maxChannels, upstream, pos)
        decreases |upstream| - pos
      {
        var next := upstream[pos];
        pos := pos + 1;
        match next {
          case Err(e) =>
            return Some(Err(e));
          case Ok(packet) =>
            if !packet.FrameSetPacket? {
              return Some(Ok(packet));
            }
            var frameSet := packet.frameSet;
            var scanned := ProcessFrameSet(frameSet.frames);
            match scanned {
              case Err(e) =>
                return Some(Err(e));
              case Ok(frames) =>
                if frames != [] {
                  return Some(Ok(FrameSetPacket(frameSet.(frames := frames))));
                }
            }
        }
      }
      return None;
    }
  }
}
