# RakNet ordering layer and offline handshake codec, in Dafny

This project models two parts of the `raknet-rs` transport and proves
properties of both.

**The ordering layer** (`src/codec/ordered.rs`, module `Ordered`).
`Order` wraps an upstream stream of decoded connected packets. It keeps
one state per ordering channel: `read`, the next index the channel may
release, and a map of frames that arrived early. For every `FrameSet` it
pulls, the frames are scanned in order:

- a frame without an ordering annotation passes through;
- a frame whose index is below `read` is dropped;
- a frame whose index is above `read` is held in the map under its index;
- the frame whose index is `read` is released, followed by the run of
  held frames it unblocks;
- a frame on a channel at or above `max_channels` ends the pull with an
  `OrderedFrame` error.

A batch that releases nothing is not passed on; the next upstream item is
pulled instead. Packets other than `FrameSet`, and upstream errors, pass
through unchanged.

The model has two layers:

- Pure functions give the specification: `Drain`, `Accept`, `StepFrame`,
  `ProcessFrames` (one batch), `Poll` (one `poll_next`) and `Collect` (a
  whole run, up to the first error). The lemmas state what the layer
  promises. The two main ones are that every channel releases the indices
  `read, read+1, …` with no gap and no repetition, and that no frame is
  lost: every arriving index is released or held, so a run that receives
  the indices 0 … n-1 on a channel emits all of them.
- The class `Order` is the imperative engine. It holds an
  `array<Ordering>` that its methods update in place: the frame loop, the
  per-frame comparison and the drain loop. Each method is proved to
  produce the state and output of the specification function.

**The offline handshake codec** (`src/packet/unconnected.rs`, module
`Unconnected`). It covers the packets exchanged before a connection
exists: unconnected ping and pong, open-connection request and reply 1 and
2, incompatible protocol, and already connected.

- `Write` gives the bytes `write` appends for a packet.
- Each `Read*` function decodes the fields the matching `read_*` takes from
  the front of the buffer, and returns the packet and what is left of the
  buffer.
- `PackIdOf` is `pack_id`, and `Freeze` is `freeze`.

Integer fields are big-endian, as in the `bytes` crate (module `Bytes`).
The proofs cover:

- the exact layout sizes;
- where the magic sits in each layout;
- the fields `write` ignores on purpose;
- a round trip in each direction for every packet: writing then reading,
  and reading then writing.

Three behaviours of the code shape the model:

- A `FrameSet` with no frames emits nothing, so it is swallowed like any
  batch that releases nothing (`src/codec/ordered.rs:81`, `136-141`).
  `EmptyBatchSkipped` shows this, and it is why `CollectWithoutAnnotations`
  requires every batch to have a frame.
- `ordered` asserts `max_channels < u8::MAX`, so 255 channels are refused
  as well (`src/codec/ordered.rs:47-51`).
- `frame_index` is a 24-bit `Uint24le` field, so the model bounds it by
  2^24.

## Model

| member | source | states |
|---|---|---|
| Ordered.Drain | src/codec/ordered.rs:120-126 | The drain loop releases exactly the held frames under `read`, `read+1`, … up to the first missing index, in that order. The new `read` is that missing index, which is no longer held. The map keeps every other entry unchanged. |
| Ordered.AcceptReleasesInOrder | src/codec/ordered.rs:101-126 | One annotated frame keeps the channel invariant: every held key is above `read` and below 2^24, and is that frame's own index on that channel. `read` never moves back, and nothing is held under the new `read`. The frames released are on that channel and carry exactly the indices from the old `read` to the new one, in order. |
| Ordered.ReleaseInOrder | src/codec/ordered.rs:110-126 | The expected frame plus the drain keep the channel valid and release the indices old `read` … new `read` − 1. |
| Ordered.ReleaseKeepsValid | src/codec/ordered.rs:110-126 | After the increment and the drain, every held key is still above `read` and below 2^24, and nothing waits under `read`. |
| Ordered.ReleaseIndices | src/codec/ordered.rs:110-126 | The expected frame followed by the drained run lists the indices from the old `read` to the new one, all on that channel. |
| Ordered.DrainedIndices | src/codec/ordered.rs:121-126 | The frames the drain loop releases list exactly the indices it passes over. |
| Ordered.StepFrameInOrder | src/codec/ordered.rs:83-134 | One frame of the `for` loop keeps every channel valid and never lowers a `read`. Per channel, its output carries the indices between the old and the new `read`. Its unannotated output is the frame itself when that frame has no annotation. |
| Ordered.ProcessFramesInOrder | src/codec/ordered.rs:83-135 | A whole batch keeps every channel valid and never lowers a `read`. When the scan completes, each channel's frames in the output carry exactly the indices from its old `read` to its new one, in order. The unannotated frames come out exactly as they went in, in the same relative order. |
| Ordered.EmptyOutputKeepsRead | src/codec/ordered.rs:136-141 | A batch that emits nothing has advanced no channel's `read`. |
| Ordered.FailsAtFirstBadChannel | src/codec/ordered.rs:89-95 | A batch fails at its first frame on a channel ≥ `max_channels`. The error names that channel and the limit. The output gathered so far is dropped. The channel updates made by the earlier frames stay (no rollback). |
| Ordered.NoBadChannelProcesses | src/codec/ordered.rs:83-135 | A batch with no out-of-range channel is always scanned to the end. |
| Ordered.UntouchedChannels | src/codec/ordered.rs:96-99 | A channel that no frame of the batch names keeps its state. |
| Ordered.StaleFrameIgnored | src/codec/ordered.rs:101-105 | Inserting, anywhere in a batch, a frame whose index is below its channel's `read` at that point changes nothing: neither the output nor any state. |
| Ordered.EarlyFrameHeld | src/codec/ordered.rs:106-109 | An early frame is stored under its index, replacing any frame held there. It is not emitted, no `read` moves, and no other channel changes. |
| Ordered.Poll | src/codec/ordered.rs:69-143 | One `poll_next` either ends the stream, having consumed all of the upstream, or returns an item after consuming at least one upstream item. |
| Ordered.PollPassesThrough | src/codec/ordered.rs:73-79 | An upstream error or a packet other than `FrameSet` is returned unchanged, with no state change. |
| Ordered.PollKeepsValid | src/codec/ordered.rs:72-142 | A pull keeps every channel valid and never lowers a `read`. A pull that ends the stream or passes on a non-`FrameSet` packet leaves every `read` where it was. |
| Ordered.PollEmitsInOrder | src/codec/ordered.rs:136-141 | A pull never emits an empty `FrameSet`. The one it emits comes from the last upstream item pulled, which was a `FrameSet` with the same `seq_num`. Its frames for each channel carry the indices from the channel's old `read` to its new one. |
| Ordered.CollectInOrder | src/codec/ordered.rs:101-126 | Over a whole run, each channel's emitted indices are `read₀, read₀+1, …` with no gap or repetition, and never pass the final `read`. Here `read₀` is the channel's `read` when the run starts, which is 0 for a freshly built layer. For a run without an error the indices end exactly at the final `read`. |
| Ordered.AcceptKeepsAccount | src/codec/ordered.rs:101-126 | Whichever branch a frame takes (stale, early or expected), afterwards its index has been passed by `read` or is held in the map. Every index accounted for before stays so. `read` passes only indices that arrived or were held at the start, and the map holds only such indices. |
| Ordered.StepFrameKeepsAccount | src/codec/ordered.rs:83-134 | One iteration of the `for` loop keeps that account on every channel, extended by the frame just scanned. |
| Ordered.ProcessFramesKeepsAccount | src/codec/ordered.rs:83-135 | A batch scanned to the end keeps every channel's account, extended by the batch's frames. |
| Ordered.BatchLosesNothing | src/codec/ordered.rs:83-135 | After a scan that runs to the end, every annotated frame of the batch has had its index passed by its channel's `read` (it was released, or it was stale) or is held in its channel's map. |
| Ordered.ScanKeepsAccount | src/codec/ordered.rs:81-135 | Scanning the `FrameSet` a pull takes extends the account by that batch's frames. |
| Ordered.PollKeepsAccount | src/codec/ordered.rs:72-142 | A pull that does not end in an error keeps every channel's account of all frames pulled so far, including those of the batches it skipped. |
| Ordered.CollectKeepsAccount | src/codec/ordered.rs:72-142 | A run without an error accounts on every channel for every frame of the whole upstream. |
| Ordered.CollectKeepsValid | src/codec/ordered.rs:72-142 | A run keeps every channel valid: held keys above `read` and below 2^24, each held frame under its own index. |
| Ordered.DeliversEveryFrame | src/codec/ordered.rs:101-126 | Start from a freshly built layer and take a run without an error. Suppose the frames arriving on a channel carry exactly the indices 0 … n-1, in any order and split into batches in any way. Then the run emits on that channel exactly 0, 1, …, n-1, in that order, and ends with `read = n` and nothing held. |
| Ordered.CollectWithoutAnnotations | src/codec/ordered.rs:131-134 | Over packets without annotations, where no `FrameSet` is empty, a run reproduces the upstream item for item and changes no state. |
| Ordered.UnannotatedPassThrough | src/codec/ordered.rs:131-134 | A batch without annotations is emitted unchanged, with no state change. |
| Ordered.EmptyBatchSkipped | src/codec/ordered.rs:136-141 | A `FrameSet` with no frames is swallowed: a run over it alone yields no item. |
| Ordered.OrderedWorks | src/codec/ordered.rs:176-198 | Arrivals 1, 0, 2, 4, 3 on channel 0 come out as one batch 0, 1, 2, 3, 4. The following batch, index 1 on channel 1, is held in channel 1's map, and the stream ends. The final state is channel 0 at `read = 5` with nothing held, and channel 1 holding that frame under index 1. |
| Ordered.ChannelExceed | src/codec/ordered.rs:200-220 | With ten channels, a frame on channel 10 makes the run yield exactly one `OrderedFrame` error. |
| Ordered.Order.constructor | src/codec/ordered.rs:46-60 | Requires `0 < max_channels < 255`. Builds `max_channels` channel states, each with `read = 0` and an empty map. |
| Ordered.Order.ProcessFrameSet | src/codec/ordered.rs:81-135 | The in-place frame loop yields the output of `ProcessFrames`, or its error, and leaves the array in the state `ProcessFrames` gives. |
| Ordered.Order.Deliver | src/codec/ordered.rs:96-126 | The in-place comparison and drain change only that channel's entry, to the state `Accept` gives, and return the frames `Accept` releases. |
| Ordered.Order.DrainChannel | src/codec/ordered.rs:120-126 | The in-place `while let` loop leaves the channel in the state `Drain` gives and returns the frames `Drain` releases. Other channels are unchanged. |
| Ordered.Order.PollNext | src/codec/ordered.rs:69-143 | The imperative `poll_next` loop returns the item `Poll` returns and leaves the channel array and the upstream position where `Poll` leaves them. |
| Unconnected.PackIdIdentifiesVariant | src/packet/unconnected.rs:59-75 | `pack_id` is total and never gives `UnconnectedPing2`. Two packets share an identifier exactly when they are the same variant. |
| Unconnected.Write | src/packet/unconnected.rs:136-219 | Each variant writes its fixed layout size: 32 for a ping, 32 plus the payload for a pong, 19, 27, 26+7 and 27+7 for the requests and replies, 25 for incompatible protocol and 24 for already connected. |
| Unconnected.WriteCarriesMagic | src/packet/unconnected.rs:136-217 | Every layout carries the magic: at offset 8 for a ping, 16 for a pong, 1 for incompatible protocol and 0 for the others. |
| Unconnected.WriteIgnoresFlags | src/packet/unconnected.rs:136-217 | The bytes written do not depend on `magic`, nor on the reply encryption flags. |
| Unconnected.ReadUnconnectedPing | src/packet/unconnected.rs:77-83 | Decodes a ping and consumes exactly 32 bytes. |
| Unconnected.ReadOpenConnectionRequest1 | src/packet/unconnected.rs:85-91 | Decodes request 1 and consumes exactly 19 bytes. |
| Unconnected.ReadOpenConnectionReply1 | src/packet/unconnected.rs:93-100 | Decodes reply 1 and consumes exactly 27 bytes. |
| Unconnected.ReadOpenConnectionRequest2 | src/packet/unconnected.rs:102-109 | Decodes request 2 and consumes exactly 26 bytes plus an address. |
| Unconnected.ReadOpenConnectionReply2 | src/packet/unconnected.rs:111-119 | Decodes reply 2 and consumes exactly 27 bytes plus an address. |
| Unconnected.ReadIncompatibleProtocol | src/packet/unconnected.rs:121-127 | Decodes incompatible protocol and consumes exactly 25 bytes. |
| Unconnected.ReadAlreadyConnected | src/packet/unconnected.rs:129-134 | Decodes already connected and consumes exactly 24 bytes. |
| Unconnected.ReadUnconnectedPong | src/packet/unconnected.rs:223-230 | Decodes a pong whose payload is the whole rest of the buffer after byte 32, still mutable, and leaves nothing. |
| Unconnected.ReadChecksMagic | src/packet/unconnected.rs:77-134 | Every reader sets `magic` exactly when the 16 bytes at its layout's magic offset are the magic. |
| Unconnected.ReadDecodesEncryption | src/packet/unconnected.rs:93-119 | The replies' encryption flag is true exactly when its byte (offset 24, or 26 plus the address width) is non-zero. |
| Unconnected.WriteThenRead | src/packet/unconnected.rs:136-217 | For every packet, the reader for its identifier consumes exactly the bytes written, in the same field order. It restores every field, with `magic` reading true and the encryption flags reading false, and leaves what followed. After a pong, what followed is appended to the payload. |
| Unconnected.PingWriteThenRead | src/packet/unconnected.rs:138-146 | Ping: timestamp, magic and guid read back in write order, and the rest is left. |
| Unconnected.PongWriteThenRead | src/packet/unconnected.rs:147-157 | Pong: timestamp, guid and magic read back. The payload plus whatever followed becomes the new payload. |
| Unconnected.Request1WriteThenRead | src/packet/unconnected.rs:158-166 | Request 1: protocol version and MTU read back. |
| Unconnected.Reply1WriteThenRead | src/packet/unconnected.rs:167-177 | Reply 1: guid and MTU read back, and encryption reads false. |
| Unconnected.Request2WriteThenRead | src/packet/unconnected.rs:178-188 | Request 2: address, MTU and guid read back. |
| Unconnected.Reply2WriteThenRead | src/packet/unconnected.rs:189-201 | Reply 2: guid, address and MTU read back, and encryption reads false. |
| Unconnected.IncompatibleWriteThenRead | src/packet/unconnected.rs:202-210 | Incompatible protocol: the protocol byte (written before the magic) and the guid read back. |
| Unconnected.AlreadyConnectedWriteThenRead | src/packet/unconnected.rs:211-217 | Already connected: the guid reads back. |
| Unconnected.ReadThenWrite | src/packet/unconnected.rs:77-134 | When the buffer holds the magic where the layout puts it, and a 0 encryption byte for the replies, writing the packet read rebuilds exactly the bytes the reader consumed. |
| Unconnected.PingReadThenWrite | src/packet/unconnected.rs:77-83 | Ping: reading then writing rebuilds the 32 bytes. |
| Unconnected.PongReadThenWrite | src/packet/unconnected.rs:223-230 | Pong: reading then writing rebuilds the whole buffer. |
| Unconnected.Request1ReadThenWrite | src/packet/unconnected.rs:85-91 | Request 1: reading then writing rebuilds the 19 bytes. |
| Unconnected.Reply1ReadThenWrite | src/packet/unconnected.rs:93-100 | Reply 1: reading then writing rebuilds the 27 bytes. |
| Unconnected.Request2ReadThenWrite | src/packet/unconnected.rs:102-109 | Request 2: reading then writing rebuilds the bytes consumed. |
| Unconnected.Reply2ReadThenWrite | src/packet/unconnected.rs:111-119 | Reply 2: reading then writing rebuilds the bytes consumed. |
| Unconnected.IncompatibleReadThenWrite | src/packet/unconnected.rs:121-127 | Incompatible protocol: reading then writing rebuilds the 25 bytes. |
| Unconnected.AlreadyConnectedReadThenWrite | src/packet/unconnected.rs:129-134 | Already connected: reading then writing rebuilds the 24 bytes. |
| Unconnected.Freeze | src/packet/unconnected.rs:232-311 | `freeze` keeps the variant, its identifier, `magic`, every field and the bytes written. Only the pong payload changes, from mutable to frozen, with the same contents. |

## Left out

- The asynchronous machinery (`Stream`, `Pin`, `Context`, `Poll::Pending`,
  `ready!`, `pin_project`) and the test runtime. The upstream is a finite
  sequence of items with a cursor. A pending upstream is not modelled, and
  neither is a consumer that keeps pulling after an error: `Collect` stops
  at the first error.
- `tracing::debug!` for stale frames, and the `HashMap` and `Vec` initial
  capacities. None of them is observable.
- Frame index wraparound. `frame_index` is a 24-bit wire value compared
  with `read` without modular reduction, as in the source. The model keeps
  that comparison and does not add wraparound. Under this bound `read`
  never exceeds 2^24 (part of `ChannelValid`), so the source's `u32`
  counter cannot overflow.
- The internals of `connected::Frame` and `FrameSet`. A frame is its
  optional `(frame_index, channel)` annotation plus an opaque body. A
  `FrameSet`'s other fields are represented by `seqNum`. Packets other
  than `FrameSet` are opaque. Upstream errors are opaque codes.
- The text of the `OrderedFrame` error. The model records the channel and
  the limit that the message formats.
- `put_magic`, `get_checked_magic`, `put_socket_addr`, `get_socket_addr`
  and the `read_buf!` macro are not part of this model. The magic is
  RakNet's 16-byte offline-message constant. A wrong magic only makes
  `magic` false. A socket address is an opaque value of fixed 7-byte width.
- The error paths of `read_open_connection_request2` and
  `read_open_connection_reply2` are not modelled: `get_socket_addr`'s
  failure and `read_buf!`'s short-buffer error. Those readers, like the
  unchecked ones whose `get_*` calls panic in the `bytes` crate on a short
  buffer, take "the buffer is long enough" as a precondition.
- The numeric values of `PackId` (defined outside `unconnected.rs`). The
  model keeps the identifiers as named values.
