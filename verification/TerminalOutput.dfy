/**
 * The bounded byte stream between the SSH worker and the terminal (`BoundedTerminalOutput`): a writer that
 * cuts its bytes into chunks, a queue of at most 64 of them, and a reader that may take part of a chunk.
 */
module TerminalOutput {
  import opened Prelude

  type Byte = bv8

  const CHUNK := 8192
  const CAPACITY := 64

  /** The channel, whether it was completed and with an error, and the chunk the reader is in the middle of. */
  datatype Output = Output(queue: seq<seq<Byte>>, closed: bool, error: bool, pending: Option<seq<Byte>>, offset: nat)

  const EMPTY := Output([], false, false, None, 0)

  function Flatten(chunks: seq<seq<Byte>>): seq<Byte> {
    if chunks == [] then [] else chunks[0] + Flatten(chunks[1..])
  }

  lemma {:induction false} FlattenAppend(chunks: seq<seq<Byte>>, chunk: seq<Byte>)
    ensures Flatten(chunks + [chunk]) == Flatten(chunks) + chunk
  {
    if chunks != [] {
      FlattenAppend(chunks[1..], chunk);
      assert (chunks + [chunk])[1..] == chunks[1..] + [chunk];
    } else {
      assert [chunk][1..] == [];
    }
  }

  predicate ChunkOk(chunk: seq<Byte>) {
    1 <= |chunk| <= CHUNK
  }

  predicate Valid(out: Output) {
    && |out.queue| <= CAPACITY
    && (forall i | 0 <= i < |out.queue| :: ChunkOk(out.queue[i]))
    && (out.pending.Some? ==> ChunkOk(out.pending.value) && out.offset < |out.pending.value|)
    && (out.error ==> out.closed)
  }

  /** The bytes in the stream that were not read yet, oldest first. */
  function Unread(out: Output): seq<Byte>
    requires Valid(out)
  {
    (if out.pending.Some? then out.pending.value[out.offset..] else []) + Flatten(out.queue)
  }

  datatype PutResult = Accepted | Full | ChannelClosed

  /** One `channel.Writer.WriteAsync`: it waits while the queue is full. */
  function Put(out: Output, chunk: seq<Byte>): (Output, PutResult) {
    if out.closed then (out, ChannelClosed)
    else if |out.queue| >= CAPACITY then (out, Full)
    else (out.(queue := out.queue + [chunk]), Accepted)
  }

  /** What a read returns; `Waits` means the caller is still waiting, `EndOfStream` is a return of 0. */
  datatype ReadResult = Data(bytes: seq<Byte>) | EndOfStream | Faulted | Waits

  /** A reader without a pending chunk takes the next one off the queue. */
  function Load(out: Output): Output
    requires out.pending.Some? || out.queue != []
  {
    if out.pending.Some? then out else out.(queue := out.queue[1..], pending := Some(out.queue[0]), offset := 0)
  }

  /** At most `size` bytes of the pending chunk. */
  function Take(out: Output, size: nat): (Output, seq<Byte>)
    requires out.pending.Some? && out.offset <= |out.pending.value|
  {
    var chunk := out.pending.value;
    var count := if size < |chunk| - out.offset then size else |chunk| - out.offset;
    (out.(offset := out.offset + count, pending := if out.offset + count == |chunk| then None else out.pending),
     chunk[out.offset..out.offset + count])
  }

  /** `ReadAsync` into a buffer of `size` bytes. */
  function Read(out: Output, size: nat): (Output, ReadResult)
    requires Valid(out)
  {
    if size == 0 then (out, Data([]))
    else if out.pending.None? && out.queue == [] then
      (out, if !out.closed then Waits else if out.error then Faulted else EndOfStream)
    else
      var (out', bytes) := Take(Load(out), size);
      (out', Data(bytes))
  }

  /** `TryComplete`: only the first completion counts. */
  function Complete(out: Output, error: bool): Output {
    if out.closed then out else out.(closed := true, error := error)
  }

  // ---------------------------------------------------------------- the stream and its histories

  /** The stream with everything ever put into it and taken out of it, and what the current write still holds. */
  datatype Stream = Stream(out: Output, writing: seq<Byte>, written: seq<Byte>, read: seq<Byte>)

  const START := Stream(EMPTY, [], [], [])

  datatype Action =
    | StartWrite(bytes: seq<Byte>)
    | WriteChunk
    | AbortWrite
    | ReadSome(size: nat)
    | Completes(error: bool)

  function NextChunk(bytes: seq<Byte>): seq<Byte> {
    if |bytes| < CHUNK then bytes else bytes[..CHUNK]
  }

  /** The single writer and the single reader take turns in any order; an action that cannot happen now changes nothing. */
  function Act(s: Stream, a: Action): Stream
    requires Valid(s.out)
  {
    match a
    case StartWrite(bytes) => if s.writing == [] then s.(writing := bytes) else s
    case WriteChunk =>
      if s.writing == [] then s else
        var chunk := NextChunk(s.writing);
        var (out, result) := Put(s.out, chunk);
        if result.Accepted? then s.(out := out, writing := s.writing[|chunk|..], written := s.written + chunk)
        else if result.ChannelClosed? then s.(writing := [])
        else s
    case AbortWrite => s.(writing := [])
    case ReadSome(size) =>
      var (out, result) := Read(s.out, size);
      s.(out := out, read := s.read + if result.Data? then result.bytes else [])
    case Completes(error) => s.(out := Complete(s.out, error))
  }

  predicate StreamInv(s: Stream) {
    Valid(s.out) && s.written == s.read + Unread(s.out)
  }

  lemma PutKeeps(out: Output, chunk: seq<Byte>)
    requires Valid(out) && ChunkOk(chunk)
    ensures var (out', result) := Put(out, chunk);
            Valid(out') && Unread(out') == Unread(out) + if result.Accepted? then chunk else []
  {
    FlattenAppend(out.queue, chunk);
    var held := if out.pending.Some? then out.pending.value[out.offset..] else [];
    assert held + (Flatten(out.queue) + chunk) == (held + Flatten(out.queue)) + chunk;
  }

  /**
   * A read hands out the oldest unread bytes, at least one when there is one and at most `size`; it returns 0
   * to a non-empty buffer exactly when the stream was completed without error and everything was read.
   */
  lemma ReadKeeps(out: Output, size: nat)
    requires Valid(out)
    ensures var (out', result) := Read(out, size);
            && Valid(out') && out'.closed == out.closed && out'.error == out.error
            && (result.Data? ==> |result.bytes| <= size && Unread(out) == result.bytes + Unread(out'))
            && (!result.Data? ==> out' == out && Unread(out) == [])
            && (size > 0 && Unread(out) != [] ==> result.Data? && result.bytes != [])
            && (size > 0 ==> (result.EndOfStream? <==> out.closed && !out.error && Unread(out) == []))
  {
    hide Load, Take;
    if size > 0 && (out.pending.Some? || out.queue != []) {
      LoadKeeps(out);
      TakeKeeps(Load(out), size);
      assert Unread(out) != [];
    }
  }

  lemma LoadKeeps(out: Output)
    requires Valid(out) && (out.pending.Some? || out.queue != [])
    ensures var ready := Load(out);
            Valid(ready) && ready.pending.Some? && Unread(ready) == Unread(out) && Unread(out) != []
            && ready.closed == out.closed && ready.error == out.error
  {
  }

  lemma TakeKeeps(out: Output, size: nat)
    requires Valid(out) && out.pending.Some? && size > 0
    ensures var (out', bytes) := Take(out, size);
            Valid(out') && 1 <= |bytes| <= size && Unread(out) == bytes + Unread(out')
            && out'.closed == out.closed && out'.error == out.error
  {
    hide Flatten;
    var chunk := out.pending.value;
    var (out', bytes) := Take(out, size);
    var end := out.offset + |bytes|;
    assert chunk[out.offset..] == bytes + chunk[end..];
    assert Unread(out) == bytes + (chunk[end..] + Flatten(out.queue));
    if end == |chunk| {
      assert chunk[end..] == [];
    }
  }

  lemma ActKeeps(s: Stream, a: Action)
    requires StreamInv(s)
    ensures StreamInv(Act(s, a))
  {
    match a
    case WriteChunk =>
      if s.writing != [] {
        PutKeeps(s.out, NextChunk(s.writing));
        assert (s.read + Unread(s.out)) + NextChunk(s.writing) == s.read + (Unread(s.out) + NextChunk(s.writing));
      }
    case ReadSome(size) =>
      ReadKeeps(s.out, size);
      var (out, result) := Read(s.out, size);
      if result.Data? {
        assert s.read + (result.bytes + Unread(out)) == (s.read + result.bytes) + Unread(out);
      }
    case _ =>
  }

  ghost function RunStream(actions: seq<Action>): (s: Stream)
    ensures StreamInv(s)
  {
    if actions == [] then START else
      ActKeeps(RunStream(actions[..|actions| - 1]), actions[|actions| - 1]);
      Act(RunStream(actions[..|actions| - 1]), actions[|actions| - 1])
  }

  /** The bytes the stream may hold at once. */
  const MEMORY := (CAPACITY + 1) * CHUNK

  lemma {:induction false} FlattenBound(chunks: seq<seq<Byte>>)
    requires forall i | 0 <= i < |chunks| :: ChunkOk(chunks[i])
    ensures |Flatten(chunks)| <= |chunks| * CHUNK
  {
    if chunks != [] {
      FlattenBound(chunks[1..]);
    }
  }

  /**
   * The stream refines a FIFO of bounded size: in every interleaving of writes, partial reads and completion,
   * the bytes read are a prefix of the bytes written, and what is between them fits in 65 chunks.
   */
  lemma StreamIsBoundedFifo(actions: seq<Action>)
    ensures var s := RunStream(actions);
            && s.read <= s.written
            && s.written == s.read + Unread(s.out)
            && |s.written| - |s.read| <= MEMORY
            && |s.out.queue| <= CAPACITY && (forall i | 0 <= i < |s.out.queue| :: ChunkOk(s.out.queue[i]))
  {
    FlattenBound(RunStream(actions).out.queue);
  }

  /** No false end of stream: 0 is returned to a non-empty buffer only after completion, with everything read. */
  lemma NoFalseEndOfStream(actions: seq<Action>, size: nat)
    requires size > 0 && Read(RunStream(actions).out, size).1.EndOfStream?
    ensures var s := RunStream(actions);
            s.read == s.written && exists i | 0 <= i < |actions| :: actions[i] == Completes(false)
  {
    hide RunStream, Act, Read, Unread, Flatten;
    var s := RunStream(actions);
    ReadKeeps(s.out, size);
    EverythingRead(s);
    ClosedByCompletion(actions);
  }

  lemma EverythingRead(s: Stream)
    requires StreamInv(s) && Unread(s.out) == []
    ensures s.read == s.written
  {
    hide Unread;
    assert s.read + [] == s.read;
  }

  lemma {:induction false} ClosedByCompletion(actions: seq<Action>)
    requires RunStream(actions).out.closed && !RunStream(actions).out.error
    ensures exists i | 0 <= i < |actions| :: actions[i] == Completes(false)
  {
    if actions != [] {
      var front, last := actions[..|actions| - 1], actions[|actions| - 1];
      var s := RunStream(front);
      if s.out.closed {
        ClosedByCompletion(front);
        var i :| 0 <= i < |front| && front[i] == Completes(false);
        assert actions[i] == Completes(false);
      } else {
        assert actions[|actions| - 1] == Completes(false);
      }
    }
  }

}
