/** `BoundedTerminalOutput` as the object it is; `written` and `read` are the histories of what passed through it. */
module BoundedTerminalOutput {
  import opened Prelude
  import opened TerminalOutput

  /** What happens elsewhere while the writer waits for room. */
  datatype Meanwhile = ConsumerReads(size: nat) | WriterCancelled | ChannelCompletes(error: bool)

  datatype WriteResult = Done | StillWaiting | Cancelled | Closed

  predicate IsCompletedIn(script: seq<Meanwhile>) {
    exists i | 0 <= i < |script| :: script[i].ChannelCompletes?
  }

  class Buffer {
    var queue: seq<seq<Byte>>
    var closed: bool
    var error: bool
    var pending: Option<seq<Byte>>
    var offset: nat
    ghost var written: seq<Byte>
    ghost var read: seq<Byte>

    ghost function Model(): Output
      reads this
    {
      Output(queue, closed, error, pending, offset)
    }

    ghost predicate Valid()
      reads this
    {
      TerminalOutput.Valid(Model()) && written == read + Unread(Model())
    }

    constructor ()
      ensures Valid() && Model() == EMPTY && written == [] && read == []
    {
      queue, closed, error, pending, offset := [], false, false, None, 0;
      written, read := [], [];
    }

    method Put(chunk: seq<Byte>) returns (result: PutResult)
      requires Valid() && ChunkOk(chunk)
      modifies this
      ensures Valid() && (Model(), result) == TerminalOutput.Put(old(Model()), chunk)
      ensures written == old(written) + (if result.Accepted? then chunk else []) && read == old(read)
    {
      PutKeeps(Model(), chunk);
      if closed {
        return ChannelClosed;
      }
      if |queue| >= CAPACITY {
        return Full;
      }
      assert (read + Unread(Model())) + chunk == read + (Unread(Model()) + chunk);
      queue := queue + [chunk];
      written := written + chunk;
      result := Accepted;
    }

    /**
     * Puts the bytes chunk by chunk, waiting while the queue is full; `script` is what the rest of the program
     * does during those waits, in order. What was accepted is always a prefix of the bytes, and all of them on `Done`.
     * Nothing but a full queue, a cancellation or a completion keeps it from the rest.
     */
    method WriteAsync(bytes: seq<Byte>, script: seq<Meanwhile>) returns (result: WriteResult, accepted: nat)
      requires Valid()
      modifies this
      ensures Valid() && accepted <= |bytes|
      ensures written == old(written) + bytes[..accepted]
      ensures old(read) <= read
      ensures result.Done? <==> accepted == |bytes|
      ensures result.StillWaiting? ==> !closed && |queue| == CAPACITY
      ensures result.Cancelled? ==> !closed && |queue| == CAPACITY && WriterCancelled in script
      ensures result.Closed? ==> closed
      ensures old(closed) ==> closed
      ensures closed ==> old(closed) || IsCompletedIn(script)
      ensures old(closed) && bytes != [] ==> result.Closed? && accepted == 0
    {
      hide Unread, Flatten;
      accepted := 0;
      var turn := 0;
      while accepted < |bytes|
        invariant Valid() && accepted <= |bytes| && turn <= |script|
        invariant written == old(written) + bytes[..accepted]
        invariant old(read) <= read
        invariant old(closed) ==> closed
        invariant closed ==> old(closed) || IsCompletedIn(script)
        invariant old(closed) ==> accepted == 0
        decreases |bytes| - accepted, |script| - turn
      {
        var chunk := NextChunk(bytes[accepted..]);
        var put := Put(chunk);
        if put.ChannelClosed? {
          return Closed, accepted;
        }
        if put.Accepted? {
          assert bytes[..accepted] + chunk == bytes[..accepted + |chunk|];
          accepted := accepted + |chunk|;
        } else {
          if turn == |script| {
            return StillWaiting, accepted;
          }
          match script[turn] {
            case WriterCancelled => return Cancelled, accepted;
            case ChannelCompletes(e) => Complete(e);
            case ConsumerReads(size) =>
              var buffer := new Byte[size];
              ReadKeeps(Model(), size);
              var r, n := ReadAsync(buffer);
          }
          turn := turn + 1;
        }
      }
      result := Done;
    }

    /** Copies the oldest unread bytes to the front of the caller's buffer and leaves the rest of it alone. */
    method ReadAsync(buffer: array<Byte>) returns (result: ReadResult, count: nat)
      requires Valid()
      modifies this, buffer
      ensures Valid() && (Model(), result) == Read(old(Model()), buffer.Length)
      ensures count <= buffer.Length && (result.Data? ==> result.bytes == buffer[..count])
      ensures !result.Data? ==> count == 0
      ensures buffer[count..] == old(buffer[count..])
      ensures read == old(read) + buffer[..count] && written == old(written)
    {
      hide Unread, Flatten;
      ghost var before := Model();
      ReadKeeps(before, buffer.Length);
      if buffer.Length == 0 {
        return Data([]), 0;
      }
      if pending.None? && queue == [] {
        return if !closed then Waits else if error then Faulted else EndOfStream, 0;
      }
      var bytes := TakeNext(buffer.Length);
      Copy(bytes, buffer);
      result, count := Data(bytes), |bytes|;
      assert buffer[..count] == bytes;
    }

    /** The part of `ReadAsync` that changes this object. */
    method TakeNext(size: nat) returns (bytes: seq<Byte>)
      requires Valid() && size > 0 && (pending.Some? || queue != [])
      modifies this
      ensures Valid() && (Model(), bytes) == Take(Load(old(Model())), size)
      ensures read == old(read) + bytes && written == old(written)
    {
      hide Unread, Flatten;
      ghost var before := Model();
      LoadKeeps(before);
      TakeKeeps(Load(before), size);
      if pending.None? {
        pending := Some(queue[0]);
        queue := queue[1..];
        offset := 0;
      }
      var chunk := pending.value;
      var count := if size < |chunk| - offset then size else |chunk| - offset;
      bytes := chunk[offset..offset + count];
      offset := offset + count;
      if offset == |chunk| {
        pending := None;
      }
      read := read + bytes;
      assert old(read) + (bytes + Unread(Model())) == read + Unread(Model());
    }

    method Complete(error: bool)
      requires Valid()
      modifies this`closed, this`error
      ensures Valid() && Model() == TerminalOutput.Complete(old(Model()), error)
    {
      if !closed {
        closed := true;
        this.error := error;
      }
    }
  }

  /** `Span.CopyTo`. */
  method Copy(bytes: seq<Byte>, buffer: array<Byte>)
    requires |bytes| <= buffer.Length
    modifies buffer
    ensures buffer[..|bytes|] == bytes && buffer[|bytes|..] == old(buffer[|bytes|..])
  {
    for i := 0 to |bytes|
      invariant buffer[..i] == bytes[..i]
      invariant buffer[|bytes|..] == old(buffer[|bytes|..])
    {
      buffer[i] := bytes[i];
    }
  }
}
