/** The producer side of a terminal: `Drain` moves what the shell has buffered into the bounded stream. */
module SshTerminalSession {
  import opened Prelude
  import opened TerminalOutput
  import opened BoundedTerminalOutput

  /** The shell's receive buffer, filled by the transport. */
  class ShellStream {
    var available: seq<Byte>

    /** The transport may hand over fewer bytes than asked for, but at least one while there are any. */
    method Read(size: nat, offered: nat) returns (bytes: seq<Byte>)
      requires size > 0
      modifies this
      ensures old(available) == bytes + available && |bytes| <= size
      ensures bytes == [] <==> old(available) == []
    {
      var count := if offered < 1 then 1 else offered;
      if count > size {
        count := size;
      }
      if count > |available| {
        count := |available|;
      }
      bytes := available[..count];
      available := available[count..];
    }
  }

  /**
   * One turn of the drain loop: whether the shell was disposed of before it could be read, how much it offers otherwise, and
   * what happens while the write waits for room.
   */
  datatype Turn = Turn(shellGone: bool, offered: nat, meanwhile: seq<Meanwhile>)

  /** The shell was disposed of, or a write was cancelled or found the stream completed. */
  predicate Interrupts(turn: Turn) {
    turn.shellGone || WriterCancelled in turn.meanwhile || IsCompletedIn(turn.meanwhile)
  }

  predicate Interrupted(turns: seq<Turn>) {
    exists i | 0 <= i < |turns| :: Interrupts(turns[i])
  }

  datatype DrainResult = Drained | Disposed | Ended | Waiting

  class Session {
    const output: Buffer
    const shell: ShellStream
    var disposed: bool

    constructor (shell: ShellStream)
      ensures this.shell == shell && !disposed && fresh(output)
      ensures output.Valid() && output.written == [] && output.read == []
    {
      this.shell := shell;
      disposed := false;
      output := new Buffer();
    }

    /**
     * Bytes leave the shell in order and enter the stream in order: what left it is `moved`, which was written, followed by
     * `lost` and `held`. Bytes are lost only to a completed stream, and held only while the drain is still waiting for room.
     * It ends early only with the stream completed, which it does itself when its write is cancelled or the shell is gone.
     * Uninterrupted, it stops short of the last byte only for want of room: each turn moves at least one byte.
     */
    method Drain(turns: seq<Turn>)
      returns (result: DrainResult, ghost moved: seq<Byte>, ghost lost: seq<Byte>, ghost held: seq<Byte>)
      requires output.Valid()
      modifies output, shell
      ensures output.Valid()
      ensures old(shell.available) == moved + lost + held + shell.available
      ensures output.written == old(output.written) + moved && old(output.read) <= output.read
      ensures lost != [] ==> result.Ended?
      ensures held != [] ==> result.Waiting?
      ensures result.Ended? ==> output.closed && (old(output.closed) || Interrupted(turns))
      ensures result.Waiting? ==> if held == [] then |turns| <= |moved| else !output.closed && |output.queue| == CAPACITY
      ensures result.Disposed? <==> disposed
      ensures result.Drained? ==> shell.available == []
    {
      hide Unread, Flatten, TerminalOutput.Valid, Buffer.Valid;
      moved, lost, held := [], [], [];
      if disposed {
        return Disposed, moved, lost, held;
      }
      for i := 0 to |turns|
        invariant output.Valid() && lost == [] && held == []
        invariant old(shell.available) == moved + shell.available
        invariant output.written == old(output.written) + moved && old(output.read) <= output.read
        invariant i <= |moved|
        invariant output.closed ==> old(output.closed) || Interrupted(turns)
      {
        assert Interrupts(turns[i]) ==> Interrupted(turns);
        if turns[i].shellGone {
          output.Complete(false);
          return Ended, moved, lost, held;
        }
        if shell.available == [] {
          return Drained, moved, lost, held;
        }
        ghost var before := shell.available;
        var bytes := shell.Read(CHUNK, turns[i].offered);
        var written, accepted := output.WriteAsync(bytes, turns[i].meanwhile);
        assert moved + before == moved + bytes[..accepted] + bytes[accepted..] + shell.available;
        moved := moved + bytes[..accepted];
        if written.StillWaiting? {
          return Waiting, moved, lost, bytes[accepted..];
        }
        if written.Cancelled? {
          output.Complete(false);
          return Ended, moved, bytes[accepted..], held;
        }
        if written.Closed? {
          return Ended, moved, bytes[accepted..], held;
        }
      }
      result := Waiting;
    }

    /** `shell.Closed`: drain, then complete the stream. */
    method OnClosed(turns: seq<Turn>)
      returns (result: DrainResult, ghost moved: seq<Byte>, ghost lost: seq<Byte>, ghost held: seq<Byte>)
      requires output.Valid()
      modifies output, shell
      ensures output.Valid() && old(shell.available) == moved + lost + held + shell.available
      ensures output.written == old(output.written) + moved
      ensures result.Waiting? || (output.closed && held == [])
      ensures result.Waiting? ==> if held == [] then |turns| <= |moved| else !output.closed && |output.queue| == CAPACITY
      ensures result.Ended? ==> old(output.closed) || Interrupted(turns)
      ensures result.Disposed? <==> disposed
      ensures result.Drained? ==> shell.available == [] && output.written == old(output.written + shell.available)
    {
      result, moved, lost, held := Drain(turns);
      if result.Waiting? {
        return;
      }
      assert result.Drained? ==> moved + lost + held + shell.available == moved;
      output.Complete(false);
    }

    /** Only the first call does anything. */
    method DisposeAsync()
      requires output.Valid()
      modifies this`disposed, output
      ensures output.Valid() && disposed && output.closed == (old(output.closed) || !old(disposed))
      ensures output.written == old(output.written) && output.read == old(output.read)
    {
      if disposed {
        return;
      }
      disposed := true;
      output.Complete(false);
    }
  }
}
