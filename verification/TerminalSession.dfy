/**
 * One terminal end to end: the shell's bytes are drained into the bounded stream, read in pieces, posted to the
 * renderer as numbered frames, and each frame waits for its acknowledgement before the next one is read.
 */
module TerminalSession {
  import opened Prelude
  import opened TerminalOutput

  datatype Ending = Eof | TransportFailed | Stopped

  /**
   * `produced` is what the shell sent in this session, `taken` how much of it left the shell's own buffer and
   * `inFlight` the piece `Drain` is writing. `posted` counts the frames of all sessions of the window and
   * `outputId` is their number in 32 bits; `awaiting` is the frame whose acknowledgement the loop waits for and
   * `ackedBy` the frame of the message that completed it. `releases` records, for every finished wait, that frame.
   */
  datatype Terminal = Terminal(
    produced: seq<Byte>, taken: nat, inFlight: Option<seq<Byte>>, shellClosed: bool, disposed: bool,
    out: Output, written: seq<Byte>, read: seq<Byte>,
    frames: seq<seq<Byte>>, firstFrame: nat, posted: nat, outputId: int,
    awaiting: Option<nat>, ackedBy: Option<nat>, releases: seq<nat>,
    ending: Option<Ending>)

  const WORD := 0x1_0000_0000

  /** The 32-bit number of the `n`-th frame: `++outputId` wraps. */
  function FrameId(n: nat): int {
    if n % WORD < 0x8000_0000 then n % WORD else n % WORD - WORD
  }

  /** Adding one in 32-bit arithmetic goes from the number of a frame to that of the next. */
  lemma NextFrameId(n: nat)
    ensures FrameId(n + 1) == if FrameId(n) == 0x7FFF_FFFF then -0x8000_0000 else FrameId(n) + 1
  {
    assert (n + 1) % WORD == if n % WORD == WORD - 1 then 0 else n % WORD + 1;
  }

  function NewSession(posted: nat, ackedBy: Option<nat>): Terminal {
    Terminal([], 0, None, false, false, TerminalOutput.EMPTY, [], [], [], posted, posted, FrameId(posted),
             None, ackedBy, [], None)
  }

  datatype Event =
    | Produces(bytes: seq<Byte>)
    | DrainReads(count: nat)
    | DrainPuts
    | DrainCancelled
    | ShellCloses
    | ClosedHandlerCompletes
    | ShellFails
    | Disposes
    | WindowReads
    | AckArrives(frame: nat)
    | WindowResumes
    | WindowStops
    | Reconnects

  /** `shell.Read` into the 8 KiB buffer of `Drain`. */
  function DrainRead(t: Terminal, count: nat): Terminal {
    if t.inFlight.Some? || count == 0 || count > CHUNK || t.taken + count > |t.produced| then t
    else t.(inFlight := Some(t.produced[t.taken..t.taken + count]), taken := t.taken + count)
  }

  /** `output.WriteAsync`; on a closed channel the piece is dropped. */
  function DrainPut(t: Terminal): Terminal {
    if t.inFlight.None? then t else
      var (out, result) := Put(t.out, t.inFlight.value);
      match result
      case Accepted => t.(out := out, inFlight := None, written := t.written + t.inFlight.value)
      case ChannelClosed => t.(inFlight := None)
      case Full => t
  }

  /** One turn of the loop of `RunAsync` up to the wait for the acknowledgement. */
  function WindowRead(t: Terminal): Terminal
    requires Valid(t.out)
  {
    if t.ending.Some? || t.awaiting.Some? then t else
      var (out, result) := Read(t.out, CHUNK);
      match result
      case Data(bytes) =>
        t.(out := out, read := t.read + bytes, frames := t.frames + [bytes], posted := t.posted + 1,
           outputId := FrameId(t.posted + 1), awaiting := Some(t.posted + 1), ackedBy := None)
      case EndOfStream => t.(ending := Some(Eof))
      case Faulted => t.(ending := Some(TransportFailed))
      case Waits => t
  }

  function Next(t: Terminal, e: Event): Terminal
    requires Valid(t.out)
  {
    match e
    case Produces(bytes) => if t.shellClosed then t else t.(produced := t.produced + bytes)
    case DrainReads(count) => DrainRead(t, count)
    case DrainPuts => DrainPut(t)
    case DrainCancelled => if t.inFlight.Some? && t.disposed then t.(inFlight := None, out := Complete(t.out, false)) else t
    case ShellCloses => t.(shellClosed := true)
    // The handler completes the stream after its own drain found nothing more to read.
    case ClosedHandlerCompletes =>
      if t.shellClosed && t.inFlight.None? && (t.taken == |t.produced| || t.disposed || t.out.closed)
      then t.(out := Complete(t.out, false)) else t
    case ShellFails => t.(out := Complete(t.out, true))
    // Only the `finally` of `RunAsync` disposes the session.
    case Disposes => if t.ending.Some? then t.(disposed := true, out := Complete(t.out, false)) else t
    case WindowReads => WindowRead(t)
    // The renderer acknowledges frames it was sent: late, repeatedly or never.
    case AckArrives(frame) =>
      if 1 <= frame <= t.posted && FrameId(frame) == t.outputId && t.ackedBy.None? then t.(ackedBy := Some(frame)) else t
    case WindowResumes =>
      if t.ending.None? && t.awaiting.Some? && t.ackedBy.Some? then
        t.(awaiting := None, releases := t.releases + [t.ackedBy.value])
      else t
    case WindowStops => if t.ending.None? then t.(ending := Some(Stopped)) else t
    case Reconnects => if t.ending.Some? then NewSession(t.posted, t.ackedBy) else t
  }

  // ---------------------------------------------------------------- the invariant

  ghost predicate BytesInv(t: Terminal) {
    && Valid(t.out)
    && t.written == t.read + Unread(t.out)
    && t.read == Flatten(t.frames)
    && (forall i | 0 <= i < |t.frames| :: ChunkOk(t.frames[i]))
    && t.taken <= |t.produced|
    && (t.inFlight.Some? ==> ChunkOk(t.inFlight.value))
  }

  /** Until the stream is closed nothing is lost; afterwards what was written is still the beginning. */
  ghost predicate PrefixInv(t: Terminal) {
    && t.taken <= |t.produced|
    && t.written <= t.produced[..t.taken]
    && (!t.out.closed ==> t.produced[..t.taken] == t.written + if t.inFlight.Some? then t.inFlight.value else [])
    && (t.out.closed && !t.out.error && !t.disposed ==> t.shellClosed && t.written == t.produced)
    && (t.disposed ==> t.ending.Some?)
    && (t.ending == Some(Eof) ==> t.shellClosed && t.read == t.produced)
  }

  ghost predicate AckInv(t: Terminal) {
    && t.outputId == FrameId(t.posted)
    && t.posted == t.firstFrame + |t.frames|
    && (t.awaiting.Some? ==> t.awaiting.value == t.posted && |t.frames| > 0)
    && (t.awaiting.Some? && t.ackedBy.Some? ==>
          1 <= t.ackedBy.value <= t.posted && FrameId(t.ackedBy.value) == FrameId(t.posted))
    && |t.releases| == |t.frames| - (if t.awaiting.Some? then 1 else 0)
    && (forall i | 0 <= i < |t.releases| :: Released(t.releases[i], t.firstFrame + 1 + i))
  }

  /** The acknowledgement of frame `k` may release the wait for frame `n`. */
  predicate Released(k: nat, n: nat) {
    1 <= k <= n && FrameId(k) == FrameId(n)
  }

  /** Every finished wait was released by the acknowledgement of its very frame. */
  ghost predicate OwnAcks(t: Terminal) {
    forall i | 0 <= i < |t.releases| :: t.releases[i] == t.firstFrame + 1 + i
  }

  ghost predicate Inv(t: Terminal) {
    BytesInv(t) && PrefixInv(t) && AckInv(t)
  }

  lemma BytesKept(t: Terminal, e: Event)
    requires BytesInv(t)
    ensures BytesInv(Next(t, e))
  {
    hide Flatten, Unread, WindowRead;
    match e
    case DrainPuts =>
      if t.inFlight.Some? {
        PutKeeps(t.out, t.inFlight.value);
        assert (t.read + Unread(t.out)) + t.inFlight.value == t.read + (Unread(t.out) + t.inFlight.value);
        assert Unread(t.out) + [] == Unread(t.out);
      }
    case WindowReads => BytesKeptByRead(t);
    case Reconnects => NewSessionBytes(t.posted, t.ackedBy);
    case DrainCancelled => CompleteKeepsUnread(t.out, false);
    case ClosedHandlerCompletes => CompleteKeepsUnread(t.out, false);
    case ShellFails => CompleteKeepsUnread(t.out, true);
    case Disposes => CompleteKeepsUnread(t.out, false);
    case _ =>
  }

  lemma CompleteKeepsUnread(out: Output, error: bool)
    requires Valid(out)
    ensures Valid(Complete(out, error)) && Unread(Complete(out, error)) == Unread(out)
  {
  }

  lemma NewSessionBytes(posted: nat, ackedBy: Option<nat>)
    ensures BytesInv(NewSession(posted, ackedBy))
  {
  }

  lemma BytesKeptByRead(t: Terminal)
    requires BytesInv(t)
    ensures BytesInv(WindowRead(t))
  {
    hide Flatten, Unread, FrameId;
    ReadKeeps(t.out, CHUNK);
    var (out, result) := Read(t.out, CHUNK);
    if result.Data? {
      FlattenAppend(t.frames, result.bytes);
      assert t.read + (result.bytes + Unread(out)) == (t.read + result.bytes) + Unread(out);
    }
  }

  lemma PrefixKept(t: Terminal, e: Event)
    requires Inv(t)
    ensures PrefixInv(Next(t, e))
  {
    hide AckInv, Flatten, Unread, FrameId, Load, Take;
    match e
    case Produces(bytes) =>
      assert (t.produced + bytes)[..t.taken] == t.produced[..t.taken];
    case DrainReads(count) =>
      if t.taken + count <= |t.produced| {
        assert t.produced[..t.taken + count] == t.produced[..t.taken] + t.produced[t.taken..t.taken + count];
      }
    case WindowReads =>
      ReadKeeps(t.out, CHUNK);
      if Read(t.out, CHUNK).1.EndOfStream? {
        assert t.read + [] == t.read;
      }
    case ClosedHandlerCompletes =>
      assert t.written + [] == t.written && t.produced[..|t.produced|] == t.produced;
    case _ =>
  }

  lemma AckKept(t: Terminal, e: Event)
    requires Valid(t.out) && AckInv(t)
    ensures AckInv(Next(t, e))
  {
    hide FrameId, Read;
  }

  lemma NextKeeps(t: Terminal, e: Event)
    requires Inv(t)
    ensures Inv(Next(t, e))
  {
    hide BytesInv, PrefixInv, AckInv, Next;
    assert Valid(t.out) by {
      BytesValid(t);
    }
    BytesKept(t, e);
    PrefixKept(t, e);
    AckKept(t, e);
  }

  lemma BytesValid(t: Terminal)
    requires BytesInv(t)
    ensures Valid(t.out)
  {
  }

  /** Only posting a frame and an acknowledgement change the number and the wait of a window. */
  lemma OthersKeepFields(t: Terminal, e: Event)
    requires Inv(t) && !e.AckArrives? && Next(t, e).posted == t.posted
    ensures Next(t, e).outputId == t.outputId && Next(t, e).ackedBy == t.ackedBy
  {
    hide BytesInv, PrefixInv, FrameId, Read, Put;
    BytesValid(t);
  }

  ghost function Run(events: seq<Event>): (t: Terminal)
    ensures Inv(t)
  {
    if events == [] then
      assert NewSession(0, None).produced[..0] == [];
      NewSession(0, None)
    else
      NextKeeps(Run(events[..|events| - 1]), events[|events| - 1]);
      Next(Run(events[..|events| - 1]), events[|events| - 1])
  }

  // ---------------------------------------------------------------- the theorems

  /** In every session the posted frames, put together, are the beginning of what the shell produced. */
  lemma FramesAreInOrder(events: seq<Event>)
    ensures var t := Run(events);
            Flatten(t.frames) <= t.produced && forall i | 0 <= i < |t.frames| :: 1 <= |t.frames[i]| <= CHUNK
  {
    hide Run;
    var t := Run(events);
  }

  /** The window reports the end of the session only when the shell has closed and every byte was posted. */
  lemma EndOfSessionIsHonest(events: seq<Event>)
    requires Run(events).ending == Some(Eof)
    ensures Run(events).shellClosed && Flatten(Run(events).frames) == Run(events).produced
  {
    hide Run, Flatten;
  }

  /**
   * Stop and wait: a frame is posted only after every earlier frame of the session was released, each by an
   * acknowledgement that carries its own 32-bit number; up to 2^32 posted frames that is an
   * acknowledgement of that very frame, so repeated and old ones release nothing.
   */
  lemma EachFrameWaitsForItsOwnAck(events: seq<Event>)
    ensures var t := Run(events);
            && |t.frames| - 1 <= |t.releases| <= |t.frames|
            && (forall i | 0 <= i < |t.releases| :: Released(t.releases[i], t.firstFrame + 1 + i))
            && (t.posted <= WORD ==> OwnAcks(t))
  {
    hide Run, FrameId;
    var t := Run(events);
    forall i | 0 <= i < |t.releases| && t.posted <= WORD ensures t.releases[i] == t.firstFrame + 1 + i {
      assert Released(t.releases[i], t.firstFrame + 1 + i);
      SameIdIffCongruent(t.releases[i], t.firstFrame + 1 + i);
    }
  }

  /** Two frames carry the same number exactly when they are a multiple of 2^32 apart. */
  lemma SameIdIffCongruent(k: nat, n: nat)
    requires k <= n
    ensures FrameId(k) == FrameId(n) <==> (n - k) % WORD == 0
    ensures n - k < WORD ==> (FrameId(k) == FrameId(n) <==> k == n)
  {
    var q, r := n / WORD, k / WORD;
    assert n - k == (q - r) * WORD + (n % WORD - k % WORD);
  }

  // ---------------------------------------------------------------- nothing is stuck

  /** The session runs and its transport has not failed. */
  predicate CanFinish(t: Terminal) {
    t.ending.None? && !(t.out.closed && t.out.error)
  }

  /** What moves the session on towards its end: the renderer answers, the window reads, the drain moves, the shell closes. */
  function Forward(t: Terminal): Event
    requires Valid(t.out)
  {
    if t.awaiting.Some? then if t.ackedBy.None? then AckArrives(t.posted) else WindowResumes
    else if Unread(t.out) != [] then WindowReads
    else if t.inFlight.Some? then DrainPuts
    else if t.taken < |t.produced| then
      DrainReads(if |t.produced| - t.taken < CHUNK then |t.produced| - t.taken else CHUNK)
    else if !t.shellClosed then ShellCloses
    else if !t.out.closed then ClosedHandlerCompletes
    else WindowReads
  }

  /** The steps still to go: three for each byte in the shell, two for each being written, one for each in the stream. */
  function ToGo(t: Terminal): nat
    requires Valid(t.out) && t.taken <= |t.produced|
  {
    12 * (|t.produced| - t.taken) + 8 * (if t.inFlight.Some? then |t.inFlight.value| else 0) + 4 * |Unread(t.out)|
    + (if t.awaiting.None? then 0 else if t.ackedBy.None? then 2 else 1)
    + (if t.shellClosed then 0 else 1) + (if t.out.closed then 0 else 1)
  }

  lemma ForwardIsNearer(t: Terminal)
    requires Inv(t) && CanFinish(t)
    ensures var t' := Next(t, Forward(t));
            && Inv(t') && t'.produced == t.produced && t'.firstFrame == t.firstFrame
            && (t'.ending == Some(Eof) || (CanFinish(t') && ToGo(t') < ToGo(t)))
  {
    hide Flatten, FrameId, Inv, Unread, Read, DrainPut, WindowRead;
    Basics(t);
    NextKeeps(t, Forward(t));
    Basics(Next(t, Forward(t)));
    match Forward(t)
    case WindowReads =>
      ReadIsNearer(t);
    case DrainPuts =>
      PutIsNearer(t);
    case _ =>
      CompleteKeepsUnread(t.out, false);
  }

  lemma ReadIsNearer(t: Terminal)
    requires Valid(t.out) && t.taken <= |t.produced| && CanFinish(t) && t.awaiting.None?
    requires Unread(t.out) != [] || t.out.closed
    ensures var t' := WindowRead(t);
            && Valid(t'.out) && t'.produced == t.produced && t'.taken == t.taken && t'.firstFrame == t.firstFrame
            && (t'.ending == Some(Eof) || (CanFinish(t') && ToGo(t') < ToGo(t)))
  {
    hide FrameId, Unread, Read;
    ReadKeeps(t.out, CHUNK);
  }

  lemma PutIsNearer(t: Terminal)
    requires Valid(t.out) && t.taken <= |t.produced| && Unread(t.out) == []
    requires t.inFlight.Some? && ChunkOk(t.inFlight.value)
    ensures var t' := DrainPut(t);
            && Valid(t'.out) && t'.produced == t.produced && t'.taken == t.taken && t'.firstFrame == t.firstFrame
            && ToGo(t') < ToGo(t) && t'.ending == t.ending
            && t'.out.closed == t.out.closed && t'.out.error == t.out.error
  {
    hide Flatten;
    PutKeeps(t.out, t.inFlight.value);
    NothingUnread(t.out);
  }

  lemma Basics(t: Terminal)
    requires Inv(t)
    ensures Valid(t.out) && t.taken <= |t.produced| && (t.inFlight.Some? ==> ChunkOk(t.inFlight.value))
    ensures t.awaiting.Some? ==> t.posted >= 1 && t.outputId == FrameId(t.posted)
    ensures t.awaiting.Some? && t.ackedBy.None? ==> t.awaiting.value == t.posted
  {
    hide FrameId, Flatten, Unread;
  }

  /** An empty stream has room for a chunk. */
  lemma NothingUnread(out: Output)
    requires Valid(out) && Unread(out) == []
    ensures out.pending.None? && out.queue == []
  {
  }

  /**
   * Whatever happened in the session, it is not stuck: while it runs and the transport has not failed, some continuation
   * posts every byte the shell produced and reports the end.
   */
  lemma {:induction false} EverythingCanBeDelivered(events: seq<Event>) returns (more: seq<Event>)
    requires CanFinish(Run(events))
    ensures var t, t' := Run(events), Run(events + more);
            && t'.ending == Some(Eof) && t'.firstFrame == t.firstFrame
            && t'.produced == t.produced && Flatten(t'.frames) == t.produced
    decreases ToGo(Run(events))
  {
    hide Run, Next, Flatten, Inv, ToGo;
    var t := Run(events);
    Basics(t);
    var e := Forward(t);
    ForwardIsNearer(t);
    RunSnoc(events, e);
    if Run(events + [e]).ending == Some(Eof) {
      more := [e];
    } else {
      var rest := EverythingCanBeDelivered(events + [e]);
      more := [e] + rest;
      assert events + [e] + rest == events + more;
    }
    EndOfSessionIsHonest(events + more);
  }

  /**
   * A session ends once: by the end of its output, a failure of the transport or being stopped, each when it is due, and nothing
   * is posted for it afterwards.
   */
  lemma SessionEndsOnce(events: seq<Event>, e: Event)
    ensures var t, t' := Run(events), Run(events + [e]);
            var waits := t.awaiting.Some? || Unread(t.out) != [] || !t.out.closed;
            && (t.ending.Some? && !e.Reconnects? ==> t'.ending == t.ending && t'.frames == t.frames && t'.read == t.read)
            && (t.ending.None? || !e.Reconnects? ==> t'.firstFrame == t.firstFrame && t.frames <= t'.frames)
            && (t.ending.None? ==>
                  t'.ending == if e.WindowStops? then Some(Stopped)
                               else if !e.WindowReads? || waits then None
                               else if t.out.error then Some(TransportFailed) else Some(Eof))
  {
    hide Run, Load, Take, Unread, Flatten, FrameId;
    var t := Run(events);
    RunSnoc(events, e);
    Basics(t);
    ReadKeeps(t.out, CHUNK);
    if Unread(t.out) == [] {
      NothingUnread(t.out);
    }
  }

  /** A reconnect starts an empty session that can go on, and the window goes on counting its frames. */
  lemma ReconnectStartsAfresh(events: seq<Event>)
    requires Run(events).ending.Some?
    ensures var t, t' := Run(events), Run(events + [Reconnects]);
            && CanFinish(t') && t'.frames == [] && t'.produced == [] && t'.awaiting.None?
            && t'.firstFrame == t'.posted == t.posted
  {
    hide Run, FrameId;
    RunSnoc(events, Reconnects);
  }

  // ---------------------------------------------------------------- beyond 2^32 frames

  /** `n` frames were posted and acknowledged in the first session, and nothing is on its way. */
  ghost predicate Idle(t: Terminal, n: nat) {
    && t.posted == n && t.firstFrame == 0 && |t.releases| == n && t.awaiting.None? && t.ending.None?
    && t.inFlight.None? && t.taken == |t.produced| && !t.shellClosed
    && t.out == TerminalOutput.EMPTY.(offset := t.out.offset)
  }

  /** One more byte is on its way to the renderer, whose acknowledgement of it is awaited. */
  ghost predicate Waiting(t: Terminal, n: nat) {
    && t.posted == n && t.firstFrame == 0 && |t.releases| + 1 == n && t.awaiting == Some(n) && t.ackedBy.None?
    && t.ending.None? && t.inFlight.None? && t.taken == |t.produced| && !t.shellClosed
    && t.out == TerminalOutput.EMPTY.(offset := t.out.offset)
  }

  function OneByte(): seq<Event> {
    [Produces([0]), DrainReads(1), DrainPuts, WindowReads]
  }

  lemma RunSnoc(events: seq<Event>, e: Event)
    ensures Run(events + [e]) == Next(Run(events), e)
  {
    hide Next;
    assert (events + [e])[..|events|] == events;
  }

  lemma DrainsOneByte(t: Terminal, n: nat)
    requires Inv(t) && Idle(t, n)
    ensures var t1 := Next(t, Produces([0]));
            var t2 := Next(t1, DrainReads(1));
            t2 == t.(produced := t.produced + [0], inFlight := Some([0]), taken := t.taken + 1)
  {
    hide FrameId;
    var more := t.produced + [0];
    assert more[t.taken..t.taken + 1] == [0];
  }

  /** The next frame is posted, and its acknowledgement awaited. */
  lemma NextFrameWaits(events: seq<Event>, n: nat)
    requires Idle(Run(events), n)
    ensures Waiting(Run(events + OneByte()), n + 1)
  {
    hide Run;
    var e := OneByte();
    var t := Run(events);
    RunSnoc(events, e[0]);
    RunSnoc(events + [e[0]], e[1]);
    RunSnoc(events + [e[0]] + [e[1]], e[2]);
    RunSnoc(events + [e[0]] + [e[1]] + [e[2]], e[3]);
    assert events + e == events + [e[0]] + [e[1]] + [e[2]] + [e[3]];
    DrainsOneByte(t, n);
    var t2 := Run(events + [e[0]] + [e[1]]);
    assert Idle(t2.(inFlight := None), n);
  }

  /** An acknowledgement that carries the number of the awaited frame ends the wait. */
  lemma AckReleases(events: seq<Event>, n: nat, k: nat)
    requires Waiting(Run(events), n) && 1 <= k <= n && FrameId(k) == FrameId(n)
    ensures var t := Run(events + [AckArrives(k)] + [WindowResumes]);
            Idle(t, n) && t.releases == Run(events).releases + [k]
  {
    hide Run, FrameId;
    RunSnoc(events, AckArrives(k));
    RunSnoc(events + [AckArrives(k)], WindowResumes);
    assert AckInv(Run(events));
  }

  lemma {:induction false} AnyNumberOfFrames(n: nat) returns (events: seq<Event>)
    ensures Idle(Run(events), n)
  {
    hide FrameId;
    if n == 0 {
      events := [];
    } else {
      events := AnyNumberOfFrames(n - 1);
      NextFrameWaits(events, n - 1);
      AckReleases(events + OneByte(), n, n);
      events := events + OneByte() + [AckArrives(n)] + [WindowResumes];
    }
  }

  /** Beyond that bound the claim fails: in some run an acknowledgement of frame 1 releases the wait for frame 2^32 + 1. */
  lemma VeryLateAckReleasesTheWrongWait() returns (events: seq<Event>)
    ensures var t := Run(events);
            t.posted == WORD + 1 && t.firstFrame == 0 && |t.releases| == WORD + 1 && t.releases[WORD] == 1
  {
    hide Run, FrameId;
    var n: nat := WORD;
    events := AnyNumberOfFrames(n);
    NextFrameWaits(events, n);
    SameIdIffCongruent(1, n + 1);
    AckReleases(events + OneByte(), n + 1, 1);
    events := events + OneByte() + [AckArrives(1)] + [WindowResumes];
  }

  ghost predicate OwnAcksUpTo(frames: nat) {
    forall events :: Run(events).posted <= frames ==> OwnAcks(Run(events))
  }

  /** Waits are released by their own acknowledgements in every run of a window up to 2^32 frames, and no further. */
  lemma OwnAcksIffNoWrap(frames: nat)
    ensures OwnAcksUpTo(frames) <==> frames <= WORD
  {
    hide Run, FrameId;
    if frames <= WORD {
      forall events | Run(events).posted <= frames ensures OwnAcks(Run(events)) {
        EachFrameWaitsForItsOwnAck(events);
      }
    } else {
      var events := VeryLateAckReleasesTheWrongWait();
      assert !OwnAcks(Run(events));
    }
  }

}
