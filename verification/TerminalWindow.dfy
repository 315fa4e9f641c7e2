/** The window object: the fields its overlapping calls share, changed as the two terminal machines say. */
module TerminalWindow {
  import opened Prelude
  import Output = TerminalOutput
  import opened TerminalLifecycle
  import Session = TerminalSession

  class TerminalWindow {
    var running: Option<nat>
    var cancellation: Option<nat>
    var restarting: bool
    var closing: bool
    var requiresReopen: bool
    var drained: bool
    var outputId: int
    var acknowledgement: Option<bool>
    var waiters: map<nat, Waiter>
    var calls: nat
    var started: nat
    var sources: nat
    var cancelled: set<nat>
    var disposed: set<nat>
    ghost var live: set<nat>
    ghost var terminal: Session.Terminal

    ghost function View(): Window
      reads this
    {
      Window(live, started, running, cancellation, sources, cancelled, disposed, restarting, closing, requiresReopen,
             drained, waiters, calls)
    }

    /** The fields of the terminal loop are those of the session machine, which is in a state its runs keep. */
    ghost predicate ShowsTerminal()
      reads this
    {
      && Session.Inv(terminal)
      && outputId == terminal.outputId
      && acknowledgement == if terminal.posted == 0 then None else Some(terminal.ackedBy.Some?)
    }

    constructor ()
      ensures View() == TerminalLifecycle.START && ShowsTerminal() && terminal == Session.NewSession(0, None)
    {
      running, cancellation, restarting, closing, requiresReopen, drained := None, None, false, false, false, false;
      outputId, acknowledgement, waiters, calls, started, sources := 0, None, map[], 0, 0, 0;
      cancelled, disposed, live, terminal := {}, {}, {}, Session.Run([]);
    }

    method CancelCurrent()
      modifies this`cancelled
      ensures View() == TerminalLifecycle.CancelCurrent(old(View()))
    {
      if cancellation.Some? {
        cancelled := cancelled + {cancellation.value};
      }
    }

    /** `ProcessFailed` of the browser: the window has to be reopened, and its run is cancelled. */
    method RendererFailed()
      modifies this`requiresReopen, this`cancelled
      ensures View() == Next(old(View()), RendererFails)
    {
      requiresReopen := true;
      CancelCurrent();
    }

    /** The synchronous part of `StopAsync`; the call number identifies its continuation. */
    method EnterStop(caller: Caller)
      modifies this`waiters, this`calls, this`cancelled
      ensures View() == TerminalLifecycle.EnterStop(old(View()), caller)
    {
      CancelCurrent();
      waiters := waiters[calls := Waiter(caller, cancellation, running, false)];
      calls := calls + 1;
    }

    method ReconnectClicked()
      modifies this`waiters, this`calls, this`cancelled, this`restarting
      ensures View() == Next(old(View()), Event.ReconnectClicked)
    {
      if closing || restarting || requiresReopen {
        return;
      }
      restarting := true;
      EnterStop(Reconnecting);
    }

    method CloseRequested()
      modifies this`waiters, this`calls, this`cancelled, this`closing
      ensures View() == Next(old(View()), Event.CloseRequested)
    {
      if closing {
        return;
      }
      closing := true;
      EnterStop(Closing);
    }

    /** `StopAsync` after its wait; the run it captured has ended. */
    method StopReturns(call: nat)
      requires call in waiters && !waiters[call].stopped
      requires waiters[call].task.Some? ==> waiters[call].task.value !in live
      modifies this`waiters, this`cancellation, this`disposed
      ensures View() == Next(old(View()), Event.StopReturns(call))
    {
      var waiter := waiters[call];
      waiters := waiters[call := waiter.(stopped := true)];
      if cancellation == waiter.stopping {
        if waiter.stopping.Some? {
          disposed := disposed + {waiter.stopping.value};
        }
        cancellation := None;
      }
    }

    /** `ReconnectAsync` after `StopAsync`: the only place where a session is started. */
    method ReconnectContinues(call: nat) returns (start: bool)
      requires Inv(View()) && call in waiters && waiters[call].stopped && waiters[call].caller.Reconnecting?
      modifies this`waiters, this`cancellation, this`running, this`restarting, this`live, this`started, this`sources
      ensures View() == Next(old(View()), CallerContinues(call)) && Inv(View())
      ensures start == !closing && (start ==> old(live) == {} && live == {old(started)})
    {
      hide CancellationValid, CapturesValid, CallersThere, OneReconnect;
      NextKeepsInv(View(), CallerContinues(call));
      assert WaiterValid(View(), call);
      waiters := waiters - {call};
      start := !closing;
      if start {
        cancellation := Some(sources);
        sources := sources + 1;
        running := Some(started);
        live := live + {started};
        started := started + 1;
      }
      restarting := false;
    }

    /** Everything else that happens to a session, and starting the next one, leaves these two fields alone. */
    ghost method Meanwhile(e: Session.Event)
      requires ShowsTerminal() && !e.AckArrives?
      requires e.WindowReads? ==> Session.Next(terminal, e).posted == terminal.posted
      modifies this`terminal
      ensures ShowsTerminal() && terminal == Session.Next(old(terminal), e)
    {
      hide Session.BytesInv, Session.PrefixInv;
      Session.BytesValid(terminal);
      Session.NextKeeps(terminal, e);
      Session.OthersKeepFields(terminal, e);
      terminal := Session.Next(terminal, e);
    }

    /**
     * Posting what a read returned: a new acknowledgement source, then the next number, in one uninterrupted stretch. The
     * session takes its reading step, so the frame extends what was posted before by exactly these bytes.
     */
    method PostFrame(ghost bytes: seq<Output.Byte>) returns (id: int)
      requires ShowsTerminal() && terminal.ending.None? && terminal.awaiting.None?
      requires Output.Read(terminal.out, Output.CHUNK).1 == Output.Data(bytes)
      modifies this`acknowledgement, this`outputId, this`terminal
      ensures ShowsTerminal() && terminal == Session.Next(old(terminal), Session.WindowReads)
      ensures terminal.frames == old(terminal.frames) + [bytes] && id == Session.FrameId(terminal.posted)
      ensures terminal.awaiting == Some(old(terminal.posted) + 1) && terminal.ackedBy.None?
    {
      hide Session.BytesInv, Session.PrefixInv, Output.Read;
      acknowledgement := Some(false);
      Session.NextFrameId(terminal.posted);
      Session.BytesValid(terminal);
      Session.NextKeeps(terminal, Session.WindowReads);
      outputId := if outputId == 0x7FFF_FFFF then -0x8000_0000 else outputId + 1;
      terminal := Session.Next(terminal, Session.WindowReads);
      id := outputId;
    }

    /** `frame` is one the message can be about: one that was posted, if its number is the newest. */
    ghost predicate Names(frame: nat, id: int)
      reads this
    {
      Session.FrameId(frame) == id && (id == outputId && terminal.posted > 0 ==> 1 <= frame <= terminal.posted)
    }

    /**
     * The `ack` case of `OnMessage` is the session's acknowledgement of that frame. It completes the wait only for a frame
     * with the number of the newest one, which is that frame as long as no number was used twice.
     */
    method OnAck(id: int, ghost frame: nat)
      requires ShowsTerminal() && Names(frame, id)
      modifies this`acknowledgement, this`terminal
      ensures ShowsTerminal() && terminal == Session.Next(old(terminal), Session.AckArrives(frame))
      ensures terminal.ackedBy != old(terminal.ackedBy) ==> Session.Released(frame, terminal.posted)
      ensures terminal.ackedBy != old(terminal.ackedBy) && terminal.posted <= Session.WORD ==> frame == terminal.posted
    {
      hide Session.BytesInv, Session.PrefixInv, Session.FrameId;
      Session.BytesValid(terminal);
      Session.NextKeeps(terminal, Session.AckArrives(frame));
      if frame <= terminal.posted {
        Session.SameIdIffCongruent(frame, terminal.posted);
      }
      if id == outputId && acknowledgement.Some? {
        acknowledgement := Some(true);
      }
      terminal := Session.Next(terminal, Session.AckArrives(frame));
    }
  }
}
