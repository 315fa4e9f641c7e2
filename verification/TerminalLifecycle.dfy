/**
 * `ReconnectAsync`, `StopAsync` and `CloseSessionAsync` of the terminal window, whose waits for the running
 * session interleave: at most one `RunAsync` is ever live, and none once closing has drained.
 */
module TerminalLifecycle {
  import opened Prelude

  datatype Caller = Reconnecting | Stopping | Closing

  /** A call inside `StopAsync`: what it captured, and whether it is past the wait for the captured run. */
  datatype Waiter = Waiter(caller: Caller, stopping: Option<nat>, task: Option<nat>, stopped: bool)

  /**
   * Runs and cancellation sources are numbered as they are created; `live` holds the unfinished `RunAsync` calls, `cancelled` and
   * `disposed` the sources that were.
   */
  datatype Window = Window(
    live: set<nat>, started: nat, running: Option<nat>,
    cancellation: Option<nat>, sources: nat, cancelled: set<nat>, disposed: set<nat>,
    restarting: bool, closing: bool, requiresReopen: bool, drained: bool,
    waiters: map<nat, Waiter>, calls: nat)

  const START := Window({}, 0, None, None, 0, {}, {}, false, false, false, false, map[], 0)

  datatype Event =
    | ReconnectClicked
    | StopClicked
    | CloseRequested
    | RunEnds(task: nat)
    | RendererFails
    | StopReturns(call: nat)
    | CallerContinues(call: nat)

  /** `cancellation?.Cancel()`. */
  function CancelCurrent(w: Window): Window {
    if w.cancellation.Some? then w.(cancelled := w.cancelled + {w.cancellation.value}) else w
  }

  /** The synchronous start of `StopAsync`. */
  function EnterStop(w: Window, caller: Caller): Window {
    var v := CancelCurrent(w);
    v.(waiters := w.waiters[w.calls := Waiter(caller, w.cancellation, w.running, false)], calls := w.calls + 1)
  }

  /** The run that call `call` of `StopAsync` waits for has ended. */
  predicate MayReturn(w: Window, call: nat) {
    && call in w.waiters && !w.waiters[call].stopped
    && (w.waiters[call].task.Some? ==> w.waiters[call].task.value !in w.live)
  }

  function Source(stopping: Option<nat>): set<nat> {
    if stopping.Some? then {stopping.value} else {}
  }

  /** `await task` is over: the rest of `StopAsync`. */
  function Return(w: Window, call: nat): Window
    requires call in w.waiters
  {
    var waiter := w.waiters[call];
    var v := w.(waiters := w.waiters[call := waiter.(stopped := true)]);
    if w.cancellation == waiter.stopping then v.(cancellation := None, disposed := w.disposed + Source(waiter.stopping)) else v
  }

  predicate MayGoOn(w: Window, call: nat) {
    call in w.waiters && w.waiters[call].stopped
  }

  function StartRun(w: Window): Window {
    w.(cancellation := Some(w.sources), sources := w.sources + 1,
       live := w.live + {w.started}, running := Some(w.started), started := w.started + 1)
  }

  /** The caller of `StopAsync` goes on. */
  function GoOn(w: Window, call: nat): Window
    requires call in w.waiters
  {
    var v := w.(waiters := w.waiters - {call});
    match w.waiters[call].caller
    case Stopping => v
    case Closing => v.(drained := true)
    case Reconnecting => (if w.closing then v else StartRun(v)).(restarting := false)
  }

  function Next(w: Window, e: Event): Window {
    match e
    case ReconnectClicked =>
      if w.closing || w.restarting || w.requiresReopen then w else EnterStop(w.(restarting := true), Reconnecting)
    case StopClicked => EnterStop(w, Stopping)
    case CloseRequested => if w.closing then w else EnterStop(w.(closing := true), Closing)
    case RunEnds(task) => w.(live := w.live - {task})
    case RendererFails => CancelCurrent(w.(requiresReopen := true))
    case StopReturns(call) => if MayReturn(w, call) then Return(w, call) else w
    case CallerContinues(call) => if MayGoOn(w, call) then GoOn(w, call) else w
  }

  function Run(events: seq<Event>): Window {
    if events == [] then START else Next(Run(events[..|events| - 1]), events[|events| - 1])
  }

  /** A reconnect or a close captured the run that is still `running`, and past its wait nothing is live. */
  predicate WaiterValid(w: Window, call: nat)
    requires call in w.waiters
  {
    var waiter := w.waiters[call];
    && call < w.calls
    && (waiter.caller.Reconnecting? ==> w.restarting && waiter.task == w.running)
    && (waiter.caller.Closing? ==> w.closing && waiter.task == w.running)
    && (!waiter.caller.Stopping? && waiter.stopped ==> w.live == {})
  }

  predicate RunsValid(w: Window) {
    (forall t | t in w.live :: w.running == Some(t)) && (w.drained ==> w.closing && w.live == {})
  }

  predicate WaitersValid(w: Window) {
    forall c | c in w.waiters :: WaiterValid(w, c)
  }

  /** At most one reconnect is under way. */
  predicate OneReconnect(w: Window) {
    forall c, d | c in w.waiters && d in w.waiters
                  && w.waiters[c].caller.Reconnecting? && w.waiters[d].caller.Reconnecting? :: c == d
  }

  predicate CancellationValid(w: Window) {
    && w.sources == w.started
    && (w.cancellation.Some? ==> w.running == w.cancellation && w.cancellation.value < w.started)
    && (w.running.Some? ==> w.running.value < w.started)
    && (forall t | t in w.live :: w.cancellation == Some(t))
    && (forall n | n in w.cancelled :: n < w.started)
  }

  /** What a stop captured: the run of the very source it cancels. */
  predicate CaptureValid(w: Window, call: nat)
    requires call in w.waiters
  {
    var waiter := w.waiters[call];
    waiter.stopping.Some? ==> waiter.task == waiter.stopping && waiter.stopping.value in w.cancelled
  }

  predicate CapturesValid(w: Window) {
    forall c | c in w.waiters :: CaptureValid(w, c)
  }

  ghost predicate Awaits(w: Window, caller: Caller) {
    exists c :: c in w.waiters && w.waiters[c].caller == caller
  }

  /** While a reconnect or a close is under way its call is there to go on. */
  ghost predicate CallersThere(w: Window) {
    && (w.restarting <==> Awaits(w, Reconnecting))
    && (w.closing && !w.drained ==> Awaits(w, Closing))
  }

  ghost predicate Inv(w: Window) {
    RunsValid(w) && WaitersValid(w) && OneReconnect(w) && CancellationValid(w) && CapturesValid(w) && CallersThere(w)
  }

  /** `u` is `w` with the flag of the caller that enters `StopAsync`. */
  predicate Flagged(w: Window, u: Window, caller: Caller) {
    match caller
    case Reconnecting => !w.restarting && u == w.(restarting := true)
    case Closing => !w.closing && u == w.(closing := true)
    case Stopping => u == w
  }

  lemma EnterKeepsWaiters(w: Window, u: Window, caller: Caller)
    requires Inv(w) && Flagged(w, u, caller)
    ensures WaitersValid(EnterStop(u, caller)) && OneReconnect(EnterStop(u, caller))
  {
    hide CancellationValid, CapturesValid;
    var v := EnterStop(u, caller);
    forall c | c in v.waiters ensures WaiterValid(v, c) {
      assert c in w.waiters ==> WaiterValid(w, c);
    }
    assert forall c | c in w.waiters && w.waiters[c].caller.Reconnecting? :: Awaits(w, Reconnecting);
  }

  lemma EnterKeepsRest(w: Window, u: Window, caller: Caller)
    requires Inv(w) && Flagged(w, u, caller)
    ensures var v := EnterStop(u, caller); RunsValid(v) && CancellationValid(v) && CapturesValid(v)
  {
    hide CallersThere, WaitersValid, OneReconnect;
    var v := EnterStop(u, caller);
    forall c | c in v.waiters ensures CaptureValid(v, c) {
      assert c in w.waiters ==> CaptureValid(w, c);
    }
  }

  lemma EnterKeepsCallers(w: Window, u: Window, caller: Caller)
    requires Inv(w) && Flagged(w, u, caller)
    ensures CallersThere(EnterStop(u, caller))
  {
    hide CancellationValid, CapturesValid, RunsValid, OneReconnect;
    var v := EnterStop(u, caller);
    assert v.waiters[w.calls].caller == caller;
    forall other | Awaits(w, other) ensures Awaits(v, other) {
      var c :| c in w.waiters && w.waiters[c].caller == other;
      assert WaiterValid(w, c);
      assert c in v.waiters && v.waiters[c].caller == other;
    }
  }

  /** Only the stop that captured a source clears it, and only when the run of that source has ended. */
  lemma ReturnKeepsInv(w: Window, call: nat)
    requires Inv(w) && MayReturn(w, call)
    ensures Inv(Return(w, call))
  {
    hide CallersThere, WaitersValid, OneReconnect, CapturesValid;
    assert CaptureValid(w, call) && WaiterValid(w, call) by {
      TheirsIsValid(w, call);
    }
    ReturnKeepsWaiters(w, call);
    ReturnKeepsCallers(w, call);
  }

  lemma TheirsIsValid(w: Window, call: nat)
    requires CapturesValid(w) && WaitersValid(w) && call in w.waiters
    ensures CaptureValid(w, call) && WaiterValid(w, call)
  {
  }

  lemma ReturnKeepsWaiters(w: Window, call: nat)
    requires call in w.waiters && MayReturn(w, call)
    requires RunsValid(w) && WaitersValid(w) && OneReconnect(w) && CapturesValid(w)
    ensures WaitersValid(Return(w, call)) && OneReconnect(Return(w, call)) && CapturesValid(Return(w, call))
  {
    hide WaiterValid, CaptureValid, MayReturn, Return, RunsValid;
    var v := Return(w, call);
    assert v.waiters.Keys == w.waiters.Keys && forall c | c in v.waiters :: v.waiters[c].caller == w.waiters[c].caller by {
      ReturnChanges(w, call, call);
      forall c | c in v.waiters ensures c in w.waiters && v.waiters[c].caller == w.waiters[c].caller {
        ReturnChanges(w, call, c);
      }
    }
    forall c | c in v.waiters ensures WaiterValid(v, c) && CaptureValid(v, c) {
      assert WaiterValid(w, call) && WaiterValid(w, c) && CaptureValid(w, c);
      WaiterKeptByReturn(w, call, c);
    }
  }

  lemma ReturnChanges(w: Window, call: nat, c: nat)
    requires call in w.waiters
    ensures var v := Return(w, call);
            && v.waiters.Keys == w.waiters.Keys && (c in w.waiters ==> v.waiters[c].caller == w.waiters[c].caller)
  {
  }

  lemma WaiterKeptByReturn(w: Window, call: nat, c: nat)
    requires RunsValid(w) && MayReturn(w, call) && c in w.waiters
    requires WaiterValid(w, call) && WaiterValid(w, c) && CaptureValid(w, c)
    ensures c in Return(w, call).waiters && WaiterValid(Return(w, call), c) && CaptureValid(Return(w, call), c)
  {
  }

  lemma ReturnKeepsCallers(w: Window, call: nat)
    requires CallersThere(w) && MayReturn(w, call)
    ensures CallersThere(Return(w, call))
  {
    var v := Return(w, call);
    forall caller ensures Awaits(v, caller) <==> Awaits(w, caller) {
      if c :| c in w.waiters && w.waiters[c].caller == caller {
        assert c in v.waiters && v.waiters[c].caller == caller;
      }
    }
  }

  lemma GoOnKeepsInv(w: Window, call: nat)
    requires Inv(w) && MayGoOn(w, call)
    ensures Inv(GoOn(w, call))
  {
    var v := GoOn(w, call);
    assert WaiterValid(w, call);
    forall c | c in v.waiters ensures c in w.waiters && WaiterValid(v, c) && CaptureValid(v, c) {
      assert WaiterValid(w, c) && CaptureValid(w, c);
    }
    GoOnKeepsCallers(w, call);
  }

  lemma GoOnKeepsCallers(w: Window, call: nat)
    requires Inv(w) && MayGoOn(w, call)
    ensures CallersThere(GoOn(w, call))
  {
    hide CancellationValid, CapturesValid, RunsValid, WaitersValid;
    var v := GoOn(w, call);
    forall caller | caller != w.waiters[call].caller ensures Awaits(v, caller) <==> Awaits(w, caller) {
      if c :| c in w.waiters && w.waiters[c].caller == caller {
        assert c in v.waiters && v.waiters[c].caller == caller;
      }
    }
  }

  lemma FlagsKeepInv(w: Window, task: nat)
    requires Inv(w)
    ensures Inv(w.(live := w.live - {task})) && Inv(CancelCurrent(w.(requiresReopen := true)))
  {
    var u, v := w.(live := w.live - {task}), CancelCurrent(w.(requiresReopen := true));
    forall c | c in w.waiters ensures WaiterValid(u, c) && CaptureValid(u, c) && WaiterValid(v, c) && CaptureValid(v, c) {
      assert WaiterValid(w, c) && CaptureValid(w, c);
    }
    forall caller ensures Awaits(u, caller) == Awaits(w, caller) == Awaits(v, caller) {
    }
  }

  lemma NextKeepsInv(w: Window, e: Event)
    requires Inv(w)
    ensures Inv(Next(w, e))
  {
    hide Inv, EnterStop, Return, GoOn, CancelCurrent, MayReturn, MayGoOn;
    match e
    case ReconnectClicked =>
      if !(w.closing || w.restarting || w.requiresReopen) {
        EnterKeepsInv(w, w.(restarting := true), Reconnecting);
      }
    case StopClicked => EnterKeepsInv(w, w, Stopping);
    case CloseRequested =>
      if !w.closing {
        EnterKeepsInv(w, w.(closing := true), Closing);
      }
    case RunEnds(task) => FlagsKeepInv(w, task);
    case RendererFails => FlagsKeepInv(w, 0);
    case StopReturns(call) =>
      if MayReturn(w, call) {
        ReturnKeepsInv(w, call);
      }
    case CallerContinues(call) =>
      if MayGoOn(w, call) {
        GoOnKeepsInv(w, call);
      }
  }

  lemma EnterKeepsInv(w: Window, u: Window, caller: Caller)
    requires Inv(w) && Flagged(w, u, caller)
    ensures Inv(EnterStop(u, caller))
  {
    hide EnterStop, RunsValid, WaitersValid, OneReconnect, CancellationValid, CapturesValid, CallersThere;
    EnterKeepsWaiters(w, u, caller);
    EnterKeepsRest(w, u, caller);
    EnterKeepsCallers(w, u, caller);
  }

  lemma {:induction false} EveryRunKeepsInv(events: seq<Event>)
    ensures Inv(Run(events))
  {
    hide Next;
    if events != [] {
      hide Inv;
      EveryRunKeepsInv(events[..|events| - 1]);
      NextKeepsInv(Run(events[..|events| - 1]), events[|events| - 1]);
    }
  }

  /** Across any mix of reconnect, stop and close at most one `RunAsync` is live, and none once the window has drained. */
  lemma AtMostOneRunIsLive(events: seq<Event>)
    ensures var w := Run(events);
            (forall s, t | s in w.live && t in w.live :: s == t) && (w.drained ==> w.live == {})
  {
    hide Run;
    EveryRunKeepsInv(events);
  }

  /**
   * A live run can always be stopped: the window's cancellation is the one of that run, whatever earlier stops return meanwhile,
   * so the next stop cancels every run that is live.
   */
  lemma EveryStopReachesTheLiveRun(events: seq<Event>, caller: Caller)
    ensures var w := Run(events);
            && (forall t | t in w.live :: w.cancellation == Some(t))
            && w.live <= EnterStop(w, caller).cancelled
  {
    hide Run;
    EveryRunKeepsInv(events);
  }

  /** A reconnect or a close has the window's source, or it was given up since; past its wait it was. */
  predicate GivesUp(w: Window, call: nat)
    requires call in w.waiters
  {
    var waiter := w.waiters[call];
    waiter.caller.Stopping? || w.cancellation.None? || (w.cancellation == waiter.stopping && !waiter.stopped)
  }

  /** Every source is disposed of or the window's, and not both. */
  predicate SourcesValid(w: Window) {
    && (w.cancellation.Some? ==> w.cancellation.value !in w.disposed)
    && (forall n: nat | n < w.sources :: n in w.disposed || w.cancellation == Some(n))
    && (w.drained ==> w.cancellation.None?)
    && (forall n | n in w.disposed :: n < w.sources)
    && (forall c | c in w.waiters :: GivesUp(w, c))
  }

  lemma SourcesKeptByEnter(w: Window, u: Window, caller: Caller)
    requires SourcesValid(w) && Flagged(w, u, caller)
    ensures SourcesValid(EnterStop(u, caller))
  {
    var v := EnterStop(u, caller);
    forall c | c in v.waiters ensures GivesUp(v, c) {
      assert c in w.waiters ==> GivesUp(w, c);
    }
  }

  lemma SourcesKeptByReturn(w: Window, call: nat)
    requires CapturesValid(w) && CancellationValid(w) && SourcesValid(w) && MayReturn(w, call)
    ensures SourcesValid(Return(w, call))
  {
    var v := Return(w, call);
    assert GivesUp(w, call) && CaptureValid(w, call);
    forall c | c in v.waiters ensures GivesUp(v, c) {
      assert GivesUp(w, c);
    }
  }

  lemma SourcesKeptByGoOn(w: Window, call: nat)
    requires RunsValid(w) && WaitersValid(w) && OneReconnect(w) && CancellationValid(w) && SourcesValid(w) && MayGoOn(w, call)
    ensures SourcesValid(GoOn(w, call))
  {
    var v := GoOn(w, call);
    assert GivesUp(w, call) && WaiterValid(w, call);
    forall c | c in v.waiters ensures GivesUp(v, c) {
      assert GivesUp(w, c) && WaiterValid(w, c);
    }
  }

  lemma SourcesKept(w: Window, e: Event)
    requires Inv(w) && SourcesValid(w)
    ensures SourcesValid(Next(w, e))
  {
    hide SourcesValid, EnterStop, Return, GoOn, MayReturn, MayGoOn;
    hide RunsValid, WaitersValid, OneReconnect, CancellationValid, CapturesValid, CallersThere;
    match e
    case ReconnectClicked =>
      if !(w.closing || w.restarting || w.requiresReopen) {
        SourcesKeptByEnter(w, w.(restarting := true), Reconnecting);
      }
    case StopClicked => SourcesKeptByEnter(w, w, Stopping);
    case CloseRequested =>
      if !w.closing {
        SourcesKeptByEnter(w, w.(closing := true), Closing);
      }
    case RunEnds(task) => SourcesKeptByFlags(w, w.(live := w.live - {task}));
    case RendererFails => SourcesKeptByFlags(w, CancelCurrent(w.(requiresReopen := true)));
    case StopReturns(call) =>
      if MayReturn(w, call) {
        SourcesKeptByReturn(w, call);
      }
    case CallerContinues(call) =>
      if MayGoOn(w, call) {
        SourcesKeptByGoOn(w, call);
      }
  }

  lemma SourcesKeptByFlags(w: Window, v: Window)
    requires SourcesValid(w)
    requires v == w.(live := v.live, cancelled := v.cancelled, requiresReopen := v.requiresReopen)
    ensures SourcesValid(v)
  {
    forall c | c in v.waiters ensures GivesUp(v, c) {
      assert GivesUp(w, c);
    }
  }

  lemma {:induction false} SourcesKeptOverRun(events: seq<Event>)
    ensures SourcesValid(Run(events))
  {
    hide Next, Inv, SourcesValid;
    if events == [] {
      NoSources();
    } else {
      SourcesKeptOverRun(events[..|events| - 1]);
      EveryRunKeepsInv(events[..|events| - 1]);
      SourcesKept(Run(events[..|events| - 1]), events[|events| - 1]);
    }
  }

  lemma NoSources()
    ensures SourcesValid(START)
  {
  }

  /**
   * No cancellation source is lost or used after its end: each one ever made is disposed of or the one the window holds, what the
   * window holds, and so what it cancels, is not disposed of, and once the window has drained all are.
   */
  lemma EverySourceIsDisposed(events: seq<Event>)
    ensures var w := Run(events);
            && (forall n: nat | n < w.sources :: n in w.disposed <==> w.cancellation != Some(n))
            && (forall n | n in w.disposed :: n < w.sources && n !in w.live)
            && (w.drained ==> forall n: nat | n < w.sources :: n in w.disposed)
  {
    hide Run;
    SourcesKeptOverRun(events);
    EveryRunKeepsInv(events);
  }

  /** Nothing else is cancelled: a source is cancelled only by a stop that captured it or by a failing renderer. */
  lemma OnlyTheCurrentIsCancelled(events: seq<Event>, e: Event)
    ensures var w, v := Run(events), Next(Run(events), e);
            forall n | n in v.cancelled && n !in w.cancelled ::
              w.cancellation == Some(n) && (e.RendererFails? || v.calls == w.calls + 1)
  {
    hide Run;
  }

  /**
   * A reconnect that comes through its wait starts exactly one new run, which nothing has cancelled, unless the window is closing
   * by then; either way the next click counts again.
   */
  lemma ReconnectStartsOneRun(events: seq<Event>, call: nat)
    requires var w := Run(events); call in w.waiters && w.waiters[call].stopped && w.waiters[call].caller.Reconnecting?
    ensures var w, v := Run(events), Next(Run(events), CallerContinues(call));
            && !v.restarting
            && if w.closing then v.live == {} else
                 && v.live == {w.started} && w.started !in v.cancelled
                 && v.running == Some(w.started) && v.cancellation == Some(w.started)
  {
    hide Run;
    EveryRunKeepsInv(events);
    assert WaiterValid(Run(events), call);
  }

  /** A click begins a reconnect exactly when none is under way and the window neither closes nor has lost its renderer. */
  lemma ClickCountsIff(events: seq<Event>)
    ensures var w, v := Run(events), Next(Run(events), ReconnectClicked);
            if w.closing || Awaits(w, Reconnecting) || w.requiresReopen then v == w
            else v.restarting && Awaits(v, Reconnecting) && v.calls == w.calls + 1
  {
    hide Run;
    EveryRunKeepsInv(events);
    var w, v := Run(events), Next(Run(events), ReconnectClicked);
    if !(w.closing || w.restarting || w.requiresReopen) {
      assert w.calls in v.waiters && v.waiters[w.calls].caller == Reconnecting;
    }
  }

  /** A close begins exactly once, and from then on the window stays one that closes. */
  lemma CloseBegins(events: seq<Event>, e: Event)
    ensures var w, v := Run(events), Next(Run(events), CloseRequested);
            v.closing && if w.closing then v == w else Awaits(v, Closing) && v.calls == w.calls + 1 && !w.drained
    ensures Run(events).closing ==> Next(Run(events), e).closing
  {
    hide Run;
    EveryRunKeepsInv(events);
    var w, v := Run(events), Next(Run(events), CloseRequested);
    if !w.closing {
      assert w.calls in v.waiters && v.waiters[w.calls].caller == Closing;
    }
  }

  lemma RunSnoc(events: seq<Event>, e: Event)
    ensures Run(events + [e]) == Next(Run(events), e)
  {
    hide Next;
    assert (events + [e])[..|events|] == events;
  }

  /** A window that was asked to close can always finish: its run ends, its own call goes on and the window is drained. */
  lemma CloseCanFinish(events: seq<Event>) returns (more: seq<Event>)
    requires Run(events).closing
    ensures Run(events + more).drained && Run(events + more).live == {}
    ensures forall i | 0 <= i < |more| :: more[i].RunEnds? || more[i].StopReturns? || more[i].CallerContinues?
  {
    hide Run, Next, Inv;
    var w := Run(events);
    EveryRunKeepsInv(events);
    if w.drained {
      more := [];
      assert events + more == events;
      DrainedIsQuiet(w);
    } else {
      var call := ClosingCall(w);
      var t := if w.running.Some? then w.running.value else 0;
      var e0, e1, e2 := RunEnds(t), StopReturns(call), CallerContinues(call);
      more := [e0, e1, e2];
      RunSnoc(events, e0);
      RunSnoc(events + [e0], e1);
      RunSnoc(events + [e0] + [e1], e2);
      assert events + more == events + [e0] + [e1] + [e2];
      DrainsNow(w, call, t);
      EveryRunKeepsInv(events + more);
      DrainedIsQuiet(Run(events + more));
    }
  }

  lemma DrainedIsQuiet(w: Window)
    requires Inv(w) && w.drained
    ensures w.live == {}
  {
  }

  lemma ClosingCall(w: Window) returns (call: nat)
    requires Inv(w) && w.closing && !w.drained
    ensures call in w.waiters && w.waiters[call].caller.Closing? && w.waiters[call].task == w.running
  {
    call :| call in w.waiters && w.waiters[call].caller == Closing;
    assert WaiterValid(w, call);
  }

  lemma DrainsNow(w: Window, call: nat, t: nat)
    requires Inv(w) && call in w.waiters && w.waiters[call].caller.Closing? && w.waiters[call].task == w.running
    requires t == if w.running.Some? then w.running.value else 0
    ensures Next(Next(Next(w, RunEnds(t)), StopReturns(call)), CallerContinues(call)).drained
  {
  }
}
