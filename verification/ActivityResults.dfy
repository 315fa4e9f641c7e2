/** What the cards show of the results of checks and wakes: after each step, and over whole runs. */
module ActivityResults {
  import opened Prelude
  import opened Devices
  import opened DeviceActivity
  import opened DeviceActivityInvariant
  import opened WakeDevice
  import opened InventoryRules
  import opened ActivityRuns
  import Repo = DeviceRepository

  // ---------------------------------------------------------------- single steps

  /** Nothing but the card `c` and the operation `o` changes. */
  ghost predicate OnlyTouches(a: Activity, b: Activity, c: CardRef, o: nat) {
    && |b.heap| == |a.heap| && (forall x | 0 <= x < |a.heap| && x != c :: b.heap[x] == a.heap[x])
    && (forall p | p != o :: p in b.operations <==> p in a.operations)
    && (forall p | p != o && p in a.operations :: b.operations[p] == a.operations[p])
    && b == a.(heap := b.heap, operations := b.operations)
  }

  /** The card shows the device, the state and the detail, and is otherwise as it was. */
  predicate NowShows(before: Card, after: Card, device: Device, state: DeviceState, detail: string) {
    && after.device == device && after.state == state && after.detail == detail
    && after.isWaking == before.isWaking && after.generation == before.generation
  }

  /** A check is gone; a wake waits for the next part of `RunWakeAsync`. */
  predicate WentOn(a: Activity, b: Activity, o: nat, phase: Phase)
    requires o in a.operations
  {
    if a.operations[o].isWake then o in b.operations && b.operations[o] == a.operations[o].(phase := phase)
    else o !in b.operations
  }

  /**
   * A stored observation lands on a card that is still visible under the generation of the operation: the card then shows the
   * stored device, the observed state and the observation's detail. In every other case the card stays as it was.
   */
  lemma ResultLands(a: Activity, o: nat)
    requires Running(a, o) && a.operations[o].phase.Committed?
    ensures var op := a.operations[o];
            var b := Resumed(a, o).0;
            && OnlyTouches(a, b, op.card, o) && WentOn(a, b, o, Applied(op.phase.detail))
            && if op.phase.saved.Some? && op.generation == a.heap[op.card].generation && op.card in a.cards
               then NowShows(a.heap[op.card], b.heap[op.card], op.phase.saved.value, op.phase.observation.state, op.phase.detail)
               else b.heap == a.heap
  {
  }

  /** The closing detail of a wake is shown if its generation is current, and changes nothing else of the card. */
  lemma ClosingDetailShows(a: Activity, o: nat)
    requires Running(a, o) && a.operations[o].phase.Applied?
    ensures var op := a.operations[o];
            var b := ShowResult(a, o).0;
            && OnlyTouches(a, b, op.card, o) && WentOn(a, b, o, Ended)
            && if op.generation == a.heap[op.card].generation
               then NowShows(a.heap[op.card], b.heap[op.card], a.heap[op.card].device, a.heap[op.card].state, op.phase.detail)
               else b.heap == a.heap
  {
  }

  /** A failure shows as Unknown if its generation is current, unless it is a check under a cancelled lifetime. */
  lemma FailureShows(a: Activity, o: nat, silent: bool, detail: string)
    requires Running(a, o)
    ensures var op := a.operations[o];
            var b := Threw(a, o, silent, detail).0;
            && OnlyTouches(a, b, op.card, o) && WentOn(a, b, o, Ended)
            && if op.generation == a.heap[op.card].generation && (op.isWake || !silent)
               then NowShows(a.heap[op.card], b.heap[op.card], a.heap[op.card].device, Unknown, detail)
               else b.heap == a.heap
  {
  }

  /** A progress report shows while its wake is running and current. */
  lemma ProgressShows(a: Activity, o: nat, state: DeviceState, detail: string)
    requires Running(a, o)
    ensures var op := a.operations[o];
            var b := Progress(a, o, state, detail).0;
            && OnlyTouches(a, b, op.card, o) && o in b.operations && b.operations[o] == op
            && if op.isWake && op.phase.Probing? && op.generation == a.heap[op.card].generation
               then NowShows(a.heap[op.card], b.heap[op.card], a.heap[op.card].device, state, detail)
               else b.heap == a.heap
  {
  }

  /** What returned goes to the repository if it is still wanted; otherwise its operation ends and no card changes. */
  lemma ReturnGoesOn(a: Activity, o: nat, observation: StatusObservation, verify: bool, detail: string)
    requires Running(a, o)
    ensures var op := a.operations[o];
            var b := Returned(a, o, observation, verify, detail);
            && OnlyTouches(a, b, op.card, o) && b.heap == a.heap
            && if op.generation == a.heap[op.card].generation && (op.isWake || op.card in a.cards)
               then o in b.operations && b.operations[o] == op.(phase := Applying(observation, verify, detail))
               else WentOn(a, b, o, Ended)
  {
  }

  /** A wake that is offered, visible and not refused marks its card, overtakes what is in flight on it, and is registered. */
  lemma WakeBegins(a: Activity, c: CardRef)
    requires Known(a, c) && OperationsValid(a)
    ensures var b, id := BeginWake(a, c), a.heap[c].device.id;
            if !a.stopped && !a.heap[c].isWaking && !a.heap[c].device.wake.capability.Disabled? && c in a.cards && id !in a.waking
            then exists o ::
                   && o !in a.operations && o in b.operations && id in b.waking && b.waking[id] == o
                   && OnlyTouches(a.(waking := b.waking, nextOperation := b.nextOperation), b, c, o)
                   && b.operations[o] == Operation(true, c, b.heap[c].generation, a.heap[c].device, Probing, false)
                   && b.heap[c] == a.heap[c].(isWaking := true, generation := a.heap[c].generation + 1)
                   && (forall x | x in a.waking :: x in b.waking && b.waking[x] == a.waking[x])
            else b == a
  {
    NextIsFresh(a);
    var b := BeginWake(a, c);
    var id := a.heap[c].device.id;
    if !a.stopped && !a.heap[c].isWaking && !a.heap[c].device.wake.capability.Disabled? && c in a.cards && id !in a.waking {
      assert OnlyTouches(a.(waking := b.waking, nextOperation := b.nextOperation), b, c, a.nextOperation);
    }
  }

  /** A check begins for a visible card that is not waking, on the device and under the generation of that moment. */
  lemma CheckBegins(a: Activity, c: CardRef)
    requires Known(a, c) && OperationsValid(a)
    ensures var b := StartCheck(a, c);
            if !a.heap[c].isWaking && c in a.cards
            then exists o ::
                   && o !in a.operations && o in b.operations
                   && OnlyTouches(a.(nextOperation := b.nextOperation), b, c, o) && b.heap == a.heap
                   && b.operations[o] == Operation(false, c, a.heap[c].generation, a.heap[c].device, Probing, false)
            else b == a
  {
    NextIsFresh(a);
    var b := StartCheck(a, c);
    if !a.heap[c].isWaking && c in a.cards {
      assert OnlyTouches(a.(nextOperation := b.nextOperation), b, c, a.nextOperation);
    }
  }

  /** A wake that has ended takes back its registration and its mark. */
  lemma WakeUnwinds(a: Activity, o: nat)
    requires OperationsValid(a) && Running(a, o) && a.operations[o].isWake && a.operations[o].phase.Ended?
    ensures var b, op := Unwind(a, o), a.operations[o];
            && o !in b.operations && OnlyTouches(a.(waking := b.waking), b, op.card, o)
            && b.heap[op.card] == a.heap[op.card].(isWaking := false)
            && (forall id :: id in b.waking <==> id in a.waking && id != op.device.id)
            && (forall id | id in b.waking :: b.waking[id] == a.waking[id])
  {
    assert OperationValid(a, o);
  }

  /** Cancelling asks the wake registered under the card's device, if there is one, and does nothing else. */
  lemma CancelAsks(a: Activity, c: CardRef)
    requires Known(a, c) && EntriesValid(a)
    ensures var b, id := CancelWake(a, c), a.heap[c].device.id;
            if id in a.waking
            then
              && a.waking[id] in a.operations && OnlyTouches(a, b, c, a.waking[id]) && b.heap == a.heap
              && a.waking[id] in b.operations
              && b.operations[a.waking[id]] == a.operations[a.waking[id]].(cancelRequested := true)
            else b == a
  {
    var id := a.heap[c].device.id;
    if id in a.waking {
      assert EntryValid(a, id);
    }
  }

  // ---------------------------------------------------------------- what the operations carry

  /** What an operation brings to its card is what its call returned, and the repository stored exactly that. */
  predicate AnswerKept(w: World, o: nat)
    requires o in w.view.operations
  {
    var phase := w.view.operations[o].phase;
    && (phase.Applying? || phase.Committed? ==> o in w.answers && w.answers[o] == Answer(phase.observation, phase.detail))
    && (phase.Committed? && phase.saved.Some? ==>
          && phase.saved.value.lastKnownState == phase.observation.state
          && phase.saved.value.lastChecked == Some(phase.observation.checkedAt))
    && (phase.Applied? ==> o in w.answers && w.answers[o].detail == phase.detail)
  }

  predicate AnswersKept(w: World) {
    forall o | o in w.view.operations :: AnswerKept(w, o)
  }

  lemma SurvivorsKeepAnswers(w: World, v: World)
    requires AnswersKept(w) && RequestsSurvive(w.view, v.view) && v.answers == w.answers
    ensures AnswersKept(v)
  {
    forall o | o in v.view.operations ensures AnswerKept(v, o) {
      assert Survives(w.view, v.view, o);
      assert o in w.view.operations ==> AnswerKept(w, o);
    }
  }

  lemma ReturnKeepsAnswers(w: World, v: World, o: nat, observation: StatusObservation, verify: bool, detail: string)
    requires AnswersKept(w) && Running(w.view, o) && v.view == Returned(w.view, o, observation, verify, detail)
    requires v.answers == w.answers[o := Answer(observation, detail)]
    ensures AnswersKept(v)
  {
    ReturnedPhases(w.view, o, observation, verify, detail);
    hide Returned;
    forall p | p in v.view.operations ensures AnswerKept(v, p) {
      assert p in w.view.operations ==> AnswerKept(w, p);
    }
  }

  lemma CommitKeepsAnswers(rules: Rules, w: World, o: nat)
    requires AnswersKept(w) && Running(w.view, o) && w.view.operations[o].phase.Applying?
    ensures AnswersKept(CommitStep(rules, w, o)) && CommitStep(rules, w, o).answers == w.answers
  {
    hide Repo.ObserveStep;
    var op := w.view.operations[o];
    Repo.ObservationStores(w.table, op.device, op.phase.observation, op.phase.verify, Repo.Never);
    var v := CommitStep(rules, w, o);
    forall p | p in v.view.operations ensures AnswerKept(v, p) {
      assert AnswerKept(w, p);
    }
  }

  lemma NextKeepsAnswers(rules: Rules, w: World, e: Event)
    requires AnswersKept(w)
    ensures AnswersKept(Next(rules, w, e))
  {
    hide AnswersKept, CommitStep, Returned, RequestsSurvive, Repo.Step, Wake;
    if Enabled(w, e) {
      var v := Next(rules, w, e);
      match e
      case CheckReturns(o, observation, detail) => ReturnKeepsAnswers(w, v, o, observation, false, detail);
      case WakeReturns(o, timeout, interval, script, detail) =>
        var result := Wake(w.view.operations[o].device, timeout, interval, script).0;
        ReturnKeepsAnswers(w, v, o, result.observation, result.verified, detail);
      case Commits(o) => CommitKeepsAnswers(rules, w, o);
      case UserSaves(_, _) =>
        SurvivesSelf(w.view);
        SurvivorsKeepAnswers(w, v);
      case UserDeletes(_, _) =>
        SurvivesSelf(w.view);
        SurvivorsKeepAnswers(w, v);
      case _ =>
        QuietRequests(rules, w, e);
        QuietAnswers(rules, w, e);
        SurvivorsKeepAnswers(w, v);
    }
  }

  lemma QuietAnswers(rules: Rules, w: World, e: Event)
    requires IsQuiet(e)
    ensures Next(rules, w, e).answers == w.answers
  {
    hide Synchronize, NextBatch, CancelWake, BeginWake, Progress, Resumed, ShowResult, Threw, Unwind, CheckNow, AbandonSweep;
  }

  lemma {:induction false} AnswersOverRun(rules: Rules, events: seq<Event>)
    ensures AnswersKept(RunWorld(rules, events))
  {
    hide Next;
    if events != [] {
      AnswersOverRun(rules, events[..|events| - 1]);
      NextKeepsAnswers(rules, RunWorld(rules, events[..|events| - 1]), events[|events| - 1]);
    }
  }

  // ---------------------------------------------------------------- what was written, and by what

  /** The event is the return of the call of operation `o`, with that answer. */
  predicate Returns(w: World, e: Event, o: nat, answer: Answer) {
    Enabled(w, e) &&
    match e
    case CheckReturns(p, observation, detail) => p == o && answer == Answer(observation, detail)
    case WakeReturns(p, timeout, interval, script, detail) =>
      p == o && answer == Answer(Wake(w.view.operations[o].device, timeout, interval, script).0.observation, detail)
    case _ => false
  }

  /** The event makes the write, and the write says what the event brings. */
  predicate Writes(w: World, e: Event, x: Write) {
    && Enabled(w, e) && x.operation in w.view.operations && Running(w.view, x.operation)
    && x.card == w.view.operations[x.operation].card
    && match e
       case Resumes(o) =>
         && x.operation == o && o in w.answers
         && x.state == w.answers[o].observation.state && x.detail == w.answers[o].detail
         && x.shown.lastKnownState == x.state && x.shown.lastChecked == Some(w.answers[o].observation.checkedAt)
       case ShowsResult(o) =>
         && x.operation == o && o in w.answers && x.detail == w.answers[o].detail && x.state == w.view.heap[x.card].state
       case Throws(o, _, detail) => x.operation == o && x.state == Unknown && x.detail == detail
       case Reports(o, state, detail) =>
         x.operation == o && w.view.operations[o].isWake && x.state == state && x.detail == detail
       case _ => false
  }

  predicate IsWriter(e: Event) {
    e.Resumes? || e.ShowsResult? || e.Throws? || e.Reports?
  }

  lemma NextWrites(rules: Rules, w: World, e: Event)
    requires AnswersKept(w)
    ensures var n, writes := |w.writes|, Next(rules, w, e).writes;
            writes == w.writes || (|writes| == n + 1 && writes[..n] == w.writes && Writes(w, e, writes[n]))
  {
    hide AnswersKept;
    if Enabled(w, e) && IsWriter(e) {
      WriterWrites(rules, w, e);
    } else if Enabled(w, e) {
      OthersWriteNothing(rules, w, e);
    }
  }

  lemma OthersWriteNothing(rules: Rules, w: World, e: Event)
    requires !IsWriter(e)
    ensures Next(rules, w, e).writes == w.writes
  {
    hide Synchronize, NextBatch, CancelWake, BeginWake, Unwind, CheckNow, AbandonSweep, Returned, Wake, Repo.Step;
  }

  lemma WriterWrites(rules: Rules, w: World, e: Event)
    requires AnswersKept(w) && Enabled(w, e) && IsWriter(e)
    ensures var n, writes := |w.writes|, Next(rules, w, e).writes;
            writes == w.writes || (|writes| == n + 1 && writes[..n] == w.writes && Writes(w, e, writes[n]))
  {
    match e
    case Resumes(o) => assert AnswerKept(w, o);
    case ShowsResult(o) => assert AnswerKept(w, o);
    case _ =>
  }

  lemma {:induction false} WriteHasSource(rules: Rules, events: seq<Event>, i: nat) returns (k: nat)
    requires i < |RunWorld(rules, events).writes|
    ensures k < |events| && Writes(RunWorld(rules, events[..k]), events[k], RunWorld(rules, events).writes[i])
  {
    hide Next, AnswersKept, Writes;
    var n := |events| - 1;
    var front := events[..n];
    var w := RunWorld(rules, front);
    AnswersOverRun(rules, front);
    NextWrites(rules, w, events[n]);
    if i < |w.writes| {
      k := WriteHasSource(rules, front, i);
      assert front[..k] == events[..k];
      assert RunWorld(rules, events).writes[..|w.writes|] == w.writes;
    } else {
      k := n;
    }
  }

  lemma {:induction false} AnswerHasSource(rules: Rules, events: seq<Event>, o: nat) returns (j: nat)
    requires o in RunWorld(rules, events).answers
    ensures j < |events| && Returns(RunWorld(rules, events[..j]), events[j], o, RunWorld(rules, events).answers[o])
  {
    hide Next, Returns;
    var n := |events| - 1;
    var front := events[..n];
    var w := RunWorld(rules, front);
    NextAnswers(rules, w, events[n], o);
    if o in w.answers && Next(rules, w, events[n]).answers[o] == w.answers[o] {
      j := AnswerHasSource(rules, front, o);
      assert front[..j] == events[..j];
    } else {
      j := n;
    }
  }

  lemma NextAnswers(rules: Rules, w: World, e: Event, o: nat)
    requires o in Next(rules, w, e).answers
    ensures var answer := Next(rules, w, e).answers[o];
            (o in w.answers && w.answers[o] == answer) || Returns(w, e, o, answer)
  {
    hide Synchronize, NextBatch, CancelWake, BeginWake, Progress, Resumed, ShowResult, Threw, Unwind, CheckNow, AbandonSweep;
    hide Returned, Wake, Repo.Step;
  }

  /**
   * In every run, each State or Detail written was what the writing event brought: an applied result shows the state and the
   * detail that the call of that very operation returned, which was before; a closing detail is that of the same call; a failure
   * shows Unknown; a progress report shows what it reports.
   */
  lemma WritesShowWhatReturned(rules: Rules, events: seq<Event>, i: nat) returns (k: nat, j: nat)
    requires i < |RunWorld(rules, events).writes|
    ensures k < |events| && Writes(RunWorld(rules, events[..k]), events[k], RunWorld(rules, events).writes[i])
    ensures var x := RunWorld(rules, events).writes[i];
            var w := RunWorld(rules, events[..k]);
            events[k].Resumes? || events[k].ShowsResult? ==>
              j < k && x.operation in w.answers
              && Returns(RunWorld(rules, events[..j]), events[j], x.operation, w.answers[x.operation])
  {
    hide RunWorld, Returns, Enabled;
    k := WriteHasSource(rules, events, i);
    j := 0;
    if events[k].Resumes? || events[k].ShowsResult? {
      var x := RunWorld(rules, events).writes[i];
      j := AnswerHasSource(rules, events[..k], x.operation);
      assert events[..k][..j] == events[..j];
    }
  }

  /** The repository was asked for the request, and what it stored of the device waits for the UI thread. */
  ghost predicate Stored(rules: Rules, w: World, v: World, o: nat, id: Guid, request: Repo.Op) {
    && v.journal == w.journal + [request] && v.table == Repo.Step(rules, w.table, request).0
    && o in v.view.operations && v.view.operations[o].phase.Committed?
    && var saved := v.view.operations[o].phase.saved;
    && (saved.Some? <==> Repo.Step(rules, w.table, request).1.Applied?)
    && (saved.Some? ==> id in v.table && saved.value == v.table[id].document)
  }

  function SavedBy(outcome: Repo.Outcome): Option<Device> {
    if outcome.Applied? then Some(outcome.device) else None
  }

  lemma CommitIs(rules: Rules, w: World, o: nat)
    requires Running(w.view, o) && w.view.operations[o].phase.Applying?
    ensures var op, v := w.view.operations[o], CommitStep(rules, w, o);
            var request := Repo.Observe(op.device, op.phase.observation, op.phase.verify, Repo.Never);
            var (table, outcome) := Repo.Step(rules, w.table, request);
            !outcome.NotAnObservation? ==>
              && v.table == table && v.journal == w.journal + [request]
              && o in v.view.operations && v.view.operations[o].phase.Committed?
              && v.view.operations[o].phase.saved == SavedBy(outcome)
  {
    hide Repo.Step;
  }

  lemma CommitAsks(rules: Rules, w: World, o: nat)
    requires Running(w.view, o) && w.view.operations[o].phase.Applying?
    requires !w.view.operations[o].phase.observation.state.Waking?
    ensures var op := w.view.operations[o];
            Stored(rules, w, CommitStep(rules, w, o), o, op.device.id,
                   Repo.Observe(op.device, op.phase.observation, op.phase.verify, Repo.Never))
  {
    hide Repo.Step, CommitStep;
    var op := w.view.operations[o];
    AppliedIsStored(rules, w.table, op.device, op.phase.observation, op.phase.verify);
    CommitIs(rules, w, o);
  }

  lemma AppliedIsStored(rules: Rules, t: Repo.Table, expected: Device, o: StatusObservation, verify: bool)
    requires !o.state.Waking?
    ensures var (t', outcome) := Repo.Step(rules, t, Repo.Observe(expected, o, verify, Repo.Never));
            && !outcome.NotAnObservation?
            && (outcome.Applied? ==> expected.id in t' && t'[expected.id].document == outcome.device)
  {
    hide SameStatus, SameRecord, Repo.ObserveStep;
    Repo.ObservationStores(t, expected, o, verify, Repo.Never);
  }

  /**
   * When an operation commits, the repository is asked to apply, to the device that was probed, the observation its call
   * returned. What then waits for the UI thread is the document the table holds afterwards, if the observation was applied.
   */
  lemma CommitStores(rules: Rules, events: seq<Event>, o: nat)
    requires var w := RunWorld(rules, events);
             Enabled(w, Commits(o)) && !w.view.operations[o].phase.observation.state.Waking?
    ensures var w := RunWorld(rules, events);
            var op := w.view.operations[o];
            && o in w.answers && w.answers[o].observation == op.phase.observation
            && Stored(rules, w, Next(rules, w, Commits(o)), o, op.device.id,
                      Repo.Observe(op.device, op.phase.observation, op.phase.verify, Repo.Never))
  {
    hide RunWorld, CommitStep, Stored;
    AnswersOverRun(rules, events);
    var w := RunWorld(rules, events);
    assert AnswerKept(w, o);
    CommitAsks(rules, w, o);
  }

  // ---------------------------------------------------------------- where a shown state comes from

  /** Every card shows Unknown, or the state it showed before, for the same target. */
  predicate SameStates(a: Activity, b: Activity) {
    forall c | 0 <= c < |b.heap| ::
      b.heap[c].state == Unknown
      || (c < |a.heap| && b.heap[c].state == a.heap[c].state && SameStatus(a.heap[c].device, b.heap[c].device))
  }

  lemma {:induction false} SameStatesTransitive(a: Activity, b: Activity, c: Activity)
    requires SameStates(a, b) && SameStates(b, c)
    ensures SameStates(a, c)
  {
    hide SameStatus;
    forall x | 0 <= x < |c.heap| && c.heap[x].state != Unknown
      ensures x < |a.heap| && c.heap[x].state == a.heap[x].state && SameStatus(a.heap[x].device, c.heap[x].device)
    {
      StatusTransitive(a.heap[x].device, b.heap[x].device, c.heap[x].device);
    }
  }

  lemma SameHeapSameStates(a: Activity, b: Activity)
    requires b.heap == a.heap
    ensures SameStates(a, b)
  {
  }

  lemma RemoveCardKeepsStates(a: Activity, c: CardRef)
    requires Known(a, c)
    ensures SameStates(a, RemoveCard(a, c))
  {
  }

  lemma {:induction false} RemoveCardsKeepStates(a: Activity, gone: seq<CardRef>)
    requires forall i | 0 <= i < |gone| :: Known(a, gone[i])
    ensures SameStates(a, RemoveCards(a, gone))
  {
    hide SameStates, RemoveCard;
    if gone == [] {
      SameHeapSameStates(a, a);
    } else {
      assert Known(a, gone[|gone| - 1]);
      RemoveCardsKeepStates(a, gone[..|gone| - 1]);
      RemoveCardKeepsStates(RemoveCards(a, gone[..|gone| - 1]), gone[|gone| - 1]);
      SameStatesTransitive(a, RemoveCards(a, gone[..|gone| - 1]), RemoveCards(a, gone));
    }
  }

  lemma ShowDeviceKeepsStates(a: Activity, device: Device)
    requires CardsKnown(a)
    ensures SameStates(a, ShowDevice(a, device))
  {
    hide FirstCard, CancelWake;
    match FirstCard(a, a.cards, device.id)
    case None =>
    case Some(c) =>
      assert !Reconfigures(a.heap[c].device, device) ==> SameStatus(a.heap[c].device, device);
  }

  lemma {:induction false} ShowDevicesKeepStates(a: Activity, devices: seq<Device>)
    requires CardsKnown(a)
    ensures SameStates(a, ShowDevices(a, devices))
  {
    hide SameStates, ShowDevice;
    if devices == [] {
      SameHeapSameStates(a, a);
    } else {
      ShowDevicesKeepStates(a, devices[..|devices| - 1]);
      ShowDeviceKeepsStates(ShowDevices(a, devices[..|devices| - 1]), devices[|devices| - 1]);
      SameStatesTransitive(a, ShowDevices(a, devices[..|devices| - 1]), ShowDevices(a, devices));
    }
  }

  lemma SynchronizeKeepsStates(a: Activity, devices: seq<Device>, order: seq<CardRef>)
    requires CardsKnown(a)
    ensures SameStates(a, Synchronize(a, devices, order))
  {
    hide SameStates;
    var gone := Missing(a, a.cards, devices);
    forall i | 0 <= i < |gone| ensures Known(a, gone[i]) {
      assert gone[i] in gone;
    }
    RemoveCardsKeepStates(a, gone);
    var kept := RemoveCards(a, gone);
    SameHeapSameStates(a, a);
    if CardsKnown(kept) {
      ShowDevicesKeepStates(kept, devices);
      SameStatesTransitive(a, kept, ShowDevices(kept, devices));
      var shown := ShowDevices(kept, devices);
      SameHeapSameStates(shown, Arrange(shown, order));
      SameStatesTransitive(a, shown, Arrange(shown, order));
    }
  }

  lemma OthersKeepStates(rules: Rules, w: World, e: Event)
    requires Enabled(w, e) && !IsWriter(e)
    ensures SameStates(w.view, Next(rules, w, e).view)
  {
    hide Synchronize, NextBatch, SameStates, Wake, Repo.Step, Returned, BeginWake, CancelWake, Unwind;
    var a, b := w.view, Next(rules, w, e).view;
    match e
    case Synchronizes(devices, order) => SynchronizeKeepsStates(a, devices, order);
    case StartsBatch =>
      BatchKeepsHeap(a);
      SameHeapSameStates(a, b);
    case BeginsWake(c) => WakeKeepsStates(a, c, 0);
    case Unwinds(o) => WakeKeepsStates(a, 0, o);
    case CancelsWake(c) =>
      CancelKeepsHeap(a, c);
      SameHeapSameStates(a, b);
    case CheckReturns(o, observation, detail) =>
      ReturnGoesOn(a, o, observation, false, detail);
      SameHeapSameStates(a, b);
    case WakeReturns(o, timeout, interval, script, detail) =>
      var result := Wake(a.operations[o].device, timeout, interval, script).0;
      ReturnGoesOn(a, o, result.observation, result.verified, detail);
      SameHeapSameStates(a, b);
    case _ => SameHeapSameStates(a, b);
  }

  lemma BatchKeepsHeap(a: Activity)
    requires forall i | 0 <= i < |a.sweep| :: Known(a, a.sweep[i])
    ensures NextBatch(a).heap == a.heap
  {
    hide StartChecks;
  }

  lemma CancelKeepsHeap(a: Activity, c: CardRef)
    requires Known(a, c)
    ensures CancelWake(a, c).heap == a.heap
  {
  }

  lemma WakeKeepsStates(a: Activity, c: CardRef, o: nat)
    ensures Known(a, c) ==> SameStates(a, BeginWake(a, c))
    ensures Running(a, o) ==> SameStates(a, Unwind(a, o))
  {
  }

  /** The write left the card with the state it shows, for the target it has. */
  predicate Painted(x: Write, c: CardRef, card: Card) {
    x.card == c && x.state == card.state && SameStatus(x.probed, card.device)
  }

  predicate Sourced(w: World, c: CardRef)
    requires Known(w.view, c)
  {
    w.view.heap[c].state == Unknown || exists i | 0 <= i < |w.writes| :: Painted(w.writes[i], c, w.view.heap[c])
  }

  ghost predicate AllSourced(w: World) {
    forall c: CardRef | Known(w.view, c) :: Sourced(w, c)
  }

  /** A write changes the card it names, as it says, and no other. */
  ghost predicate Paints(before: seq<Card>, after: seq<Card>, x: Write) {
    && |after| == |before| && x.card < |before|
    && (forall c: CardRef | c < |before| && c != x.card :: after[c] == before[c])
    && x.state == after[x.card].state && x.shown == after[x.card].device
  }

  ghost predicate PaintsAll(before: seq<Card>, after: seq<Card>, writes: seq<Write>) {
    if writes == [] then after == before else |writes| == 1 && Paints(before, after, writes[0])
  }

  lemma AppliedPaints(a: Activity, o: nat)
    requires Running(a, o) && a.operations[o].phase.Committed?
    ensures PaintsAll(a.heap, Resumed(a, o).0.heap, Resumed(a, o).1)
  {
  }

  lemma ClosingPaints(a: Activity, o: nat)
    requires Running(a, o) && a.operations[o].phase.Applied?
    ensures PaintsAll(a.heap, ShowResult(a, o).0.heap, ShowResult(a, o).1)
  {
  }

  lemma FailurePaints(a: Activity, o: nat, silent: bool, detail: string)
    requires Running(a, o)
    ensures PaintsAll(a.heap, Threw(a, o, silent, detail).0.heap, Threw(a, o, silent, detail).1)
  {
  }

  lemma ProgressPaints(a: Activity, o: nat, state: DeviceState, detail: string)
    requires Running(a, o)
    ensures PaintsAll(a.heap, Progress(a, o, state, detail).0.heap, Progress(a, o, state, detail).1)
  {
  }

  /** The world after the step has the writes of the step, and the cards they left. */
  ghost predicate Repainted(w: World, v: World) {
    exists writes: seq<Write> :: v.writes == w.writes + writes && PaintsAll(w.view.heap, v.view.heap, writes)
  }

  lemma WriterPaints(rules: Rules, w: World, e: Event)
    requires Enabled(w, e) && IsWriter(e)
    ensures Repainted(w, Next(rules, w, e))
  {
    hide Resumed, ShowResult, Threw, Progress, PaintsAll;
    var v := Next(rules, w, e);
    match e
    case Resumes(o) =>
      AppliedPaints(w.view, o);
      assert v.writes == w.writes + Resumed(w.view, o).1;
    case ShowsResult(o) =>
      ClosingPaints(w.view, o);
      assert v.writes == w.writes + ShowResult(w.view, o).1;
    case Throws(o, silent, detail) =>
      FailurePaints(w.view, o, silent, detail);
      assert v.writes == w.writes + Threw(w.view, o, silent, detail).1;
    case Reports(o, state, detail) =>
      ProgressPaints(w.view, o, state, detail);
      assert v.writes == w.writes + Progress(w.view, o, state, detail).1;
  }

  lemma NextKeepsSources(rules: Rules, w: World, e: Event)
    requires WorldInv(rules, w) && AllSourced(w)
    ensures AllSourced(Next(rules, w, e))
  {
    hide WorldInv, Next, SameStatus, Timely;
    var v := Next(rules, w, e);
    if !Enabled(w, e) {
      NotEnabledIsNothing(rules, w, e);
    } else if IsWriter(e) {
      WorldParts(rules, w);
      NextKeeps(rules, w, e);
      WorldParts(rules, v);
      WriterPaints(rules, w, e);
      WrittenIsSourced(w, v);
    } else {
      OthersKeepStates(rules, w, e);
      OthersWriteNothing(rules, w, e);
      forall c: CardRef | Known(v.view, c) && v.view.heap[c].state != Unknown ensures Sourced(v, c) {
        assert Sourced(w, c);
        var i :| 0 <= i < |w.writes| && Painted(w.writes[i], c, w.view.heap[c]);
        StatusTransitive(w.writes[i].probed, w.view.heap[c].device, v.view.heap[c].device);
        assert Painted(v.writes[i], c, v.view.heap[c]);
      }
    }
  }

  lemma NotEnabledIsNothing(rules: Rules, w: World, e: Event)
    requires !Enabled(w, e)
    ensures Next(rules, w, e) == w
  {
    hide Enabled;
  }

  lemma WorldParts(rules: Rules, w: World)
    requires WorldInv(rules, w)
    ensures Inv(w.view) && AllTimely(w.writes)
  {
    hide Inv, TableIsReplay, RequestsBacked, JournalBacked, AllTimely;
  }

  lemma WrittenIsSourced(w: World, v: World)
    requires AllSourced(w) && AllTimely(v.writes) && Repainted(w, v)
    ensures AllSourced(v)
  {
    hide SameStatus;
    var writes: seq<Write> :| v.writes == w.writes + writes && PaintsAll(w.view.heap, v.view.heap, writes);
    var n := |w.writes|;
    forall c: CardRef | Known(v.view, c) && v.view.heap[c].state != Unknown ensures Sourced(v, c) {
      assert Sourced(w, c);
      if writes != [] && c == writes[0].card {
        assert v.writes[n] == writes[0];
        assert Timely(v.writes[n]);
        assert Painted(v.writes[n], c, v.view.heap[c]);
      } else {
        var i :| 0 <= i < n && Painted(w.writes[i], c, w.view.heap[c]);
        assert v.writes[i] == w.writes[i];
      }
    }
  }

  lemma {:induction false} SourcesOverRun(rules: Rules, events: seq<Event>)
    ensures AllSourced(RunWorld(rules, events))
  {
    hide Next, WorldInv;
    if events != [] {
      EveryRunKeepsInv(rules, events[..|events| - 1]);
      SourcesOverRun(rules, events[..|events| - 1]);
      NextKeepsSources(rules, RunWorld(rules, events[..|events| - 1]), events[|events| - 1]);
    }
  }

  /**
   * In every run, a card that shows anything but Unknown shows it by a write a check or a wake made on that card, of the target
   * the card still has; `WritesShowWhatReturned` says what such a write shows.
   */
  lemma ShownStateWasWritten(rules: Rules, events: seq<Event>, c: CardRef) returns (i: nat)
    requires var w := RunWorld(rules, events); Known(w.view, c) && w.view.heap[c].state != Unknown
    ensures var w := RunWorld(rules, events);
            i < |w.writes| && Painted(w.writes[i], c, w.view.heap[c]) && Timely(w.writes[i])
  {
    hide RunWorld, WorldInv, Timely, Painted;
    SourcesOverRun(rules, events);
    EveryRunKeepsInv(rules, events);
    var w := RunWorld(rules, events);
    WorldParts(rules, w);
    assert Sourced(w, c);
    i :| 0 <= i < |w.writes| && Painted(w.writes[i], c, w.view.heap[c]);
  }
}
