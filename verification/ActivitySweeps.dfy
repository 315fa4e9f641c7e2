/** Sweeps of status checks over whole runs: every card visible at the start gets its turn, in batches of eight. */
module ActivitySweeps {
  import opened Prelude
  import opened Devices
  import opened DeviceActivity
  import opened DeviceActivityInvariant
  import opened WakeDevice
  import opened InventoryRules
  import opened ActivityRuns
  import opened ActivityResults
  import Repo = DeviceRepository

  // ---------------------------------------------------------------- one batch

  /** A check of the card can begin. */
  predicate Checkable(a: Activity, c: CardRef) {
    Known(a, c) && !a.heap[c].isWaking && c in a.cards
  }

  /** Operation `o` is a check of the card as it is. */
  predicate ChecksCard(a: Activity, o: nat, c: CardRef) {
    && Known(a, c) && o in a.operations
    && a.operations[o] == Operation(false, c, a.heap[c].generation, a.heap[c].device, Probing, false)
  }

  ghost predicate Fresh(a: Activity) {
    forall o | o in a.operations :: o < a.nextOperation
  }

  /** Every card of the batch that can be checked is, every new operation is such a check, and nothing else changes. */
  ghost predicate BatchStarted(a: Activity, b: Activity, batch: seq<CardRef>) {
    && b == a.(operations := b.operations, nextOperation := b.nextOperation)
    && (forall o | o in a.operations :: o in b.operations && b.operations[o] == a.operations[o])
    && (forall i | 0 <= i < |batch| && Checkable(a, batch[i]) :: exists o :: o !in a.operations && ChecksCard(b, o, batch[i]))
    && (forall o | o in b.operations && o !in a.operations ::
          Checkable(a, b.operations[o].card) && b.operations[o].card in batch && ChecksCard(b, o, b.operations[o].card))
  }

  lemma {:induction false} ChecksStart(a: Activity, batch: seq<CardRef>)
    requires Fresh(a) && forall i | 0 <= i < |batch| :: Known(a, batch[i])
    ensures Fresh(StartChecks(a, batch)) && BatchStarted(a, StartChecks(a, batch), batch)
  {
    if batch != [] {
      var front, c := batch[..|batch| - 1], batch[|batch| - 1];
      assert Known(a, c);
      ChecksStart(a, front);
      OneMoreCheck(a, StartChecks(a, front), front, c, batch);
    }
  }

  lemma OneMoreCheck(a: Activity, mid: Activity, front: seq<CardRef>, c: CardRef, batch: seq<CardRef>)
    requires Fresh(mid) && BatchStarted(a, mid, front) && Known(mid, c) && batch == front + [c]
    ensures Fresh(StartCheck(mid, c)) && BatchStarted(a, StartCheck(mid, c), batch)
  {
    hide Checkable, ChecksCard, StartCheck;
    var b := StartCheck(mid, c);
    CheckStarts(a, mid, c);
    assert c in batch && forall x | x in front :: x in batch;
    forall i | 0 <= i < |batch| && Checkable(a, batch[i]) ensures exists o :: o !in a.operations && ChecksCard(b, o, batch[i]) {
      if i < |front| {
        assert front[i] == batch[i];
        var o :| o !in a.operations && ChecksCard(mid, o, front[i]);
        assert ChecksCard(b, o, batch[i]);
      } else {
        assert ChecksCard(b, mid.nextOperation, c);
      }
    }
  }

  lemma CheckStarts(a: Activity, mid: Activity, c: CardRef)
    requires Fresh(mid) && Known(mid, c) && mid == a.(operations := mid.operations, nextOperation := mid.nextOperation)
    ensures var b := StartCheck(mid, c);
            && Fresh(b) && b == a.(operations := b.operations, nextOperation := b.nextOperation)
            && (forall o | o in mid.operations :: o in b.operations && b.operations[o] == mid.operations[o])
            && (forall o | o in b.operations && o !in mid.operations :: o == mid.nextOperation && b.operations[o].card == c)
            && (forall o, x | ChecksCard(mid, o, x) :: ChecksCard(b, o, x))
            && (Checkable(a, c) ==> ChecksCard(b, mid.nextOperation, c))
            && (!Checkable(a, c) ==> b == mid)
            && mid.nextOperation !in mid.operations
  {
  }

  /**
   * A batch takes the next cards of the sweep, up to eight, and begins a check of each that is still visible and not waking; the
   * others lose their turn. The rest of the sweep is left.
   */
  lemma BatchTakesNextCards(a: Activity)
    requires Inv(a) && a.checking && Checks(a) == {} && a.sweep != []
    ensures CardsValid(a)
    ensures var b, n := NextBatch(a), |a.sweep| - |NextBatch(a).sweep|;
            && 1 <= n <= 8 && (n == 8 || b.sweep == []) && a.sweep == a.sweep[..n] + b.sweep && b.checking
            && BatchStarted(a, b.(sweep := a.sweep), a.sweep[..n])
  {
    var n := if |a.sweep| < BATCH then |a.sweep| else BATCH;
    forall o | o in a.operations ensures o < a.nextOperation {
      assert OperationValid(a, o);
    }
    ChecksStart(a, a.sweep[..n]);
    hide StartChecks;
  }

  // ---------------------------------------------------------------- the sweep between batches

  predicate MovesSweep(e: Event) {
    e.ChecksNow? || e.StartsBatch? || e.AbandonsSweep?
  }

  predicate SameSweep(a: Activity, b: Activity) {
    b.sweep == a.sweep && b.checking == a.checking
  }

  lemma {:induction false} RemovalKeepsSweep(a: Activity, gone: seq<CardRef>)
    requires forall i | 0 <= i < |gone| :: Known(a, gone[i])
    ensures SameSweep(a, RemoveCards(a, gone))
  {
    if gone != [] {
      assert Known(a, gone[|gone| - 1]);
      RemovalKeepsSweep(a, gone[..|gone| - 1]);
    }
  }

  lemma {:induction false} ShowingKeepsSweep(a: Activity, devices: seq<Device>)
    requires CardsKnown(a)
    ensures SameSweep(a, ShowDevices(a, devices))
  {
    hide FirstCard, Renewed, Reconfigures;
    if devices != [] {
      ShowingKeepsSweep(a, devices[..|devices| - 1]);
    }
  }

  lemma SynchronizingKeepsSweep(a: Activity, devices: seq<Device>, order: seq<CardRef>)
    requires CardsKnown(a)
    ensures SameSweep(a, Synchronize(a, devices, order))
  {
    var gone := Missing(a, a.cards, devices);
    forall i | 0 <= i < |gone| ensures Known(a, gone[i]) {
      assert gone[i] in gone;
    }
    RemovalKeepsSweep(a, gone);
    var kept := RemoveCards(a, gone);
    if CardsKnown(kept) {
      ShowingKeepsSweep(kept, devices);
    }
    hide RemoveCards, ShowDevices, Missing;
  }

  lemma SweepStays(a: Activity, b: Activity)
    requires b.sweep == a.sweep && b.checking == a.checking
    ensures SameSweep(a, b)
  {
  }

  lemma OperationsKeepSweep(a: Activity, c: CardRef, o: nat, observation: StatusObservation, verify: bool, detail: string)
    ensures Known(a, c) ==> SameSweep(a, BeginWake(a, c)) && SameSweep(a, CancelWake(a, c))
    ensures Running(a, o) ==> SameSweep(a, Returned(a, o, observation, verify, detail)) && SameSweep(a, Unwind(a, o))
  {
  }

  lemma WritersKeepSweep(a: Activity, o: nat, silent: bool, state: DeviceState, detail: string)
    ensures Running(a, o) ==> SameSweep(a, Threw(a, o, silent, detail).0) && SameSweep(a, Progress(a, o, state, detail).0)
    ensures Running(a, o) && a.operations[o].phase.Committed? ==> SameSweep(a, Resumed(a, o).0)
    ensures Running(a, o) && a.operations[o].phase.Applied? ==> SameSweep(a, ShowResult(a, o).0)
  {
  }

  lemma OthersKeepSweep(rules: Rules, w: World, e: Event)
    requires !MovesSweep(e)
    ensures SameSweep(w.view, Next(rules, w, e).view)
  {
    hide Synchronize, Wake, Repo.Step, SameSweep, Returned, BeginWake, CancelWake, Unwind, Resumed, ShowResult, Threw, Progress;
    var a := w.view;
    SweepStays(a, a);
    if Enabled(w, e) {
      match e
      case Synchronizes(devices, order) => SynchronizingKeepsSweep(a, devices, order);
      case CheckReturns(o, observation, detail) => OperationsKeepSweep(a, 0, o, observation, false, detail);
      case WakeReturns(o, timeout, interval, script, detail) =>
        var result := Wake(a.operations[o].device, timeout, interval, script).0;
        OperationsKeepSweep(a, 0, o, result.observation, result.verified, detail);
      case BeginsWake(c) => OperationsKeepSweep(a, c, 0, StatusObservation(Unknown, 0), false, "");
      case CancelsWake(c) => OperationsKeepSweep(a, c, 0, StatusObservation(Unknown, 0), false, "");
      case Unwinds(o) => OperationsKeepSweep(a, 0, o, StatusObservation(Unknown, 0), false, "");
      case Resumes(o) => WritersKeepSweep(a, o, false, Unknown, "");
      case ShowsResult(o) => WritersKeepSweep(a, o, false, Unknown, "");
      case Throws(o, silent, detail) => WritersKeepSweep(a, o, silent, Unknown, detail);
      case Reports(o, state, detail) => WritersKeepSweep(a, o, false, state, detail);
      case Stops => SweepStays(a, Next(rules, w, e).view);
      case Commits(o) => SweepStays(a, Next(rules, w, e).view);
      case _ =>
    }
  }

  // ---------------------------------------------------------------- whole sweeps

  ghost function After(rules: Rules, w: World, events: seq<Event>): World
    decreases |events|
  {
    if events == [] then w else After(rules, Next(rules, w, events[0]), events[1..])
  }

  /** The cards whose turn comes in the step. */
  function Turn(a: Activity, e: Event): seq<CardRef> {
    if e.StartsBatch? && a.checking && Checks(a) == {} then a.sweep[..if |a.sweep| < 8 then |a.sweep| else 8] else []
  }

  ghost function Turns(rules: Rules, w: World, events: seq<Event>): seq<CardRef>
    decreases |events|
  {
    if events == [] then [] else Turn(w.view, events[0]) + Turns(rules, Next(rules, w, events[0]), events[1..])
  }

  /** The sweep goes on through all these events: nobody abandons it, and it is not over before the last. */
  ghost predicate Sweeps(rules: Rules, w: World, events: seq<Event>)
    decreases |events|
  {
    events == [] || (w.view.checking && !events[0].AbandonsSweep? && Sweeps(rules, Next(rules, w, events[0]), events[1..]))
  }

  lemma NextSweeps(rules: Rules, w: World, e: Event)
    requires WorldInv(rules, w) && w.view.checking && !e.AbandonsSweep?
    ensures var v := Next(rules, w, e);
            w.view.sweep == Turn(w.view, e) + v.view.sweep && (!v.view.checking ==> v.view.sweep == [])
  {
    hide Inv, TableIsReplay, RequestsBacked, JournalBacked, AllTimely, Next;
    var a := w.view;
    if !MovesSweep(e) {
      OthersKeepSweep(rules, w, e);
    } else if e.StartsBatch? {
      BatchEvent(rules, w);
    } else {
      SecondSweepIsRefused(rules, w);
    }
  }

  lemma SecondSweepIsRefused(rules: Rules, w: World)
    requires w.view.checking
    ensures Next(rules, w, ChecksNow) == w
  {
    hide Repo.Step;
    assert Next(rules, w, ChecksNow) == w.(view := CheckNow(w.view));
  }

  lemma BatchEvent(rules: Rules, w: World)
    requires Inv(w.view) && w.view.checking
    ensures var v := Next(rules, w, StartsBatch);
            w.view.sweep == Turn(w.view, StartsBatch) + v.view.sweep && (!v.view.checking ==> v.view.sweep == [])
  {
    hide BatchStarted;
    var a := w.view;
    if Checks(a) == {} && a.sweep != [] {
      BatchTakesNextCards(a);
      hide Inv, NextBatch;
      assert Next(rules, w, StartsBatch).view == NextBatch(a);
    } else {
      assert CardsValid(a);
      assert Next(rules, w, StartsBatch).view == NextBatch(a);
    }
  }

  lemma Reassociate(a: seq<CardRef>, b: seq<CardRef>, c: seq<CardRef>)
    ensures a + (b + c) == (a + b) + c
  {
  }

  lemma {:induction false} SweepIsConserved(rules: Rules, w: World, events: seq<Event>)
    requires WorldInv(rules, w) && Sweeps(rules, w, events) && (w.view.checking || w.view.sweep == [])
    ensures var v := After(rules, w, events);
            w.view.sweep == Turns(rules, w, events) + v.view.sweep && (!v.view.checking ==> v.view.sweep == [])
    decreases |events|
  {
    hide WorldInv, Next, Turn;
    if events != [] {
      NextKeeps(rules, w, events[0]);
      NextSweeps(rules, w, events[0]);
      var v := Next(rules, w, events[0]);
      SweepIsConserved(rules, v, events[1..]);
      Reassociate(Turn(w.view, events[0]), Turns(rules, v, events[1..]), After(rules, w, events).view.sweep);
    }
  }

  /**
   * A sweep that is not abandoned gives every card that was visible when it began its turn exactly once and in their order,
   * whatever happens in between; `BatchTakesNextCards` says what a turn is.
   */
  lemma EverySweepTakesEachCardOnce(rules: Rules, before: seq<Event>, events: seq<Event>)
    requires var w := RunWorld(rules, before);
             var start := Next(rules, w, ChecksNow);
             && !w.view.stopped && !w.view.checking
             && Sweeps(rules, start, events) && !After(rules, start, events).view.checking
    ensures var w := RunWorld(rules, before);
            Turns(rules, Next(rules, w, ChecksNow), events) == w.view.cards
  {
    hide RunWorld, WorldInv, Sweeps, After, Turns, Next;
    EveryRunKeepsInv(rules, before);
    var w := RunWorld(rules, before);
    NextKeeps(rules, w, ChecksNow);
    SweepBegins(rules, w);
    SweepIsConserved(rules, Next(rules, w, ChecksNow), events);
  }

  /** A sweep begins over the visible cards exactly when none is under way and the model is not stopped. */
  lemma SweepBegins(rules: Rules, w: World)
    ensures var a, b := w.view, Next(rules, w, ChecksNow).view;
            if a.stopped || a.checking then b == a else b == a.(checking := true, sweep := a.cards)
  {
    hide Repo.Step;
    assert Next(rules, w, ChecksNow) == w.(view := CheckNow(w.view));
  }

  /** A sweep is given up, with the cards it had left, exactly between two batches. */
  lemma SweepIsGivenUp(rules: Rules, w: World)
    ensures var a, b := w.view, Next(rules, w, AbandonsSweep).view;
            if a.checking && Checks(a) == {} then b == a.(checking := false, sweep := []) else b == a
  {
    hide Repo.Step;
    assert Next(rules, w, AbandonsSweep) == w.(view := AbandonSweep(w.view));
  }

  // ---------------------------------------------------------------- a sweep can always end

  /** What ends a check: the repository's answer is shown, or its call fails. */
  function Ends(a: Activity, o: nat): Event
    requires o in a.operations
  {
    if a.operations[o].phase.Committed? then Resumes(o) else Throws(o, false, "")
  }

  lemma CheckEnds(rules: Rules, w: World, o: nat)
    requires WorldInv(rules, w) && o in Checks(w.view)
    ensures var v := Next(rules, w, Ends(w.view, o));
            WorldInv(rules, v) && Checks(v.view) == Checks(w.view) - {o} && SameSweep(w.view, v.view)
  {
    hide WorldInv, Next, SameSweep;
    var e := Ends(w.view, o);
    NextKeeps(rules, w, e);
    OthersKeepSweep(rules, w, e);
    CheckIsGone(rules, w, o);
  }

  lemma CheckIsGone(rules: Rules, w: World, o: nat)
    requires WorldInv(rules, w) && o in Checks(w.view)
    ensures Checks(Next(rules, w, Ends(w.view, o)).view) == Checks(w.view) - {o}
  {
    hide TableIsReplay, RequestsBacked, JournalBacked, AllTimely, Threw, Resumed, Checks, Next;
    var a := w.view;
    CheckIsThere(a, o);
    CheckWaits(a, o);
    hide Inv;
    EndsIn(rules, w, o);
    if a.operations[o].phase.Committed? {
      ResultLands(a, o);
      CheckLeaves(a, Resumed(a, o).0, o);
    } else {
      FailureShows(a, o, false, "");
      CheckLeaves(a, Threw(a, o, false, "").0, o);
    }
  }

  lemma EndsIn(rules: Rules, w: World, o: nat)
    requires Running(w.view, o)
    requires var phase := w.view.operations[o].phase; phase.Probing? || phase.Applying? || phase.Committed?
    ensures Next(rules, w, Ends(w.view, o)).view ==
              if w.view.operations[o].phase.Committed? then Resumed(w.view, o).0 else Threw(w.view, o, false, "").0
  {
    hide Repo.Step, Threw, Resumed;
  }

  lemma CheckWaits(a: Activity, o: nat)
    requires Inv(a) && o in a.operations && !a.operations[o].isWake
    ensures Running(a, o) && var phase := a.operations[o].phase; phase.Probing? || phase.Applying? || phase.Committed?
  {
    assert OperationValid(a, o);
  }

  lemma CheckLeaves(a: Activity, b: Activity, o: nat)
    requires o !in b.operations && o in a.operations
    requires forall p | p != o :: p in b.operations <==> p in a.operations
    requires forall p | p != o && p in a.operations :: b.operations[p] == a.operations[p]
    ensures Checks(b) == Checks(a) - {o}
  {
  }

  lemma {:induction false} ChecksCanEnd(rules: Rules, w: World) returns (more: seq<Event>)
    requires WorldInv(rules, w) && w.view.checking
    ensures var v := After(rules, w, more);
            WorldInv(rules, v) && Checks(v.view) == {} && SameSweep(w.view, v.view) && Sweeps(rules, w, more)
    decreases |Checks(w.view)|
  {
    hide WorldInv, Next, Checks;
    if Checks(w.view) == {} {
      more := [];
    } else {
      var o :| o in Checks(w.view);
      CheckIsThere(w.view, o);
      var e := Ends(w.view, o);
      CheckEnds(rules, w, o);
      var rest := ChecksCanEnd(rules, Next(rules, w, e));
      more := [e] + rest;
      assert more[1..] == rest;
    }
  }

  lemma CheckIsThere(a: Activity, o: nat)
    requires o in Checks(a)
    ensures o in a.operations && !a.operations[o].isWake
  {
  }

  lemma {:induction false} AfterBoth(rules: Rules, w: World, before: seq<Event>, more: seq<Event>)
    requires Sweeps(rules, w, before)
    ensures After(rules, w, before + more) == After(rules, After(rules, w, before), more)
    ensures Sweeps(rules, After(rules, w, before), more) ==> Sweeps(rules, w, before + more)
    decreases |before|
  {
    hide Next;
    if before == [] {
      assert before + more == more;
    } else {
      assert (before + more)[1..] == before[1..] + more;
      AfterBoth(rules, Next(rules, w, before[0]), before[1..], more);
    }
  }

  lemma {:induction false} SweepCanEnd(rules: Rules, w: World) returns (more: seq<Event>)
    requires WorldInv(rules, w) && w.view.checking
    ensures Sweeps(rules, w, more) && !After(rules, w, more).view.checking
    decreases |w.view.sweep|
  {
    hide WorldInv, Next, Checks;
    var before := ChecksCanEnd(rules, w);
    var v := After(rules, w, before);
    NextKeeps(rules, v, StartsBatch);
    BatchMoves(rules, v);
    var rest := [];
    if Next(rules, v, StartsBatch).view.checking {
      rest := SweepCanEnd(rules, Next(rules, v, StartsBatch));
    }
    more := before + ([StartsBatch] + rest);
    assert ([StartsBatch] + rest)[1..] == rest;
    assert Sweeps(rules, v, [StartsBatch] + rest);
    AfterBoth(rules, w, before, [StartsBatch] + rest);
  }

  lemma BatchMoves(rules: Rules, w: World)
    requires WorldInv(rules, w) && w.view.checking && Checks(w.view) == {}
    ensures var v := Next(rules, w, StartsBatch);
            if w.view.sweep == [] then !v.view.checking else v.view.checking && |v.view.sweep| < |w.view.sweep|
  {
    hide TableIsReplay, RequestsBacked, JournalBacked, AllTimely, BatchStarted;
    assert CardsValid(w.view);
    assert Next(rules, w, StartsBatch).view == NextBatch(w.view);
    if w.view.sweep != [] {
      BatchTakesNextCards(w.view);
      hide NextBatch;
    }
  }

  /** Whatever happened, a sweep under way is never stuck: some continuation completes it without abandoning it. */
  lemma EverySweepCanEnd(rules: Rules, events: seq<Event>) returns (more: seq<Event>)
    requires RunWorld(rules, events).view.checking
    ensures var w := RunWorld(rules, events);
            Sweeps(rules, w, more) && !After(rules, w, more).view.checking
  {
    hide RunWorld, WorldInv;
    EveryRunKeepsInv(rules, events);
    more := SweepCanEnd(rules, RunWorld(rules, events));
  }
}
