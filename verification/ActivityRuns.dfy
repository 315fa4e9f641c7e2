/**
 * The live cards, the wake service and the repository together: whole runs in which the user edits the
 * inventory while checks and wakes are in flight.
 */
module ActivityRuns {
  import opened Prelude
  import opened Devices
  import opened DeviceActivity
  import opened DeviceActivityInvariant
  import opened WakeDevice
  import opened InventoryRules
  import Repo = DeviceRepository
  import Provenance = WakeProvenance

  /** What a status check or a wake returned to the UI thread. */
  datatype Answer = Answer(observation: StatusObservation, detail: string)

  /**
   * `journal` is every operation the database has executed and `evidence` what the wake service had done for
   * it; `answers` is what each call has returned, `effects` what each returned wake did, and `writes` every State/Detail
   * write by a check or wake.
   */
  datatype World = World(
    view: Activity,
    table: Repo.Table,
    journal: seq<Repo.Op>,
    evidence: seq<seq<Effect>>,
    answers: map<nat, Answer>,
    effects: map<nat, seq<Effect>>,
    writes: seq<Write>)

  const START := World(EMPTY, map[], [], [], map[], map[], [])

  datatype Event =
    | UserSaves(device: Device, cancel: Repo.Cancellation)
    | UserDeletes(id: Guid, cancel: Repo.Cancellation)
    | Synchronizes(devices: seq<Device>, order: seq<CardRef>)
    | ChecksNow | StartsBatch | AbandonsSweep | Stops
    | CheckReturns(o: nat, observation: StatusObservation, detail: string)
    | BeginsWake(c: CardRef)
    | CancelsWake(c: CardRef)
    | Reports(o: nat, state: DeviceState, detail: string)
    | WakeReturns(o: nat, timeout: int, interval: int, script: Script, detail: string)
    | Commits(o: nat)
    | Resumes(o: nat)
    | ShowsResult(o: nat)
    | Throws(o: nat, silent: bool, detail: string)
    | Unwinds(o: nat)

  /** The operation named by the event exists and waits at the point the event continues from. */
  predicate Enabled(w: World, e: Event) {
    var a := w.view;
    match e
    case Synchronizes(_, _) => CardsKnown(a)
    case StartsBatch => forall i | 0 <= i < |a.sweep| :: Known(a, a.sweep[i])
    case CheckReturns(o, _, _) => Running(a, o) && !a.operations[o].isWake && a.operations[o].phase.Probing?
    case BeginsWake(c) => Known(a, c)
    case CancelsWake(c) => Known(a, c)
    case Reports(o, _, _) => Running(a, o)
    case WakeReturns(o, timeout, interval, script, _) =>
      Running(a, o) && a.operations[o].isWake && a.operations[o].phase.Probing?
      && Wake(a.operations[o].device, timeout, interval, script).0.Outcome?
    case Commits(o) => Running(a, o) && a.operations[o].phase.Applying?
    case Resumes(o) => Running(a, o) && a.operations[o].phase.Committed?
    case ShowsResult(o) => Running(a, o) && a.operations[o].phase.Applied?
    case Throws(o, _, _) => Running(a, o) && (a.operations[o].phase.Probing? || a.operations[o].phase.Applying?)
    case Unwinds(o) => Running(a, o)
    case _ => true
  }

  ghost function Executed(rules: Rules, w: World, op: Repo.Op, evidence: seq<Effect>): World {
    w.(table := Repo.Step(rules, w.table, op).0, journal := w.journal + [op], evidence := w.evidence + [evidence])
  }

  function Painted(w: World, r: (Activity, seq<Write>)): World {
    w.(view := r.0, writes := w.writes + r.1)
  }

  /** The repository runs the observation of operation `o`; what it answers waits for the UI thread. */
  ghost function CommitStep(rules: Rules, w: World, o: nat): World
    requires Running(w.view, o) && w.view.operations[o].phase.Applying?
  {
    var op := w.view.operations[o];
    var p := op.phase;
    var request := Repo.Observe(op.device, p.observation, p.verify, Repo.Never);
    var outcome := Repo.Step(rules, w.table, request).1;
    if outcome.NotAnObservation? then w else
      var saved := if outcome.Applied? then Some(outcome.device) else None;
      Executed(rules, w, request, if o in w.effects then w.effects[o] else [])
        .(view := SetPhase(w.view, o, Committed(saved, p.observation, p.detail)))
  }

  ghost function Next(rules: Rules, w: World, e: Event): World {
    if !Enabled(w, e) then w else
      var a := w.view;
      match e
      case UserSaves(device, cancel) => Executed(rules, w, Repo.Save(device, cancel), [])
      case UserDeletes(id, cancel) => Executed(rules, w, Repo.Delete(id, cancel), [])
      case Synchronizes(devices, order) => w.(view := Synchronize(a, devices, order))
      case ChecksNow => w.(view := CheckNow(a))
      case StartsBatch => w.(view := NextBatch(a))
      case AbandonsSweep => w.(view := AbandonSweep(a))
      case Stops => w.(view := a.(stopped := true))
      case CheckReturns(o, observation, detail) =>
        w.(view := Returned(a, o, observation, false, detail), answers := w.answers[o := Answer(observation, detail)])
      case BeginsWake(c) => w.(view := BeginWake(a, c))
      case CancelsWake(c) => w.(view := CancelWake(a, c))
      case Reports(o, state, detail) => Painted(w, Progress(a, o, state, detail))
      case WakeReturns(o, timeout, interval, script, detail) =>
        var (result, effects) := Wake(a.operations[o].device, timeout, interval, script);
        w.(view := Returned(a, o, result.observation, result.verified, detail),
           answers := w.answers[o := Answer(result.observation, detail)], effects := w.effects[o := effects])
      case Commits(o) => CommitStep(rules, w, o)
      case Resumes(o) => Painted(w, Resumed(a, o))
      case ShowsResult(o) => Painted(w, ShowResult(a, o))
      case Throws(o, silent, detail) => Painted(w, Threw(a, o, silent, detail))
      case Unwinds(o) => w.(view := Unwind(a, o))
  }

  ghost function RunWorld(rules: Rules, events: seq<Event>): World {
    if events == [] then START else Next(rules, RunWorld(rules, events[..|events| - 1]), events[|events| - 1])
  }

  // ---------------------------------------------------------------- the invariant of the whole

  ghost predicate TableIsReplay(rules: Rules, w: World) {
    w.table == Repo.Run(rules, w.journal) && |w.evidence| == |w.journal|
  }

  /** A request to verify is backed by the effects of its own wake. */
  predicate RequestBacked(w: World, o: nat)
    requires o in w.view.operations
  {
    var op := w.view.operations[o];
    op.phase.Applying? && op.phase.verify ==>
      o in w.effects && Sighted(op.device, w.effects[o]) && op.phase.observation.state.Online?
  }

  predicate RequestsBacked(w: World) {
    forall o | o in w.view.operations :: RequestBacked(w, o)
  }

  predicate EntryBacked(op: Repo.Op, evidence: seq<Effect>) {
    op.Observe? && op.verifyWake ==> Sighted(op.expected, evidence) && op.observation.state.Online?
  }

  predicate JournalBacked(w: World) {
    |w.evidence| == |w.journal| && forall k | 0 <= k < |w.journal| :: EntryBacked(w.journal[k], w.evidence[k])
  }

  ghost predicate WorldInv(rules: Rules, w: World) {
    Inv(w.view) && TableIsReplay(rules, w) && RequestsBacked(w) && JournalBacked(w) && AllTimely(w.writes)
  }

  lemma ExecutedKeeps(rules: Rules, w: World, op: Repo.Op, evidence: seq<Effect>)
    requires TableIsReplay(rules, w) && JournalBacked(w) && EntryBacked(op, evidence)
    ensures TableIsReplay(rules, Executed(rules, w, op, evidence)) && JournalBacked(Executed(rules, w, op, evidence))
  {
    hide Repo.Step, EntryBacked;
    assert (w.journal + [op])[..|w.journal|] == w.journal;
  }

  /** An operation is as it was, begins or ends, or goes on from the repository's answer to its closing detail. */
  predicate Survives(a: Activity, b: Activity, o: nat)
    requires o in b.operations
  {
    var phase := b.operations[o].phase;
    phase.Probing? || phase.Ended?
    || (o in a.operations && b.operations[o].device == a.operations[o].device
        && (phase == a.operations[o].phase
            || (a.operations[o].phase.Committed? && phase == Applied(a.operations[o].phase.detail))))
  }

  /** Steps in which no operation gets a request keep those there are. */
  predicate RequestsSurvive(a: Activity, b: Activity) {
    forall o | o in b.operations :: Survives(a, b, o)
  }

  lemma SurvivingRequests(w: World, view: Activity, writes: seq<Write>)
    requires RequestsBacked(w) && RequestsSurvive(w.view, view)
    ensures RequestsBacked(w.(view := view, writes := writes))
  {
    hide Sighted;
    var v := w.(view := view, writes := writes);
    forall o | o in v.view.operations ensures RequestBacked(v, o) {
      assert Survives(w.view, view, o);
      assert o in w.view.operations ==> RequestBacked(w, o);
    }
  }

  lemma {:induction false} SurvivesTransitive(a: Activity, b: Activity, c: Activity)
    requires RequestsSurvive(a, b) && RequestsSurvive(b, c)
    ensures RequestsSurvive(a, c)
  {
  }

  lemma CancelSurvives(a: Activity, c: CardRef)
    requires Known(a, c)
    ensures RequestsSurvive(a, CancelWake(a, c)) && RequestsSurvive(a, RemoveCard(a, c))
  {
  }

  lemma {:induction false} RemoveSurvives(a: Activity, gone: seq<CardRef>)
    requires forall i | 0 <= i < |gone| :: Known(a, gone[i])
    ensures RequestsSurvive(a, RemoveCards(a, gone))
  {
    hide RequestsSurvive, RemoveCard;
    if gone == [] {
      SurvivesSelf(a);
    } else {
      assert Known(a, gone[|gone| - 1]);
      RemoveSurvives(a, gone[..|gone| - 1]);
      CancelSurvives(RemoveCards(a, gone[..|gone| - 1]), gone[|gone| - 1]);
      SurvivesTransitive(a, RemoveCards(a, gone[..|gone| - 1]), RemoveCards(a, gone));
    }
  }

  lemma SurvivesSelf(a: Activity)
    ensures RequestsSurvive(a, a)
  {
  }

  lemma ShowSurvives(a: Activity, device: Device)
    requires CardsKnown(a)
    ensures RequestsSurvive(a, ShowDevice(a, device))
  {
    hide FirstCard, Reconfigures, RequestsSurvive, CancelWake;
    SurvivesSelf(a);
    var found := FirstCard(a, a.cards, device.id);
    var b := ShowDevice(a, device);
    if found.Some? {
      CancelSurvives(a, found.value);
      if Reconfigures(a.heap[found.value].device, device) {
        SameOperationsSurvive(a, CancelWake(a, found.value), b);
      } else {
        SameOperationsSurvive(a, a, b);
      }
    } else {
      SameOperationsSurvive(a, a, b);
    }
  }

  lemma SameOperationsSurvive(a: Activity, b: Activity, c: Activity)
    requires RequestsSurvive(a, b) && c.operations == b.operations
    ensures RequestsSurvive(a, c)
  {
  }

  lemma {:induction false} ShowAllSurvives(a: Activity, devices: seq<Device>)
    requires CardsKnown(a)
    ensures RequestsSurvive(a, ShowDevices(a, devices))
  {
    hide RequestsSurvive, ShowDevice;
    if devices == [] {
      SurvivesSelf(a);
    } else {
      ShowAllSurvives(a, devices[..|devices| - 1]);
      ShowSurvives(ShowDevices(a, devices[..|devices| - 1]), devices[|devices| - 1]);
      SurvivesTransitive(a, ShowDevices(a, devices[..|devices| - 1]), ShowDevices(a, devices));
    }
  }

  lemma SynchronizeSurvives(a: Activity, devices: seq<Device>, order: seq<CardRef>)
    requires CardsKnown(a)
    ensures RequestsSurvive(a, Synchronize(a, devices, order))
  {
    var gone := Missing(a, a.cards, devices);
    forall i | 0 <= i < |gone| ensures Known(a, gone[i]) {
      assert gone[i] in gone;
    }
    RemoveSurvives(a, gone);
    var kept := RemoveCards(a, gone);
    SurvivesSelf(a);
    if CardsKnown(kept) {
      ShowAllSurvives(kept, devices);
      SurvivesTransitive(a, kept, ShowDevices(kept, devices));
    }
  }

  lemma {:induction false} StartChecksSurvive(a: Activity, batch: seq<CardRef>)
    requires forall i | 0 <= i < |batch| :: Known(a, batch[i])
    ensures RequestsSurvive(a, StartChecks(a, batch))
  {
    if batch != [] {
      assert Known(a, batch[|batch| - 1]);
      StartChecksSurvive(a, batch[..|batch| - 1]);
    }
  }

  /** The steps of the UI thread that bring no new request. */
  predicate IsQuiet(e: Event) {
    match e
    case UserSaves(_, _) => false
    case UserDeletes(_, _) => false
    case CheckReturns(_, _, _) => false
    case WakeReturns(_, _, _, _, _) => false
    case Commits(_) => false
    case _ => true
  }

  lemma StopKeepsInv(a: Activity)
    requires Inv(a)
    ensures Inv(a.(stopped := true))
  {
    hide SameStatus;
    var b := a.(stopped := true);
    assert Checks(b) == Checks(a);
    forall o | o in b.operations ensures OperationValid(b, o) {
      assert OperationValid(a, o);
    }
    forall id | id in b.waking ensures EntryValid(b, id) {
      assert EntryValid(a, id);
    }
    forall x: CardRef | Known(b, x) ensures CardValid(b, x) {
      assert CardValid(a, x);
    }
  }

  lemma QuietView(rules: Rules, w: World, e: Event)
    requires IsQuiet(e) && Enabled(w, e) && Inv(w.view) && AllTimely(w.writes)
    ensures var v := Next(rules, w, e);
            Inv(v.view) && AllTimely(v.writes)
  {
    hide Inv, Timely, Synchronize, NextBatch, CancelWake, BeginWake, Progress, Resumed, ShowResult, Threw, Unwind;
    var a := w.view;
    match e
    case Synchronizes(devices, order) => SynchronizeKeepsInv(a, devices, order);
    case ChecksNow => CheckNowKeepsInv(a);
    case StartsBatch => NextBatchKeepsInv(a);
    case AbandonsSweep => CheckNowKeepsInv(a);
    case Stops => StopKeepsInv(a);
    case BeginsWake(c) => BeginWakeKeepsInv(a, c);
    case CancelsWake(c) => CancelKeepsWhole(a, c);
    case Reports(o, state, detail) => ProgressKeepsInv(a, o, state, detail);
    case Resumes(o) => ResumedKeepsInv(a, o);
    case ShowsResult(o) => ShowResultKeepsInv(a, o);
    case Throws(o, silent, detail) => ThrewKeepsInv(a, o, silent, detail);
    case Unwinds(o) => UnwindKeepsInv(a, o);
  }

  lemma CancelKeepsWhole(a: Activity, c: CardRef)
    requires Inv(a) && Known(a, c)
    ensures Inv(CancelWake(a, c))
  {
    hide Consistent, CancelWake;
    CancelWakeKeepsInv(a, c);
  }

  lemma ResumedSurvives(a: Activity, o: nat)
    requires Running(a, o) && a.operations[o].phase.Committed?
    ensures RequestsSurvive(a, Resumed(a, o).0)
  {
  }

  lemma ShowResultSurvives(a: Activity, o: nat)
    requires Running(a, o) && a.operations[o].phase.Applied?
    ensures RequestsSurvive(a, ShowResult(a, o).0)
  {
  }

  lemma ThrewSurvives(a: Activity, o: nat, silent: bool, detail: string)
    requires Running(a, o)
    ensures RequestsSurvive(a, Threw(a, o, silent, detail).0)
  {
  }

  lemma OthersSurvive(a: Activity, o: nat, c: CardRef, state: DeviceState, detail: string)
    ensures Running(a, o) ==> RequestsSurvive(a, Progress(a, o, state, detail).0) && RequestsSurvive(a, Unwind(a, o))
    ensures Known(a, c) ==> RequestsSurvive(a, BeginWake(a, c))
    ensures RequestsSurvive(a, CheckNow(a)) && RequestsSurvive(a, AbandonSweep(a))
    ensures RequestsSurvive(a, a.(stopped := true))
  {
  }

  lemma NextBatchSurvives(a: Activity)
    requires forall i | 0 <= i < |a.sweep| :: Known(a, a.sweep[i])
    ensures RequestsSurvive(a, NextBatch(a))
  {
    var n := if |a.sweep| < BATCH then |a.sweep| else BATCH;
    StartChecksSurvive(a, a.sweep[..n]);
    hide StartChecks;
  }

  lemma QuietRequests(rules: Rules, w: World, e: Event)
    requires IsQuiet(e) && Enabled(w, e)
    ensures RequestsSurvive(w.view, Next(rules, w, e).view)
  {
    hide RequestsSurvive, Synchronize, NextBatch, CancelWake, BeginWake, Progress, Resumed, ShowResult, Threw, Unwind;
    hide CheckNow, AbandonSweep;
    var a := w.view;
    match e
    case Synchronizes(devices, order) => SynchronizeSurvives(a, devices, order);
    case StartsBatch => NextBatchSurvives(a);
    case BeginsWake(c) => OthersSurvive(a, 0, c, Unknown, "");
    case CancelsWake(c) => CancelSurvives(a, c);
    case Reports(o, state, detail) => OthersSurvive(a, o, 0, state, detail);
    case Resumes(o) => ResumedSurvives(a, o);
    case ShowsResult(o) => ShowResultSurvives(a, o);
    case Throws(o, silent, detail) => ThrewSurvives(a, o, silent, detail);
    case Unwinds(o) => OthersSurvive(a, o, 0, Unknown, "");
    case ChecksNow => OthersSurvive(a, 0, 0, Unknown, "");
    case AbandonsSweep => OthersSurvive(a, 0, 0, Unknown, "");
    case Stops => OthersSurvive(a, 0, 0, Unknown, "");
  }

  lemma QuietKeeps(rules: Rules, w: World, e: Event)
    requires IsQuiet(e) && Enabled(w, e) && WorldInv(rules, w)
    ensures WorldInv(rules, Next(rules, w, e))
  {
    hide Inv, RequestsBacked, EntryBacked, Timely, RequestsSurvive, Repo.Run;
    QuietView(rules, w, e);
    QuietRequests(rules, w, e);
    var v := Next(rules, w, e);
    SurvivingRequests(w, v.view, v.writes);
  }

  lemma ReturnedRequests(
    w: World, o: nat, observation: StatusObservation, verify: bool, detail: string,
    answers: map<nat, Answer>, effects: map<nat, seq<Effect>>)
    requires Running(w.view, o) && RequestsBacked(w)
    requires forall p | p in w.effects && p != o :: p in effects && effects[p] == w.effects[p]
    requires o in w.view.operations && w.view.operations[o].phase.Probing?
    requires verify ==> o in effects && Sighted(w.view.operations[o].device, effects[o]) && observation.state.Online?
    ensures RequestsBacked(
      w.(view := Returned(w.view, o, observation, verify, detail), answers := answers, effects := effects))
  {
    hide Sighted;
    var v := w.(view := Returned(w.view, o, observation, verify, detail), answers := answers, effects := effects);
    ReturnedPhases(w.view, o, observation, verify, detail);
    hide Returned;
    forall p | p in v.view.operations ensures RequestBacked(v, p) {
      assert p in w.view.operations ==> RequestBacked(w, p);
    }
  }

  /** The other operations are as they were; this one has ended, or has its request. */
  lemma ReturnedPhases(a: Activity, o: nat, observation: StatusObservation, verify: bool, detail: string)
    requires Running(a, o)
    ensures var b := Returned(a, o, observation, verify, detail);
            && (forall p | p in b.operations && p != o :: p in a.operations && b.operations[p] == a.operations[p])
            && (o in b.operations ==>
                  b.operations[o].device == a.operations[o].device
                  && (b.operations[o].phase.Ended? || b.operations[o].phase == Applying(observation, verify, detail)))
  {
  }

  lemma CommittedRequests(w: World, v: World, o: nat, phase: Phase)
    requires RequestsBacked(w) && o in w.view.operations && phase.Committed?
    requires v.view == SetPhase(w.view, o, phase) && v.effects == w.effects
    ensures RequestsBacked(v)
  {
    hide Sighted;
    forall q | q in v.view.operations ensures RequestBacked(v, q) {
      assert RequestBacked(w, q);
    }
  }

  lemma CommitKeeps(rules: Rules, w: World, o: nat)
    requires WorldInv(rules, w) && Running(w.view, o) && w.view.operations[o].phase.Applying?
    ensures WorldInv(rules, CommitStep(rules, w, o))
  {
    hide Inv, Repo.Run, Sighted, AllTimely, JournalBacked, TableIsReplay;
    var op := w.view.operations[o];
    var p := op.phase;
    var request := Repo.Observe(op.device, p.observation, p.verify, Repo.Never);
    assert w.table == Repo.Run(rules, w.journal) by {
      ReplayUnfolds(rules, w);
    }
    Repo.ReachableTablesKeepIdentity(rules, w.journal, request);
    var outcome := Repo.Step(rules, w.table, request).1;
    assert RequestBacked(w, o);
    var evidence := if o in w.effects then w.effects[o] else [];
    assert EntryBacked(request, evidence);
    ExecutedKeeps(rules, w, request, evidence);
    var phase := Committed(if outcome.Applied? then Some(outcome.device) else None, p.observation, p.detail);
    SetPhaseKeepsInv(w.view, o, phase);
    var executed := Executed(rules, w, request, evidence);
    var v := executed.(view := SetPhase(w.view, o, phase));
    CommittedRequests(w, v, o, phase);
    ViewIsIrrelevant(rules, executed, v);
  }

  lemma ReplayUnfolds(rules: Rules, w: World)
    requires TableIsReplay(rules, w)
    ensures w.table == Repo.Run(rules, w.journal)
  {
    hide Repo.Run;
  }

  lemma ViewIsIrrelevant(rules: Rules, w: World, v: World)
    requires TableIsReplay(rules, w) && JournalBacked(w)
    requires v == w.(view := v.view)
    ensures TableIsReplay(rules, v) && JournalBacked(v)
  {
    hide Repo.Run, EntryBacked;
  }

  lemma NextKeeps(rules: Rules, w: World, e: Event)
    requires WorldInv(rules, w)
    ensures WorldInv(rules, Next(rules, w, e))
  {
    hide Inv, Repo.Step, Repo.Run, Sighted, Timely, CommitStep, Returned, RequestsSurvive;
    if Enabled(w, e) {
      match e
      case UserSaves(device, cancel) => UserKeeps(rules, w, Repo.Save(device, cancel));
      case UserDeletes(id, cancel) => UserKeeps(rules, w, Repo.Delete(id, cancel));
      case CheckReturns(o, observation, detail) =>
        ReturnedKeepsInv(w.view, o, observation, false, detail);
        ReturnedRequests(w, o, observation, false, detail, w.answers[o := Answer(observation, detail)], w.effects);
      case WakeReturns(o, timeout, interval, script, detail) =>
        var device := w.view.operations[o].device;
        var (result, effects) := Wake(device, timeout, interval, script);
        VerifiedIffWitnessed(device, timeout, interval, script);
        ReturnedKeepsInv(w.view, o, result.observation, result.verified, detail);
        ReturnedRequests(w, o, result.observation, result.verified, detail,
                         w.answers[o := Answer(result.observation, detail)], w.effects[o := effects]);
      case Commits(o) => CommitKeeps(rules, w, o);
      case _ => QuietKeeps(rules, w, e);
    }
  }

  lemma UserKeeps(rules: Rules, w: World, op: Repo.Op)
    requires WorldInv(rules, w) && !op.Observe?
    ensures WorldInv(rules, Executed(rules, w, op, []))
  {
    hide Inv, Repo.Step, Repo.Run, Sighted, Timely;
    ExecutedKeeps(rules, w, op, []);
    var v := Executed(rules, w, op, []);
    forall o | o in v.view.operations ensures RequestBacked(v, o) {
      assert RequestBacked(w, o);
    }
  }

  lemma {:induction false} EveryRunKeepsInv(rules: Rules, events: seq<Event>)
    ensures WorldInv(rules, RunWorld(rules, events))
  {
    hide Next;
    if events == [] {
      assert Checks(EMPTY) == {};
    } else {
      hide WorldInv;
      EveryRunKeepsInv(rules, events[..|events| - 1]);
      NextKeeps(rules, RunWorld(rules, events[..|events| - 1]), events[|events| - 1]);
    }
  }

  // ---------------------------------------------------------------- the theorems

  /**
   * Stale results never land. In every run, each State or Detail written by a check or wake was written while
   * the generation it captured was current, for a card that still had the probed target; at most eight checks
   * are in flight; and every card has at most one running wake.
   */
  lemma StaleResultsNeverLand(rules: Rules, events: seq<Event>)
    ensures var w := RunWorld(rules, events);
            && AllTimely(w.writes)
            && |Checks(w.view)| <= 8
            && (forall o, p | o in w.view.operations && p in w.view.operations
                  && w.view.operations[o].isWake && w.view.operations[p].isWake
                  && w.view.operations[o].card == w.view.operations[p].card :: o == p)
            && (forall id, o :: id in w.view.waking && w.view.waking[id] == o <==>
                  o in w.view.operations && w.view.operations[o].isWake && w.view.operations[o].device.id == id)
  {
    hide RunWorld, SameStatus;
    EveryRunKeepsInv(rules, events);
    var a := RunWorld(rules, events).view;
    forall o | o in a.operations ensures OperationValid(a, o) {
    }
    forall id | id in a.waking ensures EntryValid(a, id) {
    }
    forall o, p | o in a.operations && p in a.operations && a.operations[o].isWake && a.operations[p].isWake
                  && a.operations[o].card == a.operations[p].card
      ensures o == p
    {
      assert OperationValid(a, o) && OperationValid(a, p);
    }
  }

  /**
   * A stored Verified reflects a wake that happened: unless somebody inserted the device as Verified, the mark
   * was earned by an observation for which the wake service saw the device Offline, then sent its packets, then
   * saw it Online, all on a configuration woken exactly like the one stored now.
   */
  lemma VerifiedReflectsWake(rules: Rules, events: seq<Event>, id: Guid) returns (k: nat)
    requires var w := RunWorld(rules, events);
             Provenance.IsVerified(w.table, id) && Provenance.NoVerifiedInserts(rules, w.journal, id)
    ensures var w := RunWorld(rules, events);
            && k < |w.journal| && k < |w.evidence|
            && Provenance.Earns(rules, Repo.Before(rules, w.journal, k), w.journal[k], id)
            && Sighted(w.journal[k].expected, w.evidence[k])
            && id in w.table && SameWake(w.journal[k].expected, w.table[id].document)
  {
    hide RunWorld, Inv, Sighted, SameWake, Repo.Run, Repo.Step, Timely, RequestsBacked;
    EveryRunKeepsInv(rules, events);
    var w := RunWorld(rules, events);
    k := Provenance.VerifiedWasEarned(rules, w.journal, id);
    assert EntryBacked(w.journal[k], w.evidence[k]);
  }

  /**
   * `waking.Add` throws for a card that offers a wake exactly when a wake of an already removed card of the
   * same device has not unwound yet, so only a reused device id can meet it.
   */
  lemma WakeRefusedOnlyByRemovedCard(a: Activity, c: CardRef)
    requires Inv(a) && c in a.cards && Known(a, c) && CanWake(a.heap[c])
    ensures WakeKeyTaken(a, c) <==>
              exists o :: o in a.operations && a.operations[o].isWake && a.operations[o].device.id == IdOf(a, c)
                          && a.operations[o].card !in a.cards
  {
    hide SameStatus;
    if WakeKeyTaken(a, c) {
      var o := a.waking[IdOf(a, c)];
      assert EntryValid(a, IdOf(a, c));
      assert OperationValid(a, o);
    }
    if o :| o in a.operations && a.operations[o].isWake && a.operations[o].device.id == IdOf(a, c) {
      assert OperationValid(a, o);
    }
  }

  /** The run in which that happens: a wake is still unwinding when its device disappears and comes back. */
  lemma ReusedIdRefusesWake(rules: Rules, device: Device)
    requires !device.wake.capability.Disabled?
    ensures var w := RunWorld(rules, [Synchronizes([device], [0]), BeginsWake(0), Synchronizes([], []),
                                      Synchronizes([device], [1])]);
            Known(w.view, 1) && 1 in w.view.cards && CanWake(w.view.heap[1]) && WakeKeyTaken(w.view, 1)
  {
    hide Synchronize, RemoveCard, RunWorld;
    var e0, e1, e2, e3 := Synchronizes([device], [0]), BeginsWake(0), Synchronizes([], []), Synchronizes([device], [1]);
    var woken := NewCard(device).(isWaking := true, generation := 1);
    var a1 := Activity([0], [NewCard(device)], map[], 0, map[], false, [], false);
    var a2 := Activity([0], [woken], map[0 := Operation(true, 0, 1, device, Probing, false)], 1,
                       map[device.id := 0], false, [], false);
    var a3 := Activity([], [woken.(generation := 2)], map[0 := Operation(true, 0, 1, device, Probing, true)], 1,
                       map[device.id := 0], false, [], false);
    SyncFirst(EMPTY, device, 0);
    assert CardsKnown(a1) && CardsKnown(a3);
    NextSynchronizes(rules, START, [device], [0]);
    WakeOfNewCard(a1, device);
    RemovedWhileWaking(a2, device, woken);
    SyncGone(a2);
    NextSynchronizes(rules, START.(view := a2), [], []);
    SyncFirst(a3, device, 1);
    NextSynchronizes(rules, START.(view := a3), [device], [1]);
    var a4 := a3.(heap := a3.heap + [NewCard(device)], cards := [1]);
    assert EMPTY.(heap := EMPTY.heap + [NewCard(device)], cards := [0]) == a1;
    assert Next(rules, START, e0) == START.(view := a1);
    assert Next(rules, START.(view := a1), e1) == START.(view := a2);
    assert Next(rules, START.(view := a2), e2) == START.(view := a3);
    assert Next(rules, START.(view := a3), e3) == START.(view := a4);
    RunFour(rules, e0, e1, e2, e3);
  }

  lemma NextSynchronizes(rules: Rules, w: World, devices: seq<Device>, order: seq<CardRef>)
    requires CardsKnown(w.view)
    ensures Next(rules, w, Synchronizes(devices, order)) == w.(view := Synchronize(w.view, devices, order))
  {
    hide Synchronize;
  }

  lemma WakeOfNewCard(a: Activity, device: Device)
    requires a == Activity([0], [NewCard(device)], map[], 0, map[], false, [], false)
    requires !device.wake.capability.Disabled?
    ensures BeginWake(a, 0) ==
              Activity([0], [NewCard(device).(isWaking := true, generation := 1)],
                       map[0 := Operation(true, 0, 1, device, Probing, false)], 1, map[device.id := 0], false, [], false)
  {
  }

  lemma RemovedWhileWaking(a: Activity, device: Device, woken: Card)
    requires woken == NewCard(device).(isWaking := true, generation := 1)
    requires a == Activity([0], [woken], map[0 := Operation(true, 0, 1, device, Probing, false)], 1,
                           map[device.id := 0], false, [], false)
    ensures RemoveCard(a, 0) ==
              Activity([], [woken.(generation := 2)], map[0 := Operation(true, 0, 1, device, Probing, true)], 1,
                       map[device.id := 0], false, [], false)
  {
    assert [0 as CardRef][1..] == [];
    assert Without([0], 0) == Without([], 0);
  }

  lemma SyncFirst(a: Activity, device: Device, order: CardRef)
    requires a.cards == [] && order == |a.heap|
    ensures CardsKnown(a)
    ensures Synchronize(a, [device], [order]) == a.(heap := a.heap + [NewCard(device)], cards := [order])
  {
    assert Missing(a, a.cards, [device]) == [];
    assert RemoveCards(a, []) == a;
    assert [device][..0] == [];
    assert ShowDevices(a, []) == a;
    assert ShowDevices(a, [device]) == ShowDevice(a, device);
    assert a.cards + [|a.heap|] == [order];
  }

  lemma SyncGone(a: Activity)
    requires a.cards == [0] && |a.heap| == 1
    ensures CardsKnown(a)
    ensures Synchronize(a, [], []) == RemoveCard(a, 0)
  {
    assert a.cards[1..] == [];
    assert Missing(a, a.cards, []) == [0];
    assert [0][..0] == [];
    assert RemoveCards(a, [0][..0]) == a;
    assert RemoveCards(a, [0]) == RemoveCard(a, 0);
    assert RemoveCard(a, 0).cards == [];
  }

  lemma RunFour(rules: Rules, e0: Event, e1: Event, e2: Event, e3: Event)
    ensures RunWorld(rules, [e0, e1, e2, e3]) == Next(rules, Next(rules, Next(rules, Next(rules, START, e0), e1), e2), e3)
  {
    hide Next;
    assert [e0, e1, e2, e3][..3] == [e0, e1, e2] && [e0, e1, e2][..2] == [e0, e1] && [e0, e1][..1] == [e0] && [e0][..0] == [];
    assert RunWorld(rules, [e0]) == Next(rules, START, e0);
    assert RunWorld(rules, [e0, e1]) == Next(rules, RunWorld(rules, [e0]), e1);
    assert RunWorld(rules, [e0, e1, e2]) == Next(rules, RunWorld(rules, [e0, e1]), e2);
  }
}
