/**
 * `DeviceActivityViewModel`: status checks, wakes and inventory synchronisation on one UI thread. Each function
 * below is the code between two await points; whatever happens while an operation waits is another step.
 */
module DeviceActivity {
  import opened Prelude
  import opened Devices

  /** A card object, named by its place in the heap; a removed card keeps its place. */
  type CardRef = nat

  datatype Card = Card(device: Device, state: DeviceState, detail: string, isWaking: bool, generation: nat)

  datatype Phase =
    | Probing
    | Applying(observation: StatusObservation, verify: bool, detail: string)
    | Committed(saved: Option<Device>, observation: StatusObservation, detail: string)
    | Applied(detail: string)
    | Ended

  /** A running check or wake, with what it captured when it started. */
  datatype Operation = Operation(
    isWake: bool, card: CardRef, generation: nat, device: Device, phase: Phase, cancelRequested: bool)

  datatype Activity = Activity(
    cards: seq<CardRef>,
    heap: seq<Card>,
    operations: map<nat, Operation>,
    nextOperation: nat,
    waking: map<Guid, nat>,
    checking: bool,
    sweep: seq<CardRef>,
    stopped: bool)

  const EMPTY := Activity([], [], map[], 0, map[], false, [], false)

  /**
   * A write of State or Detail by an operation, with what it was based on, what the card was at that moment, and the state and
   * detail the card shows after it.
   */
  datatype Write = Write(
    operation: nat, card: CardRef, captured: nat, current: nat, probed: Device, shown: Device, state: DeviceState, detail: string)

  predicate Known(a: Activity, c: CardRef) {
    c < |a.heap|
  }

  function IdOf(a: Activity, c: CardRef): Guid
    requires Known(a, c)
  {
    a.heap[c].device.id
  }

  function SetCard(a: Activity, c: CardRef, card: Card): Activity
    requires Known(a, c)
  {
    a.(heap := a.heap[c := card])
  }

  function SetPhase(a: Activity, o: nat, phase: Phase): Activity
    requires o in a.operations
  {
    a.(operations := a.operations[o := a.operations[o].(phase := phase)])
  }

  predicate Running(a: Activity, o: nat) {
    o in a.operations && Known(a, a.operations[o].card)
  }

  /** `generation == card.Generation`. */
  predicate IsCurrent(a: Activity, o: nat)
    requires Running(a, o)
  {
    a.operations[o].generation == a.heap[a.operations[o].card].generation
  }

  /** The write by which the operation left its card as it is now. */
  function WriteBy(a: Activity, o: nat): Write
    requires Running(a, o)
  {
    var op, card := a.operations[o], a.heap[a.operations[o].card];
    Write(o, op.card, op.generation, card.generation, op.device, card.device, card.state, card.detail)
  }

  /** A check leaves when it is done; a wake first unwinds in `BeginWakeAsync`. */
  function Finish(a: Activity, o: nat): Activity
    requires o in a.operations
  {
    if a.operations[o].isWake then SetPhase(a, o, Ended) else a.(operations := a.operations - {o})
  }

  // ---------------------------------------------------------------- wake and check steps

  function CancelWake(a: Activity, c: CardRef): Activity
    requires Known(a, c)
  {
    var id := IdOf(a, c);
    if id in a.waking && a.waking[id] in a.operations then
      var o := a.waking[id];
      a.(operations := a.operations[o := a.operations[o].(cancelRequested := true)])
    else a
  }

  /** The start of `CheckOneAsync`. */
  function StartCheck(a: Activity, c: CardRef): Activity
    requires Known(a, c)
  {
    if a.heap[c].isWaking || c !in a.cards then a else
      a.(operations := a.operations[a.nextOperation :=
           Operation(false, c, a.heap[c].generation, a.heap[c].device, Probing, false)],
         nextOperation := a.nextOperation + 1)
  }

  // The sweep of `CheckNowAsync`: batches of eight, each waiting for all its checks.

  const BATCH := 8

  /** The checks in flight. */
  function Checks(a: Activity): set<nat> {
    set o | o in a.operations && !a.operations[o].isWake
  }

  function CheckNow(a: Activity): Activity {
    if a.stopped || a.checking then a else a.(checking := true, sweep := a.cards)
  }

  function StartChecks(a: Activity, batch: seq<CardRef>): (r: Activity)
    requires forall i | 0 <= i < |batch| :: Known(a, batch[i])
    ensures r.heap == a.heap
  {
    if batch == [] then a else
      var c := batch[|batch| - 1];
      assert Known(a, c);
      StartCheck(StartChecks(a, batch[..|batch| - 1]), c)
  }

  /** Starts the next batch, or ends the sweep; reached only once the previous batch has finished. */
  function NextBatch(a: Activity): Activity
    requires forall i | 0 <= i < |a.sweep| :: Known(a, a.sweep[i])
  {
    if !a.checking || Checks(a) != {} then a
    else if a.sweep == [] then a.(checking := false)
    else
      var n := if |a.sweep| < BATCH then |a.sweep| else BATCH;
      StartChecks(a, a.sweep[..n]).(sweep := a.sweep[n..])
  }

  /** The lifetime is cancelled between two batches. */
  function AbandonSweep(a: Activity): Activity {
    if a.checking && Checks(a) == {} then a.(checking := false, sweep := []) else a
  }

  predicate CanWake(card: Card) {
    !card.isWaking && !card.device.wake.capability.Disabled?
  }

  /** `waking.Add` refuses a key that is still there; nothing has changed yet when it throws. */
  predicate WakeKeyTaken(a: Activity, c: CardRef)
    requires Known(a, c)
  {
    IdOf(a, c) in a.waking
  }

  /** `BeginWakeAsync` up to the first await of `RunWakeAsync`. */
  function BeginWake(a: Activity, c: CardRef): Activity
    requires Known(a, c)
  {
    if a.stopped || !CanWake(a.heap[c]) || c !in a.cards || WakeKeyTaken(a, c) then a else
      var card := a.heap[c].(isWaking := true, generation := a.heap[c].generation + 1);
      SetCard(a, c, card).(
        operations := a.operations[a.nextOperation := Operation(true, c, card.generation, card.device, Probing, false)],
        nextOperation := a.nextOperation + 1,
        waking := a.waking[card.device.id := a.nextOperation])
  }

  /** A status check, or a whole wake, has returned an observation to the UI thread. */
  function Returned(a: Activity, o: nat, observation: StatusObservation, verify: bool, detail: string): Activity
    requires Running(a, o)
  {
    var op := a.operations[o];
    if !IsCurrent(a, o) || (!op.isWake && op.card !in a.cards) then Finish(a, o)
    else SetPhase(a, o, Applying(observation, verify, detail))
  }

  /** `ApplyAsync` after the repository answered; a check is then done, a wake goes on to `ShowResult`. */
  function Resumed(a: Activity, o: nat): (Activity, seq<Write>)
    requires Running(a, o) && a.operations[o].phase.Committed?
  {
    var op := a.operations[o];
    var done := op.phase;
    if done.saved.Some? && IsCurrent(a, o) && op.card in a.cards then
      var shown := a.heap[op.card].(device := done.saved.value, state := done.observation.state, detail := done.detail);
      var b := SetCard(a, op.card, shown);
      (AfterApply(b, o, done.detail), [WriteBy(b, o)])
    else (AfterApply(a, o, done.detail), [])
  }

  function AfterApply(a: Activity, o: nat, detail: string): Activity
    requires o in a.operations
  {
    if a.operations[o].isWake then SetPhase(a, o, Applied(detail)) else Finish(a, o)
  }

  /** The last lines of `RunWakeAsync` after a normal return. */
  function ShowResult(a: Activity, o: nat): (Activity, seq<Write>)
    requires Running(a, o) && a.operations[o].phase.Applied?
  {
    var op := a.operations[o];
    if IsCurrent(a, o) then
      var b := SetCard(a, op.card, a.heap[op.card].(detail := op.phase.detail));
      (Finish(b, o), [WriteBy(b, o)])
    else (Finish(a, o), [])
  }

  /** An exception ends the operation; `silent` is a cancelled lifetime in `CheckOneAsync`, which writes nothing. */
  function Threw(a: Activity, o: nat, silent: bool, detail: string): (Activity, seq<Write>)
    requires Running(a, o)
  {
    var op := a.operations[o];
    if IsCurrent(a, o) && (op.isWake || !silent) then
      var b := SetCard(a, op.card, a.heap[op.card].(state := Unknown, detail := detail));
      (Finish(b, o), [WriteBy(b, o)])
    else (Finish(a, o), [])
  }

  /** A progress report reaches the UI thread; `finished` is set once the wake has returned. */
  function Progress(a: Activity, o: nat, state: DeviceState, detail: string): (Activity, seq<Write>)
    requires Running(a, o)
  {
    var op := a.operations[o];
    if op.isWake && op.phase.Probing? && IsCurrent(a, o) then
      var b := SetCard(a, op.card, a.heap[op.card].(state := state, detail := detail));
      (b, [WriteBy(b, o)])
    else (a, [])
  }

  /** The `finally` of `BeginWakeAsync`. */
  function Unwind(a: Activity, o: nat): Activity
    requires Running(a, o)
  {
    var op := a.operations[o];
    if op.isWake && op.phase.Ended? then
      SetCard(a, op.card, a.heap[op.card].(isWaking := false)).(
        operations := a.operations - {o}, waking := a.waking - {IdOf(a, op.card)})
    else a
  }

  // ---------------------------------------------------------------- synchronisation

  predicate Mentions(devices: seq<Device>, id: Guid) {
    exists i | 0 <= i < |devices| :: devices[i].id == id
  }

  predicate CardsKnown(a: Activity) {
    forall i | 0 <= i < |a.cards| :: Known(a, a.cards[i])
  }

  function Without(cards: seq<CardRef>, c: CardRef): (r: seq<CardRef>)
    ensures forall x | x in r :: x in cards && x != c
    ensures forall x | x in cards && x != c :: x in r
  {
    if cards == [] then [] else (if cards[0] == c then [] else [cards[0]]) + Without(cards[1..], c)
  }

  function RemoveCard(a: Activity, c: CardRef): Activity
    requires Known(a, c)
  {
    var b := CancelWake(a, c);
    SetCard(b, c, b.heap[c].(generation := b.heap[c].generation + 1)).(cards := Without(b.cards, c))
  }

  /** The first loop of `Synchronize`, over the cards in `gone`. */
  function RemoveCards(a: Activity, gone: seq<CardRef>): (r: Activity)
    requires forall i | 0 <= i < |gone| :: Known(a, gone[i])
    ensures |r.heap| == |a.heap|
  {
    if gone == [] then a else
      var c := gone[|gone| - 1];
      assert Known(a, c);
      RemoveCard(RemoveCards(a, gone[..|gone| - 1]), c)
  }

  function Missing(a: Activity, cards: seq<CardRef>, devices: seq<Device>): (r: seq<CardRef>)
    requires forall i | 0 <= i < |cards| :: Known(a, cards[i])
    ensures forall c | c in r :: c in cards && Known(a, c) && !Mentions(devices, IdOf(a, c))
    ensures forall c | c in cards && !Mentions(devices, IdOf(a, c)) :: c in r
  {
    if cards == [] then [] else
      (if Mentions(devices, IdOf(a, cards[0])) then [] else [cards[0]]) + Missing(a, cards[1..], devices)
  }

  /** `Cards.FirstOrDefault(c => c.Id == id)`. */
  function FirstCard(a: Activity, cards: seq<CardRef>, id: Guid): (r: Option<CardRef>)
    requires forall i | 0 <= i < |cards| :: Known(a, cards[i])
    ensures r.Some? ==> r.value in cards && Known(a, r.value) && IdOf(a, r.value) == id
    ensures r.None? ==> forall c | c in cards :: IdOf(a, c) != id
  {
    if cards == [] then None
    else if IdOf(a, cards[0]) == id then Some(cards[0])
    else FirstCard(a, cards[1..], id)
  }

  /** The change cancels a wake and invalidates whatever is in flight. */
  predicate Reconfigures(shown: Device, device: Device) {
    || !SameWake(shown, device)
    || (shown.wake.capability != device.wake.capability && device.wake.capability.Disabled?)
  }

  function NewCard(device: Device): Card {
    Card(device, Unknown, "Awaiting a live status check.", false, 0)
  }

  function AddCard(a: Activity, device: Device): Activity {
    a.(heap := a.heap + [NewCard(device)], cards := a.cards + [|a.heap|])
  }

  function Renewed(card: Card, device: Device): Card {
    if Reconfigures(card.device, device) then
      card.(generation := card.generation + 1, state := Unknown,
            detail := "Configuration changed; awaiting a live status check.", device := device)
    else card.(device := device)
  }

  function RenewCard(a: Activity, c: CardRef, device: Device): (r: Activity)
    requires Known(a, c)
    ensures r.cards == a.cards && r.heap == a.heap[c := Renewed(a.heap[c], device)]
  {
    SetCard(if Reconfigures(a.heap[c].device, device) then CancelWake(a, c) else a, c, Renewed(a.heap[c], device))
  }

  /** One turn of the second loop of `Synchronize`. */
  function ShowDevice(a: Activity, device: Device): (r: Activity)
    requires CardsKnown(a)
    ensures CardsKnown(r)
  {
    match FirstCard(a, a.cards, device.id)
    case None => AddCard(a, device)
    case Some(c) => RenewCard(a, c, device)
  }

  function ShowDevices(a: Activity, devices: seq<Device>): (r: Activity)
    requires CardsKnown(a)
    ensures CardsKnown(r)
  {
    if devices == [] then a else ShowDevice(ShowDevices(a, devices[..|devices| - 1]), devices[|devices| - 1])
  }

  /** The final sort only moves cards; `order` is the order of their display names. */
  function Arrange(a: Activity, order: seq<CardRef>): Activity {
    if multiset(order) == multiset(a.cards) then a.(cards := order) else a
  }

  function Synchronize(a: Activity, devices: seq<Device>, order: seq<CardRef>): Activity
    requires CardsKnown(a)
  {
    var kept := RemoveCards(a, Missing(a, a.cards, devices));
    if CardsKnown(kept) then Arrange(ShowDevices(kept, devices), order) else a
  }

  // ---------------------------------------------------------------- what every state satisfies

  predicate Distinct(a: Activity, cards: seq<CardRef>) {
    && (forall i | 0 <= i < |cards| :: Known(a, cards[i]))
    && (forall i, j | 0 <= i < j < |cards| :: cards[i] != cards[j] && IdOf(a, cards[i]) != IdOf(a, cards[j]))
  }

  /** The visible cards are distinct objects of distinct devices. */
  predicate CardsValid(a: Activity) {
    && CardsKnown(a)
    && Distinct(a, a.cards)
    && (forall i | 0 <= i < |a.sweep| :: Known(a, a.sweep[i]))
  }

  /**
   * An operation is never ahead of its card; while its generation is current it probed what its card shows;
   * what the repository answered has the probed target; and a wake is registered under its device and marks its card.
   */
  predicate OperationValid(a: Activity, o: nat)
    requires o in a.operations
  {
    var op := a.operations[o];
    && o < a.nextOperation && Known(a, op.card)
    && var card := a.heap[op.card];
    && op.generation <= card.generation
    && op.device.id == card.device.id
    && (op.generation == card.generation ==> SameStatus(op.device, card.device))
    && (op.phase.Committed? && op.phase.saved.Some? ==>
          op.phase.saved.value.id == op.device.id && SameStatus(op.phase.saved.value, op.device))
    && (if op.isWake then op.device.id in a.waking && a.waking[op.device.id] == o && card.isWaking
        else op.phase.Probing? || op.phase.Applying? || op.phase.Committed?)
  }

  /** An entry of `waking` is a running wake of that device. */
  predicate EntryValid(a: Activity, id: Guid)
    requires id in a.waking
  {
    var o := a.waking[id];
    o in a.operations && a.operations[o].isWake && a.operations[o].device.id == id
  }

  /** A card marked as waking is the card of the registered wake. */
  predicate CardValid(a: Activity, c: CardRef)
    requires Known(a, c)
  {
    a.heap[c].isWaking ==>
      var id := IdOf(a, c);
      id in a.waking && a.waking[id] in a.operations && a.operations[a.waking[id]].card == c
  }

  /** At most eight checks run at a time, and none outside a sweep. */
  predicate SweepBounded(a: Activity) {
    |Checks(a)| <= BATCH && (Checks(a) != {} ==> a.checking)
  }

  ghost predicate Consistent(a: Activity) {
    CardsValid(a) && OperationsValid(a) && EntriesValid(a) && MarksValid(a)
  }

  predicate OperationsValid(a: Activity) {
    forall o | o in a.operations :: OperationValid(a, o)
  }

  predicate EntriesValid(a: Activity) {
    forall id | id in a.waking :: EntryValid(a, id)
  }

  ghost predicate MarksValid(a: Activity) {
    forall c: CardRef | Known(a, c) :: CardValid(a, c)
  }

  ghost predicate Inv(a: Activity) {
    Consistent(a) && SweepBounded(a)
  }

  /** A write is timely: the captured generation is current and the probed device has the shown device's target. */
  predicate Timely(w: Write) {
    w.captured == w.current && SameStatus(w.probed, w.shown) && w.probed.id == w.shown.id
  }

  predicate AllTimely(writes: seq<Write>) {
    forall i | 0 <= i < |writes| :: Timely(writes[i])
  }
}
