/**
 * The coordinator as the object it is: each method is the code of one uninterrupted stretch on the UI thread,
 * and changes the fields exactly as the step functions of `DeviceActivity` say.
 */
module DeviceActivityViewModel {
  import opened Prelude
  import opened Devices
  import opened DeviceActivity
  import opened DeviceActivityInvariant

  class ViewModel {
    var cards: seq<CardRef>
    var heap: seq<Card>
    var operations: map<nat, Operation>
    var nextOperation: nat
    var waking: map<Guid, nat>
    var checking: bool
    var sweep: seq<CardRef>
    var stopped: bool

    ghost function View(): Activity
      reads this
    {
      Activity(cards, heap, operations, nextOperation, waking, checking, sweep, stopped)
    }

    constructor ()
      ensures View() == EMPTY
    {
      cards, heap, operations, nextOperation := [], [], map[], 0;
      waking, checking, sweep, stopped := map[], false, [], false;
    }

    method CancelWake(c: CardRef)
      requires Known(View(), c)
      modifies this
      ensures View() == DeviceActivity.CancelWake(old(View()), c)
    {
      var id := heap[c].device.id;
      if id in waking && waking[id] in operations {
        var o := waking[id];
        operations := operations[o := operations[o].(cancelRequested := true)];
      }
    }

    /** `order` is the order of the display names once all devices are shown. */
    method Synchronize(devices: seq<Device>, order: seq<CardRef>)
      requires Inv(View())
      modifies this
      ensures CardsKnown(old(View())) && View() == DeviceActivity.Synchronize(old(View()), devices, order)
      ensures Inv(View())
    {
      hide RemoveCards, ShowDevices, Missing;
      ghost var start := View();
      RemovedKnown(start, devices);
      RemoveMissing(devices);
      ShowAll(devices);
      if multiset(order) == multiset(cards) {
        cards := order;
      }
      SynchronizeKeepsInv(start, devices, order);
    }

    method RemoveMissing(devices: seq<Device>)
      requires CardsKnown(View())
      modifies this
      ensures var start := old(View());
              var gone := Missing(start, start.cards, devices);
              (forall k | 0 <= k < |gone| :: Known(start, gone[k])) && View() == RemoveCards(start, gone)
    {
      hide RemoveCard, Missing;
      ghost var start := View();
      var gone := GoneCards(devices);
      for i := 0 to |gone|
        invariant |heap| == |start.heap|
        invariant View() == RemoveCards(start, gone[..i])
      {
        assert gone[..i + 1][..i] == gone[..i];
        RemoveOne(gone[i]);
      }
      assert gone[..|gone|] == gone;
    }

    method ShowAll(devices: seq<Device>)
      requires CardsKnown(View())
      modifies this
      ensures View() == ShowDevices(old(View()), devices)
    {
      hide ShowDevice;
      ghost var start := View();
      for i := 0 to |devices|
        invariant CardsKnown(View())
        invariant View() == ShowDevices(start, devices[..i])
      {
        assert devices[..i + 1][..i] == devices[..i];
        ShowOne(devices[i]);
      }
      assert devices[..|devices|] == devices;
    }

    /** `Cards.Where(c => devices.All(d => d.Id != c.Id)).ToArray()`. */
    method GoneCards(devices: seq<Device>) returns (gone: seq<CardRef>)
      requires CardsKnown(View())
      ensures gone == Missing(View(), cards, devices)
      ensures forall k | 0 <= k < |gone| :: Known(View(), gone[k])
    {
      gone := [];
      var i := |cards|;
      while i > 0
        invariant 0 <= i <= |cards|
        invariant gone == Missing(View(), cards[i..], devices)
      {
        i := i - 1;
        var c := cards[i];
        assert cards[i..][1..] == cards[i + 1..];
        if forall k | 0 <= k < |devices| :: devices[k].id != heap[c].device.id {
          gone := [c] + gone;
        } else {
          gone := [] + gone;
        }
      }
      assert cards[0..] == cards;
      forall k | 0 <= k < |gone| ensures Known(View(), gone[k]) {
        assert gone[k] in gone;
      }
    }

    method RemoveOne(c: CardRef)
      requires Known(View(), c)
      modifies this
      ensures View() == RemoveCard(old(View()), c) && |heap| == |old(heap)|
    {
      CancelWake(c);
      heap := heap[c := heap[c].(generation := heap[c].generation + 1)];
      cards := Without(cards, c);
    }

    method ShowOne(device: Device)
      requires CardsKnown(View())
      modifies this
      ensures View() == ShowDevice(old(View()), device)
    {
      hide FirstCard, SameWake;
      var found := Find(device.id);
      if found.None? {
        cards := cards + [|heap|];
        heap := heap + [NewCard(device)];
        return;
      }
      var c := found.value;
      if !SameWake(heap[c].device, device) ||
         (heap[c].device.wake.capability != device.wake.capability && device.wake.capability.Disabled?)
      {
        CancelWake(c);
        heap := heap[c := heap[c].(generation := heap[c].generation + 1)];
        heap := heap[c := heap[c].(state := Unknown)];
        heap := heap[c := heap[c].(detail := "Configuration changed; awaiting a live status check.")];
      }
      heap := heap[c := heap[c].(device := device)];
    }

    method Find(id: Guid) returns (found: Option<CardRef>)
      requires CardsKnown(View())
      ensures found == FirstCard(View(), cards, id)
    {
      var i := 0;
      assert cards[0..] == cards;
      while i < |cards|
        invariant 0 <= i <= |cards|
        invariant FirstCard(View(), cards, id) == FirstCard(View(), cards[i..], id)
      {
        if heap[cards[i]].device.id == id {
          return Some(cards[i]);
        }
        assert cards[i..][1..] == cards[i + 1..];
        i := i + 1;
      }
      found := None;
    }

    method CheckNow()
      modifies this
      ensures View() == DeviceActivity.CheckNow(old(View()))
    {
      if stopped || checking {
        return;
      }
      checking := true;
      sweep := cards;
    }

    /** The next `Chunk(8)` of the sweep, once the checks of the previous one are all done. */
    method NextBatch()
      requires forall i | 0 <= i < |sweep| :: Known(View(), sweep[i])
      requires Checks(View()) == {}
      modifies this
      ensures View() == DeviceActivity.NextBatch(old(View()))
    {
      hide DeviceActivity.StartCheck, Checks;
      if !checking {
        return;
      }
      if sweep == [] {
        checking := false;
        return;
      }
      var n := if |sweep| < BATCH then |sweep| else BATCH;
      var batch := sweep[..n];
      ghost var start := View();
      for i := 0 to n
        invariant |batch| == n && forall k | 0 <= k < n :: Known(start, batch[k])
        invariant View() == StartChecks(start, batch[..i])
      {
        assert batch[..i + 1][..i] == batch[..i];
        StartCheck(batch[i]);
      }
      assert batch[..n] == batch;
      StartChecksKeepSweep(start, batch);
      sweep := sweep[n..];
    }

    method StartCheck(c: CardRef)
      requires Known(View(), c)
      modifies this
      ensures View() == DeviceActivity.StartCheck(old(View()), c)
    {
      if heap[c].isWaking || c !in cards {
        return;
      }
      operations := operations[nextOperation := Operation(false, c, heap[c].generation, heap[c].device, Probing, false)];
      nextOperation := nextOperation + 1;
    }

    /** `threw` is the exception `waking.Add` raises on a key that is still there. */
    method BeginWake(c: CardRef) returns (threw: bool)
      requires Known(View(), c)
      modifies this
      ensures View() == DeviceActivity.BeginWake(old(View()), c)
      ensures threw == old(!stopped && CanWake(heap[c]) && c in cards && WakeKeyTaken(View(), c))
    {
      if stopped || heap[c].isWaking || heap[c].device.wake.capability.Disabled? || c !in cards {
        return false;
      }
      var id := heap[c].device.id;
      if id in waking {
        return true;
      }
      waking := waking[id := nextOperation];
      heap := heap[c := heap[c].(isWaking := true)];
      heap := heap[c := heap[c].(generation := heap[c].generation + 1)];
      operations := operations[nextOperation := Operation(true, c, heap[c].generation, heap[c].device, Probing, false)];
      nextOperation := nextOperation + 1;
      threw := false;
    }

    method Finish(o: nat)
      requires Running(View(), o)
      modifies this`operations
      ensures View() == DeviceActivity.Finish(old(View()), o)
    {
      if operations[o].isWake {
        operations := operations[o := operations[o].(phase := Ended)];
      } else {
        operations := operations - {o};
      }
    }

    method Returned(o: nat, observation: StatusObservation, verify: bool, detail: string)
      requires Running(View(), o)
      modifies this`operations
      ensures View() == DeviceActivity.Returned(old(View()), o, observation, verify, detail)
    {
      var op := operations[o];
      if op.generation != heap[op.card].generation || (!op.isWake && op.card !in cards) {
        Finish(o);
        return;
      }
      operations := operations[o := op.(phase := Applying(observation, verify, detail))];
    }

    method Resumed(o: nat)
      requires Running(View(), o) && operations[o].phase.Committed?
      modifies this`operations, this`heap
      ensures View() == DeviceActivity.Resumed(old(View()), o).0
    {
      var op := operations[o];
      var done := op.phase;
      if done.saved.Some? && op.generation == heap[op.card].generation && op.card in cards {
        heap := heap[op.card := heap[op.card].(device := done.saved.value)];
        heap := heap[op.card := heap[op.card].(state := done.observation.state)];
        heap := heap[op.card := heap[op.card].(detail := done.detail)];
      }
      if op.isWake {
        operations := operations[o := op.(phase := Applied(done.detail))];
      } else {
        Finish(o);
      }
    }

    method ShowResult(o: nat)
      requires Running(View(), o) && operations[o].phase.Applied?
      modifies this`operations, this`heap
      ensures View() == DeviceActivity.ShowResult(old(View()), o).0
    {
      var op := operations[o];
      if op.generation == heap[op.card].generation {
        heap := heap[op.card := heap[op.card].(detail := op.phase.detail)];
      }
      Finish(o);
    }

    method Threw(o: nat, silent: bool, detail: string)
      requires Running(View(), o)
      modifies this`operations, this`heap
      ensures View() == DeviceActivity.Threw(old(View()), o, silent, detail).0
    {
      var op := operations[o];
      if op.generation == heap[op.card].generation && (op.isWake || !silent) {
        heap := heap[op.card := heap[op.card].(state := Unknown)];
        heap := heap[op.card := heap[op.card].(detail := detail)];
      }
      Finish(o);
    }

    method Progress(o: nat, state: DeviceState, detail: string)
      requires Running(View(), o)
      modifies this`heap
      ensures View() == DeviceActivity.Progress(old(View()), o, state, detail).0
    {
      var op := operations[o];
      if !op.isWake || !op.phase.Probing? || op.generation != heap[op.card].generation {
        return;
      }
      heap := heap[op.card := heap[op.card].(state := state)];
      heap := heap[op.card := heap[op.card].(detail := detail)];
    }

    method Unwind(o: nat)
      requires Running(View(), o) && operations[o].isWake && operations[o].phase.Ended?
      modifies this
      ensures View() == DeviceActivity.Unwind(old(View()), o)
    {
      var c := operations[o].card;
      operations := operations - {o};
      waking := waking - {heap[c].device.id};
      heap := heap[c := heap[c].(isWaking := false)];
    }
  }

  lemma RemovedKnown(a: Activity, devices: seq<Device>)
    requires Inv(a) && CardsKnown(a)
    ensures var gone := Missing(a, a.cards, devices);
            (forall i | 0 <= i < |gone| :: Known(a, gone[i])) && CardsKnown(RemoveCards(a, gone))
  {
    var gone := Missing(a, a.cards, devices);
    forall i | 0 <= i < |gone| ensures Known(a, gone[i]) {
      assert gone[i] in gone;
    }
    RemoveCardsKeep(a, gone);
  }

  lemma {:induction false} StartChecksKeepSweep(a: Activity, batch: seq<CardRef>)
    requires forall i | 0 <= i < |batch| :: Known(a, batch[i])
    ensures StartChecks(a, batch).sweep == a.sweep
  {
    if batch != [] {
      assert Known(a, batch[|batch| - 1]);
      StartChecksKeepSweep(a, batch[..|batch| - 1]);
    }
  }
}
