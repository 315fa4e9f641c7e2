/** What `Synchronize` is for: afterwards the cards show exactly the inventory, on the card objects that were there. */
module Synchronization {
  import opened Prelude
  import opened Devices
  import opened DeviceActivity
  import opened DeviceActivityInvariant

  predicate Shows(a: Activity, device: Device) {
    exists i | 0 <= i < |a.cards| && Known(a, a.cards[i]) :: a.heap[a.cards[i]].device == device
  }

  /** Cards keep their device's id and are only added to or removed from the list. */
  predicate SameIds(a: Activity, b: Activity) {
    |a.heap| <= |b.heap| && forall c | 0 <= c < |a.heap| :: b.heap[c].device.id == a.heap[c].device.id
  }

  lemma {:induction false} RemovedExactly(a: Activity, gone: seq<CardRef>)
    requires forall i | 0 <= i < |gone| :: Known(a, gone[i])
    ensures var b := RemoveCards(a, gone);
            SameIds(a, b) && forall c :: c in b.cards <==> c in a.cards && c !in gone
  {
    if gone != [] {
      var front, c := gone[..|gone| - 1], gone[|gone| - 1];
      assert Known(a, c);
      RemovedExactly(a, front);
      assert gone == front + [c];
    }
  }

  /** What one turn of the second loop does to the visible cards. */
  ghost predicate ShownBy(a: Activity, b: Activity, device: Device) {
    && SameIds(a, b) && Shows(b, device)
    && (forall c | c in a.cards :: c in b.cards)
    && (forall c | c in b.cards && c !in a.cards :: Known(b, c) && IdOf(b, c) == device.id)
    && Distinct(b, b.cards)
    && (forall e: Device | e.id != device.id && Shows(a, e) :: Shows(b, e))
  }

  lemma AddedIsShown(a: Activity, device: Device)
    requires Distinct(a, a.cards) && forall c | c in a.cards && Known(a, c) :: IdOf(a, c) != device.id
    ensures ShownBy(a, a.(heap := a.heap + [NewCard(device)], cards := a.cards + [|a.heap|]), device)
  {
    var b := a.(heap := a.heap + [NewCard(device)], cards := a.cards + [|a.heap|]);
    assert b.cards[|a.cards|] == |a.heap| && b.heap[|a.heap|].device == device;
    forall i | 0 <= i < |a.cards| ensures IdOf(a, a.cards[i]) != device.id {
      assert a.cards[i] in a.cards;
    }
    forall e: Device | Shows(a, e) ensures Shows(b, e) {
      var i :| 0 <= i < |a.cards| && Known(a, a.cards[i]) && a.heap[a.cards[i]].device == e;
      assert b.cards[i] == a.cards[i] && b.heap[b.cards[i]].device == e;
    }
  }

  lemma ReplacedIsShown(a: Activity, b: Activity, c: CardRef, card: Card)
    requires Distinct(a, a.cards) && c in a.cards && Known(a, c) && IdOf(a, c) == card.device.id
    requires b.cards == a.cards && b.heap == a.heap[c := card]
    ensures ShownBy(a, b, card.device)
  {
    var k :| 0 <= k < |a.cards| && a.cards[k] == c;
    assert b.cards[k] == c && b.heap[c].device == card.device;
    forall e: Device | e.id != card.device.id && Shows(a, e) ensures Shows(b, e) {
      var i :| 0 <= i < |a.cards| && Known(a, a.cards[i]) && a.heap[a.cards[i]].device == e;
      assert b.cards[i] == a.cards[i] && b.heap[b.cards[i]].device == e;
    }
  }

  lemma ShowDeviceShows(a: Activity, device: Device)
    requires CardsKnown(a) && Distinct(a, a.cards)
    ensures ShownBy(a, ShowDevice(a, device), device)
  {
    hide ShownBy, Distinct, FirstCard;
    var found := FirstCard(a, a.cards, device.id);
    if found.None? {
      AddedIsShown(a, device);
    } else {
      hide ShowDevice;
      ReplacedIsShown(a, ShowDevice(a, device), found.value, ShowDevice(a, device).heap[found.value]);
    }
  }

  predicate DistinctIds(devices: seq<Device>) {
    forall i, j | 0 <= i < j < |devices| :: devices[i].id != devices[j].id
  }

  lemma {:induction false} ShowDevicesShow(a: Activity, devices: seq<Device>)
    requires CardsKnown(a) && Distinct(a, a.cards) && DistinctIds(devices)
    ensures var b := ShowDevices(a, devices);
            && SameIds(a, b) && Distinct(b, b.cards)
            && (forall i | 0 <= i < |devices| :: Shows(b, devices[i]))
            && (forall c | c in a.cards :: c in b.cards)
            && (forall c | c in b.cards && c !in a.cards :: Known(b, c) && Mentions(devices, IdOf(b, c)))
  {
    hide ShowDevice, Shows;
    if devices != [] {
      var n := |devices| - 1;
      var front, last := devices[..n], devices[n];
      ShowDevicesShow(a, front);
      var mid := ShowDevices(a, front);
      ShowDeviceShows(mid, last);
      var b := ShowDevice(mid, last);
      assert ShownBy(mid, b, last);
      forall i | 0 <= i < n ensures Shows(b, devices[i]) {
        assert front[i] == devices[i];
      }
      forall c | c in b.cards && c !in a.cards ensures Known(b, c) && Mentions(devices, IdOf(b, c)) {
        if c in mid.cards {
          assert Known(mid, c) && Mentions(front, IdOf(mid, c));
          var i :| 0 <= i < n && front[i].id == IdOf(mid, c);
          assert devices[i].id == IdOf(b, c);
        } else {
          assert devices[n].id == IdOf(b, c);
        }
      }
    }
  }

  /**
   * After `Synchronize` every device of the inventory is shown by a card, every card is one of its devices,
   * and a card whose device is still there is the same object as before, so its running wake is not lost.
   */
  lemma SynchronizeShowsInventory(a: Activity, devices: seq<Device>, order: seq<CardRef>)
    requires Inv(a) && CardsKnown(a) && DistinctIds(devices)
    ensures var b := Synchronize(a, devices, order);
            && (forall i | 0 <= i < |devices| :: Shows(b, devices[i]))
            && (forall c | c in b.cards :: Known(b, c) && Mentions(devices, IdOf(b, c)))
            && (forall c | c in a.cards && Mentions(devices, IdOf(a, c)) :: c in b.cards)
  {
    var gone := Missing(a, a.cards, devices);
    forall i | 0 <= i < |gone| ensures Known(a, gone[i]) {
      assert gone[i] in gone;
    }
    RemovedExactly(a, gone);
    RemoveCardsKeep(a, gone);
    var kept := RemoveCards(a, gone);
    assert CardsKnown(kept) && Distinct(kept, kept.cards);
    ShowDevicesShow(kept, devices);
    var shown := ShowDevices(kept, devices);
    hide ShowDevices, RemoveCards, Missing;
    forall c | c in shown.cards ensures Known(shown, c) && Mentions(devices, IdOf(shown, c)) {
      if c in kept.cards {
        assert Known(a, c) && Mentions(devices, IdOf(a, c));
      }
    }
    ArrangeShows(shown, order, devices);
  }

  lemma ArrangeShows(a: Activity, order: seq<CardRef>, devices: seq<Device>)
    ensures forall c :: c in Arrange(a, order).cards <==> c in a.cards
    ensures forall i | 0 <= i < |devices| && Shows(a, devices[i]) :: Shows(Arrange(a, order), devices[i])
  {
    if multiset(order) == multiset(a.cards) {
      forall c ensures c in order <==> c in a.cards {
        assert c in multiset(order) <==> c in multiset(a.cards);
      }
      forall i | 0 <= i < |devices| && Shows(a, devices[i]) ensures Shows(Arrange(a, order), devices[i]) {
        var k :| 0 <= k < |a.cards| && Known(a, a.cards[k]) && a.heap[a.cards[k]].device == devices[i];
        assert a.cards[k] in order;
        var m :| 0 <= m < |order| && order[m] == a.cards[k];
        assert Known(Arrange(a, order), Arrange(a, order).cards[m]);
      }
    }
  }

  // ---------------------------------------------------------------- what becomes of each card

  /** The new version is woken as the shown one, and does not take the wake away. */
  predicate SameSetup(shown: Device, device: Device) {
    SameWake(shown, device) && (device.wake.capability.Disabled? ==> shown.wake.capability.Disabled?)
  }

  /** A card takes over a new version: what it shows stays under the same setup, and is forgotten and overtaken otherwise. */
  predicate TakesOver(before: Card, after: Card, device: Device) {
    && after.device == device && after.isWaking == before.isWaking
    && if SameSetup(before.device, device)
       then after.state == before.state && after.detail == before.detail && after.generation == before.generation
       else
         && after.state == Unknown && after.detail == "Configuration changed; awaiting a live status check."
         && after.generation == before.generation + 1
  }

  predicate IsNew(card: Card) {
    card.state == Unknown && card.detail == "Awaiting a live status check." && !card.isWaking && card.generation == 0
  }

  /** A wake of the device that is registered has been asked to stop. */
  predicate AskedToStop(a: Activity, id: Guid) {
    id in a.waking && a.waking[id] in a.operations ==> a.operations[a.waking[id]].cancelRequested
  }

  /** The registry stays, and no request to stop is taken back. */
  ghost predicate KeepsAsking(a: Activity, b: Activity) {
    && b.waking == a.waking && b.operations.Keys == a.operations.Keys
    && forall o | o in a.operations ::
         b.operations[o] == a.operations[o] || b.operations[o] == a.operations[o].(cancelRequested := true)
  }

  /** A removed card: overtaken, and otherwise as it was. */
  predicate Overtaken(before: Card, after: Card) {
    after == before.(generation := after.generation) && after.generation > before.generation
  }

  lemma {:induction false} KeepsAskingTransitive(a: Activity, b: Activity, c: Activity)
    requires KeepsAsking(a, b) && KeepsAsking(b, c)
    ensures KeepsAsking(a, c)
    ensures forall id | AskedToStop(b, id) :: AskedToStop(c, id)
  {
  }

  lemma RemovedCard(a: Activity, c: CardRef)
    requires Known(a, c)
    ensures var b := RemoveCard(a, c);
            && KeepsAsking(a, b) && |b.heap| == |a.heap| && AskedToStop(b, IdOf(a, c))
            && (forall x: CardRef | Known(a, x) && x != c :: b.heap[x] == a.heap[x])
            && Overtaken(a.heap[c], b.heap[c])
  {
  }

  ghost predicate Removed(a: Activity, b: Activity, gone: seq<CardRef>)
    requires forall i | 0 <= i < |gone| :: Known(a, gone[i])
  {
    && KeepsAsking(a, b) && |b.heap| == |a.heap|
    && (forall c: CardRef | Known(a, c) && c !in gone :: b.heap[c] == a.heap[c])
    && (forall c | c in gone :: Overtaken(a.heap[c], b.heap[c]) && AskedToStop(b, IdOf(a, c)))
  }

  lemma OvertakenTransitive(x: Card, y: Card, z: Card)
    requires Overtaken(x, y) || x == y
    requires Overtaken(y, z)
    ensures Overtaken(x, z)
  {
  }

  lemma {:induction false} RemovedCards(a: Activity, gone: seq<CardRef>)
    requires forall i | 0 <= i < |gone| :: Known(a, gone[i])
    ensures Removed(a, RemoveCards(a, gone), gone)
  {
    hide KeepsAsking, AskedToStop, Overtaken, RemoveCard;
    if gone == [] {
      KeepsAskingSelf(a);
    } else {
      var front, last := gone[..|gone| - 1], gone[|gone| - 1];
      assert Known(a, last);
      RemovedCards(a, front);
      var mid := RemoveCards(a, front);
      RemovedCard(mid, last);
      var b := RemoveCards(a, gone);
      KeepsAskingTransitive(a, mid, b);
      assert gone == front + [last];
      SameId(a, mid, front, last);
      forall c | c in gone ensures Overtaken(a.heap[c], b.heap[c]) && AskedToStop(b, IdOf(a, c)) {
        if c == last {
          OvertakenTransitive(a.heap[c], mid.heap[c], b.heap[c]);
        }
      }
    }
  }

  lemma SameId(a: Activity, b: Activity, gone: seq<CardRef>, c: CardRef)
    requires (forall i | 0 <= i < |gone| :: Known(a, gone[i])) && Removed(a, b, gone) && Known(a, c)
    ensures IdOf(b, c) == IdOf(a, c)
  {
    hide KeepsAsking, AskedToStop;
  }

  /** One version is taken over by the card of its device, or shown by a new card; no other card changes. */
  ghost predicate TakenOver(a: Activity, b: Activity, device: Device)
    requires CardsKnown(a)
  {
    && KeepsAsking(a, b) && |a.heap| <= |b.heap| <= |a.heap| + 1
    && (forall c | 0 <= c < |a.heap| && !(c in a.cards && IdOf(a, c) == device.id) :: b.heap[c] == a.heap[c])
    && (forall c | c in a.cards && IdOf(a, c) == device.id ::
          TakesOver(a.heap[c], b.heap[c], device) && (SameSetup(a.heap[c].device, device) || AskedToStop(b, device.id)))
    && (|b.heap| > |a.heap| ==> IsNew(b.heap[|a.heap|]) && b.heap[|a.heap|].device == device)
    && (|b.heap| > |a.heap| ==> forall c | c in a.cards :: IdOf(a, c) != device.id)
    && b.cards == a.cards + if |b.heap| > |a.heap| then [|a.heap|] else []
  }

  lemma ShowDeviceTakesOver(a: Activity, device: Device)
    requires CardsKnown(a) && Distinct(a, a.cards)
    ensures TakenOver(a, ShowDevice(a, device), device)
  {
    hide FirstCard, SameWake, CancelWake, KeepsAsking, AskedToStop, TakesOver;
    var found := FirstCard(a, a.cards, device.id);
    KeepsAskingSelf(a);
    if found.Some? {
      OnlyCardOf(a, found.value, device.id);
      CancelKeepsAsking(a, found.value);
      RenewedTakesOver(a.heap[found.value], device);
      HeapIsIrrelevant(a, CancelWake(a, found.value), ShowDevice(a, device));
      HeapIsIrrelevant(a, a, ShowDevice(a, device));
    } else {
      HeapIsIrrelevant(a, a, ShowDevice(a, device));
    }
  }

  lemma RenewedTakesOver(card: Card, device: Device)
    ensures TakesOver(card, Renewed(card, device), device)
    ensures Reconfigures(card.device, device) || SameSetup(card.device, device)
  {
    hide SameWake;
  }

  lemma CancelKeepsAsking(a: Activity, c: CardRef)
    requires Known(a, c)
    ensures KeepsAsking(a, CancelWake(a, c)) && AskedToStop(CancelWake(a, c), IdOf(a, c))
  {
  }

  lemma HeapIsIrrelevant(a: Activity, b: Activity, c: Activity)
    requires KeepsAsking(a, b)
    ensures c.operations == b.operations && c.waking == b.waking ==>
              KeepsAsking(a, c) && forall id | AskedToStop(b, id) :: AskedToStop(c, id)
  {
  }

  lemma OnlyCardOf(a: Activity, c: CardRef, id: Guid)
    requires CardsKnown(a) && Distinct(a, a.cards) && c in a.cards && IdOf(a, c) == id
    ensures forall x | x in a.cards && IdOf(a, x) == id :: x == c
  {
  }

  /** What the card of each device shows in the end. */
  ghost predicate AllTakenOver(a: Activity, b: Activity, devices: seq<Device>)
    requires CardsKnown(a)
  {
    && KeepsAsking(a, b) && |a.heap| <= |b.heap|
    && (forall c | 0 <= c < |a.heap| && !(c in a.cards && Mentions(devices, IdOf(a, c))) :: b.heap[c] == a.heap[c])
    && (forall c, i | c in a.cards && 0 <= i < |devices| && IdOf(a, c) == devices[i].id ::
          TakesOver(a.heap[c], b.heap[c], devices[i])
          && (SameSetup(a.heap[c].device, devices[i]) || AskedToStop(b, devices[i].id)))
    && (forall c | |a.heap| <= c < |b.heap| :: IsNew(b.heap[c]))
    && (forall c | c in b.cards :: c in a.cards || c >= |a.heap|)
  }

  lemma {:induction false} ShowDevicesTakeOver(a: Activity, devices: seq<Device>)
    requires CardsKnown(a) && Distinct(a, a.cards) && DistinctIds(devices)
    ensures AllTakenOver(a, ShowDevices(a, devices), devices)
  {
    hide ShowDevice, SameSetup, AskedToStop, Shows, KeepsAsking;
    if devices == [] {
      KeepsAskingSelf(a);
    } else {
      var n := |devices| - 1;
      var front, last := devices[..n], devices[n];
      ShowDevicesTakeOver(a, front);
      ShowDevicesShow(a, front);
      var mid := ShowDevices(a, front);
      ShowDeviceTakesOver(mid, last);
      OneMoreTakenOver(a, mid, ShowDevice(mid, last), front, last, devices);
    }
  }

  lemma KeepsAskingSelf(a: Activity)
    ensures KeepsAsking(a, a)
  {
  }

  lemma OneMoreTakenOver(a: Activity, mid: Activity, b: Activity, front: seq<Device>, last: Device, devices: seq<Device>)
    requires CardsKnown(a) && CardsKnown(mid) && devices == front + [last] && DistinctIds(devices)
    requires AllTakenOver(a, mid, front) && TakenOver(mid, b, last) && SameIds(a, mid)
    requires forall c | c in a.cards :: c in mid.cards
    requires forall c | c in mid.cards && c !in a.cards :: Mentions(front, IdOf(mid, c))
    ensures AllTakenOver(a, b, devices)
  {
    hide TakesOver, SameSetup, AskedToStop, IsNew, KeepsAsking;
    KeepsAskingTransitive(a, mid, b);
    NotInFront(front, last, devices);
    forall c | |a.heap| <= c < |b.heap| ensures IsNew(b.heap[c]) {
      if c < |mid.heap| {
        assert !(c in mid.cards && IdOf(mid, c) == last.id);
      }
    }
    forall c | 0 <= c < |a.heap| && !(c in a.cards && Mentions(devices, IdOf(a, c))) ensures b.heap[c] == a.heap[c] {
      NotMentioned(front, last, devices, IdOf(a, c));
    }
    forall c, i | c in a.cards && 0 <= i < |devices| && IdOf(a, c) == devices[i].id
      ensures TakesOver(a.heap[c], b.heap[c], devices[i])
      ensures SameSetup(a.heap[c].device, devices[i]) || AskedToStop(b, devices[i].id)
    {
      if i < |front| {
        assert front[i] == devices[i] && devices[i].id != devices[|front|].id;
      }
    }
  }

  lemma NotMentioned(front: seq<Device>, last: Device, devices: seq<Device>, id: Guid)
    requires devices == front + [last]
    ensures Mentions(devices, id) <==> Mentions(front, id) || last.id == id
  {
    assert devices[|front|] == last;
    assert forall i | 0 <= i < |front| :: front[i] == devices[i];
  }

  lemma NotInFront(front: seq<Device>, last: Device, devices: seq<Device>)
    requires devices == front + [last] && DistinctIds(devices)
    ensures !Mentions(front, last.id)
  {
    assert forall i | 0 <= i < |front| :: front[i] == devices[i] && devices[i].id != devices[|front|].id;
  }

  /**
   * What `Synchronize` leaves each card with. A card whose device is still there takes over the new version: under the same setup
   * it goes on showing what it showed, otherwise it shows Unknown, is overtaken, and its wake is asked to stop. A new card awaits
   * its first check. The card of a device that is gone is overtaken and its wake is asked to stop. Other cards are not touched.
   */
  lemma SynchronizeTakesOver(a: Activity, devices: seq<Device>, order: seq<CardRef>)
    requires Inv(a) && CardsKnown(a) && DistinctIds(devices)
    ensures SynchronizedTo(a, Synchronize(a, devices, order), devices)
  {
    hide AllTakenOver, Removed, SynchronizedTo, Consistent;
    var gone := Missing(a, a.cards, devices);
    forall i | 0 <= i < |gone| ensures Known(a, gone[i]) {
      assert gone[i] in gone;
    }
    RemovedExactly(a, gone);
    RemovedCards(a, gone);
    RemoveCardsKeep(a, gone);
    var kept := RemoveCards(a, gone);
    assert CardsKnown(kept) && Distinct(kept, kept.cards) by {
      ConsistentIsDistinct(kept);
    }
    ShowDevicesTakeOver(kept, devices);
    var shown := ShowDevices(kept, devices);
    hide ShowDevices, RemoveCards, Missing;
    BothPasses(a, kept, shown, devices, gone);
    ArrangedIsSame(a, shown, order, devices);
  }

  lemma ConsistentIsDistinct(a: Activity)
    requires Consistent(a)
    ensures CardsKnown(a) && Distinct(a, a.cards)
  {
  }

  ghost predicate SynchronizedTo(a: Activity, b: Activity, devices: seq<Device>)
    requires CardsKnown(a)
  {
    && KeepsAsking(a, b) && |a.heap| <= |b.heap|
    && (forall c, i | c in a.cards && 0 <= i < |devices| && IdOf(a, c) == devices[i].id ::
          TakesOver(a.heap[c], b.heap[c], devices[i])
          && (SameSetup(a.heap[c].device, devices[i]) || AskedToStop(b, devices[i].id)))
    && (forall c | c in a.cards && !Mentions(devices, IdOf(a, c)) ::
          Overtaken(a.heap[c], b.heap[c]) && AskedToStop(b, IdOf(a, c)))
    && (forall c | c in b.cards && c !in a.cards :: c >= |a.heap|)
    && (forall c | |a.heap| <= c < |b.heap| :: IsNew(b.heap[c]))
    && (forall c | 0 <= c < |a.heap| && c !in a.cards :: b.heap[c] == a.heap[c])
  }

  lemma BothPasses(a: Activity, kept: Activity, shown: Activity, devices: seq<Device>, gone: seq<CardRef>)
    requires CardsKnown(a) && CardsKnown(kept) && forall i | 0 <= i < |gone| :: Known(a, gone[i])
    requires Removed(a, kept, gone) && AllTakenOver(kept, shown, devices)
    requires forall c :: c in kept.cards <==> c in a.cards && c !in gone
    requires forall c | c in gone :: c in a.cards && Known(a, c) && !Mentions(devices, IdOf(a, c))
    requires forall c | c in a.cards && !Mentions(devices, IdOf(a, c)) :: c in gone
    ensures SynchronizedTo(a, shown, devices)
  {
    hide TakesOver, SameSetup, AskedToStop, IsNew, KeepsAsking, Overtaken;
    KeepsAskingTransitive(a, kept, shown);
    forall c, i | c in a.cards && 0 <= i < |devices| && IdOf(a, c) == devices[i].id ensures c !in gone {
      assert Mentions(devices, IdOf(a, c));
    }
  }

  lemma ArrangedIsSame(a: Activity, b: Activity, order: seq<CardRef>, devices: seq<Device>)
    requires CardsKnown(a) && SynchronizedTo(a, b, devices)
    ensures SynchronizedTo(a, Arrange(b, order), devices)
  {
    hide TakesOver, SameSetup, IsNew, Overtaken;
    ArrangeShows(b, order, devices);
  }
}
