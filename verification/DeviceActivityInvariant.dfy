/** Every step of the live cards keeps the invariant, and every write by a check or a wake is timely. */
module DeviceActivityInvariant {
  import opened Prelude
  import opened Devices
  import opened DeviceActivity

  /** The visible cards stay valid when the cards, their devices' ids and the sweep do. */
  lemma CardsStayValid(a: Activity, b: Activity)
    requires CardsValid(a) && b.cards == a.cards && b.sweep == a.sweep && |b.heap| == |a.heap|
    requires forall c | 0 <= c < |a.heap| :: b.heap[c].device.id == a.heap[c].device.id
    ensures CardsValid(b)
  {
  }

  lemma CancelWakeKeepsInv(a: Activity, c: CardRef)
    requires Consistent(a) && Known(a, c)
    ensures var b := CancelWake(a, c);
            Consistent(b) && b.heap == a.heap && b.cards == a.cards && b.checking == a.checking
    ensures Checks(CancelWake(a, c)) == Checks(a)
  {
    hide SameStatus, CardsValid, OperationsValid, MarksValid;
    var b := CancelWake(a, c);
    CardsStayValid(a, b);
    RequestKeepsOperations(a, c);
    RequestKeepsMarks(a, c);
  }

  lemma RequestKeepsOperations(a: Activity, c: CardRef)
    requires Known(a, c) && OperationsValid(a)
    ensures OperationsValid(CancelWake(a, c))
  {
    hide SameStatus;
    forall o | o in CancelWake(a, c).operations ensures OperationValid(CancelWake(a, c), o) {
      assert OperationValid(a, o);
    }
  }

  lemma RequestKeepsMarks(a: Activity, c: CardRef)
    requires Known(a, c) && MarksValid(a)
    ensures MarksValid(CancelWake(a, c))
  {
    forall x: CardRef | Known(a, x) ensures CardValid(CancelWake(a, c), x) {
      assert CardValid(a, x);
    }
  }

  lemma NextIsFresh(a: Activity)
    requires OperationsValid(a)
    ensures a.nextOperation !in a.operations
  {
    assert a.nextOperation in a.operations ==> OperationValid(a, a.nextOperation);
  }

  lemma StartCheckKeepsInv(a: Activity, c: CardRef)
    requires Known(a, c) && Consistent(a)
    ensures Consistent(StartCheck(a, c))
    ensures |Checks(StartCheck(a, c))| <= |Checks(a)| + 1
  {
    hide SameStatus, CardsValid, OperationsValid, MarksValid;
    var b := StartCheck(a, c);
    NextIsFresh(a);
    CardsStayValid(a, b);
    CheckKeepsOperations(a, c);
    CheckKeepsMarks(a, c);
    CheckAddsOne(a, c);
  }

  lemma CheckAddsOne(a: Activity, c: CardRef)
    requires Known(a, c)
    ensures |Checks(StartCheck(a, c))| <= |Checks(a)| + 1
  {
    var all := Checks(a) + {a.nextOperation};
    assert Checks(StartCheck(a, c)) <= all;
    SubsetSize(Checks(StartCheck(a, c)), all);
  }

  lemma CheckKeepsOperations(a: Activity, c: CardRef)
    requires Known(a, c) && OperationsValid(a)
    ensures OperationsValid(StartCheck(a, c))
  {
    var b := StartCheck(a, c);
    forall o | o in b.operations ensures OperationValid(b, o) {
      assert o in a.operations ==> OperationValid(a, o);
    }
  }

  lemma CheckKeepsMarks(a: Activity, c: CardRef)
    requires Known(a, c) && MarksValid(a) && a.nextOperation !in a.operations
    ensures MarksValid(StartCheck(a, c))
  {
    forall x: CardRef | Known(a, x) ensures CardValid(StartCheck(a, c), x) {
      assert CardValid(a, x);
    }
  }

  lemma BeginWakeKeepsInv(a: Activity, c: CardRef)
    requires Inv(a) && Known(a, c)
    ensures Inv(BeginWake(a, c))
  {
    hide SameStatus, CardsValid, OperationsValid, EntriesValid, MarksValid;
    var b := BeginWake(a, c);
    NextIsFresh(a);
    CardsStayValid(a, b);
    WakeKeepsOperations(a, c);
    WakeKeepsEntries(a, c);
    WakeKeepsMarks(a, c);
    assert Checks(b) == Checks(a);
  }

  lemma WakeKeepsOperations(a: Activity, c: CardRef)
    requires Known(a, c) && OperationsValid(a)
    ensures OperationsValid(BeginWake(a, c))
  {
    var b := BeginWake(a, c);
    forall o | o in b.operations ensures OperationValid(b, o) {
      assert o in a.operations ==> OperationValid(a, o);
    }
  }

  lemma WakeKeepsEntries(a: Activity, c: CardRef)
    requires Known(a, c) && EntriesValid(a) && a.nextOperation !in a.operations
    ensures EntriesValid(BeginWake(a, c))
  {
    var b := BeginWake(a, c);
    forall id | id in b.waking ensures EntryValid(b, id) {
      assert id in a.waking ==> EntryValid(a, id);
    }
  }

  lemma WakeKeepsMarks(a: Activity, c: CardRef)
    requires Known(a, c) && MarksValid(a) && a.nextOperation !in a.operations
    ensures MarksValid(BeginWake(a, c))
  {
    var b := BeginWake(a, c);
    forall x: CardRef | Known(b, x) ensures CardValid(b, x) {
      assert CardValid(a, x);
    }
  }

  lemma FinishKeepsInv(a: Activity, o: nat)
    requires Inv(a) && Running(a, o)
    ensures Inv(Finish(a, o))
  {
    if a.operations[o].isWake {
      SetPhaseKeepsInv(a, o, Ended);
    } else {
      var b := Finish(a, o);
      ChecksShrink(a, b);
      forall p | p in b.operations ensures OperationValid(b, p) {
        assert OperationValid(a, p);
      }
      forall id | id in b.waking ensures EntryValid(b, id) {
        assert EntryValid(a, id);
      }
      forall x: CardRef | Known(b, x) ensures CardValid(b, x) {
        assert CardValid(a, x);
        if a.heap[x].isWaking {
          assert EntryValid(a, IdOf(a, x));
        }
      }
    }
  }

  lemma ChecksShrink(a: Activity, b: Activity)
    requires SweepBounded(a) && Checks(b) <= Checks(a) && b.checking == a.checking
    ensures SweepBounded(b)
  {
    SubsetSize(Checks(b), Checks(a));
  }

  lemma {:induction false} SubsetSize(s: set<nat>, t: set<nat>)
    requires s <= t
    ensures |s| <= |t|
  {
    if s != {} {
      var x :| x in s;
      SubsetSize(s - {x}, t - {x});
    }
  }

  lemma SetPhaseKeepsWaking(a: Activity, o: nat, phase: Phase)
    requires EntriesValid(a) && MarksValid(a) && Running(a, o)
    ensures EntriesValid(SetPhase(a, o, phase)) && MarksValid(SetPhase(a, o, phase))
  {
    var b := SetPhase(a, o, phase);
    forall id | id in b.waking ensures EntryValid(b, id) {
      assert EntryValid(a, id);
    }
    forall x: CardRef | Known(b, x) ensures CardValid(b, x) {
      assert CardValid(a, x);
    }
  }

  lemma SetPhaseKeepsInv(a: Activity, o: nat, phase: Phase)
    requires Inv(a) && Running(a, o)
    requires a.operations[o].isWake || phase.Probing? || phase.Applying? || phase.Committed?
    requires phase.Committed? && phase.saved.Some? ==>
               phase.saved.value.id == a.operations[o].device.id && SameStatus(phase.saved.value, a.operations[o].device)
    ensures Inv(SetPhase(a, o, phase))
  {
    hide EntriesValid, MarksValid;
    var b := SetPhase(a, o, phase);
    SetPhaseKeepsWaking(a, o, phase);
    assert Checks(b) == Checks(a);
  }

  lemma StatusTransitive(d: Device, e: Device, f: Device)
    requires SameStatus(d, e) && SameStatus(e, f)
    ensures SameStatus(d, f) && SameStatus(f, d)
  {
  }

  /** A card may show something else, provided its generation moves on or its target stays the same. */
  predicate MayReplace(shown: Card, next: Card) {
    && next.device.id == shown.device.id && next.isWaking == shown.isWaking && next.generation >= shown.generation
    && (next.generation == shown.generation ==> SameStatus(shown.device, next.device))
  }

  lemma ReplaceKeepsOperations(a: Activity, c: CardRef, card: Card)
    requires OperationsValid(a) && Known(a, c) && MayReplace(a.heap[c], card)
    ensures OperationsValid(SetCard(a, c, card))
  {
    hide SameStatus;
    var b := SetCard(a, c, card);
    forall p | p in b.operations ensures OperationValid(b, p) {
      assert OperationValid(a, p);
      if SameStatus(a.operations[p].device, a.heap[c].device) && SameStatus(a.heap[c].device, card.device) {
        StatusTransitive(a.operations[p].device, a.heap[c].device, card.device);
      }
    }
  }

  lemma ReplaceKeepsConsistent(a: Activity, c: CardRef, card: Card)
    requires Consistent(a) && Known(a, c) && MayReplace(a.heap[c], card)
    ensures Consistent(SetCard(a, c, card)) && Checks(SetCard(a, c, card)) == Checks(a)
  {
    var b := SetCard(a, c, card);
    ReplaceKeepsOperations(a, c, card);
    CardsStayValid(a, b);
    hide CardsValid, OperationsValid;
    forall id | id in b.waking ensures EntryValid(b, id) {
      assert EntryValid(a, id);
    }
    forall x: CardRef | Known(b, x) ensures CardValid(b, x) {
      assert CardValid(a, x);
    }
  }

  /** Changing what a card shows, but not its target, its generation or its waking mark, keeps the invariant. */
  lemma RepaintKeepsInv(a: Activity, c: CardRef, card: Card)
    requires Inv(a) && Known(a, c)
    requires card.generation == a.heap[c].generation && card.isWaking == a.heap[c].isWaking
    requires card.device.id == a.heap[c].device.id && SameStatus(a.heap[c].device, card.device)
    ensures Inv(SetCard(a, c, card))
  {
    hide Consistent;
    ReplaceKeepsConsistent(a, c, card);
  }

  lemma ReturnedKeepsInv(a: Activity, o: nat, observation: StatusObservation, verify: bool, detail: string)
    requires Inv(a) && Running(a, o)
    ensures Inv(Returned(a, o, observation, verify, detail))
  {
    hide Inv;
    FinishKeepsInv(a, o);
    SetPhaseKeepsInv(a, o, Applying(observation, verify, detail));
  }

  lemma CurrentIsTimely(a: Activity, o: nat)
    requires Inv(a) && Running(a, o) && IsCurrent(a, o)
    ensures Timely(WriteBy(a, o))
  {
    assert OperationValid(a, o);
  }

  lemma AfterApplyKeepsInv(a: Activity, o: nat, detail: string)
    requires Inv(a) && Running(a, o)
    ensures Inv(AfterApply(a, o, detail))
  {
    hide Inv;
    if a.operations[o].isWake {
      SetPhaseKeepsInv(a, o, Applied(detail));
    }
    FinishKeepsInv(a, o);
  }

  lemma ResumedKeepsInv(a: Activity, o: nat)
    requires Inv(a) && Running(a, o) && a.operations[o].phase.Committed?
    ensures Inv(Resumed(a, o).0) && AllTimely(Resumed(a, o).1)
  {
    hide SameStatus;
    var op := a.operations[o];
    var done := op.phase;
    assert OperationValid(a, o);
    if done.saved.Some? && IsCurrent(a, o) && op.card in a.cards {
      StatusTransitive(done.saved.value, op.device, a.heap[op.card].device);
      var shown := a.heap[op.card].(device := done.saved.value, state := done.observation.state, detail := done.detail);
      RepaintKeepsInv(a, op.card, shown);
      CurrentIsTimely(SetCard(a, op.card, shown), o);
      AfterApplyKeepsInv(SetCard(a, op.card, shown), o, done.detail);
    } else {
      AfterApplyKeepsInv(a, o, done.detail);
    }
  }

  lemma ShowResultKeepsInv(a: Activity, o: nat)
    requires Inv(a) && Running(a, o) && a.operations[o].phase.Applied?
    ensures Inv(ShowResult(a, o).0) && AllTimely(ShowResult(a, o).1)
  {
    hide Inv;
    var op := a.operations[o];
    if IsCurrent(a, o) {
      var shown := a.heap[op.card].(detail := op.phase.detail);
      RepaintKeepsInv(a, op.card, shown);
      CurrentIsTimely(SetCard(a, op.card, shown), o);
      FinishKeepsInv(SetCard(a, op.card, shown), o);
    } else {
      FinishKeepsInv(a, o);
    }
  }

  lemma ThrewKeepsInv(a: Activity, o: nat, silent: bool, detail: string)
    requires Inv(a) && Running(a, o)
    ensures Inv(Threw(a, o, silent, detail).0) && AllTimely(Threw(a, o, silent, detail).1)
  {
    hide Inv;
    var op := a.operations[o];
    var shown := a.heap[op.card].(state := Unknown, detail := detail);
    RepaintKeepsInv(a, op.card, shown);
    FinishKeepsInv(SetCard(a, op.card, shown), o);
    FinishKeepsInv(a, o);
    if IsCurrent(a, o) {
      CurrentIsTimely(SetCard(a, op.card, shown), o);
    }
  }

  lemma ProgressKeepsInv(a: Activity, o: nat, state: DeviceState, detail: string)
    requires Inv(a) && Running(a, o)
    ensures Inv(Progress(a, o, state, detail).0) && AllTimely(Progress(a, o, state, detail).1)
  {
    hide Inv;
    var op := a.operations[o];
    if IsCurrent(a, o) {
      var shown := a.heap[op.card].(state := state, detail := detail);
      RepaintKeepsInv(a, op.card, shown);
      CurrentIsTimely(SetCard(a, op.card, shown), o);
    }
  }

  lemma UnwindKeepsOperations(a: Activity, o: nat)
    requires OperationsValid(a) && Running(a, o) && a.operations[o].isWake && a.operations[o].phase.Ended?
    ensures OperationsValid(Unwind(a, o))
  {
    hide SameStatus;
    var b := Unwind(a, o);
    assert OperationValid(a, o);
    forall p | p in b.operations ensures OperationValid(b, p) {
      assert OperationValid(a, p);
    }
  }

  lemma UnwindKeepsWaking(a: Activity, o: nat)
    requires OperationsValid(a) && EntriesValid(a) && MarksValid(a)
    requires Running(a, o) && a.operations[o].isWake && a.operations[o].phase.Ended?
    ensures EntriesValid(Unwind(a, o)) && MarksValid(Unwind(a, o))
  {
    hide SameStatus;
    var b := Unwind(a, o);
    assert OperationValid(a, o);
    forall id | id in b.waking ensures EntryValid(b, id) {
      assert EntryValid(a, id);
    }
    forall x: CardRef | Known(b, x) ensures CardValid(b, x) {
      assert CardValid(a, x);
    }
  }

  lemma UnwindKeepsInv(a: Activity, o: nat)
    requires Inv(a) && Running(a, o)
    ensures Inv(Unwind(a, o))
  {
    hide OperationsValid, EntriesValid, MarksValid;
    if a.operations[o].isWake && a.operations[o].phase.Ended? {
      UnwindKeepsOperations(a, o);
      UnwindKeepsWaking(a, o);
      ChecksShrink(a, Unwind(a, o));
    }
  }

  // ---------------------------------------------------------------- sweeps

  lemma {:induction false} StartChecksKeepInv(a: Activity, batch: seq<CardRef>)
    requires Consistent(a) && forall i | 0 <= i < |batch| :: Known(a, batch[i])
    ensures var b := StartChecks(a, batch);
            Consistent(b) && b.checking == a.checking && b.sweep == a.sweep && |Checks(b)| <= |Checks(a)| + |batch|
  {
    hide Consistent;
    if batch != [] {
      var front, c := batch[..|batch| - 1], batch[|batch| - 1];
      assert Known(a, c);
      StartChecksKeepInv(a, front);
      StartCheckKeepsInv(StartChecks(a, front), c);
    }
  }

  /** Replacing the rest of the sweep by known cards keeps everything else. */
  lemma SetSweep(a: Activity, checking: bool, sweep: seq<CardRef>)
    requires Consistent(a) && forall i | 0 <= i < |sweep| :: Known(a, sweep[i])
    ensures var b := a.(checking := checking, sweep := sweep);
            Consistent(b) && Checks(b) == Checks(a)
  {
    var b := a.(checking := checking, sweep := sweep);
    forall p | p in b.operations ensures OperationValid(b, p) {
      assert OperationValid(a, p);
    }
    forall id | id in b.waking ensures EntryValid(b, id) {
      assert EntryValid(a, id);
    }
    forall x: CardRef | Known(b, x) ensures CardValid(b, x) {
      assert CardValid(a, x);
    }
  }

  lemma NextBatchKeepsInv(a: Activity)
    requires Inv(a)
    ensures CardsValid(a) && Inv(NextBatch(a))
  {
    assert CardsValid(a);
    hide Consistent;
    if a.checking && Checks(a) == {} && a.sweep != [] {
      var n := if |a.sweep| < BATCH then |a.sweep| else BATCH;
      StartChecksKeepInv(a, a.sweep[..n]);
      SetSweep(StartChecks(a, a.sweep[..n]), true, a.sweep[n..]);
    }
    SetSweep(a, false, a.sweep);
  }

  lemma CheckNowKeepsInv(a: Activity)
    requires Inv(a)
    ensures Inv(CheckNow(a)) && Inv(AbandonSweep(a))
  {
    assert CardsValid(a);
    hide Consistent;
    SetSweep(a, true, a.cards);
    SetSweep(a, false, []);
  }

  // ---------------------------------------------------------------- synchronisation

  lemma {:induction false} WithoutKeepsDistinct(a: Activity, cards: seq<CardRef>, c: CardRef)
    requires Distinct(a, cards)
    ensures Distinct(a, Without(cards, c))
  {
    if cards != [] {
      var tail := cards[1..];
      assert Distinct(a, tail);
      WithoutKeepsDistinct(a, tail, c);
      var rest := Without(tail, c);
      if cards[0] != c {
        var r := [cards[0]] + rest;
        forall j | 0 <= j < |rest| ensures rest[j] != cards[0] && IdOf(a, rest[j]) != IdOf(a, cards[0]) {
          assert rest[j] in tail;
          var k :| 0 <= k < |tail| && tail[k] == rest[j];
          assert cards[k + 1] == tail[k];
        }
        assert Distinct(a, r);
        assert Without(cards, c) == r;
      } else {
        assert Without(cards, c) == rest;
      }
    }
  }

  /** Showing other cards keeps everything but the card list. */
  lemma SetCardsKeepsRest(a: Activity, cards: seq<CardRef>)
    requires OperationsValid(a) && EntriesValid(a) && MarksValid(a)
    ensures var b := a.(cards := cards);
            OperationsValid(b) && EntriesValid(b) && MarksValid(b) && Checks(b) == Checks(a)
  {
    hide SameStatus;
    var b := a.(cards := cards);
    forall o | o in b.operations ensures OperationValid(b, o) {
      assert OperationValid(a, o);
    }
    forall id | id in b.waking ensures EntryValid(b, id) {
      assert EntryValid(a, id);
    }
    forall x: CardRef | Known(b, x) ensures CardValid(b, x) {
      assert CardValid(a, x);
    }
  }

  lemma RemoveCardKeeps(a: Activity, c: CardRef)
    requires Consistent(a) && Known(a, c)
    ensures var b := RemoveCard(a, c);
            Consistent(b) && Checks(b) == Checks(a) && b.checking == a.checking
  {
    CancelWakeKeepsInv(a, c);
    var b := CancelWake(a, c);
    var bumped := SetCard(b, c, b.heap[c].(generation := b.heap[c].generation + 1));
    hide CardsValid, OperationsValid, EntriesValid, MarksValid;
    ReplaceKeepsConsistent(b, c, b.heap[c].(generation := b.heap[c].generation + 1));
    SetCardsKeepsRest(bumped, Without(b.cards, c));
    WithoutStaysValid(bumped, c);
  }

  lemma WithoutStaysValid(a: Activity, c: CardRef)
    requires CardsValid(a)
    ensures CardsValid(a.(cards := Without(a.cards, c)))
  {
    WithoutKeepsDistinct(a, a.cards, c);
  }

  lemma {:induction false} RemoveCardsKeep(a: Activity, gone: seq<CardRef>)
    requires Consistent(a) && forall i | 0 <= i < |gone| :: Known(a, gone[i])
    ensures var b := RemoveCards(a, gone);
            Consistent(b) && Checks(b) == Checks(a) && b.checking == a.checking
  {
    hide Consistent;
    if gone != [] {
      assert Known(a, gone[|gone| - 1]);
      RemoveCardsKeep(a, gone[..|gone| - 1]);
      RemoveCardKeeps(RemoveCards(a, gone[..|gone| - 1]), gone[|gone| - 1]);
    }
  }

  lemma AddCardKeeps(a: Activity, device: Device)
    requires Consistent(a) && forall c | c in a.cards && Known(a, c) :: IdOf(a, c) != device.id
    ensures var b := a.(heap := a.heap + [NewCard(device)], cards := a.cards + [|a.heap|]);
            Consistent(b) && Checks(b) == Checks(a)
  {
    var b := a.(heap := a.heap + [NewCard(device)], cards := a.cards + [|a.heap|]);
    assert CardsValid(b) by {
      forall i | 0 <= i < |a.cards| ensures Known(a, a.cards[i]) && IdOf(a, a.cards[i]) != device.id {
        assert a.cards[i] in a.cards;
      }
      forall i | 0 <= i < |a.sweep| ensures Known(b, b.sweep[i]) {
        assert Known(a, a.sweep[i]);
      }
    }
    hide CardsValid, SameStatus;
    forall o | o in b.operations ensures OperationValid(b, o) {
      assert OperationValid(a, o);
    }
    forall id | id in b.waking ensures EntryValid(b, id) {
      assert EntryValid(a, id);
    }
    forall x: CardRef | Known(b, x) ensures CardValid(b, x) {
      assert Known(a, x) ==> CardValid(a, x);
    }
  }

  lemma ShowDeviceKeeps(a: Activity, device: Device)
    requires CardsKnown(a) && Consistent(a)
    ensures var b := ShowDevice(a, device);
            Consistent(b) && Checks(b) == Checks(a) && b.checking == a.checking
  {
    hide CardsValid, OperationsValid, EntriesValid, MarksValid;
    match FirstCard(a, a.cards, device.id)
    case None => AddCardKeeps(a, device);
    case Some(c) =>
      var card := a.heap[c];
      CancelWakeKeepsInv(a, c);
      if Reconfigures(card.device, device) {
        ReplaceKeepsConsistent(CancelWake(a, c), c,
          card.(generation := card.generation + 1, state := Unknown,
                detail := "Configuration changed; awaiting a live status check.", device := device));
      } else {
        ReplaceKeepsConsistent(a, c, card.(device := device));
      }
  }

  lemma {:induction false} ShowDevicesKeep(a: Activity, devices: seq<Device>)
    requires CardsKnown(a) && Consistent(a)
    ensures var b := ShowDevices(a, devices);
            Consistent(b) && Checks(b) == Checks(a) && b.checking == a.checking
  {
    hide Consistent;
    if devices != [] {
      ShowDevicesKeep(a, devices[..|devices| - 1]);
      ShowDeviceKeeps(ShowDevices(a, devices[..|devices| - 1]), devices[|devices| - 1]);
    }
  }

  lemma PermutedIsDistinct(cards: seq<CardRef>, order: seq<CardRef>)
    requires multiset(order) == multiset(cards)
    requires forall i, j | 0 <= i < j < |cards| :: cards[i] != cards[j]
    ensures forall i, j | 0 <= i < j < |order| :: order[i] != order[j]
    ensures forall i | 0 <= i < |order| :: order[i] in cards
  {
    forall i | 0 <= i < |order| ensures order[i] in cards {
      assert order[i] in multiset(order);
    }
    forall i, j | 0 <= i < j < |order| ensures order[i] != order[j] {
      if order[i] == order[j] {
        CountTwice(order, i, j);
        var k :| 0 <= k < |cards| && cards[k] == order[i];
        CountOnce(cards, k);
      }
    }
  }

  lemma CountTwice(s: seq<CardRef>, i: int, j: int)
    requires 0 <= i < j < |s| && s[i] == s[j]
    ensures multiset(s)[s[i]] >= 2
  {
    assert s == s[..j] + [s[j]] + s[j + 1..];
    assert s[i] in s[..j];
  }

  lemma CountOnce(s: seq<CardRef>, k: int)
    requires 0 <= k < |s| && forall i, j | 0 <= i < j < |s| :: s[i] != s[j]
    ensures multiset(s)[s[k]] == 1
  {
    assert s == s[..k] + [s[k]] + s[k + 1..];
    assert s[k] !in s[..k] && s[k] !in s[k + 1..];
  }

  lemma ArrangeKeeps(a: Activity, order: seq<CardRef>)
    requires Consistent(a)
    ensures var b := Arrange(a, order);
            Consistent(b) && Checks(b) == Checks(a) && b.checking == a.checking
  {
    hide OperationsValid, EntriesValid, MarksValid;
    SetCardsKeepsRest(a, order);
    if multiset(order) == multiset(a.cards) {
      PermutedIsDistinct(a.cards, order);
      forall i, j | 0 <= i < j < |order|
        ensures Known(a, order[i]) && Known(a, order[j]) && IdOf(a, order[i]) != IdOf(a, order[j])
      {
        var p :| 0 <= p < |a.cards| && a.cards[p] == order[i];
        var q :| 0 <= q < |a.cards| && a.cards[q] == order[j];
      }
      forall i | 0 <= i < |order| ensures Known(a, order[i]) {
        var p :| 0 <= p < |a.cards| && a.cards[p] == order[i];
      }
    }
  }

  lemma SynchronizeKeepsInv(a: Activity, devices: seq<Device>, order: seq<CardRef>)
    requires Inv(a) && CardsKnown(a)
    ensures Inv(Synchronize(a, devices, order))
  {
    var gone := Missing(a, a.cards, devices);
    forall i | 0 <= i < |gone| ensures Known(a, gone[i]) {
      assert gone[i] in gone;
    }
    RemoveCardsKeep(a, gone);
    var kept := RemoveCards(a, gone);
    assert CardsKnown(kept);
    hide Consistent;
    ShowDevicesKeep(kept, devices);
    ArrangeKeeps(ShowDevices(kept, devices), order);
  }
}
