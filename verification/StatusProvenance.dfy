/** Where the stored state of a device comes from, over whole runs of the repository. */
module StatusProvenance {
  import opened Prelude
  import opened Devices
  import opened InventoryRules
  import opened DeviceRepository

  /** The operation is an observation that was applied to `id`, and `d` shows what it observed of the target `d` has. */
  ghost predicate Observed(rules: Rules, t: Table, op: Op, id: Guid, d: Device) {
    && op.Observe? && op.expected.id == id && Step(rules, t, op).1.Applied? && SameStatus(op.expected, d)
    && d.lastKnownState == op.observation.state && d.lastChecked == Some(op.observation.checkedAt)
  }

  /** The operation stored `id` as a new device, with the target and the status of `d`. */
  ghost predicate Inserted(rules: Rules, t: Table, op: Op, id: Guid, d: Device) {
    && op.Save? && op.device.id == id && id !in t && Step(rules, t, op).1.Saved? && rules.validate(op.device).Ok?
    && var n := rules.validate(op.device).value;
    SameStatus(n, d) && n.lastKnownState == d.lastKnownState && n.lastChecked == d.lastChecked
  }

  /** Something is known of the device. */
  predicate Probed(d: Device) {
    d.lastKnownState != Unknown || d.lastChecked.Some?
  }

  /** Up to operation `m` the device keeps the target and the status it has after operation `k`. */
  ghost predicate Kept(rules: Rules, ops: seq<Op>, k: nat, m: nat, id: Guid, d: Device)
    requires m <= |ops|
  {
    forall j | k < j <= m :: StatusOf(Before(rules, ops, j), id, d)
  }

  predicate StatusOf(t: Table, id: Guid, d: Device) {
    && id in t && SameStatus(t[id].document, d)
    && t[id].document.lastKnownState == d.lastKnownState && t[id].document.lastChecked == d.lastChecked
  }

  /** One operation observes or inserts the status, or leaves it, or nothing is known any more. */
  lemma StatusStep(rules: Rules, t: Table, op: Op, id: Guid)
    requires Inv(rules, t) && id in Step(rules, t, op).0 && Probed(Step(rules, t, op).0[id].document)
    ensures var d := Step(rules, t, op).0[id].document;
            Observed(rules, t, op, id, d) || Inserted(rules, t, op, id, d) || StatusOf(t, id, d)
  {
    hide SaveStep, ObserveStep, DeleteStep, SameStatus, SameWake;
    match op
    case Save(device, cancel) =>
      if Step(rules, t, op).1.Saved? {
        SaveStores(rules, t, device, cancel);
        SavedIff(rules, t, device, cancel);
        var d := Step(rules, t, op).0[id].document;
        SameTarget(d, d);
        if device.id == id {
          RecordKeepsTarget(rules.validate(device).value, d);
          if id in t && SameStatus(t[id].document, rules.validate(device).value) {
            TargetTransitive(t[id].document, rules.validate(device).value, d);
          }
        }
      } else {
        SavedIff(rules, t, device, cancel);
        SameTarget(t[id].document, t[id].document);
      }
    case Observe(expected, o, v, cancel) =>
      ObservationStores(t, expected, o, v, cancel);
      if Step(rules, t, op).1.Applied? && expected.id == id {
        RecordKeepsTarget(t[id].document, Step(rules, t, op).0[id].document);
        SameTarget(t[id].document, expected);
        TargetTransitive(expected, t[id].document, Step(rules, t, op).0[id].document);
      } else {
        SameTarget(t[id].document, t[id].document);
      }
    case Delete(x, cancel) =>
      DeletionRemoves(t, x, cancel);
      SameTarget(t[id].document, t[id].document);
  }

  lemma SameTarget(d: Device, e: Device)
    ensures SameStatus(d, d) && (SameStatus(d, e) ==> SameStatus(e, d))
  {
  }

  lemma TargetTransitive(d: Device, e: Device, f: Device)
    requires SameStatus(d, e) && SameStatus(e, f)
    ensures SameStatus(d, f)
  {
  }

  lemma RecordKeepsTarget(d: Device, e: Device)
    requires d == e || SameRecord(d, e)
    ensures SameStatus(d, e)
  {
  }

  /**
   * Every stored status was observed of the very target that is stored now, or came with the insert of the device; and since then
   * neither the target nor the status has changed.
   */
  lemma {:induction false} StatusHasOrigin(rules: Rules, ops: seq<Op>, m: nat, id: Guid) returns (k: nat)
    requires m <= |ops| && id in Before(rules, ops, m) && Probed(Before(rules, ops, m)[id].document)
    ensures k < m
    ensures var d := Before(rules, ops, m)[id].document;
            && (Observed(rules, Before(rules, ops, k), ops[k], id, d) || Inserted(rules, Before(rules, ops, k), ops[k], id, d))
            && Kept(rules, ops, k, m, id, d)
    decreases m
  {
    hide Step, Observed, Inserted, SameStatus, Probed, Inv;
    assert m > 0;
    var t, d := Before(rules, ops, m - 1), Before(rules, ops, m)[id].document;
    BeforeNext(rules, ops, m - 1);
    ReachableTablesKeepIdentity(rules, ops[..m - 1], ops[m - 1]);
    StatusStep(rules, t, ops[m - 1], id);
    SameTarget(d, d);
    if Observed(rules, t, ops[m - 1], id, d) || Inserted(rules, t, ops[m - 1], id, d) {
      k := m - 1;
    } else {
      var e := t[id].document;
      ProbedAlike(e, d);
      k := StatusHasOrigin(rules, ops, m - 1, id);
      OriginAlike(rules, Before(rules, ops, k), ops[k], id, e, d);
      forall j | k < j < m ensures StatusOf(Before(rules, ops, j), id, d) {
        assert StatusOf(Before(rules, ops, j), id, e);
        TargetTransitive(Before(rules, ops, j)[id].document, e, d);
      }
    }
  }

  lemma ProbedAlike(e: Device, d: Device)
    requires e.lastKnownState == d.lastKnownState && e.lastChecked == d.lastChecked
    ensures Probed(e) <==> Probed(d)
  {
  }

  lemma OriginAlike(rules: Rules, t: Table, op: Op, id: Guid, e: Device, d: Device)
    requires SameStatus(e, d) && e.lastKnownState == d.lastKnownState && e.lastChecked == d.lastChecked
    ensures Observed(rules, t, op, id, e) ==> Observed(rules, t, op, id, d)
    ensures Inserted(rules, t, op, id, e) ==> Inserted(rules, t, op, id, d)
  {
    hide Step;
  }

  /** What is stored of a device leads back to what was observed of the target stored now, or to its insert. */
  lemma StoredStatusWasObserved(rules: Rules, ops: seq<Op>, id: Guid) returns (k: nat)
    requires id in Run(rules, ops) && Probed(Run(rules, ops)[id].document)
    ensures k < |ops|
    ensures var d := Run(rules, ops)[id].document;
            && (Observed(rules, Before(rules, ops, k), ops[k], id, d) || Inserted(rules, Before(rules, ops, k), ops[k], id, d))
            && Kept(rules, ops, k, |ops|, id, d)
  {
    hide Run, Observed, Inserted, Kept;
    assert ops[..|ops|] == ops;
    k := StatusHasOrigin(rules, ops, |ops|, id);
  }
}
