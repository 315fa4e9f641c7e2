/** How a stored device can come to carry `Verified`, over whole runs of the repository. */
module WakeProvenance {
  import opened Prelude
  import opened Text
  import opened Devices
  import opened InventoryRules
  import DeviceRules
  import opened DeviceRepository
  import Mac = MacAddress
  import Ip = Ipv4Text

  ghost predicate IsVerified(t: Table, id: Guid) {
    id in t && t[id].document.wake.capability.Verified?
  }

  /** The operation inserts `id` as a new device that already claims Verified. */
  ghost predicate InsertsVerified(rules: Rules, t: Table, op: Op, id: Guid) {
    && id !in t && op.Save? && op.device.id == id && Step(rules, t, op).1.Saved?
    && op.device.wake.capability.Verified?
  }

  /** The operation is an Online observation of `id`, made to verify a wake of exactly the stored configuration. */
  ghost predicate Earns(rules: Rules, t: Table, op: Op, id: Guid) {
    && id in t && op.Observe? && op.expected.id == id && Step(rules, t, op).1.Applied?
    && op.verifyWake && op.observation.state.Online?
    && !t[id].document.wake.capability.Disabled? && SameWake(t[id].document, op.expected)
  }

  /** A saved version that is not Disabled and, once normalised, is woken like `config`. */
  ghost predicate CompatibleVersion(rules: Rules, config: Device, device: Device) {
    var n := rules.validate(device);
    n.Ok? && !n.value.wake.capability.Disabled? && SameWake(config, n.value)
  }

  /** The operation neither deletes `id` nor saves an incompatible version of it. */
  ghost predicate Spares(rules: Rules, t: Table, op: Op, id: Guid, config: Device) {
    var outcome := Step(rules, t, op).1;
    && !(op.Delete? && op.id == id && outcome.Deleted?)
    && (op.Save? && op.device.id == id && outcome.Saved? ==> CompatibleVersion(rules, config, op.device))
  }

  /** Operation `k` made `id` Verified, and no operation after it and before `m` takes the mark away. */
  ghost predicate VerifiedBetween(rules: Rules, ops: seq<Op>, k: nat, m: nat, id: Guid)
    requires k < m <= |ops|
  {
    && (InsertsVerified(rules, Before(rules, ops, k), ops[k], id) || Earns(rules, Before(rules, ops, k), ops[k], id))
    && id in Before(rules, ops, k + 1)
    && SparedBetween(rules, ops, k, m, id, Before(rules, ops, k + 1)[id].document)
  }

  ghost predicate SparedBetween(rules: Rules, ops: seq<Op>, k: nat, m: nat, id: Guid, config: Device)
    requires m <= |ops|
  {
    forall j | k < j < m :: Spares(rules, Before(rules, ops, j), ops[j], id, config)
  }

  // ---------------------------------------------------------------- one operation

  /**
   * The only saves that leave a device Verified: a Verified insert, or a version woken like the Verified one it replaces.
   */
  lemma VerifiedAfterSave(rules: Rules, t: Table, device: Device, cancel: Cancellation, id: Guid)
    ensures var (t', outcome) := SaveStep(rules, t, device, cancel);
            IsVerified(t', id) <==>
              if outcome.Saved? && device.id == id then
                if id in t then t[id].document.wake.capability.Verified? && CompatibleVersion(rules, t[id].document, device)
                else device.wake.capability.Verified?
              else IsVerified(t, id)
  {
    hide HasDuplicate, IndexesAccept, SameWake, SameStatus;
  }

  lemma VerifiedAfterObservation(
    t: Table, expected: Device, o: StatusObservation, v: bool, cancel: Cancellation, id: Guid)
    ensures var (t', outcome) := ObserveStep(t, expected, o, v, cancel);
            IsVerified(t', id) <==>
              || IsVerified(t, id)
              || (outcome.Applied? && expected.id == id && id in t && Verifies(t[id].document, expected, o, v))
  {
    hide Accepts, SameWake;
  }

  /** A save alone never raises a stored device to Verified. */
  lemma SaveNeverRaises(rules: Rules, t: Table, device: Device, cancel: Cancellation, id: Guid)
    requires id in t && IsVerified(SaveStep(rules, t, device, cancel).0, id)
    ensures IsVerified(t, id)
  {
    VerifiedAfterSave(rules, t, device, cancel, id);
  }

  lemma VerifiedStep(rules: Rules, t: Table, op: Op, id: Guid)
    ensures IsVerified(Step(rules, t, op).0, id) <==>
              || InsertsVerified(rules, t, op, id) || Earns(rules, t, op, id)
              || (IsVerified(t, id) && Spares(rules, t, op, id, t[id].document))
  {
    hide SaveStep, ObserveStep, CompatibleVersion, SameWake;
    match op
    case Save(device, cancel) => VerifiedAfterSave(rules, t, device, cancel, id);
    case Observe(expected, o, v, cancel) => VerifiedAfterObservation(t, expected, o, v, cancel, id);
    case Delete(_, _) =>
  }

  // ---------------------------------------------------------------- whole runs

  lemma {:induction false} SparedStaysVerified(rules: Rules, ops: seq<Op>, k: nat, m: nat, id: Guid)
    requires k < m <= |ops| && VerifiedBetween(rules, ops, k, m, id)
    ensures IsVerified(Before(rules, ops, m), id)
    ensures SameWake(Before(rules, ops, k + 1)[id].document, Before(rules, ops, m)[id].document)
    decreases m
  {
    hide InsertsVerified, Earns, Before;
    if m == k + 1 {
      BeforeNext(rules, ops, k);
      VerifiedStep(rules, Before(rules, ops, k), ops[k], id);
    } else {
      var config := Before(rules, ops, k + 1)[id].document;
      SparedStaysVerified(rules, ops, k, m - 1, id);
      var t := Before(rules, ops, m - 1);
      assert Spares(rules, t, ops[m - 1], id, config);
      BeforeNext(rules, ops, m - 1);
      VerifiedStep(rules, t, ops[m - 1], id);
    }
  }

  lemma {:induction false} VerifiedHasOrigin(rules: Rules, ops: seq<Op>, m: nat, id: Guid) returns (k: nat)
    requires m <= |ops| && IsVerified(Before(rules, ops, m), id)
    ensures k < m && VerifiedBetween(rules, ops, k, m, id)
    decreases m
  {
    hide Step, InsertsVerified, Earns, Spares, CompatibleVersion;
    assert m > 0;
    var t := Before(rules, ops, m - 1);
    BeforeNext(rules, ops, m - 1);
    VerifiedStep(rules, t, ops[m - 1], id);
    k := m - 1;
    if !InsertsVerified(rules, t, ops[m - 1], id) && !Earns(rules, t, ops[m - 1], id) {
      k := VerifiedHasOrigin(rules, ops, m - 1, id);
      SparedStaysVerified(rules, ops, k, m - 1, id);
      SparesSameConfig(rules, t, ops[m - 1], id, Before(rules, ops, k + 1)[id].document, t[id].document);
    }
  }

  lemma SparesSameConfig(rules: Rules, t: Table, op: Op, id: Guid, a: Device, b: Device)
    requires SameWake(a, b)
    ensures Spares(rules, t, op, id, a) == Spares(rules, t, op, id, b)
  {
    hide Step;
  }

  /**
   * The provenance of `Verified` over every run: a stored device carries it exactly when some operation
   * inserted it Verified or verified a wake of the stored configuration by an Online observation, and since
   * then the device was not deleted and every saved version is enabled and woken in that same way.
   */
  lemma VerifiedIffEarned(rules: Rules, ops: seq<Op>, id: Guid)
    ensures IsVerified(Run(rules, ops), id) <==>
              exists k | 0 <= k < |ops| :: VerifiedBetween(rules, ops, k, |ops|, id)
  {
    hide VerifiedBetween, Run, IsVerified;
    assert ops[..|ops|] == ops;
    if IsVerified(Run(rules, ops), id) {
      var k := VerifiedHasOrigin(rules, ops, |ops|, id);
    }
    if k :| 0 <= k < |ops| && VerifiedBetween(rules, ops, k, |ops|, id) {
      SparedStaysVerified(rules, ops, k, |ops|, id);
    }
  }

  ghost predicate NoVerifiedInserts(rules: Rules, ops: seq<Op>, id: Guid) {
    forall k | 0 <= k < |ops| :: !InsertsVerified(rules, Before(rules, ops, k), ops[k], id)
  }

  /** If nobody inserts `id` already Verified, the mark was earned by an observation of the configuration stored now. */
  lemma VerifiedWasEarned(rules: Rules, ops: seq<Op>, id: Guid) returns (k: nat)
    requires NoVerifiedInserts(rules, ops, id) && IsVerified(Run(rules, ops), id)
    ensures k < |ops| && Earns(rules, Before(rules, ops, k), ops[k], id)
    ensures VerifiedBetween(rules, ops, k, |ops|, id)
    ensures SameWake(ops[k].expected, Run(rules, ops)[id].document)
  {
    hide InsertsVerified, Spares, Run, CompatibleVersion;
    assert ops[..|ops|] == ops;
    k := VerifiedHasOrigin(rules, ops, |ops|, id);
    SparedStaysVerified(rules, ops, k, |ops|, id);
    BeforeNext(rules, ops, k);
  }

  /** Without that hypothesis the claim fails: one save stores a Verified device nobody ever woke. */
  lemma VerifiedInsertNeedsNoWake(rules: Rules, device: Device)
    requires rules.normal(device) && device.wake.capability.Verified?
    ensures var ops := [Save(device, Never)];
            IsVerified(Run(rules, ops), device.id) && !Earns(rules, Before(rules, ops, 0), ops[0], device.id)
  {
    var ops := [Save(device, Never)];
    assert ops[..0] == [];
    assert Run(rules, ops[..0]) == map[];
    assert SaveStep(rules, map[], device, Never) == (map[device.id := RowOf(device)], Saved);
  }

  /** Such a device exists, whatever the platform says of hostnames. */
  function Claimed(): Device {
    Device(1, "nas", "", Ip.Format(0x0A00_0002), "02:00:00:00:00:01", Server, "", "", [],
           WakeConfiguration(Verified, "", "", 9, 3, 500, 1, 1000), DeviceState.Unknown, None, None, Icmp, 22)
  }

  lemma ClaimedIsNormal(hosts: HostRules)
    ensures Managed(hosts).normal(Claimed()) && Claimed().wake.capability.Verified?
  {
    hide Ip.Format, Ip.Parse, Mac.Normal, Mac.IsMulticast;
    var x := 0x0A00_0002;
    Ip.ParseFormat(x);
    Ip.FormatEnds(x);
    ClaimedMacIsNormal();
  }

  lemma ClaimedMacIsNormal()
    ensures Mac.Normal("02:00:00:00:00:01") && !Mac.IsMulticast("02:00:00:00:00:01")
  {
  }
}
