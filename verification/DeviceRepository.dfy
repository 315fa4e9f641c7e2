/**
 * `SqliteDeviceRepository`: the device table as a state machine. Each operation is one atomic transaction;
 * a document is stored next to the columns the unique indexes look at.
 */
module DeviceRepository {
  import opened Prelude
  import opened Text
  import opened Devices
  import opened InventoryRules
  import DeviceRules

  datatype Row = Row(name: string, hostname: string, ipv4: string, mac: string, document: Device)

  type Table = map<Guid, Row>

  /** Where the caller's token is seen to be cancelled: on entry, or just before the commit. */
  datatype Cancellation = Never | OnEntry | BeforeCommit

  datatype Op =
    | Save(device: Device, cancel: Cancellation)
    | Observe(expected: Device, observation: StatusObservation, verifyWake: bool, cancel: Cancellation)
    | Delete(id: Guid, cancel: Cancellation)

  datatype Outcome =
    | Saved | Applied(device: Device) | Ignored | Deleted
    | Invalid(error: DeviceRules.ValidationError) | Duplicate | IndexViolation | NotAnObservation | Cancelled | NotInitialized

  function RowOf(d: Device): Row {
    Row(d.displayName, d.hostname, d.ipv4, d.mac, d)
  }

  /** The three partial unique indexes of the schema, as SQLite checks them for a row stored under `id`. */
  ghost predicate IndexesAccept(t: Table, id: Guid, row: Row) {
    forall other | other in t && other != id ::
      && !(row.mac != "" && row.mac == t[other].mac)
      && !(row.hostname != "" && t[other].hostname != "" && EqualNoCase(row.hostname, t[other].hostname))
      && !(row.ipv4 != "" && row.ipv4 == t[other].ipv4)
  }

  /**
   * What every reachable table satisfies: the columns are the document's own fields, every document is
   * in normal form, and no two devices share an identity.
   */
  ghost predicate Inv(rules: Rules, t: Table) {
    && (forall id | id in t :: t[id] == RowOf(t[id].document) && t[id].document.id == id && rules.normal(t[id].document))
    && (forall a, b | a in t && b in t && a != b :: !rules.shares(t[a].document, t[b].document))
  }

  /** How a save takes over the live fields of the version it replaces. */
  function Reconcile(current: Device, n: Device): Device {
    var same := SameStatus(current, n);
    n.(lastKnownState := if same then current.lastKnownState else Unknown,
       lastChecked := if same then current.lastChecked else None,
       lastSeen := if same then current.lastSeen else None,
       wake := n.wake.(capability :=
         if n.wake.capability.Disabled? then Disabled
         else if current.wake.capability.Verified? && SameWake(current, n) then Verified
         else EnabledUnverified))
  }

  function Incoming(t: Table, n: Device): Device {
    if n.id in t then Reconcile(t[n.id].document, n) else n
  }

  ghost predicate HasDuplicate(rules: Rules, t: Table, n: Device) {
    exists id | id in t :: id != n.id && rules.shares(n, t[id].document)
  }

  ghost function SaveStep(rules: Rules, t: Table, device: Device, cancel: Cancellation): (Table, Outcome) {
    match rules.validate(device)
    case Err(e) => (t, Invalid(e))
    case Ok(n) =>
      var incoming := Incoming(t, n);
      if cancel.OnEntry? then (t, Cancelled)
      else if HasDuplicate(rules, t, incoming) then (t, Duplicate)
      else if !IndexesAccept(t, n.id, RowOf(incoming)) then (t, IndexViolation)
      else if cancel.BeforeCommit? then (t, Cancelled)
      else (t[n.id := RowOf(incoming)], Saved)
  }

  /** `current.LastChecked > observation.CheckedAt`, false when there was no check yet. */
  predicate NewerThan(checked: Option<Time>, at: Time) {
    checked.Some? && checked.value > at
  }

  /** The stored version accepts the observation made on `expected`. */
  predicate Accepts(current: Device, expected: Device, o: StatusObservation) {
    SameStatus(current, expected) && !NewerThan(current.lastChecked, o.checkedAt)
  }

  predicate Verifies(current: Device, expected: Device, o: StatusObservation, verifyWake: bool) {
    verifyWake && o.state.Online? && !current.wake.capability.Disabled? && SameWake(current, expected)
  }

  function WithObservation(current: Device, expected: Device, o: StatusObservation, verifyWake: bool): Device {
    current.(lastKnownState := o.state, lastChecked := Some(o.checkedAt),
             lastSeen := if o.state.Online? then Some(o.checkedAt) else current.lastSeen,
             wake := if Verifies(current, expected, o, verifyWake) then current.wake.(capability := Verified)
                     else current.wake)
  }

  function ObserveStep(t: Table, expected: Device, o: StatusObservation, verifyWake: bool, cancel: Cancellation)
    : (Table, Outcome)
  {
    if o.state.Waking? then (t, NotAnObservation)
    else if cancel.OnEntry? then (t, Cancelled)
    else if expected.id !in t || !Accepts(t[expected.id].document, expected, o) then (t, Ignored)
    else if cancel.BeforeCommit? then (t, Cancelled)
    else
      var updated := WithObservation(t[expected.id].document, expected, o, verifyWake);
      (t[expected.id := t[expected.id].(document := updated)], Applied(updated))
  }

  function DeleteStep(t: Table, id: Guid, cancel: Cancellation): (Table, Outcome) {
    if cancel.OnEntry? then (t, Cancelled) else (t - {id}, Deleted)
  }

  ghost function Step(rules: Rules, t: Table, op: Op): (Table, Outcome) {
    match op
    case Save(device, cancel) => SaveStep(rules, t, device, cancel)
    case Observe(expected, o, verifyWake, cancel) => ObserveStep(t, expected, o, verifyWake, cancel)
    case Delete(id, cancel) => DeleteStep(t, id, cancel)
  }

  /** The table after a whole run on a new database. */
  ghost function Run(rules: Rules, ops: seq<Op>): Table {
    if ops == [] then map[] else Step(rules, Run(rules, ops[..|ops| - 1]), ops[|ops| - 1]).0
  }

  /** The table just before operation `k`. */
  ghost function Before(rules: Rules, ops: seq<Op>, k: nat): Table
    requires k <= |ops|
  {
    Run(rules, ops[..k])
  }

  lemma BeforeNext(rules: Rules, ops: seq<Op>, m: nat)
    requires m < |ops|
    ensures Before(rules, ops, m + 1) == Step(rules, Before(rules, ops, m), ops[m]).0
  {
    hide Step;
    assert ops[..m + 1][..m] == ops[..m];
  }

  // ---------------------------------------------------------------- identity

  /** The unique indexes never reject a row the duplicate scan let through. */
  lemma IndexesAgreeWithDuplicateScan(rules: Rules, t: Table, n: Device)
    requires Inv(rules, t) && !HasDuplicate(rules, t, n)
    ensures IndexesAccept(t, n.id, RowOf(n))
  {
    hide EqualNoCase;
    forall other | other in t && other != n.id ensures !Collide(n, t[other].document) {
      assert !rules.shares(n, t[other].document);
    }
  }

  lemma SaveKeepsInv(rules: Rules, t: Table, device: Device, cancel: Cancellation)
    requires Inv(rules, t)
    ensures Inv(rules, SaveStep(rules, t, device, cancel).0)
    ensures !SaveStep(rules, t, device, cancel).1.IndexViolation?
  {
    hide IndexesAccept, SameStatus, SameWake, Collide;
    if rules.validate(device).Ok? {
      var n := rules.validate(device).value;
      var incoming := Incoming(t, n);
      assert SameRecord(n, incoming);
      if !HasDuplicate(rules, t, incoming) {
        IndexesAgreeWithDuplicateScan(rules, t, incoming);
      }
    }
  }

  lemma ObservedIsSameRecord(current: Device, expected: Device, o: StatusObservation, v: bool)
    ensures var updated := WithObservation(current, expected, o, v);
            SameRecord(current, updated) && RowOf(current).(document := updated) == RowOf(updated) && updated.id == current.id
  {
  }

  /** A document may be replaced by one of the same record. */
  lemma ReplaceKeepsInv(rules: Rules, t: Table, id: Guid, d: Device)
    requires Inv(rules, t) && id in t && SameRecord(t[id].document, d) && d.id == id
    ensures Inv(rules, t[id := RowOf(d)])
  {
    hide SameRecord, Collide;
    var current := t[id].document;
    assert rules.normal(d) by {
      assert rules.normal(current);
    }
    forall x | x in t ensures rules.shares(d, t[x].document) == rules.shares(current, t[x].document) {
    }
    forall x | x in t && x != id ensures !rules.shares(d, t[x].document) && !rules.shares(t[x].document, d) {
      assert !rules.shares(current, t[x].document);
    }
  }

  lemma ObserveKeepsInv(rules: Rules, t: Table, expected: Device, o: StatusObservation, v: bool, cancel: Cancellation)
    requires Inv(rules, t)
    ensures Inv(rules, ObserveStep(t, expected, o, v, cancel).0)
    ensures !ObserveStep(t, expected, o, v, cancel).1.IndexViolation?
  {
    hide Accepts, WithObservation, SameRecord, RowOf;
    if expected.id in t {
      var current := t[expected.id].document;
      assert t[expected.id] == RowOf(current) && current.id == expected.id;
      ObservedIsSameRecord(current, expected, o, v);
      ReplaceKeepsInv(rules, t, expected.id, WithObservation(current, expected, o, v));
    }
    hide Inv;
  }

  lemma StepKeepsInv(rules: Rules, t: Table, op: Op)
    requires Inv(rules, t)
    ensures Inv(rules, Step(rules, t, op).0)
    ensures !Step(rules, t, op).1.IndexViolation?
  {
    hide SaveStep, ObserveStep;
    match op
    case Save(device, cancel) => SaveKeepsInv(rules, t, device, cancel);
    case Observe(expected, o, v, cancel) => ObserveKeepsInv(rules, t, expected, o, v, cancel);
    case Delete(id, cancel) =>
  }

  /** Every table any run reaches satisfies the invariant, and SQLite's indexes never reject the next operation. */
  lemma {:induction false} ReachableTablesKeepIdentity(rules: Rules, ops: seq<Op>, next: Op)
    ensures Inv(rules, Run(rules, ops))
    ensures !Step(rules, Run(rules, ops), next).1.IndexViolation?
  {
    hide Step;
    if ops != [] {
      ReachableTablesKeepIdentity(rules, ops[..|ops| - 1], ops[|ops| - 1]);
      StepKeepsInv(rules, Run(rules, ops[..|ops| - 1]), ops[|ops| - 1]);
    }
    StepKeepsInv(rules, Run(rules, ops), next);
  }

  // ---------------------------------------------------------------- what each operation does

  /** A save is carried out exactly when the device is valid, nobody cancels, and no other stored device has an identity of it. */
  lemma SavedIff(rules: Rules, t: Table, device: Device, cancel: Cancellation)
    requires Inv(rules, t)
    ensures var (t', outcome) := SaveStep(rules, t, device, cancel);
            && (!outcome.Saved? ==> t' == t)
            && (outcome.Invalid? <==> rules.validate(device).Err?)
            && (rules.validate(device).Ok? ==>
                  var n := rules.validate(device).value;
                  var taken := exists id | id in t :: id != n.id && rules.shares(n, t[id].document);
                  && (outcome.Saved? <==> cancel.Never? && !taken)
                  && (outcome.Duplicate? <==> !cancel.OnEntry? && taken))
  {
    hide IndexesAccept, SameStatus, SameWake, Collide;
    if rules.validate(device).Ok? {
      var n := rules.validate(device).value;
      var incoming := Incoming(t, n);
      assert SameRecord(n, incoming);
      forall id | id in t ensures rules.shares(n, t[id].document) == rules.shares(incoming, t[id].document) {
      }
      if !HasDuplicate(rules, t, incoming) {
        IndexesAgreeWithDuplicateScan(rules, t, incoming);
      }
    }
  }

  /** The version `d` of a device takes over the live fields of `before`, which is probed in the same way. */
  predicate KeepsStatus(before: Device, d: Device) {
    d.lastKnownState == before.lastKnownState && d.lastChecked == before.lastChecked && d.lastSeen == before.lastSeen
  }

  /** Nothing is known of how the device answers. */
  predicate NeverProbed(d: Device) {
    d.lastKnownState == Unknown && d.lastChecked == None && d.lastSeen == None
  }

  /**
   * What a save stores. A new device is stored as validated. A new version of a stored one has the configuration as validated and
   * keeps what was observed if it is still probed in the same way; otherwise nothing is known of it. Its wake stays Disabled or
   * enabled as asked, and is Verified only if the old one was and is woken in the same way. No other row changes.
   */
  lemma SaveStores(rules: Rules, t: Table, device: Device, cancel: Cancellation)
    requires SaveStep(rules, t, device, cancel).1.Saved?
    ensures var t' := SaveStep(rules, t, device, cancel).0;
            var n := rules.validate(device).value;
            && n.id == device.id && t'.Keys == t.Keys + {n.id} && (forall x | x in t && x != n.id :: t'[x] == t[x])
            && t'[n.id] == RowOf(t'[n.id].document)
            && var d := t'[n.id].document;
            && (n.id !in t ==> d == n)
            && (n.id in t ==>
                  && SameRecord(n, d)
                  && (if SameStatus(t[n.id].document, n) then KeepsStatus(t[n.id].document, d) else NeverProbed(d))
                  && (d.wake.capability.Verified? <==>
                        !n.wake.capability.Disabled? && t[n.id].document.wake.capability.Verified?
                        && SameWake(t[n.id].document, n)))
  {
    hide HasDuplicate, IndexesAccept, SameWake, SameStatus;
  }

  /**
   * An observation is applied exactly when it is one, nobody cancels, and the stored device is probed as the observed one was and
   * not checked since; the document then has its state and time, a new LastSeen if it was Online, and keeps its configuration.
   */
  lemma ObservationStores(t: Table, expected: Device, o: StatusObservation, v: bool, cancel: Cancellation)
    ensures var (t', outcome) := ObserveStep(t, expected, o, v, cancel);
            var id := expected.id;
            && (outcome.Applied? <==>
                  && !o.state.Waking? && cancel.Never? && id in t && SameStatus(t[id].document, expected)
                  && (t[id].document.lastChecked.Some? ==> t[id].document.lastChecked.value <= o.checkedAt))
            && (!outcome.Applied? ==> t' == t) && (outcome.NotAnObservation? <==> o.state.Waking?)
            && (outcome.Applied? ==>
                  && t'.Keys == t.Keys && (forall x | x in t && x != id :: t'[x] == t[x])
                  && t'[id] == t[id].(document := outcome.device)
                  && SameRecord(t[id].document, outcome.device)
                  && outcome.device.lastKnownState == o.state && outcome.device.lastChecked == Some(o.checkedAt)
                  && outcome.device.lastSeen == (if o.state.Online? then Some(o.checkedAt) else t[id].document.lastSeen))
  {
    hide SameStatus, SameWake;
  }

  /** A deletion that is not cancelled takes the named row and no other. */
  lemma DeletionRemoves(t: Table, id: Guid, cancel: Cancellation)
    ensures var (t', outcome) := DeleteStep(t, id, cancel);
            && (outcome.Deleted? <==> !cancel.OnEntry?)
            && t' == (if outcome.Deleted? then map x | x in t && x != id :: t[x] else t)
  {
  }
}
