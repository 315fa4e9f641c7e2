/** The repository object: one gate, one database, each method a transaction on its rows. */
module SqliteDeviceRepository {
  import opened Prelude
  import opened Text
  import opened Devices
  import opened DeviceRules
  import opened InventoryRules
  import opened DeviceRepository
  import Mac = MacAddress

  ghost predicate Keyed(t: Table) {
    forall id | id in t :: t[id].document.id == id
  }

  lemma InvIsKeyed(rules: Rules, t: Table)
    requires Inv(rules, t)
    ensures Keyed(t)
  {
  }

  // ---------------------------------------------------------------- the repository and its file

  /** The file, with the schema version it carries, and whether this process has initialised its repository. */
  datatype Database = Database(version: nat, table: Table, initialized: bool)

  datatype Command = Initialize(cancel: Cancellation) | Perform(op: Op)

  datatype Answer = Initialized | NewerVersion | InitializationCancelled | Performed(outcome: Outcome)

  /** How a repository that is not initialised turns an operation down. */
  ghost function Refusal(rules: Rules, op: Op): Outcome {
    match op
    case Save(device, cancel) =>
      (match rules.validate(device)
       case Err(e) => Invalid(e)
       case Ok(_) => if cancel.OnEntry? then Cancelled else NotInitialized)
    case Observe(_, o, _, cancel) =>
      if o.state.Waking? then NotAnObservation else if cancel.OnEntry? then Cancelled else NotInitialized
    case Delete(_, cancel) => if cancel.OnEntry? then Cancelled else NotInitialized
  }

  /** One call of the repository; only schema versions 0, a new file, and 1 are known. */
  ghost function Obey(rules: Rules, db: Database, c: Command): (Database, Answer) {
    match c
    case Initialize(cancel) =>
      if cancel.OnEntry? then (db, InitializationCancelled)
      else if db.version > 1 then (db, NewerVersion)
      else if db.version == 0 && cancel.BeforeCommit? then (db, InitializationCancelled)
      else (Database(1, db.table, true), Initialized)
    case Perform(op) =>
      if db.initialized then (db.(table := Step(rules, db.table, op).0), Performed(Step(rules, db.table, op).1))
      else (db, Performed(Refusal(rules, op)))
  }

  /** Before it is initialised, a repository changes nothing, and says so after the checks that need no database. */
  lemma RefusedIff(rules: Rules, db: Database, op: Op)
    requires !db.initialized
    ensures var (db', answer) := Obey(rules, db, Perform(op));
            && db' == db && answer.Performed?
            && (answer.outcome.Invalid? <==> op.Save? && rules.validate(op.device).Err?)
            && (answer.outcome.NotAnObservation? <==> op.Observe? && op.observation.state.Waking?)
            && (answer.outcome.Cancelled? ==> op.cancel.OnEntry?)
            && (answer.outcome.NotInitialized? <==>
                  !answer.outcome.Invalid? && !answer.outcome.NotAnObservation? && !op.cancel.OnEntry?)
  {
  }

  ghost function Obeyed(rules: Rules, db: Database, commands: seq<Command>): Database {
    if commands == [] then db
    else Obey(rules, Obeyed(rules, db, commands[..|commands| - 1]), commands[|commands| - 1]).0
  }

  /** An initialisation a file of this version lets through. */
  predicate Accepted(version: nat, c: Command) {
    c.Initialize? && version <= 1 && !c.cancel.OnEntry? && (version == 0 ==> !c.cancel.BeforeCommit?)
  }

  predicate SomeAccepted(version: nat, commands: seq<Command>) {
    exists k | 0 <= k < |commands| :: Accepted(version, commands[k])
  }

  /** The operations that come after an accepted initialisation. */
  function Effective(version: nat, commands: seq<Command>): seq<Op> {
    if commands == [] then [] else
      var front, last := commands[..|commands| - 1], commands[|commands| - 1];
      Effective(version, front) + if last.Perform? && SomeAccepted(version, front) then [last.op] else []
  }

  /**
   * Whatever calls a process makes on a file that an earlier one left: the table ends as the run of the operations that came
   * after an accepted initialisation, following the earlier ones. Without one, and so always on a file of a newer version,
   * every call leaves the file as it was.
   */
  lemma {:induction false} OnlyInitializedOperationsCount(
    rules: Rules, db: Database, earlier: seq<Op>, commands: seq<Command>)
    requires !db.initialized && db.table == Run(rules, earlier)
    ensures Obeyed(rules, db, commands).table == Run(rules, earlier + Effective(db.version, commands))
    ensures Obeyed(rules, db, commands).initialized <==> SomeAccepted(db.version, commands)
    ensures !SomeAccepted(db.version, commands) ==> Obeyed(rules, db, commands) == db
    ensures db.version > 1 ==> Obeyed(rules, db, commands) == db
    ensures Inv(rules, Obeyed(rules, db, commands).table)
  {
    hide Obey, Inv;
    if commands == [] {
      assert earlier + [] == earlier;
    } else {
      var front, last := commands[..|commands| - 1], commands[|commands| - 1];
      OnlyInitializedOperationsCount(rules, db, earlier, front);
      assert commands == front + [last];
      AcceptedSoFar(db.version, front, last);
      ObeyOne(rules, Obeyed(rules, db, front), last);
      var effective := earlier + Effective(db.version, front);
      if last.Perform? && SomeAccepted(db.version, front) {
        assert effective + [last.op] == earlier + Effective(db.version, commands);
      } else {
        assert effective == earlier + Effective(db.version, commands);
      }
    }
    ReachableTablesKeepIdentity(rules, earlier + Effective(db.version, commands), Delete(0, Never));
  }

  lemma ObeyOne(rules: Rules, db: Database, c: Command)
    ensures var (after, _) := Obey(rules, db, c);
            && (c.Perform? && db.initialized ==> after == db.(table := Step(rules, db.table, c.op).0))
            && (!(c.Perform? && db.initialized) ==> after.table == db.table)
            && after.initialized == (db.initialized || Accepted(db.version, c))
            && (!after.initialized ==> after == db)
  {
    hide Step, Refusal;
  }

  lemma AcceptedSoFar(version: nat, front: seq<Command>, last: Command)
    ensures SomeAccepted(version, front + [last]) <==> SomeAccepted(version, front) || Accepted(version, last)
  {
    var all := front + [last];
    if SomeAccepted(version, front) {
      var k :| 0 <= k < |front| && Accepted(version, front[k]);
      assert Accepted(version, all[k]);
    }
    if Accepted(version, last) {
      assert Accepted(version, all[|front|]);
    }
  }

  class Repository {
    const hosts: HostRules
    var version: nat
    var rows: Table
    var initialized: bool

    ghost function View(): Database
      reads this
    {
      Database(version, rows, initialized)
    }

    /** `version` and `stored` are what the file holds. */
    constructor (hosts: HostRules, version: nat, stored: Table)
      requires Inv(Managed(hosts), stored)
      ensures this.hosts == hosts && View() == Database(version, stored, false) && Inv(Managed(hosts), rows)
    {
      this.hosts := hosts;
      this.version := version;
      rows := stored;
      initialized := false;
    }

    method InitializeAsync(cancel: Cancellation) returns (answer: Answer)
      modifies this`initialized, this`version
      ensures (View(), answer) == Obey(Managed(hosts), old(View()), Initialize(cancel))
    {
      hide Managed;
      if cancel.OnEntry? {
        return InitializationCancelled;
      }
      if version > 1 {
        return NewerVersion;
      }
      if version == 0 {
        if cancel.BeforeCommit? {
          return InitializationCancelled;
        }
        version := 1;
      }
      initialized := true;
      answer := Initialized;
    }

    /** Every stored document, each once; the order of the rows does not matter to any caller here. */
    method ReadDevices() returns (records: seq<Device>)
      requires Keyed(rows)
      ensures forall id | id in rows :: rows[id].document in records
      ensures forall d | d in records :: d.id in rows && rows[d.id].document == d
    {
      records := [];
      var left := rows.Keys;
      while left != {}
        invariant left <= rows.Keys
        invariant forall id | id in rows && id !in left :: rows[id].document in records
        invariant forall d | d in records :: d.id in rows && rows[d.id].document == d
      {
        var id :| id in left;
        records := records + [rows[id].document];
        left := left - {id};
      }
    }

    /** `records.FirstOrDefault(d => d.Id == id)`. */
    method Find(records: seq<Device>, id: Guid) returns (found: Option<Device>)
      ensures found.Some? ==> found.value in records && found.value.id == id
      ensures found.None? ==> forall d | d in records :: d.id != id
    {
      for i := 0 to |records|
        invariant forall j | 0 <= j < i :: records[j].id != id
      {
        if records[i].id == id {
          return Some(records[i]);
        }
      }
      found := None;
    }

    /** The scan of the other records, by the rules that validated them. */
    method FindDuplicate(records: seq<Device>, normalized: Device, ghost n: Device) returns (reason: Option<MatchReason>)
      requires Managed(hosts).normal(normalized) && normalized.id == n.id
      requires RowOf(normalized) == RowOf(n).(document := normalized)
      requires Keyed(rows) && forall id | id in rows :: rows[id].document in records
      requires forall d | d in records :: d.id in rows && rows[d.id].document == d && Managed(hosts).normal(d)
      ensures reason.Some? <==> HasDuplicate(Managed(hosts), rows, normalized)
      ensures reason.Some? ==> exists id | id in rows :: id != n.id && Claims(n, rows[id].document, reason.value, hosts)
    {
      hide Match, Managed, Claims, Mac.Normalize, Normal, ShareIdentity, NormalizeAndValidate;
      for i := 0 to |records|
        invariant forall j | 0 <= j < i :: records[j].id == n.id || !Managed(hosts).shares(normalized, records[j])
      {
        var existing := records[i];
        assert existing in records;
        ManagedApplies(hosts, normalized, existing);
        ManagedApplies(hosts, existing, normalized);
        MatchIffShareIdentity(hosts, normalized, existing);
        MatchClaims(hosts, normalized, n, existing);
        reason := Match(hosts, normalized, existing);
        if reason.Some? {
          assert HasDuplicate(Managed(hosts), rows, normalized);
          assert existing.id in rows;
          return;
        }
      }
      reason := None;
    }

    method SaveAsync(device: Device, cancel: Cancellation) returns (outcome: Outcome, reason: Option<MatchReason>)
      requires Inv(Managed(hosts), rows)
      modifies this`rows
      ensures Inv(Managed(hosts), rows)
      ensures (View(), Performed(outcome)) == Obey(Managed(hosts), old(View()), Perform(Save(device, cancel)))
      ensures outcome.Duplicate? <==> reason.Some?
      ensures reason.Some? ==>
                var n := NormalizeAndValidate(hosts, device).value;
                exists id | id in rows :: id != n.id && Claims(n, rows[id].document, reason.value, hosts)
    {
      hide NormalizeAndValidate, HasDuplicate, IndexesAccept, Managed, Claims, SameRecord;
      reason := None;
      var validated := NormalizeAndValidate(hosts, device);
      ManagedApplies(hosts, device, device);
      if validated.Err? {
        return Invalid(validated.error), None;
      }
      var normalized := validated.value;
      if cancel.OnEntry? {
        return Cancelled, None;
      }
      if !initialized {
        return NotInitialized, None;
      }
      ghost var n := normalized;
      InvIsKeyed(Managed(hosts), rows);
      var records := ReadDevices();
      var current := Find(records, normalized.id);
      if current.Some? {
        normalized := Reconcile(current.value, normalized);
      }
      IncomingIsSameRecord(rows, n);
      assert Managed(hosts).normal(n) && SameRecord(n, normalized);
      reason := FindDuplicate(records, normalized, n);
      if reason.Some? {
        return Duplicate, reason;
      }
      SaveKeepsInv(Managed(hosts), rows, device, cancel);
      if cancel.BeforeCommit? {
        return Cancelled, None;
      }
      rows := rows[normalized.id := RowOf(normalized)];
      outcome := Saved;
    }

    method ApplyObservationAsync(expected: Device, o: StatusObservation, verifyWake: bool, cancel: Cancellation)
      returns (outcome: Outcome)
      requires Inv(Managed(hosts), rows)
      modifies this`rows
      ensures Inv(Managed(hosts), rows)
      ensures (View(), Performed(outcome))
           == Obey(Managed(hosts), old(View()), Perform(Observe(expected, o, verifyWake, cancel)))
    {
      hide Managed, SameStatus, SameWake;
      if o.state.Waking? {
        return NotAnObservation;
      }
      if cancel.OnEntry? {
        return Cancelled;
      }
      if !initialized {
        return NotInitialized;
      }
      InvIsKeyed(Managed(hosts), rows);
      ObserveKeepsInv(Managed(hosts), rows, expected, o, verifyWake, cancel);
      var records := ReadDevices();
      var found := Find(records, expected.id);
      if found.None? || !SameStatus(found.value, expected) || NewerThan(found.value.lastChecked, o.checkedAt) {
        return Ignored;
      }
      var current := found.value;
      var verified := verifyWake && o.state.Online? && !current.wake.capability.Disabled? && SameWake(current, expected);
      var updated := current.(lastKnownState := o.state, lastChecked := Some(o.checkedAt),
                              lastSeen := if o.state.Online? then Some(o.checkedAt) else current.lastSeen,
                              wake := if verified then current.wake.(capability := Verified) else current.wake);
      if cancel.BeforeCommit? {
        return Cancelled;
      }
      rows := rows[current.id := rows[current.id].(document := updated)];
      outcome := Applied(updated);
    }

    method DeleteAsync(id: Guid, cancel: Cancellation) returns (outcome: Outcome)
      requires Inv(Managed(hosts), rows)
      modifies this`rows
      ensures Inv(Managed(hosts), rows)
      ensures (View(), Performed(outcome)) == Obey(Managed(hosts), old(View()), Perform(Delete(id, cancel)))
    {
      hide Managed;
      if cancel.OnEntry? {
        return Cancelled;
      }
      if !initialized {
        return NotInitialized;
      }
      rows := rows - {id};
      outcome := Deleted;
    }
  }

  /** What the duplicate message says: `reason` names an identity the two devices really share. */
  predicate Claims(a: Device, b: Device, reason: MatchReason, rules: HostRules) {
    match reason
    case SameMac => a.mac != "" && a.mac == b.mac
    case SameHostname => a.hostname != "" && rules.EqualIgnoreCase(a.hostname, b.hostname)
    case SameIpv4 => a.ipv4 != "" && a.ipv4 == b.ipv4
  }

  lemma ManagedApplies(hosts: HostRules, d: Device, e: Device)
    ensures Managed(hosts).validate(d) == NormalizeAndValidate(hosts, d)
    ensures Managed(hosts).normal(d) == Normal(hosts, d)
    ensures Managed(hosts).shares(d, e) == ShareIdentity(hosts, d, e)
  {
    hide NormalizeAndValidate, Normal, ShareIdentity;
  }

  lemma IncomingIsSameRecord(t: Table, n: Device)
    ensures SameRecord(n, Incoming(t, n)) && RowOf(Incoming(t, n)) == RowOf(n).(document := Incoming(t, n))
    ensures Incoming(t, n).id == n.id
  {
    hide SameStatus, SameWake;
  }

  lemma MatchClaims(rules: HostRules, a: Device, n: Device, b: Device)
    requires Normal(rules, a) && Normal(rules, b) && RowOf(a) == RowOf(n).(document := a) && a.id == n.id
    ensures a.mac != "" ==> Mac.Normalize(a.mac).Ok?
    ensures b.mac != "" ==> Mac.Normalize(b.mac).Ok?
    ensures Match(rules, a, b).Some? ==> a.id != b.id && Claims(n, b, Match(rules, a, b).value, rules)
  {
    hide Normal, TrimEndDots, RawHostRules.EqualIgnoreCase, Mac.Normalize;
    NormalFieldsAreKept(rules, a);
    NormalFieldsAreKept(rules, b);
  }
}
