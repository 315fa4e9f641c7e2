/**
 * `NetworkDiscoveryService.ScanAsync` under any schedule of its workers: one call on the shared dictionary, one
 * progress report and one answer of the network are each a step, and steps of different workers interleave freely.
 */
module NetworkDiscovery {
  import opened Prelude
  import opened Text
  import opened Bits
  import opened Ipv4Text
  import opened Discovery
  import Mac = MacAddress

  datatype Neighbor = Neighbor(index: int, address: string, mac: string)

  /** How far the body of the parallel loop is for one address; the device and the merged record are its locals. */
  datatype Step =
    | Pinging | LookingUp | Resolving | Merging
    | Publishing(d: Found, named: bool)
    | Reporting(d: Found, merged: Found, named: bool)
    | Naming(d: Found)
    | Counting | Done | Stopped

  datatype Worker = Worker(step: Step, evidence: set<Evidence>, mac: Option<string>, liveAt: Option<Time>)

  /** What the network may answer; a step reads only the part it waits for. No hostname is the empty text. */
  datatype Reply = Reply(ping: bool, at: Time, mac: Option<string>, vendor: string, hostname: string)

  datatype Phase = FirstNeighbors | Scanning | LastNeighbors | Finished(scanned: nat, found: nat)

  /** `history` holds every observation published, `reports` every record passed to the progress callback. */
  datatype Scan = Scan(
    network: NetworkInterface, range: Range, phase: Phase, results: map<string, Found>, workers: map<nat, Worker>,
    completed: nat, cancelled: bool, history: seq<Found>, reports: seq<Found>)

  datatype Event =
    | Cancel
    | ReadNeighbor(n: Neighbor, vendor: string)
    | LeaveNeighbors
    | StartWorker(offset: nat, now: Time)
    | Work(offset: nat, reply: Reply)
    | StopWorker(offset: nat)
    | JoinWorkers

  predicate Blank(text: string) {
    forall i | 0 <= i < |text| :: IsSpace(text[i])
  }

  function BeginWorker(local: bool, mac: string, now: Time): Worker {
    if local then Worker(Merging, {LocalInterface}, Some(mac), Some(now)) else Worker(Pinging, {}, None, None)
  }

  function AfterPing(w: Worker, reply: Reply): Worker {
    if reply.ping then w.(step := LookingUp, evidence := w.evidence + {PingReply}, liveAt := Some(reply.at))
    else w.(step := LookingUp)
  }

  function AfterResolve(w: Worker, reply: Reply): Worker {
    if reply.mac.Some? && reply.mac.value != "" then
      w.(step := Merging, mac := reply.mac, evidence := w.evidence + {ArpResolution})
    else w.(step := Merging, mac := reply.mac)
  }

  function AfterMerge(w: Worker, address: string, known: Option<Found>, vendor: string): Worker {
    var evidence := if known.Some? then w.evidence + known.value.evidence else w.evidence;
    var mac := if known.Some? && w.mac.None? then Some(known.value.mac) else w.mac;
    if evidence == {} then w.(step := Counting)
    else w.(step := Publishing(Found(address, mac.GetOr(""), "", if mac.None? then "" else vendor, evidence, w.liveAt), false))
  }

  function AfterReport(w: Worker, d: Found, named: bool): Worker {
    w.(step := if named then Counting else Naming(d))
  }

  function AfterName(w: Worker, d: Found, hostname: string): Worker {
    w.(step := if Blank(hostname) then Counting else Publishing(d.(hostname := hostname), true))
  }

  /** What the next step does to the locals of the body; `known` is the dictionary's entry for its address. */
  function Advance(w: Worker, address: string, known: Option<Found>, cancelled: bool, reply: Reply): Worker {
    match w.step
    case Pinging => AfterPing(w, reply)
    case LookingUp =>
      if known.Some? && IsUsableMac(known.value.mac) then w.(step := Merging, mac := Some(known.value.mac))
      else w.(step := Resolving)
    case Resolving => AfterResolve(w, reply)
    case Merging => AfterMerge(w, address, known, reply.vendor)
    case Publishing(d, named) =>
      if cancelled then AfterReport(w, d, named)
      else w.(step := Reporting(d, if known.Some? then Merge(known.value, d) else d, named))
    case Reporting(d, merged, named) => AfterReport(w, d, named)
    case Naming(d) => AfterName(w, d, reply.hostname)
    case Counting => w.(step := Done)
    case Done => w
    case Stopped => w
  }

  function AddressOf(s: Scan, offset: nat): string {
    Format(AddressAt(s.range, offset))
  }

  function Lookup(results: map<string, Found>, address: string): Option<Found> {
    if address in results then Some(results[address]) else None
  }

  function AddOrUpdate(s: Scan, d: Found): Scan {
    s.(results := Published(s.results, d), history := s.history + [d])
  }

  /** `Publish`, where nothing runs beside it. */
  function Publish(s: Scan, d: Found): Scan {
    if s.cancelled then s else
      var t := AddOrUpdate(s, d);
      t.(reports := t.reports + [t.results[d.address]])
  }

  function LeaveNeighborsStep(s: Scan): Scan {
    match s.phase
    case FirstNeighbors => s.(phase := Scanning)
    case LastNeighbors => s.(phase := Finished(s.completed, |s.results|))
    case _ => s
  }

  /** One entry of the neighbour cache; a text that is not an address throws, which ends the whole pass. */
  function ReadNeighborStep(s: Scan, n: Neighbor, vendor: string): Scan {
    if n.index != s.network.index || !IsUsableMac(n.mac) then s
    else match Parse(n.address)
      case None => LeaveNeighborsStep(s)
      case Some(ip) =>
        if ip < s.range.start || ip > s.range.end then s
        else Publish(s, Found(n.address, n.mac, "", vendor, {NeighborCache}, None))
  }

  function WorkStep(s: Scan, offset: nat, reply: Reply): Scan
    requires offset in s.workers
  {
    var w := s.workers[offset];
    var address := AddressOf(s, offset);
    var next := Advance(w, address, Lookup(s.results, address), s.cancelled, reply);
    var t := s.(workers := s.workers[offset := next]);
    match w.step
    case Publishing(d, _) => if s.cancelled then t else AddOrUpdate(t, d)
    case Reporting(_, merged, _) => t.(reports := s.reports + [merged])
    case Counting => t.(completed := s.completed + 1)
    case _ => t
  }

  predicate AllDone(count: nat, workers: map<nat, Worker>) {
    forall offset: nat | offset < count :: offset in workers && workers[offset].step.Done?
  }

  function Next(s: Scan, e: Event): Scan {
    match e
    case Cancel => s.(cancelled := true)
    case ReadNeighbor(n, vendor) =>
      if s.phase.FirstNeighbors? || s.phase.LastNeighbors? then ReadNeighborStep(s, n, vendor) else s
    case LeaveNeighbors => LeaveNeighborsStep(s)
    case StartWorker(offset, now) =>
      if s.phase.Scanning? && offset < s.range.count && offset !in s.workers then
        s.(workers := s.workers[offset := BeginWorker(AddressOf(s, offset) == s.network.address, s.network.mac, now)])
      else s
    case Work(offset, reply) => if offset in s.workers then WorkStep(s, offset, reply) else s
    case StopWorker(offset) =>
      if offset in s.workers && !s.workers[offset].step.Done? && !s.workers[offset].step.Reporting? then
        s.(workers := s.workers[offset := s.workers[offset].(step := Stopped)])
      else s
    case JoinWorkers => if s.phase.Scanning? && AllDone(s.range.count, s.workers) then s.(phase := LastNeighbors) else s
  }

  function Start(network: NetworkInterface, range: Range): Scan {
    Scan(network, range, FirstNeighbors, map[], map[], 0, false, [], [])
  }

  function Run(s: Scan, events: seq<Event>): Scan
    decreases |events|
  {
    if events == [] then s else Run(Next(s, events[0]), events[1..])
  }

  // ---- What every step keeps ----

  /** A record that claims no more than was observed. */
  predicate Honest(d: Found) {
    && d.evidence != {}
    && (IsOnline(d) <==> d.liveAt.Some?)
    && (NeedsMac(d) ==> d.mac != "")
  }

  ghost predicate ResultsOk(s: Scan) {
    forall a | a in s.results :: s.results[a].address == a && Honest(s.results[a])
  }

  ghost predicate ReportsOk(s: Scan) {
    forall i | 0 <= i < |s.reports| :: Honest(s.reports[i]) && s.reports[i].address in s.results
  }

  /** An observation about to be published at `known`; what it lacks, the record it is merged into has. */
  predicate Sound(d: Found, address: string, known: Option<Found>) {
    && d.address == address && d.evidence != {}
    && (d.liveAt.Some? ==> IsOnline(d))
    && (IsOnline(d) && d.liveAt.None? ==> known.Some? && known.value.liveAt.Some?)
    && (NeedsMac(d) && d.mac == "" ==> known.Some? && known.value.mac != "")
  }

  predicate WorkerOk(w: Worker, address: string, known: Option<Found>) {
    match w.step
    case Pinging => w.evidence == {} && w.mac.None? && w.liveAt.None?
    case LookingUp => w.mac.None? && w.evidence <= {PingReply} && (w.liveAt.Some? <==> PingReply in w.evidence)
    case Resolving => w.mac.None? && w.evidence <= {PingReply} && (w.liveAt.Some? <==> PingReply in w.evidence)
    case Merging =>
      && NeighborCache !in w.evidence
      && (w.liveAt.Some? <==> PingReply in w.evidence || LocalInterface in w.evidence)
      && (ArpResolution in w.evidence ==> w.mac.Some? && w.mac.value != "")
    case Publishing(d, _) => Sound(d, address, known)
    case Reporting(d, merged, _) => Sound(d, address, known) && known == Some(merged)
    case Naming(d) => Sound(d, address, known)
    case Counting => true
    case Done => true
    case Stopped => true
  }

  ghost predicate WorkersOk(s: Scan) {
    forall o | o in s.workers ::
      o < s.range.count && WorkerOk(s.workers[o], AddressOf(s, o), Lookup(s.results, AddressOf(s, o)))
  }

  /** The evidence of an address is the union of everything published for it. */
  ghost predicate EvidenceOk(s: Scan) {
    && (forall i | 0 <= i < |s.history| ::
          s.history[i].address in s.results && s.history[i].evidence <= s.results[s.history[i].address].evidence)
    && (forall a, e | a in s.results && e in s.results[a].evidence :: Witnessed(s.history, a, e))
  }

  ghost predicate Witnessed(history: seq<Found>, address: string, e: Evidence) {
    exists i :: 0 <= i < |history| && history[i].address == address && e in history[i].evidence
  }

  /** The latest report of each address: what a display that keeps one row per address shows. */
  function Shown(reports: seq<Found>): map<string, Found> {
    if reports == [] then map[]
    else Shown(reports[..|reports| - 1])[reports[|reports| - 1].address := reports[|reports| - 1]]
  }

  ghost predicate Held(s: Scan, address: string) {
    exists o :: o in s.workers && s.workers[o].step.Reporting? && AddressOf(s, o) == address
  }

  ghost predicate ShownOk(s: Scan) {
    && (forall a | a in Shown(s.reports) :: a in s.results)
    && (forall a | a in s.results && !Held(s, a) :: a in Shown(s.reports) && Shown(s.reports)[a] == s.results[a])
  }

  predicate InRange(range: Range, address: string) {
    Parse(address).Some? && range.start <= Parse(address).value <= range.end
  }

  ghost predicate KeysOk(s: Scan) {
    forall a | a in s.results :: InRange(s.range, a)
  }

  ghost predicate CanonicalKeys(s: Scan) {
    forall a | a in s.results :: Canonical(a)
  }

  ghost predicate PhaseOk(s: Scan) {
    match s.phase
    case FirstNeighbors => s.workers == map[]
    case Scanning => true
    case LastNeighbors => AllDone(s.range.count, s.workers)
    case Finished(scanned, found) => AllDone(s.range.count, s.workers) && scanned == s.completed && found == |s.results|
  }

  function DoneWorkers(workers: map<nat, Worker>): set<nat> {
    set o | o in workers && workers[o].step.Done?
  }

  ghost predicate CountOk(s: Scan) {
    s.completed == |DoneWorkers(s.workers)|
  }

  /** A range as `Discovery.Validate` returns it. */
  ghost predicate GoodRange(range: Range) {
    range.start <= range.end && range.count == range.end - range.start + 1
  }

  ghost predicate Inv(s: Scan) {
    && GoodRange(s.range)
    && ResultsOk(s) && ReportsOk(s) && WorkersOk(s) && EvidenceOk(s) && ShownOk(s) && KeysOk(s) && PhaseOk(s) && CountOk(s)
  }

  /** Nothing known about an address is ever forgotten. */
  predicate Keeps(before: Found, after: Found) {
    && before.evidence <= after.evidence
    && (before.mac != "" ==> after.mac != "")
    && (before.hostname != "" ==> after.hostname != "")
    && (before.vendor != "" ==> after.vendor != "")
    && (before.liveAt.Some? ==> after.liveAt.Some?)
  }

  ghost predicate Grew(before: map<string, Found>, after: map<string, Found>) {
    forall a | a in before :: a in after && Keeps(before[a], after[a])
  }

  // ---- One observation ----

  /** The record an observation leaves behind. */
  function Merged(known: Option<Found>, d: Found): Found {
    if known.Some? then Merge(known.value, d) else d
  }

  ghost predicate KnownOk(known: Option<Found>, address: string) {
    known.Some? ==> known.value.address == address && Honest(known.value)
  }

  ghost predicate KeepsOption(before: Option<Found>, after: Option<Found>) {
    before.Some? ==> after.Some? && Keeps(before.value, after.value)
  }

  lemma MergedIsHonest(known: Option<Found>, d: Found, address: string)
    requires KnownOk(known, address) && Sound(d, address, known)
    ensures var m := Merged(known, d);
            && Honest(m) && m.address == address && KeepsOption(known, Some(m)) && Sound(d, address, Some(m))
            && m.evidence == d.evidence + (if known.Some? then known.value.evidence else {})
  {
  }

  /** The dictionary's entry for the worker's own address after the step. */
  function KnownAfter(w: Worker, known: Option<Found>, cancelled: bool): Option<Found> {
    if w.step.Publishing? && !cancelled then Some(Merged(known, w.step.d)) else known
  }

  lemma AdvanceOk(w: Worker, address: string, known: Option<Found>, cancelled: bool, reply: Reply)
    requires WorkerOk(w, address, known) && KnownOk(known, address)
    ensures WorkerOk(Advance(w, address, known, cancelled, reply), address, KnownAfter(w, known, cancelled))
  {
    hide IsUsableMac, Blank;
    match w.step
    case LookingUp =>
      if known.Some? && IsUsableMac(known.value.mac) {
        UsableMacIsNotEmpty(known.value.mac);
      }
    case Publishing(d, named) => MergedIsHonest(known, d, address);
    case _ =>
  }

  // ---- Addresses ----

  lemma AddressesDiffer(s: Scan, o: nat, p: nat)
    requires GoodRange(s.range) && o < s.range.count && p < s.range.count && o != p
    ensures AddressOf(s, o) != AddressOf(s, p)
  {
    hide Format, Parse;
    if AddressOf(s, o) == AddressOf(s, p) {
      FormatInjective(AddressAt(s.range, o), AddressAt(s.range, p));
    }
  }

  lemma AddressInRange(s: Scan, o: nat)
    requires GoodRange(s.range) && o < s.range.count
    ensures InRange(s.range, AddressOf(s, o)) && Canonical(AddressOf(s, o))
  {
    hide Format, Parse;
    ParseFormat(AddressAt(s.range, o));
  }

  // ---- Publishing ----

  lemma PublishedIs(results: map<string, Found>, d: Found)
    ensures var after := Published(results, d);
            && after.Keys == results.Keys + {d.address}
            && (forall a | a in results && a != d.address :: after[a] == results[a])
            && after[d.address] == Merged(Lookup(results, d.address), d)
  {
  }

  ghost predicate TableOk(s: Scan) {
    ResultsOk(s) && EvidenceOk(s) && KeysOk(s) && ReportsOk(s)
  }

  lemma WitnessedLater(history: seq<Found>, d: Found, address: string, e: Evidence)
    requires Witnessed(history, address, e) || (d.address == address && e in d.evidence)
    ensures Witnessed(history + [d], address, e)
  {
    var longer := history + [d];
    if Witnessed(history, address, e) {
      var i :| 0 <= i < |history| && history[i].address == address && e in history[i].evidence;
      assert longer[i] == history[i];
    } else {
      assert longer[|history|] == d;
    }
  }

  lemma AddOrUpdateKeepsTable(s: Scan, d: Found)
    requires TableOk(s) && InRange(s.range, d.address) && Sound(d, d.address, Lookup(s.results, d.address))
    ensures var t := AddOrUpdate(s, d);
            TableOk(t) && Grew(s.results, t.results) && Honest(t.results[d.address])
  {
    hide InRange, Witnessed, Published, Honest, Sound, Merged, Keeps;
    var t := AddOrUpdate(s, d);
    PublishedIs(s.results, d);
    var known := Lookup(s.results, d.address);
    MergedIsHonest(known, d, d.address);
    assert Grew(s.results, t.results) by {
      forall a | a in s.results ensures a in t.results && Keeps(s.results[a], t.results[a]) {
        if a != d.address {
          KeepsSelf(s.results[a]);
        }
      }
    }
    AddOrUpdateKeepsEvidence(s, d);
  }

  lemma KeepsSelf(d: Found)
    ensures Keeps(d, d)
  {
  }

  lemma AddOrUpdateKeepsEvidence(s: Scan, d: Found)
    requires EvidenceOk(s) && Sound(d, d.address, Lookup(s.results, d.address))
    ensures EvidenceOk(AddOrUpdate(s, d))
  {
    hide Witnessed, Published, Honest, Sound;
    var t := AddOrUpdate(s, d);
    PublishedIs(s.results, d);
    forall a, e | a in t.results && e in t.results[a].evidence ensures Witnessed(t.history, a, e) {
      WitnessedLater(s.history, d, a, e);
    }
    forall i | 0 <= i < |t.history|
      ensures t.history[i].address in t.results && t.history[i].evidence <= t.results[t.history[i].address].evidence
    {
      if i < |s.history| {
        assert t.history[i] == s.history[i];
      } else {
        assert t.history[i] == d;
      }
    }
  }

  lemma ShownAppend(reports: seq<Found>, d: Found)
    ensures Shown(reports + [d]) == Shown(reports)[d.address := d]
  {
    assert (reports + [d])[..|reports|] == reports;
  }

  // ---- The neighbour cache: nothing runs beside it ----

  ghost predicate Quiet(s: Scan) {
    forall o | o in s.workers :: s.workers[o].step.Done?
  }

  lemma PublishKeepsInv(s: Scan, d: Found)
    requires Inv(s) && Quiet(s) && !s.phase.Finished?
    requires InRange(s.range, d.address) && Sound(d, d.address, Lookup(s.results, d.address))
    ensures Inv(Publish(s, d)) && Grew(s.results, Publish(s, d).results)
  {
    hide Inv, InRange, Published, Honest, Sound, Merged, Keeps, AddressAt, Format, Shown, EvidenceOk, WorkerOk,
      Lookup, DoneWorkers;
    InvParts(s);
    if s.cancelled {
      GrewSelf(s.results);
    } else {
      var t := AddOrUpdate(s, d);
      var u := Publish(s, d);
      AddOrUpdateKeepsTable(s, d);
      PublishedIs(s.results, d);
      ShownAppend(s.reports, t.results[d.address]);
      assert EvidenceOk(u) by {
        EvidenceIgnoresReports(t, u);
      }
      assert WorkersOk(u) by {
        QuietWorkersOk(s, u);
      }
      assert ShownOk(u) by {
        assert !exists a :: Held(s, a);
      }
      InvFrom(u);
    }
  }

  lemma QuietWorkersOk(s: Scan, t: Scan)
    requires WorkersOk(s) && Quiet(s) && t.workers == s.workers && t.range == s.range
    ensures WorkersOk(t)
  {
    hide AddressOf, Lookup;
  }

  lemma EvidenceIgnoresReports(s: Scan, t: Scan)
    requires EvidenceOk(s) && t.history == s.history && t.results == s.results
    ensures EvidenceOk(t)
  {
  }

  lemma GrewSelf(results: map<string, Found>)
    ensures Grew(results, results)
  {
  }

  /** Changing the phase or the cancellation flag alone. */
  lemma FlagsKeepInv(s: Scan, t: Scan)
    requires Inv(s) && t == s.(phase := t.phase, cancelled := t.cancelled) && PhaseOk(t)
    ensures Inv(t)
  {
    hide InRange, Witnessed, Honest, WorkerOk, AddressAt, Format, Shown, Lookup, DoneWorkers, PhaseOk;
    assert forall a | Held(s, a) :: Held(t, a) by {
      forall a | Held(s, a) ensures Held(t, a) {
        var o :| o in s.workers && s.workers[o].step.Reporting? && AddressOf(s, o) == a;
        assert o in t.workers && AddressOf(t, o) == a;
      }
    }
    EvidenceIgnoresReports(s, t);
  }

  lemma LeaveKeepsInv(s: Scan)
    requires Inv(s)
    ensures Inv(LeaveNeighborsStep(s)) && LeaveNeighborsStep(s).results == s.results
  {
    hide Inv, AllDone;
    InvParts(s);
    FlagsKeepInv(s, LeaveNeighborsStep(s));
  }

  lemma ReadNeighborKeepsInv(s: Scan, n: Neighbor, vendor: string)
    requires Inv(s) && (s.phase.FirstNeighbors? || s.phase.LastNeighbors?)
    ensures Inv(ReadNeighborStep(s, n, vendor)) && Grew(s.results, ReadNeighborStep(s, n, vendor).results)
  {
    hide Inv, Grew, Parse, IsUsableMac, Publish, LeaveNeighborsStep;
    GrewSelf(s.results);
    LeaveKeepsInv(s);
    if n.index == s.network.index && IsUsableMac(n.mac) && InRange(s.range, n.address) {
      UsableMacIsNotEmpty(n.mac);
      assert Quiet(s) by {
        InvGivesQuiet(s);
      }
      PublishKeepsInv(s, Found(n.address, n.mac, "", vendor, {NeighborCache}, None));
    }
  }

  lemma InvGivesQuiet(s: Scan)
    requires Inv(s) && !s.phase.Scanning?
    ensures Quiet(s)
  {
    hide WorkerOk, AddressOf, ShownOk, EvidenceOk, ResultsOk, ReportsOk, KeysOk, CountOk;
  }

  // ---- A worker's step ----

  lemma WorkerIsOk(s: Scan, offset: nat)
    requires ResultsOk(s) && WorkersOk(s) && GoodRange(s.range) && offset in s.workers
    ensures offset < s.range.count
    ensures WorkerOk(s.workers[offset], AddressOf(s, offset), Lookup(s.results, AddressOf(s, offset)))
    ensures KnownOk(Lookup(s.results, AddressOf(s, offset)), AddressOf(s, offset))
  {
    hide WorkerOk, AddressOf, Honest;
  }

  lemma DoneWorkIsIdle(s: Scan, offset: nat, reply: Reply)
    requires offset in s.workers && s.workers[offset].step.Done?
    ensures WorkStep(s, offset, reply) == s
  {
    assert s.workers[offset := s.workers[offset]] == s.workers;
  }

  lemma PublishingIsSound(s: Scan, offset: nat)
    requires Inv(s) && offset in s.workers && s.workers[offset].step.Publishing?
    ensures var d := s.workers[offset].step.d;
            && d.address == AddressOf(s, offset) && InRange(s.range, d.address)
            && Sound(d, d.address, Lookup(s.results, d.address))
  {
    hide Inv, AddressOf, InRange, WorkerOk, Sound, Lookup;
    InvParts(s);
    WorkerIsOk(s, offset);
    AddressInRange(s, offset);
    PublishingShape(s.workers[offset], AddressOf(s, offset), Lookup(s.results, AddressOf(s, offset)));
  }

  lemma PublishingShape(w: Worker, address: string, known: Option<Found>)
    requires WorkerOk(w, address, known) && w.step.Publishing?
    ensures w.step.d.address == address && Sound(w.step.d, address, known)
  {
  }

  lemma ReportingIsKnown(s: Scan, offset: nat)
    requires Inv(s) && offset in s.workers && s.workers[offset].step.Reporting?
    ensures var m := s.workers[offset].step.merged;
            m.address == AddressOf(s, offset) && m.address in s.results && s.results[m.address] == m && Honest(m)
  {
    hide AddressOf, ShownOk, EvidenceOk, CountOk, PhaseOk, Honest, Sound;
    WorkerIsOk(s, offset);
  }

  lemma WorkKeepsTable(s: Scan, offset: nat, reply: Reply)
    requires Inv(s) && offset in s.workers
    ensures TableOk(WorkStep(s, offset, reply)) && Grew(s.results, WorkStep(s, offset, reply).results)
  {
    hide Inv, Advance, AddressOf, InRange, Honest, Grew, AddOrUpdate, EvidenceOk, Sound, Lookup;
    InvParts(s);
    GrewSelf(s.results);
    var t := WorkStep(s, offset, reply);
    match s.workers[offset].step
    case Publishing(d, named) =>
      if s.cancelled {
        TableFrame(s, t);
      } else {
        PublishingIsSound(s, offset);
        AddOrUpdateKeepsTable(s, d);
        WorkPublishes(s, offset, reply);
        TableFrame(AddOrUpdate(s, d), t);
      }
    case Reporting(d, merged, named) =>
      ReportingIsKnown(s, offset);
      EvidenceIgnoresReports(s, t);
    case _ => TableFrame(s, t);
  }

  lemma WorkPublishes(s: Scan, offset: nat, reply: Reply)
    requires offset in s.workers && s.workers[offset].step.Publishing? && !s.cancelled
    ensures var t, u := WorkStep(s, offset, reply), AddOrUpdate(s, s.workers[offset].step.d);
            t.results == u.results && t.history == u.history && t.reports == u.reports && t.range == u.range
  {
    hide Advance, AddressOf, Published;
  }

  lemma TableFrame(s: Scan, t: Scan)
    requires TableOk(s) && t.results == s.results && t.history == s.history && t.reports == s.reports
    requires t.range == s.range
    ensures TableOk(t)
  {
    hide Honest, Witnessed, InRange;
  }

  /** Another worker's entry of the dictionary is not this one's. */
  lemma OtherEntryKept(s: Scan, offset: nat, reply: Reply, other: nat)
    requires Inv(s) && offset in s.workers && other in s.workers && other != offset
    ensures Lookup(WorkStep(s, offset, reply).results, AddressOf(s, other)) == Lookup(s.results, AddressOf(s, other))
  {
    hide Advance, ShownOk, PhaseOk, CountOk, EvidenceOk, ReportsOk, KeysOk, AddressOf, Honest, IsOnline, NeedsMac,
      Published, Merged;
    WorkerIsOk(s, offset);
    WorkerIsOk(s, other);
    AddressesDiffer(s, offset, other);
    match s.workers[offset].step
    case Publishing(d, named) => PublishedIs(s.results, d);
    case _ =>
  }

  lemma OwnEntryAfter(s: Scan, offset: nat, reply: Reply)
    requires Inv(s) && offset in s.workers
    ensures var address := AddressOf(s, offset);
            Lookup(WorkStep(s, offset, reply).results, address)
              == KnownAfter(s.workers[offset], Lookup(s.results, address), s.cancelled)
  {
    hide Advance, ShownOk, PhaseOk, CountOk, EvidenceOk, ReportsOk, KeysOk, AddressOf, Honest, IsOnline, NeedsMac,
      Published, Merged;
    WorkerIsOk(s, offset);
    match s.workers[offset].step
    case Publishing(d, named) => PublishedIs(s.results, d);
    case _ =>
  }

  lemma WorkKeepsWorkers(s: Scan, offset: nat, reply: Reply)
    requires Inv(s) && offset in s.workers
    ensures WorkersOk(WorkStep(s, offset, reply))
  {
    hide Advance, ShownOk, PhaseOk, CountOk, EvidenceOk, ReportsOk, KeysOk, Honest, WorkerOk, Published, AddressAt,
      Format, Lookup;
    var t := WorkStep(s, offset, reply);
    WorkerIsOk(s, offset);
    var address := AddressOf(s, offset);
    AdvanceOk(s.workers[offset], address, Lookup(s.results, address), s.cancelled, reply);
    OwnEntryAfter(s, offset, reply);
    forall o | o in t.workers
      ensures o < t.range.count && WorkerOk(t.workers[o], AddressOf(t, o), Lookup(t.results, AddressOf(t, o)))
    {
      if o != offset {
        OtherEntryKept(s, offset, reply, o);
        WorkerIsOk(s, o);
      }
    }
  }

  lemma AdvanceDone(w: Worker, address: string, known: Option<Found>, cancelled: bool, reply: Reply)
    ensures Advance(w, address, known, cancelled, reply).step.Done? <==> w.step.Done? || w.step.Counting?
  {
    hide IsUsableMac, Blank, Merge;
  }

  /** The part of the step that does not depend on what is published. */
  lemma WorkShape(s: Scan, offset: nat, reply: Reply)
    requires offset in s.workers
    ensures var address := AddressOf(s, offset);
            var t := WorkStep(s, offset, reply);
            && t.workers
                 == s.workers[offset := Advance(s.workers[offset], address, Lookup(s.results, address), s.cancelled, reply)]
            && t.completed == s.completed + (if s.workers[offset].step.Counting? then 1 else 0)
            && t.range == s.range && t.network == s.network && t.phase == s.phase && t.cancelled == s.cancelled
  {
    hide Advance, AddressOf, Lookup, Published;
  }

  lemma DoneWorkersUpdate(workers: map<nat, Worker>, offset: nat, w: Worker)
    ensures DoneWorkers(workers[offset := w])
              == if w.step.Done? then DoneWorkers(workers) + {offset} else DoneWorkers(workers) - {offset}
  {
  }

  lemma WorkKeepsCount(s: Scan, offset: nat, reply: Reply)
    requires Inv(s) && offset in s.workers
    ensures CountOk(WorkStep(s, offset, reply))
  {
    hide Inv, AddressOf, Advance, Lookup, WorkStep, ShownOk, WorkersOk, ResultsOk, ReportsOk, EvidenceOk, KeysOk;
    InvParts(s);
    var w, address := s.workers[offset], AddressOf(s, offset);
    var next := Advance(w, address, Lookup(s.results, address), s.cancelled, reply);
    AdvanceDone(w, address, Lookup(s.results, address), s.cancelled, reply);
    WorkShape(s, offset, reply);
    DoneWorkersUpdate(s.workers, offset, next);
    if w.step.Done? {
      assert DoneWorkers(s.workers) + {offset} == DoneWorkers(s.workers);
    } else if !w.step.Counting? {
      assert DoneWorkers(s.workers) - {offset} == DoneWorkers(s.workers);
    }
  }

  lemma HeldElsewhere(s: Scan, offset: nat, reply: Reply, address: string)
    requires Inv(s) && offset in s.workers && Held(s, address) && address != AddressOf(s, offset)
    ensures Held(WorkStep(s, offset, reply), address)
  {
    hide Advance, Inv, AddressAt, Format, Lookup;
    var t := WorkStep(s, offset, reply);
    var o :| o in s.workers && s.workers[o].step.Reporting? && AddressOf(s, o) == address;
    assert o in t.workers && t.workers[o] == s.workers[o] && AddressOf(t, o) == AddressOf(s, o);
  }

  /** Only the publishing step itself lets the latest report of an address fall behind its record, and it then holds it. */
  lemma WorkKeepsShown(s: Scan, offset: nat, reply: Reply)
    requires Inv(s) && offset in s.workers
    ensures ShownOk(WorkStep(s, offset, reply))
  {
    hide Inv, AddressAt, Format, Shown, Published, Merge, IsUsableMac, Blank, Honest, IsOnline, NeedsMac;
    var t := WorkStep(s, offset, reply);
    var address := AddressOf(s, offset);
    assert WorkersOk(s) && ResultsOk(s) && GoodRange(s.range) && ShownOk(s) by {
      InvParts(s);
    }
    WorkerIsOk(s, offset);
    forall a | a in s.results && a != address && !Held(t, a) ensures !Held(s, a) {
      if Held(s, a) {
        HeldElsewhere(s, offset, reply, a);
      }
    }
    match s.workers[offset].step
    case Publishing(d, named) =>
      PublishedIs(s.results, d);
      if !s.cancelled {
        assert offset in t.workers && t.workers[offset].step.Reporting? && AddressOf(t, offset) == address;
        assert Held(t, address);
      } else {
        NotHeldByOthers(s, offset, address);
      }
    case Reporting(d, merged, named) => ShownAppend(s.reports, merged);
    case _ => NotHeldByOthers(s, offset, address);
  }

  lemma InvParts(s: Scan)
    requires Inv(s)
    ensures GoodRange(s.range)
    ensures ResultsOk(s) && ReportsOk(s) && WorkersOk(s) && EvidenceOk(s) && ShownOk(s) && KeysOk(s)
    ensures PhaseOk(s) && CountOk(s)
  {
  }

  lemma NotHeldByOthers(s: Scan, offset: nat, address: string)
    requires GoodRange(s.range) && WorkersOk(s) && offset in s.workers && offset < s.range.count
    requires address == AddressOf(s, offset) && !s.workers[offset].step.Reporting?
    ensures !Held(s, address)
  {
    hide AddressOf, WorkerOk;
    forall o | o in s.workers && AddressOf(s, o) == address ensures o == offset {
      if o != offset {
        AddressesDiffer(s, o, offset);
      }
    }
  }

  lemma WorkKeepsPhase(s: Scan, offset: nat, reply: Reply)
    requires Inv(s) && offset in s.workers
    ensures PhaseOk(WorkStep(s, offset, reply))
  {
    hide Advance, ShownOk, EvidenceOk, ReportsOk, KeysOk, ResultsOk, WorkerOk, AddressOf, Published, CountOk;
    if !s.phase.Scanning? {
      InvGivesQuiet(s);
      DoneWorkIsIdle(s, offset, reply);
    }
  }

  lemma WorkKeepsInv(s: Scan, offset: nat, reply: Reply)
    requires Inv(s) && offset in s.workers
    ensures Inv(WorkStep(s, offset, reply)) && Grew(s.results, WorkStep(s, offset, reply).results)
  {
    hide Advance, ShownOk, EvidenceOk, ReportsOk, KeysOk, ResultsOk, WorkersOk, AddressOf, AddOrUpdate, CountOk,
      PhaseOk, Grew;
    WorkKeepsTable(s, offset, reply);
    WorkKeepsWorkers(s, offset, reply);
    WorkKeepsCount(s, offset, reply);
    WorkKeepsShown(s, offset, reply);
    WorkKeepsPhase(s, offset, reply);
    assert WorkStep(s, offset, reply).range == s.range by {
      WorkKeepsRange(s, offset, reply);
    }
  }

  lemma WorkKeepsRange(s: Scan, offset: nat, reply: Reply)
    requires offset in s.workers
    ensures var t := WorkStep(s, offset, reply); t.range == s.range && t.network == s.network
  {
    hide Advance, AddressOf, Published;
  }

  // ---- Starting, stopping and joining workers ----

  lemma StartKeepsInv(s: Scan, offset: nat, now: Time)
    requires Inv(s)
    ensures var t := Next(s, StartWorker(offset, now)); Inv(t) && t.results == s.results
  {
    hide Inv, AddressAt, Format, Shown, Honest, InRange, Witnessed, EvidenceOk, Lookup;
    var t := Next(s, StartWorker(offset, now));
    InvParts(s);
    if t != s {
      var w := t.workers[offset];
      forall a | Held(s, a) ensures Held(t, a) {
        var o :| o in s.workers && s.workers[o].step.Reporting? && AddressOf(s, o) == a;
        assert o in t.workers && t.workers[o] == s.workers[o] && AddressOf(t, o) == a;
      }
      assert DoneWorkers(t.workers) == DoneWorkers(s.workers);
      EvidenceIgnoresReports(s, t);
      var address := AddressOf(s, offset);
      StartedIsOk(address == s.network.address, s.network.mac, now, address, Lookup(s.results, address));
      WorkersStayOk(s, t, offset);
      assert Inv(t) by {
        InvFrom(t);
      }
    }
  }

  lemma StartedIsOk(local: bool, mac: string, now: Time, address: string, known: Option<Found>)
    ensures WorkerOk(BeginWorker(local, mac, now), address, known)
  {
  }

  lemma WorkersStayOk(s: Scan, t: Scan, offset: nat)
    requires WorkersOk(s) && t.range == s.range && t.results == s.results && offset < s.range.count
    requires offset in t.workers
    requires t.workers == s.workers[offset := t.workers[offset]]
    requires WorkerOk(t.workers[offset], AddressOf(s, offset), Lookup(s.results, AddressOf(s, offset)))
    ensures WorkersOk(t)
  {
    hide WorkerOk, AddressAt, Format, Lookup;
  }

  lemma InvFrom(s: Scan)
    requires GoodRange(s.range)
    requires ResultsOk(s) && ReportsOk(s) && WorkersOk(s) && EvidenceOk(s) && ShownOk(s) && KeysOk(s)
    requires PhaseOk(s) && CountOk(s)
    ensures Inv(s)
  {
  }

  lemma StopKeepsInv(s: Scan, offset: nat)
    requires Inv(s)
    ensures var t := Next(s, StopWorker(offset)); Inv(t) && t.results == s.results
  {
    hide Inv, AddressAt, Format, Shown, Honest, InRange, Witnessed, EvidenceOk, Lookup;
    var t := Next(s, StopWorker(offset));
    InvParts(s);
    if t != s {
      WorkerIsOk(s, offset);
      if !s.phase.Scanning? {
        InvGivesQuiet(s);
      }
      forall a | Held(s, a) ensures Held(t, a) {
        var o :| o in s.workers && s.workers[o].step.Reporting? && AddressOf(s, o) == a;
        assert o in t.workers && t.workers[o] == s.workers[o] && AddressOf(t, o) == a;
      }
      assert DoneWorkers(t.workers) == DoneWorkers(s.workers);
      EvidenceIgnoresReports(s, t);
      WorkersStayOk(s, t, offset);
      assert Inv(t) by {
        InvFrom(t);
      }
    }
  }

  lemma NextKeepsInv(s: Scan, e: Event)
    requires Inv(s)
    ensures Inv(Next(s, e)) && Grew(s.results, Next(s, e).results)
  {
    hide Inv, Grew, WorkStep, ReadNeighborStep, LeaveNeighborsStep, AddressOf, BeginWorker, AllDone;
    GrewSelf(s.results);
    match e
    case Cancel =>
      InvParts(s);
      FlagsKeepInv(s, Next(s, e));
    case ReadNeighbor(n, vendor) =>
      if s.phase.FirstNeighbors? || s.phase.LastNeighbors? {
        ReadNeighborKeepsInv(s, n, vendor);
      }
    case LeaveNeighbors => LeaveKeepsInv(s);
    case StartWorker(offset, now) => StartKeepsInv(s, offset, now);
    case Work(offset, reply) =>
      if offset in s.workers {
        WorkKeepsInv(s, offset, reply);
      }
    case StopWorker(offset) => StopKeepsInv(s, offset);
    case JoinWorkers =>
      if s.phase.Scanning? && AllDone(s.range.count, s.workers) {
        FlagsKeepInv(s, Next(s, e));
      }
  }

  // ---- Workers end ----

  /** How many of its own steps a body still has to take at most. */
  function Remaining(step: Step): nat {
    match step
    case Pinging => 10
    case LookingUp => 9
    case Resolving => 8
    case Merging => 7
    case Publishing(_, named) => if named then 3 else 6
    case Reporting(_, _, named) => if named then 2 else 5
    case Naming(_) => 4
    case Counting => 1
    case Done => 0
    case Stopped => 0
  }

  /** How many of the events are steps of the worker at `offset`. */
  function StepsOf(events: seq<Event>, offset: nat): nat {
    if events == [] then 0
    else (if events[0].Work? && events[0].offset == offset then 1 else 0) + StepsOf(events[1..], offset)
  }

  predicate NeverStopped(events: seq<Event>, offset: nat) {
    forall i | 0 <= i < |events| && events[i].StopWorker? :: events[i].offset != offset
  }

  /** An event moves a worker only if it is that worker's own step, or stops it. */
  lemma NextMoves(s: Scan, e: Event, offset: nat)
    requires offset in s.workers && !s.workers[offset].step.Stopped? && (e.StopWorker? ==> e.offset != offset)
    ensures var t := Next(s, e);
            && offset in t.workers && !t.workers[offset].step.Stopped?
            && Remaining(t.workers[offset].step) <= Remaining(s.workers[offset].step)
            && (e.Work? && e.offset == offset && Remaining(s.workers[offset].step) > 0 ==>
                  Remaining(t.workers[offset].step) < Remaining(s.workers[offset].step))
  {
    hide AddressOf, Lookup, WorkStep, Published, BeginWorker, IsUsableMac, Parse, AllDone;
    if e.Work? && e.offset in s.workers {
      WorkShape(s, e.offset, e.reply);
      var address := AddressOf(s, offset);
    }
  }

  /**
   * Whatever the network answers and whatever the others do in between, a body that is not stopped is done once it has taken
   * the steps it still had, ten at most.
   */
  lemma {:induction false} WorkersFinish(s: Scan, offset: nat, events: seq<Event>)
    requires offset in s.workers && !s.workers[offset].step.Stopped? && NeverStopped(events, offset)
    requires StepsOf(events, offset) >= Remaining(s.workers[offset].step)
    ensures offset in Run(s, events).workers && Run(s, events).workers[offset].step.Done?
    decreases |events|
  {
    hide Next;
    if events != [] {
      var e, rest := events[0], events[1..];
      NextMoves(s, e, offset);
      assert forall i | 0 <= i < |rest| :: rest[i] == events[i + 1];
      WorkersFinish(Next(s, e), offset, rest);
    }
  }

  /** So any schedule that gives every started worker ten steps, and stops none, lets the scan go on. */
  lemma AllWorkersFinish(s: Scan, events: seq<Event>)
    requires forall o: nat | o < s.range.count :: o in s.workers && !s.workers[o].step.Stopped?
    requires forall o: nat | o < s.range.count :: NeverStopped(events, o) && StepsOf(events, o) >= 10
    ensures AllDone(Run(s, events).range.count, Run(s, events).workers)
  {
    hide Run, NeverStopped, StepsOf;
    RangeKept(s, events);
    forall o: nat | o < s.range.count ensures o in Run(s, events).workers && Run(s, events).workers[o].step.Done? {
      WorkersFinish(s, o, events);
    }
  }

  // ---- Whole scans ----

  lemma StartInv(network: NetworkInterface, range: Range)
    requires GoodRange(range)
    ensures Inv(Start(network, range))
  {
  }

  /** The invariant holds throughout every scan, whatever the network answers and however the workers interleave. */
  lemma {:induction false} EveryScanKeepsInv(s: Scan, events: seq<Event>)
    requires Inv(s)
    ensures Inv(Run(s, events)) && Grew(s.results, Run(s, events).results)
    decreases |events|
  {
    hide Inv, Next;
    if events == [] {
      GrewSelf(s.results);
    } else {
      NextKeepsInv(s, events[0]);
      EveryScanKeepsInv(Next(s, events[0]), events[1..]);
    }
  }

  /**
   * Every record ever reported is honest: it shows a device online exactly when a live observation was made, so
   * evidence from the neighbour cache or from ARP alone never does, and that evidence comes with a MAC address.
   */
  lemma ReportedRecordsAreHonest(network: NetworkInterface, range: Range, events: seq<Event>)
    requires GoodRange(range)
    ensures var s := Run(Start(network, range), events);
            && (forall i | 0 <= i < |s.reports| ::
                  && (IsOnline(s.reports[i]) <==> s.reports[i].liveAt.Some?)
                  && (s.reports[i].evidence <= {NeighborCache, ArpResolution} ==> !IsOnline(s.reports[i]))
                  && (NeedsMac(s.reports[i]) ==> s.reports[i].mac != ""))
            && (forall a | a in s.results :: IsOnline(s.results[a]) <==> s.results[a].liveAt.Some?)
  {
    hide Next, Start, Run, WorkersOk, EvidenceOk, ShownOk, KeysOk, PhaseOk, CountOk;
    StartInv(network, range);
    EveryScanKeepsInv(Start(network, range), events);
  }

  /** An address's evidence is the union of what was published for it, and what is known is never forgotten. */
  lemma EvidenceIsUnionAndGrows(network: NetworkInterface, range: Range, before: seq<Event>, after: seq<Event>)
    requires GoodRange(range)
    ensures var s, t := Run(Start(network, range), before), Run(Start(network, range), before + after);
            && Grew(s.results, t.results)
            && (forall a | a in s.results ::
                  forall e :: e in s.results[a].evidence <==> Witnessed(s.history, a, e))
  {
    hide Next, Start, WorkersOk, ReportsOk, ShownOk, KeysOk, PhaseOk, CountOk, Grew, Honest, Run;
    var s := Run(Start(network, range), before);
    StartInv(network, range);
    EveryScanKeepsInv(Start(network, range), before);
    EveryScanKeepsInv(s, after);
    RunAppend(Start(network, range), before, after);
    forall a, e | a in s.results && Witnessed(s.history, a, e) ensures e in s.results[a].evidence {
      var i :| 0 <= i < |s.history| && s.history[i].address == a && e in s.history[i].evidence;
    }
  }

  lemma {:induction false} RunAppend(s: Scan, before: seq<Event>, after: seq<Event>)
    ensures Run(s, before + after) == Run(Run(s, before), after)
    decreases |before|
  {
    hide Next;
    if before == [] {
      assert before + after == after;
    } else {
      assert (before + after)[1..] == before[1..] + after;
      RunAppend(Next(s, before[0]), before[1..], after);
    }
  }

  predicate CanonicalNeighbors(events: seq<Event>) {
    forall i | 0 <= i < |events| && events[i].ReadNeighbor? ::
      Parse(events[i].n.address).Some? ==> Canonical(events[i].n.address)
  }

  lemma NextKeepsCanonical(s: Scan, e: Event)
    requires Inv(s) && CanonicalKeys(s)
    requires e.ReadNeighbor? && Parse(e.n.address).Some? ==> Canonical(e.n.address)
    ensures CanonicalKeys(Next(s, e))
  {
    hide Inv, Canonical, Parse, Format, Advance, IsUsableMac, AllDone, Published, AddressOf;
    match e
    case ReadNeighbor(n, vendor) =>
      PublishedIs(s.results, Found(n.address, n.mac, "", vendor, {NeighborCache}, None));
    case Work(offset, reply) =>
      if offset in s.workers && s.workers[offset].step.Publishing? {
        PublishingIsSound(s, offset);
        InvParts(s);
        WorkerIsOk(s, offset);
        AddressInRange(s, offset);
        PublishedIs(s.results, s.workers[offset].step.d);
      }
    case _ =>
  }

  lemma {:induction false} CanonicalOverRun(s: Scan, events: seq<Event>)
    requires Inv(s) && CanonicalKeys(s) && CanonicalNeighbors(events)
    ensures CanonicalKeys(Run(s, events))
    decreases |events|
  {
    hide Inv, CanonicalKeys, Next, Canonical, Parse;
    if events != [] {
      NextKeepsInv(s, events[0]);
      NextKeepsCanonical(s, events[0]);
      assert CanonicalNeighbors(events[1..]) by {
        forall i | 0 <= i < |events[1..]| && events[1..][i].ReadNeighbor?
          ensures Parse(events[1..][i].n.address).Some? ==> Canonical(events[1..][i].n.address)
        {
          assert events[1..][i] == events[i + 1];
        }
      }
      CanonicalOverRun(Next(s, events[0]), events[1..]);
    }
  }

  lemma {:induction false} ImageIsNoLarger(keys: set<string>, lo: int, hi: int)
    requires forall a | a in keys :: Canonical(a) && lo <= Parse(a).value <= hi
    ensures |keys| <= if lo <= hi then hi - lo + 1 else 0
    decreases hi - lo
  {
    hide Parse, Format;
    if lo > hi {
      assert keys == {};
    } else {
      var top := set a | a in keys && Parse(a).value == hi;
      var rest := keys - top;
      ImageIsNoLarger(rest, lo, hi - 1);
      OneSpelling(top, hi);
      assert keys == rest + top;
    }
  }

  lemma OneSpelling(keys: set<string>, x: int)
    requires forall a | a in keys :: Canonical(a) && Parse(a).value == x
    ensures |keys| <= 1
  {
    hide Parse, Format;
    if keys != {} {
      var a :| a in keys;
      assert keys == {a};
    }
  }

  lemma AllDoneCount(count: nat, workers: map<nat, Worker>)
    requires AllDone(count, workers) && forall o | o in workers :: o < count
    ensures |DoneWorkers(workers)| == count
  {
    CountBelow(count, DoneWorkers(workers));
  }

  lemma {:induction false} CountBelow(count: nat, s: set<nat>)
    requires forall o: nat :: o in s <==> o < count
    ensures |s| == count
  {
    if count > 0 {
      var last: nat := count - 1;
      CountBelow(last, s - {last});
      assert s == (s - {last}) + {last};
    } else {
      assert s == {};
    }
  }

  /**
   * A scan that runs to its end has counted every address of its range once, leaves on display exactly the records it
   * holds, all in range, and, when the neighbour cache spells addresses canonically, found no more than it scanned.
   */
  lemma FinishedScanIsShown(network: NetworkInterface, range: Range, events: seq<Event>)
    requires GoodRange(range) && Run(Start(network, range), events).phase.Finished?
    ensures var s := Run(Start(network, range), events);
            && s.phase.scanned == range.count && s.phase.found == |s.results|
            && Shown(s.reports) == s.results
            && (forall a | a in s.results :: InRange(range, a))
            && (CanonicalNeighbors(events) ==> s.phase.found <= s.phase.scanned)
  {
    hide Run, Start, Next, Inv, Parse, Format, Canonical, Shown, Honest;
    var s := Run(Start(network, range), events);
    StartInv(network, range);
    EveryScanKeepsInv(Start(network, range), events);
    InvParts(s);
    InvGivesQuiet(s);
    RangeKept(Start(network, range), events);
    StartIs(network, range);
    AllDoneCount(s.range.count, s.workers);
    assert !exists a :: Held(s, a);
    assert Shown(s.reports) == s.results;
    if CanonicalNeighbors(events) {
      CanonicalOverRun(Start(network, range), events);
      ImageIsNoLarger(s.results.Keys, range.start, range.end);
    }
  }

  lemma StartIs(network: NetworkInterface, range: Range)
    ensures Start(network, range).range == range && Start(network, range).network == network
    ensures Start(network, range).results == map[]
  {
  }

  lemma NextKeepsRange(s: Scan, e: Event)
    ensures Next(s, e).range == s.range && Next(s, e).network == s.network
  {
    hide Advance, AddressOf, Published, IsUsableMac, Parse, AllDone, BeginWorker;
  }

  lemma {:induction false} RangeKept(s: Scan, events: seq<Event>)
    ensures Run(s, events).range == s.range && Run(s, events).network == s.network
    decreases |events|
  {
    hide Next;
    if events != [] {
      NextKeepsRange(s, events[0]);
      RangeKept(Next(s, events[0]), events[1..]);
    }
  }

  // ---- What a record says ----

  datatype Field = MacField | HostnameField | VendorField

  function Said(d: Found, f: Field): string {
    match f
    case MacField => d.mac
    case HostnameField => d.hostname
    case VendorField => d.vendor
  }

  /** The last thing said of an address that was not empty. */
  function LastSaid(history: seq<Found>, address: string, f: Field): string {
    if history == [] then "" else
      var last := history[|history| - 1];
      if last.address == address && Said(last, f) != "" then Said(last, f)
      else LastSaid(history[..|history| - 1], address, f)
  }

  function LastLive(history: seq<Found>, address: string): Option<Time> {
    if history == [] then None else
      var last := history[|history| - 1];
      if last.address == address && last.liveAt.Some? then last.liveAt
      else LastLive(history[..|history| - 1], address)
  }

  ghost predicate FieldsOk(s: Scan) {
    forall a | a in s.results :: RecordIs(s.results[a], s.history, a)
  }

  ghost predicate RecordIs(d: Found, history: seq<Found>, address: string) {
    (forall f :: Said(d, f) == LastSaid(history, address, f)) && d.liveAt == LastLive(history, address)
  }

  lemma {:induction false} NothingSaid(history: seq<Found>, address: string)
    requires forall i | 0 <= i < |history| :: history[i].address != address
    ensures (forall f :: LastSaid(history, address, f) == "") && LastLive(history, address) == None
  {
    if history != [] {
      NothingSaid(history[..|history| - 1], address);
    }
  }

  lemma SaidAfter(history: seq<Found>, d: Found, address: string)
    ensures forall f :: LastSaid(history + [d], address, f)
              == if d.address == address && Said(d, f) != "" then Said(d, f) else LastSaid(history, address, f)
    ensures LastLive(history + [d], address)
              == if d.address == address && d.liveAt.Some? then d.liveAt else LastLive(history, address)
  {
    assert (history + [d])[..|history|] == history;
  }

  lemma AddOrUpdateKeepsFields(s: Scan, d: Found)
    requires FieldsOk(s) && EvidenceOk(s)
    ensures FieldsOk(AddOrUpdate(s, d))
  {
    hide Published, LastSaid, LastLive, Witnessed;
    PublishedIs(s.results, d);
    var t := AddOrUpdate(s, d);
    forall a | a in t.results ensures RecordIs(t.results[a], t.history, a) {
      SaidAfter(s.history, d, a);
      if a !in s.results {
        NothingSaid(s.history, a);
      } else {
        assert RecordIs(s.results[a], s.history, a);
      }
    }
  }

  /** What the step publishes, if anything. */
  function Observed(s: Scan, e: Event): Option<Found> {
    match e
    case ReadNeighbor(n, vendor) =>
      if (s.phase.FirstNeighbors? || s.phase.LastNeighbors?) && !s.cancelled && n.index == s.network.index && IsUsableMac(n.mac)
         && Parse(n.address).Some? && s.range.start <= Parse(n.address).value <= s.range.end
      then Some(Found(n.address, n.mac, "", vendor, {NeighborCache}, None)) else None
    case Work(offset, reply) =>
      if offset in s.workers && s.workers[offset].step.Publishing? && !s.cancelled then Some(s.workers[offset].step.d) else None
    case _ => None
  }

  lemma NextPublishes(s: Scan, e: Event)
    ensures var t := if Observed(s, e).Some? then AddOrUpdate(s, Observed(s, e).value) else s;
            Next(s, e).results == t.results && Next(s, e).history == t.history
  {
    hide Published, Advance, AddressOf, BeginWorker, AllDone, Parse, IsUsableMac;
  }

  lemma NextKeepsFields(s: Scan, e: Event)
    requires Inv(s) && FieldsOk(s)
    ensures FieldsOk(Next(s, e))
  {
    hide Inv, Next, Observed, AddOrUpdate, RecordIs;
    InvParts(s);
    NextPublishes(s, e);
    if Observed(s, e).Some? {
      AddOrUpdateKeepsFields(s, Observed(s, e).value);
    }
  }

  lemma {:induction false} FieldsOverRun(s: Scan, events: seq<Event>)
    requires Inv(s) && FieldsOk(s)
    ensures FieldsOk(Run(s, events))
    decreases |events|
  {
    hide Inv, Next, FieldsOk;
    if events != [] {
      NextKeepsInv(s, events[0]);
      NextKeepsFields(s, events[0]);
      FieldsOverRun(Next(s, events[0]), events[1..]);
    }
  }

  /** The record of an address says of each thing the last that was said of it, and knows the last live observation. */
  lemma LatestWordWins(network: NetworkInterface, range: Range, events: seq<Event>)
    requires GoodRange(range)
    ensures var s := Run(Start(network, range), events);
            forall a | a in s.results ::
              && s.results[a].mac == LastSaid(s.history, a, MacField)
              && s.results[a].hostname == LastSaid(s.history, a, HostnameField)
              && s.results[a].vendor == LastSaid(s.history, a, VendorField)
              && s.results[a].liveAt == LastLive(s.history, a)
  {
    hide Run, Start, Inv, LastSaid, LastLive;
    StartInv(network, range);
    StartIs(network, range);
    FieldsOverRun(Start(network, range), events);
    var s := Run(Start(network, range), events);
    forall a | a in s.results
      ensures s.results[a].mac == LastSaid(s.history, a, MacField)
      ensures s.results[a].hostname == LastSaid(s.history, a, HostnameField)
      ensures s.results[a].vendor == LastSaid(s.history, a, VendorField)
    {
      assert RecordIs(s.results[a], s.history, a);
      assert Said(s.results[a], MacField) == LastSaid(s.history, a, MacField);
      assert Said(s.results[a], HostnameField) == LastSaid(s.history, a, HostnameField);
      assert Said(s.results[a], VendorField) == LastSaid(s.history, a, VendorField);
    }
  }

  // ---- The one spelling the count relies on ----

  function Works(offset: nat, reply: Reply, n: nat): seq<Event> {
    seq(n, _ => Work(offset, reply))
  }

  /** A neighbour cache that lists the host of a one-address scan under two spellings, and then a scan of that host. */
  function TwoSpellings(index: int, a: string, b: string, mac: string, reply: Reply): seq<Event> {
    [ReadNeighbor(Neighbor(index, a, mac), ""), ReadNeighbor(Neighbor(index, b, mac), ""), LeaveNeighbors,
     StartWorker(0, 0)] + Works(0, reply, 10) + [JoinWorkers, LeaveNeighbors]
  }

  lemma RunOne(s: Scan, e: Event, rest: seq<Event>)
    ensures Run(s, [e] + rest) == Run(Next(s, e), rest)
  {
    hide Next;
    assert ([e] + rest)[1..] == rest;
  }

  lemma TwoSpellingsRead(s: Scan, a: string, b: string, mac: string)
    requires s.phase.FirstNeighbors? && !s.cancelled && IsUsableMac(mac)
    requires InRange(s.range, a) && InRange(s.range, b)
    ensures var e0 := ReadNeighbor(Neighbor(s.network.index, a, mac), "");
            var e1 := ReadNeighbor(Neighbor(s.network.index, b, mac), "");
            var t := Next(Next(s, e0), e1);
            && a in t.results && b in t.results && t.phase == s.phase && t.range == s.range && t.workers == s.workers
  {
    hide Parse, IsUsableMac, Merge;
  }

  /**
   * The count needs canonical spellings: for every other spelling of an address the scan may find more devices than
   * it scanned addresses.
   */
  lemma OtherSpellingsAreCountedTwice(network: NetworkInterface, a: string, mac: string, reply: Reply)
    requires Parse(a).Some? && !Canonical(a) && IsUsableMac(mac)
    ensures var x := Parse(a).value;
            var s := Run(Start(network, Range(x, x, 1)), TwoSpellings(network.index, a, Format(x), mac, reply));
            s.phase.Finished? && s.phase.scanned == 1 && s.phase.found >= 2
  {
    hide Run, Next, Parse, Format, IsUsableMac, Works, Inv;
    var x := Parse(a).value;
    var range := Range(x, x, 1);
    var b := Format(x);
    ParseFormat(x);
    var s := Start(network, range);
    var e0 := ReadNeighbor(Neighbor(network.index, a, mac), "");
    var e1 := ReadNeighbor(Neighbor(network.index, b, mac), "");
    var tail := Works(0, reply, 10) + [JoinWorkers, LeaveNeighbors];
    var events := TwoSpellings(network.index, a, b, mac, reply);
    assert events == [e0] + ([e1] + ([LeaveNeighbors] + ([StartWorker(0, 0)] + tail)));
    RunOne(s, e0, [e1] + ([LeaveNeighbors] + ([StartWorker(0, 0)] + tail)));
    RunOne(Next(s, e0), e1, [LeaveNeighbors] + ([StartWorker(0, 0)] + tail));
    TwoSpellingsRead(s, a, b, mac);
    var s2 := Next(Next(s, e0), e1);
    RunOne(s2, LeaveNeighbors, [StartWorker(0, 0)] + tail);
    var s3 := Next(s2, LeaveNeighbors);
    RunOne(s3, StartWorker(0, 0), tail);
    OneWorkerFinishes(s2, reply);
    var t := Run(s, events);
    assert t == Run(s3, [StartWorker(0, 0)] + tail);
    StartInv(network, range);
    NextKeepsInv(s, e0);
    NextKeepsInv(Next(s, e0), e1);
    EveryScanKeepsInv(s2, [LeaveNeighbors] + ([StartWorker(0, 0)] + tail));
    assert a in t.results && b in t.results by {
      assert Grew(s2.results, t.results);
    }
    assert {a, b} <= t.results.Keys;
    SubsetIsNoLarger({a, b}, t.results.Keys);
    FinishedScanIsShown(network, range, events);
  }

  lemma {:induction false} SubsetIsNoLarger(a: set<string>, b: set<string>)
    requires a <= b
    ensures |a| <= |b|
  {
    assert b == a + (b - a);
  }

  lemma {:induction false} WorksKeepPhase(s: Scan, offset: nat, reply: Reply, n: nat)
    requires offset in s.workers
    ensures StepsOf(Works(offset, reply, n), offset) == n && Run(s, Works(offset, reply, n)).phase == s.phase
    decreases n
  {
    hide Advance, AddressOf, Lookup, WorkStep;
    if n > 0 {
      WorkShape(s, offset, reply);
      var events := Works(offset, reply, n);
      assert events[1..] == Works(offset, reply, n - 1);
      WorksKeepPhase(Next(s, events[0]), offset, reply, n - 1);
    }
  }

  lemma OneWorkerFinishes(s: Scan, reply: Reply)
    requires s.phase.FirstNeighbors? && s.workers == map[] && s.range.count == 1
    ensures var s3 := Next(s, LeaveNeighbors);
            Run(s3, [StartWorker(0, 0)] + (Works(0, reply, 10) + [JoinWorkers, LeaveNeighbors])).phase.Finished?
  {
    hide AddressOf, WorkStep, AllDone, StepsOf;
    var s3 := Next(s, LeaveNeighbors);
    var works, tail := Works(0, reply, 10), [JoinWorkers, LeaveNeighbors];
    RunOne(s3, StartWorker(0, 0), works + tail);
    var s4 := Next(s3, StartWorker(0, 0));
    RunAppend(s4, works, tail);
    WorksKeepPhase(s4, 0, reply, 10);
    AllWorkersFinish(s4, works);
    Leaves(Run(s4, works));
  }

  lemma Leaves(s: Scan)
    requires s.phase.Scanning? && AllDone(s.range.count, s.workers)
    ensures Run(s, [JoinWorkers, LeaveNeighbors]).phase.Finished?
  {
    hide AllDone;
    assert [JoinWorkers, LeaveNeighbors] == [JoinWorkers] + ([LeaveNeighbors] + []);
    RunOne(s, JoinWorkers, [LeaveNeighbors] + []);
    RunOne(Next(s, JoinWorkers), LeaveNeighbors, []);
  }

  /** Every readable neighbour text is the canonical spelling of its address, or this one. */
  predicate SpelledAs(events: seq<Event>, a: string) {
    forall i | 0 <= i < |events| && events[i].ReadNeighbor? ::
      Parse(events[i].n.address).Some? ==> Canonical(events[i].n.address) || events[i].n.address == a
  }

  ghost predicate CountHolds(s: Scan) {
    s.phase.Finished? ==> s.phase.found <= s.phase.scanned
  }

  ghost predicate CountHoldsWith(network: NetworkInterface, a: string) {
    forall range, events | GoodRange(range) && SpelledAs(events, a) :: CountHolds(Run(Start(network, range), events))
  }

  lemma CanonicalSpellingIsCounted(network: NetworkInterface, a: string)
    requires Canonical(a)
    ensures CountHoldsWith(network, a)
  {
    hide Run, Start, Parse, Shown;
    forall range, events | GoodRange(range) && SpelledAs(events, a)
      ensures CountHolds(Run(Start(network, range), events))
    {
      if Run(Start(network, range), events).phase.Finished? {
        FinishedScanIsShown(network, range, events);
      }
    }
  }

  lemma TwoSpellingsAreSpelled(index: int, a: string, b: string, mac: string, reply: Reply)
    requires Canonical(b)
    ensures SpelledAs(TwoSpellings(index, a, b, mac, reply), a)
  {
    hide Parse, Canonical;
  }

  /** `Found <= Scanned` withstands a spelling of an address in the neighbour cache exactly when it is the canonical one. */
  lemma CountNeedsCanonicalSpelling(network: NetworkInterface, a: string)
    requires Parse(a).Some?
    ensures CountHoldsWith(network, a) <==> Canonical(a)
  {
    hide Canonical, Parse, Format, IsUsableMac, TwoSpellings;
    if Canonical(a) {
      CanonicalSpellingIsCounted(network, a);
    } else {
      var reply, mac := Reply(false, 0, None, "", ""), "02:00:00:00:00:01";
      UsableMacsExist();
      var x := Parse(a).value;
      var events := TwoSpellings(network.index, a, Format(x), mac, reply);
      FormatIsCanonical(x);
      TwoSpellingsAreSpelled(network.index, a, Format(x), mac, reply);
      OtherSpellingsAreCountedTwice(network, a, mac, reply);
    }
  }

  lemma FormatIsCanonical(x: UInt32)
    ensures Canonical(Format(x))
  {
    hide Parse, Format;
    ParseFormat(x);
  }

  /** A leading space, say, makes another spelling of any address. */
  lemma OtherSpellingsExist(x: UInt32)
    ensures var a := " " + Format(x); Parse(a) == Some(x) && !Canonical(a)
  {
    hide Format, ParseParts, Split;
    var f := Format(x);
    ParseFormat(x);
    FormatEnds(x);
    assert " " + f != f by {
      assert |" " + f| == |f| + 1;
    }
  }

  lemma UsableMacsExist()
    ensures IsUsableMac("02:00:00:00:00:01")
  {
    hide Mac.Normalize;
    var mac := "02:00:00:00:00:01";
    assert Mac.Normal(mac);
    Mac.NormalIsFixpoint(mac);
    assert Mac.HexValue(mac[1]) == 2;
  }
}
