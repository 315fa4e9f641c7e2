/** What a scan hears of each address, and that its table says exactly that. */
module DiscoveryProvenance {
  import opened Prelude
  import opened Discovery
  import opened NetworkDiscovery
  import Ip = Ipv4Text

  /** One thing a record can say of its address. */
  datatype Fact =
    | Seen(evidence: Evidence) | Named
    | MacIs(mac: string) | HostnameIs(hostname: string) | VendorIs(vendor: string) | LiveAt(at: Time)

  /** A kind of evidence, or that there is a name, is never replaced by something said later. */
  predicate Lasting(f: Fact) {
    f.Seen? || f.Named?
  }

  function SeenAll(evidence: set<Evidence>): set<Fact> {
    set e | e in evidence :: Seen(e)
  }

  function MacFacts(mac: string): set<Fact> {
    if mac == "" then {} else {MacIs(mac)}
  }

  function VendorFacts(vendor: string): set<Fact> {
    if vendor == "" then {} else {VendorIs(vendor)}
  }

  function NameFacts(hostname: string): set<Fact> {
    if hostname == "" then {} else {Named, HostnameIs(hostname)}
  }

  function LiveFacts(at: Option<Time>): set<Fact> {
    if at.None? then {} else {LiveAt(at.value)}
  }

  function Facts(d: Found): set<Fact> {
    SeenAll(d.evidence) + MacFacts(d.mac) + VendorFacts(d.vendor) + NameFacts(d.hostname) + LiveFacts(d.liveAt)
  }

  /** What the network and the vendor list tell the body of a worker in this step. */
  function Told(w: Worker, reply: Reply): set<Fact> {
    match w.step
    case Pinging => if reply.ping then {Seen(PingReply), LiveAt(reply.at)} else {}
    case Resolving =>
      if reply.mac.Some? && reply.mac.value != "" then {Seen(ArpResolution), MacIs(reply.mac.value)} else {}
    case Merging => VendorFacts(reply.vendor)
    case Naming(_) => if Blank(reply.hostname) then {} else {Named, HostnameIs(reply.hostname)}
    case _ => {}
  }

  /** The cache entry counts for this scan. */
  predicate Usable(s: Scan, n: Neighbor) {
    && (s.phase.FirstNeighbors? || s.phase.LastNeighbors?) && !s.cancelled
    && n.index == s.network.index && IsUsableMac(n.mac) && InRange(s.range, n.address)
  }

  /** The body of the interface's own address begins. */
  predicate StartsLocal(s: Scan, offset: nat) {
    && s.phase.Scanning? && offset < s.range.count && offset !in s.workers
    && AddressOf(s, offset) == s.network.address
  }

  /** What is heard of an address in a step. */
  function FactsNow(s: Scan, e: Event): set<Fact> {
    match e
    case ReadNeighbor(n, vendor) => if Usable(s, n) then {Seen(NeighborCache), MacIs(n.mac)} + VendorFacts(vendor) else {}
    case StartWorker(offset, now) =>
      if StartsLocal(s, offset) then {Seen(LocalInterface), LiveAt(now)} + MacFacts(s.network.mac) else {}
    case Work(offset, reply) => if offset in s.workers then Told(s.workers[offset], reply) else {}
    case _ => {}
  }

  /** The address the step is about. */
  function Subject(s: Scan, e: Event): string {
    match e
    case ReadNeighbor(n, _) => n.address
    case StartWorker(offset, _) => AddressOf(s, offset)
    case Work(offset, _) => AddressOf(s, offset)
    case _ => ""
  }

  function HeardNow(s: Scan, e: Event): (r: set<(string, Fact)>)
    ensures forall a, f :: (a, f) in r <==> a == Subject(s, e) && f in FactsNow(s, e)
  {
    set f | f in FactsNow(s, e) :: (Subject(s, e), f)
  }

  function Heard(s: Scan, events: seq<Event>): set<(string, Fact)>
    decreases |events|
  {
    if events == [] then {} else HeardNow(s, events[0]) + Heard(Next(s, events[0]), events[1..])
  }

  /** The addresses that answered a ping in the course of the run. */
  function Answered(s: Scan, events: seq<Event>): set<string> {
    set h | h in Heard(s, events) && h.1 == Seen(PingReply) :: h.0
  }

  predicate Says(s: Scan, address: string, f: Fact) {
    address in s.results && f in Facts(s.results[address])
  }

  lemma MergedFacts(known: Option<Found>, d: Found)
    ensures Facts(Merged(known, d)) <= Facts(d) + if known.Some? then Facts(known.value) else {}
    ensures forall f | Lasting(f) :: f in Facts(Merged(known, d)) <==> f in Facts(d) || (known.Some? && f in Facts(known.value))
  {
  }

  lemma PublishedSays(s: Scan, t: Scan, d: Found, address: string, f: Fact)
    requires t.results == Published(s.results, d)
    ensures Says(t, address, f) ==> Says(s, address, f) || (address == d.address && f in Facts(d))
    ensures Lasting(f) && (Says(s, address, f) || (address == d.address && f in Facts(d))) ==> Says(t, address, f)
  {
    hide Facts, Published, Merged;
    PublishedIs(s.results, d);
    MergedFacts(Lookup(s.results, d.address), d);
  }

  // ---------------------------------------------------------------- nothing is made up

  /** Everything the locals of a body claim of its address. */
  function Holds(w: Worker): set<Fact> {
    match w.step
    case Publishing(d, _) => Facts(d)
    case Reporting(d, _, _) => Facts(d)
    case Naming(d) => Facts(d)
    case Counting => {}
    case Done => {}
    case Stopped => {}
    case _ => SeenAll(w.evidence) + LiveFacts(w.liveAt) + if w.mac.Some? then MacFacts(w.mac.value) else {}
  }

  lemma AdvanceHolds(w: Worker, address: string, known: Option<Found>, cancelled: bool, reply: Reply)
    ensures Holds(Advance(w, address, known, cancelled, reply))
         <= Holds(w) + Told(w, reply) + if known.Some? then Facts(known.value) else {}
  {
    hide IsUsableMac, Merge;
    match w.step
    case Merging => MergeHolds(w, address, known, reply.vendor);
    case _ =>
  }

  lemma MergeHolds(w: Worker, address: string, known: Option<Found>, vendor: string)
    requires w.step.Merging?
    ensures Holds(AfterMerge(w, address, known, vendor))
         <= Holds(w) + VendorFacts(vendor) + if known.Some? then Facts(known.value) else {}
  {
  }

  ghost predicate ResultsHeard(s: Scan, heard: set<(string, Fact)>) {
    forall a, f | Says(s, a, f) :: (a, f) in heard
  }

  ghost predicate WorkersHeard(s: Scan, heard: set<(string, Fact)>) {
    forall o, f | o in s.workers && f in Holds(s.workers[o]) :: (AddressOf(s, o), f) in heard
  }

  lemma CacheEntryFacts(s: Scan, n: Neighbor, vendor: string)
    requires Usable(s, n)
    ensures Facts(Found(n.address, n.mac, "", vendor, {NeighborCache}, None)) == FactsNow(s, ReadNeighbor(n, vendor))
  {
    hide IsUsableMac, Ip.Parse;
    UsableMacIsNotEmpty(n.mac);
  }

  /** What a step publishes was heard of that address. */
  lemma ObservedWasHeard(s: Scan, e: Event, heard: set<(string, Fact)>)
    requires Inv(s) && WorkersHeard(s, heard)
    ensures var d := Observed(s, e);
            d.Some? ==> forall f | f in Facts(d.value) :: (d.value.address, f) in heard + HeardNow(s, e)
  {
    hide Inv, AddressOf, IsUsableMac, Facts, FactsNow, HeardNow, Ip.Parse, Sound;
    if e.Work? && e.offset in s.workers && s.workers[e.offset].step.Publishing? {
      PublishingIsSound(s, e.offset);
      assert Holds(s.workers[e.offset]) == Facts(s.workers[e.offset].step.d);
    }
    if e.ReadNeighbor? && Usable(s, e.n) {
      CacheEntryFacts(s, e.n, e.vendor);
    }
  }

  lemma ResultsStayHeard(s: Scan, e: Event, heard: set<(string, Fact)>)
    requires Inv(s) && ResultsHeard(s, heard) && WorkersHeard(s, heard)
    ensures ResultsHeard(Next(s, e), heard + HeardNow(s, e))
  {
    hide Inv, Observed, Published, HeardNow, WorkersHeard, Facts;
    ObservedWasHeard(s, e, heard);
    NextPublishes(s, e);
    var t := Next(s, e);
    hide Next, Says;
    forall a, f | Says(t, a, f) ensures (a, f) in heard + HeardNow(s, e) {
      if Observed(s, e).Some? {
        PublishedSays(s, t, Observed(s, e).value, a, f);
      } else {
        SameResultsSay(s, t, a, f);
      }
    }
  }

  lemma SameResultsSay(s: Scan, t: Scan, a: string, f: Fact)
    requires t.results == s.results
    ensures Says(t, a, f) == Says(s, a, f)
  {
  }

  lemma AddressKept(s: Scan, t: Scan)
    requires s.range == t.range
    ensures forall o: nat :: AddressOf(s, o) == AddressOf(t, o)
  {
  }

  lemma WorkStaysHeard(s: Scan, offset: nat, reply: Reply, heard: set<(string, Fact)>)
    requires offset in s.workers && ResultsHeard(s, heard) && WorkersHeard(s, heard)
    ensures WorkersHeard(Next(s, Work(offset, reply)), heard + HeardNow(s, Work(offset, reply)))
  {
    hide WorkStep, AddressOf, Advance, Holds, Told, Facts, HeardNow;
    var t := Next(s, Work(offset, reply));
    var address := AddressOf(s, offset);
    var known := Lookup(s.results, address);
    WorkShape(s, offset, reply);
    AddressKept(s, t);
    AdvanceHolds(s.workers[offset], address, known, s.cancelled, reply);
    forall o, f | o in t.workers && f in Holds(t.workers[o])
      ensures (AddressOf(t, o), f) in heard + HeardNow(s, Work(offset, reply))
    {
      if o == offset && known.Some? && f in Facts(known.value) {
        assert Says(s, address, f);
      }
    }
  }

  /** The other events start bodies, stop them, or leave them alone. */
  lemma OtherWorkers(s: Scan, e: Event, o: nat)
    requires !e.Work?
    ensures var t := Next(s, e);
            && (o in s.workers ==> o in t.workers && (t.workers[o] == s.workers[o] || t.workers[o].step.Stopped?))
            && (o in t.workers && o !in s.workers ==>
                  && e.StartWorker? && e.offset == o && s.phase.Scanning? && o < s.range.count
                  && t.workers[o] == BeginWorker(AddressOf(s, o) == s.network.address, s.network.mac, e.now))
  {
    hide AddressOf, IsUsableMac, AllDone, Published, BeginWorker, Ip.Parse;
  }

  lemma StoppedHolds(w: Worker)
    ensures w.step.Stopped? ==> Holds(w) == {}
  {
  }

  lemma BeginHolds(mac: string, now: Time)
    ensures Holds(BeginWorker(true, mac, now)) == {Seen(LocalInterface), LiveAt(now)} + MacFacts(mac)
    ensures Holds(BeginWorker(false, mac, now)) == {}
  {
  }

  lemma OtherWorkersStayHeard(s: Scan, e: Event, heard: set<(string, Fact)>)
    requires WorkersHeard(s, heard) && !e.Work?
    ensures WorkersHeard(Next(s, e), heard + HeardNow(s, e))
  {
    hide AddressOf, Next, Facts, IsUsableMac, Holds, HeardNow;
    NextKeepsRange(s, e);
    var t := Next(s, e);
    AddressKept(s, t);
    forall o, f | o in t.workers && f in Holds(t.workers[o]) ensures (AddressOf(t, o), f) in heard + HeardNow(s, e) {
      OtherWorkers(s, e, o);
      StoppedHolds(t.workers[o]);
      if o in s.workers {
        assert t.workers[o] == s.workers[o] ==> f in Holds(s.workers[o]);
      } else {
        BeginHolds(s.network.mac, e.now);
      }
    }
  }

  lemma NextStaysHeard(s: Scan, e: Event, heard: set<(string, Fact)>)
    requires Inv(s) && ResultsHeard(s, heard) && WorkersHeard(s, heard)
    ensures ResultsHeard(Next(s, e), heard + HeardNow(s, e)) && WorkersHeard(Next(s, e), heard + HeardNow(s, e))
  {
    hide Inv, ResultsHeard, WorkersHeard, HeardNow;
    ResultsStayHeard(s, e, heard);
    if e.Work? && e.offset in s.workers {
      WorkStaysHeard(s, e.offset, e.reply, heard);
    } else if e.Work? {
      NothingHeard(s, e, heard);
    } else {
      OtherWorkersStayHeard(s, e, heard);
    }
  }

  lemma NothingHeard(s: Scan, e: Event, heard: set<(string, Fact)>)
    requires e.Work? && e.offset !in s.workers
    ensures Next(s, e) == s && heard + HeardNow(s, e) == heard
  {
  }

  lemma {:induction false} HeardOverRun(s: Scan, events: seq<Event>, heard: set<(string, Fact)>)
    requires Inv(s) && ResultsHeard(s, heard) && WorkersHeard(s, heard)
    ensures ResultsHeard(Run(s, events), heard + Heard(s, events))
    decreases |events|
  {
    hide Inv, Next, ResultsHeard, WorkersHeard, HeardNow;
    if events == [] {
      assert heard + Heard(s, events) == heard;
    } else {
      var e := events[0];
      NextKeepsInv(s, e);
      NextStaysHeard(s, e, heard);
      HeardOverRun(Next(s, e), events[1..], heard + HeardNow(s, e));
      assert heard + HeardNow(s, e) + Heard(Next(s, e), events[1..]) == heard + Heard(s, events);
    }
  }

  // ---------------------------------------------------------------- nothing is lost

  /** What a body has been told and not yet published. */
  function Pending(w: Worker): set<Fact> {
    match w.step
    case LookingUp => SeenAll(w.evidence)
    case Resolving => SeenAll(w.evidence)
    case Merging => SeenAll(w.evidence)
    case Publishing(d, _) => Facts(d)
    case _ => {}
  }

  predicate InFlight(s: Scan, o: nat, address: string, f: Fact) {
    o in s.workers && AddressOf(s, o) == address && (s.workers[o].step.Stopped? || f in Pending(s.workers[o]))
  }

  /** What was heard of the address is in the table, or on its way with a body that was not stopped. */
  ghost predicate Credited(s: Scan, address: string, f: Fact) {
    Says(s, address, f) || exists o :: InFlight(s, o, address, f)
  }

  ghost predicate AllCredited(s: Scan, heard: set<(string, Fact)>) {
    forall a, f | (a, f) in heard && Lasting(f) :: Credited(s, a, f)
  }

  /** A step of a body keeps what is pending, or publishes it. */
  lemma AdvancePends(w: Worker, address: string, known: Option<Found>, reply: Reply)
    ensures var next := Advance(w, address, known, false, reply);
            && (forall f | Lasting(f) && f in Pending(w) :: w.step.Publishing? || f in Pending(next))
            && (forall f | Lasting(f) && f in Told(w, reply) :: f in Pending(next))
            && (w.step.Stopped? ==> next.step.Stopped?)
  {
    hide IsUsableMac, Merge;
  }

  lemma SaysStays(s: Scan, t: Scan, address: string, f: Fact)
    requires Grew(s.results, t.results) && Says(s, address, f) && Lasting(f)
    ensures Says(t, address, f)
  {
    assert Keeps(s.results[address], t.results[address]);
  }

  lemma WorkCredits(s: Scan, offset: nat, reply: Reply, heard: set<(string, Fact)>)
    requires Inv(s) && !s.cancelled && offset in s.workers && AllCredited(s, heard)
    ensures AllCredited(Next(s, Work(offset, reply)), heard + HeardNow(s, Work(offset, reply)))
  {
    hide Inv, WorkStep, AddressOf, Advance, Pending, Told, Facts, Grew, Says;
    var e := Work(offset, reply);
    var t := Next(s, e);
    var w, address := s.workers[offset], AddressOf(s, offset);
    NextKeepsInv(s, e);
    WorkShape(s, offset, reply);
    AddressKept(s, t);
    AdvancePends(w, address, Lookup(s.results, address), reply);
    forall a, f | (a, f) in heard + HeardNow(s, e) && Lasting(f) ensures Credited(t, a, f) {
      if Says(s, a, f) {
        SaysStays(s, t, a, f);
      } else if (a, f) in heard {
        var o :| InFlight(s, o, a, f);
        if o != offset || w.step.Stopped? {
          StaysInFlight(s, t, o, a, f);
        } else if w.step.Publishing? {
          PublishesPending(s, offset, reply, f);
        } else {
          assert InFlight(t, offset, a, f);
        }
      } else {
        assert InFlight(t, offset, a, f);
      }
    }
  }

  lemma StaysInFlight(s: Scan, t: Scan, o: nat, address: string, f: Fact)
    requires InFlight(s, o, address, f) && o in t.workers && s.range == t.range
    requires t.workers[o] == s.workers[o] || t.workers[o].step.Stopped?
    ensures InFlight(t, o, address, f)
  {
    hide AddressAt;
  }

  lemma PublishesPending(s: Scan, offset: nat, reply: Reply, f: Fact)
    requires Inv(s) && !s.cancelled && offset in s.workers
    requires s.workers[offset].step.Publishing? && f in Pending(s.workers[offset])
    requires Lasting(f)
    ensures Says(Next(s, Work(offset, reply)), AddressOf(s, offset), f)
  {
    hide Inv, AddressOf, Published, Facts, Next, Sound, InRange, Ip.Parse, IsUsableMac, Lookup, Says;
    PublishingIsSound(s, offset);
    NextPublishes(s, Work(offset, reply));
    PublishedSays(s, Next(s, Work(offset, reply)), s.workers[offset].step.d, AddressOf(s, offset), f);
  }

  lemma OthersCredit(s: Scan, e: Event, heard: set<(string, Fact)>)
    requires Inv(s) && !s.cancelled && !e.Work? && AllCredited(s, heard)
    ensures AllCredited(Next(s, e), heard + HeardNow(s, e))
  {
    hide Inv, Next, AddressOf, Facts, Grew, Says, HeardNow, Pending;
    var t := Next(s, e);
    NextKeepsInv(s, e);
    NextKeepsRange(s, e);
    forall a, f | (a, f) in heard + HeardNow(s, e) && Lasting(f) ensures Credited(t, a, f) {
      if Says(s, a, f) {
        SaysStays(s, t, a, f);
      } else if (a, f) in heard {
        var o :| InFlight(s, o, a, f);
        OtherWorkers(s, e, o);
        StaysInFlight(s, t, o, a, f);
      } else {
        HeardIsCredited(s, e, a, f);
      }
    }
  }

  lemma HeardIsCredited(s: Scan, e: Event, address: string, f: Fact)
    requires Inv(s) && !s.cancelled && !e.Work? && (address, f) in HeardNow(s, e) && Lasting(f)
    ensures Credited(Next(s, e), address, f)
  {
    hide Inv, AddressOf, IsUsableMac, InRange;
    var t := Next(s, e);
    if e.StartWorker? {
      NextKeepsRange(s, e);
      AddressKept(s, t);
      assert InFlight(t, e.offset, address, f);
    } else {
      CacheEntryIsPublished(s, e, address, f);
    }
  }

  lemma CacheEntryIsPublished(s: Scan, e: Event, address: string, f: Fact)
    requires !s.cancelled && e.ReadNeighbor? && (address, f) in HeardNow(s, e) && Lasting(f)
    ensures Says(Next(s, e), address, f)
  {
    hide Next, Published, IsUsableMac, Ip.Parse;
    NextPublishes(s, e);
    assert f in Facts(Observed(s, e).value);
    PublishedSays(s, Next(s, e), Observed(s, e).value, address, f);
  }

  lemma {:induction false} CreditedOverRun(s: Scan, events: seq<Event>, heard: set<(string, Fact)>)
    requires Inv(s) && AllCredited(s, heard) && !Run(s, events).cancelled
    ensures !s.cancelled && AllCredited(Run(s, events), heard + Heard(s, events))
    decreases |events|
  {
    hide Inv, Next, AllCredited, HeardNow;
    if events == [] {
      assert heard + Heard(s, events) == heard;
    } else {
      var e := events[0];
      if s.cancelled {
        UnchangedOverRun(s, events);
      }
      NextKeepsInv(s, e);
      if e.Work? && e.offset in s.workers {
        WorkCredits(s, e.offset, e.reply, heard);
      } else if e.Work? {
        NothingHeard(s, e, heard);
      } else {
        OthersCredit(s, e, heard);
      }
      CreditedOverRun(Next(s, e), events[1..], heard + HeardNow(s, e));
      assert heard + HeardNow(s, e) + Heard(Next(s, e), events[1..]) == heard + Heard(s, events);
    }
  }

  lemma NextStaysCancelled(s: Scan, e: Event)
    ensures s.cancelled ==> Next(s, e).cancelled && Next(s, e).results == s.results && Next(s, e).history == s.history
  {
    hide Advance, AddressOf, Published, IsUsableMac, AllDone, BeginWorker, Ip.Parse;
  }

  /** Once a scan is cancelled nothing more is published, in whatever schedule it goes on. */
  lemma NothingAfterCancel(s: Scan, events: seq<Event>)
    ensures var t := Run(Next(s, Cancel), events);
            t.cancelled && t.results == s.results && t.history == s.history
  {
    hide Run, Next;
    CancelTakesHold(s);
    UnchangedOverRun(Next(s, Cancel), events);
  }

  lemma CancelTakesHold(s: Scan)
    ensures Next(s, Cancel) == s.(cancelled := true)
  {
  }

  lemma {:induction false} UnchangedOverRun(s: Scan, events: seq<Event>)
    requires s.cancelled
    ensures Run(s, events).cancelled && Run(s, events).results == s.results && Run(s, events).history == s.history
    decreases |events|
  {
    hide Next;
    if events != [] {
      NextStaysCancelled(s, events[0]);
      UnchangedOverRun(Next(s, events[0]), events[1..]);
    }
  }

  // ---------------------------------------------------------------- the theorems

  /**
   * In every schedule, whatever a record says of its address was heard of that address: its evidence, MAC address, hostname and
   * vendor, and the time of its live observation.
   */
  lemma NothingIsMadeUp(network: NetworkInterface, range: Range, events: seq<Event>)
    requires GoodRange(range)
    ensures var start := Start(network, range);
            forall a, f | Says(Run(start, events), a, f) :: (a, f) in Heard(start, events)
  {
    hide Run, Inv, Next, Heard, Says;
    var start := Start(network, range);
    StartInv(network, range);
    NothingYet(start);
    HeardOverRun(start, events, {});
    assert {} + Heard(start, events) == Heard(start, events);
  }

  lemma NothingYet(s: Scan)
    requires s.results == map[] && s.workers == map[]
    ensures ResultsHeard(s, {}) && WorkersHeard(s, {}) && AllCredited(s, {})
  {
  }

  /**
   * When a scan that nobody cancelled has finished, in whatever schedule, its table says of every address exactly what was heard
   * of it: which of the four kinds of evidence there is, and whether it has a name.
   */
  lemma TableSaysWhatWasHeard(network: NetworkInterface, range: Range, events: seq<Event>)
    requires GoodRange(range)
    requires var s := Run(Start(network, range), events); s.phase.Finished? && !s.cancelled
    ensures var start := Start(network, range);
            forall a, f | Lasting(f) :: Says(Run(start, events), a, f) <==> (a, f) in Heard(start, events)
  {
    hide Run, Inv, Next, Heard, Says, AddressOf, Pending;
    var start := Start(network, range);
    var s := Run(start, events);
    StartInv(network, range);
    NothingYet(start);
    NothingIsMadeUp(network, range, events);
    CreditedOverRun(start, events, {});
    assert {} + Heard(start, events) == Heard(start, events);
    EveryScanKeepsInv(start, events);
    InvGivesQuiet(s);
    forall a, f | (a, f) in Heard(start, events) && Lasting(f) ensures Says(s, a, f) {
      assert Credited(s, a, f);
      if o :| InFlight(s, o, a, f) {
        NothingPends(s.workers[o]);
      }
    }
  }

  /**
   * So after such a scan every address that answered ARP is in the table with that evidence and a MAC address, and every address
   * whose name was found is there with a name.
   */
  lemma AnswersAreListed(network: NetworkInterface, range: Range, events: seq<Event>, a: string)
    requires GoodRange(range)
    requires var s := Run(Start(network, range), events); s.phase.Finished? && !s.cancelled
    ensures var s, heard := Run(Start(network, range), events), Heard(Start(network, range), events);
            && ((a, Seen(ArpResolution)) in heard <==>
                  a in s.results && ArpResolution in s.results[a].evidence && s.results[a].mac != "")
            && ((a, Named) in heard <==> a in s.results && s.results[a].hostname != "")
  {
    hide Run, Inv, Next, Heard, Says;
    var start := Start(network, range);
    StartInv(network, range);
    EveryScanKeepsInv(start, events);
    TableSaysWhatWasHeard(network, range, events);
    assert Says(Run(start, events), a, Seen(ArpResolution)) <==> (a, Seen(ArpResolution)) in Heard(start, events);
    assert Says(Run(start, events), a, Named) <==> (a, Named) in Heard(start, events);
    SaysIn(Run(start, events), a);
  }

  lemma SaysIn(s: Scan, a: string)
    requires Inv(s)
    ensures Says(s, a, Seen(ArpResolution)) <==>
              a in s.results && ArpResolution in s.results[a].evidence && s.results[a].mac != ""
    ensures Says(s, a, Named) <==> a in s.results && s.results[a].hostname != ""
  {
    hide WorkersOk, ReportsOk, EvidenceOk, ShownOk, KeysOk, PhaseOk, CountOk;
  }

  lemma NothingPends(w: Worker)
    requires w.step.Done?
    ensures Pending(w) == {}
  {
  }

  /** The loop visits the address. */
  predicate Visits(range: Range, address: string) {
    exists offset: nat | offset < range.count :: Ip.Format(AddressAt(range, offset)) == address
  }

  lemma {:induction false} OnlyTheInterfaceIsLocal(s: Scan, events: seq<Event>, address: string)
    requires (address, Seen(LocalInterface)) in Heard(s, events)
    ensures address == s.network.address && Visits(s.range, address)
    decreases |events|
  {
    hide Next, IsUsableMac, InRange, AddressAt, Ip.Format;
    if (address, Seen(LocalInterface)) !in HeardNow(s, events[0]) {
      NextKeepsRange(s, events[0]);
      OnlyTheInterfaceIsLocal(Next(s, events[0]), events[1..], address);
    }
  }

  /** A started body of the interface's own address has been told so. */
  ghost predicate LocalsHeard(s: Scan, heard: set<(string, Fact)>) {
    forall o | o in s.workers && AddressOf(s, o) == s.network.address :: (s.network.address, Seen(LocalInterface)) in heard
  }

  lemma {:induction false} LocalsHeardOverRun(s: Scan, events: seq<Event>, heard: set<(string, Fact)>)
    requires LocalsHeard(s, heard)
    ensures LocalsHeard(Run(s, events), heard + Heard(s, events))
    decreases |events|
  {
    hide Next, AddressOf;
    if events == [] {
      assert heard + Heard(s, events) == heard;
    } else {
      var e := events[0];
      var t := Next(s, e);
      NextKeepsRange(s, e);
      AddressKept(s, t);
      forall o | o in t.workers && AddressOf(t, o) == t.network.address
        ensures (t.network.address, Seen(LocalInterface)) in heard + HeardNow(s, e)
      {
        if e.Work? {
          WorkersStay(s, e);
        } else {
          OtherWorkers(s, e, o);
        }
      }
      LocalsHeardOverRun(t, events[1..], heard + HeardNow(s, e));
      assert heard + HeardNow(s, e) + Heard(t, events[1..]) == heard + Heard(s, events);
    }
  }

  lemma WorkersStay(s: Scan, e: Event)
    requires e.Work?
    ensures Next(s, e).workers.Keys == s.workers.Keys
  {
    hide WorkStep;
    if e.offset in s.workers {
      WorkShape(s, e.offset, e.reply);
    }
  }

  /**
   * A device is shown online only if its address answered a ping in this scan, or is the selected interface itself: no
   * entry of the neighbour cache and no ARP answer, in whatever order they come, ever makes it so.
   */
  lemma OnlineMeansAnswered(network: NetworkInterface, range: Range, events: seq<Event>)
    requires GoodRange(range)
    ensures var s := Run(Start(network, range), events);
            forall a | a in s.results && IsOnline(s.results[a]) ::
              a in Answered(Start(network, range), events) || (a == network.address && Visits(range, a))
  {
    hide Run, Heard, Visits;
    var start := Start(network, range);
    var s := Run(start, events);
    NothingIsMadeUp(network, range, events);
    forall a | a in s.results && IsOnline(s.results[a])
      ensures a in Answered(start, events) || (a == network.address && Visits(range, a))
    {
      if PingReply in s.results[a].evidence {
        assert Says(s, a, Seen(PingReply));
        assert (a, Seen(PingReply)) in Heard(start, events);
      } else {
        assert Says(s, a, Seen(LocalInterface));
        OnlyTheInterfaceIsLocal(start, events, a);
      }
    }
  }

  /**
   * And once such a scan has finished uncancelled, every address that answered a ping is in the table and shown online with the
   * time of a live observation, and so is the interface's own address if the range visits it; nothing else is.
   */
  lemma OnlineIffAnswered(network: NetworkInterface, range: Range, events: seq<Event>)
    requires GoodRange(range)
    requires var s := Run(Start(network, range), events); s.phase.Finished? && !s.cancelled
    ensures var s := Run(Start(network, range), events);
            forall a :: a in s.results && IsOnline(s.results[a]) && s.results[a].liveAt.Some? <==>
              a in Answered(Start(network, range), events) || (a == network.address && Visits(range, a))
  {
    hide Run, Heard, Inv, AddressOf, Visits;
    var start := Start(network, range);
    var s := Run(start, events);
    OnlineMeansAnswered(network, range, events);
    TableSaysWhatWasHeard(network, range, events);
    ReportedRecordsAreHonest(network, range, events);
    forall a | a in Answered(start, events) ensures a in s.results && IsOnline(s.results[a]) {
      assert (a, Seen(PingReply)) in Heard(start, events);
      assert Says(s, a, Seen(PingReply));
    }
    if Visits(range, network.address) {
      VisitedIsHeard(network, range, events);
      assert Says(s, network.address, Seen(LocalInterface));
    }
  }

  lemma VisitedIsHeard(network: NetworkInterface, range: Range, events: seq<Event>)
    requires GoodRange(range) && Visits(range, network.address)
    requires Run(Start(network, range), events).phase.Finished?
    ensures (network.address, Seen(LocalInterface)) in Heard(Start(network, range), events)
  {
    hide Run, Heard, Inv, Ip.Format, AddressAt;
    var start := Start(network, range);
    var s := Run(start, events);
    LocalsHeardOverRun(start, events, {});
    assert {} + Heard(start, events) == Heard(start, events);
    RangeKept(start, events);
    StartInv(network, range);
    EveryScanKeepsInv(start, events);
    var o: nat :| o < range.count && Ip.Format(AddressAt(range, o)) == network.address;
    assert PhaseOk(s) by {
      InvParts(s);
    }
    assert o in s.workers && AddressOf(s, o) == network.address;
  }
}
