/** What a scan asks the network about each address. */
module DiscoveryQuestions {
  import opened Prelude
  import opened Discovery
  import opened NetworkDiscovery
  import Ip = Ipv4Text

  /** One step of the body for an address: its locals and the dictionary's entry for the address as the step begins. */
  datatype Turn = Turn(worker: Worker, known: Option<Found>)

  predicate IsTurn(s: Scan, e: Event, offset: nat) {
    e.Work? && e.offset == offset && offset in s.workers
  }

  /** The steps of the body for one address, in order. */
  function Turns(s: Scan, events: seq<Event>, offset: nat): seq<Turn>
    decreases |events|
  {
    if events == [] then [] else
      var rest := Turns(Next(s, events[0]), events[1..], offset);
      if IsTurn(s, events[0], offset) then [Turn(s.workers[offset], Lookup(s.results, AddressOf(s, offset)))] + rest
      else rest
  }

  predicate PingAsked(turns: seq<Turn>) {
    exists t | t in turns :: t.worker.step.Pinging?
  }

  predicate ArpAsked(turns: seq<Turn>) {
    exists t | t in turns :: t.worker.step.Resolving?
  }

  predicate NameAsked(turns: seq<Turn>) {
    exists t | t in turns :: t.worker.step.Naming?
  }

  /** A usable MAC address was in the dictionary when the body looked for one. */
  predicate MacFound(turns: seq<Turn>) {
    exists t | t in turns :: t.worker.step.LookingUp? && t.known.Some? && IsUsableMac(t.known.value.mac)
  }

  /** When its evidence was put together, neither the network nor the dictionary knew of the address. */
  predicate NothingFound(turns: seq<Turn>) {
    exists t | t in turns ::
      t.worker.step.Merging? && t.worker.evidence == {} && (t.known.None? || t.known.value.evidence == {})
  }

  predicate MayAskArp(step: Step) {
    step.Pinging? || step.LookingUp? || step.Resolving?
  }

  predicate WillAskName(step: Step) {
    step.Naming? || ((step.Publishing? || step.Reporting?) && !step.named)
  }

  /** What a body at this step has still to ask until it is done. */
  predicate StillAsks(step: Step, turns: seq<Turn>) {
    && (PingAsked(turns) <==> step.Pinging?)
    && (ArpAsked(turns) ==> MayAskArp(step))
    && (step.Resolving? ==> ArpAsked(turns))
    && (step.Pinging? || step.LookingUp? ==> ArpAsked(turns) || MacFound(turns))
    && (MayAskArp(step) || step.Merging? ==> NameAsked(turns) || NothingFound(turns))
    && (WillAskName(step) ==> NameAsked(turns))
  }

  lemma OneMoreTurn(s: Scan, offset: nat, reply: Reply, turns: seq<Turn>)
    requires offset in s.workers
    requires StillAsks(WorkStep(s, offset, reply).workers[offset].step, turns)
    ensures StillAsks(s.workers[offset].step, [Turn(s.workers[offset], Lookup(s.results, AddressOf(s, offset)))] + turns)
  {
    hide AddressOf, IsUsableMac, Merge, Published;
    var turn := Turn(s.workers[offset], Lookup(s.results, AddressOf(s, offset)));
    assert turn in [turn] + turns;
    assert forall t :: t in [turn] + turns <==> t == turn || t in turns;
  }

  lemma NotItsTurn(s: Scan, e: Event, offset: nat)
    requires offset in s.workers && !IsTurn(s, e, offset)
    ensures offset in Next(s, e).workers
    ensures Next(s, e).workers[offset] == s.workers[offset] || Next(s, e).workers[offset].step.Stopped?
  {
    hide Advance, AddressOf, Lookup, IsUsableMac, Ip.Parse, Published, AllDone, BeginWorker;
  }

  lemma {:induction false} StoppedStays(s: Scan, events: seq<Event>, offset: nat)
    requires offset in s.workers && s.workers[offset].step.Stopped?
    ensures offset in Run(s, events).workers && Run(s, events).workers[offset].step.Stopped?
    decreases |events|
  {
    hide Next;
    if events != [] {
      if IsTurn(s, events[0], offset) {
        TurnAdvances(s, offset, events[0].reply);
      } else {
        NotItsTurn(s, events[0], offset);
      }
      StoppedStays(Next(s, events[0]), events[1..], offset);
    }
  }

  lemma TurnAdvances(s: Scan, offset: nat, reply: Reply)
    requires offset in s.workers
    ensures Next(s, Work(offset, reply)) == WorkStep(s, offset, reply)
    ensures offset in WorkStep(s, offset, reply).workers
    ensures s.workers[offset].step.Stopped? ==> WorkStep(s, offset, reply).workers[offset].step.Stopped?
  {
    hide AddressOf, IsUsableMac, Published;
  }

  predicate EndsDone(s: Scan, events: seq<Event>, offset: nat) {
    offset in Run(s, events).workers && Run(s, events).workers[offset].step.Done?
  }

  lemma {:induction false} BodyAsks(s: Scan, events: seq<Event>, offset: nat)
    requires offset in s.workers && EndsDone(s, events, offset)
    ensures StillAsks(s.workers[offset].step, Turns(s, events, offset))
    decreases |events|
  {
    hide Next, WorkStep, StillAsks;
    if events == [] {
      NothingToAsk();
    } else {
      var t := Next(s, events[0]);
      if IsTurn(s, events[0], offset) {
        TurnAdvances(s, offset, events[0].reply);
        BodyAsks(t, events[1..], offset);
        OneMoreTurn(s, offset, events[0].reply, Turns(t, events[1..], offset));
      } else {
        NotItsTurn(s, events[0], offset);
        if t.workers[offset].step.Stopped? {
          StoppedStays(t, events[1..], offset);
        }
        BodyAsks(t, events[1..], offset);
      }
    }
  }

  lemma NothingToAsk()
    ensures StillAsks(Done, [])
  {
  }

  /** What is asked about an address that is not the interface's own, and about that one. */
  predicate Asked(remote: bool, turns: seq<Turn>) {
    && (PingAsked(turns) <==> remote)
    && (remote ==> ArpAsked(turns) || MacFound(turns))
    && (ArpAsked(turns) ==> remote)
    && (NameAsked(turns) || NothingFound(turns))
  }

  lemma {:induction false} NewBodyAsks(s: Scan, events: seq<Event>, offset: nat)
    requires offset !in s.workers && EndsDone(s, events, offset)
    ensures Asked(AddressOf(s, offset) != s.network.address, Turns(s, events, offset))
    decreases |events|
  {
    hide Next, AddressOf, Asked, StillAsks;
    if events != [] {
      var t := Next(s, events[0]);
      NotYet(s, events[0], offset);
      if offset in t.workers {
        BodyAsks(t, events[1..], offset);
        FromTheBeginning(t.workers[offset].step, Turns(t, events[1..], offset));
      } else {
        NewBodyAsks(t, events[1..], offset);
      }
    }
  }

  lemma NotYet(s: Scan, e: Event, offset: nat)
    requires offset !in s.workers
    ensures var t := Next(s, e);
            && AddressOf(t, offset) == AddressOf(s, offset) && t.network == s.network
            && (offset in t.workers ==>
                  t.workers[offset].step == if AddressOf(s, offset) == s.network.address then Merging else Pinging)
  {
    hide Next, AddressOf;
    NextKeepsRange(s, e);
    SameAddress(s, Next(s, e), offset);
    if offset in Next(s, e).workers {
      BeginsHere(s, e, offset);
    }
  }

  lemma SameAddress(s: Scan, t: Scan, offset: nat)
    requires s.range == t.range
    ensures AddressOf(t, offset) == AddressOf(s, offset)
  {
  }

  lemma BeginsHere(s: Scan, e: Event, offset: nat)
    requires offset !in s.workers && offset in Next(s, e).workers
    ensures Next(s, e).workers[offset].step == if AddressOf(s, offset) == s.network.address then Merging else Pinging
  {
    hide Advance, AddressOf, Lookup, IsUsableMac, Ip.Parse, Published, AllDone;
  }

  lemma FromTheBeginning(step: Step, turns: seq<Turn>)
    requires StillAsks(step, turns)
    ensures step.Pinging? ==> Asked(true, turns)
    ensures step.Merging? ==> Asked(false, turns)
  {
  }

  /**
   * When a scan has finished, in whatever schedule, every address of the range but the interface's own was pinged and, unless a
   * usable MAC address was known of it by then, asked for by ARP; the own address was not. Each was asked for its name unless
   * nothing at all was known of it.
   */
  lemma EveryAddressIsAsked(network: NetworkInterface, range: Range, events: seq<Event>, offset: nat)
    requires GoodRange(range) && offset < range.count
    requires Run(Start(network, range), events).phase.Finished?
    ensures var s := Start(network, range);
            Asked(AddressOf(s, offset) != network.address, Turns(s, events, offset))
  {
    hide Run, Next, Asked, AddressOf;
    var s := Start(network, range);
    StartInv(network, range);
    EveryScanKeepsInv(s, events);
    RangeKept(s, events);
    FinishedIsDone(Run(s, events), offset);
    NewBodyAsks(s, events, offset);
  }

  lemma FinishedIsDone(s: Scan, offset: nat)
    requires Inv(s) && s.phase.Finished? && offset < s.range.count
    ensures offset in s.workers && s.workers[offset].step.Done?
  {
  }
}
