/** The shared state of `ScanAsync` and the local functions that update it. */
module NetworkDiscoveryService {
  import opened Prelude
  import opened Ipv4Text
  import opened Discovery
  import opened NetworkDiscovery

  /** One `ReadNeighbor` event per entry of the neighbour cache. */
  function Reads(neighbors: seq<Neighbor>, vendor: string -> string): seq<Event> {
    seq(|neighbors|, i requires 0 <= i < |neighbors| => ReadNeighbor(neighbors[i], vendor(neighbors[i].mac)))
  }

  lemma {:induction false} ReadsAreIgnored(s: Scan, neighbors: seq<Neighbor>, vendor: string -> string)
    requires !s.phase.FirstNeighbors? && !s.phase.LastNeighbors?
    ensures Run(s, Reads(neighbors, vendor) + [LeaveNeighbors]) == s
    decreases |neighbors|
  {
    if neighbors == [] {
      assert Reads(neighbors, vendor) + [LeaveNeighbors] == [LeaveNeighbors];
      assert [LeaveNeighbors][1..] == [];
    } else {
      var events := Reads(neighbors, vendor) + [LeaveNeighbors];
      assert events[1..] == Reads(neighbors[1..], vendor) + [LeaveNeighbors];
      ReadsAreIgnored(s, neighbors[1..], vendor);
    }
  }

  lemma RunRead(s: Scan, neighbors: seq<Neighbor>, vendor: string -> string, i: nat)
    requires i < |neighbors|
    ensures Run(s, Reads(neighbors[i..], vendor) + [LeaveNeighbors])
              == Run(Next(s, ReadNeighbor(neighbors[i], vendor(neighbors[i].mac))),
                     Reads(neighbors[i + 1..], vendor) + [LeaveNeighbors])
  {
    hide Next;
    var events := Reads(neighbors[i..], vendor) + [LeaveNeighbors];
    assert events[0] == ReadNeighbor(neighbors[i], vendor(neighbors[i].mac));
    assert events[1..] == Reads(neighbors[i + 1..], vendor) + [LeaveNeighbors];
  }

  class ScanRun {
    const network: NetworkInterface
    const range: Range
    var phase: Phase
    var results: map<string, Found>
    /** The suspended bodies of the parallel loop, by offset. */
    var workers: map<nat, Worker>
    var completed: nat
    var cancelled: bool
    var history: seq<Found>
    var reports: seq<Found>

    function View(): Scan
      reads this
    {
      Scan(network, range, phase, results, workers, completed, cancelled, history, reports)
    }

    constructor (network: NetworkInterface, range: Range)
      ensures View() == Start(network, range)
    {
      this.network, this.range := network, range;
      phase, results, workers, completed, cancelled, history, reports := FirstNeighbors, map[], map[], 0, false, [], [];
    }

    /** `results.AddOrUpdate(device.Address, device, …)`, one atomic action of the dictionary. */
    method AddOrUpdate(d: Found) returns (merged: Found)
      modifies this`results, this`history
      ensures View() == NetworkDiscovery.AddOrUpdate(old(View()), d)
      ensures merged == results[d.address] == Merged(Lookup(old(results), d.address), d)
    {
      hide Merge;
      if d.address in results {
        merged := Merge(results[d.address], d);
      } else {
        merged := d;
      }
      results := results[d.address := merged];
      history := history + [d];
    }

    method Publish(d: Found)
      modifies this
      ensures View() == NetworkDiscovery.Publish(old(View()), d)
    {
      if cancelled {
        return;
      }
      var merged := AddOrUpdate(d);
      reports := reports + [merged];
    }

    /** Reads the cache entries in order; the first text that is not an address ends the pass. */
    method MergeNeighbors(neighbors: seq<Neighbor>, vendor: string -> string)
      requires phase.FirstNeighbors? || phase.LastNeighbors?
      modifies this
      ensures View() == Run(old(View()), Reads(neighbors, vendor) + [LeaveNeighbors])
    {
      hide Parse, IsUsableMac;
      var i := 0;
      assert neighbors[0..] == neighbors;
      while i < |neighbors|
        invariant 0 <= i <= |neighbors|
        invariant phase == old(phase)
        invariant Run(View(), Reads(neighbors[i..], vendor) + [LeaveNeighbors])
               == Run(old(View()), Reads(neighbors, vendor) + [LeaveNeighbors])
      {
        RunRead(View(), neighbors, vendor, i);
        var n := neighbors[i];
        if n.index == network.index && IsUsableMac(n.mac) {
          var ip := Parse(n.address);
          if ip.None? {
            Leave();
            ReadsAreIgnored(View(), neighbors[i + 1..], vendor);
            return;
          }
          if range.start <= ip.value <= range.end {
            Publish(Found(n.address, n.mac, "", vendor(n.mac), {NeighborCache}, None));
          }
        }
        i := i + 1;
      }
      Leave();
    }

    method Leave()
      requires phase.FirstNeighbors? || phase.LastNeighbors?
      modifies this
      ensures View() == LeaveNeighborsStep(old(View()))
      ensures !phase.FirstNeighbors? && !phase.LastNeighbors?
    {
      if phase.FirstNeighbors? {
        phase := Scanning;
      } else {
        phase := Finished(completed, |results|);
      }
    }

    /** One step of a body of the parallel loop, the others standing still. */
    method Resume(offset: nat, reply: Reply)
      requires offset in workers
      requires workers[offset].step.Publishing? ==> workers[offset].step.d.address == AddressOf(View(), offset)
      modifies this
      ensures View() == WorkStep(old(View()), offset, reply)
    {
      hide Merge, Format, AddressAt, IsUsableMac, Blank;
      var w := workers[offset];
      var address := Format(AddressAt(range, offset));
      var known := if address in results then Some(results[address]) else None;
      match w.step {
        case Pinging =>
          if reply.ping {
            w := w.(evidence := w.evidence + {PingReply}, liveAt := Some(reply.at));
          }
          w := w.(step := LookingUp);
        case LookingUp =>
          if known.Some? && IsUsableMac(known.value.mac) {
            w := w.(mac := Some(known.value.mac), step := Merging);
          } else {
            w := w.(step := Resolving);
          }
        case Resolving =>
          w := w.(mac := reply.mac, step := Merging);
          if reply.mac.Some? && reply.mac.value != "" {
            w := w.(evidence := w.evidence + {ArpResolution});
          }
        case Merging =>
          w := AfterMerge(w, address, known, reply.vendor);
        case Publishing(d, named) =>
          if cancelled {
            w := AfterReport(w, d, named);
          } else {
            var merged := AddOrUpdate(d);
            w := w.(step := Reporting(d, merged, named));
          }
        case Reporting(d, merged, named) =>
          reports := reports + [merged];
          w := AfterReport(w, d, named);
        case Naming(d) =>
          w := AfterName(w, d, reply.hostname);
        case Counting =>
          completed := completed + 1;
          w := w.(step := Done);
        case Done =>
        case Stopped =>
      }
      workers := workers[offset := w];
    }
  }

}
