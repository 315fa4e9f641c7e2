/** What a scan may cover (`DiscoveryRequest`), and what it finds (`DiscoveredDevice`). */
module Discovery {
  import opened Prelude
  import opened Bits
  import opened Ipv4Text
  import opened Ipv4Subnet
  import Mac = MacAddress

  datatype NetworkInterface = NetworkInterface(id: string, index: int, address: string, mask: string, mac: string)

  datatype Request = Request(
    network: NetworkInterface, startAddress: string, endAddress: string, concurrency: int, timeout: int)

  datatype Range = Range(start: UInt32, end: UInt32, count: nat)

  datatype RequestError = BadLimits | BadAddress | Reversed | BadSubnet | NotAHost | TooMany

  const MAXIMUM := 4096

  function CheckHosts(subnet: Subnet, start: UInt32, end: UInt32): Result<Range, RequestError> {
    if !subnet.ContainsHost(start) || !subnet.ContainsHost(end) then Err(NotAHost)
    else
      var count := (end - start + 1) % 0x1_0000_0000_0000_0000;
      if count > MAXIMUM then Err(TooMany) else Ok(Range(start, end, count))
  }

  /** `DiscoveryRequest.Validate`; the count is taken in 64 bits. */
  function Validate(r: Request): Result<Range, RequestError> {
    if !(1 <= r.concurrency <= 64) || !(100 <= r.timeout <= 10000) then Err(BadLimits)
    else if Parse(r.startAddress).None? || Parse(r.endAddress).None? then Err(RequestError.BadAddress)
    else
      var start, end := Parse(r.startAddress).value, Parse(r.endAddress).value;
      var subnet := Create(r.network.address, r.network.mask);
      if end < start then Err(Reversed)
      else if subnet.Err? then Err(BadSubnet)
      else CheckHosts(subnet.value, start, end)
  }

  /** `range.Start + (uint)offset`. */
  function AddressAt(range: Range, offset: nat): UInt32 {
    (range.start + offset) % 0x1_0000_0000
  }

  /** The addresses the worker loop visits. */
  ghost function Visited(range: Range): set<int> {
    set offset: nat | offset < range.count :: AddressAt(range, offset)
  }

  lemma VisitedIsInterval(range: Range)
    requires range.count == range.end - range.start + 1
    ensures Visited(range) == Interval(range.start, range.end)
  {
    hide Interval;
    forall x | x in Interval(range.start, range.end) ensures x in Visited(range) {
      assert AddressAt(range, x - range.start) == x;
    }
  }

  /**
   * An accepted scan visits each address from start to end exactly once, none of them by wrapping around, all of
   * them usable hosts of the selected interface's subnet, and at most 4096 in all.
   */
  lemma ScanCoversTheRange(r: Request)
    requires Validate(r).Ok?
    ensures var range := Validate(r).value;
            var subnet := Create(r.network.address, r.network.mask);
            && 1 <= range.count <= MAXIMUM && range.count == range.end - range.start + 1
            && subnet.Ok?
            && (forall offset: nat | offset < range.count ::
                  AddressAt(range, offset) == range.start + offset && subnet.value.ContainsHost(AddressAt(range, offset)))
            && Visited(range) == Interval(range.start, range.end)
            && |Visited(range)| == range.count
  {
    hide Parse, Create, Visited, Interval;
    VisitedIsInterval(Validate(r).value);
  }

  /** Every address from `start` to `end` is a usable host of the subnet. */
  ghost predicate AllHosts(subnet: Subnet, start: UInt32, end: UInt32) {
    forall x: UInt32 | start <= x <= end :: subnet.ContainsHost(x)
  }

  /** A scan is accepted exactly within the limits, over 1 to 4096 addresses in order, all hosts of the interface's subnet. */
  lemma AcceptedIff(r: Request)
    ensures Validate(r).Ok? <==>
              && 1 <= r.concurrency <= 64 && 100 <= r.timeout <= 10000
              && Parse(r.startAddress).Some? && Parse(r.endAddress).Some? && Create(r.network.address, r.network.mask).Ok?
              && var start, end := Parse(r.startAddress).value, Parse(r.endAddress).value;
                 1 <= end - start + 1 <= MAXIMUM && AllHosts(Create(r.network.address, r.network.mask).value, start, end)
    ensures Validate(r).Ok? ==>
              Validate(r).value.start == Parse(r.startAddress).value && Validate(r).value.end == Parse(r.endAddress).value
  {
    hide Parse, Create;
    if Parse(r.startAddress).Some? && Parse(r.endAddress).Some? && Create(r.network.address, r.network.mask).Ok? {
      var start, end := Parse(r.startAddress).value, Parse(r.endAddress).value;
      EndsAreHosts(Create(r.network.address, r.network.mask).value, start, end);
    }
  }

  lemma EndsAreHosts(subnet: Subnet, start: UInt32, end: UInt32)
    ensures start <= end ==> (AllHosts(subnet, start, end) <==> subnet.ContainsHost(start) && subnet.ContainsHost(end))
  {
  }

  datatype Evidence = NeighborCache | ArpResolution | PingReply | LocalInterface

  /** `Evidence` is the set of flags. */
  datatype Found = Found(
    address: string, mac: string, hostname: string, vendor: string, evidence: set<Evidence>, liveAt: Option<Time>)

  predicate IsOnline(d: Found) {
    PingReply in d.evidence || LocalInterface in d.evidence
  }

  /** Evidence that can only come with a MAC address. */
  predicate NeedsMac(d: Found) {
    NeighborCache in d.evidence || ArpResolution in d.evidence
  }

  /** `NetworkDiscoveryService.IsUsableMac`: a unicast address that is not all zeros. */
  predicate IsUsableMac(value: string) {
    match Mac.Normalize(value)
    case Ok(mac) => Mac.NormalizeIsNormal(value); !Mac.IsMulticast(mac) && !Mac.IsZero(mac)
    case Err(_) => false
  }

  lemma UsableMacIsNotEmpty(value: string)
    requires IsUsableMac(value)
    ensures value != ""
  {
  }

  /** The update of `AddOrUpdate`: the new observation wins where it says something. */
  function Merge(known: Found, d: Found): Found {
    Found(d.address,
          if d.mac != "" then d.mac else known.mac,
          if d.hostname != "" then d.hostname else known.hostname,
          if d.vendor != "" then d.vendor else known.vendor,
          known.evidence + d.evidence,
          if d.liveAt.Some? then d.liveAt else known.liveAt)
  }

  function Published(results: map<string, Found>, d: Found): map<string, Found> {
    results[d.address := if d.address in results then Merge(results[d.address], d) else d]
  }
}
