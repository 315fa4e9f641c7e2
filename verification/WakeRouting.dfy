/** `WakeRouting.Select`: which interface and broadcast address a wake packet is sent through. */
module WakeRouting {
  import opened Prelude
  import opened Ipv4Text
  import opened Ipv4Subnet
  import opened Discovery
  import opened Devices

  datatype WakeDestination = WakeDestination(network: NetworkInterface, broadcast: string, port: int)

  datatype RouteError = WakeDisabled | BadInterface | InterfaceUnavailable | BadTarget | NoMatch | Ambiguous

  const LIMITED_BROADCAST := "255.255.255.255"

  /** `n.Subnet`, which throws where `Create` fails. */
  function SubnetOf(n: NetworkInterface): Result<Subnet, SubnetError> {
    Create(n.address, n.mask)
  }

  /** The test of one of the successive `Where` calls. */
  type Criterion = NetworkInterface -> bool

  function Broadcasts(): Criterion {
    n => SubnetOf(n).Ok? && SubnetOf(n).value.prefixLength < 31
  }

  function Named(id: string): Criterion {
    (n: NetworkInterface) => n.id == id
  }

  function Directed(broadcast: string): Criterion {
    n => SubnetOf(n).Ok? && Format(SubnetOf(n).value.broadcast) == broadcast
  }

  function Reaching(address: string): Criterion {
    n => SubnetOf(n).Ok? && Parse(address).Some? && SubnetOf(n).value.ContainsHost(Parse(address).value)
  }

  function Where(interfaces: seq<NetworkInterface>, c: Criterion): seq<NetworkInterface> {
    if interfaces == [] then [] else
      var rest := Where(interfaces[..|interfaces| - 1], c);
      var last := interfaces[|interfaces| - 1];
      if c(last) then rest + [last] else rest
  }

  predicate AllHaveSubnets(interfaces: seq<NetworkInterface>) {
    forall i | 0 <= i < |interfaces| :: SubnetOf(interfaces[i]).Ok?
  }

  function Target(ipv4: string, resolved: Option<string>): string {
    if ipv4 != "" then ipv4 else resolved.GetOr("")
  }

  predicate HasDirected(wake: WakeConfiguration) {
    wake.broadcastAddress != "" && wake.broadcastAddress != LIMITED_BROADCAST
  }

  /** Neither an interface nor a broadcast address is configured. */
  predicate Automatic(wake: WakeConfiguration) {
    wake.interfaceId == "" && wake.broadcastAddress == ""
  }

  function Choose(wake: WakeConfiguration, candidates: seq<NetworkInterface>): Result<WakeDestination, RouteError> {
    if candidates == [] then Err(NoMatch)
    else if |candidates| != 1 then Err(Ambiguous)
    else if SubnetOf(candidates[0]).Err? then Err(BadInterface)
    else Ok(WakeDestination(
      candidates[0],
      if wake.broadcastAddress == "" then Format(SubnetOf(candidates[0]).value.broadcast) else wake.broadcastAddress,
      wake.port))
  }

  /** Among several, those that reach the target, if there are any. */
  function Prefer(candidates: seq<NetworkInterface>, address: string): seq<NetworkInterface> {
    var matches := Where(candidates, Reaching(address));
    if |candidates| > 1 && address != "" && matches != [] then matches else candidates
  }

  function Narrow(wake: WakeConfiguration, address: string, candidates: seq<NetworkInterface>)
    : Result<WakeDestination, RouteError>
  {
    var preferred := Prefer(candidates, address);
    if |candidates| > 1 && address != "" && Parse(address).None? then Err(BadTarget)
    else if Automatic(wake) && address != "" then
      if preferred != [] && Parse(address).None? then Err(BadTarget) else Choose(wake, Where(preferred, Reaching(address)))
    else Choose(wake, preferred)
  }

  function Configured(wake: WakeConfiguration, interfaces: seq<NetworkInterface>): seq<NetworkInterface> {
    var wide := Where(interfaces, Broadcasts());
    if wake.interfaceId == "" then wide else Where(wide, Named(wake.interfaceId))
  }

  function Candidates(wake: WakeConfiguration, interfaces: seq<NetworkInterface>): seq<NetworkInterface> {
    var named := Configured(wake, interfaces);
    if HasDirected(wake) then Where(named, Directed(wake.broadcastAddress)) else named
  }

  function Select(wake: WakeConfiguration, ipv4: string, interfaces: seq<NetworkInterface>, resolved: Option<string>)
    : Result<WakeDestination, RouteError>
  {
    if wake.capability.Disabled? then Err(WakeDisabled)
    else if !AllHaveSubnets(interfaces) then Err(BadInterface)
    else if wake.interfaceId != "" && Configured(wake, interfaces) == [] then Err(InterfaceUnavailable)
    else Narrow(wake, Target(ipv4, resolved), Candidates(wake, interfaces))
  }

  // ---- Filters ----

  lemma {:induction false} WhereCounts(s: seq<NetworkInterface>, c: Criterion, n: NetworkInterface)
    ensures multiset(Where(s, c))[n] == if c(n) then multiset(s)[n] else 0
  {
    if s != [] {
      var init := s[..|s| - 1];
      WhereCounts(init, c, n);
      assert s == init + [s[|s| - 1]];
    }
  }

  lemma WhereElements(s: seq<NetworkInterface>, c: Criterion)
    ensures forall n :: n in Where(s, c) <==> n in s && c(n)
  {
    hide Where;
    forall n ensures n in Where(s, c) <==> n in s && c(n) {
      WhereCounts(s, c, n);
      assert n in Where(s, c) <==> multiset(Where(s, c))[n] > 0;
    }
  }

  lemma WherePermuted(s: seq<NetworkInterface>, t: seq<NetworkInterface>, c: Criterion)
    requires multiset(s) == multiset(t)
    ensures multiset(Where(s, c)) == multiset(Where(t, c))
  {
    hide Where;
    forall n ensures multiset(Where(s, c))[n] == multiset(Where(t, c))[n] {
      WhereCounts(s, c, n);
      WhereCounts(t, c, n);
    }
  }

  lemma PermutedShape(s: seq<NetworkInterface>, t: seq<NetworkInterface>)
    requires multiset(s) == multiset(t)
    ensures |s| == |t| && (|s| == 1 ==> s == t)
    ensures forall n :: n in s <==> n in t
  {
    assert |s| == |multiset(s)| && |t| == |multiset(t)|;
    forall n ensures n in s <==> n in t {
      assert n in s <==> n in multiset(s);
      assert n in t <==> n in multiset(t);
    }
    if |s| == 1 {
      assert s[0] in t;
    }
  }

  // ---- What is chosen ----

  lemma NarrowPermuted(wake: WakeConfiguration, address: string, s: seq<NetworkInterface>, t: seq<NetworkInterface>)
    requires multiset(s) == multiset(t)
    ensures Narrow(wake, address, s) == Narrow(wake, address, t)
  {
    hide Where, SubnetOf, Parse, Format, Automatic;
    WherePermuted(s, t, Reaching(address));
    PermutedShape(s, t);
    PermutedShape(Where(s, Reaching(address)), Where(t, Reaching(address)));
    var p, q := Prefer(s, address), Prefer(t, address);
    PermutedShape(p, q);
    WherePermuted(p, q, Reaching(address));
    PermutedShape(Where(p, Reaching(address)), Where(q, Reaching(address)));
  }

  /** The result, failure included, does not depend on the order in which the interfaces are listed. */
  lemma SelectIgnoresOrder(
    wake: WakeConfiguration, ipv4: string, s: seq<NetworkInterface>, t: seq<NetworkInterface>, resolved: Option<string>)
    requires multiset(s) == multiset(t)
    ensures Select(wake, ipv4, s, resolved) == Select(wake, ipv4, t, resolved)
  {
    hide Where, SubnetOf, Narrow;
    PermutedShape(s, t);
    assert AllHaveSubnets(s) <==> AllHaveSubnets(t) by {
      AllHaveSubnetsMembers(s);
      AllHaveSubnetsMembers(t);
    }
    WherePermuted(s, t, Broadcasts());
    WherePermuted(Where(s, Broadcasts()), Where(t, Broadcasts()), Named(wake.interfaceId));
    var p, q := Configured(wake, s), Configured(wake, t);
    PermutedShape(p, q);
    WherePermuted(p, q, Directed(wake.broadcastAddress));
    NarrowPermuted(wake, Target(ipv4, resolved), Candidates(wake, s), Candidates(wake, t));
  }

  lemma AllHaveSubnetsMembers(s: seq<NetworkInterface>)
    ensures AllHaveSubnets(s) <==> forall n | n in s :: SubnetOf(n).Ok?
  {
    hide SubnetOf;
  }

  /** The hard conditions: the interface can broadcast, and is the configured one, on the configured broadcast domain. */
  predicate Eligible(wake: WakeConfiguration, n: NetworkInterface) {
    && Broadcasts()(n)
    && (wake.interfaceId != "" ==> n.id == wake.interfaceId)
    && (HasDirected(wake) ==> Directed(wake.broadcastAddress)(n))
  }

  lemma CandidatesAreEligible(wake: WakeConfiguration, interfaces: seq<NetworkInterface>)
    ensures forall n :: n in Candidates(wake, interfaces) <==> n in interfaces && Eligible(wake, n)
  {
    hide Where, SubnetOf, Format, Parse;
    var wide := Where(interfaces, Broadcasts());
    WhereElements(interfaces, Broadcasts());
    WhereElements(wide, Named(wake.interfaceId));
    WhereElements(Configured(wake, interfaces), Directed(wake.broadcastAddress));
  }

  lemma NarrowedIsCandidate(wake: WakeConfiguration, address: string, candidates: seq<NetworkInterface>)
    returns (n: NetworkInterface)
    requires Narrow(wake, address, candidates).Ok?
    ensures n in candidates && Narrow(wake, address, candidates) == Choose(wake, [n])
    ensures Automatic(wake) && address != "" ==> Reaching(address)(n)
  {
    hide Where, SubnetOf, Format, Parse, Automatic;
    var preferred := Prefer(candidates, address);
    WhereElements(candidates, Reaching(address));
    WhereElements(preferred, Reaching(address));
    var last := if Automatic(wake) && address != "" then Where(preferred, Reaching(address)) else preferred;
    n := last[0];
    assert last == [n];
  }

  /**
   * A chosen interface can carry a broadcast, is the configured interface and on the configured broadcast domain where those
   * are set, reaches the target where neither is, and gets the configured broadcast address or its own.
   */
  lemma SelectIsSound(
    wake: WakeConfiguration, ipv4: string, interfaces: seq<NetworkInterface>, resolved: Option<string>)
    requires Select(wake, ipv4, interfaces, resolved).Ok?
    ensures var d := Select(wake, ipv4, interfaces, resolved).value;
            var subnet := SubnetOf(d.network);
            var address := if ipv4 != "" then ipv4 else resolved.GetOr("");
            && d.network in interfaces && subnet.Ok? && subnet.value.prefixLength < 31
            && (wake.interfaceId != "" ==> d.network.id == wake.interfaceId)
            && (wake.broadcastAddress != "" && wake.broadcastAddress != LIMITED_BROADCAST ==>
                  Format(subnet.value.broadcast) == wake.broadcastAddress)
            && (wake.interfaceId == "" && wake.broadcastAddress == "" && address != "" ==>
                  Parse(address).Some? && subnet.value.ContainsHost(Parse(address).value))
            && d.broadcast == (if wake.broadcastAddress == "" then Format(subnet.value.broadcast) else wake.broadcastAddress)
            && d.port == wake.port
  {
    hide Where, SubnetOf, Parse, Format, Narrow, Candidates;
    var n := NarrowedIsCandidate(wake, Target(ipv4, resolved), Candidates(wake, interfaces));
    CandidatesAreEligible(wake, interfaces);
  }

  /**
   * Which interface is chosen, without the steps of the search: with nothing configured the only eligible one that reaches
   * the target; otherwise the only eligible one, or else the only one of several that reaches the target.
   */
  lemma ChosenIffUnique(
    wake: WakeConfiguration, ipv4: string, interfaces: seq<NetworkInterface>, resolved: Option<string>)
    requires !wake.capability.Disabled? && AllHaveSubnets(interfaces)
    requires Target(ipv4, resolved) == "" || Parse(Target(ipv4, resolved)).Some?
    ensures var address := if ipv4 != "" then ipv4 else resolved.GetOr("");
            var eligible := Candidates(wake, interfaces);
            var reaching := Where(eligible, Reaching(address));
            Select(wake, ipv4, interfaces, resolved).Ok? <==>
              if wake.interfaceId == "" && wake.broadcastAddress == "" && address != "" then |reaching| == 1
              else |eligible| == 1 || (address != "" && |reaching| == 1)
  {
    hide SubnetOf, Parse, Format, Candidates, Where;
    var address := Target(ipv4, resolved);
    var eligible := Candidates(wake, interfaces);
    var reaching := Where(eligible, Reaching(address));
    NotAvailableMeansNone(wake, interfaces);
    WhereTwice(eligible, Reaching(address));
    WhereElements(eligible, Reaching(address));
    CandidatesHaveSubnets(wake, interfaces);
    WhereIsShorter(eligible, Reaching(address));
  }

  /** No interface that can broadcast has this id. */
  predicate IsMissing(id: string, interfaces: seq<NetworkInterface>) {
    forall n | n in interfaces && Broadcasts()(n) :: n.id != id
  }

  /**
   * Why nothing is chosen, for the same searches: the configured interface is not there, nothing eligible is left, or more
   * than one is and the target does not decide.
   */
  lemma RefusalSaysWhy(
    wake: WakeConfiguration, ipv4: string, interfaces: seq<NetworkInterface>, resolved: Option<string>)
    requires !wake.capability.Disabled? && AllHaveSubnets(interfaces)
    requires Target(ipv4, resolved) == "" || Parse(Target(ipv4, resolved)).Some?
    ensures var address := if ipv4 != "" then ipv4 else resolved.GetOr("");
            var free := wake.interfaceId == "" && wake.broadcastAddress == "";
            var left := if free && address != "" then Where(Candidates(wake, interfaces), Reaching(address))
                        else Candidates(wake, interfaces);
            var missing := wake.interfaceId != "" && IsMissing(wake.interfaceId, interfaces);
            && (Select(wake, ipv4, interfaces, resolved) == Err(InterfaceUnavailable) <==> missing)
            && (Select(wake, ipv4, interfaces, resolved) == Err(NoMatch) <==> !missing && left == [])
            && (Select(wake, ipv4, interfaces, resolved) == Err(Ambiguous) <==>
                  |left| > 1 && (free || address == "" || |Where(left, Reaching(address))| != 1))
  {
    hide SubnetOf, Parse, Format, Candidates, Where;
    var address := Target(ipv4, resolved);
    var eligible := Candidates(wake, interfaces);
    if wake.interfaceId != "" {
      MissingMeansNone(wake, interfaces);
    }
    NotAvailableMeansNone(wake, interfaces);
    WhereTwice(eligible, Reaching(address));
    CandidatesHaveSubnets(wake, interfaces);
    WhereIsShorter(eligible, Reaching(address));
    WhereElements(eligible, Reaching(address));
  }

  /**
   * With a target address that cannot be read, an interface is chosen only where it does not matter: when one eligible interface
   * is left and something is configured.
   */
  lemma UnreadableTargetIsRefused(
    wake: WakeConfiguration, ipv4: string, interfaces: seq<NetworkInterface>, resolved: Option<string>)
    requires !wake.capability.Disabled? && AllHaveSubnets(interfaces)
    requires Target(ipv4, resolved) != "" && Parse(Target(ipv4, resolved)).None?
    ensures var r, eligible := Select(wake, ipv4, interfaces, resolved), Candidates(wake, interfaces);
            var free := wake.interfaceId == "" && wake.broadcastAddress == "";
            && (r.Ok? <==> |eligible| == 1 && !free)
            && (r == Err(BadTarget) <==> |eligible| > 1 || (|eligible| == 1 && free))
            && (eligible == [] <==> r == Err(NoMatch) || r == Err(InterfaceUnavailable))
  {
    hide SubnetOf, Parse, Format, Candidates, Where;
    var eligible := Candidates(wake, interfaces);
    NotAvailableMeansNone(wake, interfaces);
    WhereElements(eligible, Reaching(Target(ipv4, resolved)));
    CandidatesHaveSubnets(wake, interfaces);
    WhereNone(Reaching(Target(ipv4, resolved)));
  }

  lemma WhereNone(c: Criterion)
    ensures Where([], c) == []
  {
  }

  lemma MissingMeansNone(wake: WakeConfiguration, interfaces: seq<NetworkInterface>)
    requires wake.interfaceId != ""
    ensures Configured(wake, interfaces) == [] <==> IsMissing(wake.interfaceId, interfaces)
  {
    hide SubnetOf, Where;
    WhereElements(interfaces, Broadcasts());
    WhereElements(Where(interfaces, Broadcasts()), Named(wake.interfaceId));
    var named := Configured(wake, interfaces);
    if named != [] {
      assert named[0] in named;
    }
  }

  lemma NotAvailableMeansNone(wake: WakeConfiguration, interfaces: seq<NetworkInterface>)
    ensures Configured(wake, interfaces) == [] ==> Candidates(wake, interfaces) == []
  {
  }

  lemma CandidatesHaveSubnets(wake: WakeConfiguration, interfaces: seq<NetworkInterface>)
    requires AllHaveSubnets(interfaces)
    ensures forall n | n in Candidates(wake, interfaces) :: SubnetOf(n).Ok?
  {
    hide SubnetOf, Candidates, Format;
    CandidatesAreEligible(wake, interfaces);
    AllHaveSubnetsMembers(interfaces);
  }

  lemma {:induction false} WhereTwice(s: seq<NetworkInterface>, c: Criterion)
    ensures Where(Where(s, c), c) == Where(s, c)
  {
    if s != [] {
      var init, last := s[..|s| - 1], s[|s| - 1];
      WhereTwice(init, c);
      if c(last) {
        assert (Where(init, c) + [last])[..|Where(init, c)|] == Where(init, c);
      }
    }
  }

  lemma {:induction false} WhereIsShorter(s: seq<NetworkInterface>, c: Criterion)
    ensures |Where(s, c)| <= |s|
  {
    if s != [] {
      WhereIsShorter(s[..|s| - 1], c);
    }
  }
}
