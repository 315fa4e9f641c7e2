/** `WakeOnLanService.SendAsync`: validation, routing, and the loop of packets and delays. */
module WakeOnLan {
  import opened Prelude
  import opened Text
  import opened Devices
  import opened Discovery
  import opened WakeRouting
  import DeviceRules

  /** Delay before packet `i` (the first is packet 0): a longer one at the start of each retry. */
  function DelayBefore(wake: WakeConfiguration, i: nat): int
    requires wake.packetCount >= 1
  {
    if i == 0 then 0 else if i % wake.packetCount == 0 then wake.retryDelayMilliseconds else wake.delayMilliseconds
  }

  /** All delays up to and including the one before packet `i - 1`. */
  function Delays(wake: WakeConfiguration, i: nat): int
    requires wake.packetCount >= 1
  {
    if i == 0 then 0 else Delays(wake, i - 1) + DelayBefore(wake, i - 1)
  }

  lemma QuotientStep(i: nat, p: nat)
    requires p >= 1 && i >= 1
    ensures i % p == 0 ==> i / p == (i - 1) / p + 1
    ensures i % p != 0 ==> i / p == (i - 1) / p
  {
    var q, r := i / p, i % p;
    assert i == q * p + r;
    if r == 0 {
      assert i - 1 == (q - 1) * p + (p - 1);
      QuotientIs(i - 1, p, q - 1, p - 1);
    } else {
      assert i - 1 == q * p + (r - 1);
      QuotientIs(i - 1, p, q, r - 1);
    }
  }

  lemma QuotientIs(x: int, p: nat, q: int, r: nat)
    requires p >= 1 && x == q * p + r && r < p
    ensures x / p == q
  {
    var e := x / p - q;
    assert x == (e + q) * p + x % p;
    assert e * p == r - x % p;
  }

  /** After `i` packets, as many retry delays have passed as there were whole rounds before the last packet. */
  lemma {:induction false} DelaysSoFar(wake: WakeConfiguration, i: nat)
    requires wake.packetCount >= 1 && i >= 1
    ensures var rounds := (i - 1) / wake.packetCount;
            Delays(wake, i) == rounds * wake.retryDelayMilliseconds + (i - 1 - rounds) * wake.delayMilliseconds
  {
    if i > 1 {
      DelaysSoFar(wake, i - 1);
      QuotientStep(i - 1, wake.packetCount);
      var rounds := (i - 2) / wake.packetCount;
      Add(rounds, wake.retryDelayMilliseconds);
      Add(i - 2 - rounds, wake.delayMilliseconds);
    } else {
      assert Delays(wake, 1) == Delays(wake, 0);
    }
  }

  lemma Add(x: int, y: int)
    ensures (x + 1) * y == x * y + y
  {
  }

  function Packets(wake: WakeConfiguration): int {
    wake.packetCount * (wake.retryCount + 1)
  }

  /**
   * The schedule in closed form: `R` retry delays and, in each of the `R + 1` rounds, a delay between consecutive packets.
   */
  lemma DelaysInAll(wake: WakeConfiguration)
    requires wake.packetCount >= 1 && wake.retryCount >= 0
    ensures Packets(wake) >= 1
    ensures Delays(wake, Packets(wake))
              == wake.retryCount * wake.retryDelayMilliseconds
                 + (wake.retryCount + 1) * (wake.packetCount - 1) * wake.delayMilliseconds
  {
    var p, r := wake.packetCount, wake.retryCount;
    assert Packets(wake) == p * r + p;
    DelaysSoFar(wake, Packets(wake));
    assert Packets(wake) - 1 == r * p + (p - 1);
    QuotientIs(Packets(wake) - 1, p, r, p - 1);
    assert Packets(wake) - 1 - r == (r + 1) * (p - 1);
  }

  /** A validated device is sent at most 60 packets with at most 690000 ms of delay, and both bounds are reached. */
  lemma ScheduleBounds(wake: WakeConfiguration)
    requires DeviceRules.WakeNumbersInRange(wake)
    ensures 1 <= Packets(wake) <= 60
    ensures 0 <= Delays(wake, Packets(wake)) <= 690000
    ensures wake.packetCount == 10 && wake.retryCount == 5
            && wake.delayMilliseconds == 10000 && wake.retryDelayMilliseconds == 30000
            ==> Packets(wake) == 60 && Delays(wake, Packets(wake)) == 690000
  {
    hide Delays;
    var p, r, d, t := wake.packetCount, wake.retryCount, wake.delayMilliseconds, wake.retryDelayMilliseconds;
    DelaysInAll(wake);
    ProductBound(p, 10, r + 1, 6);
    ProductBound(r, 5, t, 30000);
    ProductBound(r + 1, 6, p - 1, 9);
    ProductBound((r + 1) * (p - 1), 54, d, 10000);
  }

  lemma ProductBound(x: int, a: int, y: int, b: int)
    requires 0 <= x <= a && 0 <= y <= b
    ensures 0 <= x * y <= a * b
  {
    assert x * y <= a * y <= a * b;
  }

  lemma {:induction false} SameDelays(a: WakeConfiguration, b: WakeConfiguration, i: nat)
    requires a.packetCount >= 1 && a.(capability := b.capability) == b
    ensures Delays(a, i) == Delays(b, i)
  {
    if i > 0 {
      SameDelays(a, b, i - 1);
    }
  }

  /**
   * What `SameWake` promises, and a `Verified` mark that outlives an edit with it: both devices are woken alike, by the same
   * number of packets with the same delays, for the same MAC address, and to the same destination or not at all.
   */
  lemma {:induction false} SameWakeWakesAlike(a: Device, b: Device, interfaces: seq<NetworkInterface>, resolved: Option<string>)
    requires SameWake(a, b) && (a.wake.capability.Disabled? <==> b.wake.capability.Disabled?) && a.wake.packetCount >= 1
    ensures a.mac == b.mac && a.hostname == b.hostname
    ensures Packets(a.wake) == Packets(b.wake)
    ensures forall i: nat :: Delays(a.wake, i) == Delays(b.wake, i)
    ensures Select(a.wake, a.ipv4, interfaces, resolved) == Select(b.wake, b.ipv4, interfaces, resolved)
  {
    hide Select, Delays;
    forall i: nat ensures Delays(a.wake, i) == Delays(b.wake, i) {
      SameDelays(a.wake, b.wake, i);
    }
    SameSelection(a.wake, b.wake, a.ipv4, interfaces, resolved);
  }

  lemma {:induction false} SameSelection(
    a: WakeConfiguration, b: WakeConfiguration, ipv4: string, interfaces: seq<NetworkInterface>, resolved: Option<string>)
    requires a.(capability := b.capability) == b && (a.capability.Disabled? <==> b.capability.Disabled?)
    ensures Select(a, ipv4, interfaces, resolved) == Select(b, ipv4, interfaces, resolved)
  {
    hide Where, SubnetOf, AllHaveSubnets, Prefer;
    var candidates := Candidates(a, interfaces);
    assert candidates == Candidates(b, interfaces);
  }

  datatype SendError = Invalid(error: DeviceRules.ValidationError) | Disabled | Unroutable(reason: RouteError) | Interrupted

  /**
   * Sends the packets of a device. `failsAt` is the packet at which the caller cancels or the transport throws, if any. The
   * packets sent and the time spent waiting are returned in every case.
   */
  method SendAsync(
    rules: HostRules, device: Device, interfaces: seq<NetworkInterface>, resolved: Option<string>, failsAt: Option<nat>)
    returns (r: Result<WakeDestination, SendError>, sent: nat, delayed: int)
    ensures r.Err? && !r.error.Interrupted? ==> sent == 0 && delayed == 0
    ensures var valid := DeviceRules.NormalizeAndValidate(rules, device);
            valid.Err? ==> r == Err(Invalid(valid.error))
    ensures var valid := DeviceRules.NormalizeAndValidate(rules, device);
            valid.Ok? && valid.value.wake.capability.Disabled? ==> r == Err(SendError.Disabled)
    ensures var valid := DeviceRules.NormalizeAndValidate(rules, device);
            valid.Ok? && !valid.value.wake.capability.Disabled? ==>
              var wake, route := valid.value.wake, Select(valid.value.wake, valid.value.ipv4, interfaces, resolved);
              if route.Err? then r == Err(Unroutable(route.error))
              else
                && DeviceRules.WakeNumbersInRange(wake)
                && if failsAt.Some? && failsAt.value < wake.packetCount * (wake.retryCount + 1)
                   then r == Err(Interrupted) && sent == failsAt.value && delayed == Delays(wake, sent)
                   else
                     && r == Ok(route.value) && sent == wake.packetCount * (wake.retryCount + 1)
                     && delayed == wake.retryCount * wake.retryDelayMilliseconds
                                   + (wake.retryCount + 1) * (wake.packetCount - 1) * wake.delayMilliseconds
    ensures sent <= 60 && 0 <= delayed <= 690000
  {
    hide DeviceRules.NormalizeAndValidate, Select, DelayBefore, DeviceRules.NormalTags, DeviceRules.NormalHost,
      DeviceRules.NormalIpv4, DeviceRules.NormalMac;
    sent, delayed := 0, 0;
    var normalized := DeviceRules.NormalizeAndValidate(rules, device);
    if normalized.Err? {
      return Err(Invalid(normalized.error)), sent, delayed;
    }
    var wake := normalized.value.wake;
    DeviceRules.ValidatedIsNormal(rules, device);
    if wake.capability.Disabled? {
      return Err(SendError.Disabled), sent, delayed;
    }
    var route := Select(wake, normalized.value.ipv4, interfaces, resolved);
    if route.Err? {
      return Err(Unroutable(route.error)), sent, delayed;
    }
    ScheduleBounds(wake);
    DelaysInAll(wake);
    var count := wake.packetCount * (wake.retryCount + 1);
    for i := 0 to count
      invariant sent == i && delayed == Delays(wake, i)
      invariant failsAt.None? || i <= failsAt.value
    {
      DelaysGrow(wake, i, count);
      if failsAt == Some(i) {
        return Err(Interrupted), sent, delayed;
      }
      if i > 0 {
        var delay := if i % wake.packetCount == 0 then wake.retryDelayMilliseconds else wake.delayMilliseconds;
        delayed := delayed + delay;
      }
      sent := sent + 1;
      DelaysNext(wake, i);
    }
    r := Ok(route.value);
  }

  lemma DelaysNext(wake: WakeConfiguration, i: nat)
    requires wake.packetCount >= 1
    ensures Delays(wake, i + 1) == Delays(wake, i)
              + (if i == 0 then 0
                 else if i % wake.packetCount == 0 then wake.retryDelayMilliseconds else wake.delayMilliseconds)
  {
  }

  lemma {:induction false} DelaysGrow(wake: WakeConfiguration, i: nat, j: nat)
    requires wake.packetCount >= 1 && wake.delayMilliseconds >= 0 && wake.retryDelayMilliseconds >= 0 && i <= j
    ensures 0 <= Delays(wake, i) <= Delays(wake, j)
    decreases j
  {
    if i < j {
      DelaysGrow(wake, i, j - 1);
    } else if i > 0 {
      DelaysGrow(wake, i - 1, i - 1);
    }
  }
}
