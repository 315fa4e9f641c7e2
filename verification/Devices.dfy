/** The managed device and its wake configuration (`Device.cs`), and the target relations of `StatusObservation.cs`. */
module Devices {
  import opened Prelude

  datatype DeviceState = Unknown | Online | Offline | Waking
  datatype DeviceType = Computer | Server | VirtualMachine | Appliance | Other
  datatype WakeCapability = Disabled | EnabledUnverified | Verified
  datatype StatusCheckKind = Icmp | Tcp

  datatype WakeConfiguration = WakeConfiguration(
    capability: WakeCapability,
    broadcastAddress: string,
    interfaceId: string,
    port: int,
    packetCount: int,
    delayMilliseconds: int,
    retryCount: int,
    retryDelayMilliseconds: int)

  datatype Device = Device(
    id: Guid,
    displayName: string,
    hostname: string,
    ipv4: string,
    mac: string,
    kind: DeviceType,
    group: string,
    notes: string,
    tags: seq<string>,
    wake: WakeConfiguration,
    lastKnownState: DeviceState,
    lastChecked: Option<Time>,
    lastSeen: Option<Time>,
    statusCheck: StatusCheckKind,
    statusPort: int)

  datatype StatusObservation = StatusObservation(state: DeviceState, checkedAt: Time)

  /** `DeviceTargets.SameStatus`: both devices are probed in the same way. */
  predicate SameStatus(a: Device, b: Device) {
    && a.hostname == b.hostname && a.ipv4 == b.ipv4 && a.mac == b.mac
    && a.statusCheck == b.statusCheck && a.statusPort == b.statusPort
  }

  /** `DeviceTargets.SameWake`: both devices are also woken in the same way; the capability itself is ignored. */
  predicate SameWake(a: Device, b: Device) {
    SameStatus(a, b) && a.wake.(capability := EnabledUnverified) == b.wake.(capability := EnabledUnverified)
  }

  /** `b` with the identity, the labels and what was observed of `a`. */
  function Relabelled(a: Device, b: Device): Device {
    b.(id := a.id, displayName := a.displayName, kind := a.kind, group := a.group, notes := a.notes, tags := a.tags,
       lastKnownState := a.lastKnownState, lastChecked := a.lastChecked, lastSeen := a.lastSeen)
  }

  /**
   * What the two relations leave out: beside identity, labels and observations, the target of a status check does not depend on
   * the wake configuration, and the target of a wake only not on its capability.
   */
  lemma TargetsAreTheRest(a: Device, b: Device)
    ensures SameStatus(a, b) <==> a == Relabelled(a, b).(wake := a.wake)
    ensures SameWake(a, b) <==> a == Relabelled(a, b).(wake := b.wake.(capability := a.wake.capability))
  {
  }
}
