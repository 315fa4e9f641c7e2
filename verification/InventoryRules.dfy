/**
 * What the repository relies on in the rules for managed devices: validation, normal form and duplicates as values with
 * a few laws. `Managed` is the rules of `DeviceRules`, which obey them.
 */
module InventoryRules {
  import opened Prelude
  import opened Text
  import opened Devices
  import DeviceRules
  import Mac = MacAddress

  /**
   * Two versions of a record that differ in what is observed only; the wake capability may change unless one is Disabled.
   */
  predicate SameRecord(d: Device, e: Device) {
    && e == d.(lastKnownState := e.lastKnownState, lastChecked := e.lastChecked, lastSeen := e.lastSeen,
               wake := d.wake.(capability := e.wake.capability))
    && (d.wake.capability.Disabled? <==> e.wake.capability.Disabled?)
  }

  /** One of the unique indexes of the schema would meet the same key twice. */
  predicate Collide(a: Device, b: Device) {
    || (a.mac != "" && a.mac == b.mac)
    || (a.hostname != "" && b.hostname != "" && EqualNoCase(a.hostname, b.hostname))
    || (a.ipv4 != "" && a.ipv4 == b.ipv4)
  }

  datatype RawRules = Rules(
    validate: Device -> Result<Device, DeviceRules.ValidationError>,
    normal: Device -> bool,
    shares: (Device, Device) -> bool)
  {
    /** Validation yields exactly the normal devices and keeps identifiers; sharing is mutual, and covers the indexes. */
    ghost predicate Lawful() {
      && (forall d {:trigger validate(d)} :: validate(d).Ok? ==>
            && normal(validate(d).value) && validate(d).value.id == d.id
            && validate(d).value.wake.capability == d.wake.capability)
      && (forall d {:trigger normal(d)} :: normal(d) ==> validate(d) == Ok(d))
      && (forall a, b {:trigger shares(a, b)} :: shares(a, b) == shares(b, a))
      && (forall a, b | Collide(a, b) :: shares(a, b))
      && (forall d, e | SameRecord(d, e) :: normal(d) ==> normal(e))
      && (forall d, e, x {:trigger SameRecord(d, e), shares(d, x)} :: SameRecord(d, e) ==> shares(d, x) == shares(e, x))
    }
  }

  type Rules = r: RawRules | r.Lawful()
    witness Rules(d => Err(DeviceRules.EmptyId), d => false, (a, b) => true)

  /** The rules of the inventory. */
  ghost function Managed(hosts: HostRules): (r: Rules) {
    ManagedIsLawful(hosts);
    Platform(hosts)
  }

  ghost function Platform(hosts: HostRules): RawRules {
    Rules(d => DeviceRules.NormalizeAndValidate(hosts, d),
          d => DeviceRules.Normal(hosts, d),
          (a, b) => DeviceRules.ShareIdentity(hosts, a, b))
  }

  lemma SameRecordIsNormal(hosts: HostRules, d: Device, e: Device)
    requires SameRecord(d, e) && DeviceRules.Normal(hosts, d)
    ensures DeviceRules.Normal(hosts, e)
  {
    hide DeviceRules.NormalHost, DeviceRules.NormalIpv4, DeviceRules.NormalMac, DeviceRules.NormalTags, Trimmed,
      Mac.IsMulticast;
  }

  lemma {:induction false} ManagedIsLawful(hosts: HostRules)
    ensures Platform(hosts).Lawful()
  {
    hide DeviceRules.NormalizeAndValidate, DeviceRules.Normal, DeviceRules.NormalizeTags, DeviceRules.NormalizeOptionalMac,
      Trim, TrimEndDots;
    var r := Platform(hosts);
    forall d ensures r.validate(d).Ok? ==>
        && r.normal(r.validate(d).value) && r.validate(d).value.id == d.id
        && r.validate(d).value.wake.capability == d.wake.capability
    {
      if r.validate(d).Ok? {
        DeviceRules.ValidationTidies(hosts, d);
      }
    }
    forall d | r.normal(d) ensures r.validate(d) == Ok(d) {
      DeviceRules.NormalIsFixpoint(hosts, d);
    }
    forall a, b ensures r.shares(a, b) == r.shares(b, a) {
    }
    forall a, b | Collide(a, b) ensures r.shares(a, b) {
    }
    forall d, e | SameRecord(d, e) && r.normal(d) ensures r.normal(e) {
      SameRecordIsNormal(hosts, d, e);
    }
    forall d, e, x | SameRecord(d, e) ensures r.shares(d, x) == r.shares(e, x) {
    }
  }

}
