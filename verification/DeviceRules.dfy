/** `DeviceRules`: what a managed device must look like, and when two devices are the same machine. */
module DeviceRules {
  import opened Prelude
  import opened Text
  import opened Devices
  import Mac = MacAddress
  import Ip = Ipv4Text

  datatype ValidationError =
    | EmptyId | BadName | NoEndpoint | BadHostname | BadIpv4 | BadMac | WakeNeedsMac | WakeNeedsUnicast
    | BadPort | BadWakeNumbers | NotesTooLong | BadTags

  datatype MatchReason = SameMac | SameHostname | SameIpv4

  predicate NormalHost(rules: HostRules, host: string) {
    host == "" || (|host| <= 253 && rules.isDnsHost(host) && host[|host| - 1] != '.')
  }

  predicate NormalIpv4(text: string) {
    text == "" || Ip.Canonical(text)
  }

  predicate NormalMac(mac: string) {
    mac == "" || Mac.Normal(mac)
  }

  function NormalizeHost(rules: HostRules, hostname: string): Option<string> {
    var host := TrimEndDots(Trim(hostname));
    if |host| > 253 || (|host| > 0 && !rules.isDnsHost(host)) then None else Some(host)
  }

  function NormalizeOptionalIpv4(text: string): Option<string> {
    if text == "" then Some("") else Ip.Normalize(text)
  }

  function NormalizeOptionalMac(mac: string): (r: Option<string>)
    ensures r.Some? ==> NormalMac(r.value)
  {
    if Trim(mac) == "" then Some("") else
      Mac.NormalizeIsNormal(mac);
      match Mac.Normalize(mac)
      case Ok(m) => Some(m)
      case Err(_) => None
  }

  predicate ContainsTag(rules: HostRules, tags: seq<string>, tag: string) {
    exists i | 0 <= i < |tags| :: rules.EqualIgnoreCase(tags[i], tag)
  }

  /** Trimmed, non-empty tags; of those equal but for case, the first is kept. */
  function NormalizeTags(rules: HostRules, tags: seq<string>): seq<string> {
    if tags == [] then [] else
      var kept := NormalizeTags(rules, tags[..|tags| - 1]);
      var tag := Trim(tags[|tags| - 1]);
      if tag == "" || ContainsTag(rules, kept, tag) then kept else kept + [tag]
  }

  predicate WakeNumbersInRange(wake: WakeConfiguration) {
    && 1 <= wake.packetCount <= 10 && 0 <= wake.retryCount <= 5
    && 50 <= wake.delayMilliseconds <= 10000 && 50 <= wake.retryDelayMilliseconds <= 30000
  }

  predicate IsPort(n: int) {
    1 <= n <= 65535
  }

  function NormalizeAndValidate(rules: HostRules, device: Device): (r: Result<Device, ValidationError>) {
    var name := Trim(device.displayName);
    var host := TrimEndDots(Trim(device.hostname));
    var ip := NormalizeOptionalIpv4(Trim(device.ipv4));
    var mac := NormalizeOptionalMac(device.mac);
    var broadcast := NormalizeOptionalIpv4(Trim(device.wake.broadcastAddress));
    var tags := NormalizeTags(rules, device.tags);
    if device.id == 0 then Err(EmptyId)
    else if !(1 <= |name| <= 120) then Err(BadName)
    else if host == "" && Trim(device.ipv4) == "" then Err(NoEndpoint)
    else if NormalizeHost(rules, device.hostname).None? then Err(BadHostname)
    else if ip.None? then Err(BadIpv4)
    else if mac.None? then Err(BadMac)
    else if !device.wake.capability.Disabled? && mac.value == "" then Err(WakeNeedsMac)
    else if !device.wake.capability.Disabled? && Mac.IsMulticast(mac.value) then Err(WakeNeedsUnicast)
    else if broadcast.None? then Err(BadIpv4)
    else if !IsPort(device.wake.port) || !IsPort(device.statusPort) then Err(BadPort)
    else if !WakeNumbersInRange(device.wake) then Err(BadWakeNumbers)
    else if |device.notes| > 10000 || |device.group| > 100 then Err(NotesTooLong)
    else if |tags| > 30 || (exists i | 0 <= i < |tags| :: |tags[i]| > 60) then Err(BadTags)
    else Ok(device.(displayName := name, hostname := host, ipv4 := ip.value, mac := mac.value,
                    group := Trim(device.group), tags := tags,
                    wake := device.wake.(broadcastAddress := broadcast.value)))
  }

  ghost predicate NormalTags(rules: HostRules, tags: seq<string>) {
    && (forall i | 0 <= i < |tags| :: tags[i] != "" && Trimmed(tags[i]))
    && (forall i, j | 0 <= i < j < |tags| :: !rules.EqualIgnoreCase(tags[i], tags[j]))
  }

  /** The normal form of a managed device, stated without reference to how it is computed. */
  ghost predicate Normal(rules: HostRules, d: Device) {
    && d.id != 0
    && Trimmed(d.displayName) && 1 <= |d.displayName| <= 120
    && (d.hostname != "" || d.ipv4 != "")
    && NormalHost(rules, d.hostname) && NormalIpv4(d.ipv4) && NormalMac(d.mac)
    && (!d.wake.capability.Disabled? ==> d.mac != "" && !Mac.IsMulticast(d.mac))
    && NormalIpv4(d.wake.broadcastAddress)
    && IsPort(d.wake.port) && IsPort(d.statusPort) && WakeNumbersInRange(d.wake)
    && |d.notes| <= 10000 && |d.group| <= 100 && Trimmed(d.group)
    && NormalTags(rules, d.tags) && |d.tags| <= 30 && (forall i | 0 <= i < |d.tags| :: |d.tags[i]| <= 60)
  }

  lemma {:induction false} HostNormal(rules: HostRules, hostname: string)
    ensures NormalizeHost(rules, hostname).Some? ==> NormalizeHost(rules, hostname).value == TrimEndDots(Trim(hostname))
    ensures NormalizeHost(rules, hostname).Some? ==> NormalHost(rules, TrimEndDots(Trim(hostname)))
    ensures NormalHost(rules, TrimEndDots(Trim(hostname))) ==> NormalizeHost(rules, hostname).Some?
    ensures NormalHost(rules, hostname) ==> TrimEndDots(Trim(hostname)) == hostname
  {
    hide Trim, IsSpace;
    TrimIsProjection(hostname);
    if NormalHost(rules, hostname) && hostname != "" {
      assert Trimmed(hostname);
    }
  }

  lemma {:induction false} Ipv4Normal(text: string)
    ensures NormalizeOptionalIpv4(Trim(text)) == if NormalIpv4(Trim(text)) then Some(Trim(text)) else None
    ensures NormalIpv4(text) ==> Trim(text) == text
  {
    hide Ip.Normalize, Ip.Canonical, Trim, Trimmed;
    Ip.NormalizeAcceptsExactlyCanonical(Trim(text));
    TrimIsProjection(text);
    if text != "" && NormalIpv4(text) {
      CanonicalIsTrimmed(text);
      Ip.NormalizeAcceptsExactlyCanonical(text);
    }
  }

  lemma CanonicalIsTrimmed(text: string)
    requires Ip.Canonical(text)
    ensures text != "" && Trimmed(text)
  {
    hide Ip.Parse, Ip.Format;
    Ip.FormatEnds(Ip.Parse(text).value);
  }

  lemma {:induction false} MacNormal(mac: string)
    ensures NormalMac(mac) ==> NormalizeOptionalMac(mac) == Some(mac)
  {
    hide Mac.Normalize;
    if Mac.Normal(mac) {
      Mac.NormalIsFixpoint(mac);
      assert Trimmed(mac) by {
        assert Mac.IsHexDigit(mac[0]) && Mac.IsHexDigit(mac[16]);
      }
      TrimIsProjection(mac);
    }
  }

  lemma {:induction false} TagsNormal(rules: HostRules, tags: seq<string>)
    ensures NormalTags(rules, NormalizeTags(rules, tags))
  {
    hide Trim, Trimmed, RawHostRules.EqualIgnoreCase;
    if tags != [] {
      TagsNormal(rules, tags[..|tags| - 1]);
      TrimIsProjection(tags[|tags| - 1]);
    }
  }

  lemma {:induction false} NormalTagsAreKept(rules: HostRules, tags: seq<string>)
    requires NormalTags(rules, tags)
    ensures NormalizeTags(rules, tags) == tags
  {
    hide Trim, Trimmed, RawHostRules.EqualIgnoreCase;
    if tags != [] {
      var front, last := tags[..|tags| - 1], tags[|tags| - 1];
      NormalTagsAreKept(rules, front);
      TrimIsProjection(last);
      forall i | 0 <= i < |front| ensures !rules.EqualIgnoreCase(front[i], last) {
        assert front[i] == tags[i];
      }
      assert tags == front + [last];
    }
  }

  predicate SameTag(rules: HostRules, tags: seq<string>, i: nat, j: nat)
    requires i < |tags| && j < |tags|
  {
    rules.EqualIgnoreCase(Trim(tags[i]), Trim(tags[j]))
  }

  /** The first spelling of a tag that is not blank. */
  predicate IsFirstSpelling(rules: HostRules, tags: seq<string>, i: nat)
    requires i < |tags|
  {
    Trim(tags[i]) != "" && forall j | 0 <= j < i :: !SameTag(rules, tags, j, i)
  }

  lemma {:induction false} TagIsContained(rules: HostRules, tags: seq<string>, i: nat)
    requires i < |tags| && Trim(tags[i]) != ""
    ensures ContainsTag(rules, NormalizeTags(rules, tags), Trim(tags[i]))
  {
    hide Trim, RawHostRules.EqualIgnoreCase;
    var front := tags[..|tags| - 1];
    var kept := NormalizeTags(rules, front);
    if i < |front| {
      assert front[i] == tags[i];
      TagIsContained(rules, front, i);
      var k :| 0 <= k < |kept| && rules.EqualIgnoreCase(kept[k], Trim(tags[i]));
      assert NormalizeTags(rules, tags)[k] == kept[k];
    } else if !ContainsTag(rules, kept, Trim(tags[i])) {
      EqualToItself(rules, Trim(tags[i]));
      assert NormalizeTags(rules, tags)[|kept|] == Trim(tags[i]);
    }
  }

  lemma EqualToItself(rules: HostRules, a: string)
    ensures rules.EqualIgnoreCase(a, a)
  {
  }

  lemma EqualThrough(rules: HostRules, a: string, b: string, c: string)
    requires rules.EqualIgnoreCase(a, b) && (rules.EqualIgnoreCase(b, c) || rules.EqualIgnoreCase(c, b))
    ensures rules.EqualIgnoreCase(a, c)
  {
  }

  /** The tags kept are the first spellings, without the white space around them, in the order in which they were given. */
  lemma {:induction false} TagsAreFirstSpellings(rules: HostRules, tags: seq<string>, tag: string)
    ensures tag in NormalizeTags(rules, tags) <==>
              exists i :: 0 <= i < |tags| && IsFirstSpelling(rules, tags, i) && Trim(tags[i]) == tag
    ensures tags != [] ==> NormalizeTags(rules, tags[..|tags| - 1]) <= NormalizeTags(rules, tags)
    decreases |tags|, 1
  {
    hide Trim, SameTag, IsFirstSpelling, RawHostRules.EqualIgnoreCase;
    if tags != [] {
      var front, n := tags[..|tags| - 1], |tags| - 1;
      TagsAreFirstSpellings(rules, front, tag);
      LastIsKeptIff(rules, tags);
      forall i | 0 <= i < n ensures IsFirstSpelling(rules, front, i) <==> IsFirstSpelling(rules, tags, i) {
        FirstSpellingOfFront(rules, tags, i);
      }
    }
  }

  lemma FirstSpellingOfFront(rules: HostRules, tags: seq<string>, i: nat)
    requires i < |tags| - 1
    ensures IsFirstSpelling(rules, tags[..|tags| - 1], i) <==> IsFirstSpelling(rules, tags, i)
  {
    hide Trim, RawHostRules.EqualIgnoreCase;
    var front := tags[..|tags| - 1];
    assert forall j | 0 <= j <= i :: front[j] == tags[j];
    assert forall j | 0 <= j < i :: SameTag(rules, front, j, i) == SameTag(rules, tags, j, i);
  }

  lemma {:induction false} LastIsKeptIff(rules: HostRules, tags: seq<string>)
    requires tags != []
    ensures var kept, n := NormalizeTags(rules, tags[..|tags| - 1]), |tags| - 1;
            NormalizeTags(rules, tags) == if IsFirstSpelling(rules, tags, n) then kept + [Trim(tags[n])] else kept
    decreases |tags|, 0
  {
    hide Trim, RawHostRules.EqualIgnoreCase;
    var front, n := tags[..|tags| - 1], |tags| - 1;
    var kept, tag := NormalizeTags(rules, front), Trim(tags[n]);
    if tag != "" && ContainsTag(rules, kept, tag) {
      var k :| 0 <= k < |kept| && rules.EqualIgnoreCase(kept[k], tag);
      TagsAreFirstSpellings(rules, front, kept[k]);
      var j :| 0 <= j < |front| && IsFirstSpelling(rules, front, j) && Trim(front[j]) == kept[k];
      assert SameTag(rules, tags, j, n);
    } else if tag != "" {
      forall j | 0 <= j < n ensures !SameTag(rules, tags, j, n) {
        if SameTag(rules, tags, j, n) {
          assert front[j] == tags[j];
          NotBlank(rules, Trim(tags[j]), tag);
          TagIsContained(rules, front, j);
          var k :| 0 <= k < |kept| && rules.EqualIgnoreCase(kept[k], Trim(tags[j]));
          EqualThrough(rules, kept[k], Trim(tags[j]), tag);
        }
      }
    }
  }

  lemma NotBlank(rules: HostRules, a: string, b: string)
    requires rules.EqualIgnoreCase(a, b) && b != ""
    ensures a != ""
  {
  }

  /** A device as its user may have meant it: without stray white space, in the usual spelling. */
  function Tidy(rules: HostRules, d: Device): Device {
    d.(displayName := Trim(d.displayName), hostname := TrimEndDots(Trim(d.hostname)), ipv4 := Trim(d.ipv4),
       mac := NormalizeOptionalMac(d.mac).GetOr(d.mac), group := Trim(d.group), tags := NormalizeTags(rules, d.tags),
       wake := d.wake.(broadcastAddress := Trim(d.wake.broadcastAddress)))
  }

  /**
   * Validation is tidying, then the rules: a device is accepted exactly when its tidy form obeys them, and comes out as that
   * form. The length of the group alone is that of the text given.
   */
  lemma {:induction false} ValidationTidies(rules: HostRules, device: Device)
    ensures NormalizeAndValidate(rules, device).Ok? <==> Normal(rules, Tidy(rules, device)) && |device.group| <= 100
    ensures NormalizeAndValidate(rules, device).Ok? ==> NormalizeAndValidate(rules, device).value == Tidy(rules, device)
  {
    hide Trim, Trimmed, TrimEndDots, NormalizeHost, NormalHost, NormalizeOptionalIpv4, NormalIpv4, NormalTags;
    hide NormalizeOptionalMac, NormalMac, NormalizeTags, Mac.IsMulticast;
    HostNormal(rules, device.hostname);
    Ipv4Normal(device.ipv4);
    Ipv4Normal(device.wake.broadcastAddress);
    MacNormal(device.mac);
    TagsNormal(rules, device.tags);
    TrimIsProjection(device.displayName);
    TrimIsProjection(device.group);
  }

  /** An accepted device comes out in normal form. */
  lemma {:induction false} ValidatedIsNormal(rules: HostRules, device: Device)
    requires NormalizeAndValidate(rules, device).Ok?
    ensures Normal(rules, NormalizeAndValidate(rules, device).value)
  {
    hide Normal, NormalizeAndValidate, Tidy;
    ValidationTidies(rules, device);
  }

  lemma {:induction false} NormalIsFixpoint(rules: HostRules, device: Device)
    requires Normal(rules, device)
    ensures NormalizeAndValidate(rules, device) == Ok(device)
  {
    hide NormalizeAndValidate, Trim, Trimmed, TrimEndDots, NormalHost, NormalIpv4, NormalTags, NormalizeOptionalMac, NormalMac,
      NormalizeTags;
    ValidationTidies(rules, device);
    HostNormal(rules, device.hostname);
    Ipv4Normal(device.ipv4);
    Ipv4Normal(device.wake.broadcastAddress);
    MacNormal(device.mac);
    NormalTagsAreKept(rules, device.tags);
    TrimIsProjection(device.displayName);
    TrimIsProjection(device.group);
  }

  /** The normal devices are exactly the fixpoints of validation. */
  lemma {:induction false} NormalIffFixpoint(rules: HostRules, device: Device)
    ensures Normal(rules, device) <==> NormalizeAndValidate(rules, device) == Ok(device)
  {
    hide Normal, NormalizeAndValidate;
    if NormalizeAndValidate(rules, device) == Ok(device) {
      ValidatedIsNormal(rules, device);
    }
    if Normal(rules, device) {
      NormalIsFixpoint(rules, device);
    }
  }

  lemma {:induction false} NormalizeIsIdempotent(rules: HostRules, device: Device)
    requires NormalizeAndValidate(rules, device).Ok?
    ensures var n := NormalizeAndValidate(rules, device).value;
            NormalizeAndValidate(rules, n) == Ok(n)
  {
    hide Normal, NormalizeAndValidate;
    ValidatedIsNormal(rules, device);
    NormalIsFixpoint(rules, NormalizeAndValidate(rules, device).value);
  }

  /** `MatchReason`; a stored MAC that cannot be normalised would make the source throw. */
  function Match(rules: HostRules, candidate: Device, existing: Device): Option<MatchReason>
    requires candidate.mac != "" ==> Mac.Normalize(candidate.mac).Ok?
    requires existing.mac != "" ==> Mac.Normalize(existing.mac).Ok?
  {
    if candidate.id == existing.id then None
    else if candidate.mac != "" && existing.mac != "" && Mac.Normalize(candidate.mac) == Mac.Normalize(existing.mac) then
      Some(SameMac)
    else if candidate.hostname != "" &&
            rules.EqualIgnoreCase(TrimEndDots(candidate.hostname), TrimEndDots(existing.hostname)) then Some(SameHostname)
    else if candidate.ipv4 != "" && candidate.ipv4 == existing.ipv4 then Some(SameIpv4)
    else None
  }

  /** Two devices claim a common MAC address, hostname (whatever its case) or IPv4 address. */
  predicate ShareIdentity(rules: HostRules, a: Device, b: Device) {
    || (a.mac != "" && a.mac == b.mac)
    || (a.hostname != "" && rules.EqualIgnoreCase(a.hostname, b.hostname))
    || (a.ipv4 != "" && a.ipv4 == b.ipv4)
  }

  lemma IgnoreCaseIsSymmetric(rules: HostRules, a: string, b: string)
    ensures rules.EqualIgnoreCase(a, b) == rules.EqualIgnoreCase(b, a)
  {
  }

  lemma {:induction false} NormalFieldsAreKept(rules: HostRules, d: Device)
    requires Normal(rules, d)
    ensures d.mac != "" ==> Mac.Normalize(d.mac) == Ok(d.mac)
    ensures TrimEndDots(d.hostname) == d.hostname
  {
    hide Mac.Normalize, NormalTags, Ip.Canonical, Trimmed;
    if d.mac != "" {
      Mac.NormalIsFixpoint(d.mac);
    }
  }

  /** On normal devices the duplicate test is exactly a shared identity, and does not depend on who is the candidate. */
  lemma {:induction false} MatchIffShareIdentity(rules: HostRules, a: Device, b: Device)
    requires Normal(rules, a) && Normal(rules, b)
    ensures a.mac != "" ==> Mac.Normalize(a.mac).Ok?
    ensures b.mac != "" ==> Mac.Normalize(b.mac).Ok?
    ensures Match(rules, a, b).Some? <==> a.id != b.id && ShareIdentity(rules, a, b)
    ensures ShareIdentity(rules, a, b) <==> ShareIdentity(rules, b, a)
  {
    hide Normal, Mac.Normalize, TrimEndDots, RawHostRules.EqualIgnoreCase;
    NormalFieldsAreKept(rules, a);
    NormalFieldsAreKept(rules, b);
    IgnoreCaseIsSymmetric(rules, a.hostname, b.hostname);
    if a.hostname != "" && rules.EqualIgnoreCase(a.hostname, b.hostname) {
      SameLength(rules, a.hostname, b.hostname);
    }
    if b.hostname != "" && rules.EqualIgnoreCase(b.hostname, a.hostname) {
      SameLength(rules, b.hostname, a.hostname);
    }
  }

  lemma SameLength(rules: HostRules, a: string, b: string)
    requires rules.EqualIgnoreCase(a, b)
    ensures |a| == |b|
  {
  }
}
