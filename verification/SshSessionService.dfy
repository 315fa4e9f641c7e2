/** `ConnectAsync` and its attempts, over a trust file that other sessions and the user may change meanwhile. */
module SshSessionService {
  import opened Prelude
  import opened Text
  import opened KnownHosts
  import HostText = KnownHostText
  import opened SshSessions
  import opened KnownHostsStore
  import opened Devices
  import Mac = MacAddress
  import Ip = Ipv4Text
  import DeviceRules

  /** `Device.Endpoint`. */
  function Endpoint(d: Device): string {
    if HostText.Blank(d.hostname) then d.ipv4 else d.hostname
  }

  /** What is trusted for a managed device can always be read back. */
  lemma ManagedEndpointsStayReadable(
    hosts: HostRules, text: HostText.TextRules, d: Device, port: int, algorithm: string, key: Key)
    requires DeviceRules.Normal(hosts, d) && 1 <= port <= 65535 && !HostText.Blank(algorithm) && key != []
    ensures HostText.Platform(text).readable(HostText.Recorded(text, Endpoint(d), port, algorithm, key))
  {
    hide HostText.Platform, HostText.Recorded, HostText.Blank, Endpoint;
    var e := Endpoint(d);
    EndpointEnds(hosts, d);
    HostText.IdentifiedIsReadable(text, e, port, algorithm, key);
  }

  lemma EndpointEnds(hosts: HostRules, d: Device)
    requires DeviceRules.NormalHost(hosts, d.hostname) && DeviceRules.NormalIpv4(d.ipv4)
    requires (d.hostname != "" || d.ipv4 != "")
    ensures var e := Endpoint(d); e != "" && Trimmed(e) && e[|e| - 1] != '.'
  {
    hide Ip.Parse, Ip.Format;
    if d.hostname != "" {
      assert !IsSpace(d.hostname[0]);
    } else {
      Ip.FormatEnds(Ip.Parse(d.ipv4).value);
    }
  }

  /** One key the server presents; `cancelled` is whether the caller's token is cancelled by then. */
  datatype Presented = Presented(algorithm: string, key: Key, cancelled: bool)

  /**
   * What happens around one attempt: the keys presented, whether the connection is made, what others have turned the
   * trust file into by then, whether the store and the shell work, and whether the caller has cancelled at the end.
   */
  datatype Script = Script(
    keys: seq<Presented>, connects: bool, meanwhile: seq<KnownHost>, storeFails: bool, opens: bool, cancelled: bool)

  datatype Outcome = Session(key: KnownHost) | ReviewRequired(host: KnownHost) | Refused(trust: HostTrust) | Declined | Error

  /** The locals the host-key callback shares with the attempt. */
  class Attempt {
    const rules: IdentityRules
    const host: string
    const port: int
    const reviewed: Option<KnownHost>
    var known: seq<KnownHost>
    var approved: Option<KnownHost>
    var rejected: Option<HostTrust>
    var needsReview: Option<KnownHost>

    constructor (rules: IdentityRules, host: string, port: int, known: seq<KnownHost>, reviewed: Option<KnownHost>)
      ensures this.rules == rules && this.host == host && this.port == port && this.reviewed == reviewed
      ensures this.known == known && approved.None? && rejected.None? && needsReview.None?
    {
      this.rules, this.host, this.port, this.reviewed, this.known := rules, host, port, reviewed, known;
      approved, rejected, needsReview := None, None, None;
    }

    /** The attempt as a call that is still connecting. */
    function View(): Call
      reads this
    {
      Call(host, port, if reviewed.Some? then 2 else 1, known, known, reviewed, approved, needsReview, Connecting, 0)
    }

    method HostKeyReceived(p: Presented) returns (canTrust: bool)
      modifies this`approved, this`rejected, this`needsReview
      ensures canTrust == CanTrust(known, Identify(rules, host, port, p.algorithm, p.key), reviewed, p.cancelled)
      ensures rejected == if canTrust then old(rejected)
                          else Some(EvaluateIdentity(known, Identify(rules, host, port, p.algorithm, p.key), reviewed))
      ensures View() == OnHostKey(rules, old(View()), p.algorithm, p.key, p.cancelled)
    {
      hide Identify, Evaluate;
      var incoming := Identify(rules, host, port, p.algorithm, p.key);
      var trust := EvaluateIdentity(known, incoming, reviewed);
      canTrust := !p.cancelled && (trust == HostTrust.Trusted || (trust == HostTrust.Unknown && reviewed == Some(incoming)));
      if trust == HostTrust.Unknown && reviewed.None? && !p.cancelled {
        needsReview := Some(incoming);
      }
      if canTrust {
        approved := Some(incoming);
      } else {
        rejected := Some(trust);
      }
    }

    /** The exception filter: cancellation first, then a pending review, then a refused key. */
    method OnFailure(cancelled: bool) returns (r: Outcome)
      ensures r == if cancelled then Error
                   else if needsReview.Some? then ReviewRequired(needsReview.value)
                   else if rejected.Some? then Refused(rejected.value) else Error
    {
      if cancelled {
        return Error;
      }
      if needsReview.Some? {
        return ReviewRequired(needsReview.value);
      }
      r := if rejected.Some? then Refused(rejected.value) else Error;
    }
  }

  /** What the callbacks of one attempt may have approved or marked for review. */
  ghost predicate Justified(a: Attempt, listed: seq<KnownHost>)
    reads a
  {
    && a.known == listed
    && (a.approved.Some? ==> Confirms(listed, a.approved.value) || a.reviewed == a.approved)
    && (a.needsReview.Some? ==> a.reviewed.None? && !Knows(listed, a.needsReview.value))
  }

  /** The identity a presented key gives the endpoint. */
  function Offered(rules: IdentityRules, host: string, port: int, p: Presented): KnownHost {
    Identify(rules, host, port, p.algorithm, p.key)
  }

  /** Every presented key may be trusted. */
  predicate AllTrusted(
    rules: IdentityRules, host: string, port: int, listed: seq<KnownHost>, reviewed: Option<KnownHost>, keys: seq<Presented>)
  {
    forall i | 0 <= i < |keys| :: CanTrust(listed, Offered(rules, host, port, keys[i]), reviewed, keys[i].cancelled)
  }

  /** The last key presented in time for an endpoint without a record. */
  function ToReview(rules: IdentityRules, host: string, port: int, listed: seq<KnownHost>, keys: seq<Presented>)
    : Option<KnownHost>
  {
    if keys == [] then None else
      var last := keys[|keys| - 1];
      var offered := Offered(rules, host, port, last);
      if !last.cancelled && !Knows(listed, offered) then Some(offered)
      else ToReview(rules, host, port, listed, keys[..|keys| - 1])
  }

  /** The attempt connects with keys it may trust, and records the last of them. */
  predicate Records(
    rules: IdentityRules, host: string, port: int, file: seq<KnownHost>, reviewed: Option<KnownHost>, script: Script)
  {
    && AllReadable(rules, file) && script.connects && script.keys != []
    && AllTrusted(rules, host, port, file, reviewed, script.keys)
    && AllReadable(rules, script.meanwhile) && !script.storeFails
    && Evaluate(script.meanwhile, Offered(rules, host, port, script.keys[|script.keys| - 1])) != Changed
  }

  /** What makes an attempt succeed, given the file it lists. */
  predicate Admits(
    rules: IdentityRules, host: string, port: int, file: seq<KnownHost>, reviewed: Option<KnownHost>, script: Script)
  {
    Records(rules, host, port, file, reviewed, script) && script.opens && !script.cancelled
  }

  /** Which identity an attempt asks the user about, if any. */
  function Asks(rules: IdentityRules, host: string, port: int, file: seq<KnownHost>, reviewed: Option<KnownHost>, script: Script)
    : Option<KnownHost>
  {
    if AllReadable(rules, file) && reviewed.None? && !script.cancelled then ToReview(rules, host, port, file, script.keys)
    else None
  }

  lemma OneMoreKey(
    rules: IdentityRules, host: string, port: int, listed: seq<KnownHost>, reviewed: Option<KnownHost>, keys: seq<Presented>)
    requires keys != []
    ensures var front, last := keys[..|keys| - 1], keys[|keys| - 1];
            AllTrusted(rules, host, port, listed, reviewed, keys) <==>
              AllTrusted(rules, host, port, listed, reviewed, front)
              && CanTrust(listed, Offered(rules, host, port, last), reviewed, last.cancelled)
  {
    hide CanTrust, Offered;
    var front := keys[..|keys| - 1];
    assert forall i | 0 <= i < |front| :: front[i] == keys[i];
  }

  /** A key that needs a review is not trusted. */
  lemma {:induction false} UnknownIsRefused(
    rules: IdentityRules, host: string, port: int, listed: seq<KnownHost>, keys: seq<Presented>)
    requires ToReview(rules, host, port, listed, keys).Some?
    ensures !AllTrusted(rules, host, port, listed, None, keys)
  {
    hide AllTrusted, Offered, Knows, Confirms;
    var last := keys[|keys| - 1];
    OneMoreKey(rules, host, port, listed, None, keys);
    if last.cancelled || Knows(listed, Offered(rules, host, port, last)) {
      UnknownIsRefused(rules, host, port, listed, keys[..|keys| - 1]);
    }
  }

  class SshSessionService {
    const store: Store

    constructor (store: Store)
      ensures this.store == store
    {
      this.store := store;
    }

    method Connect(a: Attempt, keys: seq<Presented>) returns (refused: bool)
      requires Justified(a, a.known) && a.needsReview.None? && a.rejected.None?
      modifies a
      ensures Justified(a, a.known) && a.known == old(a.known)
      ensures refused <==> !AllTrusted(a.rules, a.host, a.port, a.known, a.reviewed, keys)
      ensures refused <==> a.rejected.Some?
      ensures !refused && keys != [] ==> a.approved == Some(Offered(a.rules, a.host, a.port, keys[|keys| - 1]))
      ensures keys == [] ==> a.approved == old(a.approved)
      ensures a.needsReview == if a.reviewed.None? then ToReview(a.rules, a.host, a.port, a.known, keys) else None
    {
      hide Identify, Confirms, Knows;
      refused := false;
      for i := 0 to |keys|
        invariant Justified(a, a.known) && a.known == old(a.known)
        invariant refused <==> !AllTrusted(a.rules, a.host, a.port, a.known, a.reviewed, keys[..i])
        invariant refused <==> a.rejected.Some?
        invariant !refused && i > 0 ==> a.approved == Some(Offered(a.rules, a.host, a.port, keys[i - 1]))
        invariant i == 0 ==> a.approved == old(a.approved)
        invariant a.needsReview == if a.reviewed.None? then ToReview(a.rules, a.host, a.port, a.known, keys[..i]) else None
      {
        assert keys[..i + 1][..i] == keys[..i];
        OneMoreKey(a.rules, a.host, a.port, a.known, a.reviewed, keys[..i + 1]);
        var canTrust := a.HostKeyReceived(keys[i]);
        refused := refused || !canTrust;
      }
      assert keys[..|keys|] == keys;
    }

    /**
     * A session's key was listed at the start of the attempt or is exactly the reviewed one, and is in the file
     * afterwards; a review is asked for only where nothing was reviewed yet, and only for an endpoint without a record.
     */
    method ConnectAttemptAsync(
      host: string, port: int, reviewed: Option<KnownHost>, script: Script) returns (r: Outcome)
      requires !store.gateHeld
      modifies store
      ensures !store.gateHeld && !r.Declined?
      ensures r.Session? <==> Admits(store.rules, host, port, old(store.file), reviewed, script)
      ensures r.Session? ==> r.key == Offered(store.rules, host, port, script.keys[|script.keys| - 1])
      ensures Asks(store.rules, host, port, old(store.file), reviewed, script)
           == if r.ReviewRequired? then Some(r.host) else None
      ensures r.Refused? <==>
                && AllReadable(store.rules, old(store.file)) && !script.cancelled && !r.ReviewRequired?
                && !AllTrusted(store.rules, host, port, old(store.file), reviewed, script.keys)
      ensures store.file ==
                if !AllReadable(store.rules, old(store.file)) then old(store.file)
                else if Records(store.rules, host, port, old(store.file), reviewed, script)
                        && var offered := Offered(store.rules, host, port, script.keys[|script.keys| - 1]);
                           Evaluate(script.meanwhile, offered) == HostTrust.Unknown
                then script.meanwhile + [Offered(store.rules, host, port, script.keys[|script.keys| - 1])]
                else script.meanwhile
      ensures r.Session? ==> (Confirms(old(store.file), r.key) || reviewed == Some(r.key)) && Confirms(store.file, r.key)
      ensures r.ReviewRequired? ==> reviewed.None? && !Knows(old(store.file), r.host)
      ensures AtMostOneEach(script.meanwhile) && AtMostOneEach(old(store.file)) ==> AtMostOneEach(store.file)
    {
      hide Confirms, Knows, AtMostOneEach, AllReadable, Evaluate, AllTrusted, ToReview, Identify;
      var listed := store.ListAsync();
      if listed.Err? {
        return Error;
      }
      var a := new Attempt(store.rules, host, port, listed.value, reviewed);
      var refused := Connect(a, script.keys);
      if ToReview(store.rules, host, port, listed.value, script.keys).Some? {
        UnknownIsRefused(store.rules, host, port, listed.value, script.keys);
      }
      store.file := script.meanwhile;
      if !script.connects || refused || a.approved.None? {
        r := a.OnFailure(script.cancelled);
        return;
      }
      var approved := a.approved.value;
      var failure := store.TrustAsync(approved, script.storeFails);
      if failure.Some? {
        r := a.OnFailure(script.cancelled);
        return;
      }
      a.known := Others(a.known, approved) + [approved];
      if script.cancelled || !script.opens {
        r := a.OnFailure(script.cancelled);
        return;
      }
      r := Session(approved);
    }

    /**
     * At most two attempts: the second one has a reviewed identity, and so never asks for another review. `reviewing` is
     * what the trust file has become by the time the user answers.
     */
    method ConnectAsync(host: string, port: int, first: Script, confirm: KnownHost -> bool, reviewing: seq<KnownHost>,
      cancelled: bool, second: Script)
      returns (r: Outcome, attempts: nat)
      requires !store.gateHeld
      modifies store
      ensures !store.gateHeld
      ensures attempts <= 2 && !r.ReviewRequired?
      ensures r.Session? <==>
                var asked := Asks(store.rules, host, port, old(store.file), None, first);
                || Admits(store.rules, host, port, old(store.file), None, first)
                || (asked.Some? && !cancelled && confirm(asked.value)
                    && Admits(store.rules, host, port, reviewing, asked, second))
      ensures r.Declined? <==>
                var asked := Asks(store.rules, host, port, old(store.file), None, first);
                asked.Some? && !cancelled && !confirm(asked.value)
      ensures r.Session? && attempts == 1 ==> Confirms(old(store.file), r.key)
      ensures r.Session? ==> Confirms(store.file, r.key)
      ensures r.Session? && attempts == 2 ==> Confirms(reviewing, r.key) || confirm(r.key)
    {
      hide Confirms, Knows, AtMostOneEach, Admits, Asks, AllTrusted, AllReadable;
      attempts := 1;
      r := ConnectAttemptAsync(host, port, None, first);
      if r.ReviewRequired? {
        var review := r.host;
        var accepted := confirm(review);
        store.file := reviewing;
        if cancelled {
          return Error, attempts;
        }
        if !accepted {
          return Declined, attempts;
        }
        attempts := 2;
        r := ConnectAttemptAsync(host, port, Some(review), second);
      }
    }
  }
}
