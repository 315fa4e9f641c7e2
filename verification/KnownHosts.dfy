/** SSH host identities and how they are compared (`KnownHostsStore`, `SshSessionService.EvaluateIdentity`). */
module KnownHosts {
  import opened Prelude

  type Key = seq<bv8>

  datatype KnownHost = KnownHost(host: string, port: int, algorithm: string, publicKey: Key, fingerprint: string)

  datatype HostTrust = Unknown | Trusted | Changed

  datatype StoreError = Unreadable | IdentityChanged | WriteFailed

  /**
   * How an endpoint text and a key are written into a record, and which records the file may hold: a record it may hold is
   * written as `Identify` writes it.
   */
  datatype RawIdentityRules = IdentityRules(
    endpoint: string -> string, fingerprint: Key -> string, readable: KnownHost -> bool)
  {
    ghost predicate Lawful() {
      forall e {:trigger readable(e)} :: readable(e) ==> endpoint(e.host) == e.host && e.fingerprint == fingerprint(e.publicKey)
    }
  }

  type IdentityRules = r: RawIdentityRules | r.Lawful() witness IdentityRules(s => s, k => "", e => false)

  function Identify(rules: IdentityRules, host: string, port: int, algorithm: string, key: Key): KnownHost {
    KnownHost(rules.endpoint(host), port, algorithm, key, rules.fingerprint(key))
  }

  /** `ReadAsync` accepts the file; one entry it refuses makes the whole file unreadable. */
  predicate AllReadable(rules: IdentityRules, entries: seq<KnownHost>) {
    forall i | 0 <= i < |entries| :: rules.readable(entries[i])
  }

  predicate SameEndpoint(a: KnownHost, b: KnownHost) {
    a.host == b.host && a.port == b.port
  }

  predicate SameKey(a: KnownHost, b: KnownHost) {
    a.algorithm == b.algorithm && a.publicKey == b.publicKey
  }

  predicate Knows(known: seq<KnownHost>, incoming: KnownHost) {
    exists i | 0 <= i < |known| :: SameEndpoint(known[i], incoming)
  }

  predicate Confirms(known: seq<KnownHost>, incoming: KnownHost) {
    exists i | 0 <= i < |known| :: SameEndpoint(known[i], incoming) && SameKey(known[i], incoming)
  }

  function Evaluate(known: seq<KnownHost>, incoming: KnownHost): HostTrust {
    if !Knows(known, incoming) then Unknown
    else if Confirms(known, incoming) then Trusted
    else Changed
  }

  function EvaluateIdentity(known: seq<KnownHost>, incoming: KnownHost, reviewed: Option<KnownHost>): HostTrust {
    if reviewed.Some? && reviewed.value != incoming then Changed else Evaluate(known, incoming)
  }

  /** `e.CanTrust` of the host-key callback. */
  predicate CanTrust(known: seq<KnownHost>, incoming: KnownHost, reviewed: Option<KnownHost>, cancelled: bool) {
    var trust := EvaluateIdentity(known, incoming, reviewed);
    !cancelled && (trust == Trusted || (trust == Unknown && reviewed == Some(incoming)))
  }

  /** The update of `TrustAsync`. */
  function Trust(entries: seq<KnownHost>, host: KnownHost): Result<seq<KnownHost>, StoreError> {
    match Evaluate(entries, host)
    case Changed => Err(IdentityChanged)
    case Unknown => Ok(entries + [host])
    case Trusted => Ok(entries)
  }

  /** `entries.RemoveAll(h => h == host)`. */
  function RemoveAll(entries: seq<KnownHost>, host: KnownHost): seq<KnownHost> {
    if entries == [] then [] else
      var last := entries[|entries| - 1];
      var rest := RemoveAll(entries[..|entries| - 1], host);
      if last == host then rest else rest + [last]
  }

  /** The records of other endpoints, then the approved one: what later key exchanges are held against. */
  function Others(entries: seq<KnownHost>, host: KnownHost): seq<KnownHost> {
    if entries == [] then [] else
      var last := entries[|entries| - 1];
      var rest := Others(entries[..|entries| - 1], host);
      if SameEndpoint(last, host) then rest else rest + [last]
  }

  predicate AtMostOneEach(entries: seq<KnownHost>) {
    forall i, j | 0 <= i < j < |entries| :: !SameEndpoint(entries[i], entries[j])
  }

  /** No endpoint has two records with different keys. */
  predicate NoConflicts(entries: seq<KnownHost>) {
    forall i, j | 0 <= i < |entries| && 0 <= j < |entries| ::
      SameEndpoint(entries[i], entries[j]) ==> SameKey(entries[i], entries[j])
  }

  lemma {:induction false} RemoveAllElements(entries: seq<KnownHost>, host: KnownHost)
    ensures forall e :: e in RemoveAll(entries, host) <==> e in entries && e != host
    ensures RemoveAll(entries, host) == entries <==> host !in entries
    ensures |RemoveAll(entries, host)| <= |entries| && (host in entries ==> |RemoveAll(entries, host)| < |entries|)
  {
    if entries != [] {
      var init := entries[..|entries| - 1];
      RemoveAllElements(init, host);
      assert entries == init + [entries[|entries| - 1]];
    }
  }

  /** Exactly the equal records go, however many there are. */
  lemma {:induction false} RemoveAllCounts(entries: seq<KnownHost>, host: KnownHost, e: KnownHost)
    ensures multiset(RemoveAll(entries, host))[e] == if e == host then 0 else multiset(entries)[e]
  {
    if entries != [] {
      RemoveAllCounts(entries[..|entries| - 1], host, e);
      assert entries == entries[..|entries| - 1] + [entries[|entries| - 1]];
    }
  }

  lemma {:induction false} RemoveAllKeepsOneEach(entries: seq<KnownHost>, host: KnownHost)
    requires AtMostOneEach(entries)
    ensures AtMostOneEach(RemoveAll(entries, host))
  {
    hide SameEndpoint;
    if entries != [] {
      var init := entries[..|entries| - 1];
      var last := entries[|entries| - 1];
      RemoveAllKeepsOneEach(init, host);
      RemoveAllElements(init, host);
      var rest := RemoveAll(init, host);
      forall i | 0 <= i < |rest| ensures !SameEndpoint(rest[i], last) {
        assert rest[i] in init;
      }
    }
  }

  /** Removing keeps the file readable and its endpoints distinct. */
  lemma RemoveKeeps(rules: IdentityRules, entries: seq<KnownHost>, host: KnownHost)
    ensures AllReadable(rules, entries) ==> AllReadable(rules, RemoveAll(entries, host))
    ensures AtMostOneEach(entries) ==> AtMostOneEach(RemoveAll(entries, host))
  {
    hide SameEndpoint, RemoveAll;
    RemoveAllElements(entries, host);
    if AtMostOneEach(entries) {
      RemoveAllKeepsOneEach(entries, host);
    }
    var after := RemoveAll(entries, host);
    if AllReadable(rules, entries) {
      forall i | 0 <= i < |after| ensures rules.readable(after[i]) {
        assert after[i] in entries;
      }
    }
  }

  lemma TrustKeeps(rules: IdentityRules, entries: seq<KnownHost>, host: KnownHost)
    requires Trust(entries, host).Ok?
    ensures var after := Trust(entries, host).value;
            && entries <= after && Confirms(after, host)
            && (AtMostOneEach(entries) ==> AtMostOneEach(after))
            && (AllReadable(rules, entries) && rules.readable(host) ==> AllReadable(rules, after))
            && (forall e | e in after :: e in entries || e == host)
  {
    var after := Trust(entries, host).value;
    if !Knows(entries, host) {
      assert after[|entries|] == host;
    }
  }

  /** A readable file stays readable after a successful trust exactly when it may hold the trusted record. */
  lemma TrustedIsReadableIff(rules: IdentityRules, entries: seq<KnownHost>, host: KnownHost)
    requires AllReadable(rules, entries) && Trust(entries, host).Ok?
    requires host.fingerprint == rules.fingerprint(host.publicKey)
    ensures AllReadable(rules, Trust(entries, host).value) <==> rules.readable(host)
  {
    if Confirms(entries, host) {
      var i :| 0 <= i < |entries| && SameEndpoint(entries[i], host) && SameKey(entries[i], host);
      assert entries[i] == host;
    } else {
      assert (entries + [host])[|entries|] == host;
    }
  }

  lemma TrustConflictFree(entries: seq<KnownHost>, host: KnownHost)
    requires NoConflicts(entries) && Trust(entries, host).Ok?
    ensures NoConflicts(Trust(entries, host).value)
  {
  }

  lemma RemoveConflictFree(entries: seq<KnownHost>, host: KnownHost)
    requires NoConflicts(entries)
    ensures NoConflicts(RemoveAll(entries, host))
  {
    hide SameEndpoint, SameKey, RemoveAll;
    var after := RemoveAll(entries, host);
    RemoveAllElements(entries, host);
    forall i, j | 0 <= i < |after| && 0 <= j < |after| && SameEndpoint(after[i], after[j])
      ensures SameKey(after[i], after[j])
    {
      assert after[i] in entries && after[j] in entries;
    }
  }

  /** With no conflicting records, a confirmed key is the only one that can be confirmed. */
  lemma OneRecordOneKey(entries: seq<KnownHost>, a: KnownHost, b: KnownHost)
    requires NoConflicts(entries) && SameEndpoint(a, b) && Confirms(entries, a)
    ensures Evaluate(entries, b) == Trusted <==> SameKey(a, b)
    ensures Evaluate(entries, b) != Unknown
  {
    var i :| 0 <= i < |entries| && SameEndpoint(entries[i], a) && SameKey(entries[i], a);
    assert SameEndpoint(entries[i], b);
    if Confirms(entries, b) {
      var j :| 0 <= j < |entries| && SameEndpoint(entries[j], b) && SameKey(entries[j], b);
      assert SameEndpoint(entries[i], entries[j]);
    }
    if SameKey(a, b) {
      assert SameEndpoint(entries[i], b) && SameKey(entries[i], b);
    }
  }

  lemma {:induction false} OthersKeeps(entries: seq<KnownHost>, host: KnownHost)
    ensures forall e :: e in Others(entries, host) <==> e in entries && !SameEndpoint(e, host)
  {
    hide SameEndpoint;
    if entries != [] {
      OthersKeeps(entries[..|entries| - 1], host);
      assert entries == entries[..|entries| - 1] + [entries[|entries| - 1]];
    }
  }

  /** After a session is trusted, a later key exchange with the host is accepted exactly when it presents the same key. */
  lemma RekeyNeedsTheSameKey(
    known: seq<KnownHost>, approved: KnownHost, incoming: KnownHost, reviewed: Option<KnownHost>, rules: IdentityRules)
    requires reviewed.None? || reviewed == Some(approved)
    requires SameEndpoint(approved, incoming)
    requires approved.fingerprint == rules.fingerprint(approved.publicKey)
    requires incoming.fingerprint == rules.fingerprint(incoming.publicKey)
    ensures CanTrust(Others(known, approved) + [approved], incoming, reviewed, false) <==> SameKey(approved, incoming)
  {
    OthersKeeps(known, approved);
    var held := Others(known, approved) + [approved];
    assert held[|held| - 1] == approved;
    assert SameEndpoint(held[|held| - 1], incoming);
    if SameKey(approved, incoming) {
      assert approved == incoming;
      assert SameEndpoint(held[|held| - 1], incoming) && SameKey(held[|held| - 1], incoming);
    }
    forall i | 0 <= i < |held| - 1 ensures !SameEndpoint(held[i], incoming) {
      assert held[i] in Others(known, approved);
    }
  }
}
