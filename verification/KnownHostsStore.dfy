/** The trust file behind its gate. A write that fails leaves the file as it was: it is replaced by a move at the end. */
module KnownHostsStore {
  import opened Prelude
  import opened KnownHosts

  class Store {
    const rules: IdentityRules
    var file: seq<KnownHost>
    var gateHeld: bool

    constructor (rules: IdentityRules, file: seq<KnownHost>)
      ensures this.rules == rules && this.file == file && !gateHeld
    {
      this.rules, this.file, gateHeld := rules, file, false;
    }

    /** Checks every entry; one bad entry fails the whole read. */
    method ReadAsync() returns (r: Result<seq<KnownHost>, StoreError>)
      ensures r == if AllReadable(rules, file) then Ok(file) else Err(Unreadable)
    {
      for i := 0 to |file|
        invariant AllReadable(rules, file[..i])
      {
        if !rules.readable(file[i]) {
          return Err(Unreadable);
        }
      }
      assert file[..|file|] == file;
      r := Ok(file);
    }

    method ListAsync() returns (r: Result<seq<KnownHost>, StoreError>)
      requires !gateHeld
      modifies this`gateHeld
      ensures !gateHeld && r == if AllReadable(rules, file) then Ok(file) else Err(Unreadable)
    {
      gateHeld := true;
      r := ReadAsync();
      gateHeld := false;
    }

    /** The result is the error, if any. */
    method TrustAsync(host: KnownHost, ioFails: bool) returns (r: Option<StoreError>)
      requires !gateHeld
      modifies this
      ensures !gateHeld
      ensures r.None? <==> AllReadable(rules, old(file)) && !ioFails && Evaluate(old(file), host) != Changed
      ensures file == if r.None? && Evaluate(old(file), host) == Unknown then old(file) + [host] else old(file)
      ensures r.None? ==> Confirms(file, host)
      ensures r.None? && host.fingerprint == rules.fingerprint(host.publicKey) ==>
                (AllReadable(rules, file) <==> rules.readable(host))
      ensures AtMostOneEach(old(file)) ==> AtMostOneEach(file)
    {
      hide Evaluate, Confirms, AtMostOneEach;
      r := UpdateAsync(entries => Trust(entries, host), ioFails);
      if Trust(old(file), host).Ok? {
        TrustKeeps(rules, old(file), host);
        if AllReadable(rules, old(file)) && host.fingerprint == rules.fingerprint(host.publicKey) {
          TrustedIsReadableIff(rules, old(file), host);
        }
      }
    }

    method RemoveAsync(host: KnownHost, ioFails: bool) returns (r: Option<StoreError>)
      requires !gateHeld
      modifies this
      ensures !gateHeld
      ensures r.None? <==> AllReadable(rules, old(file)) && !ioFails
      ensures r.None? ==> forall e :: multiset(file)[e] == if e == host then 0 else multiset(old(file))[e]
      ensures r.Some? ==> file == old(file)
      ensures AtMostOneEach(old(file)) ==> AtMostOneEach(file)
    {
      hide AtMostOneEach, RemoveAll;
      r := UpdateAsync(entries => Ok(RemoveAll(entries, host)), ioFails);
      forall e ensures multiset(RemoveAll(old(file), host))[e] == if e == host then 0 else multiset(old(file))[e] {
        RemoveAllCounts(old(file), host, e);
      }
      RemoveKeeps(rules, old(file), host);
    }

    method UpdateAsync(
      update: seq<KnownHost> -> Result<seq<KnownHost>, StoreError>, ioFails: bool) returns (r: Option<StoreError>)
      requires !gateHeld
      modifies this
      ensures !gateHeld
      ensures r.None? <==> AllReadable(rules, old(file)) && !ioFails && update(old(file)).Ok?
      ensures file == if r.None? then update(old(file)).value else old(file)
    {
      gateHeld := true;
      var read := ReadAsync();
      if read.Err? {
        r := Some(read.error);
      } else {
        var updated := update(read.value);
        if updated.Err? {
          r := Some(updated.error);
        } else if ioFails {
          r := Some(WriteFailed);
        } else {
          file := updated.value;
          r := None;
        }
      }
      gateHeld := false;
    }
  }
}
