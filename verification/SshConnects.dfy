/** What `ConnectAsync` does when nothing comes between its steps. */
module SshConnects {
  import opened Prelude
  import opened KnownHosts
  import opened SshSessions

  /** The steps of an attempt in which the server presents one key, nothing fails and nobody cancels. */
  function Steps(id: nat, algorithm: string, key: Key): seq<Event> {
    [HostKey(id, algorithm, key, false), Connected(id), StoreTrust(id, false, false), Opened(id)]
  }

  /** An attempt of the call is about to start on the file as it is now. */
  predicate Starts(s: State, id: nat) {
    id in s.calls && var c := s.calls[id]; c == Attempt(c.host, c.port, c.attempt, s.file, c.reviewed)
  }

  /** The record a key would get. */
  function Presented(rules: IdentityRules, c: Call, algorithm: string, key: Key): KnownHost {
    Identify(rules, c.host, c.port, algorithm, key)
  }

  /** The key is recorded, or is the one reviewed for an endpoint that has no record. */
  predicate MayTrust(file: seq<KnownHost>, incoming: KnownHost, reviewed: Option<KnownHost>) {
    (reviewed.None? || reviewed.value == incoming) && (Confirms(file, incoming) || (!Knows(file, incoming) && reviewed.Some?))
  }

  lemma RunFirst(rules: IdentityRules, s: State, e: Event, rest: seq<Event>)
    ensures Run(rules, s, [e] + rest) == Run(rules, Next(rules, s, e), rest)
  {
    hide Next;
    assert ([e] + rest)[1..] == rest;
  }

  lemma RunUpTo(rules: IdentityRules, s: State, id: nat, algorithm: string, key: Key, n: nat, last: Event)
    requires n <= 3
    ensures var e := Steps(id, algorithm, key);
            var s1 := Next(rules, s, e[0]);
            var s2 := Next(rules, s1, e[1]);
            Run(rules, s, e[..n] + [last]) ==
              Next(rules, if n == 0 then s else if n == 1 then s1 else if n == 2 then s2 else Next(rules, s2, e[2]), last)
  {
    hide Next;
    var e := Steps(id, algorithm, key);
    var s1 := Next(rules, s, e[0]);
    var s2 := Next(rules, s1, e[1]);
    RunLast(rules, s, last);
    if n > 0 {
      var rest := e[1..n] + [last];
      assert e[..n] + [last] == [e[0]] + rest;
      RunFirst(rules, s, e[0], rest);
      RunLast(rules, s1, last);
      if n > 1 {
        assert rest == [e[1]] + (e[2..n] + [last]);
        RunFirst(rules, s1, e[1], e[2..n] + [last]);
        RunLast(rules, s2, last);
        if n > 2 {
          assert e[2..n] + [last] == [e[2]] + [last];
          RunFirst(rules, s2, e[2], [last]);
          RunLast(rules, Next(rules, s2, e[2]), last);
        } else {
          assert e[2..n] + [last] == [last];
        }
      } else {
        assert rest == [last];
      }
    } else {
      assert e[..n] + [last] == [last];
    }
  }

  lemma RunLast(rules: IdentityRules, s: State, e: Event)
    ensures Run(rules, s, [e]) == Next(rules, s, e)
  {
    hide Next;
    assert [e] == [e] + [];
    RunFirst(rules, s, e, []);
  }

  lemma RunSteps(rules: IdentityRules, s: State, id: nat, algorithm: string, key: Key)
    ensures var e := Steps(id, algorithm, key);
            Run(rules, s, e) == Next(rules, Next(rules, Next(rules, Next(rules, s, e[0]), e[1]), e[2]), e[3])
  {
    hide Next, Run;
    var e := Steps(id, algorithm, key);
    assert e == e[..3] + [e[3]];
    RunUpTo(rules, s, id, algorithm, key, 3, e[3]);
  }

  lemma StaysAsItIs(rules: IdentityRules, s: State, id: nat)
    requires id in s.calls && !Live(s.calls[id].stage)
    ensures Next(rules, s, StoreTrust(id, false, false)) == s && Next(rules, s, Opened(id)) == s
  {
  }

  lemma TrustedAttempt(rules: IdentityRules, s: State, id: nat, algorithm: string, key: Key)
    requires Starts(s, id) && AllReadable(rules, s.file)
    requires MayTrust(s.file, Presented(rules, s.calls[id], algorithm, key), s.calls[id].reviewed)
    ensures var c, t := s.calls[id], Run(rules, s, Steps(id, algorithm, key));
            var incoming := Presented(rules, c, algorithm, key);
            && id in t.calls && t.calls[id].stage.Returned? && t.calls[id].approved == Some(incoming)
            && t.file == if Confirms(s.file, incoming) then s.file else s.file + [incoming]
  {
    hide Knows, Confirms, Others, AllReadable, Identify;
    RunSteps(rules, s, id, algorithm, key);
    ConfirmedIsKnown(s.file, Presented(rules, s.calls[id], algorithm, key));
  }

  lemma ConfirmedIsKnown(file: seq<KnownHost>, incoming: KnownHost)
    ensures Confirms(file, incoming) ==> Knows(file, incoming)
  {
  }

  lemma RefusedAttempt(rules: IdentityRules, s: State, id: nat, algorithm: string, key: Key)
    requires Starts(s, id)
    requires !MayTrust(s.file, Presented(rules, s.calls[id], algorithm, key), s.calls[id].reviewed)
    ensures var c, t := s.calls[id], Run(rules, s, Steps(id, algorithm, key));
            var incoming := Presented(rules, c, algorithm, key);
            && id in t.calls && t.file == s.file && t.calls[id].host == c.host && t.calls[id].port == c.port
            && t.calls[id].stage == if c.reviewed.None? && !Knows(s.file, incoming) then Reviewing(incoming) else Failed
  {
    hide Knows, Confirms, Others, AllReadable, Identify, StoreTrustStep;
    RunSteps(rules, s, id, algorithm, key);
    ConfirmedIsKnown(s.file, Presented(rules, s.calls[id], algorithm, key));
    var t := Next(rules, Next(rules, s, HostKey(id, algorithm, key, false)), Connected(id));
    StaysAsItIs(rules, t, id);
  }

  /**
   * A connection that nothing disturbs. A recorded key gives a session and leaves the file; a key other than the recorded one is
   * refused. For an endpoint without a record the user is asked about the very key presented; accepted, and presented again, it
   * gives a session and its record is added; rejected, it is refused.
   */
  lemma UndisturbedConnect(
    rules: IdentityRules, s: State, id: nat, host: string, port: int, algorithm: string, key: Key)
    requires id !in s.calls && AllReadable(rules, s.file)
    ensures var steps := Steps(id, algorithm, key);
            var incoming := Identify(rules, host, port, algorithm, key);
            var t := Run(rules, Next(rules, s, Begin(id, host, port)), steps);
            var accepted := Run(rules, Next(rules, t, Review(id, true, false)), steps);
            var rejected := Next(rules, t, Review(id, false, false));
            && id in t.calls && t.file == s.file
            && (Confirms(s.file, incoming) ==> t.calls[id].stage.Returned? && t.calls[id].approved == Some(incoming))
            && (Knows(s.file, incoming) && !Confirms(s.file, incoming) ==> t.calls[id].stage.Failed?)
            && (!Knows(s.file, incoming) ==>
                  && t.calls[id].stage == Reviewing(incoming)
                  && id in accepted.calls && accepted.calls[id].stage.Returned?
                  && accepted.calls[id].approved == Some(incoming) && accepted.file == s.file + [incoming]
                  && id in rejected.calls && rejected.calls[id].stage.Failed? && rejected.file == s.file)
  {
    hide Knows, Confirms, AllReadable, Identify, Run, Steps;
    var incoming := Identify(rules, host, port, algorithm, key);
    var begun := Next(rules, s, Begin(id, host, port));
    ConfirmedIsKnown(s.file, incoming);
    if MayTrust(s.file, incoming, None) {
      TrustedAttempt(rules, begun, id, algorithm, key);
    } else {
      RefusedAttempt(rules, begun, id, algorithm, key);
      if !Knows(s.file, incoming) {
        var t := Run(rules, begun, Steps(id, algorithm, key));
        TrustedAttempt(rules, Next(rules, t, Review(id, true, false)), id, algorithm, key);
      }
    }
  }

  /**
   * Wherever a first attempt breaks off, no record is added. The call ends in the review of the key it was shown, if the endpoint
   * has no record and nobody cancelled, and has failed otherwise.
   */
  lemma InterruptedConnect(
    rules: IdentityRules, s: State, id: nat, host: string, port: int, algorithm: string, key: Key, n: nat, cancelled: bool)
    requires id !in s.calls && AllReadable(rules, s.file) && n <= 3
    ensures var t := Run(rules, Next(rules, s, Begin(id, host, port)), Steps(id, algorithm, key)[..n] + [Fails(id, cancelled)]);
            var incoming := Identify(rules, host, port, algorithm, key);
            && id in t.calls && t.file == s.file
            && t.calls[id].stage ==
                 if n >= 1 && !Knows(s.file, incoming) && (n >= 2 || !cancelled) then Reviewing(incoming) else Failed
  {
    hide Knows, Confirms, Others, AllReadable, Identify, Run;
    RunUpTo(rules, Next(rules, s, Begin(id, host, port)), id, algorithm, key, n, Fails(id, cancelled));
    ConfirmedIsKnown(s.file, Identify(rules, host, port, algorithm, key));
  }
}
