/**
 * `SshSessionService.ConnectAsync` calls racing with each other and with removals over one trust file. Listing,
 * trusting and removing are single steps, because the store's gate covers each of them; everything else may interleave.
 */
module SshSessions {
  import opened Prelude
  import opened KnownHosts

  datatype Stage = Connecting | Trusting | Opening | Returned | Reviewing(host: KnownHost) | Failed

  /** One call: `listed` is what the current attempt read from the store, `known` what its host-key callback uses. */
  datatype Call = Call(
    host: string, port: int, attempt: nat, listed: seq<KnownHost>, known: seq<KnownHost>, reviewed: Option<KnownHost>,
    approved: Option<KnownHost>, needsReview: Option<KnownHost>, stage: Stage, epoch: nat)

  /** `removals` counts, per endpoint, the removals that took effect; `accepted` holds what the user confirmed. */
  datatype State = State(
    file: seq<KnownHost>, removals: map<(string, int), nat>, calls: map<nat, Call>, accepted: set<KnownHost>)

  datatype Event =
    | Begin(id: nat, host: string, port: int)
    | HostKey(id: nat, algorithm: string, key: Key, cancelled: bool)
    | Connected(id: nat)
    | Fails(id: nat, cancelled: bool)
    | StoreTrust(id: nat, ioFails: bool, cancelled: bool)
    | Opened(id: nat)
    | Review(id: nat, accepts: bool, cancelled: bool)
    | Remove(record: KnownHost, ioFails: bool)

  function Epoch(s: State, host: KnownHost): nat {
    if (host.host, host.port) in s.removals then s.removals[(host.host, host.port)] else 0
  }

  /** The start of `ConnectAttemptAsync`. */
  function Attempt(host: string, port: int, attempt: nat, file: seq<KnownHost>, reviewed: Option<KnownHost>): Call {
    Call(host, port, attempt, file, file, reviewed, None, None, Connecting, 0)
  }

  /** The `HostKeyReceived` callback. */
  function OnHostKey(rules: IdentityRules, c: Call, algorithm: string, key: Key, cancelled: bool): Call {
    var incoming := Identify(rules, c.host, c.port, algorithm, key);
    var trust := EvaluateIdentity(c.known, incoming, c.reviewed);
    c.(needsReview := if trust.Unknown? && c.reviewed.None? && !cancelled then Some(incoming) else c.needsReview,
       approved := if CanTrust(c.known, incoming, c.reviewed, cancelled) then Some(incoming) else c.approved)
  }

  /** The exception filter at the end of the attempt, and what `ConnectAsync` makes of `ReviewRequired`. */
  function OnFailure(c: Call, cancelled: bool): Call {
    c.(stage := if !cancelled && c.needsReview.Some? then Reviewing(c.needsReview.value) else Failed)
  }

  predicate Live(stage: Stage) {
    stage.Connecting? || stage.Trusting? || stage.Opening? || stage.Returned?
  }

  function StoreTrustStep(rules: IdentityRules, s: State, id: nat, ioFails: bool, cancelled: bool): State
    requires id in s.calls && s.calls[id].approved.Some?
  {
    var c := s.calls[id];
    var approved := c.approved.value;
    var after := Trust(s.file, approved);
    if ioFails || !AllReadable(rules, s.file) || after.Err? then s.(calls := s.calls[id := OnFailure(c, cancelled)])
    else s.(file := after.value,
            calls := s.calls[id := c.(stage := Opening, known := Others(c.known, approved) + [approved],
                                      epoch := Epoch(s, approved))])
  }

  function RemoveStep(rules: IdentityRules, s: State, host: KnownHost, ioFails: bool): State {
    var after := RemoveAll(s.file, host);
    if ioFails || !AllReadable(rules, s.file) || after == s.file then s
    else s.(file := after, removals := s.removals[(host.host, host.port) := Epoch(s, host) + 1])
  }

  function ReviewStep(rules: IdentityRules, s: State, id: nat, accepts: bool, cancelled: bool): State
    requires id in s.calls && s.calls[id].stage.Reviewing?
  {
    var c := s.calls[id];
    var host := c.stage.host;
    if cancelled || !accepts || !AllReadable(rules, s.file) then s.(calls := s.calls[id := c.(stage := Failed)])
    else s.(accepted := s.accepted + {host},
            calls := s.calls[id := Attempt(c.host, c.port, c.attempt + 1, s.file, Some(host))])
  }

  function Next(rules: IdentityRules, s: State, e: Event): State {
    match e
    case Begin(id, host, port) =>
      if id in s.calls || !AllReadable(rules, s.file) then s
      else s.(calls := s.calls[id := Attempt(host, port, 1, s.file, None)])
    case HostKey(id, algorithm, key, cancelled) =>
      if id in s.calls && Live(s.calls[id].stage) then
        s.(calls := s.calls[id := OnHostKey(rules, s.calls[id], algorithm, key, cancelled)])
      else s
    case Connected(id) =>
      if id in s.calls && s.calls[id].stage.Connecting? then
        s.(calls := s.calls[id := if s.calls[id].approved.Some? then s.calls[id].(stage := Trusting)
                                  else OnFailure(s.calls[id], false)])
      else s
    case Fails(id, cancelled) =>
      if id in s.calls && Live(s.calls[id].stage) && !s.calls[id].stage.Returned? then
        s.(calls := s.calls[id := OnFailure(s.calls[id], cancelled)])
      else s
    case StoreTrust(id, ioFails, cancelled) =>
      if id in s.calls && s.calls[id].stage.Trusting? && s.calls[id].approved.Some? then
        StoreTrustStep(rules, s, id, ioFails, cancelled)
      else s
    case Opened(id) =>
      if id in s.calls && s.calls[id].stage.Opening? then s.(calls := s.calls[id := s.calls[id].(stage := Returned)]) else s
    case Review(id, accepts, cancelled) =>
      if id in s.calls && s.calls[id].stage.Reviewing? then ReviewStep(rules, s, id, accepts, cancelled) else s
    case Remove(record, ioFails) => RemoveStep(rules, s, record, ioFails)
  }

  function Run(rules: IdentityRules, s: State, events: seq<Event>): State
    decreases |events|
  {
    if events == [] then s else Run(rules, Next(rules, s, events[0]), events[1..])
  }

  function Start(file: seq<KnownHost>): State {
    State(file, map[], map[], {})
  }

  // ---- What every step keeps ----

  predicate PastTrust(stage: Stage) {
    stage.Opening? || stage.Returned?
  }

  /** The approved identity is the one the server presented for this endpoint, and the attempt's own listing allows it. */
  ghost predicate ApprovedOk(rules: IdentityRules, c: Call) {
    c.approved.Some? ==>
      var a := c.approved.value;
      && a == Identify(rules, c.host, c.port, a.algorithm, a.publicKey)
      && CanTrust(c.listed, a, c.reviewed, false)
  }

  ghost predicate CallOk(rules: IdentityRules, c: Call) {
    && ApprovedOk(rules, c)
    && (c.attempt == 1 || c.attempt == 2)
    && (c.reviewed.Some? <==> c.attempt == 2)
    && (c.needsReview.Some? ==> c.attempt == 1)
    && (c.stage.Reviewing? ==> c.attempt == 1)
    && (c.stage.Connecting? ==> c.known == c.listed)
    && (c.stage.Trusting? ==> c.known == c.listed && c.approved.Some?)
    && (PastTrust(c.stage) ==> c.approved.Some? && c.known == Others(c.listed, c.approved.value) + [c.approved.value])
  }

  ghost predicate CallsOk(rules: IdentityRules, s: State) {
    forall id | id in s.calls :: CallOk(rules, s.calls[id])
  }

  ghost predicate ReviewedOk(s: State) {
    forall id | id in s.calls && s.calls[id].reviewed.Some? :: s.calls[id].reviewed.value in s.accepted
  }

  ghost predicate Trusted(s: State, id: nat) {
    id in s.calls && PastTrust(s.calls[id].stage) && s.calls[id].approved.Some?
  }

  /** Until a removal for its endpoint takes effect, the identity of a trusted session stays in the file. */
  ghost predicate StillRecorded(s: State) {
    forall id | Trusted(s, id) :: RecordedSince(s, s.calls[id].approved.value, s.calls[id].epoch)
  }

  ghost predicate RecordedSince(s: State, a: KnownHost, epoch: nat) {
    epoch <= Epoch(s, a) && (epoch == Epoch(s, a) ==> Confirms(s.file, a))
  }

  /** Trusted sessions of one endpoint with no removal between their trusting steps hold the same key. */
  ghost predicate Agree(s: State) {
    forall i, j | Trusted(s, i) && Trusted(s, j) :: AgreeOn(s.calls[i], s.calls[j])
  }

  ghost predicate AgreeOn(c: Call, d: Call)
    requires c.approved.Some? && d.approved.Some?
  {
    SameEndpoint(c.approved.value, d.approved.value) && c.epoch == d.epoch ==> SameKey(c.approved.value, d.approved.value)
  }

  /** What holds whatever the file contains. */
  ghost predicate CallInv(rules: IdentityRules, s: State) {
    CallsOk(rules, s) && ReviewedOk(s)
  }

  ghost predicate Inv(rules: IdentityRules, s: State) {
    NoConflicts(s.file) && CallInv(rules, s) && StillRecorded(s) && Agree(s)
  }

  // ---- One call ----

  lemma IdentifySame(rules: IdentityRules, host: string, port: int, a: KnownHost, b: KnownHost)
    requires a == Identify(rules, host, port, a.algorithm, a.publicKey)
    requires b == Identify(rules, host, port, b.algorithm, b.publicKey)
    ensures SameEndpoint(a, b) && (SameKey(a, b) <==> a == b)
    ensures a.fingerprint == rules.fingerprint(a.publicKey)
  {
  }

  lemma OnHostKeyOk(rules: IdentityRules, c: Call, algorithm: string, key: Key, cancelled: bool)
    requires CallOk(rules, c) && Live(c.stage)
    ensures var d := OnHostKey(rules, c, algorithm, key, cancelled);
            && CallOk(rules, d)
            && d == c.(needsReview := d.needsReview, approved := d.approved)
            && (PastTrust(c.stage) ==> d.approved == c.approved)
  {
    hide NoConflicts, Others, Confirms, Knows;
    var incoming := Identify(rules, c.host, c.port, algorithm, key);
    if PastTrust(c.stage) {
      var a := c.approved.value;
      IdentifySame(rules, c.host, c.port, a, incoming);
      IdentifySame(rules, c.host, c.port, incoming, a);
      if CanTrust(c.known, incoming, c.reviewed, cancelled) {
        AcceptedAfterTrust(rules, c, incoming, cancelled);
      }
    }
  }

  lemma AcceptedAfterTrust(rules: IdentityRules, c: Call, incoming: KnownHost, cancelled: bool)
    requires c.approved.Some? && c.known == Others(c.listed, c.approved.value) + [c.approved.value]
    requires var a := c.approved.value;
             && SameEndpoint(a, incoming) && (SameKey(a, incoming) <==> a == incoming)
             && a.fingerprint == rules.fingerprint(a.publicKey) && incoming.fingerprint == rules.fingerprint(incoming.publicKey)
    requires CanTrust(c.known, incoming, c.reviewed, cancelled)
    ensures incoming == c.approved.value
  {
    hide Others;
    RekeyNeedsTheSameKey(c.listed, c.approved.value, incoming, None, rules);
    assert Knows(c.known, incoming) by {
      assert SameEndpoint(c.known[|c.known| - 1], incoming);
    }
  }

  // ---- The parts of the invariant that look at all calls ----

  /** The file and the removals stay, and no session becomes trusted. */
  ghost predicate Framed(s: State, t: State) {
    && t.file == s.file && t.removals == s.removals
    && forall i | Trusted(t, i) ::
         Trusted(s, i) && t.calls[i].approved == s.calls[i].approved && t.calls[i].epoch == s.calls[i].epoch
  }

  /** A step that changes one call and nothing else. */
  lemma SetCallKeeps(rules: IdentityRules, s: State, id: nat, c: Call)
    requires CallInv(rules, s) && CallOk(rules, c)
    requires c.reviewed.Some? ==> c.reviewed.value in s.accepted
    requires PastTrust(c.stage) ==>
               && Trusted(s, id)
               && c.approved == s.calls[id].approved && c.epoch == s.calls[id].epoch
    ensures CallInv(rules, s.(calls := s.calls[id := c])) && Framed(s, s.(calls := s.calls[id := c]))
  {
    hide CallOk;
  }

  lemma ApprovedIgnores(rules: IdentityRules, c: Call, d: Call)
    requires ApprovedOk(rules, c) && d == c.(stage := d.stage, known := d.known, epoch := d.epoch)
    ensures ApprovedOk(rules, d)
  {
  }

  /** The trusting step took effect. */
  predicate Trusts(rules: IdentityRules, s: State, e: Event) {
    && e.StoreTrust? && e.id in s.calls && s.calls[e.id].stage.Trusting? && s.calls[e.id].approved.Some?
    && !e.ioFails && AllReadable(rules, s.file) && Trust(s.file, s.calls[e.id].approved.value).Ok?
  }

  lemma StoreTrustKeepsCalls(rules: IdentityRules, s: State, id: nat, ioFails: bool, cancelled: bool)
    requires CallInv(rules, s) && id in s.calls && s.calls[id].stage.Trusting? && s.calls[id].approved.Some?
    ensures var t := StoreTrustStep(rules, s, id, ioFails, cancelled);
            CallInv(rules, t) && (!Trusts(rules, s, StoreTrust(id, ioFails, cancelled)) ==> Framed(s, t))
  {
    hide Others, ApprovedOk, Trust, AllReadable, Epoch;
    var c := s.calls[id];
    var t := StoreTrustStep(rules, s, id, ioFails, cancelled);
    ApprovedIgnores(rules, c, t.calls[id]);
    if !Trusts(rules, s, StoreTrust(id, ioFails, cancelled)) {
      SetCallKeeps(rules, s, id, OnFailure(c, cancelled));
    }
  }

  /** The trusted session is recorded, and agrees with every session recorded before it. */
  lemma StoreTrustKeepsAgreement(rules: IdentityRules, s: State, e: Event)
    requires Inv(rules, s) && Trusts(rules, s, e)
    ensures var t := Next(rules, s, e); NoConflicts(t.file) && StillRecorded(t) && Agree(t)
  {
    hide NoConflicts, Others, CallInv, SameEndpoint, SameKey, Trust, Evaluate, AgreeOn, AllReadable;
    var id := e.id;
    var approved := s.calls[id].approved.value;
    var t := Next(rules, s, e);
    TrustConflictFree(s.file, approved);
    TrustKeeps(rules, s.file, approved);
    forall i | Trusted(t, i) ensures RecordedSince(t, t.calls[i].approved.value, t.calls[i].epoch) {
    }
    forall i, j | Trusted(t, i) && Trusted(t, j) ensures AgreeOn(t.calls[i], t.calls[j]) {
      if i != id && j != id {
        assert AgreeOn(s.calls[i], s.calls[j]);
      } else if i == id && j == id {
        AgreeSelf(t.calls[id]);
      } else if i == id {
        TrustAgrees(s, approved, t.calls[id], s.calls[j]);
      } else {
        TrustAgrees(s, approved, t.calls[id], s.calls[i]);
      }
    }
  }

  lemma AgreeSelf(c: Call)
    requires c.approved.Some?
    ensures AgreeOn(c, c)
  {
  }

  /** The heart of the agreement: what an earlier session left in the file decides what a later one can trust. */
  lemma TrustAgrees(s: State, approved: KnownHost, d: Call, c: Call)
    requires NoConflicts(s.file) && Trust(s.file, approved).Ok?
    requires d.approved == Some(approved) && d.epoch == Epoch(s, approved)
    requires c.approved.Some? && RecordedSince(s, c.approved.value, c.epoch)
    ensures AgreeOn(d, c) && AgreeOn(c, d)
  {
    hide NoConflicts, Confirms, Knows;
    var a := c.approved.value;
    if SameEndpoint(a, approved) && c.epoch == d.epoch {
      OneRecordOneKey(s.file, a, approved);
    }
  }

  lemma RemoveKeepsAgreement(rules: IdentityRules, s: State, host: KnownHost, ioFails: bool)
    requires Inv(rules, s)
    ensures var t := RemoveStep(rules, s, host, ioFails); NoConflicts(t.file) && StillRecorded(t) && Agree(t)
  {
    hide NoConflicts, CallInv, SameEndpoint, SameKey, Confirms, RemoveAll, RecordedSince, AgreeOn, AllReadable;
    var t := RemoveStep(rules, s, host, ioFails);
    if t != s {
      RemoveConflictFree(s.file, host);
      forall i | Trusted(t, i) ensures RecordedSince(t, t.calls[i].approved.value, t.calls[i].epoch) {
        assert Trusted(s, i);
        RecordedAfterRemove(s, t, host, s.calls[i].approved.value, s.calls[i].epoch);
      }
      forall i, j | Trusted(t, i) && Trusted(t, j) ensures AgreeOn(t.calls[i], t.calls[j]) {
        assert Trusted(s, i) && Trusted(s, j);
      }
    }
  }

  lemma RecordedAfterRemove(s: State, t: State, host: KnownHost, a: KnownHost, epoch: nat)
    requires RecordedSince(s, a, epoch)
    requires t.file == RemoveAll(s.file, host) && t.removals == s.removals[(host.host, host.port) := Epoch(s, host) + 1]
    ensures RecordedSince(t, a, epoch)
  {
    RemoveAllElements(s.file, host);
    if !SameEndpoint(a, host) && Confirms(s.file, a) {
      var i :| 0 <= i < |s.file| && SameEndpoint(s.file[i], a) && SameKey(s.file[i], a);
      assert s.file[i] in t.file;
    }
  }

  /** Every step keeps what holds of single calls, whatever the file contains. */
  lemma NextKeepsCalls(rules: IdentityRules, s: State, e: Event)
    requires CallInv(rules, s)
    ensures CallInv(rules, Next(rules, s, e))
    ensures !Trusts(rules, s, e) && !e.Remove? ==> Framed(s, Next(rules, s, e))
  {
    hide CallInv, AllReadable, OnHostKey, ApprovedOk, StoreTrustStep, Others;
    assert Framed(s, s);
    match e
    case Begin(id, host, port) =>
      if id !in s.calls {
        NothingApproved(rules, Attempt(host, port, 1, s.file, None));
        SetCallKeeps(rules, s, id, Attempt(host, port, 1, s.file, None));
      }
    case HostKey(id, algorithm, key, cancelled) =>
      if id in s.calls && Live(s.calls[id].stage) {
        CallIsOk(rules, s, id);
        OnHostKeyOk(rules, s.calls[id], algorithm, key, cancelled);
        SetCallKeeps(rules, s, id, OnHostKey(rules, s.calls[id], algorithm, key, cancelled));
      }
    case Connected(id) =>
      if id in s.calls && s.calls[id].stage.Connecting? {
        CallIsOk(rules, s, id);
        var c := s.calls[id];
        var d := if c.approved.Some? then c.(stage := Trusting) else OnFailure(c, false);
        ApprovedIgnores(rules, c, d);
        SetCallKeeps(rules, s, id, d);
      }
    case Fails(id, cancelled) =>
      if id in s.calls {
        CallIsOk(rules, s, id);
        ApprovedIgnores(rules, s.calls[id], OnFailure(s.calls[id], cancelled));
        SetCallKeeps(rules, s, id, OnFailure(s.calls[id], cancelled));
      }
    case StoreTrust(id, ioFails, cancelled) =>
      if id in s.calls && s.calls[id].stage.Trusting? && s.calls[id].approved.Some? {
        StoreTrustKeepsCalls(rules, s, id, ioFails, cancelled);
      }
    case Opened(id) =>
      if id in s.calls && s.calls[id].stage.Opening? {
        CallIsOk(rules, s, id);
        ApprovedIgnores(rules, s.calls[id], s.calls[id].(stage := Returned));
        SetCallKeeps(rules, s, id, s.calls[id].(stage := Returned));
      }
    case Review(id, accepts, cancelled) =>
      if id in s.calls && s.calls[id].stage.Reviewing? {
        ReviewKeepsCalls(rules, s, id, accepts, cancelled);
      }
    case Remove(record, ioFails) =>
      CallsIgnoreFile(rules, s, RemoveStep(rules, s, record, ioFails));
  }

  lemma CallsIgnoreFile(rules: IdentityRules, s: State, t: State)
    requires CallInv(rules, s) && t == s.(file := t.file, removals := t.removals)
    ensures CallInv(rules, t)
  {
    hide CallOk;
  }

  lemma CallIsOk(rules: IdentityRules, s: State, id: nat)
    requires CallInv(rules, s) && id in s.calls
    ensures CallOk(rules, s.calls[id])
    ensures s.calls[id].reviewed.Some? ==> s.calls[id].reviewed.value in s.accepted
    ensures PastTrust(s.calls[id].stage) ==> Trusted(s, id)
  {
    hide ApprovedOk, Others;
  }

  lemma ReviewKeepsCalls(rules: IdentityRules, s: State, id: nat, accepts: bool, cancelled: bool)
    requires CallInv(rules, s) && id in s.calls && s.calls[id].stage.Reviewing?
    ensures CallInv(rules, ReviewStep(rules, s, id, accepts, cancelled))
    ensures Framed(s, ReviewStep(rules, s, id, accepts, cancelled))
  {
    hide AllReadable, ApprovedOk, Others;
    var c := s.calls[id];
    if cancelled || !accepts || !AllReadable(rules, s.file) {
      ApprovedIgnores(rules, c, c.(stage := Failed));
    } else {
      assert ApprovedOk(rules, Attempt(c.host, c.port, 2, s.file, Some(c.stage.host))) by {
        NothingApproved(rules, Attempt(c.host, c.port, 2, s.file, Some(c.stage.host)));
      }
    }
  }

  lemma NothingApproved(rules: IdentityRules, c: Call)
    requires c.approved.None?
    ensures ApprovedOk(rules, c)
  {
  }

  lemma NextKeepsInv(rules: IdentityRules, s: State, e: Event)
    requires Inv(rules, s)
    ensures Inv(rules, Next(rules, s, e))
  {
    hide CallInv, NoConflicts, Trusts, Next;
    NextKeepsCalls(rules, s, e);
    if Trusts(rules, s, e) {
      StoreTrustKeepsAgreement(rules, s, e);
    } else if e.Remove? {
      assert Next(rules, s, e) == RemoveStep(rules, s, e.record, e.ioFails) by {
        RemoveIs(rules, s, e);
      }
      RemoveKeepsAgreement(rules, s, e.record, e.ioFails);
    } else {
      assert Next(rules, s, e).file == s.file;
    }
  }

  lemma RemoveIs(rules: IdentityRules, s: State, e: Event)
    requires e.Remove?
    ensures Next(rules, s, e) == RemoveStep(rules, s, e.record, e.ioFails)
  {
    hide RemoveStep;
  }

  // ---- Whole runs ----

  lemma StartInv(rules: IdentityRules, file: seq<KnownHost>)
    requires NoConflicts(file)
    ensures Inv(rules, Start(file))
  {
  }

  lemma {:induction false} EveryRunKeepsInv(rules: IdentityRules, s: State, events: seq<Event>)
    requires Inv(rules, s)
    ensures Inv(rules, Run(rules, s, events))
    decreases |events|
  {
    hide Inv, Next;
    if events != [] {
      NextKeepsInv(rules, s, events[0]);
      EveryRunKeepsInv(rules, Next(rules, s, events[0]), events[1..]);
    }
  }

  /** A file with at most one record per endpoint stays one, whatever the sessions and the removals do. */
  lemma {:induction false} FileKeepsOneRecordEach(rules: IdentityRules, s: State, events: seq<Event>)
    requires AtMostOneEach(s.file)
    ensures AtMostOneEach(Run(rules, s, events).file)
    decreases |events|
  {
    hide AtMostOneEach, OnHostKey, AllReadable, Trust, RemoveAll, Attempt, Others;
    if events != [] {
      var e := events[0];
      match e {
        case StoreTrust(id, ioFails, cancelled) =>
          if id in s.calls && s.calls[id].approved.Some? && Trust(s.file, s.calls[id].approved.value).Ok? {
            TrustKeeps(rules, s.file, s.calls[id].approved.value);
          }
        case Remove(record, ioFails) => RemoveKeeps(rules, s.file, record);
        case _ =>
      }
      FileKeepsOneRecordEach(rules, Next(rules, s, e), events[1..]);
    }
  }

  /** Any two returned sessions of an endpoint, no removal between their trusting steps, presented the same key. */
  ghost predicate ReturnedAgree(s: State) {
    forall i, j | i in s.calls && j in s.calls && s.calls[i].stage.Returned? && s.calls[j].stage.Returned? ::
      && s.calls[i].approved.Some? && s.calls[j].approved.Some?
      && AgreeOn(s.calls[i], s.calls[j])
  }

  /** Starting from at most one record per endpoint, sessions racing with each other and with removals agree. */
  lemma RacingSessionsAgree(rules: IdentityRules, file: seq<KnownHost>, events: seq<Event>)
    requires NoConflicts(file)
    ensures ReturnedAgree(Run(rules, Start(file), events))
  {
    hide Run, Next, CallOk, NoConflicts, AgreeOn, StillRecorded;
    StartInv(rules, file);
    EveryRunKeepsInv(rules, Start(file), events);
    var s := Run(rules, Start(file), events);
    forall i | i in s.calls && s.calls[i].stage.Returned? ensures Trusted(s, i) && s.calls[i].approved.Some? {
      CallIsOk(rules, s, i);
    }
  }

  lemma {:induction false} EveryRunKeepsCalls(rules: IdentityRules, s: State, events: seq<Event>)
    requires CallInv(rules, s)
    ensures CallInv(rules, Run(rules, s, events))
    decreases |events|
  {
    hide CallInv, Next;
    if events != [] {
      NextKeepsCalls(rules, s, events[0]);
      EveryRunKeepsCalls(rules, Next(rules, s, events[0]), events[1..]);
    }
  }

  /**
   * Whatever the file holds: every returned key was in it when its attempt listed it, or is exactly what the user reviewed
   * and accepted; and no call makes more than two attempts.
   */
  lemma ReturnedKeysWereListedOrReviewed(rules: IdentityRules, file: seq<KnownHost>, events: seq<Event>)
    ensures var s := Run(rules, Start(file), events);
            forall i | i in s.calls ::
              var c := s.calls[i];
              && c.attempt <= 2
              && (c.stage.Returned? ==>
                    && c.approved.Some?
                    && (Confirms(c.listed, c.approved.value)
                        || (c.reviewed == c.approved && c.attempt == 2 && c.approved.value in s.accepted)))
  {
    hide Run, Next, Confirms, Knows, Identify, Others;
    EveryRunKeepsCalls(rules, Start(file), events);
    var s := Run(rules, Start(file), events);
    forall i | i in s.calls ensures CallOk(rules, s.calls[i]) {
      CallIsOk(rules, s, i);
    }
  }

  // ---- What the agreement needs ----

  /** The events of one undisturbed call whose host presents a recorded key. */
  function KnownSession(id: nat, r: KnownHost): seq<Event> {
    [Begin(id, r.host, r.port), HostKey(id, r.algorithm, r.publicKey, false), Connected(id),
     StoreTrust(id, false, false), Opened(id)]
  }

  lemma ConfirmsMember(entries: seq<KnownHost>, r: KnownHost)
    requires r in entries
    ensures Confirms(entries, r) && Evaluate(entries, r) == HostTrust.Trusted && Trust(entries, r) == Ok(entries)
  {
    var i :| 0 <= i < |entries| && entries[i] == r;
    assert SameEndpoint(entries[i], r) && SameKey(entries[i], r);
  }

  lemma RunOne(rules: IdentityRules, s: State, e: Event, rest: seq<Event>)
    ensures Run(rules, s, [e] + rest) == Run(rules, Next(rules, s, e), rest)
  {
    hide Next;
    assert ([e] + rest)[1..] == rest;
  }

  /** Only this call differs, and it is about to trust exactly this record. */
  ghost predicate ReadyToTrust(s: State, t: State, id: nat, r: KnownHost) {
    && id in t.calls && t == s.(calls := s.calls[id := t.calls[id]])
    && t.calls[id].stage.Trusting? && t.calls[id].approved == Some(r)
  }

  ghost predicate SessionReturned(s: State, t: State, id: nat, r: KnownHost) {
    && id in t.calls && t == s.(calls := s.calls[id := t.calls[id]])
    && t.calls[id].stage.Returned? && t.calls[id].approved == Some(r) && t.calls[id].epoch == Epoch(s, r)
  }

  function Step3(rules: IdentityRules, s: State, e0: Event, e1: Event, e2: Event): State {
    Next(rules, Next(rules, Next(rules, s, e0), e1), e2)
  }

  /** Listing, presenting a recorded key and connecting leave a call ready to trust exactly that record. */
  lemma KnownKeyIsApproved(rules: IdentityRules, s: State, id: nat, r: KnownHost)
    requires id !in s.calls && AllReadable(rules, s.file) && r in s.file
    ensures var e0, e1 := Begin(id, r.host, r.port), HostKey(id, r.algorithm, r.publicKey, false);
            ReadyToTrust(s, Step3(rules, s, e0, e1, Connected(id)), id, r)
  {
    hide Evaluate, Confirms, Knows, Trust;
    var k :| 0 <= k < |s.file| && s.file[k] == r;
    ConfirmsMember(s.file, r);
    var c := Attempt(r.host, r.port, 1, s.file, None);
    assert OnHostKey(rules, c, r.algorithm, r.publicKey, false) == c.(approved := Some(r));
    assert s.calls[id := c][id := c.(approved := Some(r))][id := c.(approved := Some(r), stage := Trusting)]
        == s.calls[id := c.(approved := Some(r), stage := Trusting)];
  }

  /** Trusting a record that is there, and opening the shell. */
  lemma TrustedSessionReturns(rules: IdentityRules, s: State, t: State, id: nat, r: KnownHost)
    requires ReadyToTrust(s, t, id, r) && AllReadable(rules, t.file) && r in t.file
    ensures SessionReturned(s, Next(rules, Next(rules, t, StoreTrust(id, false, false)), Opened(id)), id, r)
  {
    hide Evaluate, Confirms, Knows, Trust, AllReadable, Others;
    ConfirmsMember(t.file, r);
    var u := Next(rules, Next(rules, t, StoreTrust(id, false, false)), Opened(id));
    assert u.calls == s.calls[id := u.calls[id]];
  }

  lemma KnownSessionReturns(rules: IdentityRules, s: State, id: nat, r: KnownHost)
    requires id !in s.calls && AllReadable(rules, s.file) && r in s.file
    ensures SessionReturned(s, Run(rules, s, KnownSession(id, r)), id, r)
  {
    hide Next, AllReadable, Run, SessionReturned;
    KnownKeyIsApproved(rules, s, id, r);
    var e := KnownSession(id, r);
    var t := Step3(rules, s, e[0], e[1], e[2]);
    TrustedSessionReturns(rules, s, t, id, r);
    assert e == [e[0], e[1], e[2]] + ([e[3]] + ([e[4]] + []));
    RunThree(rules, s, e[0], e[1], e[2], [e[3]] + ([e[4]] + []));
    RunOne(rules, t, e[3], [e[4]] + []);
    RunOne(rules, Next(rules, t, e[3]), e[4], []);
    RunNone(rules, Next(rules, Next(rules, t, e[3]), e[4]));
  }

  lemma RunThree(rules: IdentityRules, s: State, e0: Event, e1: Event, e2: Event, rest: seq<Event>)
    ensures Run(rules, s, [e0, e1, e2] + rest) == Run(rules, Step3(rules, s, e0, e1, e2), rest)
  {
    hide Next, Run;
    assert [e0, e1, e2] + rest == [e0] + ([e1] + ([e2] + rest));
    RunOne(rules, s, e0, [e1] + ([e2] + rest));
    RunOne(rules, Next(rules, s, e0), e1, [e2] + rest);
    RunOne(rules, Next(rules, Next(rules, s, e0), e1), e2, rest);
  }

  lemma RunNone(rules: IdentityRules, s: State)
    ensures Run(rules, s, []) == s
  {
  }

  lemma {:induction false} RunAppend(rules: IdentityRules, s: State, before: seq<Event>, after: seq<Event>)
    ensures Run(rules, s, before + after) == Run(rules, Run(rules, s, before), after)
    decreases |before|
  {
    hide Next;
    if before == [] {
      assert before + after == after;
    } else {
      assert (before + after)[1..] == before[1..] + after;
      RunAppend(rules, Next(rules, s, before[0]), before[1..], after);
    }
  }

  ghost predicate AgreesInEveryRun(rules: IdentityRules, file: seq<KnownHost>) {
    forall events :: ReturnedAgree(Run(rules, Start(file), events))
  }

  /**
   * Sessions agree in every run exactly when no endpoint has two records with different keys to begin with; a file with
   * at most one record per endpoint meets that, a hand-edited one need not.
   */
  lemma AgreementNeedsConflictFreeFile(rules: IdentityRules, file: seq<KnownHost>)
    requires AllReadable(rules, file)
    ensures AgreesInEveryRun(rules, file) <==> NoConflicts(file)
    ensures AtMostOneEach(file) ==> NoConflicts(file)
  {
    hide AgreesInEveryRun, AllReadable;
    if NoConflicts(file) {
      ConflictFreeAgrees(rules, file);
    } else {
      var i, j :| 0 <= i < |file| && 0 <= j < |file| && SameEndpoint(file[i], file[j]) && !SameKey(file[i], file[j]);
      ConflictingRecordsDisagree(rules, file, file[i], file[j]);
    }
  }

  lemma ConflictFreeAgrees(rules: IdentityRules, file: seq<KnownHost>)
    requires NoConflicts(file)
    ensures AgreesInEveryRun(rules, file)
  {
    hide Run, Next, ReturnedAgree, NoConflicts;
    forall events ensures ReturnedAgree(Run(rules, Start(file), events)) {
      RacingSessionsAgree(rules, file, events);
    }
  }

  lemma ConflictingRecordsDisagree(rules: IdentityRules, file: seq<KnownHost>, a: KnownHost, b: KnownHost)
    requires AllReadable(rules, file) && a in file && b in file && SameEndpoint(a, b) && !SameKey(a, b)
    ensures !AgreesInEveryRun(rules, file)
  {
    hide Run, Next, KnownSession, AllReadable, SameKey;
    var s := Start(file);
    var i, j := 0, 1;
    KnownSessionReturns(rules, s, i, a);
    var t := Run(rules, s, KnownSession(i, a));
    KnownSessionReturns(rules, t, j, b);
    RunAppend(rules, s, KnownSession(i, a), KnownSession(j, b));
    var u := Run(rules, t, KnownSession(j, b));
    assert u.calls[i] == t.calls[i];
    assert !AgreeOn(u.calls[i], u.calls[j]);
    assert !ReturnedAgree(u);
  }

  /** A session of a recorded host, and a removal of the record between the session's listing and its trusting step. */
  function RemovedInBetween(id: nat, r: KnownHost): seq<Event> {
    [Begin(id, r.host, r.port), HostKey(id, r.algorithm, r.publicKey, false), Connected(id), Remove(r, false),
     StoreTrust(id, false, false), Opened(id)]
  }

  ghost predicate RemovedThenBack(removed: State, t: State, id: nat, r: KnownHost) {
    removed.file == [] && t.file == [r] && id in t.calls && t.calls[id].stage.Returned?
  }

  /**
   * A removal that takes effect between a session's listing and its trusting step is undone without a word: the
   * session writes the removed record back and is returned.
   */
  lemma RemovalIsUndone(rules: IdentityRules, id: nat, r: KnownHost)
    requires rules.readable(r)
    ensures var e := RemovedInBetween(id, r);
            RemovedThenBack(Run(rules, Start([r]), e[..4]), Run(rules, Start([r]), e), id, r)
  {
    hide Next, Run;
    var s := Start([r]);
    var e := RemovedInBetween(id, r);
    KnownKeyIsApproved(rules, s, id, r);
    var t := Step3(rules, s, e[0], e[1], e[2]);
    RemovedIsTrustedAgain(rules, s, t, id, r);
    var removed := Next(rules, t, e[3]);
    assert e[..4] == [e[0], e[1], e[2]] + ([e[3]] + []);
    RunThree(rules, s, e[0], e[1], e[2], [e[3]] + []);
    RunOne(rules, t, e[3], []);
    RunNone(rules, removed);
    assert e == e[..4] + ([e[4]] + ([e[5]] + []));
    RunAppend(rules, s, e[..4], [e[4]] + ([e[5]] + []));
    RunOne(rules, removed, e[4], [e[5]] + []);
    RunOne(rules, Next(rules, removed, e[4]), e[5], []);
    RunNone(rules, Next(rules, Next(rules, removed, e[4]), e[5]));
  }

  lemma RemovedIsTrustedAgain(rules: IdentityRules, s: State, t: State, id: nat, r: KnownHost)
    requires rules.readable(r) && s.file == [r] && ReadyToTrust(s, t, id, r)
    ensures var removed := Next(rules, t, Remove(r, false));
            RemovedThenBack(removed, Next(rules, Next(rules, removed, StoreTrust(id, false, false)), Opened(id)), id, r)
  {
    hide RemoveAll, Trust, Others, Epoch;
    RemovedAlone(r);
    UnknownIsAdded(r);
  }

  lemma RemovedAlone(r: KnownHost)
    ensures RemoveAll([r], r) == []
  {
    assert [r][..0] == [];
  }

  lemma UnknownIsAdded(r: KnownHost)
    ensures Trust([], r) == Ok([r])
  {
    assert [] + [r] == [r];
  }

  // ---- When a removal stays ----

  /** The record is one of the endpoint the call connects to. */
  predicate OfHost(rules: IdentityRules, c: Call, r: KnownHost) {
    Identify(rules, c.host, c.port, r.algorithm, r.publicKey) == r
  }

  /** A call before its trusting step whose own listing, and its review if it had one, would let it trust the record. */
  predicate MayTrust(rules: IdentityRules, c: Call, r: KnownHost) {
    (c.stage.Connecting? || c.stage.Trusting?) && OfHost(rules, c, r) && CanTrust(c.listed, r, c.reviewed, false)
  }

  predicate Pending(rules: IdentityRules, s: State, r: KnownHost) {
    exists id | id in s.calls :: MayTrust(rules, s.calls[id], r)
  }

  /** The user accepts the record in a review. */
  predicate AcceptsNow(rules: IdentityRules, s: State, e: Event, r: KnownHost) {
    && e.Review? && e.id in s.calls && s.calls[e.id].stage == Reviewing(r)
    && e.accepts && !e.cancelled && AllReadable(rules, s.file)
  }

  predicate NeverAccepted(rules: IdentityRules, s: State, events: seq<Event>, r: KnownHost)
    decreases |events|
  {
    events == [] || (!AcceptsNow(rules, s, events[0], r) && NeverAccepted(rules, Next(rules, s, events[0]), events[1..], r))
  }

  /** The record does not come back to the file unless the user accepts it again. */
  ghost predicate StaysOut(rules: IdentityRules, s: State, r: KnownHost) {
    forall events | NeverAccepted(rules, s, events, r) :: r !in Run(rules, s, events).file
  }

  lemma ReadableFileConfirmsOnlyItsRecords(rules: IdentityRules, entries: seq<KnownHost>, r: KnownHost)
    requires AllReadable(rules, entries) && rules.readable(r) && Confirms(entries, r)
    ensures r in entries
  {
    var i :| 0 <= i < |entries| && SameEndpoint(entries[i], r) && SameKey(entries[i], r);
    assert entries[i] == r;
  }

  lemma FreshAttemptMayNot(rules: IdentityRules, s: State, c: Call, r: KnownHost)
    requires rules.readable(r) && r !in s.file && AllReadable(rules, s.file)
    requires c.listed == s.file && c.reviewed != Some(r)
    ensures !MayTrust(rules, c, r)
  {
    hide AllReadable, OfHost;
    if Confirms(s.file, r) {
      ReadableFileConfirmsOnlyItsRecords(rules, s.file, r);
    }
  }

  /** While no call may trust the record, none comes to, and the file goes without it. */
  lemma NextKeepsOut(rules: IdentityRules, s: State, e: Event, r: KnownHost)
    requires CallInv(rules, s) && rules.readable(r)
    requires r !in s.file && !Pending(rules, s, r) && !AcceptsNow(rules, s, e, r)
    ensures r !in Next(rules, s, e).file && !Pending(rules, Next(rules, s, e), r)
  {
    hide CallInv, AllReadable, Identify, CanTrust, EvaluateIdentity, Trust, RemoveAll, Others, Epoch;
    match e
    case Begin(id, host, port) =>
      if id !in s.calls && AllReadable(rules, s.file) {
        FreshAttemptMayNot(rules, s, Attempt(host, port, 1, s.file, None), r);
      }
    case StoreTrust(id, ioFails, cancelled) =>
      if Trusts(rules, s, e) {
        var c := s.calls[id];
        CallIsOk(rules, s, id);
        TrustAddsOnly(s.file, c.approved.value);
        assert !MayTrust(rules, c, r);
      }
    case Review(id, accepts, cancelled) =>
      if id in s.calls && s.calls[id].stage.Reviewing? && accepts && !cancelled && AllReadable(rules, s.file) {
        var c := s.calls[id];
        FreshAttemptMayNot(rules, s, Attempt(c.host, c.port, c.attempt + 1, s.file, Some(c.stage.host)), r);
      }
    case Remove(record, ioFails) => RemoveAllElements(s.file, record);
    case _ =>
  }

  lemma TrustAddsOnly(entries: seq<KnownHost>, host: KnownHost)
    requires Trust(entries, host).Ok?
    ensures forall e | e in Trust(entries, host).value :: e in entries || e == host
  {
    hide Evaluate;
  }

  lemma {:induction false} RunKeepsOut(rules: IdentityRules, s: State, events: seq<Event>, r: KnownHost)
    requires CallInv(rules, s) && rules.readable(r)
    requires r !in s.file && !Pending(rules, s, r) && NeverAccepted(rules, s, events, r)
    ensures r !in Run(rules, s, events).file
    decreases |events|
  {
    hide CallInv, Pending, AcceptsNow, Next;
    if events != [] {
      NextKeepsOut(rules, s, events[0], r);
      NextKeepsCalls(rules, s, events[0]);
      RunKeepsOut(rules, Next(rules, s, events[0]), events[1..], r);
    }
  }

  /** Other records of the endpoint can be removed as well, so that nothing in the file speaks against the record. */
  lemma {:induction false} EndpointCanBeCleared(rules: IdentityRules, s: State, r: KnownHost) returns (events: seq<Event>)
    requires AllReadable(rules, s.file)
    ensures forall i | 0 <= i < |events| :: events[i].Remove?
    ensures Cleared(rules, s, Run(rules, s, events), r)
    decreases |s.file|
  {
    hide Run, Next, AllReadable, Epoch;
    if !Knows(s.file, r) {
      events := [];
      RunNone(rules, s);
    } else {
      var i :| 0 <= i < |s.file| && SameEndpoint(s.file[i], r);
      var e := Remove(s.file[i], false);
      var t := Next(rules, s, e);
      RemoveIs(rules, s, e);
      RemoveAllElements(s.file, s.file[i]);
      RemoveKeeps(rules, s.file, s.file[i]);
      var rest := EndpointCanBeCleared(rules, t, r);
      events := [e] + rest;
      RunOne(rules, s, e, rest);
    }
  }

  ghost predicate Cleared(rules: IdentityRules, s: State, t: State, r: KnownHost) {
    t == s.(file := t.file, removals := t.removals) && AllReadable(rules, t.file) && !Knows(t.file, r)
  }

  lemma {:induction false} WithoutReviewsNothingIsAccepted(rules: IdentityRules, s: State, events: seq<Event>, r: KnownHost)
    requires forall i | 0 <= i < |events| :: !events[i].Review?
    ensures NeverAccepted(rules, s, events, r)
    decreases |events|
  {
    hide Next;
    if events != [] {
      WithoutReviewsNothingIsAccepted(rules, Next(rules, s, events[0]), events[1..], r);
    }
  }

  /** A pending call whose endpoint has no record left brings the record back by being served its key. */
  lemma PendingCallTrusts(rules: IdentityRules, s: State, id: nat, r: KnownHost)
    requires CallInv(rules, s) && id in s.calls && MayTrust(rules, s.calls[id], r)
    requires AllReadable(rules, s.file) && !Knows(s.file, r)
    ensures r in Next(rules, Step3(rules, s, HostKey(id, r.algorithm, r.publicKey, false), Connected(id),
                                   StoreTrust(id, false, false)), Opened(id)).file
  {
    hide CallInv, AllReadable, Identify, Confirms, Knows, Others, Epoch;
    CallIsOk(rules, s, id);
    var c := s.calls[id];
    assert OnHostKey(rules, c, r.algorithm, r.publicKey, false).approved == Some(r);
  }

  lemma PendingCallBringsItBack(rules: IdentityRules, s: State, r: KnownHost) returns (events: seq<Event>)
    requires CallInv(rules, s) && Pending(rules, s, r) && AllReadable(rules, s.file)
    ensures NeverAccepted(rules, s, events, r) && r in Run(rules, s, events).file
  {
    hide Run, Next, AllReadable, MayTrust, CallOk;
    var id :| id in s.calls && MayTrust(rules, s.calls[id], r);
    var clear := EndpointCanBeCleared(rules, s, r);
    var t := Run(rules, s, clear);
    CallsIgnoreFile(rules, s, t);
    PendingCallTrusts(rules, t, id, r);
    var e0, e1, e2 := HostKey(id, r.algorithm, r.publicKey, false), Connected(id), StoreTrust(id, false, false);
    var tail := [e0, e1, e2] + ([Opened(id)] + []);
    RunThree(rules, t, e0, e1, e2, [Opened(id)] + []);
    RunOne(rules, Step3(rules, t, e0, e1, e2), Opened(id), []);
    RunNone(rules, Next(rules, Step3(rules, t, e0, e1, e2), Opened(id)));
    RunAppend(rules, s, clear, tail);
    events := clear + tail;
    WithoutReviewsNothingIsAccepted(rules, s, events, r);
  }

  /**
   * After a removal that takes effect, in any run from any file, the record stays out of every continuation in which the
   * user does not accept it again exactly when no call still before its trusting step may trust it by its own earlier
   * listing.
   */
  lemma RemovalStaysIff(rules: IdentityRules, file: seq<KnownHost>, before: seq<Event>, r: KnownHost)
    requires var s := Run(rules, Start(file), before); AllReadable(rules, s.file) && r in s.file
    ensures var s := Run(rules, Start(file), before);
            var t := Next(rules, s, Remove(r, false));
            r !in t.file && (StaysOut(rules, t, r) <==> !Pending(rules, s, r))
  {
    hide Run, NeverAccepted, Next;
    var s := Run(rules, Start(file), before);
    var t := Next(rules, s, Remove(r, false));
    assert CallInv(rules, Start(file));
    EveryRunKeepsCalls(rules, Start(file), before);
    RemoveIs(rules, s, Remove(r, false));
    RemoveAllElements(s.file, r);
    RemoveKeeps(rules, s.file, r);
    CallsIgnoreFile(rules, s, t);
    if Pending(rules, t, r) {
      var events := PendingCallBringsItBack(rules, t, r);
    } else {
      forall events | NeverAccepted(rules, t, events, r) ensures r !in Run(rules, t, events).file {
        RunKeepsOut(rules, t, events, r);
      }
    }
  }

}
