/**
 * `CredentialSaveService.SaveAsync`: metadata in the database and a secret in the Windows store are changed one
 * after the other, and compensated when a step throws. Any call may throw before or after it took effect.
 */
module CredentialSave {
  import opened Prelude
  import opened Text

  datatype AuthenticationKind = Password | PrivateKey

  datatype Credential = Credential(
    id: Guid, displayLabel: string, username: string, authentication: AuthenticationKind, keyPath: string)

  datatype Stores = Stores(metadata: map<Guid, Credential>, secrets: map<Guid, string>)

  datatype Fault = Works | ThrowsBefore | ThrowsAfter

  datatype Inspection = Truthful | Denied | InspectThrows

  /** How every call of one save behaves, and when the caller cancels. */
  datatype Script = Script(
    cancelledAtGate: bool, listThrows: bool, readThrows: bool, inspection: Inspection, cancelledBeforeMutation: bool,
    changeSecret: Fault, saveMetadata: Fault, restoreSecret: Fault, restoreMetadata: Fault)

  datatype Request = Request(updated: Credential, replaceSecret: bool, replacement: Option<string>)

  datatype Outcome =
    | Saved | InvalidCredential | NeedsReplacement | Cancelled | StoreFailed | SecretExists | NeedsPassword
    | RolledBack(repairRequired: bool)

  // ---------------------------------------------------------------- what the database takes

  /** The check both the service and the database make, and what the database keeps of a credential. */
  datatype RawRules = Rules(valid: Credential -> bool, row: Credential -> Credential) {
    /** Keeping what was kept changes nothing, and neither the id nor the kind ever changes. */
    ghost predicate Lawful() {
      forall c {:trigger row(c)} ::
        row(row(c)) == row(c) && row(c).id == c.id && row(c).authentication == c.authentication
    }
  }

  type Rules = r: RawRules | r.Lawful() witness Rules(c => true, c => c)

  predicate IsBlank(s: string) {
    Trim(s) == ""
  }

  predicate IsValid(c: Credential) {
    && c.id != 0 && !IsBlank(c.displayLabel) && |c.displayLabel| <= 120 && !IsBlank(c.username) && |c.username| <= 256
    && (c.authentication.PrivateKey? ==> !IsBlank(c.keyPath))
  }

  function TrimmedRow(c: Credential): Credential {
    c.(displayLabel := Trim(c.displayLabel), username := Trim(c.username), keyPath := Trim(c.keyPath))
  }

  /** The rules of the application. */
  function Standard(): Rules {
    StandardIsLawful();
    Rules(IsValid, TrimmedRow)
  }

  lemma StandardIsLawful()
    ensures Rules(IsValid, TrimmedRow).Lawful()
  {
    hide Trim, Trimmed;
    forall c: Credential ensures TrimmedRow(TrimmedRow(c)) == TrimmedRow(c) {
      TrimIsProjection(c.displayLabel);
      TrimIsProjection(c.username);
      TrimIsProjection(c.keyPath);
      TrimIsProjection(Trim(c.displayLabel));
      TrimIsProjection(Trim(c.username));
      TrimIsProjection(Trim(c.keyPath));
    }
  }

  // ---------------------------------------------------------------- the stores and the save

  /** Every stored row is filed under its id and is what the database makes of it. */
  ghost predicate RowsKept(rules: Rules, s: Stores) {
    forall id | id in s.metadata :: s.metadata[id].id == id && rules.row(s.metadata[id]) == s.metadata[id]
  }

  function PriorOf(s: Stores, id: Guid): Option<Credential> {
    if id in s.metadata then Some(s.metadata[id]) else None
  }

  function SecretOf(s: Stores, id: Guid): Option<string> {
    if id in s.secrets then Some(s.secrets[id]) else None
  }

  /** Writes a secret, or deletes it for `None`. */
  function PutSecret(s: Stores, id: Guid, secret: Option<string>): Stores {
    s.(secrets := if secret.Some? then s.secrets[id := secret.value] else s.secrets - {id})
  }

  function PutMetadata(rules: Rules, s: Stores, id: Guid, c: Option<Credential>): Stores {
    s.(metadata := if c.Some? then s.metadata[id := rules.row(c.value)] else s.metadata - {id})
  }

  /** One call on a store: `effect` is the state it leaves when it takes effect. */
  function Call(s: Stores, effect: Stores, fault: Fault): Stores {
    if fault.ThrowsBefore? then s else effect
  }

  predicate RequestValid(r: Request) {
    r.replaceSecret ==> r.replacement.Some? && (r.updated.authentication.Password? ==> r.replacement.value != "")
  }

  predicate ChangesKind(prior: Option<Credential>, updated: Credential) {
    prior.Some? && prior.value.authentication != updated.authentication
  }

  /** The save writes or deletes the secret. */
  predicate ChangesSecret(s: Stores, r: Request) {
    r.replaceSecret || ChangesKind(PriorOf(s, r.updated.id), r.updated)
  }

  /** A password credential that keeps its secret must have had one already. */
  predicate PasswordMissing(s: Stores, r: Request, inspection: Inspection) {
    && r.updated.authentication.Password? && !r.replaceSecret
    && var prior := PriorOf(s, r.updated.id);
    prior.None? || ChangesKind(prior, r.updated) || !inspection.Truthful? || SecretOf(s, r.updated.id).None?
  }

  /** The reads before any mutation; `None` lets the save go on. */
  function Preflight(rules: Rules, s: Stores, r: Request, script: Script): Option<Outcome> {
    var id := r.updated.id;
    var prior := PriorOf(s, id);
    if !rules.valid(r.updated) then Some(InvalidCredential)
    else if !RequestValid(r) then Some(NeedsReplacement)
    else if script.cancelledAtGate then Some(Cancelled)
    else if script.listThrows then Some(StoreFailed)
    else if (ChangesSecret(s, r) || prior.None?) && script.readThrows then Some(StoreFailed)
    else if prior.None? && SecretOf(s, id).Some? then Some(SecretExists)
    else if r.updated.authentication.Password? && !r.replaceSecret && prior.Some? && !ChangesKind(prior, r.updated)
            && script.inspection.InspectThrows? then Some(StoreFailed)
    else if PasswordMissing(s, r, script.inspection) then Some(NeedsPassword)
    else if script.cancelledBeforeMutation then Some(Cancelled)
    else None
  }

  /** The compensation: both restorations are attempted, whatever the other does. */
  function Compensate(rules: Rules, s: Stores, id: Guid, prior: Option<Credential>, priorSecret: Option<string>,
                      secretAttempted: bool, metadataAttempted: bool, script: Script): (Stores, Outcome)
  {
    var s1 := if secretAttempted then Call(s, PutSecret(s, id, priorSecret), script.restoreSecret) else s;
    var s2 := if metadataAttempted then Call(s1, PutMetadata(rules, s1, id, prior), script.restoreMetadata) else s1;
    (s2, RolledBack((secretAttempted && !script.restoreSecret.Works?)
                    || (metadataAttempted && !script.restoreMetadata.Works?)))
  }

  function Mutate(rules: Rules, s: Stores, r: Request, script: Script): (Stores, Outcome) {
    var id := r.updated.id;
    var prior, priorSecret := PriorOf(s, id), SecretOf(s, id);
    var changeSecret := ChangesSecret(s, r);
    var s1 := if changeSecret then
                Call(s, PutSecret(s, id, if r.replaceSecret then r.replacement else None), script.changeSecret)
              else s;
    if changeSecret && !script.changeSecret.Works? then
      Compensate(rules, s1, id, prior, priorSecret, true, false, script)
    else
      var s2 := Call(s1, PutMetadata(rules, s1, id, Some(r.updated)), script.saveMetadata);
      if !script.saveMetadata.Works? then Compensate(rules, s2, id, prior, priorSecret, changeSecret, true, script)
      else (s2, Saved)
  }

  function Save(rules: Rules, s: Stores, r: Request, script: Script): (Stores, Outcome) {
    var stop := Preflight(rules, s, r, script);
    if stop.Some? then (s, stop.value) else Mutate(rules, s, r, script)
  }

  // ---------------------------------------------------------------- where each store ends

  predicate SecretThrew(s: Stores, r: Request, script: Script) {
    ChangesSecret(s, r) && !script.changeSecret.Works?
  }

  predicate Failed(s: Stores, r: Request, script: Script) {
    SecretThrew(s, r, script) || !script.saveMetadata.Works?
  }

  /** The new secret, or its absence, is what remains: its change took effect, and nothing put the old one back. */
  predicate SecretStaysChanged(s: Stores, r: Request, script: Script) {
    && ChangesSecret(s, r) && !script.changeSecret.ThrowsBefore?
    && (Failed(s, r, script) ==> script.restoreSecret.ThrowsBefore?)
  }

  /** The new row is what remains: it was written, and nothing put the old one back. */
  predicate RowStaysChanged(s: Stores, r: Request, script: Script) {
    && !SecretThrew(s, r, script) && !script.saveMetadata.ThrowsBefore?
    && (Failed(s, r, script) ==> script.restoreMetadata.ThrowsBefore?)
  }

  /** Two states that agree on everything but the entry of `id`. */
  ghost predicate OnlyChanges(id: Guid, s: Stores, s': Stores) {
    forall x | x != id :: PriorOf(s', x) == PriorOf(s, x) && SecretOf(s', x) == SecretOf(s, x)
  }

  /** The entry of `id` after the save, read off the request, the stores before it and the faults of its calls. */
  ghost predicate EndsWith(rules: Rules, s: Stores, r: Request, script: Script, s': Stores) {
    var id := r.updated.id;
    && OnlyChanges(id, s, s')
    && PriorOf(s', id) == (if RowStaysChanged(s, r, script) then Some(rules.row(r.updated)) else PriorOf(s, id))
    && SecretOf(s', id) == (if !SecretStaysChanged(s, r, script) then SecretOf(s, id)
                            else if r.replaceSecret then r.replacement else None)
  }

  /** Once the save mutates, exactly the changes that took effect and were not put back remain in the stores. */
  lemma MutationEnds(rules: Rules, s: Stores, r: Request, script: Script)
    requires RowsKept(rules, s)
    ensures EndsWith(rules, s, r, script, Mutate(rules, s, r, script).0)
  {
    hide PutSecret, PutMetadata, PriorOf, SecretOf, OnlyChanges, ChangesKind, RowsKept;
    var id := r.updated.id;
    var prior, priorSecret := PriorOf(s, id), SecretOf(s, id);
    var secret := if r.replaceSecret then r.replacement else None;
    PriorIsKept(rules, s, id);
    NothingChanges(id, s);
    Puts(rules, s, s, id, secret, None);
    var s1 := if ChangesSecret(s, r) then Call(s, PutSecret(s, id, secret), script.changeSecret) else s;
    Puts(rules, s, s1, id, priorSecret, Some(r.updated));
    var s2 := if SecretThrew(s, r, script) then s1
              else Call(s1, PutMetadata(rules, s1, id, Some(r.updated)), script.saveMetadata);
    Puts(rules, s, s2, id, priorSecret, prior);
    var s3 := if ChangesSecret(s, r) then Call(s2, PutSecret(s2, id, priorSecret), script.restoreSecret) else s2;
    Puts(rules, s, s3, id, priorSecret, prior);
  }

  /** What the two writes do to the entry of `id`; every other entry stays. */
  lemma Puts(rules: Rules, s: Stores, t: Stores, id: Guid, secret: Option<string>, c: Option<Credential>)
    requires OnlyChanges(id, s, t)
    ensures var u := PutSecret(t, id, secret);
            OnlyChanges(id, s, u) && SecretOf(u, id) == secret && PriorOf(u, id) == PriorOf(t, id)
    ensures var u := PutMetadata(rules, t, id, c);
            && OnlyChanges(id, s, u) && SecretOf(u, id) == SecretOf(t, id)
            && PriorOf(u, id) == if c.Some? then Some(rules.row(c.value)) else None
  {
  }

  lemma PriorIsKept(rules: Rules, s: Stores, id: Guid)
    requires RowsKept(rules, s)
    ensures PriorOf(s, id).Some? ==> PriorOf(s, id).value.id == id && rules.row(PriorOf(s, id).value) == PriorOf(s, id).value
  {
  }

  // ---------------------------------------------------------------- which saves go through

  /** The replacement, where one is asked for, can be stored. */
  predicate Replaceable(r: Request) {
    r.replaceSecret ==> r.replacement.Some? && !(r.updated.authentication.Password? && r.replacement.value == "")
  }

  /** The credential exists already and keeps its kind. */
  predicate KeepsKind(s: Stores, c: Credential) {
    c.id in s.metadata && s.metadata[c.id].authentication == c.authentication
  }

  /**
   * The request is valid, nothing read throws, the caller does not cancel, a new credential has no secret yet, and a password
   * credential whose secret is not replaced has one, under an unchanged kind, that can be inspected.
   */
  predicate GoesThrough(rules: Rules, s: Stores, r: Request, script: Script) {
    var id := r.updated.id;
    && rules.valid(r.updated) && Replaceable(r)
    && !script.cancelledAtGate && !script.listThrows && !script.cancelledBeforeMutation
    && (r.replaceSecret || !KeepsKind(s, r.updated) ==> !script.readThrows)
    && (id !in s.metadata ==> id !in s.secrets)
    && (r.updated.authentication.Password? && !r.replaceSecret ==>
          KeepsKind(s, r.updated) && script.inspection.Truthful? && id in s.secrets)
  }

  lemma PreflightPassesIff(rules: Rules, s: Stores, r: Request, script: Script)
    ensures Preflight(rules, s, r, script).None? <==> GoesThrough(rules, s, r, script)
  {
  }

  /** A save touches the stores, and ends in success or a rollback, exactly when it goes through; any other leaves them alone. */
  lemma SaveGoesThroughIff(rules: Rules, s: Stores, r: Request, script: Script)
    ensures var (s', outcome) := Save(rules, s, r, script);
            && (outcome.Saved? || outcome.RolledBack? <==> GoesThrough(rules, s, r, script))
            && (s' != s ==> GoesThrough(rules, s, r, script))
            && (outcome == InvalidCredential <==> !rules.valid(r.updated))
            && (outcome == NeedsReplacement <==> rules.valid(r.updated) && !Replaceable(r))
  {
    hide PutSecret, PutMetadata, Call;
  }

  /** The secret is read unless it is neither replaced nor that of a new kind; nothing that is read throws. */
  predicate ReadsWork(s: Stores, r: Request, script: Script) {
    !script.listThrows && (r.replaceSecret || !KeepsKind(s, r.updated) ==> !script.readThrows)
  }

  /**
   * Why a valid request is refused. A missing password is asked for when none is given and the stored one cannot be kept, because
   * the kind changes or there is no readable one; a store that throws is reported as such, and so is the caller's cancellation.
   */
  lemma RefusedFor(rules: Rules, s: Stores, r: Request, script: Script)
    requires rules.valid(r.updated) && Replaceable(r)
    ensures var outcome := Save(rules, s, r, script).1;
            var foreign := r.updated.id !in s.metadata && r.updated.id in s.secrets;
            var unkept := r.updated.authentication.Password? && !r.replaceSecret;
            var allRead := !script.cancelledAtGate && ReadsWork(s, r, script) && !foreign;
            && (outcome == NeedsPassword <==>
                  && allRead && unkept
                  && (!KeepsKind(s, r.updated) || script.inspection.Denied?
                      || (script.inspection.Truthful? && r.updated.id !in s.secrets)))
            && (outcome == StoreFailed <==>
                  && !script.cancelledAtGate
                  && (!ReadsWork(s, r, script)
                      || (allRead && unkept && KeepsKind(s, r.updated) && script.inspection.InspectThrows?)))
            && (outcome == Cancelled ==> script.cancelledAtGate || script.cancelledBeforeMutation)
            && (script.cancelledAtGate ==> outcome == Cancelled)
  {
    hide PutSecret, PutMetadata, Call;
  }

  /** A new credential whose id has a secret already is refused for that reason, unless something stops the save before. */
  lemma ForeignSecretIsRefused(rules: Rules, s: Stores, r: Request, script: Script)
    requires r.updated.id !in s.metadata && r.updated.id in s.secrets
    ensures Save(rules, s, r, script).0 == s
    ensures Save(rules, s, r, script).1 == SecretExists <==>
              && rules.valid(r.updated) && Replaceable(r)
              && !script.cancelledAtGate && !script.listThrows && !script.readThrows
  {
    hide Mutate;
  }

  // ---------------------------------------------------------------- rollback

  /** What the outcome says of the two stores. */
  ghost predicate Accounted(id: Guid, s: Stores, s': Stores, outcome: Outcome, script: Script) {
    && OnlyChanges(id, s, s')
    && (!outcome.Saved? && outcome != RolledBack(true) ==> s' == s)
    && (outcome == RolledBack(true) ==>
          && (s'.secrets == s.secrets || !script.restoreSecret.Works?)
          && (s'.metadata == s.metadata || !script.restoreMetadata.Works?))
  }

  lemma SameEntries(id: Guid, s: Stores, s': Stores)
    requires OnlyChanges(id, s, s')
    ensures PriorOf(s', id) == PriorOf(s, id) ==> s'.metadata == s.metadata
    ensures SecretOf(s', id) == SecretOf(s, id) ==> s'.secrets == s.secrets
  {
    if PriorOf(s', id) == PriorOf(s, id) {
      assert forall x :: PriorOf(s', x) == PriorOf(s, x);
      assert forall x :: x in s'.metadata <==> PriorOf(s', x).Some?;
      assert forall x :: x in s.metadata <==> PriorOf(s, x).Some?;
    }
    if SecretOf(s', id) == SecretOf(s, id) {
      assert forall x :: SecretOf(s', x) == SecretOf(s, x);
      assert forall x :: x in s'.secrets <==> SecretOf(s', x).Some?;
      assert forall x :: x in s.secrets <==> SecretOf(s, x).Some?;
    }
  }

  /**
   * What each ending of a save means for the two stores, for every pattern of calls throwing before or after
   * their effect: an early failure or a full rollback leaves both stores as they were; a rollback that asks
   * for repair leaves a store changed only if restoring that very store threw; no other entry ever changes.
   */
  lemma EveryEndingIsAccountedFor(rules: Rules, s: Stores, r: Request, script: Script)
    requires RowsKept(rules, s)
    ensures var (s', outcome) := Save(rules, s, r, script);
            Accounted(r.updated.id, s, s', outcome, script)
  {
    hide OnlyChanges, PutSecret, PutMetadata, PasswordMissing, PriorOf, SecretOf, RowsKept, ChangesKind;
    var id := r.updated.id;
    var s' := Save(rules, s, r, script).0;
    assert OnlyChanges(id, s, s) by {
      NothingChanges(id, s);
    }
    if Preflight(rules, s, r, script).None? {
      MutationEnds(rules, s, r, script);
      SameEntries(id, s, s');
    }
  }

  lemma NothingChanges(id: Guid, s: Stores)
    ensures OnlyChanges(id, s, s)
  {
  }

  /**
   * A mutation that throws always ends in a rollback, and it asks for repair exactly when an attempted restoration threw.
   */
  lemma RepairIffRestorationThrew(rules: Rules, s: Stores, r: Request, script: Script)
    requires GoesThrough(rules, s, r, script)
    ensures var outcome := Save(rules, s, r, script).1;
            && (outcome.Saved? <==> !Failed(s, r, script))
            && (!outcome.Saved? ==>
                  outcome == RolledBack((ChangesSecret(s, r) && !script.restoreSecret.Works?)
                                        || (!SecretThrew(s, r, script) && !script.restoreMetadata.Works?)))
  {
    hide Preflight, GoesThrough, PutSecret, PutMetadata, ChangesSecret;
    PreflightPassesIff(rules, s, r, script);
  }

  /**
   * After a successful save both stores hold exactly what was asked for, and a change of kind never keeps the old secret.
   */
  lemma SavedMeansBothChanged(rules: Rules, s: Stores, r: Request, script: Script)
    requires RowsKept(rules, s) && Save(rules, s, r, script).1.Saved?
    ensures var s' := Save(rules, s, r, script).0;
            var id := r.updated.id;
            && PriorOf(s', id) == Some(rules.row(r.updated))
            && (r.replaceSecret ==> SecretOf(s', id) == r.replacement && r.replacement.Some?)
            && (!r.replaceSecret && ChangesKind(PriorOf(s, id), r.updated) ==> SecretOf(s', id) == None)
            && (!r.replaceSecret && !ChangesKind(PriorOf(s, id), r.updated) ==> SecretOf(s', id) == SecretOf(s, id))
  {
    hide PutSecret, PutMetadata, PriorOf, SecretOf, OnlyChanges, ChangesKind, PasswordMissing;
    MutationEnds(rules, s, r, script);
  }

  // ---------------------------------------------------------------- coherence over runs

  /** Every password credential has a stored secret. */
  ghost predicate Coherent(s: Stores) {
    forall id | id in s.metadata && s.metadata[id].authentication.Password? :: id in s.secrets
  }

  /**
   * The two ways to lose a password: the new row of a password credential stays although its password was taken back, or
   * the old row of one stays although its password is gone.
   */
  predicate LosesPassword(rules: Rules, s: Stores, r: Request, script: Script) {
    && GoesThrough(rules, s, r, script)
    && ((RowStaysChanged(s, r, script) && !SecretStaysChanged(s, r, script)
         && r.updated.authentication.Password? && SecretOf(s, r.updated.id).None?)
        || (!RowStaysChanged(s, r, script) && SecretStaysChanged(s, r, script)
            && r.updated.authentication.PrivateKey? && !r.replaceSecret))
  }

  /** A save of coherent stores leaves them incoherent exactly in those two cases. */
  lemma CoherenceLostIff(rules: Rules, s: Stores, r: Request, script: Script)
    requires RowsKept(rules, s) && Coherent(s)
    ensures Coherent(Save(rules, s, r, script).0) <==> !LosesPassword(rules, s, r, script)
  {
    hide PutSecret, PutMetadata, Mutate, RowsKept, GoesThrough;
    PreflightPassesIff(rules, s, r, script);
    var id := r.updated.id;
    var s' := Save(rules, s, r, script).0;
    if Preflight(rules, s, r, script).None? {
      MutationEnds(rules, s, r, script);
      EntryDecidesCoherence(id, s, s');
    }
  }

  /** The entry of `id`, when it is a password credential, has its password. */
  predicate EntryCoherent(s: Stores, id: Guid) {
    PriorOf(s, id).Some? && PriorOf(s, id).value.authentication.Password? ==> SecretOf(s, id).Some?
  }

  lemma EntryDecidesCoherence(id: Guid, s: Stores, s': Stores)
    requires Coherent(s) && OnlyChanges(id, s, s')
    ensures Coherent(s') <==> EntryCoherent(s', id)
    ensures EntryCoherent(s, id)
  {
    forall x | x in s'.metadata && x != id ensures x in s.metadata && s.metadata[x] == s'.metadata[x] {
      assert PriorOf(s', x) == PriorOf(s, x);
    }
    forall x | x in s.secrets && x != id ensures x in s'.secrets {
      assert SecretOf(s', x) == SecretOf(s, x);
    }
  }

  lemma SaveKeepsRows(rules: Rules, s: Stores, r: Request, script: Script)
    requires RowsKept(rules, s)
    ensures RowsKept(rules, Save(rules, s, r, script).0)
  {
    hide PutSecret, PutMetadata, Mutate, Preflight, RowStaysChanged, SecretStaysChanged;
    var s' := Save(rules, s, r, script).0;
    if Preflight(rules, s, r, script).None? {
      MutationEnds(rules, s, r, script);
      forall id | id in s'.metadata ensures s'.metadata[id].id == id && rules.row(s'.metadata[id]) == s'.metadata[id] {
        assert PriorOf(s', id) == Some(s'.metadata[id]);
        if id != r.updated.id {
          assert PriorOf(s', id) == PriorOf(s, id);
        }
      }
    }
  }

  /** A success or a full rollback keeps every password. */
  lemma SaveKeepsCoherence(rules: Rules, s: Stores, r: Request, script: Script)
    requires RowsKept(rules, s) && Coherent(s) && Save(rules, s, r, script).1 != RolledBack(true)
    ensures Coherent(Save(rules, s, r, script).0)
  {
    hide PutSecret, PutMetadata, Mutate, RowsKept, Coherent, PriorOf, SecretOf;
    CoherenceLostIff(rules, s, r, script);
    if GoesThrough(rules, s, r, script) {
      RepairIffRestorationThrew(rules, s, r, script);
    }
  }

  datatype Attempt = Attempt(request: Request, script: Script)

  /** The stores after a sequence of saves, each with its own faults. */
  function Run(rules: Rules, s: Stores, attempts: seq<Attempt>): Stores {
    if attempts == [] then s else
      var last := attempts[|attempts| - 1];
      Save(rules, Run(rules, s, attempts[..|attempts| - 1]), last.request, last.script).0
  }

  /** Save number `k` loses a password. */
  predicate LosesAt(rules: Rules, s: Stores, attempts: seq<Attempt>, k: nat)
    requires k < |attempts|
  {
    LosesPassword(rules, Run(rules, s, attempts[..k]), attempts[k].request, attempts[k].script)
  }

  /** Coherence survives every run of saves none of which loses a password, however many of its calls throw. */
  lemma {:induction false} CoherentOverRuns(rules: Rules, s: Stores, attempts: seq<Attempt>)
    requires RowsKept(rules, s) && Coherent(s) && forall k | 0 <= k < |attempts| :: !LosesAt(rules, s, attempts, k)
    ensures RowsKept(rules, Run(rules, s, attempts)) && Coherent(Run(rules, s, attempts))
  {
    hide Save, RowsKept, Coherent, LosesPassword;
    if attempts != [] {
      var n := |attempts| - 1;
      var front, last := attempts[..n], attempts[n];
      forall k | 0 <= k < n ensures !LosesAt(rules, s, front, k) {
        assert front[..k] == attempts[..k] && front[k] == attempts[k] && !LosesAt(rules, s, attempts, k);
      }
      CoherentOverRuns(rules, s, front);
      assert !LosesAt(rules, s, attempts, n);
      SaveKeepsRows(rules, Run(rules, s, front), last.request, last.script);
      CoherenceLostIff(rules, Run(rules, s, front), last.request, last.script);
    }
  }

  /**
   * A secret without a row is never adopted, overwritten or deleted: whatever saves are made, in whatever way their calls throw,
   * it stays as it was and no row appears under its id.
   */
  lemma {:induction false} ForeignSecretsAreSafe(rules: Rules, s: Stores, attempts: seq<Attempt>, id: Guid)
    requires RowsKept(rules, s) && id in s.secrets && id !in s.metadata
    ensures var s' := Run(rules, s, attempts);
            RowsKept(rules, s') && id in s'.secrets && s'.secrets[id] == s.secrets[id] && id !in s'.metadata
  {
    hide Save, RowsKept;
    if attempts != [] {
      var front, last := attempts[..|attempts| - 1], attempts[|attempts| - 1];
      ForeignSecretsAreSafe(rules, s, front, id);
      var before := Run(rules, s, front);
      SaveKeepsRows(rules, before, last.request, last.script);
      if last.request.updated.id == id {
        ForeignSecretIsRefused(rules, before, last.request, last.script);
      } else {
        EveryEndingIsAccountedFor(rules, before, last.request, last.script);
        var after := Save(rules, before, last.request, last.script).0;
        assert PriorOf(after, id) == PriorOf(before, id) && SecretOf(after, id) == SecretOf(before, id);
      }
    }
  }

  /**
   * Both ways occur: a new password credential can be left without its password, which the rollback says by asking for
   * repair.
   */
  lemma RepairMayBreakCoherence(rules: Rules, c: Credential, secret: string)
    requires rules.valid(c) && c.authentication.Password? && secret != ""
    ensures var script := Script(false, false, false, Truthful, false, Works, ThrowsAfter, Works, ThrowsBefore);
            var r := Request(c, true, Some(secret));
            LosesPassword(rules, Stores(map[], map[]), r, script)
            && Save(rules, Stores(map[], map[]), r, script).1 == RolledBack(true)
  {
  }

  /** And the password of an existing one can be gone although it stays a password credential. */
  lemma RepairMayLoseOldPassword(rules: Rules, c: Credential, secret: string)
    requires rules.valid(c) && c.authentication.PrivateKey?
    ensures var before := c.(authentication := Password);
            var s := Stores(map[c.id := before], map[c.id := secret]);
            var script := Script(false, false, false, Truthful, false, Works, ThrowsBefore, ThrowsBefore, Works);
            LosesPassword(rules, s, Request(c, false, None), script)
            && Save(rules, s, Request(c, false, None), script).1 == RolledBack(true)
  {
  }
}
