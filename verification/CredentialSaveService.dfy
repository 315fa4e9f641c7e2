/** The service as the object it is, over a database and a secret store whose calls may throw. */
module CredentialSaveService {
  import opened Prelude
  import opened CredentialSave

  class Service {
    const rules: Rules := Standard()
    var metadata: map<Guid, Credential>
    var secrets: map<Guid, string>
    var gateHeld: bool

    ghost function View(): Stores
      reads this
    {
      Stores(metadata, secrets)
    }

    constructor (metadata: map<Guid, Credential>, secrets: map<Guid, string>)
      ensures View() == Stores(metadata, secrets) && !gateHeld
    {
      this.metadata, this.secrets, gateHeld := metadata, secrets, false;
    }

    method SaveCredential(c: Credential, fault: Fault) returns (threw: bool)
      modifies this`metadata
      ensures View() == Call(old(View()), PutMetadata(rules, old(View()), c.id, Some(c)), fault) && threw == !fault.Works?
    {
      if !fault.ThrowsBefore? {
        metadata := metadata[c.id := rules.row(c)];
      }
      threw := !fault.Works?;
    }

    method DeleteCredential(id: Guid, fault: Fault) returns (threw: bool)
      modifies this`metadata
      ensures View() == Call(old(View()), PutMetadata(rules, old(View()), id, None), fault) && threw == !fault.Works?
    {
      if !fault.ThrowsBefore? {
        metadata := metadata - {id};
      }
      threw := !fault.Works?;
    }

    method WriteSecret(id: Guid, secret: string, fault: Fault) returns (threw: bool)
      modifies this`secrets
      ensures View() == Call(old(View()), PutSecret(old(View()), id, Some(secret)), fault) && threw == !fault.Works?
    {
      if !fault.ThrowsBefore? {
        secrets := secrets[id := secret];
      }
      threw := !fault.Works?;
    }

    method DeleteSecret(id: Guid, fault: Fault) returns (threw: bool)
      modifies this`secrets
      ensures View() == Call(old(View()), PutSecret(old(View()), id, None), fault) && threw == !fault.Works?
    {
      if !fault.ThrowsBefore? {
        secrets := secrets - {id};
      }
      threw := !fault.Works?;
    }

    /**
     * The stores end as `Save` says, which `EveryEndingIsAccountedFor` and the lemmas beside it explain;
     * the gate is free again on every path.
     */
    method SaveAsync(r: Request, script: Script) returns (outcome: Outcome)
      requires !gateHeld && RowsKept(rules, View())
      modifies this
      ensures !gateHeld && (View(), outcome) == Save(rules, old(View()), r, script)
      ensures Accounted(r.updated.id, old(View()), View(), outcome, script)
    {
      hide Standard, Accounted, RowsKept, Mutate;
      EveryEndingIsAccountedFor(rules, View(), r, script);
      if !rules.valid(r.updated) {
        return InvalidCredential;
      }
      if !RequestValid(r) {
        return NeedsReplacement;
      }
      if script.cancelledAtGate {
        return Cancelled;
      }
      gateHeld := true;
      outcome := SaveHoldingGate(r, script);
      gateHeld := false;
    }

    method SaveHoldingGate(r: Request, script: Script) returns (outcome: Outcome)
      requires rules.valid(r.updated) && RequestValid(r) && !script.cancelledAtGate
      requires RowsKept(rules, View())
      modifies this`metadata, this`secrets
      ensures (View(), outcome) == Save(rules, old(View()), r, script)
    {
      hide Standard, PutSecret, PutMetadata, Compensate, RowsKept;
      var id := r.updated.id;
      if script.listThrows {
        return StoreFailed;
      }
      var prior := if id in metadata then Some(metadata[id]) else None;
      var changeSecret := r.replaceSecret || (prior.Some? && prior.value.authentication != r.updated.authentication);
      var priorSecret: Option<string> := None;
      if changeSecret || prior.None? {
        if script.readThrows {
          return StoreFailed;
        }
        priorSecret := if id in secrets then Some(secrets[id]) else None;
      }
      if prior.None? && priorSecret.Some? {
        return SecretExists;
      }
      if r.updated.authentication.Password? && !r.replaceSecret {
        if prior.None? || prior.value.authentication != r.updated.authentication {
          return NeedsPassword;
        }
        if script.inspection.InspectThrows? {
          return StoreFailed;
        }
        if script.inspection.Denied? || id !in secrets {
          return NeedsPassword;
        }
      }
      if script.cancelledBeforeMutation {
        return Cancelled;
      }
      outcome := MutateStores(r, prior, priorSecret, changeSecret, script);
    }

    method MutateStores(
      r: Request, prior: Option<Credential>, priorSecret: Option<string>, changeSecret: bool, script: Script)
      returns (outcome: Outcome)
      requires RequestValid(r) && RowsKept(rules, View())
      requires prior == PriorOf(View(), r.updated.id)
      requires changeSecret == ChangesSecret(View(), r)
      requires changeSecret ==> priorSecret == SecretOf(View(), r.updated.id)
      modifies this`metadata, this`secrets
      ensures (View(), outcome) == Mutate(rules, old(View()), r, script)
    {
      assert prior.Some? ==> prior.value.id == r.updated.id by {
        PriorIsKept(rules, View(), r.updated.id);
      }
      hide Standard, PutSecret, PutMetadata, RowsKept, PriorOf, SecretOf, ChangesKind;
      var id := r.updated.id;
      var secretAttempted, metadataAttempted, threw := false, false, false;
      if changeSecret {
        secretAttempted := true;
        if r.replaceSecret {
          threw := WriteSecret(id, r.replacement.value, script.changeSecret);
        } else {
          threw := DeleteSecret(id, script.changeSecret);
        }
      }
      if !threw {
        metadataAttempted := true;
        threw := SaveCredential(r.updated, script.saveMetadata);
      }
      if !threw {
        return Saved;
      }
      // A change that threw may be in its store all the same, so each attempted one is put back, the other failing or not.
      var repairRequired := false;
      if secretAttempted {
        var failed: bool;
        if priorSecret.None? {
          failed := DeleteSecret(id, script.restoreSecret);
        } else {
          failed := WriteSecret(id, priorSecret.value, script.restoreSecret);
        }
        repairRequired := repairRequired || failed;
      }
      if metadataAttempted {
        var failed: bool;
        if prior.None? {
          failed := DeleteCredential(id, script.restoreMetadata);
        } else {
          failed := SaveCredential(prior.value, script.restoreMetadata);
        }
        repairRequired := repairRequired || failed;
      }
      outcome := RolledBack(repairRequired);
    }
  }
}
