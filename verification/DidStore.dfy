/** The operations as they run: reading and rewriting the keyspace
    (did-hosting-control/src/did_ops.rs:148-762, 775-1421, 1409-1519, 1818-2059). */
module DidStore {
  import opened Common
  import opened Paths
  import opened AgentNames
  import opened Rollback
  import opened SlotStore
  import opened SlotInvariant
  import Files = WitnessFile
  import Usage = Listing
  import Gates = LogGates

  /** The first refusal, or the commit of the batch decided on. */
  ghost predicate Performs(h: Host, before: Store, decision: Result<Batch, Error>, after: Store, error: Option<Error>) {
    match decision
    case Err(e) => error == Some(e) && after == before
    case Ok(b) => error == None && after == Commit(h, before, b)
  }

  lemma PerformingIsDoing(h: Host, s: Store, c: Call, after: Store, error: Option<Error>)
    requires Inv(h, s) && !c.op.OpCreate? && Performs(h, s, Decide(h, s, c), after, error)
    ensures Do(h, s, c) == Outcome(after, error) && Inv(h, after)
  {
    StepKeepsInv(h, s, c);
  }

  lemma RollingBackIsDoing(h: Host, s: Store, auth: Auth, slot: string, target: Option<nat>, now: nat, after: Store,
                           error: Option<Error>)
    requires Inv(h, s) && Performs(h, s, RollBack(h, s, auth, slot, target, now), after, error)
    ensures Do(h, s, Call(auth, OpRollBack(slot, target), now)) == Outcome(after, error) && Inv(h, after)
  {
    PerformingIsDoing(h, s, Call(auth, OpRollBack(slot, target), now), after, error);
  }

  /** The names a document claims, in order, each once. */
  method AgentNamesFromDocument(aliases: seq<Alias>, domain: string) returns (names: seq<string>)
    ensures names == Claims(aliases, domain)
  {
    names := [];
    for i := 0 to |aliases|
      invariant names == Claims(aliases[..i], domain)
    {
      assert aliases[..i + 1][..i] == aliases[..i];
      var a := aliases[i];
      if a.authority == domain && a.local !in names {
        names := names + [a.local];
      }
    }
    assert aliases[..|aliases|] == aliases;
  }

  lemma {:induction false} FlagAtFirst(names: seq<NameEntry>, name: string, enabled: bool, i: nat)
    requires i <= |names| && forall j :: 0 <= j < i ==> names[j].name != name
    ensures i < |names| && names[i].name == name ==>
        WithFlag(names, name, enabled) == names[i := names[i].(enabled := enabled)]
    ensures i == |names| ==> name !in NamesIn(names)
  {
    if i > 0 {
      FlagAtFirst(names[1..], name, enabled, i - 1);
      assert names == [names[0]] + names[1..];
    }
  }

  /** Find the entry and set its flag in place. */
  method SetFlag(names: seq<NameEntry>, name: string, enabled: bool) returns (found: bool, next: seq<NameEntry>)
    ensures found <==> name in NamesIn(names)
    ensures next == if found then WithFlag(names, name, enabled) else names
  {
    var i := 0;
    while i < |names| && names[i].name != name
      invariant 0 <= i <= |names| && forall j :: 0 <= j < i ==> names[j].name != name
    {
      i := i + 1;
    }
    FlagAtFirst(names, name, enabled, i);
    if i == |names| {
      return false, names;
    }
    assert names[i] in names;
    return true, names[i := names[i].(enabled := enabled)];
  }

  lemma {:induction false} NothingToRemove(names: seq<NameEntry>, name: string)
    ensures |WithoutName(names, name)| <= |names|
    ensures |WithoutName(names, name)| == |names| <==> name !in NamesIn(names)
  {
    if names != [] {
      NothingToRemove(names[1..], name);
      assert forall e :: e in names <==> e == names[0] || e in names[1..];
    }
  }

  /** The registry part of an agent-name verb. */
  method UpdateRegistry(names: seq<NameEntry>, index: Index, domain: string, slot: string, name: string, verb: Verb,
                        now: nat)
    returns (r: Result<NameChange, Error>)
    ensures r == ApplyVerb(names, index, domain, slot, name, verb, now)
  {
    match verb {
      case Activate =>
        if HeldByOther(index, domain, name, slot) {
          return Err(NameTaken);
        }
        var found, next := SetFlag(names, name, true);
        return Ok(NameChange(if found then next else names + [NameEntry(name, true, now)], [name], []));
      case Park =>
        var found, next := SetFlag(names, name, false);
        return if found then Ok(NameChange(next, [], [])) else Err(NameNotFound);
      case Remove =>
        var next := WithoutName(names, name);
        NothingToRemove(names, name);
        return if |next| == |names| then Err(NameNotFound) else Ok(NameChange(next, [], [name]));
    }
  }

  class DidStore {
    const host: Host
    var records: Records
    var logs: map<string, string>
    var proofs: map<string, Files.Stored>
    var owners: Owners
    var names: Index

    ghost function View(): Store
      reads this
    {
      Store(records, logs, proofs, owners, names)
    }

    ghost predicate Valid()
      reads this
    {
      Inv(host, View())
    }

    constructor (host: Host)
      ensures Valid() && View() == EMPTY && this.host == host
    {
      this.host := host;
      records, logs, proofs, owners, names := map[], map[], map[], map[], map[];
    }

    // -------------------------------------------------------------------
    // Checks
    // -------------------------------------------------------------------

    method GetAuthorizedRecord(slot: string, auth: Auth) returns (r: Result<Record, Error>)
      ensures r == Authorized(View(), slot, auth)
    {
      if !MnemonicOk(slot) {
        return Err(InvalidPath);
      }
      if slot !in records {
        return Err(NotFound);
      }
      var record := records[slot];
      if record.owner != auth.did && !auth.admin {
        return Err(Forbidden);
      }
      return Ok(record);
    }

    method OwnerUsage(did: string) returns (count: nat, total: nat)
      requires OwnersExact(View())
      ensures count == |OwnedBy(records, did)| && total == Total(records, did)
    {
      count, total := Usage.OwnerUsage(Store(records, logs, proofs, owners, names), did);
    }

    method CheckDidCountLimit(auth: Auth) returns (ok: bool)
      requires auth.admin || OwnersExact(View())
      ensures ok <==> !CountRefuses(View(), auth)
    {
      if auth.admin || auth.maxCount.None? {
        return true;
      }
      var count, _ := OwnerUsage(auth.did);
      return count < auth.maxCount.value;
    }

    method CheckTotalSizeLimit(auth: Auth, oldSize: nat, newSize: nat) returns (ok: bool)
      requires OwnersExact(View())
      ensures ok <==> !SizeRefuses(View(), auth, oldSize, newSize)
    {
      if auth.admin || auth.maxSize.None? {
        return true;
      }
      var _, total := OwnerUsage(auth.did);
      return SatSub(total, oldSize) + newSize <= auth.maxSize.value;
    }

    /** Judge a log against what is stored for the slot. */
    method VerifyPublication(slot: string, log: string) returns (ok: bool)
      ensures ok <==> GateAccepts(host, View(), slot, log)
    {
      var existing, existingProofs := Find(logs, slot), Find(proofs, slot);
      ok := Gates.VerifyDidLogForPublish(host.lib, log, existingProofs, EntryCount(existing));
    }

    // -------------------------------------------------------------------
    // Committing
    // -------------------------------------------------------------------

    /** One batch, whole. */
    method CommitBatch(b: Batch)
      modifies this
      ensures View() == Commit(host, old(View()), b)
    {
      records := Edit(records, b.slot, b.record);
      logs := Edit(logs, b.slot, b.log);
      proofs := Edit(proofs, b.slot, b.proofs);
      if b.dropOwner.Some? {
        owners := owners - {OwnerKey(b.dropOwner.value, b.slot)};
      }
      if b.putOwner.Some? {
        owners := owners[OwnerKey(b.putOwner.value, b.slot) := b.slot];
      }
      names := Reindex(names, host.domainOf(b.slot), b.slot, b.claimed, b.released);
    }

    // -------------------------------------------------------------------
    // Operations
    // -------------------------------------------------------------------

    /** A free path, or an occupied one, cleared. */
    method ResolvePathForCreate(auth: Auth, path: Option<string>, drawn: seq<string>, force: bool)
      returns (r: Result<string, Error>)
      modifies this
      ensures r == ResolvePath(old(View()), auth, path, drawn, force)
      ensures View() ==
        if r.Ok? && r.value in old(records) then Commit(host, old(View()), Clearing(old(View()), auth, r.value))
        else old(View())
      ensures r.Ok? && r.value in records && !auth.admin ==> records[r.value].owner == auth.did
    {
      if path.None? {
        var free := GenerateUniqueMnemonic(drawn);
        if free.None? {
          return Err(NoFreePath);
        }
        FirstFreeIsFree(View(), drawn);
        return Ok(free.value);
      }
      var m := path.value;
      if m == ROOT && !auth.admin {
        return Err(Forbidden);
      }
      if !MnemonicOk(m) {
        return Err(InvalidPath);
      }
      if m !in records {
        return Ok(m);
      }
      if !force {
        return Err(Conflict);
      }
      var owner := records[m].owner;
      if owner != auth.did && !auth.admin {
        return Err(Forbidden);
      }
      CommitBatch(Batch(m, Keep, Drop, Drop, if owner != auth.did then Some(owner) else None, None, [], []));
      return Ok(m);
    }

    /** Draw until a path is free. */
    method GenerateUniqueMnemonic(drawn: seq<string>) returns (free: Option<string>)
      ensures free == FirstFree(View(), drawn)
    {
      var left := drawn;
      while left != []
        invariant FirstFree(View(), drawn) == FirstFree(View(), left)
        decreases |left|
      {
        if left[0] !in records {
          return Some(left[0]);
        }
        left := left[1..];
      }
      return None;
    }

    method CreateDid(auth: Auth, path: Option<string>, drawn: seq<string>, force: bool, now: nat)
      returns (error: Option<Error>)
      requires Valid() && forall i :: 0 <= i < |drawn| ==> PathOk(drawn[i])
      modifies this
      ensures Valid()
      ensures Do(host, old(View()), Call(auth, OpCreate(path, drawn, force), now)) == Outcome(View(), error)
    {
      StepKeepsInv(host, View(), Call(auth, OpCreate(path, drawn, force), now));
      OwnersAreExact(host, View());
      var resolved := ResolvePathForCreate(auth, path, drawn, force);
      if resolved.Err? {
        return Some(resolved.error);
      }
      var m := resolved.value;
      if !(m in records && records[m].owner == auth.did) {
        var ok := CheckDidCountLimit(auth);
        if !ok {
          return Some(CountQuota);
        }
      }
      CommitBatch(Reserving(auth, m, now));
      return None;
    }

    method RegisterDidAtomic(auth: Auth, slot: string, log: string, force: bool, now: nat)
      returns (error: Option<Error>)
      requires Valid()
      modifies this
      ensures Valid()
      ensures Do(host, old(View()), Call(auth, OpRegister(slot, log, force), now)) == Outcome(View(), error)
    {
      ghost var before := View();
      ghost var call := Call(auth, OpRegister(slot, log, force), now);
      var b := PlanRegister(auth, slot, log, force, now);
      error := Conclude(b);
      PerformingIsDoing(host, before, call, View(), error);
    }

    method CheckRegister(auth: Auth, slot: string, log: string, force: bool) returns (error: Option<Error>)
      requires Valid()
      ensures error == RegisterCheck(host, View(), auth, slot, log, force)
    {
      OwnersAreExact(host, View());
      if slot == ROOT && !auth.admin {
        return Some(Forbidden);
      }
      if !MnemonicOk(slot) {
        return Some(InvalidPath);
      }
      var ok := VerifyPublication(slot, log);
      var didId := DidIdOf(host.lib, log);
      if !ok || didId.None? {
        return Some(InvalidLog);
      }
      if host.slotOf(didId.value) != Some(slot) {
        return Some(WrongSlot);
      }
      var existing := Find(records, slot);
      if existing.Some? && existing.value.owner != auth.did && !(auth.admin && force) {
        return Some(Forbidden);
      }
      if existing.None? {
        ok := CheckDidCountLimit(auth);
        if !ok {
          return Some(CountQuota);
        }
      }
      ok := CheckTotalSizeLimit(auth, if existing.Some? then existing.value.size else 0, |log|);
      return if ok then None else Some(SizeQuota);
    }

    method PlanRegister(auth: Auth, slot: string, log: string, force: bool, now: nat) returns (r: Result<Batch, Error>)
      requires Valid()
      ensures r == Register(host, View(), auth, slot, log, force, now)
    {
      var refusal := CheckRegister(auth, slot, log, force);
      if refusal.Some? {
        return Err(refusal.value);
      }
      var existing := Find(records, slot);
      var takeover := existing.Some? && existing.value.owner != auth.did;
      var republish := existing.Some? && !takeover;
      var domain := host.domainOf(slot);
      var entries := if existing.Some? then existing.value.names else [];
      var claims := AgentNamesFromDocument(host.aliases(log), domain);
      var plan := ReconcileAgentNames(entries, names, domain, slot, claims, now);
      if plan.Err? {
        return Err(plan.error);
      }
      var record := Record(auth.did, if republish then existing.value.createdAt else now, now,
                           if republish then existing.value.versions + 1 else 1,
                           DidIdOf(host.lib, log), |log|, false, None, plan.value.names);
      return Ok(Batch(slot, Put(record), Put(log), if takeover then Drop else Keep,
                      if takeover then Some(existing.value.owner) else None, Some(auth.did),
                      plan.value.claimed, plan.value.released));
    }

    /** Commit what was decided, or report why not. */
    method Conclude(decision: Result<Batch, Error>) returns (error: Option<Error>)
      modifies this
      ensures Performs(host, old(View()), decision, View(), error)
    {
      match decision {
        case Err(e) => return Some(e);
        case Ok(b) =>
          CommitBatch(b);
          return None;
      }
    }

    method PrepareRepublish(auth: Auth, slot: string, log: string, now: nat) returns (r: Result<Record, Error>)
      requires Valid()
      ensures r == Republish(host, View(), auth, slot, log, now)
    {
      OwnersAreExact(host, View());
      var authorized := GetAuthorizedRecord(slot, auth);
      if authorized.Err? {
        return authorized;
      }
      var record := authorized.value;
      var ok := VerifyPublication(slot, log);
      if !ok {
        return Err(InvalidLog);
      }
      ok := CheckTotalSizeLimit(auth, record.size, |log|);
      if !ok {
        return Err(SizeQuota);
      }
      return Ok(record.(updatedAt := now, versions := record.versions + 1,
                        didId := DidIdOf(host.lib, log), size := |log|));
    }

    method PlanPublish(auth: Auth, slot: string, log: string, now: nat) returns (r: Result<Batch, Error>)
      requires Valid()
      ensures r == Publish(host, View(), auth, slot, log, now)
    {
      var prepared := PrepareRepublish(auth, slot, log, now);
      if prepared.Err? {
        return Err(prepared.error);
      }
      var record := prepared.value;
      var domain := host.domainOf(slot);
      var claims := AgentNamesFromDocument(host.aliases(log), domain);
      var plan := ReconcileAgentNames(record.names, names, domain, slot, claims, now);
      if plan.Err? {
        return Err(plan.error);
      }
      return Ok(Batch(slot, Put(record.(names := plan.value.names)), Put(log), Keep, None, None,
                      plan.value.claimed, plan.value.released));
    }

    method PublishDid(auth: Auth, slot: string, log: string, now: nat) returns (error: Option<Error>)
      requires Valid()
      modifies this
      ensures Valid()
      ensures Do(host, old(View()), Call(auth, OpPublish(slot, log), now)) == Outcome(View(), error)
    {
      ghost var before := View();
      var b := PlanPublish(auth, slot, log, now);
      error := Conclude(b);
      PerformingIsDoing(host, before, Call(auth, OpPublish(slot, log), now), View(), error);
    }

    method PlanNameOp(auth: Auth, slot: string, given: string, log: string, verb: Verb, now: nat)
      returns (r: Result<Batch, Error>)
      requires Valid()
      ensures r == NameOp(host, View(), auth, slot, given, log, verb, now)
    {
      var refusal := ValidateBinding(given, slot);
      if refusal.Some? {
        return Err(refusal.value);
      }
      var name := Bare(given);
      var prepared := PrepareRepublish(auth, slot, log, now);
      if prepared.Err? {
        return Err(prepared.error);
      }
      var record := prepared.value;
      var domain := host.domainOf(slot);
      var claims := AgentNamesFromDocument(host.aliases(log), domain);
      if (name in claims) != verb.Activate? {
        return Err(AlsoKnownAsMismatch);
      }
      var change := UpdateRegistry(record.names, names, domain, slot, name, verb, now);
      if change.Err? {
        return Err(change.error);
      }
      return Ok(Batch(slot, Put(record.(names := change.value.names)), Put(log), Keep, None, None,
                      change.value.claimed, change.value.released));
    }

    method ApplyAgentNameOp(auth: Auth, slot: string, name: string, log: string, verb: Verb, now: nat)
      returns (error: Option<Error>)
      requires Valid()
      modifies this
      ensures Valid()
      ensures Do(host, old(View()), Call(auth, OpName(slot, name, log, verb), now)) == Outcome(View(), error)
    {
      ghost var before := View();
      var b := PlanNameOp(auth, slot, name, log, verb, now);
      error := Conclude(b);
      PerformingIsDoing(host, before, Call(auth, OpName(slot, name, log, verb), now), View(), error);
    }

    method UploadWitness(auth: Auth, slot: string, version: Files.VersionId, proof: Files.Proof, now: nat)
      returns (error: Option<Error>)
      requires Valid()
      modifies this
      ensures Valid()
      ensures Do(host, old(View()), Call(auth, OpUpload(slot, version, proof), now)) == Outcome(View(), error)
    {
      ghost var before := View();
      var r := PlanUpload(auth, slot, version, proof);
      error := Conclude(r);
      PerformingIsDoing(host, before, Call(auth, OpUpload(slot, version, proof), now), View(), error);
    }

    method PlanUpload(auth: Auth, slot: string, version: Files.VersionId, proof: Files.Proof)
      returns (r: Result<Batch, Error>)
      ensures r == SlotStore.UploadWitness(host, View(), auth, slot, version, proof)
    {
      var authorized := GetAuthorizedRecord(slot, auth);
      if authorized.Err? {
        return Err(authorized.error);
      }
      if slot !in logs {
        return Err(NoLog);
      }
      var ok := Gates.VerifyWitnessProof(host.lib, logs[slot], version, proof);
      if !ok {
        return Err(InvalidProof);
      }
      var merged := Files.MergeInPlace(Find(proofs, slot), version, proof);
      return Ok(Batch(slot, Keep, Keep, Put(merged), None, None, [], []));
    }

    method DeleteDid(auth: Auth, slot: string, now: nat) returns (error: Option<Error>)
      requires Valid()
      modifies this
      ensures Valid()
      ensures Do(host, old(View()), Call(auth, OpDelete(slot), now)) == Outcome(View(), error)
    {
      ghost var before := View();
      var authorized := GetAuthorizedRecord(slot, auth);
      if authorized.Ok? {
        CommitBatch(Batch(slot, Drop, Drop, Drop, Some(authorized.value.owner), None, [], []));
      }
      error := if authorized.Err? then Some(authorized.error) else None;
      PerformingIsDoing(host, before, Call(auth, OpDelete(slot), now), View(), error);
    }

    method ChangeDidOwner(auth: Auth, slot: string, newOwner: string, listed: bool, now: nat)
      returns (error: Option<Error>)
      requires Valid()
      modifies this
      ensures Valid()
      ensures Do(host, old(View()), Call(auth, OpChangeOwner(slot, newOwner, listed), now)) == Outcome(View(), error)
    {
      ghost var before := View();
      var authorized := GetAuthorizedRecord(slot, auth);
      error := if authorized.Err? then Some(authorized.error) else None;
      if authorized.Ok? {
        var record := authorized.value;
        if record.owner == newOwner {
          NoNamesNoChange(names, host.domainOf(slot), slot);
        } else if !listed {
          error := Some(NotInAcl);
        } else {
          CommitBatch(Batch(slot, Put(record.(owner := newOwner, updatedAt := now)), Keep, Keep,
                            Some(record.owner), Some(newOwner), [], []));
        }
      }
      PerformingIsDoing(host, before, Call(auth, OpChangeOwner(slot, newOwner, listed), now), View(), error);
    }

    method SetDidDisabled(auth: Auth, slot: string, disabled: bool, now: nat) returns (error: Option<Error>)
      requires Valid()
      modifies this
      ensures Valid()
      ensures Do(host, old(View()), Call(auth, OpDisable(slot, disabled), now)) == Outcome(View(), error)
    {
      ghost var before := View();
      var authorized := GetAuthorizedRecord(slot, auth);
      if authorized.Ok? {
        CommitBatch(Batch(slot, Put(authorized.value.(disabled := disabled)), Keep, Keep, None, None, [], []));
      }
      error := if authorized.Err? then Some(authorized.error) else None;
      PerformingIsDoing(host, before, Call(auth, OpDisable(slot, disabled), now), View(), error);
    }

    /** Also reports how many entries were discarded. */
    method RollbackDidTo(auth: Auth, slot: string, target: Option<nat>, now: nat)
      returns (error: Option<Error>, removed: nat)
      requires Valid()
      modifies this
      ensures Valid()
      ensures Do(host, old(View()), Call(auth, OpRollBack(slot, target), now)) == Outcome(View(), error)
      ensures removed == EntryCount(Find(old(logs), slot)) - EntryCount(Find(logs, slot))
    {
      ghost var before := View();
      var r;
      r, removed := PlanRollback(auth, slot, target, now);
      error := Conclude(r);
      RollingBackIsDoing(host, before, auth, slot, target, now, View(), error);
    }

    method PlanRollback(auth: Auth, slot: string, target: Option<nat>, now: nat)
      returns (r: Result<Batch, Error>, removed: nat)
      ensures r == RollBack(host, View(), auth, slot, target, now)
      ensures r.Err? ==> removed == 0
      ensures r.Ok? ==>
        removed == EntryCount(Find(logs, slot)) - EntryCount(Find(Commit(host, View(), r.value).logs, slot))
    {
      removed := 0;
      var authorized := GetAuthorizedRecord(slot, auth);
      if authorized.Err? {
        return Err(authorized.error), 0;
      }
      if slot !in logs {
        return Err(NoLog), 0;
      }
      var lines := RawLines(logs[slot]);
      var keep;
      match target {
        case None =>
          if |lines| < 2 {
            return Err(InvalidTarget), 0;
          }
          keep := |lines| - 1;
        case Some(t) =>
          if t < 1 || t > |lines| {
            return Err(InvalidTarget), 0;
          }
          keep := t;
      }
      if keep == |lines| {
        return Ok(Untouched(slot)), 0;
      }
      TruncationKeepsEntries(logs[slot], keep);
      var log := Join(lines[..keep]);
      var record := authorized.value.(versions := keep, didId := DidIdOf(host.lib, log), size := |log|,
                                      updatedAt := now);
      return Ok(Batch(slot, Put(record), Put(log), Drop, None, None, [], [])), |lines| - keep;
    }
  }

  /** Write the claimed names, then retire the released ones. */
  method Reindex(index: Index, domain: string, slot: string, claimed: seq<string>, released: seq<string>)
    returns (r: Index)
    ensures r == Reindexed(index, domain, slot, claimed, released)
  {
    r := index;
    NoNamesNoChange(index, domain, slot);
    for i := 0 to |claimed|
      invariant r == Reindexed(index, domain, slot, claimed[..i], [])
    {
      OneMoreClaimed(index, domain, slot, claimed, i);
      r := r[(domain, claimed[i]) := slot];
    }
    assert claimed[..|claimed|] == claimed;
    for i := 0 to |released|
      invariant r == Reindexed(index, domain, slot, claimed, released[..i])
    {
      OneMoreReleased(index, domain, slot, claimed, released, i);
      r := r - {(domain, released[i])};
    }
    assert released[..|released|] == released;
  }

  lemma OneMoreClaimed(index: Index, domain: string, slot: string, claimed: seq<string>, i: nat)
    requires i < |claimed|
    ensures Reindexed(index, domain, slot, claimed[..i + 1], [])
         == Reindexed(index, domain, slot, claimed[..i], [])[(domain, claimed[i]) := slot]
  {
    assert forall n :: n in claimed[..i + 1] <==> n in claimed[..i] || n == claimed[i];
  }

  lemma OneMoreReleased(index: Index, domain: string, slot: string, claimed: seq<string>, released: seq<string>, i: nat)
    requires i < |released|
    ensures Reindexed(index, domain, slot, claimed, released[..i + 1])
         == Reindexed(index, domain, slot, claimed, released[..i]) - {(domain, released[i])}
  {
    assert forall n :: n in released[..i + 1] <==> n in released[..i] || n == released[i];
  }
}
