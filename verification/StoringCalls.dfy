/** What a call that stores a log has checked, and the batch it decides on
    (did-hosting-control/src/did_ops.rs:463-762, 775-921, 1084-1162, 1278-1393). */
module StoringCalls {
  import opened Common
  import opened Paths
  import opened AgentNames
  import opened SlotStore

  /** The operations that put a log in place. */
  predicate StoresLog(op: Op) {
    op.OpRegister? || op.OpPublish? || op.OpName?
  }

  /** Of these, the ones that reconcile the registry with the document. */
  predicate Reconciles(op: Op) {
    op.OpPublish? || op.OpRegister?
  }

  /** The registry a call starts from. */
  function NamesAt(s: Store, slot: string): seq<NameEntry> {
    if slot in s.records then s.records[slot].names else []
  }

  function ClaimsOf(h: Host, c: Call): seq<string>
    requires StoresLog(c.op)
  {
    Claims(h.aliases(c.op.log), h.domainOf(c.op.slot))
  }

  /** The log is judged and charged, and recorded as submitted. */
  ghost predicate LogStored(h: Host, s: Store, c: Call, b: Batch)
    requires StoresLog(c.op)
  {
    var m, log, was := c.op.slot, c.op.log, Find(s.records, c.op.slot);
    && MnemonicOk(m) && GateAccepts(h, s, m, log)
    && !SizeRefuses(s, c.auth, if was.Some? then was.value.size else 0, |log|)
    && b.slot == m && b.log == Put(log) && b.record.Put?
    && b.record.value.size == |log| && b.record.value.updatedAt == c.now
    && b.record.value.didId == DidIdOf(h.lib, log)
  }

  /** A republished slot stays its owner's, and counts one version more. */
  predicate Continues(s: Store, c: Call, b: Batch)
    requires StoresLog(c.op)
  {
    var m := c.op.slot;
    && m in s.records && b.record.Put?
    && b.record.value.owner == s.records[m].owner && b.record.value.createdAt == s.records[m].createdAt
    && b.record.value.versions == s.records[m].versions + 1
    && b.proofs == Keep && b.dropOwner == None
  }

  /** A register makes the slot the caller's own, from the start if it was not. */
  ghost predicate Registered(h: Host, s: Store, c: Call, b: Batch)
    requires c.op.OpRegister? && b.record.Put?
  {
    var m, was, r := c.op.slot, Find(s.records, c.op.slot), b.record.value;
    && r.owner == c.auth.did && b.putOwner == Some(r.owner)
    && r.didId.Some? && h.slotOf(r.didId.value) == Some(m)
    && (was.None? ==> !CountRefuses(s, c.auth))
    && (was.Some? && was.value.owner != r.owner ==>
          c.auth.admin && b.proofs == Drop && b.dropOwner == Some(was.value.owner))
    && (was.None? ==> b.proofs == Keep && b.dropOwner == None)
    && if was.Some? && was.value.owner == r.owner then Continues(s, c, b) else r.createdAt == c.now && r.versions == 1
  }

  /** What happens to the names. */
  ghost predicate NamesStored(h: Host, s: Store, c: Call, b: Batch)
    requires StoresLog(c.op) && b.record.Put?
  {
    var m, domain := c.op.slot, h.domainOf(c.op.slot);
    if Reconciles(c.op) then
      Reconcile(NamesAt(s, m), s.names, domain, m, ClaimsOf(h, c), c.now)
      == Ok(Plan(b.record.value.names, b.claimed, b.released))
    else
      && ValidateBinding(c.op.name, m) == None && (Bare(c.op.name) in ClaimsOf(h, c)) == c.op.verb.Activate?
      && ApplyVerb(NamesAt(s, m), s.names, domain, m, Bare(c.op.name), c.op.verb, c.now)
         == Ok(NameChange(b.record.value.names, b.claimed, b.released))
  }

  ghost predicate Stored(h: Host, s: Store, c: Call, b: Batch)
    requires StoresLog(c.op)
  {
    && LogStored(h, s, c, b) && NamesStored(h, s, c, b)
    && if c.op.OpRegister? then Registered(h, s, c, b)
       else Continues(s, c, b) && b.putOwner == None && (c.auth.admin || s.records[c.op.slot].owner == c.auth.did)
  }

  lemma RegisterStores(h: Host, s: Store, c: Call)
    requires c.op.OpRegister?
    ensures
      var r := Register(h, s, c.auth, c.op.slot, c.op.log, c.op.force, c.now);
      r.Ok? ==> Stored(h, s, c, r.value)
  {
  }

  lemma PublishStores(h: Host, s: Store, c: Call)
    requires c.op.OpPublish?
    ensures
      var r := Publish(h, s, c.auth, c.op.slot, c.op.log, c.now);
      r.Ok? ==> Stored(h, s, c, r.value)
  {
  }

  lemma NameOpStores(h: Host, s: Store, c: Call)
    requires c.op.OpName?
    ensures
      var r := NameOp(h, s, c.auth, c.op.slot, c.op.name, c.op.log, c.op.verb, c.now);
      r.Ok? ==> Stored(h, s, c, r.value)
  {
  }

  /** A call that stores a log has judged and charged it, and does to record, witness file,
      owner keys and names what its kind does. */
  lemma CallStores(h: Host, s: Store, c: Call)
    requires StoresLog(c.op)
    ensures Decide(h, s, c).Ok? ==> Stored(h, s, c, Decide(h, s, c).value)
  {
    match c.op
    case OpRegister(_, _, _) => RegisterStores(h, s, c);
    case OpPublish(_, _) => PublishStores(h, s, c);
    case OpName(_, _, _, _) => NameOpStores(h, s, c);
  }
}
