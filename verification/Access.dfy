/** Who may do what to a slot, on the records and the caller, and exactly when a call goes
    through (did-hosting-control/src/did_ops.rs:154-179, 207-323, 340-433, 463-762, 775-921,
    1084-1162, 1278-1393, 1409-1519, 1818-2059). */
module Access {
  import opened Common
  import opened Paths
  import opened LogText
  import opened Rollback
  import opened AgentNames
  import opened NameRules
  import opened PathRules
  import opened SlotStore
  import opened SlotInvariant
  import opened SlotFrame
  import opened StoringCalls
  import opened NameOwnership
  import Gates = LogGates

  // ---------------------------------------------------------------------
  // Owners and administrators
  // ---------------------------------------------------------------------

  /** The slot is there, and the caller is its recorded owner or an administrator. */
  predicate MayWrite(s: Store, caller: Auth, m: string) {
    m in s.records && (caller.admin || caller.did == s.records[m].owner)
  }

  lemma WritersMayWrite(h: Host, s: Store, c: Call)
    requires !c.op.OpCreate? && !c.op.OpRegister? && Decide(h, s, c).Ok?
    ensures MayWrite(s, c.auth, c.op.slot)
  {
    if StoresLog(c.op) { CallStores(h, s, c); }
  }

  /** Whatever the operation: a call that succeeds on a slot that is there is its owner's or an
      administrator's; one that takes it from another owner is an administrator's, and
      forced. */
  lemma OnlyTheEntitled(h: Host, s: Store, c: Call, m: string)
    requires Target(s, c) == Some(m) && m in s.records && Do(h, s, c).error.None?
    ensures MayWrite(s, c.auth, m)
    ensures (c.op.OpRegister? || c.op.OpCreate?) && c.auth.did != s.records[m].owner ==> c.auth.admin && c.op.force
    ensures c.op.OpCreate? ==> c.op.force
  {
    if c.op.OpCreate? {
      if c.op.path.None? { FirstFreeIsFree(s, c.op.drawn); }
    } else if c.op.OpRegister? {
      assert RegisterCheck(h, s, c.auth, m, c.op.log, c.op.force) == None;
    } else {
      WritersMayWrite(h, s, c);
    }
  }

  /** The names held by the slot. */
  ghost predicate SameNamesHeld(s: Store, t: Store, m: string) {
    forall key :: key in s.names || key in t.names ==>
      (Holder(s.names, key) == Some(m) <==> Holder(t.names, key) == Some(m))
  }

  /** So nobody else changes, moves or removes it: its record, log and witness file, and the
      names it holds. */
  lemma OthersChangeNothing(h: Host, s: Store, c: Call, m: string)
    requires Inv(h, s) && Plausible(c) && m in s.records && !MayWrite(s, c.auth, m)
    ensures SameSlot(s, Do(h, s, c).store, m) && SameNamesHeld(s, Do(h, s, c).store, m)
  {
    var t := Do(h, s, c).store;
    if Do(h, s, c).error.Some? {
      RefusalChangesNothing(h, s, c);
    } else {
      if Target(s, c) == Some(m) { OnlyTheEntitled(h, s, c, m); }
      OffTargetStays(h, s, c, m);
      forall key | key in s.names || key in t.names
        ensures Holder(s.names, key) == Some(m) <==> Holder(t.names, key) == Some(m) {
        NameStep(h, s, c, key);
      }
    }
  }

  /** Nobody who calls is the slot's owner, or an administrator. */
  predicate ByStrangers(calls: seq<Call>, owner: string) {
    forall i :: 0 <= i < |calls| ==> !calls[i].auth.admin && calls[i].auth.did != owner
  }

  /** Whatever strangers call, however often: the slot stays as it was, and so do the names it
      holds. */
  lemma {:induction false} StrangersChangeNothing(h: Host, s: Store, calls: seq<Call>, m: string)
    requires Inv(h, s) && AllPlausible(calls) && m in s.records && ByStrangers(calls, s.records[m].owner)
    ensures SameSlot(s, Run(h, s, calls), m) && SameNamesHeld(s, Run(h, s, calls), m)
    decreases calls
  {
    if calls != [] {
      var t := Do(h, s, calls[0]).store;
      OthersChangeNothing(h, s, calls[0], m);
      StepKeepsInv(h, s, calls[0]);
      assert Find(t.records, m) == Find(s.records, m);
      StrangersChangeNothing(h, t, calls[1..], m);
      HeldTwice(s, t, Run(h, t, calls[1..]), m);
    }
  }

  lemma HeldTwice(s: Store, t: Store, u: Store, m: string)
    requires SameNamesHeld(s, t, m) && SameNamesHeld(t, u, m)
    ensures SameNamesHeld(s, u, m)
  {
    forall key | key in s.names || key in u.names
      ensures Holder(s.names, key) == Some(m) <==> Holder(u.names, key) == Some(m) {
      assert Holder(s.names, key) == Some(m) <==> Holder(t.names, key) == Some(m);
      assert Holder(t.names, key) == Some(m) <==> Holder(u.names, key) == Some(m);
    }
  }

  // ---------------------------------------------------------------------
  // Refusals for want of a slot, or of a right to it
  // ---------------------------------------------------------------------

  /** The calls on a slot that must be there, the name verbs apart, which look at the name
      first. */
  predicate OnASlot(op: Op) {
    op.OpPublish? || op.OpUpload? || op.OpChangeOwner? || op.OpDisable? || op.OpRollBack? || op.OpDelete?
  }

  ghost predicate HasPath(m: string) {
    m == ".well-known" || IsPath(m)
  }

  lemma AuthorizedMeans(h: Host, s: Store, caller: Auth, m: string)
    requires Inv(h, s)
    ensures
      var r := Authorized(s, m, caller);
      && (r.Ok? <==> MayWrite(s, caller, m))
      && (r.Ok? ==> m in s.records && r.value == s.records[m])
      && (r == Err(Forbidden) <==> m in s.records && !MayWrite(s, caller, m))
      && (r == Err(NotFound) <==> m !in s.records && HasPath(m))
      && (r == Err(InvalidPath) <==> !HasPath(m))
      && (m in s.records ==> HasPath(m))
  {
    PathMeans(m);
    assert SlotOk(s, m);
  }

  /** The right to the slot is what such a call asks for first. */
  lemma AsksRightFirst(h: Host, s: Store, c: Call)
    requires OnASlot(c.op) && !c.op.OpPublish?
    ensures
      var r, e := Authorized(s, c.op.slot, c.auth), Do(h, s, c).error;
      if r.Err? then e == Some(r.error) else e !in {Some(Forbidden), Some(NotFound), Some(InvalidPath)}
  {
  }

  lemma PublishAsksRightFirst(h: Host, s: Store, c: Call)
    requires c.op.OpPublish?
    ensures
      var r, e := Authorized(s, c.op.slot, c.auth), Do(h, s, c).error;
      if r.Err? then e == Some(r.error) else e !in {Some(Forbidden), Some(NotFound), Some(InvalidPath)}
  {
    ObjectionsAreNames(h, s, c);
  }

  /** A call on a slot is refused as forbidden exactly when the slot is there and the caller is
      neither its owner nor an administrator, as not found exactly when it is not there, and as
      no path exactly when it cannot be. */
  lemma RefusedFirst(h: Host, s: Store, c: Call)
    requires OnASlot(c.op) && Inv(h, s)
    ensures
      var m, e := c.op.slot, Do(h, s, c).error;
      && (e == Some(Forbidden) <==> m in s.records && !MayWrite(s, c.auth, m))
      && (e == Some(NotFound) <==> m !in s.records && HasPath(m))
      && (e == Some(InvalidPath) <==> !HasPath(m))
      && (m in s.records ==> HasPath(m))
  {
    AuthorizedMeans(h, s, c.auth, c.op.slot);
    if c.op.OpPublish? { PublishAsksRightFirst(h, s, c); } else { AsksRightFirst(h, s, c); }
  }

  // ---------------------------------------------------------------------
  // Operation by operation
  // ---------------------------------------------------------------------

  /** A delete goes through exactly for the owner or an administrator. Nothing of the slot is
      left but the names it held. */
  lemma DeleteMeans(h: Host, s: Store, c: Call)
    requires Inv(h, s) && c.op.OpDelete?
    ensures
      var m, o := c.op.slot, Do(h, s, c);
      && (o.error.None? <==> MayWrite(s, c.auth, m))
      && (o.error.None? ==>
            && m !in o.store.records && m !in o.store.logs && m !in o.store.proofs && o.store.names == s.names
            && forall did :: OwnerKey(did, m) !in o.store.owners)
  {
    var m, t := c.op.slot, Do(h, s, c).store;
    AuthorizedMeans(h, s, c.auth, c.op.slot);
    NoNamesNoChange(s.names, h.domainOf(m), m);
    if Do(h, s, c).error.None? {
      StepKeepsInv(h, s, c);
      forall did ensures OwnerKey(did, m) !in t.owners {
        if OwnerKey(did, m) in t.owners { NoKeyWithoutRecord(h, t, did, m); }
      }
    }
  }

  lemma NoKeyWithoutRecord(h: Host, t: Store, did: string, m: string)
    requires Inv(h, t) && OwnerKey(did, m) in t.owners && HasPath(m)
    ensures m in t.records
  {
    var n := t.owners[OwnerKey(did, m)];
    assert OwnerRowOk(t, OwnerKey(did, m)) && SlotOk(t, n);
    PathMeans(m);
    ColonFree(m);
    ColonFree(n);
    OwnerKeyIsInjective(did, m, t.records[n].owner, n);
  }

  /** Disabling and enabling go through exactly for the owner or an administrator, and set the
      flag of the record and nothing else. */
  lemma DisableMeans(h: Host, s: Store, c: Call)
    requires Inv(h, s) && c.op.OpDisable?
    ensures
      var m, o := c.op.slot, Do(h, s, c);
      && (o.error.None? <==> MayWrite(s, c.auth, m))
      && (o.error.None? ==> o.store == s.(records := s.records[m := s.records[m].(disabled := c.op.disabled)]))
  {
    AuthorizedMeans(h, s, c.auth, c.op.slot);
    NoNamesNoChange(s.names, h.domainOf(c.op.slot), c.op.slot);
  }

  /** A transfer goes through exactly for the owner or an administrator, to the owner it has or to
      one in the ACL; then the record names the new owner, with all else as it was. */
  lemma ChangeOwnerMeans(h: Host, s: Store, c: Call)
    requires Inv(h, s) && c.op.OpChangeOwner?
    ensures
      var m, e, t := c.op.slot, Do(h, s, c).error, Do(h, s, c).store;
      && (e.None? <==> MayWrite(s, c.auth, m) && (c.op.newOwner == s.records[m].owner || c.op.listed))
      && (e == Some(NotInAcl) <==> MayWrite(s, c.auth, m) && c.op.newOwner != s.records[m].owner && !c.op.listed)
      && (e.None? && c.op.newOwner == s.records[m].owner ==> t == s)
      && (e.None? && c.op.newOwner != s.records[m].owner ==>
            && t.records == s.records[m := s.records[m].(owner := c.op.newOwner, updatedAt := c.now)]
            && t.logs == s.logs && t.proofs == s.proofs && t.names == s.names)
  {
    AuthorizedMeans(h, s, c.auth, c.op.slot);
    NoNamesNoChange(s.names, h.domainOf(c.op.slot), c.op.slot);
  }

  /** How many entries are to be kept, if that many are there. */
  predicate CanKeep(target: Option<nat>, entries: nat) {
    if target.Some? then 1 <= target.value <= entries else entries >= 2
  }

  /** A rollback goes through exactly for the owner or an administrator, where a log is stored
      that has the entries to be kept. */
  lemma RollbackMeans(h: Host, s: Store, c: Call)
    requires Inv(h, s) && c.op.OpRollBack?
    ensures
      var m, e := c.op.slot, Do(h, s, c).error;
      var entries := EntryCount(Find(s.logs, m));
      && (e.None? <==> MayWrite(s, c.auth, m) && m in s.logs && CanKeep(c.op.target, entries))
      && (e == Some(NoLog) <==> MayWrite(s, c.auth, m) && m !in s.logs)
      && (e == Some(InvalidTarget) <==> MayWrite(s, c.auth, m) && m in s.logs && !CanKeep(c.op.target, entries))
  {
    AuthorizedMeans(h, s, c.auth, c.op.slot);
    if c.op.slot in s.logs { SameCount(s.logs[c.op.slot]); }
  }

  lemma SameCount(log: string)
    ensures |RawLines(log)| == |EntryLines(log)|
  {
    TrimmedIgnoresReturns(Split(log));
    TrimmedOfNonBlank(WithoutReturns(Split(log)));
  }

  /** An upload goes through exactly for the owner or an administrator, where a log is stored
      that the proof vouches for. */
  lemma UploadMeans(h: Host, s: Store, c: Call)
    requires Inv(h, s) && c.op.OpUpload?
    ensures
      var m, e := c.op.slot, Do(h, s, c).error;
      var vouched := m in s.logs && Gates.ProofAccepted(h.lib, EntryLines(s.logs[m]), c.op.version, c.op.proof);
      && (e.None? <==> MayWrite(s, c.auth, m) && vouched)
      && (e == Some(NoLog) <==> MayWrite(s, c.auth, m) && m !in s.logs)
      && (e == Some(InvalidProof) <==> MayWrite(s, c.auth, m) && m in s.logs && !vouched)
  {
    AuthorizedMeans(h, s, c.auth, c.op.slot);
  }

  // ---------------------------------------------------------------------
  // The calls that are charged
  // ---------------------------------------------------------------------

  /** The caller's cap on slots leaves no room for one more; an administrator has none. */
  predicate NoRoom(s: Store, caller: Auth) {
    && !caller.admin && caller.maxCount.Some?
    && |set m | m in s.records && s.records[m].owner == caller.did| + 1 > caller.maxCount.value
  }

  /** A log of this length would take the caller past its cap on bytes. */
  ghost predicate TooMuch(s: Store, caller: Auth, m: string, length: nat) {
    var old_ := if m in s.records then s.records[m].size else 0;
    var used := Total(s.records, caller.did);
    && !caller.admin && caller.maxSize.Some?
    && (if used > old_ then used - old_ else 0) + length > caller.maxSize.value
  }

  lemma QuotasMean(s: Store, caller: Auth, m: string, length: nat)
    ensures CountRefuses(s, caller) <==> NoRoom(s, caller)
    ensures SizeRefuses(s, caller, if m in s.records then s.records[m].size else 0, length)
       <==> TooMuch(s, caller, m, length)
  {
    assert OwnedBy(s.records, caller.did) == set x | x in s.records && s.records[x].owner == caller.did;
  }

  /** A log that may be stored here as far as gate and quota on bytes go. */
  ghost predicate Storable(h: Host, s: Store, c: Call)
    requires StoresLog(c.op)
  {
    GateAccepts(h, s, c.op.slot, c.op.log) && !TooMuch(s, c.auth, c.op.slot, |c.op.log|)
  }

  lemma RepublishMeans(h: Host, s: Store, c: Call)
    requires Inv(h, s) && (c.op.OpPublish? || c.op.OpName?)
    ensures
      var m, r := c.op.slot, Republish(h, s, c.auth, c.op.slot, c.op.log, c.now);
      && (r.Ok? <==> MayWrite(s, c.auth, m) && Storable(h, s, c))
      && (r.Ok? ==> m in s.records && r.value.names == s.records[m].names)
      && (r == Err(InvalidLog) <==> MayWrite(s, c.auth, m) && !GateAccepts(h, s, m, c.op.log))
      && (r == Err(SizeQuota) <==> MayWrite(s, c.auth, m) && GateAccepts(h, s, m, c.op.log) && !Storable(h, s, c))
  {
    assert SlotOk(s, c.op.slot);
    QuotasMean(s, c.auth, c.op.slot, |c.op.log|);
  }

  /** A publish goes through exactly for the owner or an administrator, with a log the gate
      accepts and the quota has room for, whose names stand in nobody's way. */
  lemma PublishMeans(h: Host, s: Store, c: Call)
    requires Inv(h, s) && c.op.OpPublish?
    ensures
      var m, e := c.op.slot, Do(h, s, c).error;
      && (e.None? <==>
            && MayWrite(s, c.auth, m) && Storable(h, s, c)
            && forall n :: AsksFor(h, c, n) ==> !Blocks(h, s, m, n))
      && (e == Some(InvalidLog) <==> MayWrite(s, c.auth, m) && !GateAccepts(h, s, m, c.op.log))
      && (e == Some(SizeQuota) <==> MayWrite(s, c.auth, m) && GateAccepts(h, s, m, c.op.log) && !Storable(h, s, c))
  {
    RepublishMeans(h, s, c);
    ReconcilesIff(h, s, c);
    ObjectionsAreNames(h, s, c);
  }

  /** Reconciliation refuses for a name and nothing else. */
  lemma ObjectionsAreNames(h: Host, s: Store, c: Call)
    requires Reconciles(c.op)
    ensures
      var m := c.op.slot;
      Reconcile(NamesAt(s, m), s.names, h.domainOf(m), m, ClaimsOf(h, c), c.now).Err? ==>
        Reconcile(NamesAt(s, m), s.names, h.domainOf(m), m, ClaimsOf(h, c), c.now).error in {NameReserved, NameTaken}
  {
    ObjectionIsName(s.names, h.domainOf(c.op.slot), c.op.slot, ClaimsOf(h, c));
  }

  lemma {:induction false} ObjectionIsName(index: Index, domain: string, m: string, claims: seq<string>)
    ensures FirstObjection(index, domain, m, claims) in {None, Some(NameReserved), Some(NameTaken)}
  {
    if claims != [] { ObjectionIsName(index, domain, m, claims[1..]); }
  }

  /** What a verb asks of the registry and the index. */
  predicate VerbFits(h: Host, s: Store, c: Call)
    requires c.op.OpName?
  {
    var m, n := c.op.slot, Word(c.op.name);
    if c.op.verb.Activate? then !HeldByOther(s.names, h.domainOf(m), n, m)
    else exists e :: e in NamesAt(s, m) && e.name == n
  }

  lemma VerbAppliesIff(h: Host, s: Store, c: Call)
    requires c.op.OpName?
    ensures
      var m := c.op.slot;
      ApplyVerb(NamesAt(s, m), s.names, h.domainOf(m), m, Word(c.op.name), c.op.verb, c.now).Ok? <==> VerbFits(h, s, c)
  {
  }

  /** A name verb goes through exactly for the owner or an administrator, for a name the slot may
      hold, with a log as a publish would need, a document that lists the name just when it is
      to be activated, and a name that is free to activate, or there to park or remove. */
  lemma NameOpMeans(h: Host, s: Store, c: Call)
    requires Inv(h, s) && c.op.OpName?
    ensures
      var m, n := c.op.slot, Word(c.op.name);
      Do(h, s, c).error.None? <==>
        && MayHold(m, c.op.name) && MayWrite(s, c.auth, m) && Storable(h, s, c)
        && (Alias(h.domainOf(m), n) in h.aliases(c.op.log) <==> c.op.verb.Activate?)
        && VerbFits(h, s, c)
  {
    BindingMeans(c.op.slot, c.op.name);
    RepublishMeans(h, s, c);
    ClaimsAreListed(h.aliases(c.op.log), h.domainOf(c.op.slot), Word(c.op.name));
    VerbAppliesIff(h, s, c);
  }

  /** The answers of a name verb, each exactly when nothing before it applies: the name, the slot and
      the right to it, the log, the quota, the document, the registry. */
  lemma NameOpRefused(h: Host, s: Store, c: Call)
    requires Inv(h, s) && c.op.OpName?
    ensures
      var m, n, e := c.op.slot, Word(c.op.name), Do(h, s, c).error;
      var named := MayHold(m, c.op.name);
      var republished := named && MayWrite(s, c.auth, m) && Storable(h, s, c);
      var agreed := Alias(h.domainOf(m), n) in h.aliases(c.op.log) <==> c.op.verb.Activate?;
      && (e == Some(NameReserved) <==> MayNotAsk(m, c.op.name))
      && (e == Some(NameMalformed) <==> !named && !MayNotAsk(m, c.op.name))
      && (e == Some(InvalidPath) <==> named && !HasPath(m))
      && (e == Some(NotFound) <==> named && HasPath(m) && m !in s.records)
      && (e == Some(Forbidden) <==> named && m in s.records && !MayWrite(s, c.auth, m))
      && (e == Some(InvalidLog) <==> named && MayWrite(s, c.auth, m) && !GateAccepts(h, s, m, c.op.log))
      && (e == Some(SizeQuota) <==>
            named && MayWrite(s, c.auth, m) && GateAccepts(h, s, m, c.op.log) && !Storable(h, s, c))
      && (e == Some(AlsoKnownAsMismatch) <==> republished && !agreed)
      && (e == Some(NameTaken) <==> republished && agreed && c.op.verb.Activate? && !VerbFits(h, s, c))
      && (e == Some(NameNotFound) <==> republished && agreed && !c.op.verb.Activate? && !VerbFits(h, s, c))
  {
    BindingMeans(c.op.slot, c.op.name);
    AuthorizedMeans(h, s, c.auth, c.op.slot);
    RepublishMeans(h, s, c);
    ClaimsAreListed(h.aliases(c.op.log), h.domainOf(c.op.slot), Word(c.op.name));
    VerbAppliesIff(h, s, c);
    NameOpAnswers(h, s, c);
  }

  /** The answers in terms of the parts. */
  lemma NameOpAnswers(h: Host, s: Store, c: Call)
    requires c.op.OpName?
    ensures
      var m, n, e := c.op.slot, Bare(c.op.name), Do(h, s, c).error;
      var name := ValidateBinding(c.op.name, m);
      var r := Republish(h, s, c.auth, m, c.op.log, c.now);
      var agreed := (n in ClaimsOf(h, c)) == c.op.verb.Activate?;
      var v := ApplyVerb(NamesAt(s, m), s.names, h.domainOf(m), m, n, c.op.verb, c.now);
      && (r.Ok? ==> r.value.names == NamesAt(s, m))
      && (r.Err? ==> r.error in {InvalidPath, NotFound, Forbidden, InvalidLog, SizeQuota})
      && (r.Err? && Authorized(s, m, c.auth).Err? ==> r == Err(Authorized(s, m, c.auth).error))
      && (r.Err? && Authorized(s, m, c.auth).Ok? ==> r.error in {InvalidLog, SizeQuota})
      && (v.Err? ==> v.error == if c.op.verb.Activate? then NameTaken else NameNotFound)
      && e == (if name.Some? then name else if r.Err? then Some(r.error) else if !agreed then Some(AlsoKnownAsMismatch)
               else if v.Err? then Some(v.error) else None)
  {
  }

  /** The slot is free, the caller's own, or there for an administrator to take by force. */
  predicate MayRegister(s: Store, caller: Auth, m: string, force: bool) {
    m !in s.records || caller.did == s.records[m].owner || (caller.admin && force)
  }

  /** A register goes through exactly on a path, the domain's own only for an administrator, that
      is free, the caller's own or taken by force, with a log of that path's DID, as the gate
      and the quotas allow, whose names stand in nobody's way. */
  lemma RegisterMeans(h: Host, s: Store, c: Call)
    requires c.op.OpRegister?
    ensures
      var m, did := c.op.slot, DidIdOf(h.lib, c.op.log);
      Do(h, s, c).error.None? <==>
        && HasPath(m) && (m == ".well-known" ==> c.auth.admin)
        && MayRegister(s, c.auth, m, c.op.force) && (m !in s.records ==> !NoRoom(s, c.auth)) && Storable(h, s, c)
        && did.Some? && h.slotOf(did.value) == Some(m)
        && forall n :: AsksFor(h, c, n) ==> !Blocks(h, s, m, n)
  {
    PathMeans(c.op.slot);
    QuotasMean(s, c.auth, c.op.slot, |c.op.log|);
    RegisterCheckMeans(h, s, c);
    ReconcilesIff(h, s, c);
  }

  lemma RegisterCheckMeans(h: Host, s: Store, c: Call)
    requires c.op.OpRegister?
    ensures
      var m, did := c.op.slot, DidIdOf(h.lib, c.op.log);
      RegisterCheck(h, s, c.auth, m, c.op.log, c.op.force) == None <==>
        && HasPath(m) && (m == ".well-known" ==> c.auth.admin)
        && MayRegister(s, c.auth, m, c.op.force) && (m !in s.records ==> !NoRoom(s, c.auth)) && Storable(h, s, c)
        && did.Some? && h.slotOf(did.value) == Some(m)
  {
    PathMeans(c.op.slot);
    QuotasMean(s, c.auth, c.op.slot, |c.op.log|);
  }

  /** The answer to a register, each exactly when nothing before it applies: the root, the path, the
      log, its DID's own slot, whose slot it is, room for a slot, room for the bytes. */
  ghost predicate AnswersRegister(h: Host, s: Store, c: Call, e: Option<Error>)
    requires c.op.OpRegister?
  {
    var m, did := c.op.slot, DidIdOf(h.lib, c.op.log);
    var placed := (m == ".well-known" ==> c.auth.admin) && HasPath(m);
    var judged := placed && GateAccepts(h, s, m, c.op.log) && did.Some?;
    var own := judged && h.slotOf(did.value) == Some(m);
    var owned := own && MayRegister(s, c.auth, m, c.op.force);
    var counted := owned && (m !in s.records ==> !NoRoom(s, c.auth));
    && (e == Some(InvalidPath) <==> !HasPath(m))
    && (e == Some(InvalidLog) <==> placed && !judged)
    && (e == Some(WrongSlot) <==> judged && !own)
    && (e == Some(Forbidden) <==> (m == ".well-known" && !c.auth.admin) || (own && !owned))
    && (e == Some(CountQuota) <==> owned && !counted)
    && (e == Some(SizeQuota) <==> counted && TooMuch(s, c.auth, m, |c.op.log|))
  }

  lemma RegisterCheckRefused(h: Host, s: Store, c: Call)
    requires c.op.OpRegister?
    ensures
      var e := RegisterCheck(h, s, c.auth, c.op.slot, c.op.log, c.op.force);
      AnswersRegister(h, s, c, e) && e !in {Some(NameReserved), Some(NameTaken)}
  {
    PathMeans(c.op.slot);
    QuotasMean(s, c.auth, c.op.slot, |c.op.log|);
  }

  lemma RegisterRefused(h: Host, s: Store, c: Call)
    requires c.op.OpRegister?
    ensures AnswersRegister(h, s, c, Do(h, s, c).error)
  {
    RegisterCheckRefused(h, s, c);
    ObjectionsAreNames(h, s, c);
    RegisterAnswers(h, s, c);
  }

  lemma RegisterAnswers(h: Host, s: Store, c: Call)
    requires c.op.OpRegister?
    ensures
      var m := c.op.slot;
      var refusal := RegisterCheck(h, s, c.auth, m, c.op.log, c.op.force);
      var r := Reconcile(NamesAt(s, m), s.names, h.domainOf(m), m, ClaimsOf(h, c), c.now);
      Do(h, s, c).error == if refusal.Some? then refusal else if r.Err? then Some(r.error) else None
  {
  }

  // ---------------------------------------------------------------------
  // Creating
  // ---------------------------------------------------------------------

  /** The path to use: the one asked for, or the first free one drawn. */
  ghost predicate PathFor(s: Store, c: Call, m: string)
    requires c.op.OpCreate?
  {
    if c.op.path.Some? then m == c.op.path.value
    else exists i :: FirstDrawn(s, c.op.drawn, i) && c.op.drawn[i] == m
  }

  predicate FirstDrawn(s: Store, drawn: seq<string>, i: int) {
    0 <= i < |drawn| && drawn[i] !in s.records && forall j :: 0 <= j < i ==> drawn[j] in s.records
  }

  lemma {:induction false} FirstFreeMeans(s: Store, drawn: seq<string>, m: string)
    ensures FirstFree(s, drawn) == Some(m) <==> exists i :: FirstDrawn(s, drawn, i) && drawn[i] == m
  {
    if drawn != [] {
      FirstFreeMeans(s, drawn[1..], m);
      if drawn[0] !in s.records {
        assert FirstDrawn(s, drawn, 0);
      } else {
        forall i ensures FirstDrawn(s, drawn, i + 1) <==> FirstDrawn(s, drawn[1..], i) {
          assert 0 <= i < |drawn| - 1 ==> drawn[1..][i] == drawn[i + 1];
        }
        if i :| FirstDrawn(s, drawn[1..], i) && drawn[1..][i] == m { assert FirstDrawn(s, drawn, i + 1); }
        if i :| FirstDrawn(s, drawn, i) && drawn[i] == m { assert FirstDrawn(s, drawn[1..], i - 1); }
      }
    }
  }

  /** The path is free, or the caller may replace what is there. */
  predicate MayCreate(s: Store, caller: Auth, m: string, force: bool) {
    && (m == ".well-known" ==> caller.admin)
    && (m in s.records ==> force && (caller.admin || caller.did == s.records[m].owner))
    && ((m in s.records && caller.did == s.records[m].owner) || !NoRoom(s, caller))
  }

  lemma ResolvesIff(h: Host, s: Store, c: Call, m: string)
    requires c.op.OpCreate? && Plausible(c)
    ensures ResolvePath(s, c.auth, c.op.path, c.op.drawn, c.op.force) == Ok(m) <==>
      && PathFor(s, c, m) && HasPath(m) && (m == ".well-known" ==> c.auth.admin)
      && (m in s.records ==> c.op.force && (c.auth.admin || c.auth.did == s.records[m].owner))
  {
    PathMeans(m);
    FirstFreeMeans(s, c.op.drawn, m);
    if c.op.path.None? {
      assert !PathOk(ROOT) by { RootIsNoPath(); }
    }
  }

  lemma RootIsNoPath()
    ensures !PathOk(".well-known")
  {
    if PathOk(".well-known") {
      CharsAreInSegments(".well-known", '.');
    }
  }

  lemma CreateGoesThroughIff(h: Host, s: Store, c: Call, m: string)
    requires c.op.OpCreate?
    ensures Do(h, s, c).error.None? && Target(s, c) == Some(m) <==>
      && ResolvePath(s, c.auth, c.op.path, c.op.drawn, c.op.force) == Ok(m)
      && ((m in s.records && c.auth.did == s.records[m].owner) || !CountRefuses(s, c.auth))
  {
  }

  lemma CreatedIs(h: Host, s: Store, c: Call, m: string)
    requires c.op.OpCreate? && Do(h, s, c).error.None? && Target(s, c) == Some(m)
    ensures
      var t := Do(h, s, c).store;
      && t.records == s.records[m := Record(c.auth.did, c.now, c.now, 0, None, 0, false, None, [])]
      && (m in s.records ==> m !in t.logs && m !in t.proofs)
      && (m !in s.records ==> t.logs == s.logs && t.proofs == s.proofs)
      && t.names == s.names && Find(t.owners, OwnerKey(c.auth.did, m)) == Some(m)
  {
    CreateIsAllOrNothing(h, s, c.auth, c.op.path, c.op.drawn, c.op.force, c.now);
    NoNamesNoChange(s.names, h.domainOf(m), m);
  }

  /** A create goes through on a path exactly when that is the path asked for, or the first free
      one drawn, and the caller may have it: the domain's own only an administrator, an occupied
      one its owner or an administrator and by force, and one more slot only with room for it.
      The slot is then the caller's, empty, and on its books. */
  lemma CreateMeans(h: Host, s: Store, c: Call, m: string)
    requires Inv(h, s) && Plausible(c) && c.op.OpCreate?
    ensures
      var o := Do(h, s, c);
      && (o.error.None? && Target(s, c) == Some(m) <==>
            PathFor(s, c, m) && HasPath(m) && MayCreate(s, c.auth, m, c.op.force))
      && (o.error.None? && Target(s, c) == Some(m) ==>
            && Find(o.store.records, m) == Some(Record(c.auth.did, c.now, c.now, 0, None, 0, false, None, []))
            && m !in o.store.logs && m !in o.store.proofs && o.store.names == s.names
            && Find(o.store.owners, OwnerKey(c.auth.did, m)) == Some(m))
  {
    ResolvesIff(h, s, c, m);
    CreateGoesThroughIff(h, s, c, m);
    if Do(h, s, c).error.None? && Target(s, c) == Some(m) { CreatedIs(h, s, c, m); }
    QuotasMean(s, c.auth, m, 0);
    assert SlotOk(s, m);
  }

  /** A publish or name verb leaves the slot disabled or enabled as it was; a register leaves it
      enabled. */
  lemma StoringLeavesFlags(h: Host, s: Store, c: Call)
    requires StoresLog(c.op) && Do(h, s, c).error.None?
    ensures
      var m, t := c.op.slot, Do(h, s, c).store;
      && m in t.records && t.records[m].size == |c.op.log| && t.records[m].updatedAt == c.now
      && if c.op.OpRegister? then !t.records[m].disabled && t.records[m].deletedAt == None
         else m in s.records && t.records[m].disabled == s.records[m].disabled
              && t.records[m].deletedAt == s.records[m].deletedAt
  {
    CallStores(h, s, c);
  }

  /** The answers of a create. */
  lemma CreateRefused(h: Host, s: Store, c: Call)
    requires Plausible(c) && c.op.OpCreate?
    ensures
      var e, m := Do(h, s, c).error, if c.op.path.Some? then c.op.path.value else "";
      var placed := c.op.path.Some? && (m == ".well-known" ==> c.auth.admin) && HasPath(m);
      && (e == Some(NoFreePath) <==>
            c.op.path.None? && forall i :: 0 <= i < |c.op.drawn| ==> c.op.drawn[i] in s.records)
      && (e == Some(InvalidPath) <==> c.op.path.Some? && !HasPath(m))
      && (e == Some(Conflict) <==> placed && m in s.records && !c.op.force)
      && (e == Some(Forbidden) <==>
            || (c.op.path.Some? && m == ".well-known" && !c.auth.admin)
            || (placed && m in s.records && c.op.force && !MayWrite(s, c.auth, m)))
      && (e.Some? ==> e.value in {NoFreePath, InvalidPath, Conflict, Forbidden, CountQuota})
  {
    if c.op.path.Some? { PathMeans(c.op.path.value); }
    NoneFreeIff(s, c.op.drawn);
  }

  lemma {:induction false} NoneFreeIff(s: Store, drawn: seq<string>)
    ensures FirstFree(s, drawn) == None <==> forall i :: 0 <= i < |drawn| ==> drawn[i] in s.records
  {
    if drawn != [] { NoneFreeIff(s, drawn[1..]); }
  }
}
