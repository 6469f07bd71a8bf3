/** What every slot operation keeps, over every run: the indexes agree with the records
    (did-hosting-control/src/did_ops.rs). */
module SlotInvariant {
  import opened Common
  import opened Paths
  import opened AgentNames
  import opened SlotStore

  // ---------------------------------------------------------------------
  // The invariant
  // ---------------------------------------------------------------------

  /** The recorded size is the stored log's; witness files never outlive their log;
      without a record nothing is stored. */
  ghost predicate SlotOk(s: Store, m: string) {
    && (m in s.records ==>
          && MnemonicOk(m) && s.records[m].size == SizeOf(Find(s.logs, m)) && Unique(s.records[m].names)
          && Find(s.owners, OwnerKey(s.records[m].owner, m)) == Some(m))
    && (m !in s.records ==> m !in s.logs)
    && (m in s.proofs ==> m in s.logs)
  }

  /** An owner row belongs to a record with that owner. */
  ghost predicate OwnerRowOk(s: Store, key: string) {
    key in s.owners ==> s.owners[key] in s.records && key == OwnerKey(s.records[s.owners[key]].owner, s.owners[key])
  }

  /** A registered name, served or parked, is indexed to its slot. */
  ghost predicate NameOk(h: Host, s: Store, m: string, e: NameEntry) {
    m in s.records && e in s.records[m].names ==> Held(s.names, h.domainOf(m), e.name, m)
  }

  /** A slot's names are indexed on its own domain. */
  ghost predicate NameRowOk(h: Host, s: Store, key: (string, string)) {
    key in s.names ==> key.0 == h.domainOf(s.names[key])
  }

  ghost predicate Inv(h: Host, s: Store) {
    && (forall m :: SlotOk(s, m))
    && (forall key :: OwnerRowOk(s, key))
    && (forall m, e :: NameOk(h, s, m, e))
    && (forall key :: NameRowOk(h, s, key))
  }

  // ---------------------------------------------------------------------
  // Which batches keep it
  // ---------------------------------------------------------------------

  ghost predicate ShapeFits(h: Host, s: Store, b: Batch) {
    var m, t := b.slot, Commit(h, s, b);
    && (m in t.records ==> MnemonicOk(m) && t.records[m].size == SizeOf(Find(t.logs, m)) && Unique(t.records[m].names))
    && (m !in t.records ==> m !in t.logs)
    && (m in t.proofs ==> m in t.logs)
  }

  /** Owner keys move with the record's owner. */
  ghost predicate OwnersFit(h: Host, s: Store, b: Batch) {
    var was, now := Find(s.records, b.slot), Find(Commit(h, s, b).records, b.slot);
    && (b.dropOwner.Some? ==> was.Some? && b.dropOwner.value == was.value.owner)
    && (b.putOwner.Some? ==> now.Some? && b.putOwner.value == now.value.owner)
    && (was.Some? && (now.None? || now.value.owner != was.value.owner) ==> b.dropOwner.Some?)
    && (now.Some? && (was.None? || was.value.owner != now.value.owner || b.dropOwner.Some?) ==> b.putOwner.Some?)
  }

  /** Only own names are released, and what the record lists is claimed or stays
      indexed. */
  ghost predicate NamesKept(h: Host, s: Store, b: Batch) {
    var m, domain := b.slot, h.domainOf(b.slot);
    && (forall n :: n in b.released ==> Held(s.names, domain, n, m))
    && (forall e :: Lists(h, s, b, e) ==>
        e.name !in b.released && (e.name in b.claimed || Held(s.names, domain, e.name, m)))
  }

  /** Only free or own names are claimed. */
  predicate ClaimsFree(h: Host, s: Store, b: Batch) {
    forall n :: n in b.claimed ==> !HeldByOther(s.names, h.domainOf(b.slot), n, b.slot)
  }

  ghost predicate NamesFit(h: Host, s: Store, b: Batch) {
    NamesKept(h, s, b) && ClaimsFree(h, s, b)
  }

  /** The record, after the commit, lists the entry. */
  ghost predicate Lists(h: Host, s: Store, b: Batch, e: NameEntry) {
    var t := Commit(h, s, b);
    b.slot in t.records && e in t.records[b.slot].names
  }

  /** Fits, but for the names it claims. */
  ghost predicate FitsBesidesClaims(h: Host, s: Store, b: Batch) {
    ShapeFits(h, s, b) && OwnersFit(h, s, b) && NamesKept(h, s, b)
  }

  ghost predicate Fits(h: Host, s: Store, b: Batch) {
    FitsBesidesClaims(h, s, b) && ClaimsFree(h, s, b)
  }

  /** Other slots' owner keys are none of the batch's. */
  lemma OtherOwnerKeys(s: Store, b: Batch, m: string, did: string)
    requires MnemonicOk(m) && MnemonicOk(b.slot) && m != b.slot
    ensures Find(Reowned(s.owners, b), OwnerKey(did, m)) == Find(s.owners, OwnerKey(did, m))
  {
    ColonFree(m);
    ColonFree(b.slot);
    if b.dropOwner.Some? && OwnerKey(b.dropOwner.value, b.slot) == OwnerKey(did, m) {
      OwnerKeyIsInjective(b.dropOwner.value, b.slot, did, m);
    }
    if b.putOwner.Some? && OwnerKey(b.putOwner.value, b.slot) == OwnerKey(did, m) {
      OwnerKeyIsInjective(b.putOwner.value, b.slot, did, m);
    }
  }

  /** A batch only ever concerns a real slot. */
  ghost predicate RealSlot(s: Store, b: Batch) {
    b.dropOwner.Some? || b.putOwner.Some? ==> MnemonicOk(b.slot)
  }

  lemma ReownerIsReal(h: Host, s: Store, b: Batch)
    requires Inv(h, s) && FitsBesidesClaims(h, s, b)
    ensures RealSlot(s, b)
  {
    assert SlotOk(s, b.slot);
  }

  lemma SlotStaysOk(h: Host, s: Store, b: Batch, m: string)
    requires Inv(h, s) && FitsBesidesClaims(h, s, b)
    ensures SlotOk(Commit(h, s, b), m)
  {
    var t := Commit(h, s, b);
    assert SlotOk(s, m);
    ReownerIsReal(h, s, b);
    if m != b.slot {
      if m in s.records && RealSlot(s, b) && MnemonicOk(b.slot) { OtherOwnerKeys(s, b, m, s.records[m].owner); }
    } else if m in t.records && m in s.records && b.putOwner.None? {
      assert t.owners == s.owners;
    }
  }

  lemma OwnerRowStaysOk(h: Host, s: Store, b: Batch, key: string)
    requires Inv(h, s) && FitsBesidesClaims(h, s, b)
    ensures OwnerRowOk(Commit(h, s, b), key)
  {
    var m, t := b.slot, Commit(h, s, b);
    assert SlotOk(s, m);
    assert OwnerRowOk(s, key);
    if key in t.owners && !(b.putOwner.Some? && key == OwnerKey(b.putOwner.value, m)) {
      assert key in s.owners && t.owners[key] == s.owners[key];
    }
  }

  function Holder(index: Index, key: (string, string)): Option<string> {
    if key in index then Some(index[key]) else None
  }

  /** What the index holds at a key after the batch. */
  lemma IndexAt(h: Host, s: Store, b: Batch, key: (string, string))
    ensures
      var m, domain, t := b.slot, h.domainOf(b.slot), Commit(h, s, b);
      Holder(t.names, key) ==
        if key.0 == domain && key.1 in b.released then None
        else if key.0 == domain && key.1 in b.claimed then Some(m)
        else Holder(s.names, key)
  {
  }

  /** Slot `m` registers `e` as the name `key`. */
  ghost predicate Registers(h: Host, s: Store, m: string, e: NameEntry, key: (string, string)) {
    m in s.records && e in s.records[m].names && key == (h.domainOf(m), e.name)
  }

  /** Another slot registers a name the batch claims. */
  ghost predicate TakesFrom(h: Host, s: Store, b: Batch, n: string, m: string, e: NameEntry) {
    n in b.claimed && m != b.slot && Registers(h, s, m, e, (h.domainOf(b.slot), n))
  }

  lemma NameStaysOk(h: Host, s: Store, b: Batch, m: string, e: NameEntry)
    requires Inv(h, s) && FitsBesidesClaims(h, s, b)
    requires !TakesFrom(h, s, b, e.name, m, e)
    ensures NameOk(h, Commit(h, s, b), m, e)
  {
    var t := Commit(h, s, b);
    if m in t.records && e in t.records[m].names {
      IndexAt(h, s, b, (h.domainOf(m), e.name));
      if m == b.slot {
        assert Lists(h, s, b, e);
      } else {
        assert NameOk(h, s, m, e);
      }
    }
  }

  lemma TakenNameIsLost(h: Host, s: Store, b: Batch, n: string, m: string, e: NameEntry)
    requires Inv(h, s) && FitsBesidesClaims(h, s, b) && TakesFrom(h, s, b, n, m, e)
    ensures !NameOk(h, Commit(h, s, b), m, e)
  {
    assert NameOk(h, s, m, e);
    IndexAt(h, s, b, (h.domainOf(m), n));
  }

  lemma NameRowStaysOk(h: Host, s: Store, b: Batch, key: (string, string))
    requires Inv(h, s) && FitsBesidesClaims(h, s, b)
    ensures NameRowOk(h, Commit(h, s, b), key)
  {
    assert NameRowOk(h, s, key);
    IndexAt(h, s, b, key);
  }

  /** A batch that fits apart from its claims keeps the invariant exactly when no other
      slot registers a name it claims. */
  lemma CommitKeepsInvIff(h: Host, s: Store, b: Batch)
    requires Inv(h, s) && FitsBesidesClaims(h, s, b)
    ensures Inv(h, Commit(h, s, b)) <==> !exists n, m, e :: TakesFrom(h, s, b, n, m, e)
  {
    var t := Commit(h, s, b);
    forall m ensures SlotOk(t, m) { SlotStaysOk(h, s, b, m); }
    forall key ensures OwnerRowOk(t, key) { OwnerRowStaysOk(h, s, b, key); }
    forall key ensures NameRowOk(h, t, key) { NameRowStaysOk(h, s, b, key); }
    if n, m, e :| TakesFrom(h, s, b, n, m, e) {
      TakenNameIsLost(h, s, b, n, m, e);
    } else {
      forall m, e ensures NameOk(h, t, m, e) { NameStaysOk(h, s, b, m, e); }
    }
  }

  /** A fitting batch keeps the invariant. */
  lemma CommitKeepsInv(h: Host, s: Store, b: Batch)
    requires Inv(h, s) && Fits(h, s, b)
    ensures Inv(h, Commit(h, s, b))
  {
    forall n, m, e ensures !TakesFrom(h, s, b, n, m, e) { assert NameOk(h, s, m, e); }
    CommitKeepsInvIff(h, s, b);
  }

  // ---------------------------------------------------------------------
  // Every operation's batch fits
  // ---------------------------------------------------------------------

  /** Batches that leave the names alone. */
  lemma QuietNamesFit(h: Host, s: Store, b: Batch)
    requires Inv(h, s) && b.claimed == [] && b.released == []
    requires b.record.Put? ==> b.record.value.names == (if b.slot in s.records then s.records[b.slot].names else [])
    ensures NamesFit(h, s, b)
  {
    forall e | Lists(h, s, b, e) ensures Held(s.names, h.domainOf(b.slot), e.name, b.slot) {
      assert NameOk(h, s, b.slot, e);
    }
  }

  /** Batches that reconcile. */
  lemma ReconciledNamesFit(h: Host, s: Store, b: Batch, names: seq<NameEntry>, claims: seq<string>, now: nat)
    requires Inv(h, s) && b.record.Put? && Unique(names) && NoRepeats(claims)
    requires names == [] || (b.slot in s.records && names == s.records[b.slot].names)
    requires Reconcile(names, s.names, h.domainOf(b.slot), b.slot, claims, now)
          == Ok(Plan(b.record.value.names, b.claimed, b.released))
    ensures NamesFit(h, s, b) && Unique(b.record.value.names)
  {
    var m, domain := b.slot, h.domainOf(b.slot);
    ReconcileMeans(names, s.names, domain, m, claims, now);
    forall n | n in b.released ensures Held(s.names, domain, n, m) && n !in b.claimed {
      var e :| e in names && e.name == n && Retirable(e, b.claimed, s.names, domain, m);
    }
    forall e | Lists(h, s, b, e)
      ensures e.name !in b.released && (e.name in b.claimed || Held(s.names, domain, e.name, m)) {
      if e.name !in b.claimed {
        assert e in names && !e.enabled;
        assert NameOk(h, s, m, e);
        if e.name in b.released {
          var o :| o in names && o.name == e.name && Retirable(o, b.claimed, s.names, domain, m);
          assert o.enabled && o != e;
          OneEntryPerName(names, o, e);
        }
      }
    }
  }

  lemma OneEntryPerName(names: seq<NameEntry>, a: NameEntry, b: NameEntry)
    requires Unique(names) && a in names && b in names && a.name == b.name
    ensures a == b
  {
    var i :| 0 <= i < |names| && names[i] == a;
    var j :| 0 <= j < |names| && names[j] == b;
  }

  /** A verb keeps names distinct and concerns no name but its own. */
  lemma VerbMeans(names: seq<NameEntry>, index: Index, domain: string, m: string, name: string, verb: Verb, now: nat)
    requires Unique(names) && ApplyVerb(names, index, domain, m, name, verb, now).Ok?
    ensures
      var c := ApplyVerb(names, index, domain, m, name, verb, now).value;
      && Unique(c.names)
      && (verb.Activate? ==> c.claimed == [name] && c.released == [] && !HeldByOther(index, domain, name, m))
      && (verb.Park? ==> c.claimed == [] && c.released == [] && name in NamesIn(names))
      && (verb.Remove? ==> c.claimed == [] && c.released == [name] && name in NamesIn(names))
      && (forall e :: e in c.names ==> e.name in NamesIn(names) || (verb.Activate? && e.name == name))
      && (verb.Remove? ==> forall e :: e in c.names ==> e.name != name)
  {
    var c := ApplyVerb(names, index, domain, m, name, verb, now).value;
    match verb {
      case Activate =>
        if name in NamesIn(names) {
          WithFlagKeepsNames(names, name, true);
        } else {
          forall i | 0 <= i < |names| ensures names[i].name != name { assert names[i] in names; }
        }
      case Park =>
        WithFlagKeepsNames(names, name, false);
      case Remove =>
        WithoutNameUnique(names, name);
        forall e | e in c.names ensures e.name in NamesIn(names) && e.name != name { WithoutNameIs(names, name, e); }
    }
  }

  lemma VerbNamesFit(h: Host, s: Store, b: Batch, name: string, verb: Verb, now: nat)
    requires Inv(h, s) && b.record.Put? && b.slot in s.records
    requires ApplyVerb(s.records[b.slot].names, s.names, h.domainOf(b.slot), b.slot, name, verb, now)
          == Ok(NameChange(b.record.value.names, b.claimed, b.released))
    ensures NamesFit(h, s, b) && Unique(b.record.value.names)
  {
    var m, domain, names := b.slot, h.domainOf(b.slot), s.records[b.slot].names;
    assert SlotOk(s, m);
    VerbMeans(names, s.names, domain, m, name, verb, now);
    forall n | n in NamesIn(names) ensures Held(s.names, domain, n, m) {
      var e :| e in names && e.name == n;
      assert NameOk(h, s, m, e);
    }
    forall e | Lists(h, s, b, e)
      ensures e.name !in b.released && (e.name in b.claimed || Held(s.names, domain, e.name, m)) {}
  }

  lemma RegisterFits(h: Host, s: Store, auth: Auth, slot: string, log: string, force: bool, now: nat)
    requires Inv(h, s) && Register(h, s, auth, slot, log, force, now).Ok?
    ensures Fits(h, s, Register(h, s, auth, slot, log, force, now).value)
  {
    var b := Register(h, s, auth, slot, log, force, now).value;
    var names := if slot in s.records then s.records[slot].names else [];
    assert SlotOk(s, slot);
    ReconciledNamesFit(h, s, b, names, Claims(h.aliases(log), h.domainOf(slot)), now);
  }

  lemma PublishFits(h: Host, s: Store, auth: Auth, slot: string, log: string, now: nat)
    requires Inv(h, s) && Publish(h, s, auth, slot, log, now).Ok?
    ensures Fits(h, s, Publish(h, s, auth, slot, log, now).value)
  {
    var b := Publish(h, s, auth, slot, log, now).value;
    assert SlotOk(s, slot);
    ReconciledNamesFit(h, s, b, s.records[slot].names, Claims(h.aliases(log), h.domainOf(slot)), now);
  }

  lemma NameOpFits(h: Host, s: Store, auth: Auth, slot: string, given: string, log: string, verb: Verb, now: nat)
    requires Inv(h, s) && NameOp(h, s, auth, slot, given, log, verb, now).Ok?
    ensures Fits(h, s, NameOp(h, s, auth, slot, given, log, verb, now).value)
  {
    var b := NameOp(h, s, auth, slot, given, log, verb, now).value;
    assert SlotOk(s, slot);
    VerbNamesFit(h, s, b, Bare(given), verb, now);
  }

  lemma UploadFits(h: Host, s: Store, c: Call)
    requires Inv(h, s) && c.op.OpUpload? && Decide(h, s, c).Ok?
    ensures Fits(h, s, Decide(h, s, c).value)
  {
    assert SlotOk(s, c.op.slot);
    QuietNamesFit(h, s, Decide(h, s, c).value);
  }

  lemma ChangeOwnerFits(h: Host, s: Store, c: Call)
    requires Inv(h, s) && c.op.OpChangeOwner? && Decide(h, s, c).Ok?
    ensures Fits(h, s, Decide(h, s, c).value)
  {
    assert SlotOk(s, c.op.slot);
    QuietNamesFit(h, s, Decide(h, s, c).value);
  }

  lemma DisableFits(h: Host, s: Store, c: Call)
    requires Inv(h, s) && c.op.OpDisable? && Decide(h, s, c).Ok?
    ensures Fits(h, s, Decide(h, s, c).value)
  {
    assert SlotOk(s, c.op.slot);
    QuietNamesFit(h, s, Decide(h, s, c).value);
  }

  lemma RollBackFits(h: Host, s: Store, c: Call)
    requires Inv(h, s) && c.op.OpRollBack? && Decide(h, s, c).Ok?
    ensures Fits(h, s, Decide(h, s, c).value)
  {
    assert SlotOk(s, c.op.slot);
    QuietNamesFit(h, s, Decide(h, s, c).value);
  }

  lemma DeleteFits(h: Host, s: Store, c: Call)
    requires Inv(h, s) && c.op.OpDelete? && Decide(h, s, c).Ok?
    ensures Fits(h, s, Decide(h, s, c).value)
  {
    assert SlotOk(s, c.op.slot);
    QuietNamesFit(h, s, Decide(h, s, c).value);
  }

  lemma DecideFits(h: Host, s: Store, c: Call)
    requires Inv(h, s) && !c.op.OpCreate? && Decide(h, s, c).Ok?
    ensures Fits(h, s, Decide(h, s, c).value)
  {
    match c.op
    case OpRegister(slot, log, force) => RegisterFits(h, s, c.auth, slot, log, force, c.now);
    case OpPublish(slot, log) => PublishFits(h, s, c.auth, slot, log, c.now);
    case OpName(slot, name, log, verb) => NameOpFits(h, s, c.auth, slot, name, log, verb, c.now);
    case OpUpload(_, _, _) => UploadFits(h, s, c);
    case OpChangeOwner(_, _, _) => ChangeOwnerFits(h, s, c);
    case OpDisable(_, _) => DisableFits(h, s, c);
    case OpRollBack(_, _) => RollBackFits(h, s, c);
    case OpDelete(_) => DeleteFits(h, s, c);
  }

  // ---------------------------------------------------------------------
  // Creating
  // ---------------------------------------------------------------------

  lemma {:induction false} FirstFreeIsFree(s: Store, drawn: seq<string>)
    requires FirstFree(s, drawn).Some?
    ensures FirstFree(s, drawn).value in drawn && FirstFree(s, drawn).value !in s.records
  {
    if drawn[0] in s.records {
      FirstFreeIsFree(s, drawn[1..]);
    }
  }

  /** The two commits of a force-replace, as one. */
  function Replacing(s: Store, auth: Auth, m: string, now: nat): Batch
    requires m in s.records
  {
    Clearing(s, auth, m).(record := Reserving(auth, m, now).record, putOwner := Some(auth.did))
  }

  lemma NoNamesNoChange(index: Index, domain: string, m: string)
    ensures Reindexed(index, domain, m, [], []) == index
  {
    var after := Reindexed(index, domain, m, [], []);
    forall k ensures k in after <==> k in index {}
  }

  lemma ReplacingIsBoth(h: Host, s: Store, auth: Auth, m: string, now: nat)
    requires m in s.records
    ensures Commit(h, Commit(h, s, Clearing(s, auth, m)), Reserving(auth, m, now)) ==
        Commit(h, s, Replacing(s, auth, m, now))
  {
    NoNamesNoChange(s.names, h.domainOf(m), m);
  }

  /** A create is one fitting batch, or it is refused and nothing has changed: the count
      quota cannot refuse once the old content is gone. */
  lemma CreateIsAllOrNothing(h: Host, s: Store, auth: Auth, path: Option<string>, drawn: seq<string>, force: bool,
                             now: nat)
    ensures
      var o := Create(h, s, auth, path, drawn, force, now);
      if o.error.Some? then o.store == s
      else
        var m := ResolvePath(s, auth, path, drawn, force).value;
        o.store == Commit(h, s, if m in s.records then Replacing(s, auth, m, now) else Reserving(auth, m, now))
  {
    var resolved := ResolvePath(s, auth, path, drawn, force);
    if path.None? && resolved.Ok? {
      FirstFreeIsFree(s, drawn);
    }
    if resolved.Ok? && resolved.value in s.records {
      ReplacingIsBoth(h, s, auth, resolved.value, now);
    }
  }

  lemma CreateFits(h: Host, s: Store, auth: Auth, m: string, now: nat)
    requires Inv(h, s) && MnemonicOk(m)
    ensures Fits(h, s, if m in s.records then Replacing(s, auth, m, now) else Reserving(auth, m, now))
  {
    assert SlotOk(s, m);
  }

  /** The path that is used is one that may be. */
  lemma ResolvedIsOk(s: Store, auth: Auth, path: Option<string>, drawn: seq<string>, force: bool)
    requires ResolvePath(s, auth, path, drawn, force).Ok?
    requires forall i :: 0 <= i < |drawn| ==> PathOk(drawn[i])
    ensures MnemonicOk(ResolvePath(s, auth, path, drawn, force).value)
  {
    if path.None? {
      FirstFreeIsFree(s, drawn);
    }
  }

  // ---------------------------------------------------------------------
  // Every step, every run
  // ---------------------------------------------------------------------

  /** Whatever a call does, it is one fitting batch or nothing at all. */
  lemma StepIsFittingBatch(h: Host, s: Store, c: Call) returns (b: Batch)
    requires Inv(h, s) && Plausible(c) && Do(h, s, c).error.None?
    ensures Fits(h, s, b) && Do(h, s, c).store == Commit(h, s, b)
    ensures !c.op.OpCreate? ==> Decide(h, s, c) == Ok(b)
  {
    if c.op.OpCreate? {
      var path, drawn, force := c.op.path, c.op.drawn, c.op.force;
      CreateIsAllOrNothing(h, s, c.auth, path, drawn, force, c.now);
      ResolvedIsOk(s, c.auth, path, drawn, force);
      var m := ResolvePath(s, c.auth, path, drawn, force).value;
      CreateFits(h, s, c.auth, m, c.now);
      b := if m in s.records then Replacing(s, c.auth, m, c.now) else Reserving(c.auth, m, c.now);
    } else {
      DecideFits(h, s, c);
      b := Decide(h, s, c).value;
    }
  }

  /** A refusal changes nothing, whichever operation refuses and wherever in it. */
  lemma RefusalChangesNothing(h: Host, s: Store, c: Call)
    requires Do(h, s, c).error.Some?
    ensures Do(h, s, c).store == s
  {
    if c.op.OpCreate? {
      CreateIsAllOrNothing(h, s, c.auth, c.op.path, c.op.drawn, c.op.force, c.now);
    }
  }

  lemma StepKeepsInv(h: Host, s: Store, c: Call)
    requires Inv(h, s) && Plausible(c)
    ensures Inv(h, Do(h, s, c).store)
  {
    if Do(h, s, c).error.Some? {
      RefusalChangesNothing(h, s, c);
    } else {
      var b := StepIsFittingBatch(h, s, c);
      CommitKeepsInv(h, s, b);
    }
  }

  ghost predicate AllPlausible(calls: seq<Call>) {
    forall i :: 0 <= i < |calls| ==> Plausible(calls[i])
  }

  lemma {:induction false} RunKeepsInv(h: Host, s: Store, calls: seq<Call>)
    requires Inv(h, s) && AllPlausible(calls)
    ensures Inv(h, Run(h, s, calls))
    decreases calls
  {
    if calls != [] {
      StepKeepsInv(h, s, calls[0]);
      RunKeepsInv(h, Do(h, s, calls[0]).store, calls[1..]);
    }
  }

  /** Two slots never hold the same name, served or parked. */
  lemma NamesAreSingle(h: Host, s: Store, key: (string, string), m: string, e: NameEntry, n: string, f: NameEntry)
    requires Inv(h, s) && Registers(h, s, m, e, key) && Registers(h, s, n, f, key)
    ensures m == n && e == f
  {
    assert NameOk(h, s, m, e) && NameOk(h, s, n, f) && SlotOk(s, m);
    OneEntryPerName(s.records[m].names, e, f);
  }

  /** The owner index holds exactly the pairs of owner and mnemonic. */
  lemma OwnerIndexIsExact(h: Host, s: Store, key: string, m: string)
    requires Inv(h, s)
    ensures Find(s.owners, key) == Some(m) <==> m in s.records && key == OwnerKey(s.records[m].owner, m)
  {
    assert OwnerRowOk(s, key) && SlotOk(s, m);
  }

  ghost predicate NamesSingle(h: Host, s: Store) {
    && (forall key, m, n, e, f :: Registers(h, s, m, e, key) && Registers(h, s, n, f, key) ==> m == n && e == f)
    && (forall m :: m in s.records ==> Unique(s.records[m].names))
  }

  ghost predicate OwnersExact(s: Store) {
    forall key, m :: Find(s.owners, key) == Some(m) <==> m in s.records && key == OwnerKey(s.records[m].owner, m)
  }

  ghost predicate SizesExact(s: Store) {
    forall m :: m in s.records ==> s.records[m].size == SizeOf(Find(s.logs, m))
  }

  lemma NamesAreAllSingle(h: Host, s: Store)
    requires Inv(h, s)
    ensures NamesSingle(h, s)
  {
    forall key, m, n, e, f | Registers(h, s, m, e, key) && Registers(h, s, n, f, key) ensures m == n && e == f {
      NamesAreSingle(h, s, key, m, e, n, f);
    }
    forall m | m in s.records ensures Unique(s.records[m].names) { assert SlotOk(s, m); }
  }

  lemma OwnersAreExact(h: Host, s: Store)
    requires Inv(h, s)
    ensures OwnersExact(s)
  {
    forall key, m ensures Find(s.owners, key) == Some(m) <==> m in s.records && key == OwnerKey(s.records[m].owner, m) {
      OwnerIndexIsExact(h, s, key, m);
    }
  }

  lemma SizesAreExact(h: Host, s: Store)
    requires Inv(h, s)
    ensures SizesExact(s)
  {
    forall m | m in s.records ensures s.records[m].size == SizeOf(Find(s.logs, m)) { assert SlotOk(s, m); }
  }

  /** From an empty store, after any calls by anybody: no two slots hold the same name;
      the owner index is exact; every recorded size is the stored log's. */
  lemma EveryRun(h: Host, calls: seq<Call>)
    requires AllPlausible(calls)
    ensures NamesSingle(h, Run(h, EMPTY, calls))
    ensures OwnersExact(Run(h, EMPTY, calls))
    ensures SizesExact(Run(h, EMPTY, calls))
  {
    EmptyIsGood(h);
    RunKeepsInv(h, EMPTY, calls);
    NamesAreAllSingle(h, Run(h, EMPTY, calls));
    OwnersAreExact(h, Run(h, EMPTY, calls));
    SizesAreExact(h, Run(h, EMPTY, calls));
  }

  lemma EmptyIsGood(h: Host)
    ensures Inv(h, EMPTY)
  {
  }
}
