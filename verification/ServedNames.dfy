/** Is every served name claimed by the signed document? The comments promise that the two
    never diverge (did-hosting-control/src/did_ops.rs:948-960, 1196-1206, 1274-1276). */
module ServedNames {
  import opened Common
  import opened AgentNames
  import opened SlotStore
  import opened SlotInvariant
  import opened StoringCalls
  import opened NameOwnership

  /** The names the slot's stored document claims on its domain. */
  function ClaimedAt(h: Host, s: Store, m: string): seq<string> {
    if m in s.logs then Claims(h.aliases(s.logs[m]), h.domainOf(m)) else []
  }

  ghost predicate ServedIsClaimed(h: Host, s: Store, m: string, e: NameEntry) {
    m in s.records && e in s.records[m].names && e.enabled ==> e.name in ClaimedAt(h, s, m)
  }

  ghost predicate AllServedClaimed(h: Host, s: Store) {
    forall m, e :: ServedIsClaimed(h, s, m, e)
  }

  /** After a publish or register, a name is served exactly when the new document claims
      it and the slot may bind it. */
  lemma PublishServesExactlyClaims(h: Host, s: Store, c: Call, n: string)
    requires Inv(h, s) && Reconciles(c.op) && Do(h, s, c).error.None?
    ensures
      var t, m := Do(h, s, c).store, c.op.slot;
      && m in t.records
      && ((exists e :: e in t.records[m].names && e.enabled && e.name == n)
          <==> n in Claims(h.aliases(c.op.log), h.domainOf(m)) && Bindable(n, m))
  {
    var m, b := c.op.slot, Decide(h, s, c).value;
    CallStores(h, s, c);
    assert SlotOk(s, m);
    var claims := Claims(h.aliases(c.op.log), h.domainOf(m));
    ReconcileMeans(NamesAt(s, m), s.names, h.domainOf(m), m, claims, c.now);
    assert Do(h, s, c).store.records[m].names == b.record.value.names;
    if n in b.claimed {
      assert NameEntry(n, true, CreatedAt(NamesAt(s, m), n, c.now)) in b.record.value.names;
    }
  }

  lemma PublishRestores(h: Host, s: Store, c: Call, e: NameEntry)
    requires Inv(h, s) && Reconciles(c.op) && Do(h, s, c).error.None?
    ensures ServedIsClaimed(h, Do(h, s, c).store, c.op.slot, e)
  {
    CallStores(h, s, c);
    PublishServesExactlyClaims(h, s, c, e.name);
  }

  /** The document submitted with an agent-name verb claims every other served name. */
  ghost predicate OthersClaimed(h: Host, s: Store, c: Call)
    requires c.op.OpName?
  {
    forall e :: e in NamesAt(s, c.op.slot) && e.enabled && e.name != Bare(c.op.name) ==>
      e.name in Claims(h.aliases(c.op.log), h.domainOf(c.op.slot))
  }

  /** The log a rollback leaves claims every served name. */
  ghost predicate CutClaims(h: Host, s: Store, c: Call)
    requires c.op.OpRollBack?
  {
    var m := c.op.slot;
    m in s.logs ==>
      forall e :: e in NamesAt(s, m) && e.enabled ==>
        e.name in Claims(h.aliases(CutLog(s.logs[m], c.op.target)), h.domainOf(m))
  }

  lemma {:induction false} WithFlagHas(names: seq<NameEntry>, name: string, enabled: bool, e: NameEntry)
    requires Unique(names)
    ensures e.name != name ==> (e in WithFlag(names, name, enabled) <==> e in names)
    ensures e.name == name && e in WithFlag(names, name, enabled) ==> e.enabled == enabled
  {
    var after := WithFlag(names, name, enabled);
    forall i | 0 <= i < |names|
      ensures |after| == |names|
          && after[i] == (if names[i].name == name then names[i].(enabled := enabled) else names[i]) {
      WithFlagAt(names, name, enabled, i);
    }
    if e in names && e.name != name {
      var i :| 0 <= i < |names| && names[i] == e;
      assert after[i] == e;
    }
    if e in after {
      var i :| 0 <= i < |after| && after[i] == e;
      assert after[i].name == names[i].name;
    }
  }

  /** A verb leaves the other entries as they are; its own name is served only if it
      activates. */
  lemma VerbLeavesOthers(names: seq<NameEntry>, index: Index, domain: string, m: string, name: string, verb: Verb,
                         now: nat, e: NameEntry)
    requires Unique(names) && ApplyVerb(names, index, domain, m, name, verb, now).Ok?
    ensures
      var after := ApplyVerb(names, index, domain, m, name, verb, now).value.names;
      && (e.name != name ==> (e in after <==> e in names))
      && (e.name == name && e in after && e.enabled ==> verb.Activate?)
  {
    match verb
    case Activate => WithFlagHas(names, name, true, e);
    case Park => WithFlagHas(names, name, false, e);
    case Remove => WithoutNameIs(names, name, e);
  }

  /** An agent-name verb checks its own name against the document and nothing else. */
  lemma VerbKeepsClaimsIff(h: Host, s: Store, c: Call)
    requires Inv(h, s) && c.op.OpName? && Do(h, s, c).error.None?
    ensures (forall e :: ServedIsClaimed(h, Do(h, s, c).store, c.op.slot, e)) <==> OthersClaimed(h, s, c)
  {
    var m, t, name := c.op.slot, Do(h, s, c).store, Bare(c.op.name);
    var names := NamesAt(s, m);
    assert SlotOk(s, m);
    CallStores(h, s, c);
    forall e: NameEntry
             ensures e.name != name ==> (e in t.records[m].names <==> e in names)
             ensures e.name == name && e in t.records[m].names && e.enabled ==> c.op.verb.Activate?
    {
      VerbLeavesOthers(names, s.names, h.domainOf(m), m, name, c.op.verb, c.now, e);
    }
    assert ClaimedAt(h, t, m) == Claims(h.aliases(c.op.log), h.domainOf(m));
    if forall e :: ServedIsClaimed(h, t, m, e) {
      forall e | e in names && e.enabled && e.name != name ensures e.name in ClaimedAt(h, t, m) {
        assert ServedIsClaimed(h, t, m, e);
      }
    }
  }

  lemma RollBackBatch(h: Host, s: Store, auth: Auth, m: string, target: Option<nat>, now: nat)
    requires RollBack(h, s, auth, m, target, now).Ok?
    ensures
      var b := RollBack(h, s, auth, m, target, now).value;
      && m in s.logs && m in s.records && b.slot == m
      && b.log == (if Cuts(s.logs[m], target) then Put(CutLog(s.logs[m], target)) else Keep)
      && (b.record == Keep || (b.record.Put? && b.record.value.names == s.records[m].names))
  {
  }

  lemma CommitLeavesCut(h: Host, s: Store, b: Batch, target: Option<nat>)
    requires b.slot in s.logs && b.slot in s.records
    requires b.log == if Cuts(s.logs[b.slot], target) then Put(CutLog(s.logs[b.slot], target)) else Keep
    requires b.record == Keep || (b.record.Put? && b.record.value.names == s.records[b.slot].names)
    ensures
      var m, t := b.slot, Commit(h, s, b);
      && Find(t.logs, m) == Some(CutLog(s.logs[m], target))
      && m in t.records && t.records[m].names == NamesAt(s, m)
  {
  }

  /** A rollback leaves the cut log and the names. */
  lemma RollBackLeavesCut(h: Host, s: Store, c: Call)
    requires c.op.OpRollBack? && Do(h, s, c).error.None?
    ensures
      var m, t := c.op.slot, Do(h, s, c).store;
      && m in s.logs && Find(t.logs, m) == Some(CutLog(s.logs[m], c.op.target))
      && m in t.records && t.records[m].names == NamesAt(s, m)
  {
    RollBackBatch(h, s, c.auth, c.op.slot, c.op.target, c.now);
    CommitLeavesCut(h, s, Decide(h, s, c).value, c.op.target);
  }

  lemma RollBackKeepsClaimsIff(h: Host, s: Store, c: Call)
    requires c.op.OpRollBack? && Do(h, s, c).error.None?
    ensures (forall e :: ServedIsClaimed(h, Do(h, s, c).store, c.op.slot, e)) <==> CutClaims(h, s, c)
  {
    var m, t := c.op.slot, Do(h, s, c).store;
    RollBackLeavesCut(h, s, c);
    if forall e :: ServedIsClaimed(h, t, m, e) {
      forall e | e in NamesAt(s, m) && e.enabled ensures e.name in ClaimedAt(h, t, m) {
        assert ServedIsClaimed(h, t, m, e);
      }
    }
  }

  /** The remaining operations serve nothing new. */
  lemma QuietCallKeepsClaims(h: Host, s: Store, c: Call, e: NameEntry)
    requires Inv(h, s) && AllServedClaimed(h, s) && Plausible(c) && Do(h, s, c).error.None?
    requires c.op.OpUpload? || c.op.OpChangeOwner? || c.op.OpDisable? || c.op.OpDelete?
    ensures ServedIsClaimed(h, Do(h, s, c).store, c.op.slot, e)
  {
    assert ServedIsClaimed(h, s, c.op.slot, e);
  }

  lemma OtherSlotsKeepClaims(h: Host, s: Store, b: Batch, m: string, e: NameEntry)
    requires AllServedClaimed(h, s) && m != b.slot
    ensures ServedIsClaimed(h, Commit(h, s, b), m, e)
  {
    assert ServedIsClaimed(h, s, m, e);
  }

  lemma CreatedServesNothing(h: Host, s: Store, c: Call, b: Batch, e: NameEntry)
    requires c.op.OpCreate? && Do(h, s, c).error.None? && Do(h, s, c).store == Commit(h, s, b)
    requires b.record.Put? && b.record.value.names == []
    ensures ServedIsClaimed(h, Do(h, s, c).store, b.slot, e)
  {
  }

  /** What must hold of a call for served names to stay claimed. */
  ghost predicate KeepsClaims(h: Host, s: Store, c: Call) {
    && (c.op.OpName? ==> OthersClaimed(h, s, c))
    && (c.op.OpRollBack? ==> CutClaims(h, s, c))
  }

  lemma CreateBatch(h: Host, s: Store, c: Call) returns (b: Batch)
    requires c.op.OpCreate? && Do(h, s, c).error.None?
    ensures Do(h, s, c).store == Commit(h, s, b) && b.record.Put? && b.record.value.names == []
  {
    CreateIsAllOrNothing(h, s, c.auth, c.op.path, c.op.drawn, c.op.force, c.now);
    var m := ResolvePath(s, c.auth, c.op.path, c.op.drawn, c.op.force).value;
    b := if m in s.records then Replacing(s, c.auth, m, c.now) else Reserving(c.auth, m, c.now);
  }

  lemma OwnSlotKeepsClaimsIff(h: Host, s: Store, c: Call)
    requires Inv(h, s) && AllServedClaimed(h, s) && Plausible(c) && !c.op.OpCreate? && Do(h, s, c).error.None?
    ensures (forall e :: ServedIsClaimed(h, Do(h, s, c).store, c.op.slot, e)) <==> KeepsClaims(h, s, c)
  {
    if c.op.OpName? {
      VerbKeepsClaimsIff(h, s, c);
    } else if c.op.OpRollBack? {
      RollBackKeepsClaimsIff(h, s, c);
    } else {
      forall e ensures ServedIsClaimed(h, Do(h, s, c).store, c.op.slot, e) {
        if Reconciles(c.op) { PublishRestores(h, s, c, e); } else { QuietCallKeepsClaims(h, s, c, e); }
      }
    }
  }

  /** The promise, and exactly when a call keeps it: always, except that an agent-name
      verb needs the new document to claim the slot's other served names, and a rollback
      needs the older document to claim them all. */
  lemma ServedStaysClaimedIff(h: Host, s: Store, c: Call)
    requires Inv(h, s) && AllServedClaimed(h, s) && Plausible(c)
    ensures Do(h, s, c).error.None? ==> (AllServedClaimed(h, Do(h, s, c).store) <==> KeepsClaims(h, s, c))
  {
    var t := Do(h, s, c).store;
    if Do(h, s, c).error.Some? {
      return;
    }
    if c.op.OpCreate? {
      var b := CreateBatch(h, s, c);
      forall m, e ensures ServedIsClaimed(h, t, m, e) {
        if m == b.slot { CreatedServesNothing(h, s, c, b, e); } else { OtherSlotsKeepClaims(h, s, b, m, e); }
      }
    } else {
      OwnSlotKeepsClaimsIff(h, s, c);
      BatchOfCall(h, s, c);
      forall m, e | m != c.op.slot ensures ServedIsClaimed(h, t, m, e) {
        OtherSlotsKeepClaims(h, s, Decide(h, s, c).value, m, e);
      }
      if forall e :: ServedIsClaimed(h, t, c.op.slot, e) {
        forall m, e ensures ServedIsClaimed(h, t, m, e) {}
      }
    }
  }
}
