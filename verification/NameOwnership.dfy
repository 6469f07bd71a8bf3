/** Who holds an agent name, over every run (did-hosting-control/src/did_ops.rs:948-1082,
    1268-1375). */
module NameOwnership {
  import opened Common
  import opened Paths
  import opened AgentNames
  import opened SlotStore
  import opened SlotInvariant
  import opened StoringCalls

  lemma OtherBatch(h: Host, s: Store, c: Call)
    requires !c.op.OpCreate? && !StoresLog(c.op)
    ensures
      var r := Decide(h, s, c);
      r.Ok? ==> r.value.slot == c.op.slot && c.op.slot in s.records && r.value.claimed == [] && r.value.released == []
  {
  }

  lemma BatchOfCall(h: Host, s: Store, c: Call)
    requires !c.op.OpCreate? && Decide(h, s, c).Ok?
    ensures Decide(h, s, c).value.slot == c.op.slot
    ensures c.op.slot in s.records || c.op.OpRegister?
    ensures StoresLog(c.op) || (Decide(h, s, c).value.claimed == [] && Decide(h, s, c).value.released == [])
  {
    if StoresLog(c.op) {
      CallStores(h, s, c);
    } else {
      OtherBatch(h, s, c);
    }
  }

  /** A publish or register of a document that no longer claims, bindably, a name the slot
      serves; or a remove of the name. */
  predicate GivesUp(h: Host, s: Store, c: Call, m: string, name: string) {
    match c.op
    case OpRegister(slot, log, _) => slot == m && NoLongerClaims(h, s, m, log, name)
    case OpPublish(slot, log) => slot == m && NoLongerClaims(h, s, m, log, name)
    case OpName(slot, given, _, verb) => slot == m && verb.Remove? && Bare(given) == name
    case _ => false
  }

  predicate NoLongerClaims(h: Host, s: Store, m: string, log: string, name: string) {
    && (exists e :: e in NamesAt(s, m) && e.name == name && e.enabled)
    && !(name in Claims(h.aliases(log), h.domainOf(m)) && Bindable(name, m))
  }

  lemma ReconcilingReleasesIff(h: Host, s: Store, c: Call, n: string)
    requires Inv(h, s) && Reconciles(c.op) && Decide(h, s, c).Ok?
    ensures
      var m := c.op.slot;
      n in Decide(h, s, c).value.released
      <==> GivesUp(h, s, c, m, n) && Holder(s.names, (h.domainOf(m), n)) == Some(m)
  {
    var m, b := c.op.slot, Decide(h, s, c).value;
    assert SlotOk(s, m);
    CallStores(h, s, c);
    ReconcileMeans(NamesAt(s, m), s.names, h.domainOf(m), m, Claims(h.aliases(c.op.log), h.domainOf(m)), c.now);
  }

  lemma CallReleasesIff(h: Host, s: Store, c: Call, n: string)
    requires Inv(h, s) && !c.op.OpCreate? && Decide(h, s, c).Ok?
    ensures
      var m := c.op.slot;
      Holder(s.names, (h.domainOf(m), n)) == Some(m) ==>
        (n in Decide(h, s, c).value.released <==> GivesUp(h, s, c, m, n))
  {
    BatchOfCall(h, s, c);
    if Reconciles(c.op) {
      ReconcilingReleasesIff(h, s, c, n);
    } else if c.op.OpName? {
      var m := c.op.slot;
      assert SlotOk(s, m);
      CallStores(h, s, c);
      VerbMeans(NamesAt(s, m), s.names, h.domainOf(m), m, Bare(c.op.name), c.op.verb, c.now);
    }
  }

  /** Ownership has two states. A held name is freed by a call that succeeds exactly when
      that call gives it up on the very slot that holds it, and stays with it otherwise; a
      free name stays free or goes to the slot of the call. No step moves a name from one
      slot to another. */
  lemma NameStep(h: Host, s: Store, c: Call, key: (string, string))
    requires Inv(h, s) && Plausible(c)
    ensures
      var before, after := Holder(s.names, key), Holder(Do(h, s, c).store.names, key);
      && (before.Some? ==>
          after == if Do(h, s, c).error.None? && GivesUp(h, s, c, before.value, key.1) then None else before)
      && (before.None? && after.Some? ==>
          key.0 == h.domainOf(after.value) && !c.op.OpCreate? && after.value == c.op.slot)
  {
    var o := Do(h, s, c);
    assert NameRowOk(h, s, key);
    if o.error.Some? {
      RefusalChangesNothing(h, s, c);
    } else {
      var b := StepIsFittingBatch(h, s, c);
      IndexAt(h, s, b, key);
      if c.op.OpCreate? {
        NoNamesNoChange(s.names, h.domainOf(b.slot), b.slot);
      } else {
        BatchOfCall(h, s, c);
        CallReleasesIff(h, s, c, key.1);
      }
    }
  }

  /** No call of the run, where it succeeds, gives the name up. */
  ghost predicate NeverGivenUp(h: Host, s: Store, calls: seq<Call>, m: string, name: string)
    decreases calls
  {
    calls == [] ||
      (!(Do(h, s, calls[0]).error.None? && GivesUp(h, s, calls[0], m, name))
       && NeverGivenUp(h, Do(h, s, calls[0]).store, calls[1..], m, name))
  }

  /** The slot holds the name in every state of the run. */
  ghost predicate HeldThroughout(h: Host, s: Store, calls: seq<Call>, key: (string, string), m: string)
    decreases calls
  {
    Holder(s.names, key) == Some(m)
    && (calls != [] ==> HeldThroughout(h, Do(h, s, calls[0]).store, calls[1..], key, m))
  }

  /** Over a run of any calls by anybody, a slot holds a name throughout exactly when none
      of them gives it up. */
  lemma {:induction false} HeldUntilGivenUp(h: Host, s: Store, calls: seq<Call>, key: (string, string), m: string)
    requires Inv(h, s) && AllPlausible(calls) && Holder(s.names, key) == Some(m)
    ensures HeldThroughout(h, s, calls, key, m) <==> NeverGivenUp(h, s, calls, m, key.1)
    ensures NeverGivenUp(h, s, calls, m, key.1) ==> Holder(Run(h, s, calls).names, key) == Some(m)
    decreases calls
  {
    if calls != [] {
      NameStep(h, s, calls[0], key);
      StepKeepsInv(h, s, calls[0]);
      if !(Do(h, s, calls[0]).error.None? && GivesUp(h, s, calls[0], m, key.1)) {
        HeldUntilGivenUp(h, Do(h, s, calls[0]).store, calls[1..], key, m);
      }
    }
  }

  /** The document submitted by a publish or register claims a name that may be bound. */
  predicate ClaimsName(h: Host, c: Call, slot: string, name: string) {
    && ((c.op.OpPublish? || c.op.OpRegister?) && c.op.slot == slot)
    && name in Claims(h.aliases(c.op.log), h.domainOf(slot)) && Bindable(name, slot)
  }

  /** A call that would bind the name to the slot. */
  predicate WouldBind(h: Host, c: Call, slot: string, name: string) {
    || ClaimsName(h, c, slot, name)
    || (c.op.OpName? && c.op.verb.Activate? && c.op.slot == slot && Bare(c.op.name) == name)
  }

  /** A held name, parked ones included, blocks every other slot: the whole call is
      refused and nothing changes. */
  lemma HeldNameBlocks(h: Host, s: Store, c: Call, slot: string, name: string)
    requires HeldByOther(s.names, h.domainOf(slot), name, slot) && WouldBind(h, c, slot, name)
    ensures Do(h, s, c).error.Some? && Do(h, s, c).store == s
  {
    if Decide(h, s, c).Ok? {
      if ClaimsName(h, c, slot, name) {
        var claims := Claims(h.aliases(c.op.log), h.domainOf(slot));
        assert Objection(s.names, h.domainOf(slot), slot, name) == Some(NameTaken);
        RefusedIff(s.names, h.domainOf(slot), slot, claims);
        CallStores(h, s, c);
      } else {
        CallStores(h, s, c);
      }
    }
  }

  /** A parked name outlives everything but a remove of that name, or the end of its
      slot; even then its index entry stays. */
  lemma ParkedNameStays(h: Host, s: Store, c: Call, m: string, e: NameEntry)
    requires Inv(h, s) && Plausible(c) && m in s.records && e in s.records[m].names && !e.enabled
    requires !(c.op.OpName? && c.op.verb.Remove? && c.op.slot == m && Bare(c.op.name) == e.name)
    ensures Holder(Do(h, s, c).store.names, (h.domainOf(m), e.name)) == Some(m)
  {
    assert NameOk(h, s, m, e) && SlotOk(s, m);
    NameStep(h, s, c, (h.domainOf(m), e.name));
    forall o | o in NamesAt(s, m) && o.name == e.name ensures o == e { OneEntryPerName(s.records[m].names, o, e); }
  }

  // ---------------------------------------------------------------------
  // Index keys as strings
  // ---------------------------------------------------------------------

  ghost predicate NamesColonFree(s: Store) {
    forall key :: key in s.names ==> ':' !in key.1
  }

  lemma ClaimedIsColonFree(h: Host, s: Store, c: Call, n: string)
    requires Inv(h, s) && !c.op.OpCreate? && Decide(h, s, c).Ok? && n in Decide(h, s, c).value.claimed
    ensures ':' !in n
  {
    var m := c.op.slot;
    BatchOfCall(h, s, c);
    assert SlotOk(s, m);
    if Reconciles(c.op) {
      CallStores(h, s, c);
      ReconcileMeans(NamesAt(s, m), s.names, h.domainOf(m), m, Claims(h.aliases(c.op.log), h.domainOf(m)), c.now);
      BindableIsColonFree(n, m);
    } else {
      CallStores(h, s, c);
      VerbMeans(NamesAt(s, m), s.names, h.domainOf(m), m, Bare(c.op.name), c.op.verb, c.now);
      BindableIsColonFree(c.op.name, m);
    }
  }

  lemma StepKeepsColonFree(h: Host, s: Store, c: Call)
    requires Inv(h, s) && Plausible(c) && NamesColonFree(s)
    ensures NamesColonFree(Do(h, s, c).store)
  {
    var t := Do(h, s, c).store;
    forall key | key in t.names ensures ':' !in key.1 {
      NameStep(h, s, c, key);
      if key !in s.names {
        assert Holder(s.names, key) == None;
        if Do(h, s, c).error.Some? { RefusalChangesNothing(h, s, c); }
        IndexAt(h, s, Decide(h, s, c).value, key);
        ClaimedIsColonFree(h, s, c, key.1);
      }
    }
  }

  lemma {:induction false} RunKeepsColonFree(h: Host, s: Store, calls: seq<Call>)
    requires Inv(h, s) && AllPlausible(calls) && NamesColonFree(s)
    ensures NamesColonFree(Run(h, s, calls))
    decreases calls
  {
    if calls != [] {
      StepKeepsColonFree(h, s, calls[0]);
      StepKeepsInv(h, s, calls[0]);
      RunKeepsColonFree(h, Do(h, s, calls[0]).store, calls[1..]);
    }
  }

  /** The index may be keyed by strings: after any run from an empty store, two names it
      holds have one string key only if they are one name of one domain, whatever colons the
      domains hold. */
  lemma NameKeysNeverCollide(h: Host, calls: seq<Call>, key: (string, string), other: (string, string))
    requires AllPlausible(calls)
    requires key in Run(h, EMPTY, calls).names && other in Run(h, EMPTY, calls).names
    requires NameKey(key.0, key.1) == NameKey(other.0, other.1)
    ensures key == other
  {
    EmptyIsGood(h);
    RunKeepsColonFree(h, EMPTY, calls);
    NameKeyIsInjective(key.0, key.1, other.0, other.1);
  }
}
