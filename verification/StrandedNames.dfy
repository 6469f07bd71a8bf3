/** When the name index and the registry agree: the comment on the index key has it that they
    cannot diverge (did-hosting-common/src/did_ops.rs:184-193,
    did-hosting-control/src/did_ops.rs:272-323, 355-419, 1839-1844). */
module StrandedNames {
  import opened Common
  import opened AgentNames
  import opened SlotStore
  import opened SlotInvariant
  import opened SlotFrame
  import opened StoringCalls
  import opened NameOwnership

  /** Held by a slot whose registry, if the slot still exists, does not list it. */
  predicate Stranded(h: Host, s: Store, m: string, name: string) {
    Holder(s.names, (h.domainOf(m), name)) == Some(m) && name !in NamesIn(NamesAt(s, m))
  }

  lemma ReconcilingLists(h: Host, s: Store, c: Call, m: string, name: string)
    requires Inv(h, s) && Reconciles(c.op) && c.op.slot == m && Decide(h, s, c).Ok?
    requires name !in NamesIn(NamesAt(s, m)) && !WouldBind(h, c, m, name)
    ensures name !in NamesIn(NamesAt(Do(h, s, c).store, m))
  {
    var b, names := Decide(h, s, c).value, NamesAt(s, m);
    var claims := Claims(h.aliases(c.op.log), h.domainOf(m));
    assert SlotOk(s, m);
    CallStores(h, s, c);
    ReconcileMeans(names, s.names, h.domainOf(m), m, claims, c.now);
    forall e | e in b.record.value.names ensures e.name != name {
      if !e.enabled { assert e in names; }
    }
  }

  lemma VerbLists(h: Host, s: Store, c: Call, m: string, name: string)
    requires Inv(h, s) && c.op.OpName? && c.op.slot == m && Decide(h, s, c).Ok?
    requires name !in NamesIn(NamesAt(s, m)) && !WouldBind(h, c, m, name)
    ensures name !in NamesIn(NamesAt(Do(h, s, c).store, m))
  {
    assert SlotOk(s, m);
    CallStores(h, s, c);
    VerbMeans(NamesAt(s, m), s.names, h.domainOf(m), m, Bare(c.op.name), c.op.verb, c.now);
  }

  lemma CreateLists(h: Host, s: Store, c: Call, m: string, name: string)
    requires c.op.OpCreate? && Do(h, s, c).error.None? && name !in NamesIn(NamesAt(s, m))
    ensures name !in NamesIn(NamesAt(Do(h, s, c).store, m))
  {
    CreateIsAllOrNothing(h, s, c.auth, c.op.path, c.op.drawn, c.op.force, c.now);
  }

  lemma QuietLists(h: Host, s: Store, c: Call, m: string, name: string)
    requires c.op.OpUpload? || c.op.OpChangeOwner? || c.op.OpDisable? || c.op.OpRollBack? || c.op.OpDelete?
    requires Decide(h, s, c).Ok? && name !in NamesIn(NamesAt(s, m))
    ensures name !in NamesIn(NamesAt(Do(h, s, c).store, m))
  {
  }

  /** A registry comes to list a name only by a call that would bind it. */
  lemma ListedByBinding(h: Host, s: Store, c: Call, m: string, name: string)
    requires Inv(h, s) && name !in NamesIn(NamesAt(s, m)) && !WouldBind(h, c, m, name)
    ensures name !in NamesIn(NamesAt(Do(h, s, c).store, m))
  {
    if Do(h, s, c).error.Some? {
      RefusalChangesNothing(h, s, c);
    } else if c.op.OpCreate? {
      CreateLists(h, s, c, m, name);
    } else if c.op.slot != m {
      BatchOfCall(h, s, c);
      assert Find(Do(h, s, c).store.records, m) == Find(s.records, m);
    } else if Reconciles(c.op) {
      ReconcilingLists(h, s, c, m, name);
    } else if c.op.OpName? {
      VerbLists(h, s, c, m, name);
    } else {
      QuietLists(h, s, c, m, name);
    }
  }

  lemma StrandedStep(h: Host, s: Store, c: Call, m: string, name: string)
    requires Inv(h, s) && Plausible(c) && Stranded(h, s, m, name) && !WouldBind(h, c, m, name)
    ensures Stranded(h, Do(h, s, c).store, m, name)
  {
    NameStep(h, s, c, (h.domainOf(m), name));
    ListedByBinding(h, s, c, m, name);
    if Do(h, s, c).error.None? && GivesUp(h, s, c, m, name) && c.op.OpName? {
      assert SlotOk(s, m);
      CallStores(h, s, c);
      VerbMeans(NamesAt(s, m), s.names, h.domainOf(m), m, name, c.op.verb, c.now);
    }
  }

  /** A stranded name stays so, blocked for every other slot, through any run in which its
      own slot does not bind it, created again or not. */
  lemma {:induction false} StrandedUntilBound(h: Host, s: Store, calls: seq<Call>, m: string, name: string)
    requires Inv(h, s) && AllPlausible(calls) && Stranded(h, s, m, name)
    requires forall i :: 0 <= i < |calls| ==> !WouldBind(h, calls[i], m, name)
    ensures Stranded(h, Run(h, s, calls), m, name)
    decreases calls
  {
    if calls != [] {
      StrandedStep(h, s, calls[0], m, name);
      StepKeepsInv(h, s, calls[0]);
      StrandedUntilBound(h, Do(h, s, calls[0]).store, calls[1..], m, name);
    }
  }

  // ---------------------------------------------------------------------
  // Index and registry
  // ---------------------------------------------------------------------

  /** Whoever the index names as the holder lists the name. */
  predicate KeyExact(s: Store, key: (string, string)) {
    key in s.names ==> key.1 in NamesIn(NamesAt(s, s.names[key]))
  }

  /** The index holds nothing that no registry lists. */
  ghost predicate IndexExact(s: Store) {
    forall key :: KeyExact(s, key)
  }

  /** A delete, or a create over an occupied path, of a slot that lists a name. */
  predicate Strands(s: Store, c: Call) {
    && (c.op.OpDelete? || c.op.OpCreate?)
    && Target(s, c).Some? && NamesAt(s, Target(s, c).value) != []
  }

  lemma EndedListsNothing(h: Host, s: Store, c: Call, m: string)
    requires (c.op.OpDelete? || c.op.OpCreate?) && Target(s, c) == Some(m) && Do(h, s, c).error.None?
    ensures NamesAt(Do(h, s, c).store, m) == [] && Do(h, s, c).store.names == s.names
  {
    NoNamesNoChange(s.names, h.domainOf(m), m);
    if c.op.OpCreate? {
      CreateIsAllOrNothing(h, s, c.auth, c.op.path, c.op.drawn, c.op.force, c.now);
    }
  }

  /** A delete or force-replacing create that succeeds strands every name of its slot: still
      indexed to it, listed nowhere, and blocked for all others. */
  lemma EndingStrandsNames(h: Host, s: Store, c: Call, m: string, e: NameEntry)
    requires Inv(h, s) && (c.op.OpDelete? || c.op.OpCreate?) && Target(s, c) == Some(m)
    requires e in NamesAt(s, m)
    ensures Do(h, s, c).error.None? ==> Stranded(h, Do(h, s, c).store, m, e.name)
  {
    if Do(h, s, c).error.None? {
      assert NameOk(h, s, m, e);
      EndedListsNothing(h, s, c, m);
    }
  }

  lemma ReconciledStaysListed(h: Host, s: Store, c: Call, n: string)
    requires Inv(h, s) && Reconciles(c.op) && Decide(h, s, c).Ok?
    requires
      var m, b := c.op.slot, Decide(h, s, c).value;
      n in b.claimed || (n in NamesIn(NamesAt(s, m)) && Held(s.names, h.domainOf(m), n, m) && n !in b.released)
    ensures n in NamesIn(Decide(h, s, c).value.record.value.names)
  {
    var m, b := c.op.slot, Decide(h, s, c).value;
    var names := NamesAt(s, m);
    assert SlotOk(s, m);
    CallStores(h, s, c);
    ReconcileMeans(names, s.names, h.domainOf(m), m, Claims(h.aliases(c.op.log), h.domainOf(m)), c.now);
    if n in NamesIn(names) {
      var e :| e in names && e.name == n;
      if n in b.claimed {
        assert NameEntry(n, true, e.createdAt) in b.record.value.names;
      } else {
        assert e.enabled ==> Retirable(e, b.claimed, s.names, h.domainOf(m), m);
        assert e in b.record.value.names;
      }
    } else {
      assert NameEntry(n, true, c.now) in b.record.value.names;
    }
  }

  lemma FlagStaysListed(names: seq<NameEntry>, name: string, enabled: bool, n: string)
    requires Unique(names) && n in NamesIn(names)
    ensures n in NamesIn(WithFlag(names, name, enabled))
  {
    var i :| 0 <= i < |names| && names[i].name == n;
    WithFlagAt(names, name, enabled, i);
    assert WithFlag(names, name, enabled)[i] in WithFlag(names, name, enabled);
  }

  lemma VerbStaysListed(names: seq<NameEntry>, index: Index, domain: string, m: string, name: string, verb: Verb,
                        now: nat, n: string)
    requires Unique(names) && ApplyVerb(names, index, domain, m, name, verb, now).Ok?
    requires (n in NamesIn(names) && !(verb.Remove? && n == name)) || (verb.Activate? && n == name)
    ensures n in NamesIn(ApplyVerb(names, index, domain, m, name, verb, now).value.names)
  {
    match verb
    case Activate =>
      if name in NamesIn(names) {
        FlagStaysListed(names, name, true, n);
      } else {
        assert NameEntry(name, true, now) in names + [NameEntry(name, true, now)];
        if n in NamesIn(names) {
          var e :| e in names && e.name == n;
          assert e in names + [NameEntry(name, true, now)];
        }
      }
    case Park => FlagStaysListed(names, name, false, n);
    case Remove =>
      var e :| e in names && e.name == n;
      WithoutNameIs(names, name, e);
  }

  /** What a storing call's slot holds afterwards, it lists. */
  lemma StoringKeepsKeyExact(h: Host, s: Store, c: Call, key: (string, string))
    requires Inv(h, s) && KeyExact(s, key) && StoresLog(c.op) && Decide(h, s, c).Ok?
    requires Holder(Do(h, s, c).store.names, key) == Some(c.op.slot)
    ensures KeyExact(Do(h, s, c).store, key)
  {
    var m, b := c.op.slot, Decide(h, s, c).value;
    CallStores(h, s, c);
    IndexAt(h, s, b, key);
    assert NameRowOk(h, s, key) && SlotOk(s, m);
    if Reconciles(c.op) {
      ReconciledStaysListed(h, s, c, key.1);
    } else {
      VerbMeans(NamesAt(s, m), s.names, h.domainOf(m), m, Bare(c.op.name), c.op.verb, c.now);
      VerbStaysListed(NamesAt(s, m), s.names, h.domainOf(m), m, Bare(c.op.name), c.op.verb, c.now, key.1);
    }
  }

  lemma QuietKeepsNames(h: Host, s: Store, c: Call, m: string)
    requires c.op.OpUpload? || c.op.OpChangeOwner? || c.op.OpDisable? || c.op.OpRollBack?
    requires Decide(h, s, c).Ok?
    ensures NamesAt(Do(h, s, c).store, m) == NamesAt(s, m) && Do(h, s, c).store.names == s.names
  {
    var b := Decide(h, s, c).value;
    NoNamesNoChange(s.names, h.domainOf(b.slot), b.slot);
  }

  lemma CallKeepsKeyExact(h: Host, s: Store, c: Call, key: (string, string))
    requires Inv(h, s) && IndexExact(s) && Plausible(c) && Do(h, s, c).error.None? && !Strands(s, c)
    ensures KeyExact(Do(h, s, c).store, key)
  {
    var t := Do(h, s, c).store;
    assert KeyExact(s, key);
    if key in t.names {
      var m := t.names[key];
      NameStep(h, s, c, key);
      if Target(s, c) != Some(m) {
        OffTargetStays(h, s, c, m);
      } else if c.op.OpDelete? || c.op.OpCreate? {
        EndedListsNothing(h, s, c, m);
      } else if StoresLog(c.op) {
        StoringKeepsKeyExact(h, s, c, key);
      } else {
        QuietKeepsNames(h, s, c, m);
      }
    }
  }

  /** Exactly: a call that succeeds keeps index and registry in agreement if and only if it is
      no delete, and no create over an occupied path, of a slot that lists a name. */
  lemma IndexStaysExactIff(h: Host, s: Store, c: Call)
    requires Inv(h, s) && IndexExact(s) && Plausible(c)
    ensures Do(h, s, c).error.None? ==> (IndexExact(Do(h, s, c).store) <==> !Strands(s, c))
  {
    if Do(h, s, c).error.Some? {
      return;
    }
    var t := Do(h, s, c).store;
    if Strands(s, c) {
      var m := Target(s, c).value;
      var e := NamesAt(s, m)[0];
      EndingStrandsNames(h, s, c, m, e);
      assert !KeyExact(t, (h.domainOf(m), e.name));
    } else {
      forall key ensures KeyExact(t, key) { CallKeepsKeyExact(h, s, c, key); }
    }
  }

  ghost predicate NeverStrands(h: Host, s: Store, calls: seq<Call>)
    decreases calls
  {
    calls != [] ==>
      && !(Do(h, s, calls[0]).error.None? && Strands(s, calls[0]))
      && NeverStrands(h, Do(h, s, calls[0]).store, calls[1..])
  }

  ghost predicate ExactThroughout(h: Host, s: Store, calls: seq<Call>)
    decreases calls
  {
    IndexExact(s) && (calls != [] ==> ExactThroughout(h, Do(h, s, calls[0]).store, calls[1..]))
  }

  lemma {:induction false} ExactOverRunsIff(h: Host, s: Store, calls: seq<Call>)
    requires Inv(h, s) && IndexExact(s) && AllPlausible(calls)
    ensures ExactThroughout(h, s, calls) <==> NeverStrands(h, s, calls)
    decreases calls
  {
    if calls != [] {
      var c := calls[0];
      IndexStaysExactIff(h, s, c);
      StepKeepsInv(h, s, c);
      if Do(h, s, c).error.Some? {
        RefusalChangesNothing(h, s, c);
      }
      if IndexExact(Do(h, s, c).store) {
        ExactOverRunsIff(h, Do(h, s, c).store, calls[1..]);
      }
    }
  }

  /** From an empty store, index and registry agree throughout a run exactly when no call of
      it strands a name. */
  lemma IndexIsRegistryIff(h: Host, calls: seq<Call>)
    requires AllPlausible(calls)
    ensures ExactThroughout(h, EMPTY, calls) <==> NeverStrands(h, EMPTY, calls)
  {
    EmptyIsGood(h);
    ExactOverRunsIff(h, EMPTY, calls);
  }
}
