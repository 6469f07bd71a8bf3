/** What activating, parking and removing a name leave, on the records before and after
    (did-hosting-control/src/did_ops.rs:1268-1406, 2241-2306). */
module NameVerbs {
  import opened Common
  import opened AgentNames
  import opened NameRules
  import opened SlotStore
  import opened SlotInvariant
  import opened StoringCalls
  import opened Lookup

  /** The registry's entry for the name. */
  predicate HasEntry(names: seq<NameEntry>, n: string, enabled: bool, createdAt: nat) {
    NameEntry(n, enabled, createdAt) in names
  }

  /** Entries for other names are the same ones before and after. */
  ghost predicate OthersStay(before: seq<NameEntry>, after: seq<NameEntry>, n: string) {
    forall e: NameEntry :: e.name != n ==> (e in before <==> e in after)
  }

  /** No other entry has the name. */
  predicate Only(names: seq<NameEntry>, n: string, e: NameEntry) {
    forall i :: 0 <= i < |names| && names[i].name == n ==> names[i] == e
  }

  lemma FlagLeaves(names: seq<NameEntry>, n: string, enabled: bool, was: NameEntry)
    requires Unique(names) && was in names && was.name == n
    ensures
      var after := WithFlag(names, n, enabled);
      && HasEntry(after, n, enabled, was.createdAt) && Only(after, n, NameEntry(n, enabled, was.createdAt))
      && OthersStay(names, after, n)
  {
    var after := WithFlag(names, n, enabled);
    var i :| 0 <= i < |names| && names[i] == was;
    WithFlagAt(names, n, enabled, i);
    assert after[i] == NameEntry(n, enabled, was.createdAt);
    forall j | 0 <= j < |names|
      ensures after[j] == if names[j].name == n then NameEntry(n, enabled, was.createdAt) else names[j] {
      WithFlagAt(names, n, enabled, j);
      assert names[j].name == n ==> j == i;
    }
    forall e: NameEntry | e.name != n ensures e in names <==> e in after {
      if e in names { var j :| 0 <= j < |names| && names[j] == e; assert after[j] == e; }
      if e in after { var j :| 0 <= j < |after| && after[j] == e; assert names[j] == e; }
    }
  }

  lemma NewLeaves(names: seq<NameEntry>, n: string, now: nat)
    requires n !in NamesIn(names)
    ensures
      var after := names + [NameEntry(n, true, now)];
      HasEntry(after, n, true, now) && Only(after, n, NameEntry(n, true, now)) && OthersStay(names, after, n)
  {
    forall i | 0 <= i < |names| ensures names[i].name != n { assert names[i] in names; }
  }

  lemma GoneLeaves(names: seq<NameEntry>, n: string)
    ensures
      var after := WithoutName(names, n);
      (forall e :: e in after ==> e.name != n) && OthersStay(names, after, n)
  {
    forall e: NameEntry ensures e in WithoutName(names, n) <==> e in names && e.name != n {
      WithoutNameIs(names, n, e);
    }
  }

  /** When the name was first registered at the slot: now, if it was not. */
  ghost predicate Since(s: Store, m: string, n: string, now: nat, at: nat) {
    if exists e :: e in NamesAt(s, m) && e.name == n
    then exists e :: e in NamesAt(s, m) && e.name == n && e.createdAt == at
    else at == now
  }

  /** The verb applied to the registry and the index as they were. */
  function Applied(h: Host, s: Store, c: Call): Result<NameChange, Error>
    requires c.op.OpName?
  {
    ApplyVerb(NamesAt(s, c.op.slot), s.names, h.domainOf(c.op.slot), c.op.slot, Word(c.op.name), c.op.verb, c.now)
  }

  lemma RegistryAfter(h: Host, s: Store, c: Call)
    requires Inv(h, s) && c.op.OpName? && Do(h, s, c).error.None?
    ensures
      var m, t, r := c.op.slot, Do(h, s, c).store, Applied(h, s, c);
      && m in s.records && m in t.records && Unique(NamesAt(s, m))
      && r.Ok? && r.value.names == t.records[m].names
      && t.names == Reindexed(s.names, h.domainOf(m), m, r.value.claimed, r.value.released)
  {
    CallStores(h, s, c);
    assert SlotOk(s, c.op.slot);
  }

  lemma DocumentAfter(h: Host, s: Store, c: Call)
    requires c.op.OpName? && Do(h, s, c).error.None?
    ensures
      var m, t := c.op.slot, Do(h, s, c).store;
      && m in s.records && m in t.records && t.records[m].didId == DidIdOf(h.lib, c.op.log)
  {
    CallStores(h, s, c);
  }

  /** A name the slot lists enabled, and holds, resolves to the slot's DID while it is live. */
  lemma ListedNameResolves(h: Host, t: Store, m: string, n: string, at: nat)
    requires Inv(h, t) && m in t.records && HasEntry(t.records[m].names, n, true, at) && Word(n) == n
    ensures ResolveName(t, h.domainOf(m), n)
         == if t.records[m].disabled || t.records[m].deletedAt.Some? then None else t.records[m].didId
  {
    assert NameOk(h, t, m, NameEntry(n, true, at));
  }

  /** Activating: the name is listed, once, enabled, since it first was or from now; it is held;
      it resolves to the DID of the document that was submitted, unless the slot is disabled;
      and every other entry is as it was. A name that was parked is among them. */
  lemma ActivateMeans(h: Host, s: Store, c: Call) returns (at: nat)
    requires Inv(h, s) && c.op.OpName? && c.op.verb.Activate? && Do(h, s, c).error.None?
    ensures Since(s, c.op.slot, Word(c.op.name), c.now, at)
    ensures
      var m, t, n := c.op.slot, Do(h, s, c).store, Word(c.op.name);
      && m in t.records && HasEntry(t.records[m].names, n, true, at)
      && Only(t.records[m].names, n, NameEntry(n, true, at)) && OthersStay(NamesAt(s, m), t.records[m].names, n)
      && Holder(t.names, (h.domainOf(m), n)) == Some(m)
      && ResolveName(t, h.domainOf(m), n)
         == if t.records[m].disabled || t.records[m].deletedAt.Some? then None else DidIdOf(h.lib, c.op.log)
  {
    var m, t, n := c.op.slot, Do(h, s, c).store, Word(c.op.name);
    RegistryAfter(h, s, c);
    DocumentAfter(h, s, c);
    StepKeepsInv(h, s, c);
    var names := s.records[m].names;
    if n in NamesIn(names) {
      var was :| was in names && was.name == n;
      at := was.createdAt;
      FlagLeaves(names, n, true, was);
    } else {
      at := c.now;
      NewLeaves(names, n, at);
    }
    VerbWordIsBare(h, s, c);
    ListedNameResolves(h, t, m, n, at);
    assert NameOk(h, t, m, NameEntry(n, true, at));
  }

  /** The verb's own name has no second `@`. */
  lemma VerbWordIsBare(h: Host, s: Store, c: Call)
    requires c.op.OpName? && Do(h, s, c).error.None?
    ensures MayHold(c.op.slot, c.op.name) && Word(Word(c.op.name)) == Word(c.op.name)
  {
    BindingMeans(c.op.slot, c.op.name);
  }

  lemma ParkedNameSleeps(h: Host, t: Store, m: string, n: string, at: nat)
    requires Inv(h, t) && m in t.records && Word(n) == n
    requires HasEntry(t.records[m].names, n, false, at) && Only(t.records[m].names, n, NameEntry(n, false, at))
    ensures Holder(t.names, (h.domainOf(m), n)) == Some(m) && ResolveName(t, h.domainOf(m), n) == None
  {
    assert NameOk(h, t, m, NameEntry(n, false, at));
  }

  /** Parking: the name stays listed, once, since it first was, but disabled; it stays held and
      resolves to nothing; and every other entry is as it was. */
  lemma ParkMeans(h: Host, s: Store, c: Call) returns (was: NameEntry)
    requires Inv(h, s) && c.op.OpName? && c.op.verb.Park? && Do(h, s, c).error.None?
    ensures was in NamesAt(s, c.op.slot) && was.name == Word(c.op.name)
    ensures
      var m, t, n := c.op.slot, Do(h, s, c).store, Word(c.op.name);
      && m in t.records && HasEntry(t.records[m].names, n, false, was.createdAt)
      && Only(t.records[m].names, n, NameEntry(n, false, was.createdAt))
      && OthersStay(NamesAt(s, m), t.records[m].names, n)
      && Holder(t.names, (h.domainOf(m), n)) == Some(m)
      && ResolveName(t, h.domainOf(m), n) == None
  {
    var m, t, n := c.op.slot, Do(h, s, c).store, Word(c.op.name);
    RegistryAfter(h, s, c);
    StepKeepsInv(h, s, c);
    var e :| e in s.records[m].names && e.name == n;
    was := e;
    FlagLeaves(s.records[m].names, n, false, was);
    VerbWordIsBare(h, s, c);
    ParkedNameSleeps(h, t, m, n, was.createdAt);
  }

  lemma ReleasedIsGone(index: Index, domain: string, m: string, n: string)
    ensures (domain, n) !in Reindexed(index, domain, m, [], [n])
  {
  }

  lemma UnheldResolvesNowhere(t: Store, domain: string, n: string)
    requires (domain, n) !in t.names && Word(n) == n
    ensures ResolveName(t, domain, n) == None
  {
  }

  /** The registry and the index of a remove, apart from the rest. */
  lemma RemovedFrom(names: seq<NameEntry>, index: Index, domain: string, m: string, n: string, now: nat)
    requires ApplyVerb(names, index, domain, m, n, Remove, now).Ok?
    ensures
      var r := ApplyVerb(names, index, domain, m, n, Remove, now).value;
      && (exists e :: e in names && e.name == n)
      && (forall e :: e in r.names ==> e.name != n) && OthersStay(names, r.names, n)
      && (domain, n) !in Reindexed(index, domain, m, r.claimed, r.released)
  {
    GoneLeaves(names, n);
    ReleasedIsGone(index, domain, m, n);
    var e :| e in names && e.name == n;
  }

  /** Removing: the name was listed; afterwards nobody holds it, the slot does not list it, it
      resolves to nothing, and every other entry is as it was. */
  lemma RemoveMeans(h: Host, s: Store, c: Call)
    requires Inv(h, s) && c.op.OpName? && c.op.verb.Remove? && Do(h, s, c).error.None?
    ensures
      var m, t, n := c.op.slot, Do(h, s, c).store, Word(c.op.name);
      && (exists e :: e in NamesAt(s, m) && e.name == n)
      && m in t.records && (forall e :: e in t.records[m].names ==> e.name != n)
      && OthersStay(NamesAt(s, m), t.records[m].names, n)
      && Holder(t.names, (h.domainOf(m), n)) == None
      && ResolveName(t, h.domainOf(m), n) == None
  {
    var m, n := c.op.slot, Word(c.op.name);
    RegistryAfter(h, s, c);
    RemovedFrom(NamesAt(s, m), s.names, h.domainOf(m), m, n, c.now);
    VerbWordIsBare(h, s, c);
    UnheldResolvesNowhere(Do(h, s, c).store, h.domainOf(m), n);
  }

  /** The document decides: an activation goes through only with one that lists the name on the
      domain, a park or remove only with one that does not. */
  lemma DocumentMustAgree(h: Host, s: Store, c: Call)
    requires c.op.OpName? && Do(h, s, c).error.None?
    ensures Alias(h.domainOf(c.op.slot), Word(c.op.name)) in h.aliases(c.op.log) <==> c.op.verb.Activate?
  {
    CallStores(h, s, c);
    ClaimsAreListed(h.aliases(c.op.log), h.domainOf(c.op.slot), Word(c.op.name));
  }

  /** Parking and activating again, by whatever documents, gives back the entry and changes no
      other. */
  lemma ParkThenActivate(h: Host, s: Store, park: Call, again: Call, e: NameEntry)
    requires Inv(h, s) && park.op.OpName? && park.op.verb.Park? && again.op.OpName? && again.op.verb.Activate?
    requires park.op.slot == again.op.slot && Word(park.op.name) == Word(again.op.name)
    requires e in NamesAt(s, park.op.slot) && (e.name == Word(park.op.name) ==> e.enabled)
    requires Do(h, s, park).error.None? && Do(h, Do(h, s, park).store, again).error.None?
    ensures e in NamesAt(Do(h, Do(h, s, park).store, again).store, park.op.slot)
  {
    var t := Do(h, s, park).store;
    var was := ParkMeans(h, s, park);
    assert SlotOk(s, park.op.slot);
    StepKeepsInv(h, s, park);
    var at := ActivateMeans(h, t, again);
    if e.name == Word(park.op.name) {
      OneEntryPerName(NamesAt(s, park.op.slot), e, was);
      assert NameEntry(e.name, false, was.createdAt) in NamesAt(t, park.op.slot);
    }
  }
}
