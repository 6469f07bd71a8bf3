/** Which names may be bound, written out, and that over every run no slot holds another
    (did-hosting-common/src/server/mnemonic.rs:187-309, did-hosting-control/src/did_ops.rs:949-1035,
    1268-1375). */
module NameRules {
  import opened Common
  import opened Paths
  import opened AgentNames
  import opened SlotStore
  import opened SlotInvariant
  import opened StoringCalls
  import opened NameOwnership

  /** The words the operator keeps for itself. */
  predicate Withheld(word: string) {
    word in {"abuse", "admin", "administrator", "api", "help", "hostmaster", "info", "postmaster", "root", "security",
             "support", "sysadmin", "webmaster", "well-known"}
  }

  predicate LowerOrDigit(c: char) {
    'a' <= c <= 'z' || '0' <= c <= '9'
  }

  /** Two to 63 lower-case letters, digits and hyphens, no hyphen at either end. */
  predicate WellSpelt(word: string) {
    && 2 <= |word| <= 63 && (forall i :: 0 <= i < |word| ==> LowerOrDigit(word[i]) || word[i] == '-')
    && word[0] != '-' && word[|word| - 1] != '-'
  }

  /** The name without a leading `@`. */
  function Word(n: string): string {
    if |n| > 0 && n[0] == '@' then n[1..] else n
  }

  /** A name this slot may hold: the community name, if it is the domain's own slot, or a
      well-spelt word that is not withheld. */
  predicate MayHold(m: string, n: string) {
    (Word(n) == "" && m == ".well-known") || (WellSpelt(Word(n)) && !Withheld(Word(n)))
  }

  /** A name this slot may not even ask for. */
  predicate MayNotAsk(m: string, n: string) {
    (Word(n) == "" && m != ".well-known") || Withheld(Word(n))
  }

  lemma WithheldIsReserved(word: string)
    ensures Withheld(word) <==> IsReserved(word)
  {
    if Withheld(word) {
      assert ReservedName(0) == "abuse" && ReservedName(1) == "admin" && ReservedName(2) == "administrator";
      assert ReservedName(3) == "api" && ReservedName(4) == "help" && ReservedName(5) == "hostmaster";
      assert ReservedName(6) == "info" && ReservedName(7) == "postmaster" && ReservedName(8) == "root";
      assert ReservedName(9) == "security" && ReservedName(10) == "support" && ReservedName(11) == "sysadmin";
      assert ReservedName(12) == "webmaster" && ReservedName(13) == "well-known";
    }
  }

  lemma ReservedIsWellSpelt(i: nat)
    requires i < RESERVED_COUNT
    ensures WellSpelt(ReservedName(i))
  {
  }

  /** No withheld word is misspelt. */
  lemma WithheldIsWellSpelt(word: string)
    requires Withheld(word)
    ensures WellSpelt(word)
  {
    WithheldIsReserved(word);
    var i: nat :| i < RESERVED_COUNT && ReservedName(i) == word;
    ReservedIsWellSpelt(i);
  }

  lemma WellSpeltIsSegment(word: string)
    ensures WellSpelt(word) <==> SegmentOk(word)
  {
    if SegmentOk(word) {
      assert forall i :: 0 <= i < |word| ==> word[i] in word;
    }
    if WellSpelt(word) {
      assert word[0] in word && word[|word| - 1] in word;
    }
  }

  /** The three answers a slot gets for a name. */
  lemma BindingMeans(m: string, n: string)
    ensures ValidateBinding(n, m) == None <==> MayHold(m, n)
    ensures ValidateBinding(n, m) == Some(NameReserved) <==> MayNotAsk(m, n)
    ensures ValidateBinding(n, m) in {None, Some(NameReserved), Some(NameMalformed)}
  {
    WithheldIsReserved(Word(n));
    WellSpeltIsSegment(Word(n));
    if Withheld(Word(n)) { WithheldIsWellSpelt(Word(n)); }
  }

  // ---------------------------------------------------------------------
  // Every run
  // ---------------------------------------------------------------------

  /** Whoever the index names may hold the name. */
  predicate HolderMay(s: Store, key: (string, string)) {
    key in s.names ==> MayHold(s.names[key], key.1)
  }

  lemma ClaimedMayBeHeld(h: Host, s: Store, c: Call, n: string)
    requires Inv(h, s) && !c.op.OpCreate? && Decide(h, s, c).Ok? && n in Decide(h, s, c).value.claimed
    ensures MayHold(c.op.slot, n)
  {
    var m := c.op.slot;
    BatchOfCall(h, s, c);
    CallStores(h, s, c);
    assert SlotOk(s, m);
    if Reconciles(c.op) {
      ReconcileMeans(NamesAt(s, m), s.names, h.domainOf(m), m, ClaimsOf(h, c), c.now);
      BindingMeans(m, n);
    } else {
      VerbMeans(NamesAt(s, m), s.names, h.domainOf(m), m, Bare(c.op.name), c.op.verb, c.now);
      BindingMeans(m, c.op.name);
    }
  }

  lemma StepKeepsHolder(h: Host, s: Store, c: Call, key: (string, string))
    requires Inv(h, s) && Plausible(c) && HolderMay(s, key)
    ensures HolderMay(Do(h, s, c).store, key)
  {
    var t := Do(h, s, c).store;
    NameStep(h, s, c, key);
    if key in t.names && key !in s.names {
      assert Holder(s.names, key) == None;
      if Do(h, s, c).error.Some? { RefusalChangesNothing(h, s, c); }
      IndexAt(h, s, Decide(h, s, c).value, key);
      BatchOfCall(h, s, c);
      ClaimedMayBeHeld(h, s, c, key.1);
    }
  }

  lemma {:induction false} RunKeepsHolders(h: Host, s: Store, calls: seq<Call>)
    requires Inv(h, s) && AllPlausible(calls) && forall key :: HolderMay(s, key)
    ensures forall key :: HolderMay(Run(h, s, calls), key)
    decreases calls
  {
    if calls != [] {
      forall key ensures HolderMay(Do(h, s, calls[0]).store, key) { StepKeepsHolder(h, s, calls[0], key); }
      StepKeepsInv(h, s, calls[0]);
      RunKeepsHolders(h, Do(h, s, calls[0]).store, calls[1..]);
    }
  }

  /** After any run from an empty store, no index row and no record holds a withheld word, with
      or without its `@`, nor a misspelt one; and the community name is held by the domain's
      own slot alone. */
  lemma NoneHeldThatMayNot(h: Host, calls: seq<Call>)
    requires AllPlausible(calls)
    ensures
      var t := Run(h, EMPTY, calls);
      && (forall key :: key in t.names ==> MayHold(t.names[key], key.1))
      && (forall m, e :: m in t.records && e in t.records[m].names ==> MayHold(m, e.name))
  {
    EmptyIsGood(h);
    RunKeepsHolders(h, EMPTY, calls);
    RunKeepsInv(h, EMPTY, calls);
    var t := Run(h, EMPTY, calls);
    forall key | key in t.names ensures MayHold(t.names[key], key.1) { assert HolderMay(t, key); }
    forall m, e | m in t.records && e in t.records[m].names ensures MayHold(m, e.name) {
      assert NameOk(h, t, m, e) && HolderMay(t, (h.domainOf(m), e.name));
    }
  }

  // ---------------------------------------------------------------------
  // Asking for one
  // ---------------------------------------------------------------------

  /** The call asks for the name: its document lists it on the slot's domain, or it is the
      verb's own. */
  predicate AsksFor(h: Host, c: Call, n: string) {
    match c.op
    case OpPublish(slot, log) => Alias(h.domainOf(slot), n) in h.aliases(log)
    case OpRegister(slot, log, _) => Alias(h.domainOf(slot), n) in h.aliases(log)
    case OpName(_, name, _, _) => name == n
    case _ => false
  }

  /** A publish, a register or a verb that asks for what its slot may not is refused, and
      nothing changes. */
  lemma WithheldIsRefused(h: Host, s: Store, c: Call, n: string)
    requires AsksFor(h, c, n) && MayNotAsk(c.op.slot, n)
    ensures Do(h, s, c).error.Some? && Do(h, s, c).store == s
  {
    var m := c.op.slot;
    BindingMeans(m, n);
    if Reconciles(c.op) {
      ClaimsAreListed(h.aliases(c.op.log), h.domainOf(m), n);
      RefusedIff(s.names, h.domainOf(m), m, ClaimsOf(h, c));
      assert Objection(s.names, h.domainOf(m), m, n) == Some(NameReserved);
      CallStores(h, s, c);
    }
  }

  /** A claim that stands in the way of a publish or register. */
  predicate Blocks(h: Host, s: Store, m: string, n: string) {
    MayNotAsk(m, n) || (MayHold(m, n) && HeldByOther(s.names, h.domainOf(m), n, m))
  }

  /** Reconciliation is refused exactly when some name the document lists on the domain is
      withheld from the slot, or may be held and is another slot's; a misspelt one is passed
      over. */
  lemma ReconcilesIff(h: Host, s: Store, c: Call)
    requires Reconciles(c.op)
    ensures
      var m, domain := c.op.slot, h.domainOf(c.op.slot);
      Reconcile(NamesAt(s, m), s.names, domain, m, ClaimsOf(h, c), c.now).Ok?
      <==> forall n :: AsksFor(h, c, n) ==> !Blocks(h, s, m, n)
  {
    var m, domain := c.op.slot, h.domainOf(c.op.slot);
    RefusedIff(s.names, domain, m, ClaimsOf(h, c));
    forall n ensures n in ClaimsOf(h, c) <==> AsksFor(h, c, n) { ClaimsAreListed(h.aliases(c.op.log), domain, n); }
    forall n ensures Objection(s.names, domain, m, n).Some? <==> Blocks(h, s, m, n) { BindingMeans(m, n); }
  }

  lemma {:induction false} FirstObjectionIs(index: Index, domain: string, m: string, claims: seq<string>, i: nat)
    requires i < |claims| && Objection(index, domain, m, claims[i]).Some?
    requires forall j :: 0 <= j < i ==> Objection(index, domain, m, claims[j]).None?
    ensures FirstObjection(index, domain, m, claims) == Objection(index, domain, m, claims[i])
  {
    if i > 0 {
      FirstObjectionIs(index, domain, m, claims[1..], i - 1);
    }
  }

  /** The first claim in the way, in the order of the document, decides the answer: reserved if it is
      withheld from the slot, taken if it is another slot's. */
  lemma FirstInTheWayAnswers(h: Host, s: Store, c: Call, i: nat)
    requires Reconciles(c.op) && i < |ClaimsOf(h, c)| && Blocks(h, s, c.op.slot, ClaimsOf(h, c)[i])
    requires forall j :: 0 <= j < i ==> !Blocks(h, s, c.op.slot, ClaimsOf(h, c)[j])
    ensures
      var m := c.op.slot;
      Reconcile(NamesAt(s, m), s.names, h.domainOf(m), m, ClaimsOf(h, c), c.now)
      == Err(if MayNotAsk(m, ClaimsOf(h, c)[i]) then NameReserved else NameTaken)
  {
    var m, domain, claims := c.op.slot, h.domainOf(c.op.slot), ClaimsOf(h, c);
    forall j | 0 <= j <= i
      ensures Objection(s.names, domain, m, claims[j]).Some? <==> Blocks(h, s, m, claims[j])
      ensures Objection(s.names, domain, m, claims[j]) == Some(NameReserved) <==> MayNotAsk(m, claims[j])
    {
      BindingMeans(m, claims[j]);
    }
    FirstObjectionIs(s.names, domain, m, claims, i);
  }

  /** After a publish or register the slot serves exactly the names that the document lists on
      the domain and that the slot may hold. */
  lemma ServesWhatItMay(h: Host, s: Store, c: Call, n: string)
    requires Inv(h, s) && Reconciles(c.op) && Do(h, s, c).error.None?
    ensures
      var m, t := c.op.slot, Do(h, s, c).store;
      && m in t.records
      && ((exists e :: e in t.records[m].names && e.name == n && e.enabled) <==> AsksFor(h, c, n) && MayHold(m, n))
  {
    var m := c.op.slot;
    assert SlotOk(s, m);
    CallStores(h, s, c);
    ReconcileMeans(NamesAt(s, m), s.names, h.domainOf(m), m, ClaimsOf(h, c), c.now);
    ClaimsAreListed(h.aliases(c.op.log), h.domainOf(m), n);
    BindingMeans(m, n);
    var names, b := NamesAt(s, m), Decide(h, s, c).value;
    if n in b.claimed {
      if n in NamesIn(names) {
        var e :| e in names && e.name == n;
        assert NameEntry(n, true, e.createdAt) in b.record.value.names;
      } else {
        assert NameEntry(n, true, c.now) in b.record.value.names;
      }
    }
  }
}
