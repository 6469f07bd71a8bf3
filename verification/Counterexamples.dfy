/** Concrete calls and schedules that break what the comments promise: the conditions proved
    elsewhere do fail (did-hosting-control/src/did_ops.rs:1084-1162, 1278-1393). */
module Counterexamples {
  import opened Common
  import opened Paths
  import opened LogText
  import opened WitnessFile
  import opened AgentNames
  import opened Rollback
  import opened SlotStore
  import opened SlotInvariant
  import opened SlotFrame
  import opened NameOwnership
  import opened StoringCalls
  import opened ServedNames
  import opened Lookup
  import opened PathLock
  import opened LockLimits
  import opened Quota
  import opened SlotHistory
  import opened StaleCommits
  import opened ConcurrentQuotas
  import Gates = LogGates

  /** Every line is a valid, unwitnessed first entry. */
  function Lenient(): Gates.Library {
    Gates.Library((line: string) => Some(Gates.Entry(VersionId(1, ""), false, Some(Gates.WEBVH))),
                  (prev: Option<Gates.Checked>, e: Gates.Entry) => Some(Gates.Params(None, None)),
                  (e: Gates.Entry, p: Proof) => true)
  }

  /** The log "x" claims the name "al"; any other log claims "bo". */
  function Deployment(): Host {
    Host(Lenient(), (m: string) => "d",
         (log: string) => if log == "x" then [Alias("d", "al")] else [Alias("d", "bo")],
         (did: string) => None)
  }

  function AlServed(): Record {
    Record("o", 0, 0, 1, None, 1, false, None, [NameEntry("al", true, 0)])
  }

  /** One slot, publishing "x" and serving "al". */
  function Published(): Store {
    Store(map["ab" := AlServed()], map["ab" := "x"], map[], map[OwnerKey("o", "ab") := "ab"], map[("d", "al") := "ab"])
  }

  /** Its owner activates "bo" with a document that has dropped "al". */
  function ActivateBo(): Call {
    Call(Auth("o", false, None, None), OpName("ab", "bo", "y", Activate), 1)
  }

  lemma TwoLettersAreAPath(a: char, b: char)
    requires 'a' <= a <= 'z' && 'a' <= b <= 'z'
    ensures MnemonicOk([a, b])
  {
    var none: seq<string> := [[]];
    assert none[1..] == [] && Segments([]) == none;
    assert [b][1..] == [] && [b] + none[0] == [b];
    assert Segments([b]) == [[b]] + none[1..] == [[b]];
    assert [a, b][1..] == [b] && [[b]][1..] == [] && [a] + [[b]][0] == [a, b];
    assert Segments([a, b]) == [[a, b]] + [[b]][1..] == [[a, b]];
  }

  lemma LogOfOneLine(c: char)
    requires !Space(c)
    ensures EntryLines([c]) == [[c]]
  {
    SplitLine([c], []);
    assert [c][1..] == [] && [c][..0] == [];
    assert TrimRight([c]) == [c] && TrimLeft([c]) == [c];
    assert TrimmedNonBlank([[c]]) == [[c]];
  }

  lemma PublishedIsGood()
    ensures Inv(Deployment(), Published()) && AllServedClaimed(Deployment(), Published())
  {
    TwoLettersAreAPath('a', 'b');
    AlIsClaimed();
  }

  lemma AlIsClaimed()
    ensures Claims(Deployment().aliases("x"), "d") == ["al"]
    ensures Claims(Deployment().aliases("y"), "d") == ["bo"]
  {
    assert [Alias("d", "al")][..0] == [];
    assert [Alias("d", "bo")][..0] == [];
  }

  lemma GateOpens(c: char, file: Option<Stored>, published: nat)
    requires !Space(c)
    ensures Gates.PublishAccepts(Lenient(), EntryLines([c]), file, published)
    ensures DidIdOf(Lenient(), [c]) == Some(Gates.WEBVH)
  {
    var lib := Lenient();
    LogOfOneLine(c);
    var es := Gates.Entries(lib, [[c]]);
    assert es[1..] == [];
    assert Gates.ChainFrom(lib, None, es) == [Gates.Params(None, None)];
  }

  /** No reserved name has two letters. */
  lemma TwoLettersMayBeBound(name: string, m: string)
    requires |name| == 2 && SegmentOk(name)
    ensures ValidateBinding(name, m) == None
  {
    forall i: nat | i < RESERVED_COUNT ensures ReservedName(i) != name {
      assert |ReservedName(i)| > 2;
    }
  }

  lemma BoMayBeBound(m: string)
    ensures ValidateBinding("bo", m) == None
  {
    TwoLettersMayBeBound("bo", m);
  }

  lemma AcceptsTheDocument()
    ensures
      var c := ActivateBo();
      Republish(Deployment(), Published(), c.auth, "ab", "y", 1).Ok?
      && Republish(Deployment(), Published(), c.auth, "ab", "y", 1).value.names == AlServed().names
  {
    TwoLettersAreAPath('a', 'b');
    GateOpens('y', None, EntryCount(Some("x")));
  }

  lemma GoesThrough(h: Host, s: Store, auth: Auth, m: string, name: string, log: string, now: nat)
    requires ValidateBinding(name, m) == None && Republish(h, s, auth, m, log, now).Ok?
    requires Bare(name) in Claims(h.aliases(log), h.domainOf(m)) && !HeldByOther(s.names, h.domainOf(m), Bare(name), m)
    ensures Do(h, s, Call(auth, OpName(m, name, log, Activate), now)).error.None?
  {
    assert NameOp(h, s, auth, m, name, log, Activate, now).Ok?;
  }

  lemma ActivationSucceeds()
    ensures Do(Deployment(), Published(), ActivateBo()).error.None?
  {
    AlIsClaimed();
    AcceptsTheDocument();
    BoMayBeBound("ab");
    GoesThrough(Deployment(), Published(), ActivateBo().auth, "ab", "bo", "y", 1);
  }

  lemma AlIsDropped()
    ensures !OthersClaimed(Deployment(), Published(), ActivateBo())
  {
    AlIsClaimed();
    var e := NameEntry("al", true, 0);
    assert e in NamesAt(Published(), "ab") && e.name != Bare("bo");
  }

  /** The promise is broken: the activation succeeds, and "al" is still served although
      the document that now stands does not claim it. */
  lemma ActivationLeavesAnotherBehind()
    ensures Inv(Deployment(), Published()) && AllServedClaimed(Deployment(), Published())
    ensures Do(Deployment(), Published(), ActivateBo()).error.None?
    ensures !AllServedClaimed(Deployment(), Do(Deployment(), Published(), ActivateBo()).store)
  {
    PublishedIsGood();
    ActivationSucceeds();
    AlIsDropped();
    ServedStaysClaimedIff(Deployment(), Published(), ActivateBo());
  }

  // ---------------------------------------------------------------------
  // A name that changes hands without a remove
  // ---------------------------------------------------------------------

  /** Besides "ab", which serves "al", there is the empty slot "cd" of another owner. */
  function WithNeighbour(): Store {
    var s := Published();
    s.(records := s.records["cd" := Record("p", 0, 0, 0, None, 0, false, None, [])],
       owners := s.owners[OwnerKey("p", "cd") := "cd"])
  }

  lemma WithNeighbourIsGood()
    ensures Inv(Deployment(), WithNeighbour())
  {
    TwoLettersAreAPath('a', 'b');
    TwoLettersAreAPath('c', 'd');
    assert OwnerKey("o", "ab")[6] == 'o' && OwnerKey("p", "cd")[6] == 'p';
  }

  /** The holder publishes a document that has dropped "al". */
  function DropAl(): Call {
    Call(Auth("o", false, None, None), OpPublish("ab", "y"), 1)
  }

  /** The neighbour publishes one that claims it. */
  function TakeAl(): Call {
    Call(Auth("p", false, None, None), OpPublish("cd", "x"), 2)
  }

  lemma PublishGoesThrough(h: Host, s: Store, c: Call)
    requires c.op.OpPublish? && Republish(h, s, c.auth, c.op.slot, c.op.log, c.now).Ok?
    requires forall n :: n in Claims(h.aliases(c.op.log), h.domainOf(c.op.slot)) ==>
      Objection(s.names, h.domainOf(c.op.slot), c.op.slot, n) == None
    ensures Do(h, s, c).error.None?
  {
    RefusedIff(s.names, h.domainOf(c.op.slot), c.op.slot, Claims(h.aliases(c.op.log), h.domainOf(c.op.slot)));
    assert Publish(h, s, c.auth, c.op.slot, c.op.log, c.now).Ok?;
  }

  lemma DropAlSucceeds()
    ensures Do(Deployment(), WithNeighbour(), DropAl()).error.None?
  {
    var h, s, c := Deployment(), WithNeighbour(), DropAl();
    TwoLettersAreAPath('a', 'b');
    GateOpens('y', None, EntryCount(Some("x")));
    AlIsClaimed();
    BoMayBeBound("ab");
    PublishGoesThrough(h, s, c);
  }

  lemma NameIsFreed()
    ensures Holder(Do(Deployment(), WithNeighbour(), DropAl()).store.names, ("d", "al")) == None
  {
    var h, s, c := Deployment(), WithNeighbour(), DropAl();
    DropAlSucceeds();
    WithNeighbourIsGood();
    AlIsClaimed();
    assert NameEntry("al", true, 0) in NamesAt(s, "ab");
    assert GivesUp(h, s, c, "ab", "al");
    NameStep(h, s, c, ("d", "al"));
  }

  /** Nothing of the neighbour's slot has changed. */
  predicate NeighbourWaits(s: Store) {
    && Find(s.records, "cd") == Some(Record("p", 0, 0, 0, None, 0, false, None, []))
    && Find(s.logs, "cd") == None && Find(s.proofs, "cd") == None
  }

  lemma TakeAlSucceeds(s: Store)
    requires Holder(s.names, ("d", "al")) == None && NeighbourWaits(s)
    ensures Do(Deployment(), s, TakeAl()).error.None?
  {
    var h, c := Deployment(), TakeAl();
    TwoLettersAreAPath('c', 'd');
    GateOpens('x', None, 0);
    AlIsClaimed();
    TwoLettersMayBeBound("al", "cd");
    PublishGoesThrough(h, s, c);
  }

  lemma AlIsTaken(s: Store)
    requires Inv(Deployment(), s) && Do(Deployment(), s, TakeAl()).error.None?
    ensures Holder(Do(Deployment(), s, TakeAl()).store.names, ("d", "al")) == Some("cd")
  {
    var h, c := Deployment(), TakeAl();
    AlIsClaimed();
    TwoLettersMayBeBound("al", "cd");
    StepKeepsInv(h, s, c);
    PublishServesExactlyClaims(h, s, c, "al");
    var t := Do(h, s, c).store;
    var e :| e in t.records["cd"].names && e.enabled && e.name == "al";
    assert NameOk(h, t, "cd", e);
  }

  lemma RunOfTwo(h: Host, s: Store, c: Call, d: Call)
    ensures Run(h, s, [c, d]) == Do(h, Do(h, s, c).store, d).store
  {
    assert [c, d][1..] == [d] && [d][1..] == [];
    assert Run(h, Do(h, s, c).store, [d]) == Do(h, Do(h, s, c).store, d).store;
  }

  lemma NeighbourStillWaits()
    ensures NeighbourWaits(Do(Deployment(), WithNeighbour(), DropAl()).store)
  {
    OffTargetStays(Deployment(), WithNeighbour(), DropAl(), "cd");
  }

  /** No remove is needed for a name to change hands: its holder publishes without it, and
      the neighbour publishes with it. */
  lemma NameChangesHands()
    ensures Inv(Deployment(), WithNeighbour())
    ensures Holder(WithNeighbour().names, ("d", "al")) == Some("ab")
    ensures Holder(Run(Deployment(), WithNeighbour(), [DropAl(), TakeAl()]).names, ("d", "al")) == Some("cd")
  {
    var h, s := Deployment(), WithNeighbour();
    WithNeighbourIsGood();
    NameIsFreed();
    NeighbourStillWaits();
    StepKeepsInv(h, s, DropAl());
    TakeAlSucceeds(Do(h, s, DropAl()).store);
    AlIsTaken(Do(h, s, DropAl()).store);
    RunOfTwo(h, s, DropAl(), TakeAl());
  }

  // ---------------------------------------------------------------------
  // A DID published in another DID's slot
  // ---------------------------------------------------------------------

  /** The DID of every log belongs to the slot "ab". */
  function Shared(): Host {
    Deployment().(slotOf := (did: string) => Some("ab"))
  }

  /** "ab" holds its DID; "cd" is still empty. */
  function OneEach(): Store {
    Store(map["ab" := Record("o", 0, 0, 1, Some(Gates.WEBVH), 1, false, None, []),
              "cd" := Record("p", 0, 0, 0, None, 0, false, None, [])],
          map["ab" := "x"], map[],
          map[OwnerKey("o", "ab") := "ab", OwnerKey("p", "cd") := "cd"], map[])
  }

  function PublishElsewhere(): Call {
    Call(Auth("p", false, None, None), OpPublish("cd", "y"), 1)
  }

  lemma OneEachIsGood()
    ensures Inv(Shared(), OneEach()) && AllInPlace(Shared(), OneEach())
  {
    TwoLettersAreAPath('a', 'b');
    TwoLettersAreAPath('c', 'd');
    assert OwnerKey("o", "ab")[6] == 'o' && OwnerKey("p", "cd")[6] == 'p';
  }

  lemma BoIsReconciledFor(m: string)
    ensures Reconcile([], map[], "d", m, ["bo"], 1) == Ok(Plan([NameEntry("bo", true, 1)], ["bo"], []))
  {
    BoMayBeBound(m);
    assert ["bo"][1..] == [];
    assert Objection(map[], "d", m, "bo") == None;
    assert FirstObjection(map[], "d", m, ["bo"]) == FirstObjection(map[], "d", m, []) == None;
    assert Bindables(["bo"], m) == ["bo"] + Bindables([], m);
    assert Bindables(["bo"], m) == ["bo"];
    assert Asserted([], ["bo"], 1) == [NameEntry("bo", true, 1)];
    assert StillParked([], ["bo"]) + Asserted([], ["bo"], 1) == [NameEntry("bo", true, 1)];
  }

  /** A publish of "y" at version `n` of a slot. */
  function BoBatch(m: string, owner: string, n: nat): Batch {
    Batch(m, Put(Record(owner, 0, 1, n, Some(Gates.WEBVH), 1, false, None, [NameEntry("bo", true, 1)])), Put("y"), Keep,
          None, None, ["bo"], [])
  }

  lemma PublishesElsewhere()
    ensures Decide(Shared(), OneEach(), PublishElsewhere()) == Ok(BoBatch("cd", "p", 1))
  {
    TwoLettersAreAPath('c', 'd');
    GateOpens('y', None, 0);
    AlIsClaimed();
    BoIsReconciledFor("cd");
  }

  lemma BoResolves()
    ensures
      var t := Do(Shared(), OneEach(), PublishElsewhere()).store;
      && ResolveName(t, "d", "bo") == Some(Gates.WEBVH)
      && Find(t.records, "ab") == Find(OneEach().records, "ab")
  {
    PublishesElsewhere();
    var e := NameEntry("bo", true, 1);
    assert e in [e];
  }

  /** A publish does not check the DID's path, so the name "bo" comes to resolve to a DID
      whose own names do not include it. */
  lemma DirectionsDisagree()
    ensures Inv(Shared(), OneEach()) && AllInPlace(Shared(), OneEach())
    ensures
      var o := Do(Shared(), OneEach(), PublishElsewhere());
      && o.error.None?
      && ResolveName(o.store, "d", "bo") == Some(Gates.WEBVH)
      && NamesOf(Shared(), o.store, Auth("root", true, None, None), Gates.WEBVH) == []
  {
    OneEachIsGood();
    PublishesElsewhere();
    BoResolves();
  }

  // ---------------------------------------------------------------------
  // One name, two slots
  // ---------------------------------------------------------------------

  function PublishHere(): Call {
    Call(Auth("o", false, None, None), OpPublish("ab", "y"), 1)
  }

  lemma RepublishesHere()
    ensures Republish(Shared(), OneEach(), PublishHere().auth, "ab", "y", 1)
         == Ok(Record("o", 0, 1, 2, Some(Gates.WEBVH), 1, false, None, []))
  {
    TwoLettersAreAPath('a', 'b');
    GateOpens('y', None, EntryCount(Some("x")));
  }

  lemma PublishesHere()
    ensures Decide(Shared(), OneEach(), PublishHere()) == Ok(BoBatch("ab", "o", 2))
  {
    RepublishesHere();
    AlIsClaimed();
    BoIsReconciledFor("ab");
  }

  lemma BothRegister()
    ensures !NamesSingle(Shared(),
                         Commit(Shared(), Commit(Shared(), OneEach(), BoBatch("ab", "o", 2)), BoBatch("cd", "p", 1)))
  {
    var t := Commit(Shared(), Commit(Shared(), OneEach(), BoBatch("ab", "o", 2)), BoBatch("cd", "p", 1));
    var e := NameEntry("bo", true, 1);
    assert e in [e];
    assert Registers(Shared(), t, "ab", e, ("d", "bo")) && Registers(Shared(), t, "cd", e, ("d", "bo"));
  }

  /** The lock is per path: two publishes on different paths find the same name free,
      both commit, and one name ends up served by two slots. */
  lemma LockDoesNotGuardNames() returns (events: seq<Event>)
    ensures Inv(Shared(), OneEach())
    ensures Schedule(Shared(), Start(OneEach()), events)
    ensures !NamesSingle(Shared(), Play(Shared(), Start(OneEach()), events).store)
  {
    OneEachIsGood();
    PublishesHere();
    PublishesElsewhere();
    events := BothPlanThenCommit(Shared(), OneEach(), PublishHere(), PublishElsewhere());
    BothRegister();
  }

  // ---------------------------------------------------------------------
  // A rollback to another document
  // ---------------------------------------------------------------------

  /** The lines "x" and "y" name two DIDs, of the slots "ab" and "cd". */
  function TwoDids(): Gates.Library {
    Lenient().(parse := (line: string) => Some(Gates.Entry(VersionId(1, ""), false, Some(Gates.WEBVH + line))))
  }

  /** Of all logs, only the one that goes on from "y" to "x" claims the name "al". */
  function Moved(): Host {
    Host(TwoDids(), (m: string) => "d",
         (log: string) => if log == "y" + "\n" + "x" then [Alias("d", "al")] else [Alias("d", "bo")],
         (did: string) => if did == Gates.WEBVH + "x" then Some("ab") else Some("cd"))
  }

  /** The slot "ab" has gone on to its own DID and serves "al". */
  function TwoEntries(): Store {
    Store(map["ab" := AlServed().(didId := Some(Gates.WEBVH + "x"), size := 3, versions := 2)],
          map["ab" := "y" + "\n" + "x"], map[], map[OwnerKey("o", "ab") := "ab"], map[("d", "al") := "ab"])
  }

  function BackToFirst(): Call {
    Call(Auth("o", false, None, None), OpRollBack("ab", None), 1)
  }

  lemma TwoRawLines()
    ensures RawLines("y" + "\n" + "x") == ["y", "x"]
  {
    SplitLine("y", "x");
    SplitLine("x", []);
    var lines := ["y", "x"];
    assert Split("y" + "\n" + "x") == ["y"] + ["x"] == lines;
    assert lines[1..] == ["x"] && WithoutReturns(lines) == ["y"] + ["x"] == lines;
    assert Trim("x") == "x" && Trim("y") == "y" by { LogOfOneLine('x'); LogOfOneLine('y'); }
    assert NonBlank(["x"]) == ["x"] + NonBlank([]) == ["x"];
    assert NonBlank(lines) == ["y"] + NonBlank(["x"]) == lines;
  }

  lemma CutsToY()
    ensures Cuts("y" + "\n" + "x", None) && CutLog("y" + "\n" + "x", None) == "y"
  {
    TwoRawLines();
    assert ["y", "x"][..1] == ["y"];
  }

  lemma TwoEntriesIsGood()
    ensures Inv(Moved(), TwoEntries()) && AllServedClaimed(Moved(), TwoEntries()) && AllInPlace(Moved(), TwoEntries())
  {
    TwoLettersAreAPath('a', 'b');
    assert [Alias("d", "al")][..0] == [];
    assert Claims([Alias("d", "al")], "d") == ["al"];
  }

  lemma OldDidIsElsewhere()
    ensures DidIdOf(TwoDids(), "y") == Some(Gates.WEBVH + "y") && Moved().slotOf(Gates.WEBVH + "y") == Some("cd")
  {
    LogOfOneLine('y');
    assert (Gates.WEBVH + "y")[10] != (Gates.WEBVH + "x")[10];
  }

  lemma OldDocumentDropsAl()
    ensures Claims(Moved().aliases("y"), "d") == ["bo"]
  {
    assert |"y"| != |"y" + "\n" + "x"|;
    assert [Alias("d", "bo")][..0] == [];
  }

  lemma RollsBack()
    ensures Do(Moved(), TwoEntries(), BackToFirst()).error.None?
  {
    TwoLettersAreAPath('a', 'b');
    TwoRawLines();
  }

  lemma RollbackLeavesAl()
    ensures !CutClaims(Moved(), TwoEntries(), BackToFirst())
  {
    CutsToY();
    OldDocumentDropsAl();
    assert NameEntry("al", true, 0) in NamesAt(TwoEntries(), "ab");
  }

  lemma RollbackLeavesOldDid()
    ensures !NamesOwnDid(Moved(), TwoEntries(), BackToFirst())
  {
    CutsToY();
    OldDidIsElsewhere();
  }

  /** A rollback checks neither names nor DID: "al" stays served although the document that
      now stands claims another name, and the slot holds a DID that maps to another slot. */
  lemma RollbackBreaksBoth()
    ensures Inv(Moved(), TwoEntries())
    ensures AllServedClaimed(Moved(), TwoEntries()) && AllInPlace(Moved(), TwoEntries())
    ensures
      var o := Do(Moved(), TwoEntries(), BackToFirst());
      o.error.None? && !AllServedClaimed(Moved(), o.store) && !AllInPlace(Moved(), o.store)
  {
    TwoEntriesIsGood();
    RollsBack();
    RollbackLeavesAl();
    ServedStaysClaimedIff(Moved(), TwoEntries(), BackToFirst());
    RollbackLeavesOldDid();
    StaysInPlaceIff(Moved(), TwoEntries(), BackToFirst());
  }

  // ---------------------------------------------------------------------
  // A delete between plan and commit
  // ---------------------------------------------------------------------

  function DeleteElsewhere(): Call {
    Call(Auth("p", false, None, None), OpDelete("cd"), 1)
  }

  /** The lock does not hold off a delete: the slot comes back without its owner key, and
      usage and listings no longer see it. */
  lemma LockDoesNotStopDeletes() returns (events: seq<Event>)
    ensures Inv(Shared(), OneEach())
    ensures Schedule(Shared(), Start(OneEach()), events)
    ensures !OwnersExact(Play(Shared(), Start(OneEach()), events).store)
  {
    OneEachIsGood();
    PublishesElsewhere();
    TwoLettersAreAPath('c', 'd');
    assert Delete(OneEach(), DeleteElsewhere().auth, "cd").Ok?;
    events := DeleteBetween(Shared(), OneEach(), PublishElsewhere(), DeleteElsewhere());
  }

  // ---------------------------------------------------------------------
  // A transfer past a quota
  // ---------------------------------------------------------------------

  /** "p" may have one slot, and has it. */
  function Full(): Auth {
    Auth("p", false, Some(1), None)
  }

  function GiveAway(): Call {
    Call(Auth("o", false, None, None), OpChangeOwner("ab", "p", true), 1)
  }

  lemma GivesAway()
    ensures Do(Shared(), OneEach(), GiveAway()).error.None?
  {
    TwoLettersAreAPath('a', 'b');
    assert ChangeOwner(OneEach(), GiveAway().auth, "ab", "p", true, 1).Ok?;
  }

  /** A transfer asks no quota of the new owner: it ends up with two slots where its cap is
      one. */
  lemma TransferOverruns()
    ensures Inv(Shared(), OneEach()) && Within(OneEach().records, Full())
    ensures
      var o := Do(Shared(), OneEach(), GiveAway());
      o.error.None? && !Within(o.store.records, Full())
  {
    OneEachIsGood();
    GivesAway();
    assert OwnedBy(OneEach().records, "p") == {"cd"};
    TransferKeepsQuotaIff(Shared(), OneEach(), GiveAway(), Full());
  }

  // ---------------------------------------------------------------------
  // A publish that rewrites history
  // ---------------------------------------------------------------------

  /** The write path never compares logs: the only published entry is replaced by another. */
  lemma PublishRewritesHistory()
    ensures Inv(Deployment(), WithNeighbour())
    ensures
      var o := Do(Deployment(), WithNeighbour(), DropAl());
      o.error.None? && !GoesOn(WithNeighbour(), o.store, "ab")
  {
    WithNeighbourIsGood();
    DropAlSucceeds();
    LogOfOneLine('x');
    LogOfOneLine('y');
    assert ["x"][0] != ["y"][0];
    GoesOnIff(Deployment(), WithNeighbour(), DropAl(), "ab");
  }

  // ---------------------------------------------------------------------
  // A flag that is lost
  // ---------------------------------------------------------------------

  function DisableHere(): Call {
    Call(Auth("o", false, None, None), OpDisable("ab", true), 1)
  }

  /** A slot disabled while a publish of it is under way is enabled when that commits. */
  lemma DisableIsUndone() returns (events: seq<Event>)
    ensures Inv(Shared(), OneEach())
    ensures Schedule(Shared(), Start(OneEach()), events)
    ensures FlagAt(Do(Shared(), OneEach(), DisableHere()).store, "ab") == Some(true)
    ensures FlagAt(Play(Shared(), Start(OneEach()), events).store, "ab") == Some(false)
  {
    OneEachIsGood();
    PublishesHere();
    TwoLettersAreAPath('a', 'b');
    assert SetDisabled(OneEach(), DisableHere().auth, "ab", true).Ok?;
    DisableSets(Shared(), OneEach(), OneEach(), DisableHere());
    events := FlagIsLost(Shared(), OneEach(), PublishHere(), DisableHere());
  }

  // ---------------------------------------------------------------------
  // Two registers past a quota
  // ---------------------------------------------------------------------

  /** The lines "x" and "y" name DIDs of the slots "ab" and "cd", and claim nothing. */
  function Vacant(): Host {
    Moved().(aliases := (log: string) => [])
  }

  function RegisterX(): Call {
    Call(Full(), OpRegister("ab", "x", false), 1)
  }

  function RegisterY(): Call {
    Call(Full(), OpRegister("cd", "y", false), 1)
  }

  lemma TwoDidsGateOpens(c: char)
    requires !Space(c)
    ensures Gates.PublishAccepts(TwoDids(), EntryLines([c]), None, 0)
    ensures DidIdOf(TwoDids(), [c]) == Some(Gates.WEBVH + [c])
  {
    var lib := TwoDids();
    LogOfOneLine(c);
    var es := Gates.Entries(lib, [[c]]);
    assert es[1..] == [];
    assert Gates.ChainFrom(lib, None, es) == [Gates.Params(None, None)];
  }

  lemma NothingClaimed(m: string)
    ensures Reconcile([], map[], "d", m, [], 1) == Ok(Plan([], [], []))
  {
    assert StillParked([], []) + Asserted([], [], 1) == [];
  }

  lemma RegistersX()
    ensures Decide(Vacant(), EMPTY, RegisterX()).Ok?
  {
    TwoLettersAreAPath('a', 'b');
    TwoDidsGateOpens('x');
    NothingClaimed("ab");
    assert OwnedBy(EMPTY.records, "p") == {};
    assert RegisterCheck(Vacant(), EMPTY, Full(), "ab", "x", false) == None;
  }

  lemma RegistersY()
    ensures Decide(Vacant(), EMPTY, RegisterY()).Ok?
  {
    TwoLettersAreAPath('c', 'd');
    TwoDidsGateOpens('y');
    NothingClaimed("cd");
    OldDidIsElsewhere();
    assert OwnedBy(EMPTY.records, "p") == {};
    assert RegisterCheck(Vacant(), EMPTY, Full(), "cd", "y", false) == None;
  }

  /** An account that may have one slot registers two at once, and has two. */
  lemma TwoRegistersOverrun() returns (events: seq<Event>)
    ensures Inv(Vacant(), EMPTY) && Within(EMPTY.records, Full())
    ensures Schedule(Vacant(), Start(EMPTY), events)
    ensures !Within(Play(Vacant(), Start(EMPTY), events).store.records, Full())
  {
    EmptyIsGood(Vacant());
    RegistersX();
    RegistersY();
    assert OwnedBy(EMPTY.records, "p") == {};
    events := TwoRegistersAddUp(Vacant(), EMPTY, RegisterX(), RegisterY());
  }
}
