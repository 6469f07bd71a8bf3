/** What each call leaves of a slot's record, log and witness file
    (did-hosting-control/src/did_ops.rs:366-421, 648-739, 886-905, 1839-1844, 2018-2045). */
module SlotHistory {
  import opened Common
  import opened LogText
  import opened Rollback
  import opened SlotStore
  import opened SlotInvariant
  import opened SlotFrame
  import opened StoringCalls
  import Files = WitnessFile
  import Gates = LogGates
  import Mirrors = LogHistory

  // ---------------------------------------------------------------------
  // The record names the stored log's DID
  // ---------------------------------------------------------------------

  ghost predicate DidIdOk(h: Host, s: Store, m: string) {
    m in s.records ==> s.records[m].didId == if m in s.logs then DidIdOf(h.lib, s.logs[m]) else None
  }

  /** The DID of a log is the one its last entry names, if that is a did:webvh. */
  lemma DidMeans(lib: Gates.Library, log: string, did: string)
    ensures
      var lines := EntryLines(log);
      DidIdOf(lib, log) == Some(did) <==>
        && lines != [] && "did:webvh:" <= did
        && lib.parse(lines[|lines| - 1]).Some? && lib.parse(lines[|lines| - 1]).value.didId == Some(did)
  {
  }

  ghost predicate DidIdsOk(h: Host, s: Store) {
    forall m :: DidIdOk(h, s, m)
  }

  /** A batch that leaves its own slot's record naming the log it leaves. */
  ghost predicate NamesItsLog(h: Host, s: Store, b: Batch) {
    DidIdOk(h, Commit(h, s, b), b.slot)
  }

  lemma CommitKeepsDidIds(h: Host, s: Store, b: Batch)
    requires DidIdsOk(h, s) && NamesItsLog(h, s, b)
    ensures DidIdsOk(h, Commit(h, s, b))
  {
    forall m ensures DidIdOk(h, Commit(h, s, b), m) {
      assert DidIdOk(h, s, m);
    }
  }

  lemma StoringNamesItsLog(h: Host, s: Store, c: Call)
    requires StoresLog(c.op) && Decide(h, s, c).Ok?
    ensures NamesItsLog(h, s, Decide(h, s, c).value)
  {
    CallStores(h, s, c);
  }

  lemma RollBackNamesItsLog(h: Host, s: Store, auth: Auth, slot: string, target: Option<nat>, now: nat)
    requires DidIdOk(h, s, slot) && RollBack(h, s, auth, slot, target, now).Ok?
    ensures NamesItsLog(h, s, RollBack(h, s, auth, slot, target, now).value)
  {
  }

  lemma OtherNamesItsLog(h: Host, s: Store, c: Call)
    requires c.op.OpUpload? || c.op.OpChangeOwner? || c.op.OpDisable? || c.op.OpDelete?
    requires Inv(h, s) && DidIdsOk(h, s) && Decide(h, s, c).Ok?
    ensures NamesItsLog(h, s, Decide(h, s, c).value)
  {
    assert SlotOk(s, c.op.slot);
    assert DidIdOk(h, s, c.op.slot);
  }

  lemma CreateNamesItsLog(h: Host, s: Store, auth: Auth, m: string, now: nat)
    requires Inv(h, s)
    ensures NamesItsLog(h, s, if m in s.records then Replacing(s, auth, m, now) else Reserving(auth, m, now))
  {
    assert SlotOk(s, m);
  }

  lemma StepKeepsDidIds(h: Host, s: Store, c: Call)
    requires Inv(h, s) && DidIdsOk(h, s)
    ensures DidIdsOk(h, Do(h, s, c).store)
  {
    if c.op.OpCreate? {
      CreateIsAllOrNothing(h, s, c.auth, c.op.path, c.op.drawn, c.op.force, c.now);
      if Do(h, s, c).error.None? {
        var m := ResolvePath(s, c.auth, c.op.path, c.op.drawn, c.op.force).value;
        CreateNamesItsLog(h, s, c.auth, m, c.now);
        CommitKeepsDidIds(h, s, if m in s.records then Replacing(s, c.auth, m, c.now) else Reserving(c.auth, m, c.now));
      }
    } else if Decide(h, s, c).Ok? {
      if StoresLog(c.op) {
        StoringNamesItsLog(h, s, c);
      } else if c.op.OpRollBack? {
        assert DidIdOk(h, s, c.op.slot);
        RollBackNamesItsLog(h, s, c.auth, c.op.slot, c.op.target, c.now);
      } else {
        OtherNamesItsLog(h, s, c);
      }
      CommitKeepsDidIds(h, s, Decide(h, s, c).value);
    }
  }

  /** Over every run, a record's DID is the one its stored log's last entry names, and none
      while nothing is stored. */
  lemma {:induction false} RecordNamesItsLog(h: Host, s: Store, calls: seq<Call>)
    requires Inv(h, s) && DidIdsOk(h, s) && AllPlausible(calls)
    ensures DidIdsOk(h, Run(h, s, calls))
    decreases calls
  {
    if calls != [] {
      StepKeepsInv(h, s, calls[0]);
      StepKeepsDidIds(h, s, calls[0]);
      RecordNamesItsLog(h, Do(h, s, calls[0]).store, calls[1..]);
    }
  }

  // ---------------------------------------------------------------------
  // What a log-storing call leaves
  // ---------------------------------------------------------------------

  /** The slot was there already, with this owner. */
  predicate SameHands(s: Store, m: string, owner: string) {
    m in s.records && s.records[m].owner == owner
  }

  /** A slot whose owner stays keeps its creation time and witness file and counts one
      version more; a slot that is new, or changes hands, starts over. */
  ghost predicate Advances(s: Store, c: Call, t: Store)
    requires StoresLog(c.op)
  {
    var m := c.op.slot;
    && m in t.records && Find(t.logs, m) == Some(c.op.log)
    && var r := t.records[m];
       && r.updatedAt == c.now
       && if SameHands(s, m, r.owner)
          then r.createdAt == s.records[m].createdAt && r.versions == s.records[m].versions + 1
               && Find(t.proofs, m) == Find(s.proofs, m)
          else c.op.OpRegister? && r.owner == c.auth.did && r.createdAt == c.now && r.versions == 1 && m !in t.proofs
  }

  lemma StoringAdvances(h: Host, s: Store, c: Call)
    requires Inv(h, s) && StoresLog(c.op)
    ensures Do(h, s, c).error.None? ==> Advances(s, c, Do(h, s, c).store)
  {
    if Decide(h, s, c).Ok? {
      CallStores(h, s, c);
      assert SlotOk(s, c.op.slot);
    }
  }

  // ---------------------------------------------------------------------
  // What a rollback leaves
  // ---------------------------------------------------------------------

  /** A rollback keeps the first entries, as many as it records, at least one; it removes
      the witness file exactly when it discards an entry; it keeps owner, names and creation
      time; and without a target it discards exactly one. */
  lemma RollbackKeepsFirstEntries(h: Host, s: Store, c: Call)
    requires Inv(h, s) && c.op.OpRollBack?
    ensures
      var m, t := c.op.slot, Do(h, s, c).store;
      var was, now := EntryCount(Find(s.logs, m)), EntryCount(Find(t.logs, m));
      Do(h, s, c).error.None? ==>
        && m in s.logs && m in t.logs && m in s.records && m in t.records
        && 1 <= now <= was && EntryLines(t.logs[m]) == EntryLines(s.logs[m])[..now]
        && now == (if c.op.target.Some? then c.op.target.value else was - 1)
        && (now < was ==> t.records[m].versions == now && t.records[m].updatedAt == c.now && m !in t.proofs)
        && (now == was ==> t == s)
        && t.records[m].(versions := s.records[m].versions, didId := s.records[m].didId, size := s.records[m].size,
                         updatedAt := s.records[m].updatedAt) == s.records[m]
  {
    if Do(h, s, c).error.None? {
      var m := c.op.slot;
      var lines := RawLines(s.logs[m]);
      var keep := Kept(c.op.target, |lines|).value;
      TruncationKeepsEntries(s.logs[m], keep);
      if keep == |lines| {
        NoNamesNoChange(s.names, h.domainOf(m), m);
      }
    }
  }

  // ---------------------------------------------------------------------
  // What an upload leaves
  // ---------------------------------------------------------------------

  lemma UploadMerges(h: Host, s: Store, c: Call)
    requires c.op.OpUpload? && Decide(h, s, c).Ok?
    ensures Do(h, s, c).store
         == s.(proofs := s.proofs[c.op.slot := Files.Merge(Find(s.proofs, c.op.slot), c.op.version, c.op.proof)])
  {
    NoNamesNoChange(s.names, h.domainOf(c.op.slot), c.op.slot);
  }

  /** An upload, accepted or refused, changes the witness file alone if anything, keeps
      every proof it was read to hold, and never shortens what resolvers are served. */
  lemma UploadOnlyAdds(h: Host, s: Store, c: Call, r: Gates.Served, q: Gates.Served)
    requires c.op.OpUpload? && c.op.slot in s.logs
    requires Gates.IsServed(h.lib, EntryLines(s.logs[c.op.slot]), Files.HeldBy(Find(s.proofs, c.op.slot)), r)
    requires Gates.IsServed(h.lib, EntryLines(s.logs[c.op.slot]),
                            Files.HeldBy(Find(Do(h, s, c).store.proofs, c.op.slot)), q)
    ensures
      var m, t := c.op.slot, Do(h, s, c).store;
      var n := EntryCount(Find(s.logs, m));
      && t.(proofs := s.proofs) == s
      && Files.HeldBy(Find(s.proofs, m)) <= Files.HeldBy(Find(t.proofs, m))
      && Gates.ServedCount(r, n) <= Gates.ServedCount(q, n)
  {
    var m := c.op.slot;
    if Decide(h, s, c).Err? {
      Gates.ServedIsUnique(h.lib, EntryLines(s.logs[m]), Files.HeldBy(Find(s.proofs, m)), r, q);
      return;
    }
    UploadMerges(h, s, c);
    Files.MergeKeepsProofs(Find(s.proofs, m), c.op.version, c.op.proof);
    Gates.UploadNeverShortens(h.lib, EntryLines(s.logs[m]), Find(s.proofs, m), c.op.version, c.op.proof, r, q);
  }

  // ---------------------------------------------------------------------
  // Is the stored log only ever appended to?
  // ---------------------------------------------------------------------

  /** The log stored at the slot goes on from the one stored before. */
  predicate GoesOn(s: Store, t: Store, m: string) {
    m in s.logs ==> m in t.logs && EntryLines(s.logs[m]) <= EntryLines(t.logs[m])
  }

  /** A call that puts another log than a continuation in place of the slot's, or takes
      entries of it away. */
  predicate Rewrites(s: Store, c: Call, m: string) {
    && Target(s, c) == Some(m) && m in s.logs
    && if StoresLog(c.op) then !(EntryLines(s.logs[m]) <= EntryLines(c.op.log))
       else c.op.OpDelete? || c.op.OpCreate? || (c.op.OpRollBack? && Cuts(s.logs[m], c.op.target))
  }

  lemma CutIsShorter(h: Host, s: Store, c: Call)
    requires c.op.OpRollBack? && Decide(h, s, c).Ok?
    ensures GoesOn(s, Do(h, s, c).store, c.op.slot) <==> !Cuts(s.logs[c.op.slot], c.op.target)
  {
    var log := s.logs[c.op.slot];
    TruncationKeepsEntries(log, Kept(c.op.target, |RawLines(log)|).value);
  }

  lemma ReplacedIsGone(h: Host, s: Store, c: Call, m: string)
    requires Inv(h, s) && c.op.OpCreate? && Do(h, s, c).error.None? && Target(s, c) == Some(m)
    ensures m !in Do(h, s, c).store.logs
  {
    CreateIsAllOrNothing(h, s, c.auth, c.op.path, c.op.drawn, c.op.force, c.now);
    assert SlotOk(s, m);
  }

  /** A call that succeeds leaves the stored entries in place and only adds to them exactly
      when it is no delete, create or cutting rollback of the slot, and no log submitted for
      it that fails to extend them: no write path compares the submitted log with the stored
      one. */
  lemma GoesOnIff(h: Host, s: Store, c: Call, m: string)
    requires Inv(h, s)
    ensures Do(h, s, c).error.None? ==> (GoesOn(s, Do(h, s, c).store, m) <==> !Rewrites(s, c, m))
  {
    if Do(h, s, c).error.None? {
      if Target(s, c) != Some(m) {
        OffTargetStays(h, s, c, m);
      } else if c.op.OpCreate? {
        ReplacedIsGone(h, s, c, m);
      } else if StoresLog(c.op) {
        CallStores(h, s, c);
      } else if c.op.OpRollBack? {
        CutIsShorter(h, s, c);
      }
    }
  }

  /** Adds to a log that has deactivated its DID. */
  predicate Revives(deactivates: Mirrors.Reader, s: Store, c: Call, m: string) {
    && StoresLog(c.op) && c.op.slot == m && m in s.logs
    && Mirrors.Deactivated(deactivates, EntryLines(s.logs[m])) && EntryLines(c.op.log) != EntryLines(s.logs[m])
  }

  lemma MirrorCompares(deactivates: Mirrors.Reader, log: string, next: string)
    ensures
      var old_, new_ := EntryLines(log), EntryLines(next);
      Mirrors.VerifyLogExtends(deactivates, Some(log), next) == Mirrors.Accepted
      <==> old_ <= new_ && (Mirrors.Deactivated(deactivates, old_) ==> old_ == new_)
  {
  }

  /** Servers and watchers compare a log with the one they hold for the same DID, and the
      control plane does not: the comparison lets through what a call has stored exactly when
      the call neither rewrote the log nor added to a deactivated one. */
  lemma MirrorTakesOverIff(h: Host, s: Store, c: Call, m: string, deactivates: Mirrors.Reader)
    requires Inv(h, s) && m in s.logs && m in Do(h, s, c).store.logs && Do(h, s, c).error.None?
    ensures Mirrors.VerifyLogExtends(deactivates, Some(s.logs[m]), Do(h, s, c).store.logs[m]) == Mirrors.Accepted
       <==> !Rewrites(s, c, m) && !Revives(deactivates, s, c, m)
  {
    GoesOnIff(h, s, c, m);
    MirrorCompares(deactivates, s.logs[m], Do(h, s, c).store.logs[m]);
    if StoresLog(c.op) && c.op.slot == m {
      StoredIs(h, s, c);
    } else if !Rewrites(s, c, m) {
      LogIsKept(h, s, c, m);
    }
  }

  lemma LogIsKept(h: Host, s: Store, c: Call, m: string)
    requires Do(h, s, c).error.None? && m in s.logs && !Rewrites(s, c, m) && !(StoresLog(c.op) && c.op.slot == m)
    ensures Find(Do(h, s, c).store.logs, m) == Find(s.logs, m)
  {
    if Target(s, c) != Some(m) {
      OffTargetStays(h, s, c, m);
    } else if c.op.OpRollBack? {
      UncutStays(h, s, c);
    }
  }

  lemma StoredIs(h: Host, s: Store, c: Call)
    requires StoresLog(c.op) && Decide(h, s, c).Ok?
    ensures Find(Do(h, s, c).store.logs, c.op.slot) == Some(c.op.log)
  {
    CallStores(h, s, c);
  }

  lemma UncutStays(h: Host, s: Store, c: Call)
    requires c.op.OpRollBack? && Decide(h, s, c).Ok? && !Cuts(s.logs[c.op.slot], c.op.target)
    ensures Find(Do(h, s, c).store.logs, c.op.slot) == Find(s.logs, c.op.slot)
  {
  }

  ghost predicate GoesOnThroughout(h: Host, s: Store, calls: seq<Call>, m: string)
    decreases calls
  {
    calls != [] ==>
      GoesOn(s, Do(h, s, calls[0]).store, m) && GoesOnThroughout(h, Do(h, s, calls[0]).store, calls[1..], m)
  }

  ghost predicate NeverRewritten(h: Host, s: Store, calls: seq<Call>, m: string)
    decreases calls
  {
    calls != [] ==>
      && !(Do(h, s, calls[0]).error.None? && Rewrites(s, calls[0], m))
      && NeverRewritten(h, Do(h, s, calls[0]).store, calls[1..], m)
  }

  /** Over every run, the slot's log is append-only throughout exactly when no call rewrites
      it; what is stored then stays a prefix of what is stored in the end. */
  lemma {:induction false} AppendOnlyIff(h: Host, s: Store, calls: seq<Call>, m: string)
    requires Inv(h, s) && AllPlausible(calls)
    ensures GoesOnThroughout(h, s, calls, m) <==> NeverRewritten(h, s, calls, m)
    ensures NeverRewritten(h, s, calls, m) ==> GoesOn(s, Run(h, s, calls), m)
    decreases calls
  {
    if calls != [] {
      var t := Do(h, s, calls[0]).store;
      GoesOnIff(h, s, calls[0], m);
      if Do(h, s, calls[0]).error.Some? {
        RefusalChangesNothing(h, s, calls[0]);
      }
      StepKeepsInv(h, s, calls[0]);
      AppendOnlyIff(h, t, calls[1..], m);
      if GoesOn(s, t, m) && GoesOn(t, Run(h, t, calls[1..]), m) && m in s.logs {
        PrefixesChain(EntryLines(s.logs[m]), EntryLines(t.logs[m]), EntryLines(Run(h, t, calls[1..]).logs[m]));
      }
    }
  }

  lemma PrefixesChain(a: seq<string>, b: seq<string>, c: seq<string>)
    requires a <= b <= c
    ensures a <= c
  {
  }
}
