/** Plans made on one store and committed to another: which are sound, which amount to the
    whole call done at once, and which undo what came between
    (did-hosting-control/src/did_ops.rs:463-762, 775-921, 1084-1162, 1278-1393, 1972-2008). */
module StaleCommits {
  import opened Common
  import opened AgentNames
  import opened SlotStore
  import opened SlotInvariant
  import opened SlotFrame
  import opened StoringCalls
  import opened CommitSoundness
  import opened NameOwnership
  import opened PathLock
  import opened LockLimits

  // ---------------------------------------------------------------------
  // Sound, as seen before the commit
  // ---------------------------------------------------------------------

  /** The slot is there with the owner the record names, or is free or its previous owner's
      for the batch to take. */
  predicate OwnerFits(s: Store, b: Batch)
    requires b.record.Put?
  {
    var was := Find(s.records, b.slot);
    if b.putOwner.None? then was.Some? && was.value.owner == b.record.value.owner
    else was.Some? ==> was.value.owner == b.putOwner.value || b.dropOwner == Some(was.value.owner)
  }

  /** A name the record is to list is claimed, or still held. */
  predicate ListedHolds(h: Host, s: Store, b: Batch, e: NameEntry)
    requires b.record.Put?
  {
    e in b.record.value.names ==> e.name in b.claimed || Held(s.names, h.domainOf(b.slot), e.name, b.slot)
  }

  /** What a caller can look up before it commits. */
  ghost predicate MayCommit(h: Host, s: Store, b: Batch)
    requires b.record.Put?
  {
    && OwnerFits(s, b)
    && (forall e :: ListedHolds(h, s, b, e))
    && (forall m, e :: !Disturbs(h, s, b, m, e))
  }

  /** No name of the record is released, and none comes up twice. */
  lemma PlannedNames(h: Host, seen: Store, c: Call)
    requires StoresLog(c.op) && Decide(h, seen, c).Ok? && Unique(NamesAt(seen, c.op.slot))
    ensures
      var b := Decide(h, seen, c).value;
      b.record.Put? && Unique(b.record.value.names) && forall e :: e in b.record.value.names ==> e.name !in b.released
  {
    var m, b := c.op.slot, Decide(h, seen, c).value;
    var names := NamesAt(seen, m);
    CallStores(h, seen, c);
    if Reconciles(c.op) {
      ReconcileMeans(names, seen.names, h.domainOf(m), m, ClaimsOf(h, c), c.now);
      forall e | e in b.record.value.names ensures e.name !in b.released {
        if o :| o in names && o.name == e.name && Retirable(o, b.claimed, seen.names, h.domainOf(m), m) {
          assert o.enabled;
          if !e.enabled { OneEntryPerName(names, o, e); }
        }
      }
    } else {
      VerbMeans(names, seen.names, h.domainOf(m), m, Bare(c.op.name), c.op.verb, c.now);
    }
  }

  lemma StoringShapeFits(h: Host, seen: Store, s: Store, c: Call)
    requires Inv(h, s) && StoresLog(c.op) && Decide(h, seen, c).Ok? && Unique(NamesAt(seen, c.op.slot))
    ensures ShapeFits(h, s, Decide(h, seen, c).value)
  {
    CallStores(h, seen, c);
    PlannedNames(h, seen, c);
  }

  lemma OwnerFitsIff(h: Host, s: Store, b: Batch)
    requires b.record.Put? && b.putOwner in {None, Some(b.record.value.owner)}
    requires b.dropOwner.Some? ==> b.putOwner.Some? && b.putOwner != b.dropOwner
    ensures OwnersMatch(h, s, b) <==> OwnerFits(s, b)
  {
    var owner := b.record.value.owner;
    assert RecordAt(Commit(h, s, b), b.slot) == Some(b.record.value);
    assert OwnersMatch(h, s, b) <==> OwnersLeft(s, b) == {owner};
    if b.slot in s.records && b.dropOwner != Some(s.records[b.slot].owner) {
      assert s.records[b.slot].owner in OwnersLeft(s, b);
    }
  }

  lemma StoringOwnerFitsIff(h: Host, seen: Store, s: Store, c: Call)
    requires StoresLog(c.op) && Decide(h, seen, c).Ok?
    ensures
      var b := Decide(h, seen, c).value;
      b.record.Put? && (OwnersMatch(h, s, b) <==> OwnerFits(s, b))
  {
    CallStores(h, seen, c);
    OwnerFitsIff(h, s, Decide(h, seen, c).value);
  }

  /** Whatever store it was decided on, a storing call's batch keeps everything in agreement
      exactly when, before the commit, the slot's owner fits, the names to be listed are
      claimed or still held, and no other slot registers a name it claims or releases. */
  lemma StoringCommitIsSoundIff(h: Host, seen: Store, s: Store, c: Call)
    requires Inv(h, s) && StoresLog(c.op) && Decide(h, seen, c).Ok? && Unique(NamesAt(seen, c.op.slot))
    ensures
      var b := Decide(h, seen, c).value;
      b.record.Put? && (Inv(h, Commit(h, s, b)) <==> MayCommit(h, s, b))
  {
    var b := Decide(h, seen, c).value;
    DecidedSlotIsOk(h, seen, c);
    PlannedNames(h, seen, c);
    StoringShapeFits(h, seen, s, c);
    StoringOwnerFitsIff(h, seen, s, c);
    CommitIsSoundIff(h, s, b);
    forall e ensures ListedStays(h, s, b, e) <==> ListedHolds(h, s, b, e) {
      assert Lists(h, s, b, e) <==> e in b.record.value.names;
    }
  }

  // ---------------------------------------------------------------------
  // The whole call at once
  // ---------------------------------------------------------------------

  /** The caller's quotas have room for the call. */
  ghost predicate QuotaAllows(s: Store, c: Call)
    requires StoresLog(c.op)
  {
    var was := Find(s.records, c.op.slot);
    && (was.None? ==> !CountRefuses(s, c.auth))
    && !SizeRefuses(s, c.auth, if was.Some? then was.value.size else 0, |c.op.log|)
  }

  /** Quotas and the other slots still let the call through. */
  ghost predicate StillAllowed(h: Host, s: Store, c: Call, b: Batch)
    requires StoresLog(c.op)
  {
    QuotaAllows(s, c) && ClaimsFree(h, s, b)
  }

  lemma {:induction false} SameReleases(names: seq<NameEntry>, claimed: seq<string>, index: Index, other: Index,
                                        domain: string, m: string)
    requires forall e :: e in names ==> Held(index, domain, e.name, m) && Held(other, domain, e.name, m)
    ensures Released(names, claimed, index, domain, m) == Released(names, claimed, other, domain, m)
  {
    if names != [] {
      assert names[0] in names;
      SameReleases(names[1..], claimed, index, other, domain, m);
    }
  }

  /** On another index the claims are refused only for one that another slot holds there. */
  lemma ClaimsStandIff(index: Index, other: Index, domain: string, m: string, claims: seq<string>)
    requires FirstObjection(index, domain, m, claims).None?
    ensures FirstObjection(other, domain, m, claims).None?
       <==> forall n :: n in Bindables(claims, m) ==> !HeldByOther(other, domain, n, m)
  {
    RefusedIff(index, domain, m, claims);
    RefusedIff(other, domain, m, claims);
    forall n ensures n in Bindables(claims, m) <==> n in claims && Bindable(n, m) { BindablesAre(claims, m, n); }
    forall n | n in claims
      ensures Objection(other, domain, m, n).Some? <==> Bindable(n, m) && HeldByOther(other, domain, n, m) {
      assert Objection(index, domain, m, n).None?;
    }
  }

  /** With the slot's names held in both, another index gives the same plan, if any. */
  lemma ReconciledAgainIff(h: Host, seen: Store, s: Store, c: Call)
    requires Inv(h, seen) && Inv(h, s) && StoresLog(c.op) && NamesAt(seen, c.op.slot) == NamesAt(s, c.op.slot)
    ensures
      var m, domain := c.op.slot, h.domainOf(c.op.slot);
      var was := Reconcile(NamesAt(seen, m), seen.names, domain, m, ClaimsOf(h, c), c.now);
      var again := Reconcile(NamesAt(s, m), s.names, domain, m, ClaimsOf(h, c), c.now);
      was.Ok? ==>
        && (again.Ok? <==> forall n :: n in was.value.claimed ==> !HeldByOther(s.names, domain, n, m))
        && (again.Ok? ==> again == was)
  {
    var m, domain := c.op.slot, h.domainOf(c.op.slot);
    var names := NamesAt(s, m);
    if FirstObjection(seen.names, domain, m, ClaimsOf(h, c)).None? {
      ClaimsStandIff(seen.names, s.names, domain, m, ClaimsOf(h, c));
    }
    forall e | e in names ensures Held(seen.names, domain, e.name, m) && Held(s.names, domain, e.name, m) {
      assert NameOk(h, seen, m, e) && NameOk(h, s, m, e);
    }
    SameReleases(names, Bindables(ClaimsOf(h, c), m), seen.names, s.names, domain, m);
  }

  /** With its slot unchanged, a register that passed its checks passes them again exactly when
      the quotas allow it. */
  lemma RegisterPassesAgainIff(h: Host, seen: Store, s: Store, c: Call)
    requires c.op.OpRegister? && SameSlot(seen, s, c.op.slot)
    requires RegisterCheck(h, seen, c.auth, c.op.slot, c.op.log, c.op.force) == None
    ensures RegisterCheck(h, s, c.auth, c.op.slot, c.op.log, c.op.force) == None <==> QuotaAllows(s, c)
  {
    SameSlotSameGate(h, seen, s, c.op.slot, c.op.log);
  }

  lemma RegisteredAgainIff(h: Host, seen: Store, s: Store, c: Call)
    requires Inv(h, seen) && Inv(h, s) && c.op.OpRegister? && SameSlot(seen, s, c.op.slot) && Decide(h, seen, c).Ok?
    ensures Decide(h, s, c).Ok? <==> StillAllowed(h, s, c, Decide(h, seen, c).value)
    ensures Decide(h, s, c).Ok? ==> Decide(h, s, c) == Decide(h, seen, c)
  {
    RegisterPassesAgainIff(h, seen, s, c);
    ReconciledAgainIff(h, seen, s, c);
  }

  lemma RepublishedAgainIff(h: Host, seen: Store, s: Store, auth: Auth, m: string, log: string, now: nat)
    requires SameSlot(seen, s, m) && Republish(h, seen, auth, m, log, now).Ok?
    ensures m in s.records
    ensures Republish(h, s, auth, m, log, now).Ok? <==> !SizeRefuses(s, auth, s.records[m].size, |log|)
    ensures Republish(h, s, auth, m, log, now).Ok? ==>
              Republish(h, s, auth, m, log, now) == Republish(h, seen, auth, m, log, now)
    ensures Republish(h, seen, auth, m, log, now).value.names == NamesAt(s, m)
  {
    SameSlotSameGate(h, seen, s, m, log);
  }

  lemma PublishedAgainIff(h: Host, seen: Store, s: Store, c: Call)
    requires Inv(h, seen) && Inv(h, s) && c.op.OpPublish? && SameSlot(seen, s, c.op.slot) && Decide(h, seen, c).Ok?
    ensures Decide(h, s, c).Ok? <==> StillAllowed(h, s, c, Decide(h, seen, c).value)
    ensures Decide(h, s, c).Ok? ==> Decide(h, s, c) == Decide(h, seen, c)
  {
    RepublishedAgainIff(h, seen, s, c.auth, c.op.slot, c.op.log, c.now);
    ReconciledAgainIff(h, seen, s, c);
  }

  lemma NamedAgainIff(h: Host, seen: Store, s: Store, c: Call)
    requires c.op.OpName? && SameSlot(seen, s, c.op.slot) && Decide(h, seen, c).Ok?
    ensures Decide(h, s, c).Ok? <==> StillAllowed(h, s, c, Decide(h, seen, c).value)
    ensures Decide(h, s, c).Ok? ==> Decide(h, s, c) == Decide(h, seen, c)
  {
    RepublishedAgainIff(h, seen, s, c.auth, c.op.slot, c.op.log, c.now);
  }

  /** With its slot unchanged, a storing call that was let through is let through again
      exactly when quotas and other slots allow it, and then plans the same. */
  lemma DecidedAgainIff(h: Host, seen: Store, s: Store, c: Call)
    requires Inv(h, seen) && Inv(h, s) && StoresLog(c.op) && SameSlot(seen, s, c.op.slot) && Decide(h, seen, c).Ok?
    ensures Decide(h, s, c).Ok? <==> StillAllowed(h, s, c, Decide(h, seen, c).value)
    ensures Decide(h, s, c).Ok? ==> Decide(h, s, c) == Decide(h, seen, c)
  {
    match c.op
    case OpRegister(_, _, _) => RegisteredAgainIff(h, seen, s, c);
    case OpPublish(_, _) => PublishedAgainIff(h, seen, s, c);
    case OpName(_, _, _, _) => NamedAgainIff(h, seen, s, c);
  }

  /** A storing commit always shows in the record. */
  lemma StoringShows(h: Host, seen: Store, s: Store, c: Call)
    requires StoresLog(c.op) && SameSlot(seen, s, c.op.slot) && Decide(h, seen, c).Ok?
    ensures Commit(h, s, Decide(h, seen, c).value) != s
  {
    CallStores(h, seen, c);
    var m := c.op.slot;
    var b := Decide(h, seen, c).value;
    assert Find(Commit(h, s, b).records, m) == Some(b.record.value) != Find(s.records, m);
  }

  lemma CommitIsSerialIff(h: Host, seen: Store, s: Store, c: Call)
    requires Inv(h, seen) && Inv(h, s) && StoresLog(c.op) && SameSlot(seen, s, c.op.slot) && Decide(h, seen, c).Ok?
    ensures
      var b := Decide(h, seen, c).value;
      Commit(h, s, b) == Do(h, s, c).store <==> StillAllowed(h, s, c, b)
  {
    DecidedAgainIff(h, seen, s, c);
    StoringShows(h, seen, s, c);
  }

  /** The call done at once, on the store it commits to, leaves what its commit leaves. */
  ghost predicate Serial(h: Host, w: World, id: nat)
    requires Enabled(w, Finish(id))
  {
    Step(h, w, Finish(id)).store == Do(h, w.store, w.callers[id].call).store
  }

  lemma PlanStands(h: Host, w: World, id: nat)
    requires Sound(h, w) && Enabled(w, Finish(id)) && w.callers[id].phase.plan.Ok?
    ensures
      var t := w.callers[id];
      && Inv(h, t.phase.seen) && Inv(h, w.store) && SameSlot(t.phase.seen, w.store, t.call.op.slot)
      && t.phase.plan == Decide(h, t.phase.seen, t.call)
      && Step(h, w, Finish(id)).store == Commit(h, w.store, t.phase.plan.value)
  {
    assert CallerOk(h, w, id) && PlanSound(h, w, id) && ReadsStand(w, id);
  }

  /** Whatever has happened on other paths between its reads and its commit: a call that
      puts a log in place amounts to the whole call done at the moment of its commit exactly
      when at that moment the quotas are not used up and its claims not taken. */
  lemma FinishIsSerialIff(h: Host, w: World, id: nat)
    requires Sound(h, w) && AboutToStore(w, id)
    ensures Serial(h, w, id) <==> StillAllowed(h, w.store, w.callers[id].call, w.callers[id].phase.plan.value)
  {
    PlanStands(h, w, id);
    CommitIsSerialIff(h, w.callers[id].phase.seen, w.store, w.callers[id].call);
  }

  lemma QuietDecidedAgain(h: Host, seen: Store, s: Store, c: Call)
    requires (c.op.OpUpload? || c.op.OpChangeOwner?) && SameSlot(seen, s, c.op.slot)
    ensures Decide(h, s, c) == Decide(h, seen, c)
  {
  }

  /** The other calls that take the lock always amount to that. */
  lemma QuietFinishIsSerial(h: Host, w: World, id: nat)
    requires Sound(h, w) && Enabled(w, Finish(id))
    requires w.callers[id].call.op.OpUpload? || w.callers[id].call.op.OpChangeOwner?
    ensures Serial(h, w, id)
  {
    assert CallerOk(h, w, id) && ReadsStand(w, id);
    QuietDecidedAgain(h, w.callers[id].phase.seen, w.store, w.callers[id].call);
  }

  // ---------------------------------------------------------------------
  // A whole schedule, in commit order
  // ---------------------------------------------------------------------

  /** The call a step commits, if it commits one. */
  function Effect(w: World, e: Event): seq<Call> {
    match e
    case Finish(id) =>
      if id in w.callers && w.callers[id].phase.Planned? && w.callers[id].phase.plan.Ok? then [w.callers[id].call]
      else []
    case Lockless(call) => [call]
    case _ => []
  }

  /** The calls that commit, in the order in which they do. */
  ghost function CommitOrder(h: Host, w: World, events: seq<Event>): seq<Call>
    requires Schedule(h, w, events)
    decreases events
  {
    if events == [] then [] else Effect(w, events[0]) + CommitOrder(h, Step(h, w, events[0]), events[1..])
  }

  /** A log committed here would still be let through. */
  ghost predicate CommitAllowed(h: Host, w: World, e: Event) {
    e.Finish? && AboutToStore(w, e.id) ==>
      StillAllowed(h, w.store, w.callers[e.id].call, w.callers[e.id].phase.plan.value)
  }

  ghost predicate AlwaysAllowed(h: Host, w: World, events: seq<Event>)
    requires Schedule(h, w, events)
    decreases events
  {
    events != [] ==> CommitAllowed(h, w, events[0]) && AlwaysAllowed(h, Step(h, w, events[0]), events[1..])
  }

  lemma AllowedIsFree(h: Host, w: World, e: Event)
    requires Sound(h, w) && Enabled(w, e) && CommitAllowed(h, w, e)
    ensures StillFree(h, w, e)
  {
    if e.Finish? && w.callers[e.id].phase.plan.Ok? && !StoresLog(w.callers[e.id].call.op) {
      PlanStands(h, w, e.id);
      BatchOfCall(h, w.callers[e.id].phase.seen, w.callers[e.id].call);
    }
  }

  lemma FinishIsSerial(h: Host, w: World, id: nat)
    requires Sound(h, w) && Enabled(w, Finish(id)) && w.callers[id].phase.plan.Ok? && CommitAllowed(h, w, Finish(id))
    ensures Serial(h, w, id)
  {
    if StoresLog(w.callers[id].call.op) {
      FinishIsSerialIff(h, w, id);
    } else {
      QuietFinishIsSerial(h, w, id);
    }
  }

  lemma RunOfOne(h: Host, s: Store, c: Call, rest: seq<Call>)
    ensures Run(h, s, [c] + rest) == Run(h, Do(h, s, c).store, rest)
  {
    assert ([c] + rest)[1..] == rest;
  }

  lemma StepIsSerial(h: Host, w: World, e: Event, rest: seq<Call>)
    requires Sound(h, w) && Enabled(w, e) && CommitAllowed(h, w, e)
    ensures Run(h, w.store, Effect(w, e) + rest) == Run(h, Step(h, w, e).store, rest)
  {
    assert [] + rest == rest;
    match e
    case Finish(id) =>
      if w.callers[id].phase.plan.Ok? {
        FinishIsSerial(h, w, id);
        RunOfOne(h, w.store, w.callers[id].call, rest);
      }
    case Lockless(call) => RunOfOne(h, w.store, call, rest);
    case _ =>
  }

  /** However calls on however many paths interleave: if lockless operations keep off the
      paths that are held, and each log, when it commits, is still within its quotas and its
      claims still free, then the store ends up as if the calls that committed had been done
      one after the other, each at once, in the order of their commits. */
  lemma {:induction false} SchedulesSerialize(h: Host, w: World, events: seq<Event>)
    requires Sound(h, w) && Schedule(h, w, events) && AllClear(h, w, events) && AlwaysAllowed(h, w, events)
    ensures Play(h, w, events).store == Run(h, w.store, CommitOrder(h, w, events))
    decreases events
  {
    if events != [] {
      var v := Step(h, w, events[0]);
      AllowedIsFree(h, w, events[0]);
      StepStaysSound(h, w, events[0]);
      SchedulesSerialize(h, v, events[1..]);
      StepIsSerial(h, w, events[0], CommitOrder(h, v, events[1..]));
    }
  }

  // ---------------------------------------------------------------------
  // Lost updates
  // ---------------------------------------------------------------------

  /** What a publish or a name verb carries over from the record it read. */
  function Carried(r: Record): (string, nat, nat, bool, Option<nat>) {
    (r.owner, r.createdAt, r.versions, r.disabled, r.deletedAt)
  }

  /** The batch's record is this one republished: its own names, and the rest carried over. */
  predicate CarriesFrom(h: Host, c: Call, r: Record, b: Batch)
    requires StoresLog(c.op)
  {
    && b.record.Put?
    && b.record.value == Record(r.owner, r.createdAt, c.now, r.versions + 1, DidIdOf(h.lib, c.op.log), |c.op.log|,
                                r.disabled, r.deletedAt, b.record.value.names)
  }

  lemma PlansCarry(h: Host, s: Store, c: Call)
    requires (c.op.OpPublish? || c.op.OpName?) && Decide(h, s, c).Ok?
    ensures c.op.slot in s.records && CarriesFrom(h, c, s.records[c.op.slot], Decide(h, s, c).value)
  {
  }

  lemma SameRecordIff(h: Host, c: Call, was: Record, now: Record, b: Batch, d: Batch)
    requires StoresLog(c.op) && CarriesFrom(h, c, was, b) && CarriesFrom(h, c, now, d)
    requires b.record.value.names == d.record.value.names
    ensures b.record == d.record <==> Carried(was) == Carried(now)
  {
  }

  lemma SameNamesPlanned(h: Host, seen: Store, s: Store, c: Call)
    requires Inv(h, seen) && Inv(h, s) && (c.op.OpPublish? || c.op.OpName?)
    requires Decide(h, seen, c).Ok? && Decide(h, s, c).Ok? && NamesAt(seen, c.op.slot) == NamesAt(s, c.op.slot)
    ensures
      var b, d := Decide(h, seen, c).value, Decide(h, s, c).value;
      b.record.Put? && d.record.Put? && b.record.value.names == d.record.value.names && b == d.(record := b.record)
  {
    CallStores(h, seen, c);
    CallStores(h, s, c);
    ReconciledAgainIff(h, seen, s, c);
  }

  lemma RecordsTell(h: Host, s: Store, b: Batch, d: Batch)
    requires b.record.Put? && d.record.Put? && b == d.(record := b.record)
    ensures Commit(h, s, b) == Commit(h, s, d) <==> b.record == d.record
  {
    assert Find(Commit(h, s, b).records, b.slot) == Some(b.record.value);
    assert Find(Commit(h, s, d).records, b.slot) == Some(d.record.value);
  }

  /** Let the slot's record change under a publish or a name verb, its names apart. If the
      call would still go through, its commit leaves what the whole call would leave exactly
      when owner, creation time, version count, flag and deletion mark are as it read them:
      it puts them back. */
  lemma CarriesBackIff(h: Host, seen: Store, s: Store, c: Call)
    requires Inv(h, seen) && Inv(h, s) && (c.op.OpPublish? || c.op.OpName?)
    requires Decide(h, seen, c).Ok? && Decide(h, s, c).Ok? && NamesAt(seen, c.op.slot) == NamesAt(s, c.op.slot)
    ensures
      var m := c.op.slot;
      && m in seen.records && m in s.records
      && (Commit(h, s, Decide(h, seen, c).value) == Do(h, s, c).store
          <==> Carried(seen.records[m]) == Carried(s.records[m]))
  {
    SameNamesPlanned(h, seen, s, c);
    PlansCarry(h, seen, c);
    PlansCarry(h, s, c);
    var b, d := Decide(h, seen, c).value, Decide(h, s, c).value;
    RecordsTell(h, s, b, d);
    SameRecordIff(h, c, seen.records[c.op.slot], s.records[c.op.slot], b, d);
  }

  function FlagAt(s: Store, m: string): Option<bool> {
    if m in s.records then Some(s.records[m].disabled) else None
  }

  lemma CallKeepsFlag(h: Host, s: Store, c: Call)
    requires c.op.OpPublish? || c.op.OpName?
    ensures FlagAt(Do(h, s, c).store, c.op.slot) == FlagAt(s, c.op.slot)
    ensures
      var m, t := c.op.slot, Do(h, s, c).store;
      Decide(h, s, c).Ok? ==> m in s.records && m in t.records && t.records[m].owner == s.records[m].owner
  {
    if Decide(h, s, c).Ok? {
      BatchOfCall(h, s, c);
      PlansCarry(h, s, c);
    }
  }

  lemma DisableSets(h: Host, s: Store, t: Store, d: Call)
    requires d.op.OpDisable? && Decide(h, s, d).Ok?
    requires d.op.slot in t.records && t.records[d.op.slot].owner == s.records[d.op.slot].owner
    ensures FlagAt(Do(h, t, d).store, d.op.slot) == Some(d.op.disabled)
  {
    assert Authorized(t, d.op.slot, d.auth).Ok?;
  }

  lemma FlagSurvivesInOrder(h: Host, s: Store, c: Call, d: Call)
    requires (c.op.OpPublish? || c.op.OpName?) && d.op.OpDisable? && d.op.slot == c.op.slot
    requires Decide(h, s, c).Ok? && Decide(h, s, d).Ok?
    ensures FlagAt(Run(h, s, [c] + ([d] + [])), c.op.slot) == Some(d.op.disabled)
    ensures FlagAt(Run(h, s, [d] + ([c] + [])), c.op.slot) == Some(d.op.disabled)
  {
    RunOfOne(h, s, c, [d] + []);
    RunOfOne(h, Do(h, s, c).store, d, []);
    RunOfOne(h, s, d, [c] + []);
    RunOfOne(h, Do(h, s, d).store, c, []);
    CallKeepsFlag(h, s, c);
    DisableSets(h, s, Do(h, s, c).store, d);
    DisableSets(h, s, s, d);
    CallKeepsFlag(h, Do(h, s, d).store, c);
  }

  /** Setting the flag leaves a plan as sound as it was. */
  lemma FlagKeepsMayCommit(h: Host, s: Store, t: Store, b: Batch)
    requires b.record.Put? && MayCommit(h, s, b) && t.names == s.names && b.slot in s.records
    requires t.records == s.records[b.slot := s.records[b.slot].(disabled := !s.records[b.slot].disabled)]
    ensures MayCommit(h, t, b)
  {
    forall e ensures ListedHolds(h, t, b, e) { assert ListedHolds(h, s, b, e); }
    forall m, e ensures !Disturbs(h, t, b, m, e) { assert !Disturbs(h, s, b, m, e); }
  }

  /** Disabling or enabling takes no lock. Between the plan and the commit of a publish or
      name verb on the slot it is undone, although everything still agrees, and although
      doing the two calls one after the other, in either order, leaves the flag as set. */
  lemma FlagIsLost(h: Host, s: Store, c: Call, d: Call) returns (events: seq<Event>)
    requires Inv(h, s) && (c.op.OpPublish? || c.op.OpName?) && d.op.OpDisable? && d.op.slot == c.op.slot
    requires Decide(h, s, c).Ok? && Decide(h, s, d).Ok? && d.op.disabled != s.records[c.op.slot].disabled
    ensures Schedule(h, Start(s), events)
    ensures
      var t, m := Play(h, Start(s), events).store, c.op.slot;
      Inv(h, t) && FlagAt(t, m) == Some(!d.op.disabled)
    ensures FlagAt(Run(h, s, [c] + ([d] + [])), c.op.slot) == Some(d.op.disabled)
    ensures FlagAt(Run(h, s, [d] + ([c] + [])), c.op.slot) == Some(d.op.disabled)
  {
    events := LocklessBetween(h, s, c, d);
    var u, b := Do(h, s, d).store, Decide(h, s, c).value;
    FlagSurvivesInOrder(h, s, c, d);
    PlansCarry(h, s, c);
    NoNamesNoChange(s.names, h.domainOf(d.op.slot), d.op.slot);
    StepKeepsInv(h, s, c);
    StepKeepsInv(h, s, d);
    assert SlotOk(s, c.op.slot);
    BatchOfCall(h, s, c);
    StoringCommitIsSoundIff(h, s, s, c);
    FlagKeepsMayCommit(h, s, u, b);
    StoringCommitIsSoundIff(h, s, u, c);
  }
}
