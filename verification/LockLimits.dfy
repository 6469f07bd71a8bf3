/** What the per-path lock does not cover: names, which are indexed across paths, and the
    operations that take no lock (did-hosting-control/src/did_ops.rs:340-433, 975-977,
    1084-1162, 1278-1393, 1818-1850, 1972-2059). */
module LockLimits {
  import opened Common
  import opened Paths
  import opened LogText
  import opened AgentNames
  import opened SlotStore
  import opened SlotInvariant
  import opened SlotFrame
  import opened StoringCalls
  import opened CommitSoundness
  import opened NameOwnership
  import opened PathLock
  import Gates = LogGates

  /** If nothing has committed since a caller judged, its steps amount to the whole call
      done at once. */
  lemma UndisturbedIsAtomic(h: Host, w: World, id: nat)
    requires Orderly(h, w) && Has(w, id) && w.callers[id].phase.Planned? && w.callers[id].phase.seen == w.store
    ensures Step(h, w, Finish(id)).store == Do(h, w.store, w.callers[id].call).store
  {
    assert CallerOk(h, w, id);
  }

  /** The slot's own names have not been given up since the plan was made: nobody else
      may do that. */
  ghost predicate OwnNamesHeld(seen: Store, s: Store, m: string) {
    forall key :: Holder(seen.names, key) == Some(m) ==> Holder(s.names, key) == Some(m)
  }

  lemma SameAfter(h: Host, seen: Store, s: Store, b: Batch)
    requires SameSlot(seen, s, b.slot)
    ensures SameSlot(Commit(h, seen, b), Commit(h, s, b), b.slot)
  {
  }

  lemma StaleShapeFits(h: Host, seen: Store, s: Store, b: Batch)
    requires ShapeFits(h, seen, b) && OwnersFit(h, seen, b) && SameSlot(seen, s, b.slot)
    ensures ShapeFits(h, s, b) && OwnersFit(h, s, b)
  {
    SameAfter(h, seen, s, b);
    var m, t, u := b.slot, Commit(h, seen, b), Commit(h, s, b);
    assert (m in t.records <==> m in u.records) && (m in t.logs <==> m in u.logs) && (m in t.proofs <==> m in u.proofs);
  }

  lemma StaleNamesKept(h: Host, seen: Store, s: Store, b: Batch)
    requires NamesKept(h, seen, b) && SameSlot(seen, s, b.slot) && OwnNamesHeld(seen, s, b.slot)
    ensures NamesKept(h, s, b)
  {
    var domain := h.domainOf(b.slot);
    SameAfter(h, seen, s, b);
    forall n | Held(seen.names, domain, n, b.slot) ensures Held(s.names, domain, n, b.slot) {
      assert Holder(seen.names, (domain, n)) == Some(b.slot);
      assert Holder(s.names, (domain, n)) == Some(b.slot);
    }
    forall e | Lists(h, s, b, e) ensures Lists(h, seen, b, e) {
      assert Find(Commit(h, seen, b).records, b.slot) == Find(Commit(h, s, b).records, b.slot);
    }
  }

  /** The lock is per path, so it does not guard the name index between paths. Committing
      a plan made on an older store keeps the registry sound exactly when no other slot has
      since come to register a name it claims. */
  lemma StaleCommitIsSoundIff(h: Host, seen: Store, s: Store, c: Call)
    requires Inv(h, seen) && Inv(h, s) && Plausible(c) && Locks(c.op) && Decide(h, seen, c).Ok?
    requires SameSlot(seen, s, c.op.slot) && OwnNamesHeld(seen, s, c.op.slot)
    ensures
      var b := Decide(h, seen, c).value;
      Inv(h, Commit(h, s, b)) <==> !exists n, m, e :: TakesFrom(h, s, b, n, m, e)
  {
    var b := Decide(h, seen, c).value;
    DecideFits(h, seen, c);
    BatchOfCall(h, seen, c);
    StaleShapeFits(h, seen, s, b);
    StaleNamesKept(h, seen, s, b);
    CommitKeepsInvIff(h, s, b);
  }

  // ---------------------------------------------------------------------
  // The registry under interleaving
  // ---------------------------------------------------------------------

  /** Every plan was made on a sound store, and its slot still holds the names it held
      then. */
  ghost predicate PlanSound(h: Host, w: World, id: nat) {
    Has(w, id) && w.callers[id].phase.Planned? ==>
      Inv(h, w.callers[id].phase.seen) && OwnNamesHeld(w.callers[id].phase.seen, w.store, Path(w.callers[id]))
  }

  ghost predicate Sound(h: Host, w: World) {
    Orderly(h, w) && Inv(h, w.store) && (forall id :: PlanSound(h, w, id)) && (forall id :: ReadsStand(w, id))
  }

  /** The names a commit claims are still free, or its own. */
  ghost predicate StillFree(h: Host, w: World, e: Event) {
    e.Finish? && e.id in w.callers && w.callers[e.id].phase.Planned? && w.callers[e.id].phase.plan.Ok? ==>
      ClaimsFree(h, w.store, w.callers[e.id].phase.plan.value)
  }

  lemma FinishFits(h: Host, w: World, id: nat)
    requires Sound(h, w) && Enabled(w, Finish(id)) && StillFree(h, w, Finish(id)) && w.callers[id].phase.plan.Ok?
    ensures Fits(h, w.store, w.callers[id].phase.plan.value)
    ensures w.callers[id].phase.plan.value.slot == Path(w.callers[id])
  {
    var t := w.callers[id];
    var b := t.phase.plan.value;
    assert CallerOk(h, w, id) && PlanSound(h, w, id) && ReadsStand(w, id);
    DecideFits(h, t.phase.seen, t.call);
    BatchOfCall(h, t.phase.seen, t.call);
    StaleShapeFits(h, t.phase.seen, w.store, b);
    StaleNamesKept(h, t.phase.seen, w.store, b);
  }

  /** A fitting batch of another slot leaves a slot's names with it. */
  lemma OthersLeaveNames(h: Host, s: Store, b: Batch, key: (string, string))
    requires Fits(h, s, b) && Holder(s.names, key).Some? && Holder(s.names, key) != Some(b.slot)
    ensures Holder(Commit(h, s, b).names, key) == Holder(s.names, key)
  {
    IndexAt(h, s, b, key);
  }

  lemma StoreStaysSound(h: Host, w: World, e: Event)
    requires Sound(h, w) && Enabled(w, e) && StillFree(h, w, e)
    ensures Inv(h, Step(h, w, e).store)
  {
    match e
    case Finish(id) =>
      if w.callers[id].phase.plan.Ok? {
        FinishFits(h, w, id);
        CommitKeepsInv(h, w.store, w.callers[id].phase.plan.value);
      }
    case Lockless(call) => StepKeepsInv(h, w.store, call);
    case _ =>
  }

  lemma HeldNamesStay(h: Host, w: World, e: Event, id: nat, key: (string, string))
    requires Sound(h, w) && Enabled(w, e) && StillFree(h, w, e)
    requires Has(w, id) && w.callers[id].phase.Planned? && !(e.Finish? && e.id == id)
    requires Holder(w.store.names, key) == Some(Path(w.callers[id]))
    ensures Holder(Step(h, w, e).store.names, key) == Some(Path(w.callers[id]))
  {
    match e
    case Lockless(call) => NameStep(h, w.store, call, key);
    case Finish(other) =>
      assert CallerOk(h, w, id) && CallerOk(h, w, other);
      if w.callers[other].phase.plan.Ok? {
        FinishFits(h, w, other);
        OthersLeaveNames(h, w.store, w.callers[other].phase.plan.value, key);
      }
    case _ =>
  }

  lemma PlanStaysSound(h: Host, w: World, e: Event, id: nat)
    requires Sound(h, w) && Enabled(w, e) && StillFree(h, w, e)
    ensures PlanSound(h, Step(h, w, e), id)
  {
    var v := Step(h, w, e);
    assert PlanSound(h, w, id) && CallerOk(h, w, id) && ReadsStand(w, id);
    if Has(v, id) && v.callers[id].phase.Planned? {
      var m := Path(v.callers[id]);
      if e.Judge? && e.id == id {
        SeenIsStore(w.store, m);
      } else {
        forall key | Holder(v.callers[id].phase.seen.names, key) == Some(m)
          ensures Holder(v.store.names, key) == Some(m) {
          HeldNamesStay(h, w, e, id, key);
        }
      }
    }
  }

  lemma StepStaysSound(h: Host, w: World, e: Event)
    requires Sound(h, w) && Enabled(w, e) && StillFree(h, w, e) && forall m :: StaysClear(w, e, m)
    ensures Sound(h, Step(h, w, e))
  {
    StepStaysOrderly(h, w, e);
    forall id ensures ReadsStand(Step(h, w, e), id) { ReadsStayStanding(h, w, e, id); }
    StoreStaysSound(h, w, e);
    forall id ensures PlanSound(h, Step(h, w, e), id) { PlanStaysSound(h, w, e, id); }
  }

  /** Nobody's claims were overtaken on the way. */
  ghost predicate NeverOvertaken(h: Host, w: World, events: seq<Event>)
    requires Schedule(h, w, events)
    decreases events
  {
    events != [] ==> StillFree(h, w, events[0]) && NeverOvertaken(h, Step(h, w, events[0]), events[1..])
  }

  /** No lockless operation touches any path while it is held. */
  ghost predicate AllClear(h: Host, w: World, events: seq<Event>)
    requires Schedule(h, w, events)
    decreases events
  {
    events != [] ==> (forall m :: StaysClear(w, events[0], m)) && AllClear(h, Step(h, w, events[0]), events[1..])
  }

  /** However many calls on however many paths interleave: if lockless operations keep off
      the paths that are held, and the names each commit claims are free at that moment, the
      registry and its indexes stay sound throughout. */
  lemma {:induction false} RegistrySurvivesInterleaving(h: Host, w: World, events: seq<Event>)
    requires Sound(h, w) && Schedule(h, w, events) && AllClear(h, w, events) && NeverOvertaken(h, w, events)
    ensures Sound(h, Play(h, w, events))
    decreases events
  {
    if events != [] {
      StepStaysSound(h, w, events[0]);
      RegistrySurvivesInterleaving(h, Step(h, w, events[0]), events[1..]);
    }
  }

  // ---------------------------------------------------------------------
  // Every schedule
  // ---------------------------------------------------------------------

  /** A plan committed here leaves everything in agreement. */
  ghost predicate CommitSound(h: Host, w: World, e: Event) {
    e.Finish? && e.id in w.callers && w.callers[e.id].phase.Planned? && w.callers[e.id].phase.plan.Ok? ==>
      SoundHere(h, w.store, w.callers[e.id].phase.plan.value)
  }

  ghost predicate EveryCommitSound(h: Host, w: World, events: seq<Event>)
    requires Schedule(h, w, events)
    decreases events
  {
    events != [] ==> CommitSound(h, w, events[0]) && EveryCommitSound(h, Step(h, w, events[0]), events[1..])
  }

  ghost predicate InvThroughout(h: Host, w: World, events: seq<Event>)
    requires Schedule(h, w, events)
    decreases events
  {
    Inv(h, w.store) && (events != [] ==> InvThroughout(h, Step(h, w, events[0]), events[1..]))
  }

  lemma DecidedSlotIsOk(h: Host, s: Store, c: Call)
    requires Locks(c.op) && Decide(h, s, c).Ok?
    ensures MnemonicOk(Decide(h, s, c).value.slot)
  {
    BatchOfCall(h, s, c);
    if c.op.OpRegister? {
      assert RegisterCheck(h, s, c.auth, c.op.slot, c.op.log, c.op.force) == None;
    } else {
      assert Authorized(s, c.op.slot, c.auth).Ok?;
    }
  }

  lemma StepIsSoundIff(h: Host, w: World, e: Event)
    requires Orderly(h, w) && Inv(h, w.store) && Enabled(w, e)
    ensures Inv(h, Step(h, w, e).store) <==> CommitSound(h, w, e)
  {
    match e
    case Finish(id) =>
      assert CallerOk(h, w, id);
      var t := w.callers[id];
      if t.phase.plan.Ok? {
        DecidedSlotIsOk(h, t.phase.seen, t.call);
        CommitIsSoundIff(h, w.store, t.phase.plan.value);
      }
    case Lockless(call) => StepKeepsInv(h, w.store, call);
    case _ =>
  }

  /** For every schedule whatsoever, lockless operations on held paths included: records,
      logs, witness files and both indexes agree throughout exactly when each plan, at the
      store it commits to, fits the slot as it then is and takes no other slot's name. */
  lemma {:induction false} AgreementHoldsIff(h: Host, w: World, events: seq<Event>)
    requires Orderly(h, w) && Inv(h, w.store) && Schedule(h, w, events)
    ensures InvThroughout(h, w, events) <==> EveryCommitSound(h, w, events)
    decreases events
  {
    if events != [] {
      StepStaysOrderly(h, w, events[0]);
      StepIsSoundIff(h, w, events[0]);
      if CommitSound(h, w, events[0]) {
        AgreementHoldsIff(h, Step(h, w, events[0]), events[1..]);
      } else {
        BrokenAtOnce(h, Step(h, w, events[0]), events[1..]);
      }
    }
  }

  lemma BrokenAtOnce(h: Host, w: World, events: seq<Event>)
    requires Schedule(h, w, events) && !Inv(h, w.store)
    ensures !InvThroughout(h, w, events)
  {
  }

  // ---------------------------------------------------------------------
  // A schedule that overtakes
  // ---------------------------------------------------------------------

  lemma Front(h: Host, w: World, e: Event, rest: seq<Event>)
    requires Enabled(w, e) && Schedule(h, Step(h, w, e), rest)
    ensures Schedule(h, w, [e] + rest) && Play(h, w, [e] + rest) == Play(h, Step(h, w, e), rest)
  {
    assert ([e] + rest)[1..] == rest;
  }

  /** The steps of a call up to its plan. */
  function UpToPlan(id: nat, c: Call): seq<Event> {
    [Begin(id, c)] + ([Acquire(id)] + ([FetchLog(id)] + ([FetchProofs(id)] + ([Judge(id)] + []))))
  }

  function Holding(w: World, id: nat, c: Call, phase: Phase): World
    requires Locks(c.op)
  {
    World(w.store, w.callers[id := Caller(c, phase)], w.holder[c.op.slot := id])
  }

  lemma EntersAlone(h: Host, w: World, id: nat, c: Call)
    requires id !in w.callers && Locks(c.op) && c.op.slot !in w.holder
    ensures Step(h, Step(h, w, Begin(id, c)), Acquire(id)) == Holding(w, id, c, Entered)
  {
  }

  lemma ReadsAlone(h: Host, w: World, id: nat, c: Call)
    requires Locks(c.op)
    ensures
      var log, proofs := Find(w.store.logs, c.op.slot), Find(w.store.proofs, c.op.slot);
      && Step(h, Holding(w, id, c, Entered), FetchLog(id)) == Holding(w, id, c, ReadLog(log))
      && Step(h, Holding(w, id, c, ReadLog(log)), FetchProofs(id)) == Holding(w, id, c, ReadBoth(log, proofs))
  {
  }

  lemma JudgesAlone(h: Host, w: World, id: nat, c: Call)
    requires Locks(c.op)
    ensures
      var log, proofs := Find(w.store.logs, c.op.slot), Find(w.store.proofs, c.op.slot);
      Step(h, Holding(w, id, c, ReadBoth(log, proofs)), Judge(id))
      == Holding(w, id, c, Planned(Decide(h, w.store, c), w.store))
  {
    SeenIsStore(w.store, c.op.slot);
  }

  lemma PlansAlone(h: Host, w: World, id: nat, c: Call)
    requires id !in w.callers && Locks(c.op) && c.op.slot !in w.holder
    ensures Schedule(h, w, UpToPlan(id, c))
    ensures Play(h, w, UpToPlan(id, c)) == Holding(w, id, c, Planned(Decide(h, w.store, c), w.store))
  {
    var log, proofs := Find(w.store.logs, c.op.slot), Find(w.store.proofs, c.op.slot);
    EntersAlone(h, w, id, c);
    ReadsAlone(h, w, id, c);
    JudgesAlone(h, w, id, c);
    Front(h, Holding(w, id, c, ReadBoth(log, proofs)), Judge(id), []);
    Front(h, Holding(w, id, c, ReadLog(log)), FetchProofs(id), [Judge(id)] + []);
    Front(h, Holding(w, id, c, Entered), FetchLog(id), [FetchProofs(id)] + ([Judge(id)] + []));
    Front(h, Step(h, w, Begin(id, c)), Acquire(id), [FetchLog(id)] + ([FetchProofs(id)] + ([Judge(id)] + [])));
    Front(h, w, Begin(id, c), [Acquire(id)] + ([FetchLog(id)] + ([FetchProofs(id)] + ([Judge(id)] + []))));
  }

  lemma {:induction false} PlayInTwo(h: Host, w: World, early: seq<Event>, late: seq<Event>)
    requires Schedule(h, w, early) && Schedule(h, Play(h, w, early), late)
    ensures Schedule(h, w, early + late) && Play(h, w, early + late) == Play(h, Play(h, w, early), late)
    decreases early
  {
    if early == [] {
      assert early + late == late;
    } else {
      PlayInTwo(h, Step(h, w, early[0]), early[1..], late);
      assert (early + late)[1..] == early[1..] + late;
    }
  }

  /** Two planned calls, one committing after the other. */
  lemma FinishBoth(h: Host, w: World, p: Batch, q: Batch)
    requires Has(w, 0) && Has(w, 1) && w.callers[0].phase.Planned? && w.callers[1].phase.Planned?
    requires w.callers[0].phase.plan == Ok(p) && w.callers[1].phase.plan == Ok(q)
    ensures Schedule(h, w, [Finish(0)] + ([Finish(1)] + []))
    ensures Play(h, w, [Finish(0)] + ([Finish(1)] + [])).store == Commit(h, Commit(h, w.store, p), q)
  {
    Front(h, Step(h, w, Finish(0)), Finish(1), []);
    Front(h, w, Finish(0), [Finish(1)] + []);
  }

  /** Two calls on different paths may both judge one store, and then both commit. */
  lemma BothPlanThenCommit(h: Host, s: Store, c: Call, d: Call) returns (events: seq<Event>)
    requires Locks(c.op) && Locks(d.op) && c.op.slot != d.op.slot
    requires Decide(h, s, c).Ok? && Decide(h, s, d).Ok?
    ensures Schedule(h, Start(s), events)
    ensures Play(h, Start(s), events).store == Commit(h, Commit(h, s, Decide(h, s, c).value), Decide(h, s, d).value)
  {
    var w := Start(s);
    var ends := [Finish(0)] + ([Finish(1)] + []);
    PlansAlone(h, w, 0, c);
    var w1 := Holding(w, 0, c, Planned(Decide(h, s, c), s));
    PlansAlone(h, w1, 1, d);
    FinishBoth(h, Holding(w1, 1, d, Planned(Decide(h, s, d), s)), Decide(h, s, c).value, Decide(h, s, d).value);
    PlayInTwo(h, w1, UpToPlan(1, d), ends);
    PlayInTwo(h, w, UpToPlan(0, c), UpToPlan(1, d) + ends);
    events := UpToPlan(0, c) + (UpToPlan(1, d) + ends);
  }

  /** An operation that takes no lock may run between the plan and the commit of a call, on
      the very same slot. */
  lemma LocklessBetween(h: Host, s: Store, c: Call, d: Call) returns (events: seq<Event>)
    requires Locks(c.op) && !Locks(d.op) && Plausible(d) && Decide(h, s, c).Ok?
    ensures Schedule(h, Start(s), events)
    ensures Play(h, Start(s), events).store == Commit(h, Do(h, s, d).store, Decide(h, s, c).value)
  {
    var ends := [Lockless(d)] + ([Finish(0)] + []);
    var w := Holding(Start(s), 0, c, Planned(Decide(h, s, c), s));
    PlansAlone(h, Start(s), 0, c);
    Front(h, Step(h, w, Lockless(d)), Finish(0), []);
    Front(h, w, Lockless(d), [Finish(0)] + []);
    PlayInTwo(h, Start(s), UpToPlan(0, c), ends);
    events := UpToPlan(0, c) + ends;
  }

  // ---------------------------------------------------------------------
  // A delete in between
  // ---------------------------------------------------------------------

  /** Committing the publish brings the record back without its owner key. */
  lemma DeletedComesBackUnowned(h: Host, s: Store, c: Call, d: Call)
    requires c.op.OpPublish? && d.op == OpDelete(c.op.slot) && Decide(h, s, c).Ok? && Decide(h, s, d).Ok?
    ensures !OwnersExact(Commit(h, Commit(h, s, Decide(h, s, d).value), Decide(h, s, c).value))
  {
    CallStores(h, s, c);
    var m := c.op.slot;
    var t := Commit(h, s, Decide(h, s, d).value);
    var u := Commit(h, t, Decide(h, s, c).value);
    var key := OwnerKey(s.records[m].owner, m);
    assert u.owners == t.owners && key !in t.owners;
    assert m in u.records && u.records[m].owner == s.records[m].owner && Find(u.owners, key) == None;
  }

  /** A delete takes no lock: let it run between the plan and the commit of a publish on the
      same slot, and the owner index loses the slot that the commit brings back. */
  lemma DeleteBetween(h: Host, s: Store, c: Call, d: Call) returns (events: seq<Event>)
    requires c.op.OpPublish? && d.op == OpDelete(c.op.slot) && Decide(h, s, c).Ok? && Decide(h, s, d).Ok?
    ensures Schedule(h, Start(s), events) && !OwnersExact(Play(h, Start(s), events).store)
  {
    events := LocklessBetween(h, s, c, d);
    DeletedComesBackUnowned(h, s, c, d);
  }

  // ---------------------------------------------------------------------
  // A rollback in between
  // ---------------------------------------------------------------------

  lemma CutDropsProofs(h: Host, s: Store, c: Call)
    requires c.op.OpRollBack? && Do(h, s, c).error.None? && Do(h, s, c).store != s
    ensures c.op.slot !in Do(h, s, c).store.proofs
  {
    var b := Decide(h, s, c).value;
    if b == Untouched(c.op.slot) {
      NoNamesNoChange(s.names, h.domainOf(c.op.slot), c.op.slot);
    }
  }

  /** The entry needs at least one proof. */
  predicate NeedsProofs(p: Gates.Params) {
    p.active.Some? && p.active.value.threshold > 0
  }

  /** Without proofs, an entry meets its threshold exactly when it needs none. */
  lemma MeetsWithNone(p: Gates.Params, lo: nat, hi: nat)
    ensures Gates.Meets(p, {}, lo, hi) <==> !NeedsProofs(p)
  {
    if p.active.Some? {
      assert Gates.Backers({}, p.active.value, lo, hi) == {};
    }
  }

  /** Without proofs, the gate accepts exactly the sound logs whose published part needs
      none. */
  lemma AcceptedWithNoneIff(lib: Gates.Library, lines: seq<string>, published: nat)
    requires Gates.WellFormed(lib, lines) && |Gates.Chain(lib, Gates.Entries(lib, lines))| == |lines|
    ensures
      var ps := Gates.Chain(lib, Gates.Entries(lib, lines));
      Gates.PublishAccepts(lib, lines, None, published)
      <==> forall i :: 0 <= i < Min(published, |lines|) ==> !NeedsProofs(ps[i])
  {
    var ps := Gates.Chain(lib, Gates.Entries(lib, lines));
    var k := Min(published, |lines|);
    forall i | 0 <= i < k ensures Gates.Meets(ps[i], {}, i + 1, k) <==> !NeedsProofs(ps[i]) {
      MeetsWithNone(ps[i], i + 1, k);
    }
    if i :| 0 <= i < k && NeedsProofs(ps[i]) {
      assert ps[..k][i].active.Some?;
      assert !Gates.Meets(ps[i], {}, i + 1, k);
    }
  }

  /** A rollback takes no lock. Once it has cut a log, the gate accepts a log whose chain
      holds exactly when no entry of its still-published part needs a proof: every other one
      waits for its witnesses to sign again, a plan made before the rollback included. */
  lemma RollbackVoidsTheProofs(h: Host, s: Store, c: Call, log: string)
    requires c.op.OpRollBack? && Do(h, s, c).error.None? && Do(h, s, c).store != s
    requires Gates.WellFormed(h.lib, EntryLines(log))
    requires |Gates.Chain(h.lib, Gates.Entries(h.lib, EntryLines(log)))| == EntryCount(Some(log))
    ensures
      var t, m := Do(h, s, c).store, c.op.slot;
      var ps := Gates.Chain(h.lib, Gates.Entries(h.lib, EntryLines(log)));
      GateAccepts(h, t, m, log)
      <==> forall i :: 0 <= i < Min(EntryCount(Find(t.logs, m)), |ps|) ==> !NeedsProofs(ps[i])
  {
    CutDropsProofs(h, s, c);
    AcceptedWithNoneIff(h.lib, EntryLines(log), EntryCount(Find(Do(h, s, c).store.logs, c.op.slot)));
  }
}
