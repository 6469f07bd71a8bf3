/** Calls that take the per-path lock, step by step and interleaved
    (did-hosting-control/src/did_ops.rs:504-544, 740, 1084-1162, 1278-1393, 1409-1519, 1857-1931;
    did-hosting-common/src/server/path_locks.rs).

    A call waits for its path, reads the stored log, reads the stored witness file, judges
    and plans its batch, and commits. Calls on other paths, and the operations that take no
    lock, may run between any two of these steps. */
module PathLock {
  import opened Common
  import opened LogText
  import Files = WitnessFile
  import opened SlotStore
  import opened SlotFrame
  import opened StoringCalls
  import opened NameOwnership
  import Gates = LogGates

  /** The operations that hold the lock of their path. */
  predicate Locks(op: Op) {
    op.OpRegister? || op.OpPublish? || op.OpName? || op.OpUpload? || op.OpChangeOwner?
  }

  datatype Phase =
    | Waiting
    | Entered
    | ReadLog(log: Option<string>)
    | ReadBoth(log: Option<string>, proofs: Option<Files.Stored>)
    | Planned(plan: Result<Batch, Error>, ghost seen: Store)

  datatype Caller = Caller(call: Call, phase: Phase)

  datatype World = World(store: Store, callers: map<nat, Caller>, holder: map<string, nat>)

  datatype Event =
    | Begin(id: nat, call: Call)
    | Acquire(id: nat)
    | FetchLog(id: nat)
    | FetchProofs(id: nat)
    | Judge(id: nat)
    | Finish(id: nat)
    | Lockless(call: Call)

  function Path(t: Caller): string
    requires Locks(t.call.op)
  {
    t.call.op.slot
  }

  ghost predicate Has(w: World, id: nat) {
    id in w.callers && Locks(w.callers[id].call.op)
  }

  ghost predicate Enabled(w: World, e: Event) {
    match e
    case Begin(id, call) => id !in w.callers && Locks(call.op)
    case Acquire(id) => Has(w, id) && w.callers[id].phase.Waiting? && Path(w.callers[id]) !in w.holder
    case FetchLog(id) => Has(w, id) && w.callers[id].phase.Entered?
    case FetchProofs(id) => Has(w, id) && w.callers[id].phase.ReadLog?
    case Judge(id) => Has(w, id) && w.callers[id].phase.ReadBoth?
    case Finish(id) => Has(w, id) && w.callers[id].phase.Planned?
    case Lockless(call) => !Locks(call.op) && Plausible(call)
  }

  /** The store as a call sees it: the log and witness file it read earlier, the rest as it
      stands. */
  function Seen(s: Store, m: string, log: Option<string>, proofs: Option<Files.Stored>): Store {
    s.(logs := Edit(s.logs, m, if log.Some? then Put(log.value) else Drop),
       proofs := Edit(s.proofs, m, if proofs.Some? then Put(proofs.value) else Drop))
  }

  ghost function Step(h: Host, w: World, e: Event): World
    requires Enabled(w, e)
  {
    match e
    case Begin(id, call) => w.(callers := w.callers[id := Caller(call, Waiting)])
    case Acquire(id) =>
      w.(callers := w.callers[id := w.callers[id].(phase := Entered)], holder := w.holder[Path(w.callers[id]) := id])
    case FetchLog(id) =>
      w.(callers := w.callers[id := w.callers[id].(phase := ReadLog(Find(w.store.logs, Path(w.callers[id]))))])
    case FetchProofs(id) =>
      var t := w.callers[id];
      w.(callers := w.callers[id := t.(phase := ReadBoth(t.phase.log, Find(w.store.proofs, Path(t))))])
    case Judge(id) =>
      var t := w.callers[id];
      var seen := Seen(w.store, Path(t), t.phase.log, t.phase.proofs);
      w.(callers := w.callers[id := t.(phase := Planned(Decide(h, seen, t.call), seen))])
    case Finish(id) =>
      var t := w.callers[id];
      World(if t.phase.plan.Ok? then Commit(h, w.store, t.phase.plan.value) else w.store,
            w.callers - {id}, w.holder - {Path(t)})
    case Lockless(call) => w.(store := Do(h, w.store, call).store)
  }

  // ---------------------------------------------------------------------
  // What the lock guarantees
  // ---------------------------------------------------------------------

  /** A path is held by the one caller that has entered it. */
  ghost predicate HolderOk(w: World, m: string) {
    m in w.holder ==> Has(w, w.holder[m]) && !w.callers[w.holder[m]].phase.Waiting? && Path(w.callers[w.holder[m]]) == m
  }

  /** A caller beyond waiting holds its path, and a plan is what it decided on. */
  ghost predicate CallerOk(h: Host, w: World, id: nat) {
    id in w.callers ==>
      && Has(w, id)
      && var t := w.callers[id];
         && (!t.phase.Waiting? ==> Path(t) in w.holder && w.holder[Path(t)] == id)
         && (t.phase.Planned? ==> t.phase.plan == Decide(h, t.phase.seen, t.call))
  }

  /** What a caller has read is still stored. */
  ghost predicate ReadsStand(w: World, id: nat) {
    Has(w, id) ==>
      var t := w.callers[id];
      var m := Path(t);
      match t.phase
      case Waiting => true
      case Entered => true
      case ReadLog(log) => log == Find(w.store.logs, m)
      case ReadBoth(log, proofs) => log == Find(w.store.logs, m) && proofs == Find(w.store.proofs, m)
      case Planned(_, seen) => SameSlot(seen, w.store, m)
  }

  ghost predicate Orderly(h: Host, w: World) {
    && (forall m :: HolderOk(w, m))
    && (forall id :: CallerOk(h, w, id))
  }

  /** No lockless operation on the path while it is held. */
  ghost predicate StaysClear(w: World, e: Event, m: string) {
    e.Lockless? && Target(w.store, e.call) == Some(m) ==> m !in w.holder
  }

  lemma SeenIsStore(s: Store, m: string)
    ensures Seen(s, m, Find(s.logs, m), Find(s.proofs, m)) == s
  {
    assert Edit(s.logs, m, if m in s.logs then Put(s.logs[m]) else Drop) == s.logs;
    assert Edit(s.proofs, m, if m in s.proofs then Put(s.proofs[m]) else Drop) == s.proofs;
  }

  lemma FinishElsewhere(h: Host, w: World, id: nat, m: string)
    requires Orderly(h, w) && Enabled(w, Finish(id)) && Path(w.callers[id]) != m
    ensures SameSlot(w.store, Step(h, w, Finish(id)).store, m)
  {
    assert CallerOk(h, w, id);
    var t := w.callers[id];
    if t.phase.plan.Ok? {
      BatchOfCall(h, t.phase.seen, t.call);
      CommitElsewhere(h, w.store, t.phase.plan.value, m);
    }
  }

  lemma CallerStaysOk(h: Host, w: World, e: Event, id: nat)
    requires Orderly(h, w) && Enabled(w, e)
    ensures CallerOk(h, Step(h, w, e), id)
  {
    assert CallerOk(h, w, id);
    if !e.Lockless? && e.id != id { assert CallerOk(h, w, e.id); }
  }

  lemma HolderStaysOk(h: Host, w: World, e: Event, m: string)
    requires Orderly(h, w) && Enabled(w, e)
    ensures HolderOk(Step(h, w, e), m)
  {
    assert HolderOk(w, m);
    if !e.Lockless? { assert CallerOk(h, w, e.id); }
  }

  lemma StepStaysOrderly(h: Host, w: World, e: Event)
    requires Orderly(h, w) && Enabled(w, e)
    ensures Orderly(h, Step(h, w, e))
  {
    var v := Step(h, w, e);
    forall m ensures HolderOk(v, m) { HolderStaysOk(h, w, e, m); }
    forall id ensures CallerOk(h, v, id) { CallerStaysOk(h, w, e, id); }
  }

  /** A schedule whose every step is possible. */
  ghost predicate Schedule(h: Host, w: World, events: seq<Event>)
    decreases events
  {
    events == [] || (Enabled(w, events[0]) && Schedule(h, Step(h, w, events[0]), events[1..]))
  }

  ghost function Play(h: Host, w: World, events: seq<Event>): World
    requires Schedule(h, w, events)
    decreases events
  {
    if events == [] then w else Play(h, Step(h, w, events[0]), events[1..])
  }

  function Start(s: Store): World {
    World(s, map[], map[])
  }

  lemma {:induction false} PlayStaysOrderly(h: Host, w: World, events: seq<Event>)
    requires Orderly(h, w) && Schedule(h, w, events)
    ensures Orderly(h, Play(h, w, events))
    decreases events
  {
    if events != [] {
      StepStaysOrderly(h, w, events[0]);
      PlayStaysOrderly(h, Step(h, w, events[0]), events[1..]);
    }
  }

  /** Through every schedule, lockless operations included, one caller at a time is beyond
      waiting on a path. */
  lemma PathsAreExclusive(h: Host, s: Store, events: seq<Event>, id: nat, other: nat)
    requires Schedule(h, Start(s), events)
    requires
      var w := Play(h, Start(s), events);
      && id in w.callers && other in w.callers && Has(w, id) && Has(w, other)
      && !w.callers[id].phase.Waiting? && !w.callers[other].phase.Waiting?
      && Path(w.callers[id]) == Path(w.callers[other])
    ensures id == other
  {
    PlayStaysOrderly(h, Start(s), events);
    assert CallerOk(h, Play(h, Start(s), events), id) && CallerOk(h, Play(h, Start(s), events), other);
  }

  // ---------------------------------------------------------------------
  // What a caller has read
  // ---------------------------------------------------------------------

  /** What a step leaves of a path its actor does not hold. */
  lemma HeldSlotStays(h: Host, w: World, e: Event, id: nat)
    requires Orderly(h, w) && Enabled(w, e) && Has(w, id) && StaysClear(w, e, Path(w.callers[id]))
    requires !w.callers[id].phase.Waiting? && !(e.Finish? && e.id == id)
    ensures SameSlot(w.store, Step(h, w, e).store, Path(w.callers[id]))
  {
    assert CallerOk(h, w, id);
    var m := Path(w.callers[id]);
    match e
    case Lockless(call) => OffTargetStays(h, w.store, call, m);
    case Finish(other) =>
      assert CallerOk(h, w, other);
      FinishElsewhere(h, w, other, m);
    case _ =>
  }

  lemma ReadsStayStanding(h: Host, w: World, e: Event, id: nat)
    requires Orderly(h, w) && Enabled(w, e) && ReadsStand(w, id)
    requires Has(w, id) ==> StaysClear(w, e, Path(w.callers[id]))
    ensures ReadsStand(Step(h, w, e), id)
  {
    if Has(w, id) && !w.callers[id].phase.Waiting? {
      if e.Judge? && e.id == id {
        SeenIsStore(w.store, Path(w.callers[id]));
      } else if !(e.Finish? && e.id == id) {
        HeldSlotStays(h, w, e, id);
      }
    }
  }

  /** Everything read on the path still stands. */
  ghost predicate Standing(w: World, m: string) {
    forall id :: Has(w, id) && Path(w.callers[id]) == m ==> ReadsStand(w, id)
  }

  ghost predicate KeepsClear(h: Host, w: World, events: seq<Event>, m: string)
    requires Schedule(h, w, events)
    decreases events
  {
    events != [] ==> StaysClear(w, events[0], m) && KeepsClear(h, Step(h, w, events[0]), events[1..], m)
  }

  lemma StepStaysStanding(h: Host, w: World, e: Event, m: string)
    requires Orderly(h, w) && Enabled(w, e) && Standing(w, m) && StaysClear(w, e, m)
    ensures Standing(Step(h, w, e), m)
  {
    var v := Step(h, w, e);
    forall id | Has(v, id) && Path(v.callers[id]) == m ensures ReadsStand(v, id) {
      if Has(w, id) { ReadsStayStanding(h, w, e, id); }
    }
  }

  /** Along every schedule in which no lockless operation touches a path while it is held,
      what has been read on that path stays as it is stored. */
  lemma {:induction false} PlayStaysStanding(h: Host, w: World, events: seq<Event>, m: string)
    requires Orderly(h, w) && Schedule(h, w, events) && KeepsClear(h, w, events, m) && Standing(w, m)
    ensures Standing(Play(h, w, events), m)
    decreases events
  {
    if events != [] {
      StepStaysOrderly(h, w, events[0]);
      StepStaysStanding(h, w, events[0], m);
      PlayStaysStanding(h, Step(h, w, events[0]), events[1..], m);
    }
  }

  /** The caller is about to put a log in place. */
  ghost predicate AboutToStore(w: World, id: nat) {
    Has(w, id) && w.callers[id].phase.Planned? && w.callers[id].phase.plan.Ok? && StoresLog(w.callers[id].call.op)
  }

  lemma SameSlotSameGate(h: Host, s: Store, t: Store, m: string, log: string)
    requires SameSlot(s, t, m)
    ensures GateAccepts(h, s, m, log) <==> GateAccepts(h, t, m, log)
  {
  }

  lemma StoresWhatWasJudged(h: Host, w: World, id: nat)
    requires Orderly(h, w) && AboutToStore(w, id) && ReadsStand(w, id)
    ensures
      var t := w.callers[id];
      && GateAccepts(h, w.store, Path(t), t.call.op.log)
      && t.phase.plan.value.slot == Path(t) && t.phase.plan.value.log == Put(t.call.op.log)
  {
    assert CallerOk(h, w, id);
    var t := w.callers[id];
    CallStores(h, t.phase.seen, t.call);
    SameSlotSameGate(h, t.phase.seen, w.store, Path(t), t.call.op.log);
  }

  /** The schedule keeps lockless operations off the caller's path while it is held. */
  ghost predicate ClearFor(h: Host, s: Store, events: seq<Event>, id: nat)
    requires Schedule(h, Start(s), events) && Has(Play(h, Start(s), events), id)
  {
    KeepsClear(h, Start(s), events, Path(Play(h, Start(s), events).callers[id]))
  }

  /** For every schedule of lock-taking calls on a path, whatever runs on others: when a log
      commits, the gate accepts it against the log and the witness file that are stored at
      that moment. No entry published meanwhile was taken for exempt new tail. */
  lemma NothingExemptSlipsIn(h: Host, s: Store, events: seq<Event>, id: nat)
    requires Schedule(h, Start(s), events) && AboutToStore(Play(h, Start(s), events), id)
    requires ClearFor(h, s, events, id)
    ensures
      var w := Play(h, Start(s), events);
      var t := w.callers[id];
      && GateAccepts(h, w.store, Path(t), t.call.op.log)
      && Find(Step(h, w, Finish(id)).store.logs, Path(t)) == Some(t.call.op.log)
  {
    var w := Play(h, Start(s), events);
    PlayStaysOrderly(h, Start(s), events);
    PlayStaysStanding(h, Start(s), events, Path(w.callers[id]));
    StoresWhatWasJudged(h, w, id);
  }

  /** A register that takes the slot from another owner. */
  predicate Takeover(s: Store, c: Call) {
    c.op.OpRegister? && c.op.slot in s.records && s.records[c.op.slot].owner != c.auth.did
  }

  lemma FinishKeepsProofs(h: Host, w: World, id: nat)
    requires Orderly(h, w) && AboutToStore(w, id) && ReadsStand(w, id) && !Takeover(w.store, w.callers[id].call)
    ensures Find(Step(h, w, Finish(id)).store.proofs, Path(w.callers[id])) == Find(w.store.proofs, Path(w.callers[id]))
  {
    assert CallerOk(h, w, id);
    var t := w.callers[id];
    CallStores(h, t.phase.seen, t.call);
  }

  /** So, for every schedule, resolvers are served at least as many entries of the new log as
      had been published when it commits, or all of it, unless the slot changes hands. */
  lemma CommittedLogIsServed(h: Host, s: Store, events: seq<Event>, id: nat, r: Gates.Served)
    requires Schedule(h, Start(s), events) && AboutToStore(Play(h, Start(s), events), id)
    requires ClearFor(h, s, events, id)
    requires !Takeover(Play(h, Start(s), events).store, Play(h, Start(s), events).callers[id].call)
    requires
      var w := Play(h, Start(s), events);
      var t := w.callers[id];
      Gates.IsServed(h.lib, EntryLines(t.call.op.log),
                     Files.HeldBy(Find(Step(h, w, Finish(id)).store.proofs, Path(t))), r)
    ensures
      var w := Play(h, Start(s), events);
      var t := w.callers[id];
      var entries := |EntryLines(t.call.op.log)|;
      Gates.ServedCount(r, entries) >= Min(EntryCount(Find(w.store.logs, Path(t))), entries)
  {
    var w := Play(h, Start(s), events);
    var t := w.callers[id];
    PlayStaysOrderly(h, Start(s), events);
    PlayStaysStanding(h, Start(s), events, Path(t));
    NothingExemptSlipsIn(h, s, events, id);
    FinishKeepsProofs(h, w, id);
    Gates.PublishImpliesServed(h.lib, EntryLines(t.call.op.log), Find(w.store.proofs, Path(t)),
                               EntryCount(Find(w.store.logs, Path(t))), r);
  }
}
