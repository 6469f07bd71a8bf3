/** Quotas when calls on different paths interleave: the caps are checked before the commit,
    under a lock per path (did-hosting-control/src/did_ops.rs:186-263, 621-646, 849-886). */
module ConcurrentQuotas {
  import opened SlotStore
  import opened SlotInvariant
  import opened SlotFrame
  import opened StoringCalls
  import opened Quota
  import opened PathLock
  import opened LockLimits
  import opened StaleCommits

  /** The slot is the account's before, if there, and after. */
  ghost predicate OwnSlot(s: Store, c: Call, b: Batch)
    requires StoresLog(c.op)
  {
    && b.slot == c.op.slot && b.record.Put? && b.record.value.size == |c.op.log| && b.record.value.owner == c.auth.did
    && (b.slot in s.records ==> s.records[b.slot].owner == c.auth.did)
  }

  lemma StaysOwnSlot(h: Host, seen: Store, s: Store, c: Call)
    requires StoresLog(c.op) && !c.auth.admin && Decide(h, seen, c).Ok? && SameSlot(seen, s, c.op.slot)
    ensures OwnSlot(s, c, Decide(h, seen, c).value)
  {
    CallCharges(h, seen, c);
  }

  lemma OwnSlotKeepsQuotaIff(s: Store, c: Call, b: Batch)
    requires StoresLog(c.op) && !c.auth.admin && OwnSlot(s, c, b) && Within(s.records, c.auth)
    ensures Within(Edit(s.records, b.slot, b.record), c.auth) <==> QuotaAllows(s, c)
  {
    Accounting(s.records, b.slot, b.record, c.auth.did);
    ApartFrom(s.records, c.auth.did, b.slot);
  }

  /** Committing a plan made on an older store keeps the account within its quotas exactly
      when the store it commits to would still have allowed the call. */
  lemma StaleCommitKeepsQuotaIff(h: Host, seen: Store, s: Store, c: Call)
    requires StoresLog(c.op) && !c.auth.admin && Decide(h, seen, c).Ok? && SameSlot(seen, s, c.op.slot)
    requires Within(s.records, c.auth)
    ensures Within(Commit(h, s, Decide(h, seen, c).value).records, c.auth) <==> QuotaAllows(s, c)
  {
    StaysOwnSlot(h, seen, s, c);
    OwnSlotKeepsQuotaIff(s, c, Decide(h, seen, c).value);
  }

  lemma {:induction false} CommitsArePlausible(h: Host, w: World, events: seq<Event>)
    requires Orderly(h, w) && Schedule(h, w, events)
    ensures AllPlausible(CommitOrder(h, w, events))
    decreases events
  {
    if events != [] {
      StepStaysOrderly(h, w, events[0]);
      CommitsArePlausible(h, Step(h, w, events[0]), events[1..]);
    }
  }

  /** However ordinary accounts' calls interleave: an account within its quotas stays within
      them if each log, when it commits, would still be let through. */
  lemma QuotaHoldsOverSchedules(h: Host, w: World, events: seq<Event>, quota: Auth)
    requires Sound(h, w) && Schedule(h, w, events) && AllClear(h, w, events) && AlwaysAllowed(h, w, events)
    requires Within(w.store.records, quota)
    requires forall i :: 0 <= i < |CommitOrder(h, w, events)| ==> Ordinary(CommitOrder(h, w, events)[i], quota)
    ensures Within(Play(h, w, events).store.records, quota)
  {
    SchedulesSerialize(h, w, events);
    CommitsArePlausible(h, w, events);
    QuotaHoldsOverRuns(h, w.store, CommitOrder(h, w, events), quota);
  }

  lemma RegisterAddsUp(h: Host, seen: Store, s: Store, c: Call)
    requires c.op.OpRegister? && !c.auth.admin && Decide(h, seen, c).Ok?
    requires c.op.slot !in seen.records && c.op.slot !in s.records
    ensures
      var t, did := Commit(h, s, Decide(h, seen, c).value), c.auth.did;
      && |OwnedBy(t.records, did)| == |OwnedBy(s.records, did)| + 1
      && Total(t.records, did) == Total(s.records, did) + |c.op.log|
      && t.records.Keys == s.records.Keys + {c.op.slot}
  {
    CallCharges(h, seen, c);
    var b := Decide(h, seen, c).value;
    Accounting(s.records, b.slot, b.record, c.auth.did);
  }

  /** One account may register two free paths at once, each judged before the other commits:
      both are added, and the account is within its quotas afterwards exactly when there was
      room for the two together, which nobody has asked. */
  lemma TwoRegistersAddUp(h: Host, s: Store, c: Call, d: Call) returns (events: seq<Event>)
    requires c.op.OpRegister? && d.op.OpRegister? && c.auth == d.auth && !c.auth.admin && c.op.slot != d.op.slot
    requires c.op.slot !in s.records && d.op.slot !in s.records && Decide(h, s, c).Ok? && Decide(h, s, d).Ok?
    ensures Schedule(h, Start(s), events)
    ensures
      Within(Play(h, Start(s), events).store.records, c.auth)
      <==>
      && (c.auth.maxCount.Some? ==> |OwnedBy(s.records, c.auth.did)| + 2 <= c.auth.maxCount.value)
      && (c.auth.maxSize.Some? ==> Total(s.records, c.auth.did) + |c.op.log| + |d.op.log| <= c.auth.maxSize.value)
  {
    events := BothPlanThenCommit(h, s, c, d);
    RegisterAddsUp(h, s, s, c);
    RegisterAddsUp(h, s, Commit(h, s, Decide(h, s, c).value), d);
  }
}
