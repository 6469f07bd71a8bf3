/** Quota accounting (did-hosting-control/src/did_ops.rs:186-263, 404-419, 621-646, 849-886). */
module Quota {
  import opened Common
  import opened Rollback
  import opened SlotStore
  import opened SlotInvariant
  import opened StoringCalls

  // ---------------------------------------------------------------------
  // Sums over a changing store
  // ---------------------------------------------------------------------

  /** The sum does not depend on the order it is taken in. */
  lemma {:induction false} TakeOut(records: Records, slots: set<string>, m: string)
    requires slots <= records.Keys && m in slots
    ensures TotalSize(records, slots) == records[m].size + TotalSize(records, slots - {m})
  {
    var x :| x in slots && TotalSize(records, slots) == records[x].size + TotalSize(records, slots - {x});
    if x != m {
      TakeOut(records, slots - {x}, m);
      TakeOut(records, slots - {m}, x);
      assert slots - {x} - {m} == slots - {m} - {x};
    }
  }

  lemma {:induction false} SameSizesSameSum(records: Records, others: Records, slots: set<string>)
    requires slots <= records.Keys && slots <= others.Keys
    requires forall m :: m in slots ==> records[m].size == others[m].size
    ensures TotalSize(records, slots) == TotalSize(others, slots)
  {
    if slots != {} {
      var m :| m in slots;
      TakeOut(records, slots, m);
      TakeOut(others, slots, m);
      SameSizesSameSum(records, others, slots - {m});
    }
  }

  /** What a slot adds to an owner's total. */
  function Share(r: Option<Record>, did: string): nat {
    if r.Some? && r.value.owner == did then r.value.size else 0
  }

  function Slots(r: Option<Record>, did: string): nat {
    if r.Some? && r.value.owner == did then 1 else 0
  }

  /** The slots of the owner apart from `m`. */
  function Rest(records: Records, did: string, m: string): set<string> {
    OwnedBy(records, did) - {m}
  }

  lemma ApartFrom(records: Records, did: string, m: string)
    ensures Total(records, did) == TotalSize(records, Rest(records, did, m)) + Share(Find(records, m), did)
    ensures |OwnedBy(records, did)| == |Rest(records, did, m)| + Slots(Find(records, m), did)
  {
    var owned := OwnedBy(records, did);
    if m in owned {
      TakeOut(records, owned, m);
    } else {
      assert owned - {m} == owned;
    }
  }

  lemma RestIsKept(records: Records, m: string, c: Change<Record>, did: string)
    ensures Rest(Edit(records, m, c), did, m) == Rest(records, did, m)
    ensures TotalSize(Edit(records, m, c), Rest(records, did, m)) == TotalSize(records, Rest(records, did, m))
  {
    var after := Edit(records, m, c);
    forall x ensures x in Rest(after, did, m) <==> x in Rest(records, did, m) {
      assert x != m ==> Find(after, x) == Find(records, x);
    }
    SameSizesSameSum(records, after, Rest(records, did, m));
  }

  /** A change to one slot moves an owner's usage by that slot's own change. */
  lemma Accounting(records: Records, m: string, c: Change<Record>, did: string)
    ensures
      var after := Edit(records, m, c);
      && Total(after, did) + Share(Find(records, m), did) == Total(records, did) + Share(Find(after, m), did)
      && |OwnedBy(after, did)| + Slots(Find(records, m), did) == |OwnedBy(records, did)| + Slots(Find(after, m), did)
  {
    ApartFrom(records, did, m);
    ApartFrom(Edit(records, m, c), did, m);
    RestIsKept(records, m, c, did);
  }

  // ---------------------------------------------------------------------
  // One call
  // ---------------------------------------------------------------------

  /** The batch of a call, as far as the owner's usage goes. */
  ghost predicate Charges(s: Store, c: Call, b: Batch)
    requires StoresLog(c.op)
  {
    var was := Find(s.records, c.op.slot);
    && b.slot == c.op.slot && b.record.Put? && b.record.value.size == |c.op.log|
    && (!c.auth.admin ==> b.record.value.owner == c.auth.did && (was.Some? ==> was.value.owner == c.auth.did))
    && !SizeRefuses(s, c.auth, if was.Some? then was.value.size else 0, |c.op.log|)
    && (was.None? ==> !CountRefuses(s, c.auth))
  }

  lemma CallCharges(h: Host, s: Store, c: Call)
    requires StoresLog(c.op) && Decide(h, s, c).Ok?
    ensures Charges(s, c, Decide(h, s, c).value)
  {
    CallStores(h, s, c);
  }

  /** A batch that charges leaves the owner's usage moved by the slot's own change. */
  lemma ChargesAddUp(s: Store, c: Call, b: Batch)
    requires StoresLog(c.op) && !c.auth.admin && Charges(s, c, b)
    ensures
      var did, was, after := c.auth.did, Find(s.records, c.op.slot), Edit(s.records, b.slot, b.record);
      && Total(after, did) == Total(s.records, did) - (if was.Some? then was.value.size else 0) + |c.op.log|
      && (c.auth.maxSize.Some? ==> Total(after, did) <= c.auth.maxSize.value)
      && |OwnedBy(after, did)| == |OwnedBy(s.records, did)| + (if was.Some? then 0 else 1)
      && (was.None? && c.auth.maxCount.Some? ==> |OwnedBy(after, did)| <= c.auth.maxCount.value)
  {
    Accounting(s.records, b.slot, b.record, c.auth.did);
    ApartFrom(s.records, c.auth.did, b.slot);
  }

  lemma OthersAreNotCharged(s: Store, c: Call, b: Batch, other: string)
    requires StoresLog(c.op) && !c.auth.admin && Charges(s, c, b) && other != c.auth.did
    ensures Total(Edit(s.records, b.slot, b.record), other) == Total(s.records, other)
    ensures OwnedBy(Edit(s.records, b.slot, b.record), other) == OwnedBy(s.records, other)
  {
    Accounting(s.records, b.slot, b.record, other);
    RestIsKept(s.records, b.slot, b.record, other);
    assert b.slot !in OwnedBy(s.records, other) && b.slot !in OwnedBy(Edit(s.records, b.slot, b.record), other);
  }

  /** A non-admin write that succeeds leaves its owner's true total at
      `total - old + new`, within the cap, where `old` and `new` are the lengths of the
      stored log before and after; a slot is added exactly when the path was free, and
      then the count is within its cap. */
  lemma WriteIsCharged(h: Host, s: Store, c: Call)
    requires Inv(h, s) && Plausible(c) && StoresLog(c.op) && !c.auth.admin && Do(h, s, c).error.None?
    ensures
      var t, did := Do(h, s, c).store, c.auth.did;
      var old_, new_ := SizeOf(Find(s.logs, c.op.slot)), SizeOf(Find(t.logs, c.op.slot));
      && new_ == |c.op.log|
      && Total(t.records, did) == Total(s.records, did) - old_ + new_
      && (c.auth.maxSize.Some? ==> Total(t.records, did) <= c.auth.maxSize.value)
      && |OwnedBy(t.records, did)| == |OwnedBy(s.records, did)| + (if c.op.slot in s.records then 0 else 1)
      && (c.op.slot !in s.records && c.auth.maxCount.Some? ==> |OwnedBy(t.records, did)| <= c.auth.maxCount.value)
  {
    CallCharges(h, s, c);
    ChargesAddUp(s, c, Decide(h, s, c).value);
    StepKeepsInv(h, s, c);
    assert SlotOk(s, c.op.slot) && SlotOk(Do(h, s, c).store, c.op.slot);
  }

  /** Such a write moves nobody else's usage, and neither does one that is refused. */
  lemma WriteChargesNobodyElse(h: Host, s: Store, c: Call, other: string)
    requires StoresLog(c.op) && !c.auth.admin && other != c.auth.did
    ensures Total(Do(h, s, c).store.records, other) == Total(s.records, other)
    ensures OwnedBy(Do(h, s, c).store.records, other) == OwnedBy(s.records, other)
  {
    if Decide(h, s, c).Ok? {
      CallCharges(h, s, c);
      OthersAreNotCharged(s, c, Decide(h, s, c).value, other);
    }
  }

  // ---------------------------------------------------------------------
  // Quotas over runs
  // ---------------------------------------------------------------------

  ghost predicate Within(records: Records, quota: Auth) {
    && (quota.maxCount.Some? ==> |OwnedBy(records, quota.did)| <= quota.maxCount.value)
    && (quota.maxSize.Some? ==> Total(records, quota.did) <= quota.maxSize.value)
  }

  /** A call by an ordinary account, whose own ACL entry is `quota`'s if it is the same
      account, and that does not give the account a slot. */
  predicate Ordinary(c: Call, quota: Auth) {
    && !c.auth.admin && (c.auth.did == quota.did ==> c.auth == quota)
    && (c.op.OpChangeOwner? ==> c.op.newOwner != quota.did)
  }

  lemma SmallerShareStaysWithin(records: Records, m: string, c: Change<Record>, quota: Auth)
    requires Within(records, quota)
    requires Share(Find(Edit(records, m, c), m), quota.did) <= Share(Find(records, m), quota.did)
    requires Slots(Find(Edit(records, m, c), m), quota.did) <= Slots(Find(records, m), quota.did)
    ensures Within(Edit(records, m, c), quota)
  {
    Accounting(records, m, c, quota.did);
  }

  lemma WriteStaysWithin(h: Host, s: Store, c: Call, quota: Auth)
    requires Inv(h, s) && Plausible(c) && StoresLog(c.op) && Ordinary(c, quota) && Within(s.records, quota)
    ensures Within(Do(h, s, c).store.records, quota)
  {
    if Do(h, s, c).error.None? {
      if c.auth.did == quota.did { WriteIsCharged(h, s, c); } else { WriteChargesNobodyElse(h, s, c, quota.did); }
    }
  }

  /** What a create by an ordinary account does to the records. */
  lemma CreateCharges(h: Host, s: Store, c: Call) returns (m: string)
    requires c.op.OpCreate? && !c.auth.admin && Do(h, s, c).error.None?
    ensures Do(h, s, c).store.records == Edit(s.records, m, Reserving(c.auth, m, c.now).record)
    ensures m in s.records ==> s.records[m].owner == c.auth.did
    ensures m !in s.records ==> !CountRefuses(s, c.auth)
  {
    CreateIsAllOrNothing(h, s, c.auth, c.op.path, c.op.drawn, c.op.force, c.now);
    m := ResolvePath(s, c.auth, c.op.path, c.op.drawn, c.op.force).value;
    if c.op.path.None? {
      FirstFreeIsFree(s, c.op.drawn);
    }
  }

  lemma CreateStaysWithin(h: Host, s: Store, c: Call, quota: Auth)
    requires c.op.OpCreate? && Ordinary(c, quota) && Within(s.records, quota)
    ensures Within(Do(h, s, c).store.records, quota)
  {
    if Do(h, s, c).error.None? {
      var m := CreateCharges(h, s, c);
      Accounting(s.records, m, Reserving(c.auth, m, c.now).record, quota.did);
    } else {
      RefusalChangesNothing(h, s, c);
    }
  }

  lemma RollBackShrinks(h: Host, s: Store, auth: Auth, slot: string, target: Option<nat>, now: nat)
    requires Inv(h, s) && RollBack(h, s, auth, slot, target, now).Ok?
    ensures
      var b := RollBack(h, s, auth, slot, target, now).value;
      b.slot == slot && slot in s.records
      && (b.record == Keep || (b.record.Put? && b.record.value.owner == s.records[slot].owner
                               && b.record.value.size <= s.records[slot].size))
  {
    assert SlotOk(s, slot);
    var lines := RawLines(s.logs[slot]);
    var keep := Kept(target, |lines|).value;
    TruncationKeepsEntries(s.logs[slot], keep);
  }

  /** Every other operation leaves anybody's share no larger, unless it hands them a
      slot. */
  lemma SmallerShare(h: Host, s: Store, c: Call, did: string)
    requires Inv(h, s) && !StoresLog(c.op) && !c.op.OpCreate? && Decide(h, s, c).Ok?
    requires c.op.OpChangeOwner? ==> c.op.newOwner != did
    ensures
      var b := Decide(h, s, c).value;
      var was, now := Find(s.records, b.slot), Find(Edit(s.records, b.slot, b.record), b.slot);
      Share(now, did) <= Share(was, did) && Slots(now, did) <= Slots(was, did)
  {
    match c.op {
      case OpRollBack(slot, target) => RollBackShrinks(h, s, c.auth, slot, target, c.now);
      case _ =>
    }
  }

  lemma OtherCallStaysWithin(h: Host, s: Store, c: Call, quota: Auth)
    requires Inv(h, s) && Plausible(c) && Ordinary(c, quota) && Within(s.records, quota)
    requires !StoresLog(c.op) && !c.op.OpCreate?
    ensures Within(Do(h, s, c).store.records, quota)
  {
    if Decide(h, s, c).Ok? {
      var b := Decide(h, s, c).value;
      SmallerShare(h, s, c, quota.did);
      SmallerShareStaysWithin(s.records, b.slot, b.record, quota);
    }
  }

  /** However ordinary accounts call, an account within its quotas stays within them. */
  lemma {:induction false} QuotaHoldsOverRuns(h: Host, s: Store, calls: seq<Call>, quota: Auth)
    requires Inv(h, s) && AllPlausible(calls) && Within(s.records, quota)
    requires forall i :: 0 <= i < |calls| ==> Ordinary(calls[i], quota)
    ensures Within(Run(h, s, calls).records, quota)
    decreases calls
  {
    if calls != [] {
      var c := calls[0];
      if StoresLog(c.op) {
        WriteStaysWithin(h, s, c, quota);
      } else if c.op.OpCreate? {
        CreateStaysWithin(h, s, c, quota);
      } else {
        OtherCallStaysWithin(h, s, c, quota);
      }
      StepKeepsInv(h, s, c);
      QuotaHoldsOverRuns(h, Do(h, s, c).store, calls[1..], quota);
    }
  }

  /** A transfer never asks whether the new owner has room: its quotas survive exactly
      when the slot happens to fit. */
  lemma TransferKeepsQuotaIff(h: Host, s: Store, c: Call, quota: Auth)
    requires Inv(h, s) && Plausible(c) && c.op.OpChangeOwner? && c.op.newOwner == quota.did && Do(h, s, c).error.None?
    requires c.op.slot in s.records && s.records[c.op.slot].owner != quota.did
    ensures Within(Do(h, s, c).store.records, quota) <==>
      && (quota.maxCount.Some? ==> |OwnedBy(s.records, quota.did)| + 1 <= quota.maxCount.value)
      && (quota.maxSize.Some? ==> Total(s.records, quota.did) + s.records[c.op.slot].size <= quota.maxSize.value)
  {
    var b := Decide(h, s, c).value;
    Accounting(s.records, b.slot, b.record, quota.did);
  }
}
