/** How long the tracker's expiry queue gets
    (did-hosting-control/src/pending_challenges.rs:24-26, 144-179, 307-325). Released ids
    stay queued until they reach the front; the set alone says nothing about them. */
module ExpiryQueue {
  import opened Common
  import opened ChallengeSet
  import opened DueQueue

  /** Pruning pops the front while it is released or has run out. */
  function Pruned(q: seq<Due>, slots: Slots, now: nat): seq<Due> {
    if q == [] || (q[0].id in slots && q[0].at > now) then q else Pruned(q[1..], slots, now)
  }

  /** What a queue lists. */
  function DueOf(q: seq<Due>): map<nat, nat> {
    if q == [] then map[] else DueOf(q[1..])[q[0].id := q[0].at]
  }

  lemma {:induction false} ListsItsDue(q: seq<Due>, due: map<nat, nat>)
    requires Lists(q, due)
    ensures due == DueOf(q)
  {
    if q != [] {
      ListsItsDue(q[1..], due - {q[0].id});
      assert due == (due - {q[0].id})[q[0].id := q[0].at];
    }
  }

  /** The ids that only wait to be popped. */
  function Waiting(q: seq<Due>, slots: Slots): set<nat> {
    DueOf(q).Keys - slots.Keys
  }

  /** Every member is queued, and the rest of the queue waits. */
  lemma QueueIsLivePlusWaiting(q: seq<Due>, slots: Slots)
    requires Lists(q, DueOf(q)) && slots.Keys <= DueOf(q).Keys
    ensures |q| == |slots| + |Waiting(q, slots)|
  {
    ListsCount(q, DueOf(q));
    var all, waiting := DueOf(q).Keys, Waiting(q, slots);
    assert |all| == |DueOf(q)| && |slots.Keys| == |slots|;
    assert all == slots.Keys + waiting && slots.Keys !! waiting;
  }

  /** Pruning keeps a suffix: what it lists was listed, and, the front being live, is still
      to come. */
  lemma {:induction false} PrunedIsAhead(q: seq<Due>, slots: Slots, now: nat)
    requires Lists(q, DueOf(q))
    ensures
      var p := Pruned(q, slots, now);
      && Lists(p, DueOf(p))
      && (forall id :: id in DueOf(p) ==> id in DueOf(q) && DueOf(p)[id] == DueOf(q)[id] && DueOf(p)[id] > now)
  {
    if q != [] && !(q[0].id in slots && q[0].at > now) {
      ListsItsDue(q[1..], DueOf(q) - {q[0].id});
      PrunedIsAhead(q[1..], slots, now);
    }
  }

  /** A member that has not run out is not popped. */
  lemma {:induction false} PrunedKeepsLive(q: seq<Due>, slots: Slots, now: nat, id: nat)
    requires Lists(q, DueOf(q)) && id in DueOf(q) && id in slots && DueOf(q)[id] > now
    ensures id in DueOf(Pruned(q, slots, now))
  {
    if !(q[0].id in slots && q[0].at > now) {
      ListsItsDue(q[1..], DueOf(q) - {q[0].id});
      PrunedKeepsLive(q[1..], slots, now, id);
    }
  }

  /** Dropping an id the queue does not list changes nothing. */
  lemma {:induction false} PrunedWithout(q: seq<Due>, slots: Slots, now: nat, id: nat)
    requires id !in DueOf(q)
    ensures Pruned(q, slots - {id}, now) == Pruned(q, slots, now)
  {
    if q != [] && !(q[0].id in slots && q[0].at > now) {
      PrunedWithout(q[1..], slots, now, id);
    }
  }

  // ---------------------------------------------------------------------
  // Over runs
  // ---------------------------------------------------------------------

  /** The queue after a call. */
  ghost function QueueStep(caps: Caps, t: Tracked, q: seq<Due>, c: Timed): seq<Due> {
    var p := Pruned(q, t.slots, c.now);
    match c.call
    case TryIssue(_, _) => Added(p, caps, c.now, Step(caps, t, c).1)
    case BindSession(_, _) => q
    case CancelReservation(_) => q
    case ReleaseSession(_) => p
    case CountOf(_) => p
    case GlobalCount => p
  }

  /** A reservation is queued at the instant it runs out. */
  function Added(p: seq<Due>, caps: Caps, now: nat, r: Reply): seq<Due> {
    if r.Reserved? then InsertSorted(p, Due(now + caps.ttl, r.id)) else p
  }

  ghost function QueueAfter(caps: Caps, t: Tracked, q: seq<Due>, calls: seq<Timed>): seq<Due>
    decreases calls
  {
    if calls == [] then q
    else QueueAfter(caps, Step(caps, t, calls[0]).0, QueueStep(caps, t, q, calls[0]), calls[1..])
  }

  /** When each challenge of the run was issued. */
  ghost function IssuedAt(caps: Caps, t: Tracked, calls: seq<Timed>): map<nat, nat>
    decreases calls
  {
    if calls == [] then map[]
    else
      var (next, r) := Step(caps, t, calls[0]);
      var later := IssuedAt(caps, next, calls[1..]);
      if r.Reserved? then later[r.id := calls[0].now] else later
  }

  /** Everything queued was queued at the start, or issued by the run and due one TTL
      later. */
  ghost predicate Accounted(q: seq<Due>, first: set<nat>, issued: map<nat, nat>, ttl: nat) {
    forall id :: id in DueOf(q) ==> id in first || (id in issued && DueOf(q)[id] == issued[id] + ttl)
  }

  /** The challenges issued within the last TTL. */
  function Recent(issued: map<nat, nat>, ttl: nat, now: nat): set<nat> {
    set id | id in issued && issued[id] + ttl > now
  }

  ghost predicate QueueOk(t: Tracked, q: seq<Due>) {
    Lists(q, DueOf(q)) && forall id :: id in DueOf(q) ==> id < t.nextId
  }

  lemma StepKeepsIds(caps: Caps, t: Tracked, c: Timed)
    ensures
      var (next, r) := Step(caps, t, c);
      next.nextId == t.nextId + (if r.Reserved? then 1 else 0) && (r.Reserved? ==> r.id == t.nextId && c.call.TryIssue?)
  {
  }

  /** All a call leaves queued was queued, or is the challenge it issued. */
  ghost predicate OnlyAdds(after: seq<Due>, before: seq<Due>, ttl: nat, now: nat, r: Reply) {
    forall id :: id in DueOf(after) ==>
      || (id in DueOf(before) && DueOf(after)[id] == DueOf(before)[id])
      || (r.Reserved? && id == r.id && DueOf(after)[id] == now + ttl)
  }

  lemma AddedIsListed(p: seq<Due>, caps: Caps, now: nat, r: Reply)
    requires Lists(p, DueOf(p)) && (r.Reserved? ==> r.id !in DueOf(p))
    ensures Lists(Added(p, caps, now, r), DueOf(Added(p, caps, now, r)))
    ensures OnlyAdds(Added(p, caps, now, r), p, caps.ttl, now, r)
  {
    if r.Reserved? {
      InsertLists(p, DueOf(p), Due(now + caps.ttl, r.id));
      ListsItsDue(Added(p, caps, now, r), DueOf(p)[r.id := now + caps.ttl]);
    }
  }

  lemma QueueStepOk(caps: Caps, t: Tracked, q: seq<Due>, c: Timed)
    requires QueueOk(t, q)
    ensures QueueOk(Step(caps, t, c).0, QueueStep(caps, t, q, c))
    ensures OnlyAdds(QueueStep(caps, t, q, c), q, caps.ttl, c.now, Step(caps, t, c).1)
  {
    var p, r := Pruned(q, t.slots, c.now), Step(caps, t, c).1;
    StepKeepsIds(caps, t, c);
    PrunedIsAhead(q, t.slots, c.now);
    AddedIsListed(p, caps, c.now, r);
    assert QueueStep(caps, t, q, c) in {q, p, Added(p, caps, c.now, r)};
    assert r.Reserved? ==> QueueStep(caps, t, q, c) == Added(p, caps, c.now, r);
  }

  lemma AccountsForOneMore(after: seq<Due>, next: seq<Due>, q: seq<Due>, ttl: nat, now: nat, r: Reply,
                           later: map<nat, nat>)
    requires Accounted(after, DueOf(next).Keys, later, ttl) && OnlyAdds(next, q, ttl, now, r)
    requires forall id :: id in DueOf(after) && id in DueOf(next) && id !in later ==>
        DueOf(after)[id] == DueOf(next)[id]
    requires r.Reserved? ==> r.id !in later
    ensures Accounted(after, DueOf(q).Keys, if r.Reserved? then later[r.id := now] else later, ttl)
  {
  }

  lemma {:induction false} QueueIsAccounted(caps: Caps, t: Tracked, q: seq<Due>, calls: seq<Timed>)
    requires QueueOk(t, q)
    ensures
      var after, issued := QueueAfter(caps, t, q, calls), IssuedAt(caps, t, calls);
      && Lists(after, DueOf(after)) && Accounted(after, DueOf(q).Keys, issued, caps.ttl)
      && (forall id :: id in DueOf(after) && id in DueOf(q) && id !in issued ==> DueOf(after)[id] == DueOf(q)[id])
      && (forall id :: id in issued ==> id >= t.nextId)
    decreases calls
  {
    if calls != [] {
      var c := calls[0];
      var (next, r) := Step(caps, t, c);
      var q1 := QueueStep(caps, t, q, c);
      var after, later := QueueAfter(caps, next, q1, calls[1..]), IssuedAt(caps, next, calls[1..]);
      QueueStepOk(caps, t, q, c);
      StepKeepsIds(caps, t, c);
      QueueIsAccounted(caps, next, q1, calls[1..]);
      AccountsForOneMore(after, q1, q, caps.ttl, c.now, r, later);
    }
  }

  /** Of what is queued, the part that has not run out. */
  function Unexpired(q: seq<Due>, now: nat): set<nat> {
    set id | id in DueOf(q) && DueOf(q)[id] > now
  }

  /** The bound: whatever is called in a run, a queue pruned at `now` is no longer than the
      part of the queue at its start that has not run out, plus the challenges issued within
      the last TTL. On a tracker that was not seeded the first part is empty. */
  lemma QueueFollowsTtl(caps: Caps, t: Tracked, q: seq<Due>, calls: seq<Timed>, slots: Slots, now: nat)
    requires QueueOk(t, q)
    ensures
      var p := Pruned(QueueAfter(caps, t, q, calls), slots, now);
      |p| <= |Unexpired(q, now)| + |Recent(IssuedAt(caps, t, calls), caps.ttl, now)|
  {
    var after := QueueAfter(caps, t, q, calls);
    var p := Pruned(after, slots, now);
    var first, recent := Unexpired(q, now), Recent(IssuedAt(caps, t, calls), caps.ttl, now);
    QueueIsAccounted(caps, t, q, calls);
    PrunedIsAhead(after, slots, now);
    ListsCount(p, DueOf(p));
    assert |DueOf(p).Keys| == |DueOf(p)|;
    assert DueOf(p).Keys <= first + recent;
    SubsetSize(DueOf(p).Keys, first + recent);
  }

  /** So an unseeded tracker keeps within the cap the comments promise as long as no more
      challenges than that are issued in one TTL. */
  lemma SlowIssuingKeepsTheCap(caps: Caps, calls: seq<Timed>, now: nat)
    ensures
      var t := Tracked(map[], 0);
      var q := QueueAfter(caps, t, [], calls);
      |Recent(IssuedAt(caps, t, calls), caps.ttl, now)| <= caps.globalCap ==>
        forall slots :: |Pruned(q, slots, now)| <= caps.globalCap
  {
    var t := Tracked(map[], 0);
    var issued := |Recent(IssuedAt(caps, t, calls), caps.ttl, now)|;
    forall slots ensures |Pruned(QueueAfter(caps, t, [], calls), slots, now)| <= issued {
      QueueFollowsTtl(caps, t, [], calls, slots, now);
      assert Unexpired([], now) == {};
    }
  }
}
