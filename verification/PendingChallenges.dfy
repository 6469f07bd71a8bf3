/** The pending-challenge tracker (did-hosting-control/src/pending_challenges.rs): the
    live set kept four ways at once (by id, by session, per DID and in expiry order),
    proved against `ChallengeSet`. The mutex makes each call one step. */
module PendingChallenges {
  import opened Common
  import opened ChallengeSet
  import opened DueQueue
  import opened ExpiryQueue

  datatype Entry = Entry(did: string, session: Option<string>)

  // Each agreement below is stated one key at a time, through a predicate that names
  // the key, so that a proof looks at the keys it mentions and at no others.

  ghost predicate EntryAgrees(entries: map<nat, Entry>, slots: Slots, id: nat) {
    && (id in entries <==> id in slots)
    && (id in slots ==> entries[id] == Entry(slots[id].did, slots[id].session))
  }

  ghost predicate EntriesAgree(entries: map<nat, Entry>, slots: Slots) {
    forall id :: EntryAgrees(entries, slots, id)
  }

  /** A session maps to the member that holds it, and to nothing else. */
  ghost predicate SessionAgrees(bySession: map<string, nat>, slots: Slots, session: string) {
    && (session in bySession ==> Holders(slots, session) == {bySession[session]})
    && (session !in bySession ==> Holders(slots, session) == {})
  }

  ghost predicate SessionsAgree(bySession: map<string, nat>, slots: Slots) {
    forall session :: SessionAgrees(bySession, slots, session)
  }

  /** The instants at which one DID's members run out. */
  ghost function DueFor(slots: Slots, did: string): map<nat, nat> {
    map id | id in slots && slots[id].did == did :: slots[id].expires
  }

  /** A DID with members has a queue listing them; a DID with none has no queue. */
  ghost predicate DidAgrees(perDid: map<string, seq<Due>>, slots: Slots, did: string) {
    if did in perDid then perDid[did] != [] && Lists(perDid[did], DueFor(slots, did))
    else DueFor(slots, did) == map[]
  }

  ghost predicate PerDidAgrees(perDid: map<string, seq<Due>>, slots: Slots) {
    forall did :: DidAgrees(perDid, slots, did)
  }

  ghost predicate DueAgrees(due: map<nat, nat>, slots: Slots, nextId: nat, id: nat) {
    && (id in due ==> id < nextId)
    && (id in slots ==> id in due && due[id] == slots[id].expires)
  }

  /** The expiry queue lists `due`: every member, and possibly ids already released. */
  ghost predicate ExpiryAgrees(expiry: seq<Due>, due: map<nat, nat>, slots: Slots, nextId: nat) {
    Lists(expiry, due) && forall id :: DueAgrees(due, slots, nextId, id)
  }

  // ---------------------------------------------------------------------
  // What each edit does to the redundant structures
  // ---------------------------------------------------------------------

  function DropFrom(perDid: map<string, seq<Due>>, did: string, id: nat): map<string, seq<Due>> {
    if did !in perDid then perDid
    else
      var q := Without(perDid[did], id);
      if q == [] then perDid - {did} else perDid[did := q]
  }

  function AddTo(perDid: map<string, seq<Due>>, did: string, d: Due): map<string, seq<Due>> {
    perDid[did := InsertSorted(if did in perDid then perDid[did] else [], d)]
  }

  lemma RemoveFromPerDid(perDid: map<string, seq<Due>>, slots: Slots, id: nat)
    requires PerDidAgrees(perDid, slots) && id in slots
    ensures PerDidAgrees(DropFrom(perDid, slots[id].did, id), slots - {id})
  {
    var did := slots[id].did;
    var rest, after := slots - {id}, DropFrom(perDid, did, id);
    forall other ensures DidAgrees(after, rest, other) {
      assert DidAgrees(perDid, slots, other);
      if other == did {
        assert id in DueFor(slots, did);
        WithoutLists(perDid[did], DueFor(slots, did), id);
        assert DueFor(rest, did) == DueFor(slots, did) - {id};
      } else {
        assert DueFor(rest, other) == DueFor(slots, other);
      }
    }
  }

  lemma InsertIntoPerDid(perDid: map<string, seq<Due>>, slots: Slots, id: nat, slot: Slot)
    requires PerDidAgrees(perDid, slots) && id !in slots
    ensures PerDidAgrees(AddTo(perDid, slot.did, Due(slot.expires, id)), slots[id := slot])
  {
    var did := slot.did;
    var more, after := slots[id := slot], AddTo(perDid, did, Due(slot.expires, id));
    forall other ensures DidAgrees(after, more, other) {
      assert DidAgrees(perDid, slots, other);
      if other == did {
        assert DueFor(more, did) == DueFor(slots, did)[id := slot.expires];
        InsertLists(if did in perDid then perDid[did] else [], DueFor(slots, did), Due(slot.expires, id));
      } else {
        assert DueFor(more, other) == DueFor(slots, other);
      }
    }
  }

  lemma RebindPerDid(perDid: map<string, seq<Due>>, slots: Slots, id: nat, session: Option<string>)
    requires PerDidAgrees(perDid, slots) && id in slots
    ensures PerDidAgrees(perDid, slots[id := slots[id].(session := session)])
  {
    var bound := slots[id := slots[id].(session := session)];
    forall did ensures DidAgrees(perDid, bound, did) {
      assert DidAgrees(perDid, slots, did);
      assert DueFor(bound, did) == DueFor(slots, did);
    }
  }

  /** One DID's queue has as many members as the DID has, the oldest in front. */
  lemma PerDidCount(perDid: map<string, seq<Due>>, slots: Slots, did: string)
    requires PerDidAgrees(perDid, slots)
    ensures did in perDid <==> IdsOf(slots, did) != {}
    ensures did in perDid ==> perDid[did] != [] && |perDid[did]| == CountFor(slots, did)
    ensures did in perDid ==> perDid[did][0].at == Oldest(slots, IdsOf(slots, did))
  {
    var ids := IdsOf(slots, did);
    assert DidAgrees(perDid, slots, did);
    assert DueFor(slots, did).Keys == ids;
    if did in perDid {
      ListsCount(perDid[did], DueFor(slots, did));
      assert |DueFor(slots, did).Keys| == |DueFor(slots, did)|;
      assert perDid[did][0].id in ids;
      var id :| id in ids && slots[id].expires == Oldest(slots, ids);
      assert id in DueFor(slots, did);
    }
  }

  /** When the front of the expiry queue is a member, it is the oldest one. */
  lemma FrontIsOldest(expiry: seq<Due>, due: map<nat, nat>, slots: Slots, nextId: nat)
    requires ExpiryAgrees(expiry, due, slots, nextId)
    requires expiry != [] ==> expiry[0].id in slots
    ensures slots.Keys != {} <==> expiry != []
    ensures expiry != [] ==> expiry[0].at == Oldest(slots, slots.Keys)
  {
    if slots.Keys != {} {
      var id :| id in slots.Keys && slots[id].expires == Oldest(slots, slots.Keys);
      assert DueAgrees(due, slots, nextId, id);
    }
    if expiry != [] {
      assert DueAgrees(due, slots, nextId, expiry[0].id);
    }
  }

  /** Once the front is a member with time left, every member has. */
  lemma FrontLiveAllLive(expiry: seq<Due>, due: map<nat, nat>, slots: Slots, nextId: nat, now: nat)
    requires ExpiryAgrees(expiry, due, slots, nextId)
    requires expiry != [] ==> expiry[0].at > now
    ensures LiveAt(slots, now) == slots
  {
    forall id | id in slots ensures slots[id].expires > now {
      assert DueAgrees(due, slots, nextId, id);
    }
  }

  /** The queue is as long as the live members and the waiting ids together. */
  lemma LengthOfQueue(expiry: seq<Due>, due: map<nat, nat>, slots: Slots, nextId: nat)
    requires ExpiryAgrees(expiry, due, slots, nextId)
    ensures |expiry| == |slots| + |Waiting(expiry, slots)|
    ensures Waiting(expiry, slots) == due.Keys - slots.Keys
  {
    ListsItsDue(expiry, due);
    forall id | id in slots ensures id in due { assert DueAgrees(due, slots, nextId, id); }
    QueueIsLivePlusWaiting(expiry, slots);
  }

  lemma PopExpiry(expiry: seq<Due>, due: map<nat, nat>, slots: Slots, nextId: nat)
    requires ExpiryAgrees(expiry, due, slots, nextId) && expiry != []
    ensures ExpiryAgrees(expiry[1..], due - {expiry[0].id}, slots - {expiry[0].id}, nextId)
  {
    var due', rest := due - {expiry[0].id}, slots - {expiry[0].id};
    forall id ensures DueAgrees(due', rest, nextId, id) {
      assert DueAgrees(due, slots, nextId, id);
    }
  }

  lemma InsertIntoExpiry(expiry: seq<Due>, due: map<nat, nat>, slots: Slots, nextId: nat, slot: Slot)
    requires ExpiryAgrees(expiry, due, slots, nextId)
    ensures nextId !in slots
    ensures ExpiryAgrees(InsertSorted(expiry, Due(slot.expires, nextId)), due[nextId := slot.expires],
                         slots[nextId := slot], nextId + 1)
  {
    var due', more, next := due[nextId := slot.expires], slots[nextId := slot], nextId + 1;
    assert DueAgrees(due, slots, nextId, nextId);
    InsertLists(expiry, due, Due(slot.expires, nextId));
    forall id ensures DueAgrees(due', more, next, id) {
      assert DueAgrees(due, slots, nextId, id);
    }
  }

  /** Dropping members, or changing them without touching their instants, leaves the
      expiry queue as it is. */
  lemma SameExpiry(expiry: seq<Due>, due: map<nat, nat>, slots: Slots, nextId: nat, kept: Slots)
    requires ExpiryAgrees(expiry, due, slots, nextId)
    requires forall id :: id in kept ==> id in slots && kept[id].expires == slots[id].expires
    ensures ExpiryAgrees(expiry, due, kept, nextId)
  {
    forall id ensures DueAgrees(due, kept, nextId, id) {
      assert DueAgrees(due, slots, nextId, id);
    }
  }

  lemma SessionRemoved(bySession: map<string, nat>, slots: Slots, id: nat)
    requires SessionsAgree(bySession, slots) && id in slots
    ensures SessionsAgree(if slots[id].session.Some? then bySession - {slots[id].session.value} else bySession,
                          slots - {id})
  {
    var after := if slots[id].session.Some? then bySession - {slots[id].session.value} else bySession;
    var rest := slots - {id};
    forall session ensures SessionAgrees(after, rest, session) {
      assert SessionAgrees(bySession, slots, session);
      assert Holders(rest, session) == Holders(slots, session) - {id};
      if Some(session) == slots[id].session {
        assert id in Holders(slots, session);
      } else {
        assert id !in Holders(slots, session);
      }
    }
  }

  lemma SessionAdded(bySession: map<string, nat>, slots: Slots, id: nat, slot: Slot)
    requires SessionsAgree(bySession, slots)
    requires id in slots ==> slots[id].session.None?
    requires slot.session.Some? ==> slot.session.value !in bySession
    ensures SessionsAgree(if slot.session.Some? then bySession[slot.session.value := id] else bySession,
                          slots[id := slot])
  {
    var after := if slot.session.Some? then bySession[slot.session.value := id] else bySession;
    var more := slots[id := slot];
    forall session ensures SessionAgrees(after, more, session) {
      assert SessionAgrees(bySession, slots, session);
      assert Holders(more, session) == Holders(slots, session) + (if slot.session == Some(session) then {id} else {});
    }
  }

  lemma EntryEdited(entries: map<nat, Entry>, slots: Slots, id: nat, slot: Slot)
    requires EntriesAgree(entries, slots)
    ensures EntriesAgree(entries - {id}, slots - {id})
    ensures EntriesAgree(entries[id := Entry(slot.did, slot.session)], slots[id := slot])
  {
    var fewer, rest := entries - {id}, slots - {id};
    forall i ensures EntryAgrees(fewer, rest, i) {
      assert EntryAgrees(entries, slots, i);
    }
    var edited, more := entries[id := Entry(slot.did, slot.session)], slots[id := slot];
    forall i ensures EntryAgrees(edited, more, i) {
      assert EntryAgrees(entries, slots, i);
    }
  }

  lemma EntryCount(entries: map<nat, Entry>, slots: Slots)
    requires EntriesAgree(entries, slots)
    ensures |entries| == |slots|
  {
    forall id ensures id in entries <==> id in slots { assert EntryAgrees(entries, slots, id); }
    assert entries.Keys == slots.Keys;
    assert |entries.Keys| == |entries| && |slots.Keys| == |slots|;
  }

  /** The structures agreeing, the set they stand for is sound. */
  lemma AgreeingIsSound(bySession: map<string, nat>, expiry: seq<Due>, due: map<nat, nat>, slots: Slots, nextId: nat)
    requires SessionsAgree(bySession, slots) && ExpiryAgrees(expiry, due, slots, nextId)
    ensures Sound(Tracked(slots, nextId))
  {
    forall id | id in slots ensures id < nextId { assert DueAgrees(due, slots, nextId, id); }
    forall i, j | i in slots && j in slots && slots[i].session.Some? && slots[i].session == slots[j].session
      ensures i == j {
      var session := slots[i].session.value;
      assert SessionAgrees(bySession, slots, session);
      assert i in Holders(slots, session) && j in Holders(slots, session);
    }
  }

  // ---------------------------------------------------------------------
  // The tracker
  // ---------------------------------------------------------------------

  class PendingChallengeTracker {
    const challengeTtl: nat
    const globalCap: nat
    var nextId: nat
    var entries: map<nat, Entry>
    var bySession: map<string, nat>
    var perDid: map<string, seq<Due>>
    var expiry: seq<Due>
    ghost var slots: Slots
    ghost var due: map<nat, nat>

    ghost predicate Valid()
      reads this
    {
      && EntriesAgree(entries, slots)
      && SessionsAgree(bySession, slots)
      && PerDidAgrees(perDid, slots)
      && ExpiryAgrees(expiry, due, slots, nextId)
    }

    ghost function View(): Tracked
      reads this
    {
      Tracked(slots, nextId)
    }

    ghost function Configured(): Caps {
      Caps(challengeTtl, globalCap)
    }

    constructor (challengeTtl: nat, globalCap: nat)
      ensures Valid() && View() == Tracked(map[], 0) && expiry == []
      ensures this.challengeTtl == challengeTtl && this.globalCap == globalCap
    {
      this.challengeTtl, this.globalCap := challengeTtl, globalCap;
      nextId, entries, bySession, perDid, expiry := 0, map[], map[], map[], [];
      slots, due := map[], map[];
    }

    /** Drop one member from every structure but the expiry queue. */
    method Remove(id: nat) returns (removed: bool)
      requires Valid()
      modifies this
      ensures Valid() && removed == (id in old(slots))
      ensures View() == Cancel(old(View()), id)
      ensures expiry == old(expiry) && due == old(due)
    {
      assert EntryAgrees(entries, slots, id);
      if id !in entries {
        assert slots - {id} == slots;
        return false;
      }
      var entry := entries[id];
      RemoveFromPerDid(perDid, slots, id);
      SessionRemoved(bySession, slots, id);
      EntryEdited(entries, slots, id, slots[id]);
      SameExpiry(expiry, due, slots, nextId, slots - {id});
      entries := entries - {id};
      if entry.session.Some? {
        bySession := bySession - {entry.session.value};
      }
      perDid := DropFrom(perDid, entry.did, id);
      slots := slots - {id};
      return true;
    }

    /** Drop every member whose TTL has passed, and released ids at the front. */
    method Prune(now: nat)
      requires Valid()
      modifies this
      ensures Valid() && View() == old(View()).(slots := LiveAt(old(slots), now))
      ensures expiry != [] ==> expiry[0].id in slots
      ensures expiry == Pruned(old(expiry), old(slots), now)
    {
      while expiry != []
        invariant Valid() && nextId == old(nextId)
        invariant LiveAt(slots, now) == LiveAt(old(slots), now)
        invariant Pruned(expiry, slots, now) == Pruned(old(expiry), old(slots), now)
        decreases |expiry|
      {
        var front := expiry[0];
        ghost var before := slots;
        var live := front.id in entries;
        assert EntryAgrees(entries, slots, front.id);
        assert DueAgrees(due, slots, nextId, front.id);
        if live && front.at > now {
          break;
        }
        if live {
          assert LiveAt(slots - {front.id}, now) == LiveAt(slots, now);
          var _ := Remove(front.id);
        }
        PopExpiry(expiry, due, slots, nextId);
        ListsItsDue(expiry[1..], due - {front.id});
        PrunedWithout(expiry[1..], before, now, front.id);
        assert slots - {front.id} == slots && slots == before - {front.id};
        due := due - {front.id};
        expiry := expiry[1..];
      }
      FrontLiveAllLive(expiry, due, slots, nextId, now);
    }

    /** Add a member to every structure. */
    method Insert(did: string, expiresAt: nat, session: Option<string>) returns (id: nat)
      requires Valid() && (session.Some? ==> session.value !in bySession)
      modifies this
      ensures Valid() && id == old(nextId)
      ensures View() == Tracked(old(slots)[id := Slot(did, expiresAt, session)], id + 1)
      ensures expiry == InsertSorted(old(expiry), Due(expiresAt, id))
    {
      id := nextId;
      ghost var slot := Slot(did, expiresAt, session);
      InsertIntoExpiry(expiry, due, slots, id, slot);
      InsertIntoPerDid(perDid, slots, id, slot);
      EntryEdited(entries, slots, id, slot);
      SessionAdded(bySession, slots, id, slot);
      nextId := nextId + 1;
      if session.Some? {
        bySession := bySession[session.value := id];
      }
      entries := entries[id := Entry(did, session)];
      perDid := AddTo(perDid, did, Due(expiresAt, id));
      expiry := InsertSorted(expiry, Due(expiresAt, id));
      slots, due := slots[id := slot], due[id := expiresAt];
    }

    /** Count one more challenge for `did`, or refuse and say when to retry. */
    method TryIssue(did: string, perDidCap: nat, now: nat) returns (r: Reply)
      requires Valid()
      modifies this
      ensures Valid() && (View(), r) == Issue(Configured(), old(View()), did, perDidCap, now)
      ensures expiry == Added(Pruned(old(expiry), old(slots), now), Configured(), now, r)
      ensures r.Reserved? ==>
        var live := LiveAt(old(slots), now);
        |expiry| <= globalCap <==> |live| + |Waiting(Pruned(old(expiry), old(slots), now), live)| < globalCap
    {
      Prune(now);
      FrontIsOldest(expiry, due, slots, nextId);
      PerDidCount(perDid, slots, did);
      EntryCount(entries, slots);
      LengthOfQueue(expiry, due, slots, nextId);
      if |entries| >= globalCap {
        r := RateLimited(GlobalCap, if expiry == [] then 1 else SecsUntil(expiry[0].at, now));
        return;
      }
      if did in perDid && |perDid[did]| >= perDidCap {
        r := RateLimited(PerDidCap, SecsUntil(perDid[did][0].at, now));
        return;
      }
      var id := Insert(did, now + challengeTtl, None);
      r := Reserved(id);
    }

    /** Attach the session id a challenge was issued under. Reservations move, so one
        is bound once; session ids are fresh. */
    method Bind(id: nat, session: string)
      requires Valid() && session !in bySession
      requires id in slots ==> slots[id].session.None?
      modifies this
      ensures Valid() && View() == ChallengeSet.Bind(old(View()), id, session)
      ensures expiry == old(expiry)
    {
      assert EntryAgrees(entries, slots, id);
      if id in entries {
        ghost var bound := slots[id := slots[id].(session := Some(session))];
        EntryEdited(entries, slots, id, bound[id]);
        SameExpiry(expiry, due, slots, nextId, bound);
        RebindPerDid(perDid, slots, id, Some(session));
        SessionAdded(bySession, slots, id, slots[id].(session := Some(session)));
        entries := entries[id := entries[id].(session := Some(session))];
        bySession := bySession[session := id];
        slots := slots[id := slots[id].(session := Some(session))];
      }
    }

    /** Give a reservation up: no challenge came of it. */
    method CancelReservation(id: nat)
      requires Valid()
      modifies this
      ensures Valid() && View() == Cancel(old(View()), id)
      ensures expiry == old(expiry)
    {
      var _ := Remove(id);
    }

    /** Release the slot of the challenge that authenticated under `session`. */
    method ReleaseSession(session: string, now: nat) returns (r: Reply)
      requires Valid()
      modifies this
      ensures Valid() && (View(), r) == Release(old(View()), session, now)
      ensures expiry == Pruned(old(expiry), old(slots), now)
      ensures |slots| == |LiveAt(old(slots), now)| - (if r.freed then 1 else 0)
    {
      AgreeingIsSound(bySession, expiry, due, slots, nextId);
      ReleaseFreesOne(View(), session, now);
      Prune(now);
      assert SessionAgrees(bySession, slots, session);
      if session in bySession {
        var id := bySession[session];
        var freed := Remove(id);
        r := Released(freed);
      } else {
        assert slots - {} == slots;
        r := Released(false);
      }
    }

    /** Reload the still-redeemable sessions at boot. */
    method SeedFromSessions(rows: seq<Session>, epochNow: nat, now: nat) returns (seeded: nat)
      requires Valid()
      modifies this
      ensures Valid() && (View(), seeded) == Seed(Configured(), old(View()), rows, epochNow, now)
    {
      seeded := 0;
      var i := 0;
      var ttl := challengeTtl / NANOS_PER_SEC;
      while i < |rows|
        invariant 0 <= i <= |rows| && Valid()
        invariant (View(), seeded) == Seed(Configured(), old(View()), rows[..i], epochNow, now)
      {
        var row := rows[i];
        assert rows[..i + 1][..i] == rows[..i] && rows[..i + 1][i] == row;
        i := i + 1;
        if !row.challengeSent {
          continue;
        }
        var expiresEpoch := SatAdd(row.createdAt, ttl);
        if expiresEpoch < epochNow {
          continue;
        }
        assert SessionAgrees(bySession, slots, row.sessionId);
        if row.sessionId in bySession {
          continue;
        }
        var remaining := (expiresEpoch - epochNow + 1) * NANOS_PER_SEC;
        var _ := Insert(row.did, now + remaining, Some(row.sessionId));
        seeded := seeded + 1;
      }
      assert rows[..|rows|] == rows;
    }

    /** Live challenges held for `did`. */
    method CountLive(did: string, now: nat) returns (n: nat)
      requires Valid()
      modifies this
      ensures Valid() && View() == old(View()).(slots := LiveAt(old(slots), now))
      ensures n == CountFor(LiveAt(old(slots), now), did) && expiry == Pruned(old(expiry), old(slots), now)
    {
      Prune(now);
      PerDidCount(perDid, slots, did);
      n := if did in perDid then |perDid[did]| else 0;
    }

    /** Live challenges across all DIDs. */
    method GlobalLive(now: nat) returns (n: nat)
      requires Valid()
      modifies this
      ensures Valid() && View() == old(View()).(slots := LiveAt(old(slots), now))
      ensures n == |LiveAt(old(slots), now)| && expiry == Pruned(old(expiry), old(slots), now)
    {
      Prune(now);
      EntryCount(entries, slots);
      n := |entries|;
    }
  }

  /** The source's comments cap the expiry queue at the global cap. It is not capped:
      with two slots, one challenge that stays live and a second one released and
      re-issued over and over leave a queue as long as one likes. */
  method ExpiryQueueOutgrowsTheCap(did: string, sessions: seq<string>, ttl: nat) returns (t: PendingChallengeTracker)
    requires ttl > 0
    ensures t.Valid() && t.globalCap == 2 && |t.slots| <= 2
    ensures |t.expiry| == |sessions| + 1
  {
    t := new PendingChallengeTracker(ttl, 2);
    ghost var kept := map[0 := Slot(did, ttl, None)];
    assert LiveAt(map[], 0) == map[];
    var first := t.TryIssue(did, 2, 0);
    t.Prune(0);
    assert t.slots == kept by { assert LiveAt(kept, 0) == kept; }
    OneExpiry(t.expiry, t.due, t.slots);
    var i := 0;
    while i < |sessions|
      invariant 0 <= i <= |sessions| && fresh(t) && t.Valid() && t.View() == Tracked(kept, i + 1)
      invariant t.Configured() == Caps(ttl, 2)
      invariant |t.expiry| == i + 1 && t.expiry[0] == Due(ttl, 0)
    {
      GrowOnce(t, did, sessions[i]);
      i := i + 1;
    }
  }

  /** Issue beside the first challenge, bind, release: the set is back where it was,
      the queue one longer. */
  method GrowOnce(t: PendingChallengeTracker, did: string, session: string)
    requires t.Valid() && t.globalCap == 2 && t.challengeTtl > 0 && t.nextId > 0
    requires t.slots == map[0 := Slot(did, t.challengeTtl, None)]
    requires t.expiry != [] && t.expiry[0] == Due(t.challengeTtl, 0)
    modifies t
    ensures t.Valid() && t.View() == Tracked(old(t.slots), old(t.nextId) + 1)
    ensures |t.expiry| == old(|t.expiry|) + 1 && t.expiry[0] == old(t.expiry[0])
  {
    var id := t.nextId;
    IssueBesideFirst(t.challengeTtl, did, id, session);
    assert SessionAgrees(t.bySession, t.slots, session);
    var r := t.TryIssue(did, 2, 0);
    assert SessionAgrees(t.bySession, t.slots, session);
    assert Holders(t.slots, session) == {};
    t.Bind(id, session);
    var _ := t.ReleaseSession(session, 0);
  }

  lemma OneExpiry(expiry: seq<Due>, due: map<nat, nat>, slots: Slots)
    requires ExpiryAgrees(expiry, due, slots, 1) && slots.Keys == {0}
    requires expiry != [] ==> expiry[0].id in slots
    ensures |expiry| == 1 && expiry[0] == Due(slots[0].expires, 0)
  {
    assert DueAgrees(due, slots, 1, 0);
    forall id | id in due ensures id == 0 {
      assert DueAgrees(due, slots, 1, id);
    }
    assert due == map[0 := slots[0].expires];
    ListsCount(expiry, due);
  }

  lemma IssueBesideFirst(ttl: nat, did: string, id: nat, session: string)
    requires ttl > 0 && id > 0
    ensures
      var kept := map[0 := Slot(did, ttl, None)];
      var issued := Tracked(kept[id := Slot(did, ttl, None)], id + 1);
      var bound := ChallengeSet.Bind(issued, id, session);
      && Issue(Caps(ttl, 2), Tracked(kept, id), did, 2, 0) == (issued, Reserved(id))
      && Release(bound, session, 0) == (Tracked(kept, id + 1), Released(true))
  {
    var kept := map[0 := Slot(did, ttl, None)];
    assert LiveAt(kept, 0) == kept;
    assert IdsOf(kept, did) == {0};
    var bound := kept[id := Slot(did, ttl, Some(session))];
    assert ChallengeSet.Bind(Tracked(kept[id := Slot(did, ttl, None)], id + 1), id, session).slots == bound;
    assert LiveAt(bound, 0) == bound;
    assert Holders(bound, session) == {id};
    assert bound - {id} == kept;
  }
}
