/** What the pending-challenge tracker promises, stated without its queues: a set of
    challenges, each with the instant it runs out, counted while that instant lies
    ahead (did-hosting-control/src/pending_challenges.rs:40-49).

    Instants are nanoseconds, as `std::time::Instant` resolves them. */
module ChallengeSet {
  import opened Common

  const NANOS_PER_SEC: nat := 1_000_000_000
  const MAX_U64: nat := 0xFFFF_FFFF_FFFF_FFFF

  datatype Slot = Slot(did: string, expires: nat, session: Option<string>)

  type Slots = map<nat, Slot>

  datatype Limiter = GlobalCap | PerDidCap

  /** What a call answers. */
  datatype Reply =
    | Reserved(id: nat)
    | RateLimited(limiter: Limiter, retryAfterSecs: nat)
    | Released(freed: bool)
    | Seeded(n: nat)
    | Count(n: nat)
    | Done

  /** A stored session row, as boot seeding reads it. */
  datatype Session = Session(sessionId: string, did: string, challengeSent: bool, createdAt: nat)

  /** The members that have not run out. */
  function LiveAt(slots: Slots, now: nat): Slots {
    map id | id in slots && slots[id].expires > now :: slots[id]
  }

  function IdsOf(slots: Slots, did: string): set<nat> {
    set id | id in slots && slots[id].did == did
  }

  function CountFor(slots: Slots, did: string): nat {
    |IdsOf(slots, did)|
  }

  function Instants(slots: Slots, ids: set<nat>): set<nat>
    requires ids <= slots.Keys
  {
    set id | id in ids :: slots[id].expires
  }

  ghost predicate IsLeast(x: nat, s: set<nat>) {
    x in s && forall y :: y in s ==> x <= y
  }

  lemma {:induction false} LeastExists(s: set<nat>)
    requires s != {}
    ensures exists x :: IsLeast(x, s)
  {
    var x :| x in s;
    if s == {x} {
      assert IsLeast(x, s);
    } else {
      LeastExists(s - {x});
      var z :| IsLeast(z, s - {x});
      assert s == (s - {x}) + {x};
      assert IsLeast(if x < z then x else z, s);
    }
  }

  ghost function Least(s: set<nat>): (x: nat)
    requires s != {}
    ensures IsLeast(x, s)
  {
    LeastExists(s);
    var x :| IsLeast(x, s);
    x
  }

  /** The instant the oldest of `ids` runs out. */
  ghost function Oldest(slots: Slots, ids: set<nat>): (at: nat)
    requires ids != {} && ids <= slots.Keys
    ensures forall id :: id in ids ==> at <= slots[id].expires
    ensures exists id :: id in ids && slots[id].expires == at
  {
    var id :| id in ids;
    assert slots[id].expires in Instants(slots, ids);
    var at := Least(Instants(slots, ids));
    assert forall id :: id in ids ==> slots[id].expires in Instants(slots, ids);
    at
  }

  /** The wait a refused caller is told: at least a second, and a begun one counts whole. */
  function SecsUntil(at: nat, now: nat): nat {
    var d := if at < now then 0 else at - now;
    var secs := d / NANOS_PER_SEC + (if d % NANOS_PER_SEC > 0 then 1 else 0);
    if secs < 1 then 1 else secs
  }

  /** The hint of a refusal that counts `ids`. */
  ghost function Hint(live: Slots, ids: set<nat>, now: nat): nat
    requires ids <= live.Keys
  {
    if ids == {} then 1 else SecsUntil(Oldest(live, ids), now)
  }

  // ---------------------------------------------------------------------
  // The calls, on the set
  // ---------------------------------------------------------------------

  datatype Caps = Caps(ttl: nat, globalCap: nat)

  datatype Tracked = Tracked(slots: Slots, nextId: nat)

  /** The cap, if any, that a set of live members refuses one more challenge at:
      the global one first, then the DID's (which needs a first member to count). */
  function RefusedBy(caps: Caps, live: Slots, did: string, perDidCap: nat): Option<Limiter> {
    if |live| >= caps.globalCap then Some(GlobalCap)
    else if IdsOf(live, did) != {} && CountFor(live, did) >= perDidCap then Some(PerDidCap)
    else None
  }

  /** The members a cap counts. */
  function Counted(live: Slots, did: string, limiter: Limiter): (ids: set<nat>)
    ensures ids <= live.Keys
  {
    if limiter == GlobalCap then live.Keys else IdsOf(live, did)
  }

  /** Refuse, with a hint, or reserve a slot that runs out after the TTL. */
  ghost function Issue(caps: Caps, t: Tracked, did: string, perDidCap: nat, now: nat): (Tracked, Reply) {
    var live := LiveAt(t.slots, now);
    match RefusedBy(caps, live, did, perDidCap)
    case Some(limiter) => (t.(slots := live), RateLimited(limiter, Hint(live, Counted(live, did, limiter), now)))
    case None => (Tracked(live[t.nextId := Slot(did, now + caps.ttl, None)], t.nextId + 1), Reserved(t.nextId))
  }

  function Bind(t: Tracked, id: nat, session: string): Tracked {
    if id in t.slots then t.(slots := t.slots[id := t.slots[id].(session := Some(session))]) else t
  }

  function Cancel(t: Tracked, id: nat): Tracked {
    t.(slots := t.slots - {id})
  }

  function Holders(slots: Slots, session: string): set<nat> {
    set id | id in slots && slots[id].session == Some(session)
  }

  function Release(t: Tracked, session: string, now: nat): (Tracked, Reply) {
    var live := LiveAt(t.slots, now);
    (t.(slots := live - Holders(live, session)), Released(Holders(live, session) != {}))
  }

  function SatAdd(a: nat, b: nat): nat {
    if a + b > MAX_U64 then MAX_U64 else a + b
  }

  predicate Redeemable(row: Session, ttl: nat, epochNow: nat) {
    row.challengeSent && epochNow <= SatAdd(row.createdAt, ttl / NANOS_PER_SEC)
  }

  /** Boot seeding, row by row; a session already held is not seeded twice. */
  function Seed(caps: Caps, t: Tracked, rows: seq<Session>, epochNow: nat, now: nat): (Tracked, nat) {
    if rows == [] then (t, 0)
    else
      var (before, n) := Seed(caps, t, rows[..|rows| - 1], epochNow, now);
      var row := rows[|rows| - 1];
      if !Redeemable(row, caps.ttl, epochNow) || Holders(before.slots, row.sessionId) != {} then (before, n)
      else
        var left := SatAdd(row.createdAt, caps.ttl / NANOS_PER_SEC) - epochNow + 1;
        (Tracked(before.slots[before.nextId := Slot(row.did, now + left * NANOS_PER_SEC, Some(row.sessionId))],
                 before.nextId + 1),
         n + 1)
  }

  /** Ids are handed out once, and no two members share a session. */
  ghost predicate Sound(t: Tracked) {
    && Issued(t)
    && (forall i, j :: (i in t.slots && j in t.slots && t.slots[i].session.Some?
                        && t.slots[i].session == t.slots[j].session) ==> i == j)
  }

  // ---------------------------------------------------------------------
  // One call
  // ---------------------------------------------------------------------

  lemma LiveIsSmaller(slots: Slots, now: nat)
    ensures |LiveAt(slots, now)| <= |slots|
  {
    SubsetSize(LiveAt(slots, now).Keys, slots.Keys);
    assert |LiveAt(slots, now).Keys| == |LiveAt(slots, now)| && |slots.Keys| == |slots|;
  }

  /** A session is held by one member at most. */
  lemma HoldersAreFew(t: Tracked, session: string, now: nat)
    requires Sound(t)
    ensures |Holders(LiveAt(t.slots, now), session)| <= 1
  {
    var held := Holders(LiveAt(t.slots, now), session);
    if held != {} {
      var id :| id in held;
      assert held == {id};
    }
  }

  /** Releasing frees exactly the one slot the session holds. */
  lemma ReleaseFreesOne(t: Tracked, session: string, now: nat)
    requires Sound(t)
    ensures
      var live := LiveAt(t.slots, now);
      var (t1, r) := Release(t, session, now);
      && (r.freed <==> exists id :: id in live && live[id].session == Some(session))
      && |t1.slots| == |live| - (if r.freed then 1 else 0)
      && (forall id :: id in live && live[id].session != Some(session) ==> id in t1.slots && t1.slots[id] == live[id])
  {
    var live := LiveAt(t.slots, now);
    var held := Holders(live, session);
    HoldersAreFew(t, session, now);
    var (t1, r) := Release(t, session, now);
    assert t1.slots.Keys == live.Keys - held;
    assert |live.Keys| == |t1.slots.Keys| + |held| by {
      assert live.Keys == t1.slots.Keys + held && t1.slots.Keys !! held;
    }
    assert |t1.slots.Keys| == |t1.slots| && |live.Keys| == |live|;
    if held != {} {
      var id :| id in held;
    }
  }

  /** Releasing again, at any later time, frees nothing. */
  lemma ReleaseIsIdempotent(t: Tracked, session: string, now: nat, later: nat)
    ensures
      var t1 := Release(t, session, now).0;
      Release(t1, session, later) == (t1.(slots := LiveAt(t1.slots, later)), Released(false))
  {
    var t1 := Release(t, session, now).0;
    assert Holders(t1.slots, session) == {};
    assert Holders(LiveAt(t1.slots, later), session) == {};
    assert LiveAt(t1.slots, later) - {} == LiveAt(t1.slots, later);
  }

  function Surviving(live: Slots, ids: set<nat>, at: nat): set<nat>
    requires ids <= live.Keys
  {
    set id | id in ids && live[id].expires > at
  }

  lemma RoundUp(at: nat, now: nat)
    requires at > now
    ensures SecsUntil(at, now) >= 1
    ensures now + (SecsUntil(at, now) - 1) * NANOS_PER_SEC < at <= now + SecsUntil(at, now) * NANOS_PER_SEC
  {
  }

  /** A hint that counts `ids` is the earliest whole second at which fewer are left:
      a second sooner all of them still count. */
  lemma HintIsFirstDrop(live: Slots, ids: set<nat>, now: nat)
    requires ids <= live.Keys && ids != {}
    requires forall id :: id in ids ==> live[id].expires > now
    ensures Hint(live, ids, now) >= 1
    ensures Surviving(live, ids, now + (Hint(live, ids, now) - 1) * NANOS_PER_SEC) == ids
    ensures Surviving(live, ids, now + Hint(live, ids, now) * NANOS_PER_SEC) < ids
  {
    var at := Oldest(live, ids);
    var id :| id in ids && live[id].expires == at;
    RoundUp(at, now);
    assert id !in Surviving(live, ids, now + Hint(live, ids, now) * NANOS_PER_SEC);
  }

  /** What a cap counts at a later moment, of members live now. */
  lemma CountedLater(live: Slots, did: string, limiter: Limiter, at: nat)
    ensures Counted(LiveAt(live, at), did, limiter) == Surviving(live, Counted(live, did, limiter), at)
    ensures |LiveAt(live, at)| == |Surviving(live, live.Keys, at)| <= |live|
  {
    assert LiveAt(live, at).Keys == Surviving(live, live.Keys, at);
    assert |LiveAt(live, at).Keys| == |LiveAt(live, at)|;
    LiveIsSmaller(live, at);
  }

  /** While all the counted members live, the refusal stands. */
  lemma StillRefused(caps: Caps, live: Slots, did: string, perDidCap: nat, limiter: Limiter, at: nat)
    requires RefusedBy(caps, live, did, perDidCap) == Some(limiter)
    requires Surviving(live, Counted(live, did, limiter), at) == Counted(live, did, limiter)
    ensures RefusedBy(caps, LiveAt(live, at), did, perDidCap) == Some(limiter)
  {
    CountedLater(live, did, limiter, at);
    assert |live.Keys| == |live|;
  }

  /** At any later moment, a cap refuses again exactly when as many as the cap survive. */
  lemma RefusedAgainIff(caps: Caps, live: Slots, did: string, perDidCap: nat, limiter: Limiter, at: nat)
    requires RefusedBy(caps, live, did, perDidCap) == Some(limiter)
    ensures
      var cap := if limiter == GlobalCap then caps.globalCap else perDidCap;
      var left := Surviving(live, Counted(live, did, limiter), at);
      RefusedBy(caps, LiveAt(live, at), did, perDidCap) == Some(limiter) <==>
          |left| >= cap && (limiter == GlobalCap || left != {})
  {
    CountedLater(live, did, limiter, at);
  }

  /** The Retry-After of a refusal, on either cap, with nothing else happening: a
      retry one whole second sooner is refused at the same cap; the retry at the hint
      meets that cap exactly when as many as the cap survive; so it passes whenever
      the refusing count equalled the cap. */
  lemma RetryAfterIsExact(caps: Caps, live: Slots, did: string, perDidCap: nat, now: nat, limiter: Limiter)
    requires forall id :: id in live ==> live[id].expires > now
    requires RefusedBy(caps, live, did, perDidCap) == Some(limiter) && live != map[]
    ensures
      var r := Hint(live, Counted(live, did, limiter), now);
      var cap := if limiter == GlobalCap then caps.globalCap else perDidCap;
      var left := Surviving(live, Counted(live, did, limiter), now + r * NANOS_PER_SEC);
      var retry := RefusedBy(caps, LiveAt(live, now + r * NANOS_PER_SEC), did, perDidCap);
      && r >= 1
      && RefusedBy(caps, LiveAt(live, now + (r - 1) * NANOS_PER_SEC), did, perDidCap) == Some(limiter)
      && (retry == Some(limiter) <==> |left| >= cap && (limiter == GlobalCap || left != {}))
      && (|Counted(live, did, limiter)| == cap ==> retry != Some(limiter))
  {
    var ids := Counted(live, did, limiter);
    assert live.Keys != {} && |live.Keys| == |live|;
    HintIsFirstDrop(live, ids, now);
    var r := Hint(live, ids, now);
    StillRefused(caps, live, did, perDidCap, limiter, now + (r - 1) * NANOS_PER_SEC);
    RefusedAgainIff(caps, live, did, perDidCap, limiter, now + r * NANOS_PER_SEC);
    ProperSubsetSize(Surviving(live, ids, now + r * NANOS_PER_SEC), ids);
  }

  lemma ProperSubsetSize<T>(a: set<T>, b: set<T>)
    requires a < b
    ensures |a| < |b|
  {
    var x :| x in b && x !in a;
    SubsetSize(a, b - {x});
  }

  /** The hint is not exact at a cap of zero: every retry is refused, whatever the
      hint said, and every refusal hints one second. */
  lemma ZeroCapNeverOpens(caps: Caps, t: Tracked, did: string, perDidCap: nat, now: nat)
    requires caps.globalCap == 0
    ensures Issue(caps, t, did, perDidCap, now).1.RateLimited?
    ensures t.slots == map[] ==> Issue(caps, t, did, perDidCap, now).1.retryAfterSecs == 1
  {
    assert t.slots == map[] ==> LiveAt(t.slots, now) == map[];
  }

  /** Nor above the cap, which only boot seeding reaches: two members, a cap of one,
      and the retry at the hinted second is refused again. */
  lemma OverfullHintFallsShort(did: string)
    ensures
      var caps := Caps(NANOS_PER_SEC, 1);
      var t := Tracked(map[0 := Slot(did, NANOS_PER_SEC, None), 1 := Slot(did, 5 * NANOS_PER_SEC, None)], 2);
      && Issue(caps, t, did, 9, 0).1 == RateLimited(GlobalCap, 1)
      && Issue(caps, t, did, 9, NANOS_PER_SEC).1.RateLimited?
  {
    var t := Tracked(map[0 := Slot(did, NANOS_PER_SEC, None), 1 := Slot(did, 5 * NANOS_PER_SEC, None)], 2);
    assert LiveAt(t.slots, 0) == t.slots;
    assert t.slots.Keys == {0, 1} && |t.slots.Keys| == |t.slots|;
    assert Oldest(t.slots, t.slots.Keys) == NANOS_PER_SEC by { assert 0 in t.slots.Keys; }
    var late := LiveAt(t.slots, NANOS_PER_SEC);
    assert late.Keys == {1} && |late.Keys| == |late|;
  }

  // ---------------------------------------------------------------------
  // Whole runs
  // ---------------------------------------------------------------------

  datatype Call =
    | TryIssue(did: string, perDidCap: nat)
    | BindSession(id: nat, session: string)
    | CancelReservation(id: nat)
    | ReleaseSession(session: string)
    | CountOf(did: string)
    | GlobalCount

  /** A call and the instant the clock reads during it. */
  datatype Timed = Timed(call: Call, now: nat)

  /** The tracker: every call that reads the clock also forgets what has run out. */
  ghost function Step(caps: Caps, t: Tracked, c: Timed): (Tracked, Reply) {
    match c.call
    case TryIssue(did, cap) => Issue(caps, t, did, cap, c.now)
    case BindSession(id, session) => (Bind(t, id, session), Done)
    case CancelReservation(id) => (Cancel(t, id), Done)
    case ReleaseSession(session) => Release(t, session, c.now)
    case CountOf(did) => (t.(slots := LiveAt(t.slots, c.now)), Count(CountFor(LiveAt(t.slots, c.now), did)))
    case GlobalCount => (t.(slots := LiveAt(t.slots, c.now)), Count(|LiveAt(t.slots, c.now)|))
  }

  /** The set the tracker stands for: nothing is ever forgotten by the clock; a
      challenge leaves only when it is released or cancelled, and whoever asks looks
      at the members that have not run out. */
  ghost function Meaning(caps: Caps, t: Tracked, c: Timed): (Tracked, Reply) {
    var live := LiveAt(t.slots, c.now);
    match c.call
    case TryIssue(did, cap) => (
      match RefusedBy(caps, live, did, cap)
      case Some(limiter) => (t, RateLimited(limiter, Hint(live, Counted(live, did, limiter), c.now)))
      case None => (Tracked(t.slots[t.nextId := Slot(did, c.now + caps.ttl, None)], t.nextId + 1), Reserved(t.nextId)))
    case BindSession(id, session) => (Bind(t, id, session), Done)
    case CancelReservation(id) => (Cancel(t, id), Done)
    case ReleaseSession(session) => (t.(slots := t.slots - Holders(live, session)),
                                     Released(Holders(live, session) != {}))
    case CountOf(did) => (t, Count(CountFor(live, did)))
    case GlobalCount => (t, Count(|live|))
  }

  predicate ClockRuns(calls: seq<Timed>, since: nat) {
    calls == [] || (since <= calls[0].now && ClockRuns(calls[1..], calls[0].now))
  }

  ghost function Replies(caps: Caps, t: Tracked, calls: seq<Timed>): seq<Reply>
    decreases calls
  {
    if calls == [] then [] else [Step(caps, t, calls[0]).1] + Replies(caps, Step(caps, t, calls[0]).0, calls[1..])
  }

  ghost function MeantReplies(caps: Caps, t: Tracked, calls: seq<Timed>): seq<Reply>
    decreases calls
  {
    if calls == [] then []
    else [Meaning(caps, t, calls[0]).1] + MeantReplies(caps, Meaning(caps, t, calls[0]).0, calls[1..])
  }

  ghost predicate Issued(t: Tracked) {
    forall id :: id in t.slots ==> id < t.nextId
  }

  lemma StepIssued(caps: Caps, t: Tracked, c: Timed)
    requires Issued(t)
    ensures Issued(Step(caps, t, c).0) && Issued(Meaning(caps, t, c).0)
  {
  }

  /** Two states nobody asking from `now` on can tell apart. */
  ghost predicate Alike(t: Tracked, m: Tracked, now: nat) {
    t.nextId == m.nextId && LiveAt(t.slots, now) == LiveAt(m.slots, now)
  }

  lemma AlikeLater(t: Tracked, m: Tracked, now: nat, later: nat)
    requires Alike(t, m, now) && now <= later
    ensures Alike(t, m, later)
  {
    forall id | id in LiveAt(t.slots, later) ensures id in LiveAt(m.slots, later) && m.slots[id] == t.slots[id] {
      assert id in LiveAt(t.slots, now);
      assert LiveAt(m.slots, now)[id] == LiveAt(t.slots, now)[id];
    }
    forall id | id in LiveAt(m.slots, later) ensures id in LiveAt(t.slots, later) {
      assert id in LiveAt(m.slots, now);
      assert LiveAt(m.slots, now)[id] == LiveAt(t.slots, now)[id];
    }
    assert LiveAt(t.slots, later).Keys == LiveAt(m.slots, later).Keys;
  }

  lemma LiveTwice(slots: Slots, now: nat)
    ensures LiveAt(LiveAt(slots, now), now) == LiveAt(slots, now)
  {
  }

  lemma LiveAfterBind(t: Tracked, id: nat, session: string, now: nat)
    ensures LiveAt(Bind(t, id, session).slots, now) == Bind(t.(slots := LiveAt(t.slots, now)), id, session).slots
  {
  }

  lemma LiveAfterDrop(slots: Slots, gone: set<nat>, now: nat)
    ensures LiveAt(slots - gone, now) == LiveAt(slots, now) - gone
  {
  }

  lemma LiveAfterAdd(slots: Slots, id: nat, slot: Slot, now: nat)
    requires id !in slots
    ensures LiveAt(slots[id := slot], now) ==
        if slot.expires > now then LiveAt(slots, now)[id := slot] else LiveAt(slots, now)
  {
    var live := LiveAt(slots[id := slot], now);
    assert live.Keys == (if slot.expires > now then LiveAt(slots, now)[id := slot] else LiveAt(slots, now)).Keys;
  }

  lemma IssueMeans(caps: Caps, t: Tracked, m: Tracked, did: string, cap: nat, now: nat)
    requires Alike(t, m, now) && t.nextId !in t.slots && t.nextId !in m.slots
    ensures
      var (t1, r) := Issue(caps, t, did, cap, now);
      var (m1, q) := Meaning(caps, m, Timed(TryIssue(did, cap), now));
      r == q && Alike(t1, m1, now)
  {
    var live := LiveAt(t.slots, now);
    if RefusedBy(caps, live, did, cap).Some? {
      assert LiveAt(live, now) == live by { LiveTwice(t.slots, now); }
    } else {
      AddAlike(t, m, Slot(did, now + caps.ttl, None), now);
    }
  }

  lemma AddAlike(t: Tracked, m: Tracked, slot: Slot, now: nat)
    requires Alike(t, m, now) && t.nextId !in t.slots && t.nextId !in m.slots
    ensures Alike(Tracked(LiveAt(t.slots, now)[t.nextId := slot], t.nextId + 1),
                  Tracked(m.slots[m.nextId := slot], m.nextId + 1), now)
  {
    LiveTwice(t.slots, now);
    LiveAfterAdd(LiveAt(t.slots, now), t.nextId, slot, now);
    LiveAfterAdd(m.slots, t.nextId, slot, now);
  }

  lemma ReleaseMeans(caps: Caps, t: Tracked, m: Tracked, session: string, now: nat)
    requires Alike(t, m, now)
    ensures
      var (t1, r) := Release(t, session, now);
      var (m1, q) := Meaning(caps, m, Timed(ReleaseSession(session), now));
      r == q && Alike(t1, m1, now)
  {
    var live := LiveAt(t.slots, now);
    LiveTwice(t.slots, now);
    LiveAfterDrop(live, Holders(live, session), now);
    LiveAfterDrop(m.slots, Holders(live, session), now);
  }

  lemma StepMeans(caps: Caps, t: Tracked, m: Tracked, c: Timed)
    requires Alike(t, m, c.now)
    requires Issued(t) && Issued(m)
    ensures Step(caps, t, c).1 == Meaning(caps, m, c).1
    ensures Alike(Step(caps, t, c).0, Meaning(caps, m, c).0, c.now)
  {
    match c.call {
      case TryIssue(did, cap) => IssueMeans(caps, t, m, did, cap, c.now);
      case BindSession(id, session) =>
        LiveAfterBind(t, id, session, c.now);
        LiveAfterBind(m, id, session, c.now);
      case CancelReservation(id) =>
        LiveAfterDrop(t.slots, {id}, c.now);
        LiveAfterDrop(m.slots, {id}, c.now);
      case ReleaseSession(session) => ReleaseMeans(caps, t, m, session, c.now);
      case CountOf(did) => LiveTwice(t.slots, c.now);
      case GlobalCount => LiveTwice(t.slots, c.now);
    }
  }

  /** Refinement over any run: the tracker, which prunes lazily and keeps counts in
      queues, answers every call as the never-forgetting set does. */
  lemma {:induction false} TrackerMeansSet(caps: Caps, t: Tracked, m: Tracked, calls: seq<Timed>, since: nat)
    requires Alike(t, m, since) && ClockRuns(calls, since)
    requires Issued(t) && Issued(m)
    ensures Replies(caps, t, calls) == MeantReplies(caps, m, calls)
    decreases calls
  {
    if calls != [] {
      var c := calls[0];
      AlikeLater(t, m, since, c.now);
      StepMeans(caps, t, m, c);
      StepIssued(caps, t, c);
      StepIssued(caps, m, c);
      TrackerMeansSet(caps, Step(caps, t, c).0, Meaning(caps, m, c).0, calls[1..], c.now);
    }
  }

  /** Seeding hands out fresh ids and gives no session two slots. */
  lemma {:induction false} SeedIsSound(caps: Caps, t: Tracked, rows: seq<Session>, epochNow: nat, now: nat)
    requires Sound(t)
    ensures Sound(Seed(caps, t, rows, epochNow, now).0)
  {
    if rows != [] {
      SeedIsSound(caps, t, rows[..|rows| - 1], epochNow, now);
      var (before, n) := Seed(caps, t, rows[..|rows| - 1], epochNow, now);
      var row := rows[|rows| - 1];
      assert forall id :: id in before.slots && before.slots[id].session == Some(row.sessionId) ==>
        id in Holders(before.slots, row.sessionId);
    }
  }

  /** The refinement from boot on: the sessions reloaded, then any run of calls. */
  lemma SeededTrackerMeansSet(caps: Caps, rows: seq<Session>, epochNow: nat, now: nat, calls: seq<Timed>)
    requires ClockRuns(calls, now)
    ensures
      var t := Seed(caps, Tracked(map[], 0), rows, epochNow, now).0;
      Replies(caps, t, calls) == MeantReplies(caps, t, calls)
  {
    var t := Seed(caps, Tracked(map[], 0), rows, epochNow, now).0;
    SeedIsSound(caps, Tracked(map[], 0), rows, epochNow, now);
    TrackerMeansSet(caps, t, t, calls, now);
  }

  /** A reservation is bound once, to a session id that no member holds. */
  predicate BindsFresh(t: Tracked, c: Timed) {
    c.call.BindSession? ==>
      && Holders(t.slots, c.call.session) == {}
      && (c.call.id in t.slots ==> t.slots[c.call.id].session.None?)
  }

  lemma BindKeepsSound(t: Tracked, id: nat, session: string)
    requires Sound(t) && Holders(t.slots, session) == {}
    ensures Sound(Bind(t, id, session))
  {
    assert forall i :: i in t.slots && t.slots[i].session == Some(session) ==> i in Holders(t.slots, session);
  }

  lemma StepKeepsSound(caps: Caps, t: Tracked, c: Timed)
    requires Sound(t) && BindsFresh(t, c)
    ensures Sound(Step(caps, t, c).0)
  {
    StepIssued(caps, t, c);
    if c.call.BindSession? {
      BindKeepsSound(t, c.call.id, c.call.session);
    }
  }

  ghost predicate AllBindFresh(caps: Caps, t: Tracked, calls: seq<Timed>)
    decreases calls
  {
    calls == [] || (BindsFresh(t, calls[0]) && AllBindFresh(caps, Step(caps, t, calls[0]).0, calls[1..]))
  }

  /** Over every run, seeded or not, a session holds one member at most. */
  lemma {:induction false} SoundOverRuns(caps: Caps, t: Tracked, calls: seq<Timed>)
    requires Sound(t) && AllBindFresh(caps, t, calls)
    ensures Sound(Exec(caps, t, calls))
    decreases calls
  {
    if calls != [] {
      StepKeepsSound(caps, t, calls[0]);
      SoundOverRuns(caps, Step(caps, t, calls[0]).0, calls[1..]);
    }
  }

  ghost function Exec(caps: Caps, t: Tracked, calls: seq<Timed>): Tracked
    decreases calls
  {
    if calls == [] then t else Exec(caps, Step(caps, t, calls[0]).0, calls[1..])
  }

  lemma IssueBound(caps: Caps, t: Tracked, did: string, cap: nat, now: nat, bound: nat)
    requires |t.slots| <= bound && caps.globalCap <= bound
    ensures |Issue(caps, t, did, cap, now).0.slots| <= bound
  {
    LiveIsSmaller(t.slots, now);
  }

  lemma ReleaseBound(t: Tracked, session: string, now: nat)
    ensures |Release(t, session, now).0.slots| <= |t.slots|
  {
    var live := LiveAt(t.slots, now);
    LiveIsSmaller(t.slots, now);
    FewerKeys(live, Holders(live, session));
  }

  lemma PruneBound(t: Tracked, now: nat)
    ensures |t.(slots := LiveAt(t.slots, now)).slots| <= |t.slots|
  {
    LiveIsSmaller(t.slots, now);
  }

  lemma BindBound(t: Tracked, id: nat, session: string)
    ensures |Bind(t, id, session).slots| == |t.slots|
  {
    SameKeysSameSize(Bind(t, id, session).slots, t.slots);
  }

  lemma CancelBound(t: Tracked, id: nat)
    ensures |Cancel(t, id).slots| <= |t.slots|
  {
    FewerKeys(t.slots, {id});
  }

  lemma StepBound(caps: Caps, t: Tracked, c: Timed, bound: nat)
    requires |t.slots| <= bound && caps.globalCap <= bound
    ensures |Step(caps, t, c).0.slots| <= bound
  {
    if c.call.TryIssue? {
      IssueBound(caps, t, c.call.did, c.call.perDidCap, c.now, bound);
      assert Step(caps, t, c) == Issue(caps, t, c.call.did, c.call.perDidCap, c.now);
    } else {
      assert |Step(caps, t, c).0.slots| <= |t.slots| by { ShrinkingStep(caps, t, c); }
    }
  }

  lemma ReleaseStepBound(caps: Caps, t: Tracked, c: Timed)
    requires c.call.ReleaseSession?
    ensures |Step(caps, t, c).0.slots| <= |t.slots|
  {
    ReleaseBound(t, c.call.session, c.now);
    assert Step(caps, t, c) == Release(t, c.call.session, c.now);
  }

  /** Only issuing adds a member. */
  lemma ShrinkingStep(caps: Caps, t: Tracked, c: Timed)
    requires !c.call.TryIssue?
    ensures |Step(caps, t, c).0.slots| <= |t.slots|
  {
    match c.call {
      case BindSession(id, session) => BindBound(t, id, session);
      case CancelReservation(id) => CancelBound(t, id);
      case ReleaseSession(session) => ReleaseStepBound(caps, t, c);
      case CountOf(_) => PruneBound(t, c.now);
      case GlobalCount => PruneBound(t, c.now);
    }
  }

  /** No run lifts the number of members above the global cap, or above what boot
      seeding left if that was more. */
  lemma {:induction false} NeverAboveCap(caps: Caps, t: Tracked, calls: seq<Timed>, bound: nat)
    requires |t.slots| <= bound && caps.globalCap <= bound
    ensures |Exec(caps, t, calls).slots| <= bound
    decreases calls
  {
    if calls != [] {
      StepBound(caps, t, calls[0], bound);
      NeverAboveCap(caps, Step(caps, t, calls[0]).0, calls[1..], bound);
    }
  }

  lemma SameKeysSameSize(a: Slots, b: Slots)
    requires a.Keys == b.Keys
    ensures |a| == |b|
  {
    assert |a.Keys| == |a| && |b.Keys| == |b|;
  }

  lemma FewerKeys(a: Slots, gone: set<nat>)
    ensures |a - gone| <= |a|
  {
    assert (a - gone).Keys <= a.Keys;
    SubsetSize((a - gone).Keys, a.Keys);
    assert |(a - gone).Keys| == |a - gone| && |a.Keys| == |a|;
  }

  // ---------------------------------------------------------------------
  // In numbers
  // ---------------------------------------------------------------------

  /** The members that count for a DID at an instant. */
  function CountingFor(slots: Slots, did: string, now: nat): set<nat> {
    set id | id in slots && slots[id].did == did && slots[id].expires > now
  }

  function Counting(slots: Slots, now: nat): set<nat> {
    set id | id in slots && slots[id].expires > now
  }

  lemma CountingMeans(slots: Slots, did: string, now: nat)
    ensures |LiveAt(slots, now)| == |Counting(slots, now)|
    ensures IdsOf(LiveAt(slots, now), did) == CountingFor(slots, did, now)
  {
    assert LiveAt(slots, now).Keys == Counting(slots, now);
    assert |LiveAt(slots, now).Keys| == |LiveAt(slots, now)|;
  }

  /** Asked how many count, the tracker says how many have not run out. */
  lemma CountsMean(caps: Caps, t: Tracked, did: string, now: nat)
    ensures Step(caps, t, Timed(CountOf(did), now)).1 == Count(|CountingFor(t.slots, did, now)|)
    ensures Step(caps, t, Timed(GlobalCount, now)).1 == Count(|Counting(t.slots, now)|)
  {
    CountingMeans(t.slots, did, now);
  }

  /** A challenge is issued exactly when fewer than the global cap count, and of the DID's own none or
      fewer than its cap; the refusal names the global cap if that is reached. What is issued counts
      for one TTL from now, bound to no session, and whatever else counted goes on counting. */
  lemma IssueIff(caps: Caps, t: Tracked, did: string, perDidCap: nat, now: nat)
    ensures
      var (u, reply) := Issue(caps, t, did, perDidCap, now);
      var all, own := |Counting(t.slots, now)|, |CountingFor(t.slots, did, now)|;
      && (reply == Reserved(t.nextId) <==> all < caps.globalCap && (own == 0 || own < perDidCap))
      && (reply != Reserved(t.nextId) ==> reply.RateLimited? && (reply.limiter == GlobalCap <==> all >= caps.globalCap))
      && (reply == Reserved(t.nextId) ==>
            u.nextId == t.nextId + 1 && t.nextId in u.slots && u.slots[t.nextId] == Slot(did, now + caps.ttl, None))
      && (forall id :: id in t.slots && id != t.nextId && t.slots[id].expires > now ==>
            id in u.slots && u.slots[id] == t.slots[id])
      && (forall id :: id in u.slots && id != t.nextId ==> id in t.slots && u.slots[id] == t.slots[id])
  {
    CountingMeans(t.slots, did, now);
    assert CountingFor(t.slots, did, now) == {} <==> |CountingFor(t.slots, did, now)| == 0;
  }

  lemma IssueOwnBound(caps: Caps, t: Tracked, other: string, did: string, cap: nat, now: nat, bound: nat)
    requires |IdsOf(t.slots, did)| <= bound && bound >= 1 && (other == did ==> cap <= bound)
    ensures |IdsOf(Issue(caps, t, other, cap, now).0.slots, did)| <= bound
  {
    var live := LiveAt(t.slots, now);
    var after := Issue(caps, t, other, cap, now).0.slots;
    SubsetSize(IdsOf(live, did), IdsOf(t.slots, did));
    if RefusedBy(caps, live, other, cap).None? {
      if other == did {
        assert IdsOf(after, did) <= IdsOf(live, did) + {t.nextId};
        SubsetSize(IdsOf(after, did), IdsOf(live, did) + {t.nextId});
      } else {
        assert IdsOf(after, did) <= IdsOf(live, did);
        SubsetSize(IdsOf(after, did), IdsOf(live, did));
      }
    }
  }

  lemma StepOwnBound(caps: Caps, t: Tracked, c: Timed, did: string, bound: nat)
    requires |IdsOf(t.slots, did)| <= bound && bound >= 1
    requires c.call.TryIssue? && c.call.did == did ==> c.call.perDidCap <= bound
    ensures |IdsOf(Step(caps, t, c).0.slots, did)| <= bound
  {
    if c.call.TryIssue? {
      IssueOwnBound(caps, t, c.call.did, did, c.call.perDidCap, c.now, bound);
      assert Step(caps, t, c) == Issue(caps, t, c.call.did, c.call.perDidCap, c.now);
    } else {
      assert IdsOf(Step(caps, t, c).0.slots, did) <= IdsOf(t.slots, did);
      SubsetSize(IdsOf(Step(caps, t, c).0.slots, did), IdsOf(t.slots, did));
    }
  }

  /** Over every run, a DID never has more members than the caps it was asked with allow (one, where
      a cap is zero), or than boot seeding left it if that was more. */
  lemma {:induction false} NeverAboveOwnCap(caps: Caps, t: Tracked, calls: seq<Timed>, did: string, bound: nat)
    requires |IdsOf(t.slots, did)| <= bound && bound >= 1
    requires forall i :: 0 <= i < |calls| && calls[i].call.TryIssue? && calls[i].call.did == did ==>
      calls[i].call.perDidCap <= bound
    ensures |IdsOf(Exec(caps, t, calls).slots, did)| <= bound
    decreases calls
  {
    if calls != [] {
      StepOwnBound(caps, t, calls[0], did, bound);
      NeverAboveOwnCap(caps, Step(caps, t, calls[0]).0, calls[1..], did, bound);
    }
  }

  /** A reservation that is bound is its session's: while it counts, the release of the session frees
      it and nothing else that counts. */
  lemma BoundIsReleased(t: Tracked, id: nat, session: string, now: nat)
    requires id in t.slots && t.slots[id].expires > now && Holders(t.slots, session) == {}
    ensures
      var (u, reply) := Release(Bind(t, id, session), session, now);
      && reply == Released(true) && Counting(u.slots, now) == Counting(t.slots, now) - {id}
      && forall other :: other in u.slots ==> other in t.slots && u.slots[other] == t.slots[other]
  {
    var bound := Bind(t, id, session);
    assert id in Holders(LiveAt(bound.slots, now), session);
    forall other ensures other in Holders(LiveAt(bound.slots, now), session) <==> other == id {
      assert other != id && other in Holders(bound.slots, session) ==> other in Holders(t.slots, session);
    }
  }

  /** Binding an id that is not tracked, because it has run out or was cancelled, changes nothing. */
  lemma NothingToBind(t: Tracked, id: nat, session: string)
    requires id !in t.slots
    ensures Bind(t, id, session) == t
  {
  }

  /** A reservation that is cancelled might as well not have been made: what counts is what did
      before. */
  lemma CancelUndoesIssue(caps: Caps, t: Tracked, did: string, perDidCap: nat, now: nat)
    requires Issued(t) && Issue(caps, t, did, perDidCap, now).1.Reserved?
    ensures
      var (u, reply) := Issue(caps, t, did, perDidCap, now);
      LiveAt(Cancel(u, reply.id).slots, now) == LiveAt(t.slots, now)
  {
    var live := LiveAt(t.slots, now);
    assert t.nextId !in live;
    assert live[t.nextId := Slot(did, now + caps.ttl, None)] - {t.nextId} == live;
    LiveTwice(t.slots, now);
  }

  // ---------------------------------------------------------------------
  // What boot seeding reloads
  // ---------------------------------------------------------------------

  /** The last second, inclusive, at which the session's challenge can be redeemed. */
  function LastSecond(row: Session, ttl: nat): nat {
    SatAdd(row.createdAt, ttl / 1_000_000_000)
  }

  /** A challenge that was sent and can still be redeemed. */
  predicate StillOpen(row: Session, ttl: nat, epochNow: nat) {
    row.challengeSent && epochNow <= LastSecond(row, ttl)
  }

  /** The member stands for the row: its DID, its session, until its last second is over. */
  predicate StandsFor(slot: Slot, row: Session, ttl: nat, epochNow: nat, now: nat) {
    && slot.session == Some(row.sessionId) && slot.did == row.did
    && slot.expires == now + (LastSecond(row, ttl) + 1 - epochNow) * 1_000_000_000
  }

  ghost predicate Reloaded(slots: Slots, id: nat, rows: seq<Session>, ttl: nat, epochNow: nat, now: nat) {
    id in slots && exists i :: 0 <= i < |rows| && StillOpen(rows[i], ttl, epochNow)
                               && StandsFor(slots[id], rows[i], ttl, epochNow, now)
  }

  /** The last row, if it is open and its session has no member yet, adds one. */
  lemma SeedsLastRow(caps: Caps, t: Tracked, rows: seq<Session>, epochNow: nat, now: nat)
    requires rows != []
    ensures
      var row := rows[|rows| - 1];
      var (before, n) := Seed(caps, t, rows[..|rows| - 1], epochNow, now);
      var (after, more) := Seed(caps, t, rows, epochNow, now);
      if StillOpen(row, caps.ttl, epochNow) && Holders(before.slots, row.sessionId) == {} then
        && more == n + 1 && after.nextId == before.nextId + 1 && before.nextId in after.slots
        && after.slots == before.slots[before.nextId := after.slots[before.nextId]]
        && StandsFor(after.slots[before.nextId], row, caps.ttl, epochNow, now)
      else after == before && more == n
  {
  }

  lemma StaysReloaded(slots: Slots, after: Slots, id: nat, rows: seq<Session>, ttl: nat, epochNow: nat, now: nat)
    requires rows != [] && Reloaded(slots, id, rows[..|rows| - 1], ttl, epochNow, now)
    requires id in after && after[id] == slots[id]
    ensures Reloaded(after, id, rows, ttl, epochNow, now)
  {
    var early := rows[..|rows| - 1];
    var i :| 0 <= i < |early| && StillOpen(early[i], ttl, epochNow)
             && StandsFor(slots[id], early[i], ttl, epochNow, now);
    assert rows[i] == early[i];
  }

  lemma StaysHeld(slots: Slots, after: Slots, added: nat, session: string)
    requires added !in slots && added in after && after == slots[added := after[added]]
    ensures Holders(slots, session) != {} ==> Holders(after, session) != {}
    ensures after[added].session == Some(session) ==> Holders(after, session) != {}
    ensures |after| == |slots| + 1
  {
    if id :| id in Holders(slots, session) { assert id in Holders(after, session); }
    if after[added].session == Some(session) { assert added in Holders(after, session); }
  }

  /** Every row still open has a member for its session. */
  ghost predicate AllHeld(slots: Slots, rows: seq<Session>, ttl: nat, epochNow: nat) {
    forall i :: 0 <= i < |rows| && StillOpen(rows[i], ttl, epochNow) ==> Holders(slots, rows[i].sessionId) != {}
  }

  ghost predicate Seeded(slots: Slots, n: nat, rows: seq<Session>, ttl: nat, epochNow: nat, now: nat) {
    && n == |slots| && AllHeld(slots, rows, ttl, epochNow)
    && forall id :: id in slots ==> Reloaded(slots, id, rows, ttl, epochNow, now)
  }

  /** The last row is not open, or its session has a member already. */
  lemma NothingToAdd(slots: Slots, n: nat, rows: seq<Session>, ttl: nat, epochNow: nat, now: nat)
    requires rows != [] && Seeded(slots, n, rows[..|rows| - 1], ttl, epochNow, now)
    requires StillOpen(rows[|rows| - 1], ttl, epochNow) ==> Holders(slots, rows[|rows| - 1].sessionId) != {}
    ensures Seeded(slots, n, rows, ttl, epochNow, now)
  {
    forall id | id in slots ensures Reloaded(slots, id, rows, ttl, epochNow, now) {
      StaysReloaded(slots, slots, id, rows, ttl, epochNow, now);
    }
    forall i | 0 <= i < |rows| && StillOpen(rows[i], ttl, epochNow) ensures Holders(slots, rows[i].sessionId) != {} {
      assert i < |rows| - 1 ==> rows[..|rows| - 1][i] == rows[i];
    }
  }

  lemma OneToAdd(slots: Slots, after: Slots, added: nat, n: nat, rows: seq<Session>, ttl: nat, epochNow: nat, now: nat)
    requires rows != [] && Seeded(slots, n, rows[..|rows| - 1], ttl, epochNow, now)
    requires added !in slots && added in after && after == slots[added := after[added]]
    requires StillOpen(rows[|rows| - 1], ttl, epochNow)
    requires StandsFor(after[added], rows[|rows| - 1], ttl, epochNow, now)
    ensures Seeded(after, n + 1, rows, ttl, epochNow, now)
  {
    forall id | id in after ensures Reloaded(after, id, rows, ttl, epochNow, now) {
      if id != added { StaysReloaded(slots, after, id, rows, ttl, epochNow, now); }
    }
    StaysHeld(slots, after, added, rows[|rows| - 1].sessionId);
    forall i | 0 <= i < |rows| && StillOpen(rows[i], ttl, epochNow) ensures Holders(after, rows[i].sessionId) != {} {
      assert i < |rows| - 1 ==> rows[..|rows| - 1][i] == rows[i];
      StaysHeld(slots, after, added, rows[i].sessionId);
    }
  }

  /** Seeding an empty tracker gives every session that is still open one member, and none to any
      other: each member stands for a row that is still open, until that row's last second is
      over. */
  lemma {:induction false} SeedMeans(caps: Caps, rows: seq<Session>, epochNow: nat, now: nat)
    ensures
      var (t, n) := Seed(caps, Tracked(map[], 0), rows, epochNow, now);
      Sound(t) && Seeded(t.slots, n, rows, caps.ttl, epochNow, now)
  {
    var empty := Tracked(map[], 0);
    SeedIsSound(caps, empty, rows, epochNow, now);
    if rows != [] {
      var early := rows[..|rows| - 1];
      SeedMeans(caps, early, epochNow, now);
      SeedsLastRow(caps, empty, rows, epochNow, now);
      var (before, n) := Seed(caps, empty, early, epochNow, now);
      var after := Seed(caps, empty, rows, epochNow, now).0;
      if after == before {
        NothingToAdd(before.slots, n, rows, caps.ttl, epochNow, now);
      } else {
        OneToAdd(before.slots, after.slots, before.nextId, n, rows, caps.ttl, epochNow, now);
      }
    }
  }
}
