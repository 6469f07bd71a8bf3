/** The durable outbox's rows and the operations on them
    (did-hosting-control/src/outbox.rs). Storage scans are by target; `OutboxKey` says
    when the string scan is exactly that. */
module OutboxQueue {
  import opened Common
  import opened OutboxKey

  const MAX_ATTEMPTS: nat := 50
  const MAX_AGE_SECS: nat := 7 * 24 * 60 * 60
  const MAX_BACKOFF_SECS: nat := 5 * 60
  const ACK_TIMEOUT_SECS: nat := 60

  datatype Row = Row(
    msgType: string, body: string, enqueuedAt: nat,
    attempts: nat, nextAttemptAt: nat, lastError: Option<string>, awaitingAck: Option<string>)

  type Rows = map<Key, Row>

  datatype HeadAction = Send | Wait

  function ActionFor(row: Row, now: nat): HeadAction {
    if row.nextAttemptAt > now then Wait else Send
  }

  /** Past the retry or the age budget. */
  predicate OverBudget(row: Row, now: nat) {
    row.attempts >= MAX_ATTEMPTS || (now >= row.enqueuedAt && now - row.enqueuedAt >= MAX_AGE_SECS)
  }

  function Pow2(e: nat): nat {
    if e == 0 then 1 else 2 * Pow2(e - 1)
  }

  function Backoff(attempts: nat): nat {
    Min(Pow2(Min(attempts, 10)), MAX_BACKOFF_SECS)
  }

  function Truncated(err: string): string {
    if |err| <= 200 then err else err[..200] + ['\U{2026}']
  }

  function Queued(msgType: string, body: string, now: nat): Row {
    Row(msgType, body, now, 0, now, None, None)
  }

  /** The row after a failed delivery. */
  function Failed(row: Row, err: string, now: nat): Row {
    row.(attempts := row.attempts + 1, lastError := Some(Truncated(err)),
         nextAttemptAt := now + Backoff(row.attempts + 1), awaitingAck := None)
  }

  /** The row after being handed to the transport as document `doc`. */
  function Sent(row: Row, doc: string, now: nat): Row {
    row.(attempts := row.attempts + 1, nextAttemptAt := now + ACK_TIMEOUT_SECS, awaitingAck := Some(doc))
  }

  /** What never changes about a row. */
  predicate SamePayload(a: Row, b: Row) {
    a.msgType == b.msgType && a.body == b.body && a.enqueuedAt == b.enqueuedAt
  }

  // ---------------------------------------------------------------------
  // Backoff
  // ---------------------------------------------------------------------

  /** The waits scheduled after the first `failures` failed attempts of a row. */
  function TotalBackoff(failures: nat): nat {
    if failures == 0 then 0 else TotalBackoff(failures - 1) + Backoff(failures)
  }

  lemma EarlyBackoffs()
    ensures TotalBackoff(8) == 510
  {
    assert Pow2(2) == 4 && Pow2(4) == 16;
    assert TotalBackoff(2) == 6;
    assert TotalBackoff(4) == 30;
    assert Pow2(6) == 64 && Pow2(8) == 256;
    assert TotalBackoff(6) == TotalBackoff(4) + 32 + 64;
    assert TotalBackoff(8) == TotalBackoff(6) + 128 + 256;
  }

  lemma LateBackoff(attempts: nat)
    requires attempts >= 9
    ensures Backoff(attempts) == MAX_BACKOFF_SECS
  {
    assert Pow2(4) == 16 && Pow2(8) == 256 && Pow2(10) == 4 * Pow2(8) && Pow2(9) == 2 * Pow2(8);
  }

  lemma {:induction false} CappedBackoff(failures: nat)
    requires failures >= 8
    ensures TotalBackoff(failures) == 510 + (failures - 8) * MAX_BACKOFF_SECS
  {
    if failures == 8 {
      EarlyBackoffs();
    } else {
      CappedBackoff(failures - 1);
      LateBackoff(failures);
    }
  }

  /** The waits before the fiftieth failed attempt add up to 12,810 seconds. */
  lemma RetrySpan()
    ensures TotalBackoff(MAX_ATTEMPTS - 1) == 12_810
  {
    CappedBackoff(MAX_ATTEMPTS - 1);
  }

  /** A run of failures schedules exactly those waits: after `n` of them, with each
      retry made the moment it is due, the row is next due `TotalBackoff(n)` after it
      was queued. */
  lemma {:induction false} FailuresAddUp(row: Row, errs: seq<string>)
    requires row.attempts == 0
    ensures FailedRepeatedly(row, errs).nextAttemptAt == row.nextAttemptAt + TotalBackoff(|errs|)
    ensures FailedRepeatedly(row, errs).attempts == |errs|
  {
    if errs != [] {
      FailuresAddUp(row, errs[..|errs| - 1]);
    }
  }

  function FailedRepeatedly(row: Row, errs: seq<string>): Row {
    if errs == [] then row
    else
      var before := FailedRepeatedly(row, errs[..|errs| - 1]);
      Failed(before, errs[|errs| - 1], before.nextAttemptAt)
  }

  // ---------------------------------------------------------------------
  // One target's queue
  // ---------------------------------------------------------------------

  datatype Item = Item(key: Key, row: Row)

  function KeysFor(rows: Rows, target: string): set<Key> {
    set k | k in rows && k.target == target
  }

  ghost predicate Ordered(q: seq<Item>) {
    forall i, j :: 0 <= i < j < |q| ==> Before(q[i].key, q[j].key)
  }

  /** `q` is the target's rows in enqueue order. */
  ghost predicate IsQueue(q: seq<Item>, rows: Rows, target: string) {
    && Ordered(q)
    && (forall i :: 0 <= i < |q| ==> q[i].key in rows && q[i].key.target == target && rows[q[i].key] == q[i].row)
    && (forall k :: k in rows && k.target == target ==> Item(k, rows[k]) in q)
  }

  predicate IsFirst(k: Key, keys: set<Key>) {
    k in keys && forall j :: j in keys ==> j == k || Before(k, j)
  }

  lemma {:induction false} FirstExists(keys: set<Key>, target: string)
    requires keys != {} && forall k :: k in keys ==> k.target == target
    ensures exists k :: IsFirst(k, keys)
  {
    var x :| x in keys;
    if keys == {x} {
      assert IsFirst(x, keys);
    } else {
      FirstExists(keys - {x}, target);
      var y :| IsFirst(y, keys - {x});
      BeforeOrder(x, y, y);
      forall j | j in keys ensures j == x || j == y || Before(y, j) {}
      if Before(x, y) {
        forall j | j in keys ensures j == x || Before(x, j) { BeforeOrder(x, y, j); }
        assert IsFirst(x, keys);
      } else {
        assert IsFirst(y, keys);
      }
    }
  }

  /** `j` stands in front of `k` in the same queue. */
  predicate Ahead(rows: Rows, j: Key, k: Key) {
    j in rows && j.target == k.target && Before(j, k)
  }

  // ---------------------------------------------------------------------
  // What a tick does
  // ---------------------------------------------------------------------

  /** What became of a delivery, and the clock when it did. An HTTPS answer is its own
      acknowledgement. */
  datatype Outcome = NotDelivered(err: string, at: nat) | Handed(doc: string, at: nat) | Answered(doc: string, at: nat)

  function DocOf(o: Outcome): Option<string> {
    if o.NotDelivered? then None else Some(o.doc)
  }

  /** Dropped: past its budget, like everything ahead of it. */
  ghost predicate Doomed(rows: Rows, k: Key, now: nat) {
    k in rows && OverBudget(rows[k], now) && forall j :: Ahead(rows, j, k) ==> OverBudget(rows[j], now)
  }

  /** At the head once the dropped rows are gone. */
  ghost predicate Leads(rows: Rows, k: Key, now: nat) {
    k in rows && !OverBudget(rows[k], now) && forall j :: Ahead(rows, j, k) ==> OverBudget(rows[j], now)
  }

  /** Attempted: leading, with no wait running. */
  ghost predicate Attempted(rows: Rows, k: Key, now: nat) {
    Leads(rows, k, now) && rows[k].nextAttemptAt <= now
  }

  function Settled(row: Row, o: Outcome): Row {
    match o
    case NotDelivered(err, at) => Failed(row, err, at)
    case Handed(doc, at) => Sent(row, doc, at)
    case Answered(doc, at) => Sent(row, doc, at)
  }

  ghost predicate Gone(rows: Rows, k: Key, now: nat, deliver: Key -> Outcome) {
    Doomed(rows, k, now) || (Attempted(rows, k, now) && deliver(k).Answered?)
  }

  /** The rows after an undisturbed tick over `targets`. */
  ghost function AfterTick(rows: Rows, targets: set<string>, now: nat, deliver: Key -> Outcome): Rows {
    map k | k in rows && !(k.target in targets && Gone(rows, k, now, deliver)) ::
      if k.target in targets && Attempted(rows, k, now) then Settled(rows[k], deliver(k)) else rows[k]
  }

  /** Document ids are fresh: none is awaited yet, and no two sends share one. */
  ghost predicate FreshDocs(rows: Rows, deliver: Key -> Outcome) {
    && (forall k, j :: k in rows && j in rows && DocOf(deliver(k)).Some? && DocOf(deliver(k)) == DocOf(deliver(j)) ==>
        k == j)
    && (forall k, j :: k in rows && j in rows && DocOf(deliver(k)).Some? ==> rows[j].awaitingAck != DocOf(deliver(k)))
  }

  /** The same, for the sends of one target. */
  ghost predicate FreshFor(rows: Rows, target: string, deliver: Key -> Outcome) {
    forall k, j :: k in rows && j in rows && k.target == target && DocOf(deliver(k)).Some? ==>
        rows[j].awaitingAck != DocOf(deliver(k))
  }

  /** Progress: of a target's rows in front, a tick drops those past their budget; the
      next one either waits and is untouched, or leaves, or has one attempt fewer left;
      every row behind it is untouched. */
  lemma TickProgress(rows: Rows, targets: set<string>, now: nat, deliver: Key -> Outcome, k: Key)
    requires k in rows && k.target in targets
    ensures
      var after := AfterTick(rows, targets, now, deliver);
      && (Doomed(rows, k, now) ==> k !in after)
      && (Attempted(rows, k, now) ==>
            || k !in after
            || (SamePayload(after[k], rows[k]) && after[k].attempts == rows[k].attempts + 1 <= MAX_ATTEMPTS))
      && (!Doomed(rows, k, now) && !Attempted(rows, k, now) ==> k in after && after[k] == rows[k])
      && (forall j :: Leads(rows, j, now) && Ahead(rows, j, k) ==> k in after && after[k] == rows[k])
  {
  }

  /** In every nonempty queue a tick finds something to do or a wait to respect: its
      first row is dropped, or leads. */
  lemma HeadIsDoomedOrLeads(rows: Rows, target: string, now: nat)
    requires KeysFor(rows, target) != {}
    ensures exists k :: IsFirst(k, KeysFor(rows, target)) && (Doomed(rows, k, now) || Leads(rows, k, now))
  {
    FirstExists(KeysFor(rows, target), target);
    var k :| IsFirst(k, KeysFor(rows, target));
    forall j ensures !Ahead(rows, j, k) {
      if j in KeysFor(rows, target) { BeforeOrder(j, k, j); }
    }
    assert Doomed(rows, k, now) || Leads(rows, k, now);
  }

  // ---------------------------------------------------------------------
  // The store
  // ---------------------------------------------------------------------

  class Outbox {
    var rows: Rows

    constructor ()
      ensures rows == map[]
    {
      rows := map[];
    }

    /** Persist a message; the uuid in the key is fresh. */
    method Enqueue(key: Key, msgType: string, body: string, now: nat)
      requires key !in rows
      modifies this
      ensures rows == old(rows)[key := Queued(msgType, body, now)]
    {
      rows := rows[key := Row(msgType, body, now, 0, now, None, None)];
    }

    /** One target's rows, sorted by key. */
    method ListPendingForTarget(target: string) returns (q: seq<Item>)
      ensures IsQueue(q, rows, target)
    {
      q := [];
      var left := KeysFor(rows, target);
      while left != {}
        invariant left <= KeysFor(rows, target)
        invariant Ordered(q)
        invariant forall i :: 0 <= i < |q| ==>
            q[i].key in rows && q[i].key.target == target && rows[q[i].key] == q[i].row
        invariant forall k :: k in KeysFor(rows, target) && k !in left ==> Item(k, rows[k]) in q
        invariant forall i, k :: 0 <= i < |q| && k in left ==> Before(q[i].key, k)
        decreases |left|
      {
        FirstExists(left, target);
        var k :| IsFirst(k, left);
        q := q + [Item(k, rows[k])];
        left := left - {k};
      }
    }

    /** Rewrite a row only if it is still queued. */
    method RewriteIfPresent(key: Key, next: Row)
      modifies this
      ensures rows == if key in old(rows) then old(rows)[key := next] else old(rows)
    {
      if key in rows {
        rows := rows[key := next];
      }
    }

    method RecordFailure(key: Key, entry: Row, err: string, now: nat)
      modifies this
      ensures rows == if key in old(rows) then old(rows)[key := Failed(entry, err, now)] else old(rows)
    {
      RewriteIfPresent(key, entry.(attempts := entry.attempts + 1, lastError := Some(Truncated(err)),
                                   nextAttemptAt := now + Backoff(entry.attempts + 1), awaitingAck := None));
    }

    method RecordSent(key: Key, entry: Row, doc: string, now: nat)
      modifies this
      ensures rows == if key in old(rows) then old(rows)[key := Sent(entry, doc, now)] else old(rows)
    {
      RewriteIfPresent(key, entry.(attempts := entry.attempts + 1, nextAttemptAt := now + ACK_TIMEOUT_SECS,
                                   awaitingAck := Some(doc)));
    }

    /** Drop every superseded entry; says how many. */
    method DropQueued(target: string, msgType: string, matches: string -> bool) returns (dropped: nat)
      modifies this
      ensures rows == map k | k in old(rows) && !(k.target == target && old(rows)[k].msgType == msgType
                                                  && matches(old(rows)[k].body)) :: old(rows)[k]
      ensures dropped == |old(rows)| - |rows|
    {
      dropped := 0;
      var q := ListPendingForTarget(target);
      var i := 0;
      while i < |q|
        invariant 0 <= i <= |q|
        invariant forall k :: k in rows ==> k in old(rows) && rows[k] == old(rows)[k]
        invariant forall k :: k in old(rows) && k !in rows ==> Supersedes(k, old(rows)[k], target, msgType, matches)
        invariant forall j :: 0 <= j < i && q[j].key in rows ==>
            !Supersedes(q[j].key, q[j].row, target, msgType, matches)
        invariant forall j :: i <= j < |q| ==> q[j].key in rows
        invariant dropped + |rows| == |old(rows)|
      {
        var item := q[i];
        if item.row.msgType == msgType && matches(item.row.body) {
          ghost var was := rows;
          forall j | i < j < |q| ensures q[j].key != item.key { BeforeOrder(item.key, q[j].key, item.key); }
          rows := rows - {item.key};
          assert was == rows[item.key := was[item.key]];
          dropped := dropped + 1;
        }
        i := i + 1;
      }
      forall k | k in rows ensures !Supersedes(k, rows[k], target, msgType, matches) {
        if k.target == target {
          assert Item(k, old(rows)[k]) in q;
        }
      }
    }

    /** Remove the entry awaiting `doc`; only the signer's own rows are looked at. */
    method Acknowledge(signer: string, doc: string) returns (found: bool)
      modifies this
      ensures found <==>
        exists k :: k in old(rows) && k.target == signer && old(rows)[k].awaitingAck == Some(doc)
      ensures !found ==> rows == old(rows)
      ensures found ==>
        exists k :: k in old(rows) && k.target == signer && old(rows)[k].awaitingAck == Some(doc)
                    && rows == old(rows) - {k}
    {
      var q := ListPendingForTarget(signer);
      var i := 0;
      while i < |q|
        invariant 0 <= i <= |q| && rows == old(rows)
        invariant forall j :: 0 <= j < i ==> q[j].row.awaitingAck != Some(doc)
      {
        if q[i].row.awaitingAck == Some(doc) {
          assert Awaits(q[i].key, rows[q[i].key], signer, doc);
          rows := rows - {q[i].key};
          return true;
        }
        i := i + 1;
      }
      forall k | k in rows ensures !Awaits(k, rows[k], signer, doc) {
        if k.target == signer { assert Item(k, rows[k]) in q; }
      }
      return false;
    }

    /** Process one target's queue once. `deliver` stands for the network; `tried` is what was
        handed to it. */
    method TickTarget(target: string, now: nat, deliver: Key -> Outcome) returns (ghost tried: set<Key>)
      requires FreshFor(rows, target, deliver)
      modifies this
      ensures rows == AfterTick(old(rows), {target}, now, deliver)
      ensures tried == set k | k in old(rows) && k.target == target && Attempted(old(rows), k, now)
    {
      tried := {};
      var pending := ListPendingForTarget(target);
      ghost var was := rows;
      var i := 0;
      while i < |pending|
        invariant 0 <= i <= |pending|
        invariant forall j :: 0 <= j < i ==> OverBudget(pending[j].row, now)
        invariant rows == Without(was, pending, i)
      {
        var item := pending[i];
        if OverBudget(item.row, now) {
          DropNext(was, pending, target, i);
          rows := rows - {item.key};
          i := i + 1;
          continue;
        }
        LeadsAt(was, pending, target, now, i);
        if ActionFor(item.row, now) == Wait {
          TickWaits(was, pending, target, now, deliver, i);
          return;
        }
        var o := deliver(item.key);
        tried := {item.key};
        StillThere(was, pending, target, i);
        if o.NotDelivered? {
          RecordFailure(item.key, item.row, o.err, o.at);
        } else {
          RecordSent(item.key, item.row, o.doc, o.at);
          if o.Answered? {
            OnlyOneAwaits(was, pending, target, deliver, i, rows);
            var _ := Acknowledge(target, o.doc);
          }
        }
        TickSettles(was, pending, target, now, deliver, i);
        return;
      }
      NoneLeads(was, pending, target, now);
      TickDropsAll(was, pending, target, now, deliver);
    }

    /** Process every target's queue once. */
    method RunTick(now: nat, deliver: Key -> Outcome) returns (ghost tried: set<Key>)
      requires FreshDocs(rows, deliver)
      modifies this
      ensures rows == AfterTick(old(rows), set k | k in old(rows) :: k.target, now, deliver)
      ensures tried == set k | k in old(rows) && Attempted(old(rows), k, now)
    {
      tried := {};
      var targets := set k | k in rows :: k.target;
      var left := targets;
      assert rows == AfterTick(rows, {}, now, deliver);
      while left != {}
        invariant left <= targets
        invariant rows == AfterTick(old(rows), targets - left, now, deliver)
        invariant tried == set k | k in old(rows) && k.target in targets - left && Attempted(old(rows), k, now)
        decreases |left|
      {
        var target :| target in left;
        TickKeepsFresh(old(rows), targets - left, now, deliver, target);
        TriedOfTarget(old(rows), targets - left, now, deliver, target);
        var more := TickTarget(target, now, deliver);
        tried := tried + more;
        TickComposes(old(rows), targets - left, target, now, deliver);
        assert targets - left + {target} == targets - (left - {target});
        left := left - {target};
      }
    }
  }

  predicate Supersedes(k: Key, row: Row, target: string, msgType: string, matches: string -> bool) {
    k.target == target && row.msgType == msgType && matches(row.body)
  }

  predicate Awaits(k: Key, row: Row, signer: string, doc: string) {
    k.target == signer && row.awaitingAck == Some(doc)
  }

  // ---------------------------------------------------------------------
  // The tick, step by step
  // ---------------------------------------------------------------------

  /** The rows without the first `n` of a queue. */
  function Without(rows: Rows, q: seq<Item>, n: nat): Rows
    requires n <= |q|
  {
    rows - (set i | 0 <= i < n :: q[i].key)
  }

  /** A row stands ahead of the queue's `i`-th exactly when it is an earlier one. */
  lemma AheadInQueue(rows: Rows, q: seq<Item>, target: string, i: nat, j: Key)
    requires IsQueue(q, rows, target) && i < |q|
    ensures Ahead(rows, j, q[i].key) <==> exists n :: 0 <= n < i && q[n].key == j
  {
    if Ahead(rows, j, q[i].key) {
      assert Item(j, rows[j]) in q;
      var n :| 0 <= n < |q| && q[n] == Item(j, rows[j]);
      if i < n { BeforeOrder(q[i].key, q[n].key, j); }
      BeforeOrder(j, q[i].key, j);
    }
  }

  lemma DropNext(rows: Rows, q: seq<Item>, target: string, i: nat)
    requires IsQueue(q, rows, target) && i < |q|
    ensures Without(rows, q, i) - {q[i].key} == Without(rows, q, i + 1)
  {
    assert (set n | 0 <= n < i + 1 :: q[n].key) == (set n | 0 <= n < i :: q[n].key) + {q[i].key};
  }

  lemma StillThere(rows: Rows, q: seq<Item>, target: string, i: nat)
    requires IsQueue(q, rows, target) && i < |q|
    ensures q[i].key in Without(rows, q, i)
  {
    forall n | 0 <= n < i ensures q[n].key != q[i].key { BeforeOrder(q[n].key, q[i].key, q[n].key); }
  }

  lemma LeadsAt(rows: Rows, q: seq<Item>, target: string, now: nat, i: nat)
    requires IsQueue(q, rows, target) && i < |q|
    requires !OverBudget(q[i].row, now) && forall j :: 0 <= j < i ==> OverBudget(q[j].row, now)
    ensures Leads(rows, q[i].key, now)
    ensures forall k :: k in rows && k.target == target && Leads(rows, k, now) ==> k == q[i].key
    ensures forall k :: k in rows && k.target == target ==> (Doomed(rows, k, now) <==> k !in Without(rows, q, i))
  {
    forall j | Ahead(rows, j, q[i].key) ensures OverBudget(rows[j], now) {
      AheadInQueue(rows, q, target, i, j);
    }
    forall k | k in rows && k.target == target
      ensures Leads(rows, k, now) ==> k == q[i].key
      ensures Doomed(rows, k, now) <==> k !in Without(rows, q, i)
    {
      assert Item(k, rows[k]) in q;
      var n :| 0 <= n < |q| && q[n] == Item(k, rows[k]);
      AheadInQueue(rows, q, target, n, q[i].key);
      StillThere(rows, q, target, i);
      if n < i {
        forall j | Ahead(rows, j, k) ensures OverBudget(rows[j], now) { AheadInQueue(rows, q, target, n, j); }
      } else {
        forall m | 0 <= m < i ensures q[m].key != k { BeforeOrder(q[m].key, q[n].key, q[m].key); }
      }
    }
  }

  lemma TickWaits(rows: Rows, q: seq<Item>, target: string, now: nat, deliver: Key -> Outcome, i: nat)
    requires IsQueue(q, rows, target) && i < |q|
    requires Leads(rows, q[i].key, now) && q[i].row.nextAttemptAt > now
    requires forall k :: k in rows && k.target == target && Leads(rows, k, now) ==> k == q[i].key
    requires forall k :: k in rows && k.target == target ==> (Doomed(rows, k, now) <==> k !in Without(rows, q, i))
    ensures AfterTick(rows, {target}, now, deliver) == Without(rows, q, i)
  {
    var after := AfterTick(rows, {target}, now, deliver);
    forall k | k in rows ensures k in after <==> k in Without(rows, q, i) {
      if k.target != target { assert forall n :: 0 <= n < i ==> q[n].key.target == target; }
    }
    assert after.Keys == Without(rows, q, i).Keys;
  }

  lemma TickSettles(rows: Rows, q: seq<Item>, target: string, now: nat, deliver: Key -> Outcome, i: nat)
    requires IsQueue(q, rows, target) && i < |q|
    requires Leads(rows, q[i].key, now) && q[i].row.nextAttemptAt <= now
    requires forall k :: k in rows && k.target == target && Leads(rows, k, now) ==> k == q[i].key
    requires forall k :: k in rows && k.target == target ==> (Doomed(rows, k, now) <==> k !in Without(rows, q, i))
    ensures
      var key := q[i].key;
      AfterTick(rows, {target}, now, deliver)
      == if deliver(key).Answered? then Without(rows, q, i) - {key}
          else Without(rows, q, i)[key := Settled(q[i].row, deliver(key))]
  {
    var key := q[i].key;
    var after := AfterTick(rows, {target}, now, deliver);
    StillThere(rows, q, target, i);
    var left := Without(rows, q, i);
    var want := if deliver(key).Answered? then left - {key} else left[key := Settled(q[i].row, deliver(key))];
    forall k | k in rows ensures k in after <==> k in want {
      if k.target != target { assert forall n :: 0 <= n < i ==> q[n].key.target == target; }
    }
    assert after.Keys == want.Keys;
  }

  lemma TickDropsAll(rows: Rows, q: seq<Item>, target: string, now: nat, deliver: Key -> Outcome)
    requires IsQueue(q, rows, target)
    requires forall j :: 0 <= j < |q| ==> OverBudget(q[j].row, now)
    ensures AfterTick(rows, {target}, now, deliver) == Without(rows, q, |q|)
  {
    var after := AfterTick(rows, {target}, now, deliver);
    forall k | k in rows ensures k in after <==> k in Without(rows, q, |q|) {
      if k.target == target {
        assert Item(k, rows[k]) in q;
        forall j | Ahead(rows, j, k) ensures OverBudget(rows[j], now) { assert Item(j, rows[j]) in q; }
        assert Doomed(rows, k, now);
      } else {
        assert forall n :: 0 <= n < |q| ==> q[n].key.target == target;
      }
    }
    assert after.Keys == Without(rows, q, |q|).Keys;
  }

  lemma NoneLeads(rows: Rows, q: seq<Item>, target: string, now: nat)
    requires IsQueue(q, rows, target) && forall j :: 0 <= j < |q| ==> OverBudget(q[j].row, now)
    ensures forall k :: k in rows && k.target == target ==> !Leads(rows, k, now)
  {
    forall k | k in rows && k.target == target ensures !Leads(rows, k, now) { assert Item(k, rows[k]) in q; }
  }

  lemma OnlyOneAwaits(was: Rows, q: seq<Item>, target: string, deliver: Key -> Outcome, i: nat, rows: Rows)
    requires IsQueue(q, was, target) && i < |q| && FreshFor(was, target, deliver) && deliver(q[i].key).Answered?
    requires q[i].key in Without(was, q, i)
    requires rows == Without(was, q, i)[q[i].key := Sent(q[i].row, deliver(q[i].key).doc, deliver(q[i].key).at)]
    ensures forall k :: k in rows ==> (Awaits(k, rows[k], target, deliver(q[i].key).doc) <==> k == q[i].key)
    ensures rows - {q[i].key} == Without(was, q, i) - {q[i].key}
  {
  }

  /** What happens to a key depends on its own target's rows alone. */
  lemma TickIsPerTarget(rows: Rows, done: set<string>, now: nat, deliver: Key -> Outcome, k: Key)
    requires k in rows && k.target !in done
    ensures
      var mid := AfterTick(rows, done, now, deliver);
      && k in mid && mid[k] == rows[k]
      && (Doomed(mid, k, now) <==> Doomed(rows, k, now))
      && (Leads(mid, k, now) <==> Leads(rows, k, now))
  {
    var mid := AfterTick(rows, done, now, deliver);
    forall j ensures Ahead(mid, j, k) <==> Ahead(rows, j, k) {}
    forall j | Ahead(rows, j, k) ensures j in mid && mid[j] == rows[j] {}
    assert forall j :: Ahead(rows, j, k) ==> OverBudget(mid[j], now) == OverBudget(rows[j], now);
  }

  /** What a target's own tick will try is what a whole tick would. */
  lemma TriedOfTarget(rows: Rows, done: set<string>, now: nat, deliver: Key -> Outcome, target: string)
    requires target !in done
    ensures
      var mid := AfterTick(rows, done, now, deliver);
      forall k :: k in rows && k.target == target ==>
        k in mid && mid[k] == rows[k] && (Attempted(mid, k, now) <==> Attempted(rows, k, now))
  {
    forall k | k in rows && k.target == target { TickIsPerTarget(rows, done, now, deliver, k); }
  }

  lemma TickComposes(rows: Rows, done: set<string>, target: string, now: nat, deliver: Key -> Outcome)
    requires target !in done
    ensures AfterTick(AfterTick(rows, done, now, deliver), {target}, now, deliver)
         == AfterTick(rows, done + {target}, now, deliver)
  {
    var mid := AfterTick(rows, done, now, deliver);
    var after := AfterTick(mid, {target}, now, deliver);
    var want := AfterTick(rows, done + {target}, now, deliver);
    forall k | k in rows ensures (k in after <==> k in want) && (k in after ==> after[k] == want[k]) {
      if k.target == target {
        TickIsPerTarget(rows, done, now, deliver, k);
      }
    }
    assert after.Keys == want.Keys;
  }

  lemma TickKeepsFresh(rows: Rows, done: set<string>, now: nat, deliver: Key -> Outcome, target: string)
    requires FreshDocs(rows, deliver) && target !in done
    ensures FreshFor(AfterTick(rows, done, now, deliver), target, deliver)
  {
  }
}
