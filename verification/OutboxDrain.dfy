/** A queue that nobody adds to empties within a bounded number of due ticks
    (did-hosting-control/src/outbox.rs:472-594). */
module OutboxDrain {
  import opened Common
  import opened OutboxKey
  import opened OutboxQueue

  /** What a row can still cost: its remaining attempts, and the tick that drops it. */
  function Cost(row: Row): nat {
    SatSub(MAX_ATTEMPTS + 1, row.attempts)
  }

  ghost function TotalCost(rows: Rows, keys: set<Key>): nat
    requires keys <= rows.Keys
  {
    if keys == {} then 0
    else var k :| k in keys; Cost(rows[k]) + TotalCost(rows, keys - {k})
  }

  lemma {:induction false} TakeOut(rows: Rows, keys: set<Key>, k: Key)
    requires keys <= rows.Keys && k in keys
    ensures TotalCost(rows, keys) == Cost(rows[k]) + TotalCost(rows, keys - {k})
  {
    var x :| x in keys && TotalCost(rows, keys) == Cost(rows[x]) + TotalCost(rows, keys - {x});
    if x != k {
      TakeOut(rows, keys - {x}, k);
      TakeOut(rows, keys - {k}, x);
      assert keys - {x} - {k} == keys - {k} - {x};
    }
  }

  /** Fewer rows, none of them dearer, cost no more. */
  lemma {:induction false} CostsNoMore(rows: Rows, keys: set<Key>, later: Rows, left: set<Key>)
    requires keys <= rows.Keys && left <= later.Keys && left <= keys
    requires forall k :: k in left ==> Cost(later[k]) <= Cost(rows[k])
    ensures TotalCost(later, left) <= TotalCost(rows, keys)
  {
    if keys != {} {
      var k :| k in keys;
      TakeOut(rows, keys, k);
      if k in left {
        TakeOut(later, left, k);
      } else {
        assert left - {k} == left;
      }
      CostsNoMore(rows, keys - {k}, later, left - {k});
    }
  }

  lemma {:induction false} CostAtMost(rows: Rows, keys: set<Key>)
    requires keys <= rows.Keys
    ensures TotalCost(rows, keys) <= (MAX_ATTEMPTS + 1) * |keys|
  {
    if keys != {} {
      var k :| k in keys;
      TakeOut(rows, keys, k);
      CostAtMost(rows, keys - {k});
    }
  }

  ghost function QueueCost(rows: Rows, target: string): nat {
    TotalCost(rows, KeysFor(rows, target))
  }

  /** Rows within the count of attempts that the worker ever writes. */
  predicate Bounded(rows: Rows) {
    forall k :: k in rows ==> rows[k].attempts <= MAX_ATTEMPTS
  }

  /** No wait is running in front of the queue. */
  ghost predicate Due(rows: Rows, target: string, now: nat) {
    forall k :: Leads(rows, k, now) && k.target == target ==> rows[k].nextAttemptAt <= now
  }

  lemma KeyAfterTick(rows: Rows, target: string, now: nat, deliver: Key -> Outcome, k: Key)
    requires Bounded(rows) && k in AfterTick(rows, {target}, now, deliver)
    ensures
      var after := AfterTick(rows, {target}, now, deliver);
      && k in rows && after[k].attempts <= MAX_ATTEMPTS && Cost(after[k]) <= Cost(rows[k])
      && (k.target == target && Attempted(rows, k, now) ==> Cost(after[k]) < Cost(rows[k]))
  {
    if k.target == target {
      TickProgress(rows, {target}, now, deliver, k);
    }
  }

  /** A due tick over a nonempty queue brings its cost down. */
  lemma DueTickSpends(rows: Rows, target: string, now: nat, deliver: Key -> Outcome)
    requires Bounded(rows) && KeysFor(rows, target) != {} && Due(rows, target, now)
    ensures Bounded(AfterTick(rows, {target}, now, deliver))
    ensures QueueCost(AfterTick(rows, {target}, now, deliver), target) < QueueCost(rows, target)
  {
    var after := AfterTick(rows, {target}, now, deliver);
    var keys, left := KeysFor(rows, target), KeysFor(after, target);
    forall k | k in after ensures k in rows && after[k].attempts <= MAX_ATTEMPTS && Cost(after[k]) <= Cost(rows[k]) {
      KeyAfterTick(rows, target, now, deliver, k);
    }
    HeadIsDoomedOrLeads(rows, target, now);
    var head :| IsFirst(head, keys) && (Doomed(rows, head, now) || Leads(rows, head, now));
    TakeOut(rows, keys, head);
    CostsNoMore(rows, keys - {head}, after, left - {head});
    if head in left {
      KeyAfterTick(rows, target, now, deliver, head);
      TakeOut(after, left, head);
    } else {
      assert left - {head} == left;
      assert Cost(rows[head]) > 0;
    }
  }

  /** One tick after another, each at its time and with its deliveries. */
  datatype Tick = Tick(now: nat, deliver: Key -> Outcome)

  ghost function AfterTicks(rows: Rows, target: string, ticks: seq<Tick>): Rows
    decreases ticks
  {
    if ticks == [] then rows
    else AfterTicks(AfterTick(rows, {target}, ticks[0].now, ticks[0].deliver), target, ticks[1..])
  }

  ghost predicate AllDue(rows: Rows, target: string, ticks: seq<Tick>)
    decreases ticks
  {
    ticks != [] ==>
      && Due(rows, target, ticks[0].now)
      && AllDue(AfterTick(rows, {target}, ticks[0].now, ticks[0].deliver), target, ticks[1..])
  }

  lemma {:induction false} SpentQueueIsEmpty(rows: Rows, target: string, ticks: seq<Tick>)
    requires Bounded(rows) && AllDue(rows, target, ticks)
    requires |ticks| >= QueueCost(rows, target)
    ensures KeysFor(AfterTicks(rows, target, ticks), target) == {}
    decreases ticks
  {
    if KeysFor(rows, target) == {} {
      EmptyStaysEmpty(rows, target, ticks);
    } else {
      if ticks == [] {
        HasCost(rows, target);
      } else {
        DueTickSpends(rows, target, ticks[0].now, ticks[0].deliver);
        SpentQueueIsEmpty(AfterTick(rows, {target}, ticks[0].now, ticks[0].deliver), target, ticks[1..]);
      }
    }
  }

  lemma HasCost(rows: Rows, target: string)
    requires Bounded(rows) && KeysFor(rows, target) != {}
    ensures QueueCost(rows, target) > 0
  {
    var k :| k in KeysFor(rows, target);
    TakeOut(rows, KeysFor(rows, target), k);
  }

  lemma {:induction false} EmptyStaysEmpty(rows: Rows, target: string, ticks: seq<Tick>)
    requires KeysFor(rows, target) == {}
    ensures KeysFor(AfterTicks(rows, target, ticks), target) == {}
    decreases ticks
  {
    if ticks != [] {
      var after := AfterTick(rows, {target}, ticks[0].now, ticks[0].deliver);
      assert KeysFor(after, target) <= KeysFor(rows, target);
      EmptyStaysEmpty(after, target, ticks[1..]);
    }
  }

  /** However deliveries go, a queue of `n` rows to which none is added is empty after at most
      fifty-one due ticks a row. */
  lemma QueueDrains(rows: Rows, target: string, ticks: seq<Tick>)
    requires Bounded(rows) && AllDue(rows, target, ticks)
    requires |ticks| >= (MAX_ATTEMPTS + 1) * |KeysFor(rows, target)|
    ensures KeysFor(AfterTicks(rows, target, ticks), target) == {}
  {
    CostAtMost(rows, KeysFor(rows, target));
    SpentQueueIsEmpty(rows, target, ticks);
  }
}
