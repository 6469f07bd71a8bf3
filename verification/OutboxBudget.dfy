/** The budgets and waits of the outbox in numbers, for a tick that nothing disturbs and over every
    run of the protocol (did-hosting-control/src/outbox.rs:73-98, 160-172, 297-337, 472-594). */
module OutboxBudget {
  import opened Common
  import opened OutboxKey
  import opened OutboxQueue
  import opened OutboxProtocol

  // ---------------------------------------------------------------------
  // In numbers
  // ---------------------------------------------------------------------

  /** Fifty attempts made, or seven days in the queue. */
  predicate Spent(row: Row, now: nat) {
    row.attempts >= 50 || now >= row.enqueuedAt + 604_800
  }

  lemma BudgetMeans(row: Row, now: nat)
    ensures OverBudget(row, now) <==> Spent(row, now)
  {
  }

  /** The wait after the n-th attempt, if it fails: it doubles, up to five minutes. */
  function WaitAfter(n: nat): nat {
    if n == 1 then 2 else if n == 2 then 4 else if n == 3 then 8 else if n == 4 then 16 else if n == 5 then 32
    else if n == 6 then 64 else if n == 7 then 128 else if n == 8 then 256 else 300
  }

  lemma BackoffMeans(n: nat)
    requires n > 0
    ensures Backoff(n) == WaitAfter(n)
  {
    assert Pow2(4) == 16 && Pow2(8) == 256;
    if n >= 9 { LateBackoff(n); }
  }

  // ---------------------------------------------------------------------
  // One tick
  // ---------------------------------------------------------------------

  /** Every row of the target ahead of this one is spent. */
  ghost predicate NoneLeftAhead(rows: Rows, k: Key, now: nat) {
    forall j :: j in rows && j.target == k.target && Before(j, k) ==> Spent(rows[j], now)
  }

  /** What an attempt leaves of a row. */
  predicate LeftBy(o: Outcome, was: Row, row: Row) {
    && row.msgType == was.msgType && row.body == was.body && row.enqueuedAt == was.enqueuedAt
    && row.attempts == was.attempts + 1
    && match o
       case NotDelivered(err, at) =>
         && row.nextAttemptAt == at + WaitAfter(was.attempts + 1) && row.awaitingAck == None
         && row.lastError.Some? && (|err| <= 200 ==> row.lastError.value == err)
         && (|err| > 200 ==> |row.lastError.value| == 201 && row.lastError.value[..200] == err[..200])
       case Handed(doc, at) =>
         row.nextAttemptAt == at + 60 && row.awaitingAck == Some(doc) && row.lastError == was.lastError
       case Answered(_, _) => false
  }

  /** An undisturbed tick. Of a target's rows, those in front that are spent leave without being
      handed over, and no other row leaves unanswered; the first that is left is handed over, if
      due; if that is answered it leaves, if not it is put off; and nothing else changes. */
  lemma TickMeans(rows: Rows, targets: set<string>, now: nat, deliver: Key -> Outcome, k: Key)
    requires k in rows && k.target in targets
    ensures
      var after, row := AfterTick(rows, targets, now, deliver), rows[k];
      var dropped := NoneLeftAhead(rows, k, now) && Spent(row, now);
      var tried := NoneLeftAhead(rows, k, now) && !Spent(row, now) && now >= row.nextAttemptAt;
      && (Attempted(rows, k, now) <==> tried)
      && (k !in after <==> dropped || (tried && deliver(k).Answered?))
      && (k in after && tried ==> LeftBy(deliver(k), row, after[k]))
      && (k in after && !tried ==> after[k] == row)
  {
    forall j | j in rows ensures OverBudget(rows[j], now) <==> Spent(rows[j], now) { BudgetMeans(rows[j], now); }
    assert NoneLeftAhead(rows, k, now) <==> forall j :: Ahead(rows, j, k) ==> OverBudget(rows[j], now);
    BackoffMeans(rows[k].attempts + 1);
  }

  /** A row put in an empty queue is due at once: every undisturbed tick within its seven days hands
      it over. */
  lemma FreshRowGoesOut(rows: Rows, k: Key, msgType: string, body: string, at: nat, now: nat)
    requires at <= now < at + 604_800 && KeysFor(rows, k.target) == {}
    ensures Attempted(rows[k := Queued(msgType, body, at)], k, now)
    ensures Queued(msgType, body, at).msgType == msgType && Queued(msgType, body, at).body == body
  {
    var queued := rows[k := Queued(msgType, body, at)];
    BeforeOrder(k, k, k);
    forall j ensures !(j in queued && j.target == k.target && Before(j, k)) {
      assert j in rows && j.target == k.target ==> j in KeysFor(rows, k.target);
    }
    TickMeans(queued, {k.target}, now, _ => NotDelivered("", 0), k);
  }

  // ---------------------------------------------------------------------
  // Every run: attempts and age
  // ---------------------------------------------------------------------

  /** Every copy of the row bears this enqueue time. */
  ghost predicate Dated(s: State, k: Key, at: nat) {
    && (k in s.rows ==> s.rows[k].enqueuedAt == at)
    && (k in s.pending ==> s.pending[k].enqueuedAt == at)
    && match s.worker
       case Idle => true
       case Scanning(_, _, todo) => forall i :: 0 <= i < |todo| && todo[i].key == k ==> todo[i].row.enqueuedAt == at
       case Delivering(key, row) => key == k ==> row.enqueuedAt == at
       case Settling(key, _, next) => key == k ==> next.enqueuedAt == at
       case Rewriting(key, _, next) => key == k ==> next.enqueuedAt == at
  }

  predicate Makes(e: Event, k: Key) {
    e.MakeKey? && e.key == k
  }

  lemma StepStaysDated(s: State, e: Event, k: Key, at: nat)
    requires Enabled(s, e) && Dated(s, k, at) && !Makes(e, k)
    ensures Dated(Next(s, e), k, at)
  {
  }

  lemma {:induction false} StaysDated(s: State, run: seq<Event>, k: Key, at: nat)
    requires Legal(s, run) && Dated(s, k, at) && forall i :: 0 <= i < |run| ==> !Makes(run[i], k)
    ensures Dated(Exec(s, run), k, at)
    decreases run
  {
    if run != [] {
      StepStaysDated(s, run[0], k, at);
      StaysDated(Next(s, run[0]), run[1..], k, at);
    }
  }

  lemma MadeIsDated(s: State, e: Event)
    requires Inv(s) && Enabled(s, e) && e.MakeKey?
    ensures Dated(Next(s, e), e.key, s.clock)
  {
    assert RowOk(s, e.key);
  }

  /** The worker stands before the row in its snapshot of the queue. */
  predicate AtHead(s: State, k: Key) {
    s.worker.Scanning? && s.worker.todo != [] && s.worker.todo[0].key == k
  }

  /** In every reachable state: once a row has been enqueued at a time, the worker hands it over only
      in a tick that began less than seven days later, and with fewer than fifty attempts made; it
      drops it only in one that began seven days later or more, or with fifty made. */
  lemma BudgetsOverRuns(before: seq<Event>, e: Event, run: seq<Event>)
    requires Legal(START, before) && e.MakeKey? && Enabled(Exec(START, before), e)
    requires Legal(Next(Exec(START, before), e), run) && forall i :: 0 <= i < |run| ==> !Makes(run[i], e.key)
    ensures
      var at := Exec(START, before).clock;
      var t := Exec(Next(Exec(START, before), e), run);
      AtHead(t, e.key) ==>
        && (Enabled(t, SendHead) ==> t.worker.now < at + 604_800 && t.worker.todo[0].row.attempts < 50)
        && (Enabled(t, DropHead) ==> t.worker.now >= at + 604_800 || t.worker.todo[0].row.attempts >= 50)
  {
    StartsGood();
    RunKeepsInv(START, before);
    MadeIsDated(Exec(START, before), e);
    StaysDated(Next(Exec(START, before), e), run, e.key, Exec(START, before).clock);
  }

  /** A tick that begins when the row is new and takes seven days to come to it. */
  function SlowTick(k: Key): seq<Event> {
    var row := Queued("m", "b", 0);
    [MakeKey(k, "m", "b")] + ([InsertRow(k)] + ([BeginTarget(k.target, 0, [Item(k, row)])]
      + ([Advance(604_800)] + ([SendHead] + []))))
  }

  /** A tick reads the clock once, and the age of a row is taken by that reading: by the clock
      itself a row may be handed over when it is seven days old. */
  lemma SlowTickSendsLate(target: string)
    ensures
      var k := Key(target, 0, "a");
      && Legal(START, SlowTick(k))
      && Exec(START, SlowTick(k)).sends == [k] && Exec(START, SlowTick(k)).clock == 604_800
      && Exec(START, SlowTick(k)).rows == map[k := Queued("m", "b", 0)]
  {
    var k, row := Key(target, 0, "a"), Queued("m", "b", 0);
    var todo := [Item(k, row)];
    var s1 := START.(pending := map[k := row]);
    var s2 := START.(rows := map[k := row], ever := {k});
    var s3 := s2.(worker := Scanning(target, 0, todo));
    var s4 := s3.(clock := 604_800);
    OneStep(s4, SendHead, []);
    OneStep(s3, Advance(604_800), [SendHead] + []);
    assert IsQueue(todo, s2.rows, target);
    OneStep(s2, BeginTarget(target, 0, todo), [Advance(604_800)] + ([SendHead] + []));
    var late := [BeginTarget(target, 0, todo)] + ([Advance(604_800)] + ([SendHead] + []));
    assert Next(s1, InsertRow(k)) == s2 && Next(START, MakeKey(k, "m", "b")) == s1;
    OneStep(s1, InsertRow(k), late);
    OneStep(START, MakeKey(k, "m", "b"), [InsertRow(k)] + late);
  }

  // ---------------------------------------------------------------------
  // Every run: waits
  // ---------------------------------------------------------------------

  /** No copy of the row is due before this time, unless it is past. */
  ghost predicate PutOff(s: State, k: Key, at: nat) {
    && (k in s.rows ==> s.rows[k].nextAttemptAt >= at)
    && (k in s.pending ==> false)
    && k in s.ever
    && match s.worker
       case Idle => true
       case Scanning(_, now, todo) =>
         now <= s.clock && forall i :: 0 <= i < |todo| && todo[i].key == k ==> todo[i].row.nextAttemptAt >= at
       case Delivering(key, row) => key == k ==> s.clock >= at
       case Settling(key, _, next) => key == k ==> next.nextAttemptAt >= at
       case Rewriting(key, _, next) => key == k ==> next.nextAttemptAt >= at
  }

  lemma StepStaysPutOff(s: State, e: Event, k: Key, at: nat)
    requires Enabled(s, e) && PutOff(s, k, at)
    ensures PutOff(Next(s, e), k, at)
  {
  }

  lemma {:induction false} StaysPutOff(s: State, run: seq<Event>, k: Key, at: nat)
    requires Legal(s, run) && PutOff(s, k, at)
    ensures PutOff(Exec(s, run), k, at)
    decreases run
  {
    if run != [] {
      StepStaysPutOff(s, run[0], k, at);
      StaysPutOff(Next(s, run[0]), run[1..], k, at);
    }
  }

  /** What is about to be written of an attempt: due again a minute after a hand-over, and after a
      failure when its wait is over. */
  lemma AttemptPutsOff(s: State, doc: string, err: string)
    requires s.worker.Delivering? && doc !in s.minted
    ensures
      var row := s.worker.row;
      && Next(s, HandedOver(doc)).worker == Settling(s.worker.key, row, Next(s, HandedOver(doc)).worker.next)
      && LeftBy(Handed(doc, s.clock), row, Next(s, HandedOver(doc)).worker.next)
      && Next(s, SendFailed(err)).worker == Settling(s.worker.key, row, Next(s, SendFailed(err)).worker.next)
      && LeftBy(NotDelivered(err, s.clock), row, Next(s, SendFailed(err)).worker.next)
  {
    BackoffMeans(s.worker.row.attempts + 1);
  }

  /** Over any run, restarts included: once that has been written, the row is not handed over again
      before it is due. */
  lemma WaitsOverRuns(s: State, run: seq<Event>)
    requires Inv(s) && Enabled(s, WriteRow) && Legal(Next(s, WriteRow), run)
    ensures
      var k, due := s.worker.key, s.worker.next.nextAttemptAt;
      var t := Exec(Next(s, WriteRow), run);
      AtHead(t, k) && Enabled(t, SendHead) ==> t.clock >= t.worker.now >= due
  {
    var k := s.worker.key;
    assert PendingOk(s, k);
    StaysPutOff(Next(s, WriteRow), run, k, s.worker.next.nextAttemptAt);
  }
}
