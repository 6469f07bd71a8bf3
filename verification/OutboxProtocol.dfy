/** The outbox under concurrency: one worker, any number of acknowledgements and
    supersessions, every await a place where the others may run
    (did-hosting-control/src/outbox.rs:178-199, 271-373, 432-594).

    An enqueue makes its key first and inserts the row later, so rows may land in any
    order. The worker takes a snapshot of one target's queue, walks it, sends, and rewrites the
    row: presence check and write are two steps under `ROW_LOCK`. An acknowledger or a
    superseder reads first and retires later, under the same lock. The worker's own
    budget drop takes no lock. The process may stop at any point and start again: the rows are
    what is left. */
module OutboxProtocol {
  import opened Common
  import opened OutboxKey
  import opened OutboxQueue

  datatype Worker =
    | Idle
    | Scanning(target: string, now: nat, todo: seq<Item>)
    | Delivering(key: Key, row: Row)
    | Settling(key: Key, row: Row, next: Row)
    | Rewriting(key: Key, row: Row, next: Row)

  /** A removal somebody has decided on and not yet carried out. */
  datatype Intent =
    | AckOf(key: Key, signer: string, doc: string, seen: Row)
    | Superseded(key: Key, target: string, msgType: string, bodies: set<string>)

  datatype State = State(
    rows: Rows,
    pending: Rows,           // keys made, rows not yet inserted
    worker: Worker,
    intents: set<Intent>,
    clock: nat,
    // history
    ever: set<Key>,          // every key inserted so far
    minted: set<string>,     // every document id sent so far
    sends: seq<Key>,         // every attempt, in order
    handed: seq<(Key, string)>,    // every document handed over, in order
    lost: multiset<Key>,     // attempts a restart cut short
    recorded: set<(Key, string)>)  // documents recorded as awaited

  datatype Event =
    | Advance(secs: nat)
    | MakeKey(key: Key, msgType: string, body: string)
    | InsertRow(key: Key)
    | BeginTarget(target: string, now: nat, todo: seq<Item>)
    | DropHead
    | WaitHead
    | EndTarget
    | SendHead
    | HandedOver(doc: string)
    | SendFailed(err: string)
    | TakeLock
    | WriteRow
    | ReadAck(key: Key, signer: string, doc: string)
    | ReadSuperseded(key: Key, target: string, msgType: string, bodies: set<string>)
    | Retire(intent: Intent)
    | Restart

  const START := State(map[], map[], Idle, {}, 0, {}, {}, [], [], multiset{}, {})

  /** Only a rewrite spans steps while holding the lock. */
  predicate Locked(s: State) {
    s.worker.Rewriting?
  }

  /** What a superseder drops: rows of one target and type whose body it matches. */
  predicate Covers(k: Key, row: Row, target: string, msgType: string, bodies: set<string>) {
    k.target == target && row.msgType == msgType && row.body in bodies
  }

  ghost predicate Enabled(s: State, e: Event) {
    match e
    case Advance(_) => true
    // The uuid is fresh; nothing is said of the time.
    case MakeKey(key, _, _) => key !in s.ever && key !in s.pending
    case InsertRow(key) => key in s.pending
    case BeginTarget(target, now, todo) => s.worker.Idle? && now <= s.clock && IsQueue(todo, s.rows, target)
    case DropHead => s.worker.Scanning? && s.worker.todo != [] && OverBudget(s.worker.todo[0].row, s.worker.now)
    case WaitHead =>
      && s.worker.Scanning? && s.worker.todo != [] && !OverBudget(s.worker.todo[0].row, s.worker.now)
      && ActionFor(s.worker.todo[0].row, s.worker.now) == Wait
    case EndTarget => s.worker.Scanning? && s.worker.todo == []
    case SendHead =>
      && s.worker.Scanning? && s.worker.todo != [] && !OverBudget(s.worker.todo[0].row, s.worker.now)
      && ActionFor(s.worker.todo[0].row, s.worker.now) == Send
    case HandedOver(doc) => s.worker.Delivering? && doc !in s.minted
    case SendFailed(_) => s.worker.Delivering?
    case TakeLock => s.worker.Settling?
    case WriteRow => s.worker.Rewriting?
    case ReadAck(key, signer, doc) => key in s.rows && Awaits(key, s.rows[key], signer, doc)
    case ReadSuperseded(key, target, msgType, bodies) => key in s.rows
        && Covers(key, s.rows[key], target, msgType, bodies)
    case Retire(intent) => intent in s.intents && !Locked(s)
    case Restart => true
  }

  /** The attempt in flight, if there is one. */
  function OnTheWay(w: Worker): multiset<Key> {
    if w.Delivering? || w.Settling? || w.Rewriting? then multiset{w.key} else multiset{}
  }

  function Next(s: State, e: Event): State
    requires Enabled(s, e)
  {
    match e
    case Advance(secs) => s.(clock := s.clock + secs)
    case MakeKey(key, msgType, body) => s.(pending := s.pending[key := Queued(msgType, body, s.clock)])
    case InsertRow(key) =>
      s.(rows := s.rows[key := s.pending[key]], pending := s.pending - {key}, ever := s.ever + {key})
    case BeginTarget(target, now, todo) => s.(worker := Scanning(target, now, todo))
    case DropHead =>
      s.(rows := s.rows - {s.worker.todo[0].key}, worker := s.worker.(todo := s.worker.todo[1..]))
    case WaitHead => s.(worker := Idle)
    case EndTarget => s.(worker := Idle)
    case SendHead =>
      s.(worker := Delivering(s.worker.todo[0].key, s.worker.todo[0].row), sends := s.sends + [s.worker.todo[0].key])
    case HandedOver(doc) =>
      s.(worker := Settling(s.worker.key, s.worker.row, Sent(s.worker.row, doc, s.clock)), minted := s.minted + {doc},
         handed := s.handed + [(s.worker.key, doc)])
    case SendFailed(err) =>
      s.(worker := Settling(s.worker.key, s.worker.row, Failed(s.worker.row, err, s.clock)))
    case TakeLock =>
      if s.worker.key in s.rows then s.(worker := Rewriting(s.worker.key, s.worker.row, s.worker.next))
      else s.(worker := Idle)
    case WriteRow =>
      s.(rows := s.rows[s.worker.key := s.worker.next], worker := Idle,
         recorded := s.recorded +
           if s.worker.next.awaitingAck.Some? then {(s.worker.key, s.worker.next.awaitingAck.value)} else {})
    case ReadAck(key, signer, doc) => s.(intents := s.intents + {AckOf(key, signer, doc, s.rows[key])})
    case ReadSuperseded(key, target, msgType, bodies) =>
      s.(intents := s.intents + {Superseded(key, target, msgType, bodies)})
    case Retire(intent) => s.(rows := s.rows - {intent.key}, intents := s.intents - {intent})
    case Restart => s.(pending := map[], worker := Idle, intents := {}, lost := s.lost + OnTheWay(s.worker))
  }

  // ---------------------------------------------------------------------
  // The invariant, one key (or pair of keys) at a time
  // ---------------------------------------------------------------------

  ghost predicate RowOk(s: State, k: Key) {
    k in s.rows ==>
      && k in s.ever && s.rows[k].attempts <= MAX_ATTEMPTS
      && (s.rows[k].awaitingAck.Some? ==> s.rows[k].attempts > 0)
      && (s.rows[k].awaitingAck.Some? ==>
            (k, s.rows[k].awaitingAck.value) in s.recorded && s.rows[k].awaitingAck.value in s.minted)
  }

  /** A row not yet inserted is new. */
  ghost predicate PendingOk(s: State, k: Key) {
    k in s.pending ==> k !in s.ever && s.pending[k].attempts == 0 && s.pending[k].awaitingAck == None
  }

  function Count(sends: seq<Key>, k: Key): nat {
    multiset(sends)[k]
  }

  /** Every attempt is on the row's books, but for the one in flight and those that restarts
      cut short. */
  ghost predicate Tally(s: State, k: Key) {
    && (k !in s.ever ==> Count(s.sends, k) == 0 && s.lost[k] == 0)
    && Count(s.sends, k) <= MAX_ATTEMPTS + s.lost[k]
    && (k in s.rows ==> Count(s.sends, k) == s.rows[k].attempts + s.lost[k] + OnTheWay(s.worker)[k])
  }

  /** What an acknowledger saw, and how the row can have moved on since. */
  ghost predicate IntentOk(s: State, i: Intent) {
    && i.key in s.ever
    && (i.Superseded? ==>
          i.key in s.rows ==> Covers(i.key, s.rows[i.key], i.target, i.msgType, i.bodies))
    && (i.AckOf? ==>
          && i.signer == i.key.target && i.seen.awaitingAck == Some(i.doc)
          && (i.key, i.doc) in s.recorded && i.doc in s.minted
          && (i.key in s.rows ==>
                && s.rows[i.key].attempts >= i.seen.attempts
                && (s.rows[i.key].attempts == i.seen.attempts ==> s.rows[i.key] == i.seen)
                && (s.rows[i.key].attempts > i.seen.attempts ==> s.rows[i.key].awaitingAck != Some(i.doc))))
  }

  /** An item of the worker's snapshot still describes the row, if the row is there. */
  ghost predicate ItemOk(s: State, target: string, item: Item) {
    && item.key in s.ever && item.key.target == target
    && (item.key in s.rows ==> s.rows[item.key] == item.row)
    && item.row.attempts + s.lost[item.key] == Count(s.sends, item.key)
  }

  ghost predicate ScanOk(s: State, target: string, todo: seq<Item>) {
    && Ordered(todo)
    && (forall i :: 0 <= i < |todo| ==> ItemOk(s, target, todo[i]))
  }

  /** The row the worker is sending is unchanged while present. */
  ghost predicate FlightOk(s: State, key: Key, row: Row) {
    && key in s.ever && row.attempts < MAX_ATTEMPTS
    && row.attempts + s.lost[key] + 1 == Count(s.sends, key)
    && (key in s.rows ==> s.rows[key] == row)
  }

  /** What the worker is about to write: one attempt more, and a document id that no
      row and no acknowledger has seen yet. */
  ghost predicate NextOk(s: State, row: Row, next: Row) {
    && SamePayload(row, next) && next.attempts == row.attempts + 1
    && (next.awaitingAck.Some? ==>
          && next.awaitingAck.value in s.minted
          && (forall k :: k in s.rows ==> s.rows[k].awaitingAck != next.awaitingAck)
          && (forall i :: i in s.intents && i.AckOf? ==> Some(i.doc) != next.awaitingAck))
  }

  ghost predicate WorkerOk(s: State) {
    match s.worker
    case Idle => true
    case Scanning(target, now, todo) => ScanOk(s, target, todo)
    case Delivering(key, row) => FlightOk(s, key, row)
    case Settling(key, row, next) => FlightOk(s, key, row) && NextOk(s, row, next)
    case Rewriting(key, row, next) => FlightOk(s, key, row) && NextOk(s, row, next) && key in s.rows
  }

  ghost predicate Inv(s: State) {
    && (forall k :: RowOk(s, k))
    && (forall k :: PendingOk(s, k))
    && (forall k :: Tally(s, k))
    && (forall k :: k in s.sends ==> k in s.ever)
    && (forall i :: i in s.intents ==> IntentOk(s, i))
    && WorkerOk(s)
  }

  // ---------------------------------------------------------------------
  // Every step keeps it
  // ---------------------------------------------------------------------

  /** Steps that touch neither the rows nor the attempts, in this life of the process. */
  predicate Quiet(e: Event) {
    !e.InsertRow? && !e.DropHead? && !e.SendHead? && !e.WriteRow? && !e.Retire? && !e.Restart?
  }

  lemma QuietKeepsFlight(s: State, e: Event, k: Key)
    requires Enabled(s, e) && Quiet(e)
    ensures k in s.rows ==> OnTheWay(Next(s, e).worker)[k] == OnTheWay(s.worker)[k]
  {
  }

  lemma QuietKeepsHistory(s: State, e: Event)
    requires Enabled(s, e) && Quiet(e)
    ensures
      var t := Next(s, e);
      && t.rows == s.rows && t.sends == s.sends && t.ever == s.ever && t.lost == s.lost && t.recorded == s.recorded
      && s.minted <= t.minted
  {
  }

  lemma QuietKeepsRows(s: State, e: Event)
    requires Inv(s) && Enabled(s, e) && Quiet(e)
    ensures
      var t := Next(s, e);
      && (forall k :: RowOk(t, k)) && (forall k :: PendingOk(t, k)) && (forall k :: Tally(t, k))
      && (forall k :: k in t.sends ==> k in t.ever)
  {
    var t := Next(s, e);
    QuietKeepsHistory(s, e);
    forall k ensures RowOk(t, k) { assert RowOk(s, k); }
    forall k ensures PendingOk(t, k) { assert PendingOk(s, k); }
    forall k ensures Tally(t, k) {
      assert Tally(s, k);
      QuietKeepsFlight(s, e, k);
    }
  }

  lemma QuietKeepsIntents(s: State, e: Event)
    requires Inv(s) && Enabled(s, e) && Quiet(e)
    ensures forall i :: i in Next(s, e).intents ==> IntentOk(Next(s, e), i)
  {
    var t := Next(s, e);
    forall i | i in t.intents ensures IntentOk(t, i) {
      if i in s.intents { assert IntentOk(s, i); } else { assert RowOk(s, i.key); }
    }
  }

  lemma QuietKeepsWorker(s: State, e: Event)
    requires Inv(s) && Enabled(s, e) && Quiet(e)
    ensures WorkerOk(Next(s, e))
  {
    match e {
      case BeginTarget(_, _, todo) =>
        forall i | 0 <= i < |todo| ensures ItemOk(Next(s, e), e.target, todo[i]) {
          assert RowOk(s, todo[i].key) && Tally(s, todo[i].key);
        }
      case HandedOver(doc) =>
        assert forall k :: k in s.rows ==> RowOk(s, k);
        assert forall i :: i in s.intents ==> IntentOk(s, i);
      case ReadAck(key, signer, doc) => assert RowOk(s, key);
      case _ =>
    }
  }

  lemma QuietKeepsInv(s: State, e: Event)
    requires Inv(s) && Enabled(s, e) && Quiet(e)
    ensures Inv(Next(s, e))
  {
    QuietKeepsRows(s, e);
    QuietKeepsIntents(s, e);
    QuietKeepsWorker(s, e);
  }

  // --- removals ---------------------------------------------------------

  lemma RemovalKeepsRows(s: State, t: State, gone: Key)
    requires Inv(s) && t.rows == s.rows - {gone} && t.pending == s.pending
    requires t.ever == s.ever && t.sends == s.sends && t.minted == s.minted && t.recorded == s.recorded
    requires t.intents <= s.intents && t.lost == s.lost && OnTheWay(t.worker) == OnTheWay(s.worker)
    ensures (forall k :: RowOk(t, k)) && (forall k :: PendingOk(t, k))
    ensures (forall k :: Tally(t, k)) && (forall i :: i in t.intents ==> IntentOk(t, i))
  {
    forall k ensures RowOk(t, k) { assert RowOk(s, k); }
    forall k ensures PendingOk(t, k) { assert PendingOk(s, k); }
    forall k ensures Tally(t, k) { assert Tally(s, k); }
    forall i | i in t.intents ensures IntentOk(t, i) { assert IntentOk(s, i); }
  }

  lemma DropHeadKeepsInv(s: State)
    requires Inv(s) && Enabled(s, DropHead)
    ensures Inv(Next(s, DropHead))
  {
    RemovalKeepsRows(s, Next(s, DropHead), s.worker.todo[0].key);
  }

  lemma RetireKeepsInv(s: State, intent: Intent)
    requires Inv(s) && Enabled(s, Retire(intent))
    ensures Inv(Next(s, Retire(intent)))
  {
    RemovalKeepsRows(s, Next(s, Retire(intent)), intent.key);
  }

  // --- inserting --------------------------------------------------------

  lemma InsertKeepsInv(s: State, key: Key)
    requires Inv(s) && Enabled(s, InsertRow(key))
    ensures Inv(Next(s, InsertRow(key)))
  {
    var t := Next(s, InsertRow(key));
    assert Tally(s, key) && PendingOk(s, key);
    assert OnTheWay(s.worker)[key] == 0;
    forall k ensures RowOk(t, k) { assert RowOk(s, k); }
    forall k ensures PendingOk(t, k) { assert PendingOk(s, k); }
    forall k ensures Tally(t, k) { assert Tally(s, k); }
    forall i | i in t.intents ensures IntentOk(t, i) { assert IntentOk(s, i); }
  }

  // --- sending ----------------------------------------------------------

  lemma SendKeepsInv(s: State)
    requires Inv(s) && Enabled(s, SendHead)
    ensures Inv(Next(s, SendHead))
  {
    var t := Next(s, SendHead);
    var head := s.worker.todo[0];
    assert ItemOk(s, s.worker.target, head);
    forall k ensures RowOk(t, k) { assert RowOk(s, k); }
    forall k ensures PendingOk(t, k) { assert PendingOk(s, k); }
    forall k ensures Tally(t, k) {
      assert Tally(s, k);
      CountAppend(s.sends, head.key, k);
    }
    forall i | i in t.intents ensures IntentOk(t, i) { assert IntentOk(s, i); }
    CountAppend(s.sends, head.key, head.key);
  }

  lemma CountAppend(sends: seq<Key>, key: Key, k: Key)
    ensures Count(sends + [key], k) == Count(sends, k) + (if k == key then 1 else 0)
  {
    assert multiset(sends + [key]) == multiset(sends) + multiset{key};
  }

  // --- rewriting --------------------------------------------------------

  lemma WriteKeepsInv(s: State)
    requires Inv(s) && Enabled(s, WriteRow)
    ensures Inv(Next(s, WriteRow))
  {
    var t := Next(s, WriteRow);
    forall k ensures RowOk(t, k) { assert RowOk(s, k); }
    forall k ensures PendingOk(t, k) { assert PendingOk(s, k); }
    forall k ensures Tally(t, k) { assert Tally(s, k); }
    forall i | i in t.intents ensures IntentOk(t, i) { assert IntentOk(s, i); }
  }

  // --- restarting -------------------------------------------------------

  lemma RestartKeepsInv(s: State)
    requires Inv(s)
    ensures Inv(Next(s, Restart))
  {
    var t := Next(s, Restart);
    forall k ensures RowOk(t, k) { assert RowOk(s, k); }
    forall k ensures Tally(t, k) { assert Tally(s, k); }
  }

  lemma StepKeepsInv(s: State, e: Event)
    requires Inv(s) && Enabled(s, e)
    ensures Inv(Next(s, e))
  {
    match e {
      case InsertRow(key) => InsertKeepsInv(s, key);
      case DropHead => DropHeadKeepsInv(s);
      case SendHead => SendKeepsInv(s);
      case WriteRow => WriteKeepsInv(s);
      case Retire(intent) => RetireKeepsInv(s, intent);
      case Restart => RestartKeepsInv(s);
      case _ => QuietKeepsInv(s, e);
    }
  }

  // ---------------------------------------------------------------------
  // Every run
  // ---------------------------------------------------------------------

  ghost predicate Legal(s: State, run: seq<Event>)
    decreases run
  {
    run == [] || (Enabled(s, run[0]) && Legal(Next(s, run[0]), run[1..]))
  }

  ghost function Exec(s: State, run: seq<Event>): State
    requires Legal(s, run)
    decreases run
  {
    if run == [] then s else Exec(Next(s, run[0]), run[1..])
  }

  lemma {:induction false} RunKeepsInv(s: State, run: seq<Event>)
    requires Inv(s) && Legal(s, run)
    ensures Inv(Exec(s, run))
    decreases run
  {
    if run != [] {
      StepKeepsInv(s, run[0]);
      RunKeepsInv(Next(s, run[0]), run[1..]);
    }
  }

  lemma StartsGood()
    ensures Inv(START)
  {
  }

  /** Under every interleaving: a row that has left the queue is never there again,
      even when a rewrite decided on earlier lands later. */
  lemma {:induction false} NeverResurrected(s: State, run: seq<Event>, k: Key)
    requires Inv(s) && Legal(s, run)
    requires k in s.ever && k !in s.rows
    ensures k in Exec(s, run).ever && k !in Exec(s, run).rows
    decreases run
  {
    if run != [] {
      StepKeepsInv(s, run[0]);
      assert PendingOk(s, k);
      NeverResurrected(Next(s, run[0]), run[1..], k);
    }
  }

  /** Why a row leaves. */
  datatype Cause =
    | Acknowledged(signer: string, doc: string)
    | WasSuperseded(target: string, msgType: string, bodies: set<string>)
    | BudgetSpent

  ghost predicate Justified(s: State, k: Key, cause: Cause) {
    match cause
    case Acknowledged(signer, doc) => signer == k.target && (k, doc) in s.recorded
    case WasSuperseded(target, msgType, bodies) =>
      && Superseded(k, target, msgType, bodies) in s.intents
      && k in s.rows && k.target == target && s.rows[k].msgType == msgType && s.rows[k].body in bodies
    case BudgetSpent =>
      && s.worker.Scanning? && k in s.rows
      && (s.rows[k].attempts >= 50 || s.worker.now >= s.rows[k].enqueuedAt + 604_800)
  }

  ghost function CauseOf(s: State, e: Event): Cause {
    if e.Retire? && e.intent.AckOf? then Acknowledged(e.intent.signer, e.intent.doc)
    else if e.Retire? then WasSuperseded(e.intent.target, e.intent.msgType, e.intent.bodies)
    else BudgetSpent
  }

  /** A row leaves only by its own target's acknowledgement of a document recorded as
      sent for that very row, by a supersession that names its target and type and matches
      its body, or by the retry or age budget. */
  lemma LeavesForCause(s: State, e: Event, k: Key)
    requires Inv(s) && Enabled(s, e)
    requires k in s.rows && k !in Next(s, e).rows
    ensures Justified(s, k, CauseOf(s, e))
  {
    match e {
      case Retire(intent) => assert IntentOk(s, intent);
      case DropHead => assert ItemOk(s, s.worker.target, s.worker.todo[0]);
      case _ =>
    }
  }

  /** The document an acknowledger read may no longer be the one the row awaits when its
      removal lands: it is exactly when nothing was written to the row in between. */
  lemma AckIsCurrentIff(s: State, intent: Intent)
    requires Inv(s) && intent in s.intents && intent.AckOf? && intent.key in s.rows
    ensures s.rows[intent.key].awaitingAck == Some(intent.doc)
       <==> s.rows[intent.key].attempts == intent.seen.attempts
  {
    assert IntentOk(s, intent);
  }

  /** No step changes what a row carries, and none gives an attempt back. */
  lemma PayloadIsFixed(s: State, e: Event, k: Key)
    requires Inv(s) && Enabled(s, e) && k in s.rows && k in Next(s, e).rows
    ensures SamePayload(s.rows[k], Next(s, e).rows[k])
    ensures s.rows[k].attempts <= Next(s, e).rows[k].attempts <= s.rows[k].attempts + 1
  {
    assert RowOk(s, k) && PendingOk(s, k);
  }

  /** In every reachable state, no row has been sent more often than the budget allows, once
      more for each attempt that a restart cut short; and every other attempt but the one in
      flight is on the row's books. */
  lemma BudgetOverRuns(run: seq<Event>, k: Key)
    requires Legal(START, run)
    ensures
      var s := Exec(START, run);
      && Count(s.sends, k) <= MAX_ATTEMPTS + s.lost[k]
      && (k in s.rows ==> Count(s.sends, k) == s.rows[k].attempts + s.lost[k] + OnTheWay(s.worker)[k])
  {
    StartsGood();
    RunKeepsInv(START, run);
    assert Tally(Exec(START, run), k);
  }

  // ---------------------------------------------------------------------
  // Runs, step by step
  // ---------------------------------------------------------------------

  lemma OneStep(s: State, e: Event, rest: seq<Event>)
    requires Enabled(s, e) && Legal(Next(s, e), rest)
    ensures Legal(s, [e] + rest) && Exec(s, [e] + rest) == Exec(Next(s, e), rest)
  {
    assert ([e] + rest)[1..] == rest;
  }

  function AfterRecord(s: State, k: Key, row: Row, doc: string): State {
    s.(rows := s.rows[k := Sent(row, doc, s.clock)], worker := Idle, minted := s.minted + {doc},
       handed := s.handed + [(k, doc)], recorded := s.recorded + {(k, doc)})
  }

  /** A delivery handed over and recorded. */
  lemma Records(s: State, k: Key, row: Row, doc: string, rest: seq<Event>)
    requires s.worker == Delivering(k, row) && k in s.rows && doc !in s.minted
    requires Legal(AfterRecord(s, k, row, doc), rest)
    ensures
      var run := [HandedOver(doc)] + ([TakeLock] + ([WriteRow] + rest));
      Legal(s, run) && Exec(s, run) == Exec(AfterRecord(s, k, row, doc), rest)
  {
    var t := s.(worker := Settling(k, row, Sent(row, doc, s.clock)), minted := s.minted + {doc},
                handed := s.handed + [(k, doc)]);
    var u := t.(worker := Rewriting(k, row, Sent(row, doc, s.clock)));
    assert Next(u, WriteRow) == AfterRecord(s, k, row, doc);
    OneStep(u, WriteRow, rest);
    OneStep(t, TakeLock, [WriteRow] + rest);
    OneStep(s, HandedOver(doc), [TakeLock] + ([WriteRow] + rest));
  }

  /** One undisturbed send, and what follows. */
  function SendOnce(k: Key, row: Row, doc: string, now: nat, rest: seq<Event>): seq<Event> {
    [BeginTarget(k.target, now, [Item(k, row)])]
        + ([SendHead] + ([HandedOver(doc)] + ([TakeLock] + ([WriteRow] + rest))))
  }

  /** The state after one undisturbed send. */
  function AfterSend(s: State, k: Key, row: Row, doc: string): State {
    s.(rows := s.rows[k := Sent(row, doc, s.clock)], worker := Idle, minted := s.minted + {doc},
       sends := s.sends + [k], handed := s.handed + [(k, doc)], recorded := s.recorded + {(k, doc)})
  }

  lemma SendsOnce(s: State, k: Key, row: Row, doc: string, rest: seq<Event>)
    requires s.rows == map[k := row] && s.worker.Idle? && doc !in s.minted
    requires !OverBudget(row, s.clock) && row.nextAttemptAt <= s.clock
    requires Legal(AfterSend(s, k, row, doc), rest)
    ensures Legal(s, SendOnce(k, row, doc, s.clock, rest))
    ensures Exec(s, SendOnce(k, row, doc, s.clock, rest)) == Exec(AfterSend(s, k, row, doc), rest)
  {
    var a := s.(worker := Scanning(k.target, s.clock, [Item(k, row)]));
    var b := s.(worker := Delivering(k, row), sends := s.sends + [k]);
    var late := [HandedOver(doc)] + ([TakeLock] + ([WriteRow] + rest));
    assert AfterRecord(b, k, row, doc) == AfterSend(s, k, row, doc);
    Records(b, k, row, doc, rest);
    assert Next(a, SendHead) == b;
    OneStep(a, SendHead, late);
    assert IsQueue([Item(k, row)], s.rows, k.target);
    OneStep(s, BeginTarget(k.target, s.clock, [Item(k, row)]), [SendHead] + late);
  }

  /** One row is queued, sent as "d1" and acknowledged; the acknowledger has read but not
      yet removed when the row times out and is sent again, as "d2". */
  function Resent(k: Key, rest: seq<Event>): seq<Event> {
    var first := Queued("m", "b", 0);
    var again := [ReadAck(k, k.target, "d1")] + ([Advance(60)] + SendOnce(k, Sent(first, "d1", 0), "d2", 60, rest));
    [MakeKey(k, "m", "b")] + ([InsertRow(k)] + SendOnce(k, first, "d1", 0, again))
  }

  function AfterResent(k: Key): State {
    var seen := Sent(Queued("m", "b", 0), "d1", 0);
    State(map[k := Sent(seen, "d2", 60)], map[], Idle, {AckOf(k, k.target, "d1", seen)}, 60, {k}, {"d1", "d2"},
          [k, k], [(k, "d1"), (k, "d2")], multiset{}, {(k, "d1"), (k, "d2")})
  }

  /** The state after the first send. */
  function AfterFirst(k: Key): State {
    AfterSend(START.(rows := map[k := Queued("m", "b", 0)], ever := {k}), k, Queued("m", "b", 0), "d1")
  }

  lemma SendsFirst(k: Key, rest: seq<Event>)
    requires Legal(AfterFirst(k), rest)
    ensures
      var run := [MakeKey(k, "m", "b")] + ([InsertRow(k)] + SendOnce(k, Queued("m", "b", 0), "d1", 0, rest));
      Legal(START, run) && Exec(START, run) == Exec(AfterFirst(k), rest)
  {
    var first := Queued("m", "b", 0);
    var made := START.(pending := map[k := first]);
    var s0 := START.(rows := map[k := first], ever := {k});
    SendsOnce(s0, k, first, "d1", rest);
    assert Next(made, InsertRow(k)) == s0 && Next(START, MakeKey(k, "m", "b")) == made;
    OneStep(made, InsertRow(k), SendOnce(k, first, "d1", 0, rest));
    OneStep(START, MakeKey(k, "m", "b"), [InsertRow(k)] + SendOnce(k, first, "d1", 0, rest));
  }

  lemma ResentLeadsTo(k: Key, rest: seq<Event>)
    requires Legal(AfterResent(k), rest)
    ensures Legal(START, Resent(k, rest)) && Exec(START, Resent(k, rest)) == Exec(AfterResent(k), rest)
  {
    var seen := Sent(Queued("m", "b", 0), "d1", 0);
    assert "d1"[1] != "d2"[1];
    var s1 := AfterFirst(k);
    var s2 := s1.(intents := {AckOf(k, k.target, "d1", seen)});
    var s3 := s2.(clock := 60);
    var resend := SendOnce(k, seen, "d2", 60, rest);
    assert AfterSend(s3, k, seen, "d2") == AfterResent(k);
    SendsOnce(s3, k, seen, "d2", rest);
    OneStep(s2, Advance(60), resend);
    assert Next(s1, ReadAck(k, k.target, "d1")) == s2;
    OneStep(s1, ReadAck(k, k.target, "d1"), [Advance(60)] + resend);
    SendsFirst(k, [ReadAck(k, k.target, "d1")] + ([Advance(60)] + resend));
  }

  /** The acknowledgement of the first document then retires the row, although the second
      is the one it awaits. */
  lemma StaleAckRetiresResentRow(target: string)
    ensures
      var k := Key(target, 0, "a");
      var seen := Sent(Queued("m", "b", 0), "d1", 0);
      var ack := Retire(AckOf(k, target, "d1", seen));
      && Legal(START, Resent(k, [])) && Exec(START, Resent(k, [])).rows == map[k := Sent(seen, "d2", 60)]
      && Legal(START, Resent(k, [ack])) && Exec(START, Resent(k, [ack])).rows == map[]
  {
    var k := Key(target, 0, "a");
    var ack := Retire(AckOf(k, target, "d1", Sent(Queued("m", "b", 0), "d1", 0)));
    ResentLeadsTo(k, []);
    var t := AfterResent(k);
    assert Enabled(t, ack) && Next(t, ack).rows == map[];
    OneStep(t, ack, []);
    assert [ack] + [] == [ack];
    ResentLeadsTo(k, [ack]);
  }
}
