/** In what order rows are attempted, over every run
    (did-hosting-control/src/outbox.rs:143-155, 178-199, 239-268, 472-594).

    The order is that of the keys. Two promises are followed together: that nothing queued
    stands ahead of a queued row already attempted, so only the first row of a queue ever
    is (`Queued`), and that nothing queued stands ahead of any row ever attempted, so
    first sends follow the keys (`Ever`). */
module OutboxOrder {
  import opened Common
  import opened OutboxKey
  import opened OutboxQueue
  import opened OutboxProtocol

  /** Which attempted rows a promise is about. */
  datatype Reach = StillQueued | EverQueued

  predicate Counts(s: State, r: Reach, k: Key) {
    r == EverQueued || k in s.rows
  }

  /** Nothing queued stands ahead of `k`, if it was attempted. */
  ghost predicate Clear(s: State, r: Reach, k: Key, j: Key) {
    k in s.sends && Counts(s, r, k) ==> !Ahead(s.rows, j, k)
  }

  /** The promise, in one state. */
  ghost predicate InOrder(s: State, r: Reach) {
    forall k, j :: Clear(s, r, k, j)
  }

  // ---------------------------------------------------------------------
  // The row the worker is about to send
  // ---------------------------------------------------------------------

  /** The first row of the snapshot within its budget, if it is due. */
  function OnCourse(todo: seq<Item>, now: nat): Option<Key> {
    if todo == [] then None
    else if OverBudget(todo[0].row, now) then OnCourse(todo[1..], now)
    else if ActionFor(todo[0].row, now) == Send then Some(todo[0].key)
    else None
  }

  function NextUp(w: Worker): Option<Key> {
    if w.Scanning? then OnCourse(w.todo, w.now) else None
  }

  lemma {:induction false} OnCourseIsListed(todo: seq<Item>, now: nat)
    ensures OnCourse(todo, now).Some? ==> exists i :: 0 <= i < |todo| && todo[i].key == OnCourse(todo, now).value
  {
    if todo != [] && OverBudget(todo[0].row, now) && OnCourse(todo, now).Some? {
      OnCourseIsListed(todo[1..], now);
      if i :| 0 <= i < |todo[1..]| && todo[1..][i].key == OnCourse(todo[1..], now).value {
        assert todo[i + 1].key == OnCourse(todo, now).value;
      }
    }
  }

  predicate Listed(todo: seq<Item>, j: Key) {
    exists i :: 0 <= i < |todo| && todo[i].key == j
  }

  /** Whatever is queued ahead of the row about to be sent is in the snapshot. */
  ghost predicate CourseClear(s: State, r: Reach, j: Key) {
    var k := NextUp(s.worker);
    k.Some? && Counts(s, r, k.value) && Ahead(s.rows, j, k.value) ==> Listed(s.worker.todo, j)
  }

  /** No row attempted earlier comes after the one about to be sent. */
  ghost predicate CourseAfter(s: State, r: Reach, k: Key) {
    var next := NextUp(s.worker);
    r == EverQueued && next.Some? && k in s.sends && k.target == next.value.target ==> !Before(next.value, k)
  }

  /** What keeps the promise from one state to the next. */
  ghost predicate Order(s: State, r: Reach) {
    && InOrder(s, r)
    && (forall j :: CourseClear(s, r, j))
    && (forall k :: CourseAfter(s, r, k))
    && (r == EverQueued ==> SendsInOrder(s.sends))
  }

  /** Attempts on one target follow the keys. */
  ghost predicate SendsInOrder(sends: seq<Key>) {
    forall i, j :: 0 <= i < j < |sends| && sends[i].target == sends[j].target ==> !Before(sends[j], sends[i])
  }

  // ---------------------------------------------------------------------
  // Inserts
  // ---------------------------------------------------------------------

  /** The row to be inserted is ahead of one that was attempted, in flight included, or
      that the worker's snapshot is about to send. */
  predicate CutsIn(s: State, r: Reach, key: Key) {
    || (exists k :: k in s.sends && Counts(s, r, k) && k.target == key.target && Before(key, k))
    || (var next := NextUp(s.worker);
        next.Some? && Counts(s, r, next.value) && next.value.target == key.target && Before(key, next.value))
  }

  predicate LandsBehind(s: State, r: Reach, e: Event) {
    e.InsertRow? ==> !CutsIn(s, r, e.key)
  }

  lemma InsertKeepsOrder(s: State, r: Reach, key: Key)
    requires Inv(s) && Order(s, r) && Enabled(s, InsertRow(key)) && !CutsIn(s, r, key)
    ensures Order(Next(s, InsertRow(key)), r)
  {
    var t := Next(s, InsertRow(key));
    assert PendingOk(s, key);
    forall k, j ensures Clear(t, r, k, j) { assert Clear(s, r, k, j); }
    KnownNext(s);
    forall j ensures CourseClear(t, r, j) { assert CourseClear(s, r, j); }
    forall k ensures CourseAfter(t, r, k) { assert CourseAfter(s, r, k); }
  }

  /** The row about to be sent has been queued. */
  lemma KnownNext(s: State)
    requires Inv(s)
    ensures NextUp(s.worker).Some? ==>
        NextUp(s.worker).value in s.ever && NextUp(s.worker).value.target == s.worker.target
  {
    if NextUp(s.worker).Some? {
      OnCourseIsListed(s.worker.todo, s.worker.now);
      var i :| 0 <= i < |s.worker.todo| && s.worker.todo[i].key == NextUp(s.worker).value;
      assert ItemOk(s, s.worker.target, s.worker.todo[i]);
    }
  }

  // ---------------------------------------------------------------------
  // Every other step keeps the order
  // ---------------------------------------------------------------------

  lemma BeginKeepsOrder(s: State, r: Reach, e: Event)
    requires Inv(s) && Order(s, r) && Enabled(s, e) && e.BeginTarget?
    ensures Order(Next(s, e), r)
  {
    var t := Next(s, e);
    forall k, j ensures Clear(t, r, k, j) { assert Clear(s, r, k, j); }
    OnCourseIsListed(e.todo, e.now);
    forall j ensures CourseClear(t, r, j) {
      var next := NextUp(t.worker);
      if next.Some? && Ahead(t.rows, j, next.value) {
        var i :| 0 <= i < |e.todo| && e.todo[i].key == next.value;
        assert Item(j, s.rows[j]) in e.todo;
        var n :| 0 <= n < |e.todo| && e.todo[n] == Item(j, s.rows[j]);
        assert e.todo[n].key == j;
      }
    }
    forall k ensures CourseAfter(t, r, k) {
      var next := NextUp(t.worker);
      if next.Some? {
        var i :| 0 <= i < |e.todo| && e.todo[i].key == next.value;
        assert Clear(s, r, k, next.value);
      }
    }
  }

  lemma DropKeepsOrder(s: State, r: Reach)
    requires Inv(s) && Order(s, r) && Enabled(s, DropHead)
    ensures Order(Next(s, DropHead), r)
  {
    var t := Next(s, DropHead);
    var todo := s.worker.todo;
    forall k, j ensures Clear(t, r, k, j) { assert Clear(s, r, k, j); }
    assert NextUp(t.worker) == NextUp(s.worker);
    forall j ensures CourseClear(t, r, j) {
      assert CourseClear(s, r, j);
      if Listed(todo, j) && j != todo[0].key {
        var i :| 0 <= i < |todo| && todo[i].key == j;
        assert todo[1..][i - 1].key == j;
      }
    }
    forall k ensures CourseAfter(t, r, k) { assert CourseAfter(s, r, k); }
  }

  lemma RetireKeepsOrder(s: State, r: Reach, intent: Intent)
    requires Order(s, r) && Enabled(s, Retire(intent))
    ensures Order(Next(s, Retire(intent)), r)
  {
    var t := Next(s, Retire(intent));
    forall k, j ensures Clear(t, r, k, j) { assert Clear(s, r, k, j); }
    forall j ensures CourseClear(t, r, j) { assert CourseClear(s, r, j); }
    forall k ensures CourseAfter(t, r, k) { assert CourseAfter(s, r, k); }
  }

  lemma SendKeepsOrder(s: State, r: Reach)
    requires Inv(s) && Order(s, r) && Enabled(s, SendHead)
    ensures Order(Next(s, SendHead), r)
  {
    var t := Next(s, SendHead);
    var head := s.worker.todo[0].key;
    assert NextUp(s.worker) == Some(head);
    assert ItemOk(s, s.worker.target, s.worker.todo[0]);
    forall k, j ensures Clear(t, r, k, j) {
      assert Clear(s, r, k, j);
      if k == head { NothingAheadOfHead(s, r, j); }
    }
    forall i, j | 0 <= i < j < |t.sends| && t.sends[i].target == t.sends[j].target && r == EverQueued
      ensures !Before(t.sends[j], t.sends[i])
    {
      if j == |s.sends| { assert CourseAfter(s, r, s.sends[i]); }
    }
  }

  lemma NothingAheadOfHead(s: State, r: Reach, j: Key)
    requires Inv(s) && Order(s, r) && Enabled(s, SendHead)
    ensures Counts(s, r, s.worker.todo[0].key) ==> !Ahead(s.rows, j, s.worker.todo[0].key)
  {
    var todo := s.worker.todo;
    assert CourseClear(s, r, j);
    if Listed(todo, j) {
      var i :| 0 <= i < |todo| && todo[i].key == j;
      BeforeOrder(todo[0].key, j, todo[0].key);
      assert i > 0 ==> Before(todo[0].key, j);
    }
  }

  lemma WriteKeepsOrder(s: State, r: Reach)
    requires Inv(s) && Order(s, r) && Enabled(s, WriteRow)
    ensures Order(Next(s, WriteRow), r)
  {
    var t := Next(s, WriteRow);
    forall k, j ensures Clear(t, r, k, j) { assert Clear(s, r, k, j); }
  }

  lemma RestartKeepsOrder(s: State, r: Reach)
    requires Order(s, r)
    ensures Order(Next(s, Restart), r)
  {
    var t := Next(s, Restart);
    forall k, j ensures Clear(t, r, k, j) { assert Clear(s, r, k, j); }
  }

  /** Steps that change neither rows nor attempts, nor begin a scan. */
  lemma OtherKeepsOrder(s: State, r: Reach, e: Event)
    requires Order(s, r) && Enabled(s, e) && Quiet(e) && !e.BeginTarget?
    ensures Order(Next(s, e), r)
  {
    var t := Next(s, e);
    forall k, j ensures Clear(t, r, k, j) { assert Clear(s, r, k, j); }
    forall j ensures CourseClear(t, r, j) { assert CourseClear(s, r, j); }
    forall k ensures CourseAfter(t, r, k) { assert CourseAfter(s, r, k); }
  }

  lemma StepKeepsOrder(s: State, r: Reach, e: Event)
    requires Inv(s) && Order(s, r) && Enabled(s, e) && LandsBehind(s, r, e)
    ensures Order(Next(s, e), r)
  {
    match e {
      case InsertRow(key) => InsertKeepsOrder(s, r, key);
      case BeginTarget(_, _, _) => BeginKeepsOrder(s, r, e);
      case DropHead => DropKeepsOrder(s, r);
      case SendHead => SendKeepsOrder(s, r);
      case WriteRow => WriteKeepsOrder(s, r);
      case Retire(intent) => RetireKeepsOrder(s, r, intent);
      case Restart => RestartKeepsOrder(s, r);
      case _ => OtherKeepsOrder(s, r, e);
    }
  }

  // ---------------------------------------------------------------------
  // An insert that cuts in breaks the order
  // ---------------------------------------------------------------------

  ghost predicate NoInserts(run: seq<Event>) {
    forall i :: 0 <= i < |run| ==> !run[i].InsertRow?
  }

  /** The promise holds now and in whatever may follow without a further insert. */
  ghost predicate Safe(s: State, r: Reach) {
    forall run :: Legal(s, run) && NoInserts(run) ==> InOrder(Exec(s, run), r)
  }

  lemma {:induction false} QuietRunsKeepOrder(s: State, r: Reach, run: seq<Event>)
    requires Inv(s) && Order(s, r) && Legal(s, run) && NoInserts(run)
    ensures InOrder(Exec(s, run), r)
    decreases run
  {
    if run != [] {
      assert !run[0].InsertRow?;
      StepKeepsInv(s, run[0]);
      StepKeepsOrder(s, r, run[0]);
      assert forall i :: 0 <= i < |run[1..]| ==> run[1..][i] == run[i + 1];
      QuietRunsKeepOrder(Next(s, run[0]), r, run[1..]);
    }
  }

  lemma OrderIsSafe(s: State, r: Reach)
    requires Inv(s) && Order(s, r)
    ensures Safe(s, r)
  {
    forall run | Legal(s, run) && NoInserts(run) ensures InOrder(Exec(s, run), r) { QuietRunsKeepOrder(s, r, run); }
  }

  /** The worker drops the spent rows of its snapshot, and sends the next. */
  lemma {:induction false} SendsNextUp(s: State, j: Key) returns (run: seq<Event>)
    requires Inv(s) && NextUp(s.worker).Some? && j in s.rows && !Listed(s.worker.todo, j)
    ensures Legal(s, run) && NoInserts(run)
    ensures
      var t := Exec(s, run);
      var k := NextUp(s.worker).value;
      && k in t.sends && j in t.rows && (k in s.rows ==> k in t.rows)
    decreases |s.worker.todo|
  {
    var todo := s.worker.todo;
    assert Listed(todo, todo[0].key);
    if OverBudget(todo[0].row, s.worker.now) {
      var t := Next(s, DropHead);
      DropHeadKeepsInv(s);
      OnCourseIsListed(todo[1..], s.worker.now);
      var n :| 0 <= n < |todo[1..]| && todo[1..][n].key == NextUp(s.worker).value;
      assert Before(todo[0].key, todo[n + 1].key);
      BeforeOrder(todo[0].key, todo[0].key, todo[0].key);
      forall i | 0 <= i < |todo[1..]| ensures todo[1..][i].key != j { assert Listed(todo, todo[i + 1].key); }
      var rest := SendsNextUp(t, j);
      OneStep(s, DropHead, rest);
      run := [DropHead] + rest;
    } else {
      OneStep(s, SendHead, []);
      run := [SendHead] + [];
    }
  }

  /** An insert that cuts in breaks the promise: at once, or as soon as the worker sends
      what it is about to send. */
  lemma CuttingInIsUnsafe(s: State, r: Reach, key: Key)
    requires Inv(s) && Enabled(s, InsertRow(key)) && CutsIn(s, r, key)
    ensures !Safe(Next(s, InsertRow(key)), r)
  {
    var t := Next(s, InsertRow(key));
    InsertKeepsInv(s, key);
    assert PendingOk(s, key);
    if k :| k in s.sends && Counts(s, r, k) && k.target == key.target && Before(key, k) {
      assert !Clear(t, r, k, key);
      assert Legal(t, []) && NoInserts([]) && Exec(t, []) == t;
    } else {
      var k := NextUp(s.worker).value;
      forall i | 0 <= i < |s.worker.todo| ensures s.worker.todo[i].key != key {
        assert ItemOk(s, s.worker.target, s.worker.todo[i]);
      }
      var run := SendsNextUp(t, key);
      assert !Clear(Exec(t, run), r, k, key);
    }
  }

  /** Exactly: an insert leaves the promise safe if and only if it does not cut in. */
  lemma InsertIsSafeIff(s: State, r: Reach, key: Key)
    requires Inv(s) && Order(s, r) && Enabled(s, InsertRow(key))
    ensures Safe(Next(s, InsertRow(key)), r) <==> !CutsIn(s, r, key)
  {
    if CutsIn(s, r, key) {
      CuttingInIsUnsafe(s, r, key);
    } else {
      InsertKeepsInv(s, key);
      InsertKeepsOrder(s, r, key);
      OrderIsSafe(Next(s, InsertRow(key)), r);
    }
  }

  // ---------------------------------------------------------------------
  // Over runs
  // ---------------------------------------------------------------------

  /** No insert of the run cuts in. */
  ghost predicate NoneCutsIn(s: State, r: Reach, run: seq<Event>)
    requires Legal(s, run)
    decreases run
  {
    run != [] ==> LandsBehind(s, r, run[0]) && NoneCutsIn(Next(s, run[0]), r, run[1..])
  }

  /** The promise is safe in every state of the run. */
  ghost predicate SafeThroughout(s: State, r: Reach, run: seq<Event>)
    requires Legal(s, run)
    decreases run
  {
    Safe(s, r) && (run != [] ==> SafeThroughout(Next(s, run[0]), r, run[1..]))
  }

  lemma {:induction false} OrderOverRuns(s: State, r: Reach, run: seq<Event>)
    requires Inv(s) && Order(s, r) && Legal(s, run)
    ensures SafeThroughout(s, r, run) <==> NoneCutsIn(s, r, run)
    ensures NoneCutsIn(s, r, run) ==> Order(Exec(s, run), r)
    decreases run
  {
    OrderIsSafe(s, r);
    if run != [] {
      var e := run[0];
      StepKeepsInv(s, e);
      if LandsBehind(s, r, e) {
        StepKeepsOrder(s, r, e);
        OrderOverRuns(Next(s, e), r, run[1..]);
      } else {
        CuttingInIsUnsafe(s, r, e.key);
        UnsafeAtOnce(Next(s, e), r, run[1..]);
      }
    }
  }

  lemma UnsafeAtOnce(s: State, r: Reach, run: seq<Event>)
    requires Legal(s, run) && !Safe(s, r)
    ensures !SafeThroughout(s, r, run)
  {
  }

  /** For every run from an empty outbox: each promise is safe throughout exactly when no
      insert cuts in on it. */
  lemma OrderHoldsIff(run: seq<Event>, r: Reach)
    requires Legal(START, run)
    ensures SafeThroughout(START, r, run) <==> NoneCutsIn(START, r, run)
  {
    StartsGood();
    OrderOverRuns(START, r, run);
  }

  /** A row that has been attempted or awaits an acknowledgement. */
  predicate Touched(row: Row) {
    row.attempts > 0 || row.awaitingAck.Some?
  }

  /** Two rows of one target that both await an acknowledgement. */
  predicate InFlightTogether(rows: Rows, k: Key, j: Key) {
    && k in rows && j in rows && k.target == j.target
    && rows[k].awaitingAck.Some? && rows[j].awaitingAck.Some?
  }

  lemma TouchedWasSent(s: State, k: Key)
    requires Inv(s) && k in s.rows && Touched(s.rows[k])
    ensures k in s.sends
  {
    assert RowOk(s, k) && Tally(s, k);
    assert multiset(s.sends)[k] > 0;
  }

  /** What the first promise means: only the first row of a target's queue was ever
      attempted or awaits an acknowledgement, and at most one is in flight. */
  lemma OneInFlight(run: seq<Event>)
    requires Legal(START, run) && NoneCutsIn(START, StillQueued, run)
    ensures
      var s := Exec(START, run);
      && (forall k, j :: k in s.rows && Touched(s.rows[k]) ==> !Ahead(s.rows, j, k))
      && (forall k, j :: InFlightTogether(s.rows, k, j) ==> k == j)
  {
    var s := Exec(START, run);
    StartsGood();
    RunKeepsInv(START, run);
    OrderOverRuns(START, StillQueued, run);
    forall k, j ensures k in s.rows && Touched(s.rows[k]) ==> !Ahead(s.rows, j, k) {
      if k in s.rows && Touched(s.rows[k]) { TouchedWasSent(s, k); }
      assert Clear(s, StillQueued, k, j);
    }
    forall k, j | InFlightTogether(s.rows, k, j) ensures k == j {
      BeforeOrder(k, j, k);
      assert !Ahead(s.rows, j, k) && !Ahead(s.rows, k, j);
    }
  }

  /** And the second: attempts on a target follow its keys. */
  lemma SendsFollowKeys(run: seq<Event>)
    requires Legal(START, run) && NoneCutsIn(START, EverQueued, run)
    ensures SendsInOrder(Exec(START, run).sends)
  {
    StartsGood();
    OrderOverRuns(START, EverQueued, run);
  }

  /** When rows are inserted in the order of their keys, target by target, none cuts in:
      keys made and inserted one after the other, on a clock that moves between them. */
  lemma {:induction false} InsertsInKeyOrder(s: State, r: Reach, run: seq<Event>)
    requires Inv(s) && Legal(s, run) && InsertedInOrder(s, run)
    ensures NoneCutsIn(s, r, run)
    decreases run
  {
    if run != [] {
      var e := run[0];
      if e.InsertRow? {
        KnownNext(s);
        forall k | k in s.ever && k.target == e.key.target ensures !Before(e.key, k) { BeforeOrder(k, e.key, k); }
      }
      StepKeepsInv(s, e);
      InsertsInKeyOrder(Next(s, e), r, run[1..]);
    }
  }

  ghost predicate InsertedInOrder(s: State, run: seq<Event>)
    requires Legal(s, run)
    decreases run
  {
    run != [] ==>
      && (run[0].InsertRow? ==> forall k :: k in s.ever && k.target == run[0].key.target ==> Before(k, run[0].key))
      && InsertedInOrder(Next(s, run[0]), run[1..])
  }

  // ---------------------------------------------------------------------
  // A run that breaks both promises
  // ---------------------------------------------------------------------

  function First(target: string): Key {
    Key(target, 0, "a")
  }

  function Second(target: string): Key {
    Key(target, 1, "a")
  }

  function Fresh(): Row {
    Queued("m", "b", 0)
  }

  /** The later key is inserted first and its row is being sent; then the earlier one
      lands. */
  function Overtaken(target: string, rest: seq<Event>): seq<Event> {
    var j, k := First(target), Second(target);
    [MakeKey(j, "m", "b")] + ([MakeKey(k, "m", "b")] + ([InsertRow(k)]
    + ([BeginTarget(target, 0, [Item(k, Fresh())])] + ([SendHead] + ([InsertRow(j)] + rest)))))
  }

  function AfterOvertaken(target: string): State {
    var j, k := First(target), Second(target);
    START.(rows := map[j := Fresh(), k := Fresh()], worker := Delivering(k, Fresh()), ever := {j, k}, sends := [k])
  }

  /** The later key's row is queued, the earlier one's not yet. */
  function SecondQueued(target: string): State {
    START.(rows := map[Second(target) := Fresh()], pending := map[First(target) := Fresh()], ever := {Second(target)})
  }

  lemma SendsSecond(target: string, rest: seq<Event>)
    requires Legal(AfterOvertaken(target), rest)
    ensures
      var run := [BeginTarget(target, 0, [Item(Second(target), Fresh())])]
          + ([SendHead] + ([InsertRow(First(target))] + rest));
      && Legal(SecondQueued(target), run)
      && Exec(SecondQueued(target), run) == Exec(AfterOvertaken(target), rest)
  {
    var j, k := First(target), Second(target);
    var todo := [Item(k, Fresh())];
    var s3 := SecondQueued(target);
    var s4 := s3.(worker := Scanning(target, 0, todo));
    var s5 := s3.(worker := Delivering(k, Fresh()), sends := [k]);
    assert Next(s5, InsertRow(j)) == AfterOvertaken(target);
    OneStep(s5, InsertRow(j), rest);
    assert [] + [k] == [k] && Next(s4, SendHead) == s5;
    OneStep(s4, SendHead, [InsertRow(j)] + rest);
    assert IsQueue(todo, s3.rows, target);
    OneStep(s3, BeginTarget(target, 0, todo), [SendHead] + ([InsertRow(j)] + rest));
  }

  lemma OvertakenLeadsTo(target: string, rest: seq<Event>)
    requires Legal(AfterOvertaken(target), rest)
    ensures Legal(START, Overtaken(target, rest))
    ensures Exec(START, Overtaken(target, rest)) == Exec(AfterOvertaken(target), rest)
  {
    var j, k := First(target), Second(target);
    var s1 := START.(pending := map[j := Fresh()]);
    var s2 := START.(pending := map[j := Fresh(), k := Fresh()]);
    var tail := [BeginTarget(target, 0, [Item(k, Fresh())])] + ([SendHead] + ([InsertRow(j)] + rest));
    SendsSecond(target, rest);
    assert Next(s2, InsertRow(k)) == SecondQueued(target);
    OneStep(s2, InsertRow(k), tail);
    OneStep(s1, MakeKey(k, "m", "b"), [InsertRow(k)] + tail);
    OneStep(START, MakeKey(j, "m", "b"), [MakeKey(k, "m", "b")] + ([InsertRow(k)] + tail));
  }

  /** The worker records the row it was sending, then sends the one that landed ahead. */
  function BothSent(target: string): seq<Event> {
    var j, k := First(target), Second(target);
    [HandedOver("d1")] + ([TakeLock] + ([WriteRow]
    + ([BeginTarget(target, 0, [Item(j, Fresh()), Item(k, Sent(Fresh(), "d1", 0))])]
    + ([SendHead] + ([HandedOver("d2")] + ([TakeLock] + ([WriteRow] + [])))))))
  }

  function AfterBothSent(target: string): State {
    var j, k := First(target), Second(target);
    var t := AfterRecord(AfterOvertaken(target), k, Fresh(), "d1");
    AfterRecord(t.(worker := Delivering(j, Fresh()), sends := [k, j]), j, Fresh(), "d2")
  }

  lemma BothSentLeadsTo(target: string)
    ensures Legal(AfterOvertaken(target), BothSent(target))
    ensures Exec(AfterOvertaken(target), BothSent(target)) == AfterBothSent(target)
  {
    var j, k := First(target), Second(target);
    assert "d1"[1] != "d2"[1];
    var s3 := AfterRecord(AfterOvertaken(target), k, Fresh(), "d1");
    var todo := [Item(j, Fresh()), Item(k, Sent(Fresh(), "d1", 0))];
    var s4 := s3.(worker := Scanning(target, 0, todo));
    var s5 := s3.(worker := Delivering(j, Fresh()), sends := [k, j]);
    var late := [HandedOver("d2")] + ([TakeLock] + ([WriteRow] + []));
    Records(s5, j, Fresh(), "d2", []);
    assert [k] + [j] == [k, j] && Next(s4, SendHead) == s5;
    OneStep(s4, SendHead, late);
    assert IsQueue(todo, s3.rows, target);
    OneStep(s3, BeginTarget(target, 0, todo), [SendHead] + late);
    Records(AfterOvertaken(target), k, Fresh(), "d1", [BeginTarget(target, 0, todo)] + ([SendHead] + late));
  }

  /** Both promises fail on a run of two enqueues whose inserts land in the other order:
      two rows of one target are in flight together, and the later was sent first. */
  lemma TwoInFlight(target: string)
    ensures
      var run := Overtaken(target, BothSent(target));
      && Legal(START, run)
      && First(target) != Second(target)
      && InFlightTogether(Exec(START, run).rows, First(target), Second(target))
      && !SendsInOrder(Exec(START, run).sends)
  {
    BothSentLeadsTo(target);
    OvertakenLeadsTo(target, BothSent(target));
    var sends := AfterBothSent(target).sends;
    assert sends[0] == Second(target) && sends[1] == First(target);
  }
}
