/** Which document was handed over last, and what restarts do to the count of sends
    (did-hosting-control/src/outbox.rs:1-38, 281-373, 521-594). */
module OutboxHistory {
  import opened OutboxKey
  import opened OutboxQueue
  import opened OutboxProtocol
  import opened Common

  // ---------------------------------------------------------------------
  // The hand-overs
  // ---------------------------------------------------------------------

  /** The last document handed over for a row. */
  function LastHanded(handed: seq<(Key, string)>, k: Key): Option<string> {
    if handed == [] then None
    else if handed[|handed| - 1].0 == k then Some(handed[|handed| - 1].1)
    else LastHanded(handed[..|handed| - 1], k)
  }

  /** `j` is a hand-over of the row after that of the document. */
  predicate Follows(handed: seq<(Key, string)>, k: Key, doc: string, i: int, j: int) {
    0 <= i < j < |handed| && handed[i] == (k, doc) && handed[j].0 == k
  }

  lemma {:induction false} LastHandedIff(handed: seq<(Key, string)>, k: Key, doc: string, i: nat)
    requires i < |handed| && handed[i] == (k, doc)
    requires forall m, n :: 0 <= m < n < |handed| ==> handed[m].1 != handed[n].1
    ensures LastHanded(handed, k) == Some(doc) <==> !exists j :: Follows(handed, k, doc, i, j)
  {
    var n := |handed| - 1;
    if handed[n].0 == k {
      assert i < n ==> Follows(handed, k, doc, i, n);
    } else {
      var before := handed[..n];
      LastHandedIff(before, k, doc, i);
      if j :| Follows(before, k, doc, i, j) { assert Follows(handed, k, doc, i, j); }
      if j :| Follows(handed, k, doc, i, j) { assert Follows(before, k, doc, i, j); }
    }
  }

  ghost predicate HistoryOk(s: State) {
    && (forall i :: 0 <= i < |s.handed| ==> s.handed[i].1 in s.minted)
    && (forall i, j :: 0 <= i < j < |s.handed| ==> s.handed[i].1 != s.handed[j].1)
    && (forall p :: p in s.recorded ==> p in s.handed)
  }

  /** No hand-over of a row after that of the document it awaits has been recorded. */
  ghost predicate AwaitedOk(s: State, k: Key) {
    k in s.rows && s.rows[k].awaitingAck.Some? ==>
      forall i, j :: Follows(s.handed, k, s.rows[k].awaitingAck.value, i, j) ==> s.handed[j] !in s.recorded
  }

  /** What the worker is about to record is the last hand-over, and not yet recorded. */
  ghost predicate WritingOk(s: State) {
    (s.worker.Settling? || s.worker.Rewriting?) && s.worker.next.awaitingAck.Some? ==>
      var p := (s.worker.key, s.worker.next.awaitingAck.value);
      |s.handed| > 0 && s.handed[|s.handed| - 1] == p && p !in s.recorded
  }

  ghost predicate HandInv(s: State) {
    HistoryOk(s) && WritingOk(s) && forall k :: AwaitedOk(s, k)
  }

  lemma HandOverKeepsHand(s: State, doc: string)
    requires HandInv(s) && Enabled(s, HandedOver(doc))
    ensures HandInv(Next(s, HandedOver(doc)))
  {
    var t := Next(s, HandedOver(doc));
    assert forall p :: p in s.recorded ==> p in s.handed;
    assert (s.worker.key, doc) !in s.recorded;
    forall k ensures AwaitedOk(t, k) {
      assert AwaitedOk(s, k);
      if k in t.rows && t.rows[k].awaitingAck.Some? {
        var awaited := t.rows[k].awaitingAck.value;
        forall i, j | Follows(t.handed, k, awaited, i, j) ensures t.handed[j] !in t.recorded {
          if j < |s.handed| { assert Follows(s.handed, k, awaited, i, j); }
        }
      }
    }
  }

  lemma WriteKeepsHand(s: State)
    requires HandInv(s) && Enabled(s, WriteRow)
    ensures HandInv(Next(s, WriteRow))
  {
    var t := Next(s, WriteRow);
    var key, next := s.worker.key, s.worker.next.awaitingAck;
    forall k ensures AwaitedOk(t, k) {
      assert AwaitedOk(s, k);
      if k in t.rows && t.rows[k].awaitingAck.Some? {
        var awaited := t.rows[k].awaitingAck.value;
        forall i, j | Follows(t.handed, k, awaited, i, j) ensures t.handed[j] !in t.recorded {
          if k != key { assert Follows(s.handed, k, awaited, i, j); }
        }
      }
    }
  }

  lemma OtherKeepsHistory(s: State, e: Event, k: Key)
    requires Inv(s) && Enabled(s, e) && !e.HandedOver? && !e.WriteRow?
    ensures
      var t := Next(s, e);
      && t.handed == s.handed && t.recorded == s.recorded && t.minted == s.minted
      && (k in t.rows && t.rows[k].awaitingAck.Some? ==> k in s.rows && t.rows[k] == s.rows[k])
  {
    assert PendingOk(s, k);
  }

  /** Steps that hand nothing over and record nothing. */
  lemma OtherKeepsHand(s: State, e: Event)
    requires Inv(s) && HandInv(s) && Enabled(s, e) && !e.HandedOver? && !e.WriteRow?
    ensures HandInv(Next(s, e))
  {
    var t := Next(s, e);
    forall k ensures AwaitedOk(t, k) {
      assert AwaitedOk(s, k);
      OtherKeepsHistory(s, e, k);
    }
    OtherKeepsHistory(s, e, Key("", 0, ""));
  }

  lemma StepKeepsHand(s: State, e: Event)
    requires Inv(s) && HandInv(s) && Enabled(s, e)
    ensures HandInv(Next(s, e))
  {
    match e
    case HandedOver(doc) => HandOverKeepsHand(s, doc);
    case WriteRow => WriteKeepsHand(s);
    case _ => OtherKeepsHand(s, e);
  }

  lemma {:induction false} RunKeepsHand(s: State, run: seq<Event>)
    requires Inv(s) && HandInv(s) && Legal(s, run)
    ensures HandInv(Exec(s, run))
    decreases run
  {
    if run != [] {
      StepKeepsInv(s, run[0]);
      StepKeepsHand(s, run[0]);
      RunKeepsHand(Next(s, run[0]), run[1..]);
    }
  }

  /** In every reachable state, the document a row awaits is the last one handed over for it
      exactly when the last one handed over has been recorded: a hand-over in flight, or one
      a restart cut short, comes after the document the row awaits. */
  lemma AwaitedIsLastIff(run: seq<Event>, k: Key)
    requires Legal(START, run)
    requires k in Exec(START, run).rows && Exec(START, run).rows[k].awaitingAck.Some?
    ensures
      var s := Exec(START, run);
      LastHanded(s.handed, k) == s.rows[k].awaitingAck
      <==> LastHanded(s.handed, k).Some? && (k, LastHanded(s.handed, k).value) in s.recorded
  {
    var s := Exec(START, run);
    StartsGood();
    RunKeepsInv(START, run);
    RunKeepsHand(START, run);
    var doc := s.rows[k].awaitingAck.value;
    assert RowOk(s, k) && AwaitedOk(s, k);
    var i :| 0 <= i < |s.handed| && s.handed[i] == (k, doc);
    LastHandedIff(s.handed, k, doc, i);
    LastIsHanded(s.handed, k, i);
    var j :| 0 <= j < |s.handed| && s.handed[j] == (k, LastHanded(s.handed, k).value);
    var last := LastHanded(s.handed, k).value;
    LastHandedIff(s.handed, k, last, j);
    assert j < i ==> Follows(s.handed, k, last, j, i);
    assert i < j ==> Follows(s.handed, k, doc, i, j);
  }

  lemma {:induction false} LastIsHanded(handed: seq<(Key, string)>, k: Key, i: nat)
    requires i < |handed| && handed[i].0 == k
    ensures LastHanded(handed, k).Some? && (k, LastHanded(handed, k).value) in handed
  {
    var n := |handed| - 1;
    if handed[n].0 == k {
      assert handed[n] == (k, LastHanded(handed, k).value);
    } else {
      LastIsHanded(handed[..n], k, i);
    }
  }

  // ---------------------------------------------------------------------
  // Is the acknowledged document the last one?
  // ---------------------------------------------------------------------

  /** No step of the run hands the row over. */
  ghost predicate NotHandedOver(s: State, run: seq<Event>, k: Key)
    requires Legal(s, run)
    decreases run
  {
    run != [] ==>
      && (run[0].HandedOver? ==> s.worker.key != k)
      && NotHandedOver(Next(s, run[0]), run[1..], k)
  }

  lemma HandOverMovesLast(s: State, e: Event, k: Key)
    requires Enabled(s, e)
    ensures
      LastHanded(Next(s, e).handed, k)
      == if e.HandedOver? && s.worker.key == k then Some(e.doc) else LastHanded(s.handed, k)
  {
    if e.HandedOver? {
      assert (s.handed + [(s.worker.key, e.doc)])[..|s.handed|] == s.handed;
    }
  }

  /** Over any run, a document sent earlier is the last one handed over for its row at the
      end exactly when it was at the start and the row has not been handed over since. A
      re-send that fails, or any other write to the row, makes no difference. */
  lemma {:induction false} StaysLastIff(s: State, run: seq<Event>, k: Key, doc: string)
    requires Legal(s, run) && doc in s.minted
    ensures LastHanded(Exec(s, run).handed, k) == Some(doc)
       <==> LastHanded(s.handed, k) == Some(doc) && NotHandedOver(s, run, k)
    decreases run
  {
    if run != [] {
      HandOverMovesLast(s, run[0], k);
      StaysLastIff(Next(s, run[0]), run[1..], k, doc);
    }
  }

  /** So the acknowledgement a removal acts on is of the document last handed over exactly
      when that document was the last one when the acknowledger read, and the row has not
      been handed over again. */
  lemma AckIsLastIff(s: State, read: Event, run: seq<Event>)
    requires Inv(s) && read.ReadAck? && Legal(s, [read] + run)
    ensures
      var t := Exec(s, [read] + run);
      LastHanded(t.handed, read.key) == Some(read.doc)
      <==> LastHanded(s.handed, read.key) == Some(read.doc) && NotHandedOver(s, [read] + run, read.key)
  {
    assert Enabled(s, ([read] + run)[0]);
    assert RowOk(s, read.key);
    StaysLastIff(s, [read] + run, read.key, read.doc);
  }

  // ---------------------------------------------------------------------
  // Awaited and last come apart
  // ---------------------------------------------------------------------

  /** A row is sent as "d1", times out, and is handed over as "d2"; the acknowledger of "d1"
      reads before that is recorded. */
  function Unrecorded(k: Key, rest: seq<Event>): seq<Event> {
    var first := Queued("m", "b", 0);
    var again := [Advance(60)] + ([BeginTarget(k.target, 60, [Item(k, Sent(first, "d1", 0))])] + ([SendHead]
               + ([HandedOver("d2")] + ([ReadAck(k, k.target, "d1")] + rest))));
    [MakeKey(k, "m", "b")] + ([InsertRow(k)] + SendOnce(k, first, "d1", 0, again))
  }

  function AfterUnrecorded(k: Key): State {
    var seen := Sent(Queued("m", "b", 0), "d1", 0);
    AfterFirst(k).(worker := Settling(k, seen, Sent(seen, "d2", 60)), intents := {AckOf(k, k.target, "d1", seen)},
                   clock := 60, minted := {"d1", "d2"}, sends := [k, k], handed := [(k, "d1"), (k, "d2")])
  }

  lemma UnrecordedLeadsTo(k: Key, rest: seq<Event>)
    requires Legal(AfterUnrecorded(k), rest)
    ensures Legal(START, Unrecorded(k, rest)) && Exec(START, Unrecorded(k, rest)) == Exec(AfterUnrecorded(k), rest)
  {
    var seen := Sent(Queued("m", "b", 0), "d1", 0);
    var todo := [Item(k, seen)];
    assert "d1"[1] != "d2"[1];
    var s1 := AfterFirst(k);
    var s2 := s1.(clock := 60);
    var s3 := s2.(worker := Scanning(k.target, 60, todo));
    var s4 := s2.(worker := Delivering(k, seen), sends := [k, k]);
    var s5 := AfterUnrecorded(k).(intents := {});
    assert IsQueue(todo, s2.rows, k.target);
    assert [k] + [k] == [k, k] && [(k, "d1")] + [(k, "d2")] == [(k, "d1"), (k, "d2")];
    assert Next(s5, ReadAck(k, k.target, "d1")) == AfterUnrecorded(k);
    OneStep(s5, ReadAck(k, k.target, "d1"), rest);
    assert Next(s4, HandedOver("d2")) == s5;
    var late := [ReadAck(k, k.target, "d1")] + rest;
    OneStep(s4, HandedOver("d2"), late);
    assert Next(s3, SendHead) == s4;
    OneStep(s3, SendHead, [HandedOver("d2")] + late);
    OneStep(s2, BeginTarget(k.target, 60, todo), [SendHead] + ([HandedOver("d2")] + late));
    var again := [BeginTarget(k.target, 60, todo)] + ([SendHead] + ([HandedOver("d2")] + late));
    OneStep(s1, Advance(60), again);
    SendsFirst(k, [Advance(60)] + again);
  }

  /** The row is unwritten since the acknowledger read it, and awaits the document it read;
      yet another document is the last handed over, and the removal is carried out. */
  lemma UnrecordedResendIsRetired(target: string)
    ensures
      var k := Key(target, 0, "a");
      var ack := Retire(AckOf(k, target, "d1", Sent(Queued("m", "b", 0), "d1", 0)));
      && Legal(START, Unrecorded(k, []))
      && k in Exec(START, Unrecorded(k, [])).rows
      && Exec(START, Unrecorded(k, [])).rows[k].awaitingAck == Some("d1")
      && LastHanded(Exec(START, Unrecorded(k, [])).handed, k) == Some("d2")
      && Legal(START, Unrecorded(k, [ack])) && Exec(START, Unrecorded(k, [ack])).rows == map[]
  {
    var k := Key(target, 0, "a");
    var ack := Retire(AckOf(k, target, "d1", Sent(Queued("m", "b", 0), "d1", 0)));
    var t := AfterUnrecorded(k);
    UnrecordedLeadsTo(k, []);
    assert Enabled(t, ack) && Next(t, ack).rows == map[];
    OneStep(t, ack, []);
    assert [ack] + [] == [ack];
    UnrecordedLeadsTo(k, [ack]);
  }

  // ---------------------------------------------------------------------
  // Restarts and the budget
  // ---------------------------------------------------------------------

  /** One attempt that a restart cuts short before it is recorded, and what follows. */
  function Cut(k: Key, row: Row, rest: seq<Event>): seq<Event> {
    [BeginTarget(k.target, 0, [Item(k, row)])] + ([SendHead] + ([Restart] + rest))
  }

  function CutShort(k: Key, row: Row, n: nat): seq<Event> {
    if n == 0 then [] else Cut(k, row, CutShort(k, row, n - 1))
  }

  function AfterCut(s: State, k: Key): State {
    s.(pending := map[], worker := Idle, intents := {}, sends := s.sends + [k], lost := s.lost + multiset{k})
  }

  lemma CutOnce(s: State, k: Key, row: Row, rest: seq<Event>)
    requires s.rows == map[k := row] && s.worker.Idle? && !OverBudget(row, 0) && row.nextAttemptAt == 0
    requires Legal(AfterCut(s, k), rest)
    ensures Legal(s, Cut(k, row, rest)) && Exec(s, Cut(k, row, rest)) == Exec(AfterCut(s, k), rest)
  {
    var todo := [Item(k, row)];
    var a := s.(worker := Scanning(k.target, 0, todo));
    var b := s.(worker := Delivering(k, row), sends := s.sends + [k]);
    assert Next(b, Restart) == AfterCut(s, k);
    OneStep(b, Restart, rest);
    assert Next(a, SendHead) == b;
    OneStep(a, SendHead, [Restart] + rest);
    assert IsQueue(todo, s.rows, k.target);
    OneStep(s, BeginTarget(k.target, 0, todo), [SendHead] + ([Restart] + rest));
  }

  function AfterCuts(s: State, k: Key, n: nat): State
    decreases n
  {
    if n == 0 then s else AfterCuts(AfterCut(s, k), k, n - 1)
  }

  lemma {:induction false} CutShortLeadsTo(s: State, k: Key, row: Row, n: nat)
    requires s.rows == map[k := row] && s.worker.Idle? && !OverBudget(row, 0) && row.nextAttemptAt == 0
    ensures Legal(s, CutShort(k, row, n)) && Exec(s, CutShort(k, row, n)) == AfterCuts(s, k, n)
    decreases n
  {
    if n > 0 {
      var t, rest := AfterCut(s, k), CutShort(k, row, n - 1);
      assert t.rows == s.rows && t.worker.Idle?;
      CutShortLeadsTo(t, k, row, n - 1);
      CutOnce(s, k, row, rest);
    }
  }

  lemma {:induction false} CutsCount(s: State, k: Key, n: nat)
    ensures AfterCuts(s, k, n).rows == s.rows && Count(AfterCuts(s, k, n).sends, k) == Count(s.sends, k) + n
    decreases n
  {
    if n > 0 {
      CountAppend(s.sends, k, k);
      CutsCount(AfterCut(s, k), k, n - 1);
    }
  }

  /** Restarts take sends off the books: a row may be sent any number of times and still have
      its whole budget. */
  lemma RestartsExceedBudget(target: string, n: nat)
    ensures
      var k, row := Key(target, 0, "a"), Queued("m", "b", 0);
      var run := [MakeKey(k, "m", "b")] + ([InsertRow(k)] + CutShort(k, row, n));
      && Legal(START, run) && Count(Exec(START, run).sends, k) == n
      && Exec(START, run).rows == map[k := row] && row.attempts == 0
  {
    var k, row := Key(target, 0, "a"), Queued("m", "b", 0);
    var s1 := START.(pending := map[k := row]);
    var s2 := START.(rows := map[k := row], ever := {k});
    CutShortLeadsTo(s2, k, row, n);
    CutsCount(s2, k, n);
    assert Next(s1, InsertRow(k)) == s2 && Next(START, MakeKey(k, "m", "b")) == s1;
    OneStep(s1, InsertRow(k), CutShort(k, row, n));
    OneStep(START, MakeKey(k, "m", "b"), [InsertRow(k)] + CutShort(k, row, n));
  }
}
