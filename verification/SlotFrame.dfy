/** What a call leaves alone (did-hosting-control/src/did_ops.rs:272-323, 340-2045). */
module SlotFrame {
  import opened Common
  import opened SlotStore
  import opened SlotInvariant
  import opened NameOwnership

  /** The slot a call rewrites, if any. */
  function Target(s: Store, c: Call): Option<string> {
    match c.op
    case OpCreate(path, drawn, force) =>
      (match ResolvePath(s, c.auth, path, drawn, force) case Ok(m) => Some(m) case Err(_) => None)
    case _ => Some(c.op.slot)
  }

  /** The stores agree on a slot. */
  predicate SameSlot(s: Store, t: Store, m: string) {
    && Find(s.records, m) == Find(t.records, m) && Find(s.logs, m) == Find(t.logs, m)
    && Find(s.proofs, m) == Find(t.proofs, m)
  }

  lemma CommitElsewhere(h: Host, s: Store, b: Batch, m: string)
    requires b.slot != m
    ensures SameSlot(s, Commit(h, s, b), m)
  {
  }

  lemma CreateElsewhere(h: Host, s: Store, c: Call, m: string)
    requires c.op.OpCreate? && Target(s, c) != Some(m) && Do(h, s, c).error.None?
    ensures SameSlot(s, Do(h, s, c).store, m)
  {
    CreateIsAllOrNothing(h, s, c.auth, c.op.path, c.op.drawn, c.op.force, c.now);
    var n := ResolvePath(s, c.auth, c.op.path, c.op.drawn, c.op.force).value;
    CommitElsewhere(h, s, if n in s.records then Replacing(s, c.auth, n, c.now) else Reserving(c.auth, n, c.now), m);
  }

  /** A call changes the record, log and witness file of no slot but its own. */
  lemma OffTargetStays(h: Host, s: Store, c: Call, m: string)
    requires Target(s, c) != Some(m)
    ensures SameSlot(s, Do(h, s, c).store, m)
  {
    if Do(h, s, c).error.Some? {
      RefusalChangesNothing(h, s, c);
    } else if c.op.OpCreate? {
      CreateElsewhere(h, s, c, m);
    } else {
      BatchOfCall(h, s, c);
      CommitElsewhere(h, s, Decide(h, s, c).value, m);
    }
  }
}
