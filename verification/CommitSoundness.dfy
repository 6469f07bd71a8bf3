/** When a batch, however it was decided on, may be committed to a store
    (did-hosting-control/src/did_ops.rs:716-739, 1117-1133, 1367-1382). */
module CommitSoundness {
  import opened Common
  import opened Paths
  import opened AgentNames
  import opened SlotStore
  import opened SlotInvariant

  function RecordAt(s: Store, m: string): Option<Record> {
    Find(s.records, m)
  }

  /** The owners that have a key for the slot once the batch has committed. */
  function OwnersLeft(s: Store, b: Batch): set<string> {
    (if b.slot in s.records && b.dropOwner != Some(s.records[b.slot].owner) then {s.records[b.slot].owner} else {})
    + (if b.putOwner.Some? then {b.putOwner.value} else {})
  }

  /** Exactly the record's owner has a key for the slot, and none if the record is gone. */
  predicate OwnersMatch(h: Host, s: Store, b: Batch) {
    match RecordAt(Commit(h, s, b), b.slot)
    case None => OwnersLeft(s, b) == {}
    case Some(r) => OwnersLeft(s, b) == {r.owner}
  }

  /** What the record lists is not released, and is claimed or already indexed to it. */
  ghost predicate ListedStays(h: Host, s: Store, b: Batch, e: NameEntry) {
    Lists(h, s, b, e) ==>
      e.name !in b.released && (e.name in b.claimed || Held(s.names, h.domainOf(b.slot), e.name, b.slot))
  }

  /** Another slot registers a name the batch claims or releases. */
  ghost predicate Disturbs(h: Host, s: Store, b: Batch, m: string, e: NameEntry) {
    && (e.name in b.claimed || e.name in b.released)
    && m != b.slot && Registers(h, s, m, e, (h.domainOf(b.slot), e.name))
  }

  /** The batch fits the slot as it is in this store, and disturbs no other. */
  ghost predicate SoundHere(h: Host, s: Store, b: Batch) {
    && ShapeFits(h, s, b) && OwnersMatch(h, s, b)
    && (forall e :: ListedStays(h, s, b, e))
    && (forall m, e :: !Disturbs(h, s, b, m, e))
  }

  lemma OwnKeysDiffer(did: string, other: string, m: string)
    requires OwnerKey(did, m) == OwnerKey(other, m)
    ensures did == other
  {
    var k := OwnerKey(did, m);
    assert |did| == |other|;
    assert did == k[6..6 + |did|] == other;
  }

  /** Which keys of the slot are there after the commit. */
  lemma OwnersAre(h: Host, s: Store, b: Batch, did: string)
    requires Inv(h, s)
    ensures Find(Reowned(s.owners, b), OwnerKey(did, b.slot)) == Some(b.slot) <==> did in OwnersLeft(s, b)
  {
    var m, key := b.slot, OwnerKey(did, b.slot);
    assert SlotOk(s, m) && OwnerRowOk(s, key);
    if Find(s.owners, key) == Some(m) { OwnKeysDiffer(did, s.records[m].owner, m); }
    if b.putOwner.Some? && key == OwnerKey(b.putOwner.value, m) { OwnKeysDiffer(did, b.putOwner.value, m); }
    if b.dropOwner.Some? && key == OwnerKey(b.dropOwner.value, m) { OwnKeysDiffer(did, b.dropOwner.value, m); }
  }

  lemma OwnSlotIsOk(h: Host, s: Store, b: Batch)
    requires Inv(h, s) && ShapeFits(h, s, b) && OwnersMatch(h, s, b)
    ensures SlotOk(Commit(h, s, b), b.slot)
  {
    var t := Commit(h, s, b);
    if b.slot in t.records { OwnersAre(h, s, b, t.records[b.slot].owner); }
  }

  lemma OtherSlotIsOk(h: Host, s: Store, b: Batch, m: string)
    requires Inv(h, s) && MnemonicOk(b.slot) && m != b.slot
    ensures SlotOk(Commit(h, s, b), m)
  {
    assert SlotOk(s, m);
    if m in s.records { OtherOwnerKeys(s, b, m, s.records[m].owner); }
  }

  lemma RowIsOk(h: Host, s: Store, b: Batch, key: string)
    requires Inv(h, s) && OwnersMatch(h, s, b)
    ensures OwnerRowOk(Commit(h, s, b), key)
  {
    var m, t := b.slot, Commit(h, s, b);
    assert OwnerRowOk(s, key) && SlotOk(s, m);
    if key in t.owners {
      if t.owners[key] == m {
        var put := b.putOwner.Some? && key == OwnerKey(b.putOwner.value, m);
        var did := if put then b.putOwner.value else s.records[m].owner;
        assert key == OwnerKey(did, m);
        OwnersAre(h, s, b, did);
      }
    }
  }

  lemma NameIsOkIff(h: Host, s: Store, b: Batch, m: string, e: NameEntry)
    requires Inv(h, s)
    ensures NameOk(h, Commit(h, s, b), m, e) <==>
        if m == b.slot then ListedStays(h, s, b, e) else !Disturbs(h, s, b, m, e)
  {
    assert NameOk(h, s, m, e);
    IndexAt(h, s, b, (h.domainOf(m), e.name));
  }

  lemma NameRowIsOk(h: Host, s: Store, b: Batch, key: (string, string))
    requires Inv(h, s)
    ensures NameRowOk(h, Commit(h, s, b), key)
  {
    assert NameRowOk(h, s, key);
    IndexAt(h, s, b, key);
  }

  lemma SoundBatchCommits(h: Host, s: Store, b: Batch)
    requires Inv(h, s) && MnemonicOk(b.slot) && SoundHere(h, s, b)
    ensures Inv(h, Commit(h, s, b))
  {
    var t := Commit(h, s, b);
    OwnSlotIsOk(h, s, b);
    forall m ensures SlotOk(t, m) { if m != b.slot { OtherSlotIsOk(h, s, b, m); } }
    forall key ensures OwnerRowOk(t, key) { RowIsOk(h, s, b, key); }
    forall m, e ensures NameOk(h, t, m, e) { NameIsOkIff(h, s, b, m, e); }
    forall key ensures NameRowOk(h, t, key) { NameRowIsOk(h, s, b, key); }
  }

  lemma OwnersMustMatch(h: Host, s: Store, b: Batch)
    requires Inv(h, s) && Inv(h, Commit(h, s, b))
    ensures OwnersMatch(h, s, b)
  {
    var m, t := b.slot, Commit(h, s, b);
    assert SlotOk(t, m);
    forall did | did in OwnersLeft(s, b) ensures m in t.records && did == t.records[m].owner {
      OwnersAre(h, s, b, did);
      assert OwnerRowOk(t, OwnerKey(did, m));
      OwnKeysDiffer(did, t.records[m].owner, m);
    }
    if m in t.records {
      OwnersAre(h, s, b, t.records[m].owner);
      assert OwnersLeft(s, b) == {t.records[m].owner};
    } else {
      assert OwnersLeft(s, b) == {};
    }
  }

  lemma CommittedWasSound(h: Host, s: Store, b: Batch)
    requires Inv(h, s) && Inv(h, Commit(h, s, b))
    ensures SoundHere(h, s, b)
  {
    var t := Commit(h, s, b);
    assert SlotOk(t, b.slot);
    OwnersMustMatch(h, s, b);
    forall e ensures ListedStays(h, s, b, e) {
      assert NameOk(h, t, b.slot, e);
      NameIsOkIff(h, s, b, b.slot, e);
    }
    forall m, e ensures !Disturbs(h, s, b, m, e) {
      assert NameOk(h, t, m, e);
      NameIsOkIff(h, s, b, m, e);
    }
  }

  /** Exactly: a batch, whatever store it was decided on, keeps records, logs, witness files
      and both indexes in agreement if and only if it fits its slot as it now is and disturbs
      no other slot's names. */
  lemma CommitIsSoundIff(h: Host, s: Store, b: Batch)
    requires Inv(h, s) && MnemonicOk(b.slot)
    ensures Inv(h, Commit(h, s, b)) <==> SoundHere(h, s, b)
  {
    if SoundHere(h, s, b) {
      SoundBatchCommits(h, s, b);
    }
    if Inv(h, Commit(h, s, b)) {
      CommittedWasSound(h, s, b);
    }
  }
}
