/** Name to DID and DID to names (did-hosting-control/src/did_ops.rs:2241-2371). */
module Lookup {
  import opened Common
  import opened AgentNames
  import opened SlotStore
  import opened SlotInvariant
  import opened StoringCalls
  import opened NameOwnership

  predicate Live(r: Record) {
    !r.disabled && r.deletedAt.None?
  }

  predicate Serves(names: seq<NameEntry>, n: string) {
    exists e :: e in names && e.name == n && e.enabled
  }

  /** The DID a name resolves to, through the index. */
  function ResolveName(s: Store, domain: string, given: string): Option<string> {
    var key := (domain, Bare(given));
    if key !in s.names || s.names[key] !in s.records then None
    else
      var r := s.records[s.names[key]];
      if Live(r) && Serves(r.names, Bare(given)) then r.didId else None
  }

  function ServedNames(names: seq<NameEntry>): seq<string> {
    if names == [] then []
    else (if names[0].enabled then [names[0].name] else []) + ServedNames(names[1..])
  }

  lemma {:induction false} ServedNamesAre(names: seq<NameEntry>, n: string)
    ensures n in ServedNames(names) <==> Serves(names, n)
  {
    if names != [] {
      ServedNamesAre(names[1..], n);
      if Serves(names[1..], n) {
        var e :| e in names[1..] && e.name == n && e.enabled;
        assert e in names;
      }
      if Serves(names, n) {
        var e :| e in names && e.name == n && e.enabled;
        assert e == names[0] || e in names[1..];
      }
    }
  }

  /** Slot `m` is live, holds this very DID, and the reader may read it. */
  predicate Readable(s: Store, reader: Auth, did: string, m: string) {
    && m in s.records && s.records[m].didId == Some(did) && Live(s.records[m])
    && (reader.admin || s.records[m].owner == reader.did)
  }

  /** The names a DID serves, read from the slot the DID maps to. */
  function NamesOf(h: Host, s: Store, reader: Auth, did: string): seq<string> {
    match h.slotOf(did)
    case None => []
    case Some(m) => if Readable(s, reader, did, m) then ServedNames(s.records[m].names) else []
  }

  const MAX_RESOLVE_DIDS: nat := 64

  /** What the answer holds for one DID: its names, if it was asked for and has any. */
  function AnswerAt(h: Host, s: Store, reader: Auth, dids: seq<string>, did: string): Option<seq<string>> {
    var names := NamesOf(h, s, reader, did);
    if did in dids && names != [] then Some(names) else None
  }

  ghost predicate Answers(h: Host, s: Store, reader: Auth, dids: seq<string>, out: map<string, seq<string>>) {
    forall did :: Find(out, did) == AnswerAt(h, s, reader, dids, did)
  }

  /** The batch form: a DID without names is left out, a repeated one read once. */
  method ResolveAgentNames(h: Host, s: Store, reader: Auth, dids: seq<string>)
    returns (r: Option<map<string, seq<string>>>)
    ensures r.None? <==> |dids| > 64
    ensures r.Some? ==> Answers(h, s, reader, dids, r.value)
  {
    if |dids| > MAX_RESOLVE_DIDS {
      return None;
    }
    var out: map<string, seq<string>> := map[];
    for i := 0 to |dids|
      invariant Answers(h, s, reader, dids[..i], out)
    {
      var did := dids[i];
      assert dids[..i + 1] == dids[..i] + [did];
      assert Find(out, did) == AnswerAt(h, s, reader, dids[..i], did);
      if did !in out {
        var names := AnswerFor(h, s, reader, did);
        if names != [] {
          out := out[did := names];
        }
      }
      forall other ensures Find(out, other) == AnswerAt(h, s, reader, dids[..i + 1], other) {
        assert other != did ==>
            AnswerAt(h, s, reader, dids[..i + 1], other) == AnswerAt(h, s, reader, dids[..i], other);
      }
    }
    assert dids[..|dids|] == dids;
    return Some(out);
  }

  method AnswerFor(h: Host, s: Store, reader: Auth, did: string) returns (names: seq<string>)
    ensures names == NamesOf(h, s, reader, did)
  {
    names := [];
    var slot := h.slotOf(did);
    if slot.None? || !Readable(s, reader, did, slot.value) {
      return;
    }
    var entries := s.records[slot.value].names;
    ghost var all := ServedNames(entries);
    while entries != []
      invariant all == names + ServedNames(entries)
    {
      if entries[0].enabled {
        names := names + [entries[0].name];
      }
      entries := entries[1..];
    }
  }

  // ---------------------------------------------------------------------
  // Do the two directions agree?
  // ---------------------------------------------------------------------

  /** A name as the registry stores it. */
  predicate IsBare(n: string) {
    Bare(n) == n
  }

  /** Another live slot on the domain holds the same DID and serves the name. */
  ghost predicate ServedElsewhere(h: Host, s: Store, did: string, m: string, n: string, other: string) {
    && other in s.records && other != m && h.domainOf(other) == h.domainOf(m)
    && s.records[other].didId == Some(did) && Live(s.records[other]) && Serves(s.records[other].names, n)
  }

  /** What a name that some slot serves resolves to: that slot's DID. */
  lemma ServedNameResolves(h: Host, s: Store, m: string, n: string)
    requires Inv(h, s) && IsBare(n) && m in s.records && Live(s.records[m]) && Serves(s.records[m].names, n)
    ensures ResolveName(s, h.domainOf(m), n) == s.records[m].didId
    ensures Holder(s.names, (h.domainOf(m), n)) == Some(m)
  {
    var e :| e in s.records[m].names && e.name == n && e.enabled;
    assert NameOk(h, s, m, e);
  }

  /** Listed for the DID means it resolves to the DID, always. */
  lemma ListedResolves(h: Host, s: Store, reader: Auth, did: string, m: string, n: string)
    requires Inv(h, s) && IsBare(n) && h.slotOf(did) == Some(m) && n in NamesOf(h, s, reader, did)
    ensures ResolveName(s, h.domainOf(m), n) == Some(did)
  {
    ServedNamesAre(s.records[m].names, n);
    ServedNameResolves(h, s, m, n);
  }

  /** For a live slot whose DID maps back to it, the two directions agree on a name, to an
      administrator, exactly when no other live slot of the domain holds the same DID and
      serves that name. */
  lemma DirectionsAgreeIff(h: Host, s: Store, reader: Auth, did: string, m: string, n: string)
    requires Inv(h, s) && IsBare(n) && reader.admin
    requires h.slotOf(did) == Some(m) && m in s.records && s.records[m].didId == Some(did) && Live(s.records[m])
    ensures (n in NamesOf(h, s, reader, did) <==> ResolveName(s, h.domainOf(m), n) == Some(did))
       <==> !exists other :: ServedElsewhere(h, s, did, m, n, other)
  {
    ServedNamesAre(s.records[m].names, n);
    if Serves(s.records[m].names, n) {
      ServedNameResolves(h, s, m, n);
    }
    forall other | ServedElsewhere(h, s, did, m, n, other)
      ensures ResolveName(s, h.domainOf(m), n) == Some(did) && !Serves(s.records[m].names, n)
    {
      ServedNameResolves(h, s, other, n);
    }
    if ResolveName(s, h.domainOf(m), n) == Some(did) && !Serves(s.records[m].names, n) {
      var other := s.names[(h.domainOf(m), n)];
      assert NameRowOk(h, s, (h.domainOf(m), n));
      assert ServedElsewhere(h, s, did, m, n, other);
    }
  }

  /** Every slot holds the DID that maps to it. */
  ghost predicate InPlace(h: Host, s: Store, m: string) {
    m in s.records && s.records[m].didId.Some? ==> h.slotOf(s.records[m].didId.value) == Some(m)
  }

  ghost predicate AllInPlace(h: Host, s: Store) {
    forall m :: InPlace(h, s, m)
  }

  /** Where every slot holds its own DID, the directions agree on every name. */
  lemma InPlaceAgrees(h: Host, s: Store, reader: Auth, did: string, m: string, n: string)
    requires Inv(h, s) && AllInPlace(h, s) && IsBare(n) && reader.admin
    requires h.slotOf(did) == Some(m) && m in s.records && s.records[m].didId == Some(did) && Live(s.records[m])
    ensures n in NamesOf(h, s, reader, did) <==> ResolveName(s, h.domainOf(m), n) == Some(did)
  {
    DirectionsAgreeIff(h, s, reader, did, m, n);
    forall other ensures !ServedElsewhere(h, s, did, m, n, other) {
      assert InPlace(h, s, other);
    }
  }

  /** A call whose log names the DID of the slot it is put in. */
  predicate NamesOwnDid(h: Host, s: Store, c: Call) {
    match c.op
    case OpPublish(slot, log) => OwnDid(h, DidIdOf(h.lib, log), slot)
    case OpName(slot, _, log, _) => OwnDid(h, DidIdOf(h.lib, log), slot)
    case OpRollBack(slot, target) =>
      slot in s.logs && Cuts(s.logs[slot], target) ==> OwnDid(h, DidIdOf(h.lib, CutLog(s.logs[slot], target)), slot)
    case _ => true
  }

  predicate OwnDid(h: Host, didId: Option<string>, slot: string) {
    didId.Some? ==> h.slotOf(didId.value) == Some(slot)
  }

  lemma WriteInPlaceIff(h: Host, s: Store, c: Call)
    requires StoresLog(c.op) && Decide(h, s, c).Ok?
    ensures InPlace(h, Do(h, s, c).store, c.op.slot) <==> NamesOwnDid(h, s, c)
  {
    CallStores(h, s, c);
  }

  lemma OtherCallInPlace(h: Host, s: Store, c: Call)
    requires c.op.OpUpload? || c.op.OpChangeOwner? || c.op.OpDisable? || c.op.OpDelete?
    requires Decide(h, s, c).Ok? && InPlace(h, s, c.op.slot)
    ensures InPlace(h, Do(h, s, c).store, c.op.slot)
  {
  }

  lemma RollBackInPlaceIff(h: Host, s: Store, c: Call)
    requires c.op.OpRollBack? && Decide(h, s, c).Ok? && InPlace(h, s, c.op.slot)
    ensures InPlace(h, Do(h, s, c).store, c.op.slot) <==> NamesOwnDid(h, s, c)
  {
  }

  lemma OwnSlotInPlaceIff(h: Host, s: Store, c: Call)
    requires AllInPlace(h, s) && !c.op.OpCreate? && Decide(h, s, c).Ok?
    ensures InPlace(h, Do(h, s, c).store, c.op.slot) <==> NamesOwnDid(h, s, c)
  {
    if StoresLog(c.op) {
      WriteInPlaceIff(h, s, c);
    } else {
      assert InPlace(h, s, c.op.slot);
      if c.op.OpRollBack? { RollBackInPlaceIff(h, s, c); } else { OtherCallInPlace(h, s, c); }
    }
  }

  lemma OtherSlotsInPlace(h: Host, s: Store, b: Batch, m: string)
    requires AllInPlace(h, s) && m != b.slot
    ensures InPlace(h, Commit(h, s, b), m)
  {
    assert InPlace(h, s, m);
  }

  /** Only a register checks the DID's path. A slot stays in place under the other
      writers exactly when the log they leave names the slot's own DID. */
  lemma StaysInPlaceIff(h: Host, s: Store, c: Call)
    requires AllInPlace(h, s)
    ensures Do(h, s, c).error.None? ==> (AllInPlace(h, Do(h, s, c).store) <==> NamesOwnDid(h, s, c))
  {
    var t := Do(h, s, c).store;
    if Do(h, s, c).error.Some? {
      return;
    }
    if c.op.OpCreate? {
      CreateIsAllOrNothing(h, s, c.auth, c.op.path, c.op.drawn, c.op.force, c.now);
      var m := ResolvePath(s, c.auth, c.op.path, c.op.drawn, c.op.force).value;
      var b := if m in s.records then Replacing(s, c.auth, m, c.now) else Reserving(c.auth, m, c.now);
      forall n | n != m ensures InPlace(h, t, n) { OtherSlotsInPlace(h, s, b, n); }
    } else {
      OwnSlotInPlaceIff(h, s, c);
      BatchOfCall(h, s, c);
      forall n | n != c.op.slot ensures InPlace(h, t, n) { OtherSlotsInPlace(h, s, Decide(h, s, c).value, n); }
    }
  }

  // ---------------------------------------------------------------------
  // What is found, on the records
  // ---------------------------------------------------------------------

  /** The slot is neither disabled nor deleted, and lists the name enabled. */
  predicate Answering(r: Record, n: string) {
    !r.disabled && r.deletedAt == None && exists e :: e in r.names && e.name == n && e.enabled
  }

  /** A name resolves to a DID exactly when the slot that the index gives for it is there, answers
      for the name, and holds the DID. */
  lemma ResolvesMeans(s: Store, domain: string, n: string, did: string)
    requires n == "" || n[0] != '@'
    ensures ResolveName(s, domain, n) == Some(did) <==>
      && (domain, n) in s.names && s.names[(domain, n)] in s.records
      && var r := s.records[s.names[(domain, n)]];
         Answering(r, n) && r.didId == Some(did)
  {
  }

  /** A reader is told a name of a DID exactly when the slot the DID maps to holds that DID, answers
      for the name, and is the reader's own, or the reader is an administrator. */
  lemma NamesOfMeans(h: Host, s: Store, reader: Auth, did: string, n: string)
    ensures n in NamesOf(h, s, reader, did) <==>
      && h.slotOf(did).Some? && h.slotOf(did).value in s.records
      && var r := s.records[h.slotOf(did).value];
         r.didId == Some(did) && Answering(r, n) && (reader.admin || r.owner == reader.did)
  {
    if h.slotOf(did).Some? && h.slotOf(did).value in s.records {
      ServedNamesAre(s.records[h.slotOf(did).value].names, n);
    }
  }

  /** While a slot is disabled, no name it holds resolves and none is listed for its DID. */
  lemma DisabledIsSilent(h: Host, s: Store, m: string, domain: string, n: string, reader: Auth, did: string)
    requires Inv(h, s) && m in s.records && s.records[m].disabled && (n == "" || n[0] != '@')
    ensures Holder(s.names, (domain, n)) == Some(m) ==> ResolveName(s, domain, n) == None
    ensures h.slotOf(did) == Some(m) ==> NamesOf(h, s, reader, did) == []
  {
  }
}
