/** The slot store: records, logs, witness files, the `owner:` and `name:` indexes, and the
    operations that rewrite them (did-hosting-control/src/did_ops.rs).

    An operation decides on a batch from the store it reads; the batch commits whole. */
module SlotStore {
  import opened Common
  import opened Paths
  import opened LogText
  import opened WitnessFile
  import opened AgentNames
  import opened Rollback
  import Gates = LogGates

  datatype Record = Record(
    owner: string,
    createdAt: nat,
    updatedAt: nat,
    versions: nat,
    didId: Option<string>,
    size: nat,
    disabled: bool,
    deletedAt: Option<nat>,
    names: seq<NameEntry>)

  type Records = map<string, Record>

  /** Owner keys lead to mnemonics. */
  type Owners = map<string, string>

  datatype Store = Store(records: Records, logs: map<string, string>, proofs: map<string, Stored>, owners: Owners,
                         names: Index)

  const EMPTY := Store(map[], map[], map[], map[], map[])

  /** What the deployment fixes: the did:webvh library, the hosting domain of each slot,
      the agent names in a log's current document, and the slot a DID is served from. */
  datatype Host = Host(
    lib: Gates.Library,
    domainOf: string -> string,
    aliases: string -> seq<Alias>,
    slotOf: string -> Option<string>)

  /** The caller, with the quotas of its ACL entry, if any. */
  datatype Auth = Auth(did: string, admin: bool, maxCount: Option<nat>, maxSize: Option<nat>)

  // ---------------------------------------------------------------------
  // Batches
  // ---------------------------------------------------------------------

  datatype Change<+T> = Keep | Put(value: T) | Drop

  /** What one commit does to a slot, its owner keys and its names. */
  datatype Batch = Batch(
    slot: string,
    record: Change<Record>,
    log: Change<string>,
    proofs: Change<Stored>,
    dropOwner: Option<string>,
    putOwner: Option<string>,
    claimed: seq<string>,
    released: seq<string>)

  function Edit<T>(m: map<string, T>, k: string, c: Change<T>): map<string, T> {
    match c
    case Keep => m
    case Put(v) => m[k := v]
    case Drop => m - {k}
  }

  function Reowned(owners: Owners, b: Batch): Owners {
    var left := if b.dropOwner.Some? then owners - {OwnerKey(b.dropOwner.value, b.slot)} else owners;
    if b.putOwner.Some? then left[OwnerKey(b.putOwner.value, b.slot) := b.slot] else left
  }

  function Commit(h: Host, s: Store, b: Batch): Store {
    Store(Edit(s.records, b.slot, b.record), Edit(s.logs, b.slot, b.log), Edit(s.proofs, b.slot, b.proofs),
          Reowned(s.owners, b), Reindexed(s.names, h.domainOf(b.slot), b.slot, b.claimed, b.released))
  }

  // ---------------------------------------------------------------------
  // Reading a slot
  // ---------------------------------------------------------------------

  function Find<T>(m: map<string, T>, k: string): Option<T> {
    if k in m then Some(m[k]) else None
  }

  function SizeOf(log: Option<string>): nat {
    if log.Some? then |log.value| else 0
  }

  function EntryCount(log: Option<string>): nat {
    if log.Some? then |EntryLines(log.value)| else 0
  }

  /** The DID named by a log's last entry. */
  function DidIdOf(lib: Gates.Library, log: string): Option<string> {
    var lines := EntryLines(log);
    if lines == [] then None
    else
      match lib.parse(lines[|lines| - 1])
      case None => None
      case Some(e) => if e.didId.Some? && Gates.WEBVH <= e.didId.value then e.didId else None
  }

  /** The record, if the caller may write it. */
  function Authorized(s: Store, slot: string, auth: Auth): Result<Record, Error> {
    if !MnemonicOk(slot) then Err(InvalidPath)
    else if slot !in s.records then Err(NotFound)
    else if s.records[slot].owner != auth.did && !auth.admin then Err(Forbidden)
    else Ok(s.records[slot])
  }

  // ---------------------------------------------------------------------
  // Usage and quotas
  // ---------------------------------------------------------------------

  function OwnedBy(records: Records, did: string): set<string> {
    set m | m in records && records[m].owner == did
  }

  ghost function TotalSize(records: Records, slots: set<string>): nat
    requires slots <= records.Keys
  {
    if slots == {} then 0
    else var m :| m in slots; records[m].size + TotalSize(records, slots - {m})
  }

  /** What an owner's slots add up to. */
  ghost function Total(records: Records, did: string): nat {
    TotalSize(records, OwnedBy(records, did))
  }

  ghost predicate CountRefuses(s: Store, auth: Auth) {
    !auth.admin && auth.maxCount.Some? && |OwnedBy(s.records, auth.did)| >= auth.maxCount.value
  }

  ghost predicate SizeRefuses(s: Store, auth: Auth, oldSize: nat, newSize: nat) {
    !auth.admin && auth.maxSize.Some? && SatSub(Total(s.records, auth.did), oldSize) + newSize > auth.maxSize.value
  }

  // ---------------------------------------------------------------------
  // Creating a slot
  // ---------------------------------------------------------------------

  datatype Outcome = Outcome(store: Store, error: Option<Error>)

  /** The first free path drawn. */
  function FirstFree(s: Store, drawn: seq<string>): Option<string> {
    if drawn == [] then None
    else if drawn[0] !in s.records then Some(drawn[0])
    else FirstFree(s, drawn[1..])
  }

  /** Where the slot goes: a free path, or an occupied one the caller may replace. */
  function ResolvePath(s: Store, auth: Auth, path: Option<string>, drawn: seq<string>, force: bool)
    : Result<string, Error>
  {
    match path
    case None => (match FirstFree(s, drawn) case Some(m) => Ok(m) case None => Err(NoFreePath))
    case Some(m) =>
      if m == ROOT && !auth.admin then Err(Forbidden)
      else if !MnemonicOk(m) then Err(InvalidPath)
      else if m !in s.records then Ok(m)
      else if !force then Err(Conflict)
      else if s.records[m].owner != auth.did && !auth.admin then Err(Forbidden)
      else Ok(m)
  }

  /** The first commit of a force-replace: the old content goes. */
  function Clearing(s: Store, auth: Auth, m: string): Batch
    requires m in s.records
  {
    var owner := s.records[m].owner;
    Batch(m, Keep, Drop, Drop, if owner != auth.did then Some(owner) else None, None, [], [])
  }

  function Reserving(auth: Auth, m: string, now: nat): Batch {
    Batch(m, Put(Record(auth.did, now, now, 0, None, 0, false, None, [])), Keep, Keep, None, Some(auth.did), [], [])
  }

  predicate AddsSlot(s: Store, auth: Auth, m: string) {
    m in s.records ==> s.records[m].owner != auth.did
  }

  /** Two commits with the count quota between them. */
  ghost function Create(h: Host, s: Store, auth: Auth, path: Option<string>, drawn: seq<string>, force: bool,
                        now: nat): Outcome {
    match ResolvePath(s, auth, path, drawn, force)
    case Err(e) => Outcome(s, Some(e))
    case Ok(m) =>
      var cleared := if m in s.records then Commit(h, s, Clearing(s, auth, m)) else s;
      if AddsSlot(cleared, auth, m) && CountRefuses(cleared, auth) then Outcome(cleared, Some(CountQuota))
      else Outcome(Commit(h, cleared, Reserving(auth, m, now)), None)
  }

  // ---------------------------------------------------------------------
  // Publishing
  // ---------------------------------------------------------------------

  /** The witness gate, against the slot's stored log and witness file. */
  ghost predicate GateAccepts(h: Host, s: Store, slot: string, log: string) {
    Gates.PublishAccepts(h.lib, EntryLines(log), Find(s.proofs, slot), EntryCount(Find(s.logs, slot)))
  }

  /** May this caller put a log here: a fresh slot, its own, or by admin takeover. */
  function RegisterRefusal(s: Store, slot: string, auth: Auth, force: bool): Option<Error> {
    if slot !in s.records || s.records[slot].owner == auth.did then None
    else if auth.admin && force then None
    else Some(Forbidden)
  }

  /** The checks of a register, in order. */
  ghost function RegisterCheck(h: Host, s: Store, auth: Auth, slot: string, log: string, force: bool): Option<Error> {
    var didId := DidIdOf(h.lib, log);
    var was := Find(s.records, slot);
    if slot == ROOT && !auth.admin then Some(Forbidden)
    else if !MnemonicOk(slot) then Some(InvalidPath)
    else if !GateAccepts(h, s, slot, log) || didId.None? then Some(InvalidLog)
    else if h.slotOf(didId.value) != Some(slot) then Some(WrongSlot)
    else if RegisterRefusal(s, slot, auth, force).Some? then RegisterRefusal(s, slot, auth, force)
    else if was.None? && CountRefuses(s, auth) then Some(CountQuota)
    else if SizeRefuses(s, auth, if was.Some? then was.value.size else 0, |log|) then Some(SizeQuota)
    else None
  }

  /** The batch of a register that has passed its checks. */
  function Registering(h: Host, was: Option<Record>, auth: Auth, slot: string, log: string, now: nat,
                       plan: Plan): Batch {
    var takeover := was.Some? && was.value.owner != auth.did;
    var republish := was.Some? && !takeover;
    var record := Record(auth.did, if republish then was.value.createdAt else now, now,
                         if republish then was.value.versions + 1 else 1,
                         DidIdOf(h.lib, log), |log|, false, None, plan.names);
    Batch(slot, Put(record), Put(log), if takeover then Drop else Keep,
          if takeover then Some(was.value.owner) else None, Some(auth.did), plan.claimed, plan.released)
  }

  ghost function Register(h: Host, s: Store, auth: Auth, slot: string, log: string, force: bool,
                          now: nat): Result<Batch, Error> {
    var was := Find(s.records, slot);
    var refusal := RegisterCheck(h, s, auth, slot, log, force);
    if refusal.Some? then Err(refusal.value)
    else
      var names := if was.Some? then was.value.names else [];
      var domain := h.domainOf(slot);
      match Reconcile(names, s.names, domain, slot, Claims(h.aliases(log), domain), now)
      case Err(e) => Err(e)
      case Ok(plan) => Ok(Registering(h, was, auth, slot, log, now, plan))
  }

  /** Authorise, judge the log, check the size quota, advance the record. */
  ghost function Republish(h: Host, s: Store, auth: Auth, slot: string, log: string, now: nat): Result<Record, Error> {
    match Authorized(s, slot, auth)
    case Err(e) => Err(e)
    case Ok(record) =>
      if !GateAccepts(h, s, slot, log) then Err(InvalidLog)
      else if SizeRefuses(s, auth, record.size, |log|) then Err(SizeQuota)
      else Ok(record.(updatedAt := now, versions := record.versions + 1, didId := DidIdOf(h.lib, log), size := |log|))
  }

  ghost function Publish(h: Host, s: Store, auth: Auth, slot: string, log: string, now: nat): Result<Batch, Error> {
    match Republish(h, s, auth, slot, log, now)
    case Err(e) => Err(e)
    case Ok(record) =>
      var domain := h.domainOf(slot);
      match Reconcile(record.names, s.names, domain, slot, Claims(h.aliases(log), domain), now)
      case Err(e) => Err(e)
      case Ok(plan) =>
        Ok(Batch(slot, Put(record.(names := plan.names)), Put(log), Keep, None, None, plan.claimed, plan.released))
  }

  // ---------------------------------------------------------------------
  // Agent-name verbs
  // ---------------------------------------------------------------------

  datatype Verb = Activate | Park | Remove

  /** The registry and the index after a verb. */
  datatype NameChange = NameChange(names: seq<NameEntry>, claimed: seq<string>, released: seq<string>)

  function ApplyVerb(names: seq<NameEntry>, index: Index, domain: string, slot: string, name: string, verb: Verb,
                     now: nat)
    : Result<NameChange, Error>
  {
    match verb
    case Activate =>
      if HeldByOther(index, domain, name, slot) then Err(NameTaken)
      else if name in NamesIn(names) then Ok(NameChange(WithFlag(names, name, true), [name], []))
      else Ok(NameChange(names + [NameEntry(name, true, now)], [name], []))
    case Park =>
      if name !in NamesIn(names) then Err(NameNotFound)
      else Ok(NameChange(WithFlag(names, name, false), [], []))
    case Remove =>
      if name !in NamesIn(names) then Err(NameNotFound)
      else Ok(NameChange(WithoutName(names, name), [], [name]))
  }

  ghost function NameOp(h: Host, s: Store, auth: Auth, slot: string, given: string, log: string, verb: Verb, now: nat)
    : Result<Batch, Error>
  {
    var refusal := ValidateBinding(given, slot);
    var name := Bare(given);
    if refusal.Some? then Err(refusal.value)
    else
      match Republish(h, s, auth, slot, log, now)
      case Err(e) => Err(e)
      case Ok(record) =>
        var domain := h.domainOf(slot);
        if (name in Claims(h.aliases(log), domain)) != verb.Activate? then Err(AlsoKnownAsMismatch)
        else
          match ApplyVerb(record.names, s.names, domain, slot, name, verb, now)
          case Err(e) => Err(e)
          case Ok(c) => Ok(Batch(slot, Put(record.(names := c.names)), Put(log), Keep, None, None, c.claimed,
                                 c.released))
  }

  // ---------------------------------------------------------------------
  // The other writers
  // ---------------------------------------------------------------------

  ghost function UploadWitness(h: Host, s: Store, auth: Auth, slot: string, version: VersionId,
                               proof: Proof): Result<Batch, Error> {
    match Authorized(s, slot, auth)
    case Err(e) => Err(e)
    case Ok(_) =>
      if slot !in s.logs then Err(NoLog)
      else if !Gates.ProofAccepted(h.lib, EntryLines(s.logs[slot]), version, proof) then Err(InvalidProof)
      else Ok(Batch(slot, Keep, Keep, Put(Merge(Find(s.proofs, slot), version, proof)), None, None, [], []))
  }

  function Untouched(slot: string): Batch {
    Batch(slot, Keep, Keep, Keep, None, None, [], [])
  }

  function ChangeOwner(s: Store, auth: Auth, slot: string, newOwner: string, listed: bool, now: nat)
    : Result<Batch, Error>
  {
    match Authorized(s, slot, auth)
    case Err(e) => Err(e)
    case Ok(record) =>
      if record.owner == newOwner then Ok(Untouched(slot))
      else if !listed then Err(NotInAcl)
      else Ok(Batch(slot, Put(record.(owner := newOwner, updatedAt := now)), Keep, Keep, Some(record.owner),
                    Some(newOwner), [], []))
  }

  function SetDisabled(s: Store, auth: Auth, slot: string, disabled: bool): Result<Batch, Error> {
    match Authorized(s, slot, auth)
    case Err(e) => Err(e)
    case Ok(record) => Ok(Batch(slot, Put(record.(disabled := disabled)), Keep, Keep, None, None, [], []))
  }

  /** How many entries a rollback keeps. */
  function Kept(target: Option<nat>, entries: nat): Option<nat> {
    match target
    case None => if entries < 2 then None else Some(entries - 1)
    case Some(t) => if t < 1 || t > entries then None else Some(t)
  }

  /** Whether a rollback to the target discards an entry of the log. */
  predicate Cuts(log: string, target: Option<nat>) {
    var kept := Kept(target, |RawLines(log)|);
    kept.Some? && kept.value < |RawLines(log)|
  }

  /** The log a rollback to the target leaves. */
  function CutLog(log: string, target: Option<nat>): string {
    if Cuts(log, target) then Join(RawLines(log)[..Kept(target, |RawLines(log)|).value]) else log
  }

  function RollBack(h: Host, s: Store, auth: Auth, slot: string, target: Option<nat>, now: nat): Result<Batch, Error> {
    match Authorized(s, slot, auth)
    case Err(e) => Err(e)
    case Ok(record) =>
      if slot !in s.logs then Err(NoLog)
      else
        var lines := RawLines(s.logs[slot]);
        match Kept(target, |lines|)
        case None => Err(InvalidTarget)
        case Some(keep) =>
          if keep == |lines| then Ok(Untouched(slot))
          else
            var log := Join(lines[..keep]);
            var cut := record.(versions := keep, didId := DidIdOf(h.lib, log), size := |log|, updatedAt := now);
            Ok(Batch(slot, Put(cut), Put(log), Drop, None, None, [], []))
  }

  function Delete(s: Store, auth: Auth, slot: string): Result<Batch, Error> {
    match Authorized(s, slot, auth)
    case Err(e) => Err(e)
    case Ok(record) => Ok(Batch(slot, Drop, Drop, Drop, Some(record.owner), None, [], []))
  }

  // ---------------------------------------------------------------------
  // Calls
  // ---------------------------------------------------------------------

  datatype Op =
    | OpCreate(path: Option<string>, drawn: seq<string>, force: bool)
    | OpRegister(slot: string, log: string, force: bool)
    | OpPublish(slot: string, log: string)
    | OpName(slot: string, name: string, log: string, verb: Verb)
    | OpUpload(slot: string, version: VersionId, proof: Proof)
    | OpChangeOwner(slot: string, newOwner: string, listed: bool)
    | OpDisable(slot: string, disabled: bool)
    | OpRollBack(slot: string, target: Option<nat>)
    | OpDelete(slot: string)

  datatype Call = Call(auth: Auth, op: Op, now: nat)

  /** Paths the generator draws are paths. */
  ghost predicate Plausible(c: Call) {
    c.op.OpCreate? ==> forall i :: 0 <= i < |c.op.drawn| ==> PathOk(c.op.drawn[i])
  }

  /** The batch of an operation that commits once. */
  ghost function Decide(h: Host, s: Store, c: Call): Result<Batch, Error>
    requires !c.op.OpCreate?
  {
    match c.op
    case OpRegister(slot, log, force) => Register(h, s, c.auth, slot, log, force, c.now)
    case OpPublish(slot, log) => Publish(h, s, c.auth, slot, log, c.now)
    case OpName(slot, name, log, verb) => NameOp(h, s, c.auth, slot, name, log, verb, c.now)
    case OpUpload(slot, version, proof) => UploadWitness(h, s, c.auth, slot, version, proof)
    case OpChangeOwner(slot, newOwner, listed) => ChangeOwner(s, c.auth, slot, newOwner, listed, c.now)
    case OpDisable(slot, disabled) => SetDisabled(s, c.auth, slot, disabled)
    case OpRollBack(slot, target) => RollBack(h, s, c.auth, slot, target, c.now)
    case OpDelete(slot) => Delete(s, c.auth, slot)
  }

  ghost function Do(h: Host, s: Store, c: Call): Outcome {
    if c.op.OpCreate? then Create(h, s, c.auth, c.op.path, c.op.drawn, c.op.force, c.now)
    else
      match Decide(h, s, c)
      case Err(e) => Outcome(s, Some(e))
      case Ok(b) => Outcome(Commit(h, s, b), None)
  }

  ghost function Run(h: Host, s: Store, calls: seq<Call>): Store
    decreases calls
  {
    if calls == [] then s else Run(h, Do(h, s, calls[0]).store, calls[1..])
  }
}
