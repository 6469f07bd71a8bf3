# Verification of the DID-hosting control plane

A model in Dafny of the control plane's stateful core, and proofs about it. `dafny verify
dfyconfig.toml` checks everything.

The parts, and the files that hold them:

- **The slot store.** `SlotStore` specifies the operations on records, logs, witness files, the
  `owner:` index and the `name:` index, each as the batch it commits or the error it returns;
  `StoringCalls` gathers what the log-storing ones have in common. `DidStore` is the store as a
  class whose methods perform them. `SlotInvariant` proves what every operation keeps over
  every run, `SlotFrame` what a call leaves alone; `SlotHistory`, `NameOwnership`,
  `StrandedNames`, `ServedNames`, `Quota`, `Listing` and `Lookup` prove what follows.
  `AgentNames` is reconciliation, `Paths` the mnemonics and keys, `Rollback` the text of a cut
  log. `Access` says who may do what and exactly when each operation goes through, `NameVerbs`
  what the name verbs leave, `NameRules` and `PathRules` which names and paths there can be.
- **The path lock.** `PathLock` splits the lock-taking calls into the steps between which others
  may run, and proves what the lock guarantees; `LockLimits` proves where it stops.
  `CommitSoundness` and `StaleCommits` prove when a batch may be committed to a store it was
  not decided on, when that amounts to the whole call at once, and what it undoes;
  `ConcurrentQuotas` what it does to quotas.
- **The log gates.** `LogGates`, `WitnessFile`, `LogText` and `LogHistory`: publishing,
  serving, witnessing and append-only history, as folds over a log's entries. `GateMeaning` and
  `EntryText` say what they decide in terms of entries, proofs and characters alone.
- **The durable outbox.** `OutboxKey` is the key codec, `OutboxQueue` the store and the tick
  when nothing interferes, `OutboxProtocol` the state machine in which everything does,
  `OutboxOrder` when its attempts keep to the order of the keys, `OutboxHistory` which
  document was handed over last and what restarts do, `OutboxDrain` that a queue empties,
  `OutboxBudget` its budgets and waits in numbers.
- **The pending-challenge tracker.** `PendingChallenges` is the class with its four
  redundant structures, `DueQueue` its ordered queues, `ExpiryQueue` how long the one that
  outlives its members gets, `ChallengeSet` the set it stands for.
- **The fixed-window limiters.** `RateLimit`.

`Counterexamples` holds concrete calls and schedules on which a promise of the source's
comments fails; the exact condition under which it holds is a lemma beside the operation.

## Where the code and its comments disagree

The model follows the code.

- The tracker's comments cap the expiry queue at the global cap (pending_challenges.rs:24-26,
  308-310). Released ids may wait behind a live front, and no cap bounds the queue; the number
  of challenges issued within one TTL does.
- The comment on reconciliation calls the path lock the critical section for the name
  collision check (did_ops.rs:975-977). The lock is per mnemonic, so two slots can each see a
  name free. A commit keeps the registry sound exactly when no other slot has meanwhile come
  to register a name it claims.
- The agent-name verbs are said to keep served names and the signed document from ever
  diverging (did_ops.rs:1196-1203, 1274-1276). They check the verb's own name only, and a
  rollback checks neither names nor DID.
- An acknowledgement is meant to settle the document last sent (outbox.rs:359-364). It
  settles the one the row awaited when the acknowledger read it. A re-send recorded before the
  removal, or handed over and not yet recorded, makes another document the last one, and the
  row is removed all the same.
- The retry budget counts recorded attempts (outbox.rs:479-510). A restart between a send and
  its record takes the send off the books, so sends have no bound over restarts.
- A row's age is taken by the one reading of the clock that a tick makes (outbox.rs:470, 491), so
  a long tick may hand over a row that is past the age budget by the time it comes to it.
- The key of a name is said to be written with the record so that index and registry "cannot
  diverge" (did-hosting-common/src/did_ops.rs:189-190). A delete, or a create that replaces an
  occupied path, ends the registry and leaves its names in the index; every other call keeps
  the two equal.
- Servers and watchers refuse a log that does not extend the one they hold
  (did-hosting-common/src/did_ops.rs:868-901). No write path of the control plane makes that
  comparison: a publish may replace published entries.
- A name is said to change owner only through an explicit remove by its holder
  (did_ops.rs:966-967). A publish or register that no longer claims it releases it too.
- Create, rollback, delete and disable take no lock. A delete that runs while a publish on the
  same slot is under way leaves the slot without its owner key; a disable is undone.
- Quotas are checked before the commit, under a lock per path: one account's calls on two
  paths can each find room for one, and both commit.
- A window of the limiters admits one fewer than twice the maximum: the first admission of
  the earlier window opens it, and so lies a whole window before the next one opens.
- The outbox's order is that of its keys, not of the calls: an enqueue makes its key and then
  awaits the insert, and keys of one microsecond are ordered by uuid. A row that lands late may
  cut in, and then two rows of a target can be in flight.
- A transfer of ownership asks no quota of the new owner.

## Assumptions

- A slot's hosting domain is fixed, and is the host of the DIDs published in it.
- Ids that the source draws at random (uuids, session ids, document ids) are fresh.
- Each batch commits whole. In `SlotInvariant` and what rests on it a call is one step (a
  create two); `PathLock` is where that is taken apart.
- Clocks do not run backwards. The outbox has one worker, and no queued target is another one
  followed by a colon, so that a scan by prefix is a scan by target.
- A did:webvh chain is verified entry by entry from the one before, versions counting up from
  one; an entry meets its threshold when enough distinct active witnesses hold a proof for a
  version between its own and the highest in scope (did:webvh, "DID Witnesses", "Witness
  Lists"). Signatures and the entry check itself are parameters.
- Text is bytes: one character is one byte of a log, and blanks are ASCII blanks.

## Model

| member | source | states |
|---|---|---|
| `SlotInvariant.EveryRun` | did-hosting-control/src/did_ops.rs:340-1421 | From an empty store, after any sequence of calls by anybody: no two slots register the same name on a domain and no record lists one twice; the owner index holds exactly the pairs of owner and mnemonic; every recorded size is the stored log's length, zero when there is none |
| `SlotInvariant.StepKeepsInv` | did-hosting-control/src/did_ops.rs:340-2045 | Every operation (create, register, publish, the agent-name verbs, witness upload, change owner, disable, rollback, delete) keeps the agreement of records, logs, witness files, owner index and name index |
| `SlotInvariant.RunKeepsInv` | did-hosting-control/src/did_ops.rs:340-2045 | So does every run of them, from any sound store |
| `SlotInvariant.CommitKeepsInvIff` | did-hosting-control/src/did_ops.rs:716-739 | A batch that fits its own slot keeps that agreement exactly when no other slot registers a name it claims |
| `SlotInvariant.NamesAreSingle` | did-hosting-control/src/did_ops.rs:948-966 | Each registered entry is indexed to its slot, so a name on a domain, served or parked, is held by one slot, once |
| `SlotInvariant.OwnerIndexIsExact` | did-hosting-control/src/did_ops.rs:404-419 | A row of the owner index exists if and only if a record has that owner and mnemonic |
| `SlotInvariant.RefusalChangesNothing` | did-hosting-control/src/did_ops.rs:272-421 | A refused call leaves the store as it was, a create included although it commits twice |
| `SlotInvariant.CreateIsAllOrNothing` | did-hosting-control/src/did_ops.rs:289-419 | The count quota never refuses a create after its force-replace removal has committed; a successful create is one batch |
| `Access.OnlyTheEntitled` | did-hosting-control/src/did_ops.rs:148-169 | Whatever the operation, a call that succeeds on a slot that is there is by its recorded owner or an administrator; one that takes it from another owner is an administrator's and forced, and a create over it is forced |
| `Access.OthersChangeNothing` | did-hosting-control/src/did_ops.rs:148-169 | A call by anybody else, accepted or refused, leaves the slot's record, log and witness file, and the names it holds, as they were |
| `Access.StrangersChangeNothing` | did-hosting-control/src/did_ops.rs:148-169 | So does any run of calls by any number of strangers |
| `Access.RefusedFirst` | did-hosting-control/src/did_ops.rs:148-169 | A call on a slot is refused as forbidden exactly when the slot is there and the caller is neither owner nor administrator, as not found exactly when it is not there, and as no path exactly when it is none |
| `Access.DeleteMeans` | did-hosting-control/src/did_ops.rs:1818-1850 | A delete goes through if and only if the caller is the slot's owner or an administrator; record, log, witness file and every owner key of the slot are then gone, and the names index is as it was |
| `Access.DisableMeans` | did-hosting-control/src/did_ops.rs:1934-1956 | Setting the flag goes through for exactly the same callers, and changes nothing else in the store |
| `Access.ChangeOwnerMeans` | did-hosting-control/src/did_ops.rs:1857-1931 | A transfer goes through for exactly the same callers, to the present owner or to one in the ACL, is refused for the ACL exactly when the latter fails, and leaves all but owner and time as it was |
| `Access.RollbackMeans` | did-hosting-control/src/did_ops.rs:1972-2016 | A rollback goes through for exactly the same callers where a log is stored that has the entries to keep, at least one, and two without a target; each of the other refusals exactly when that is what fails |
| `Access.UploadMeans` | did-hosting-control/src/did_ops.rs:1409-1478 | An upload goes through for exactly the same callers where a log is stored that vouches for the proof; each of the other refusals exactly when that is what fails |
| `Access.PublishMeans` | did-hosting-control/src/did_ops.rs:1084-1133 | A publish goes through for exactly the same callers, with a log the gate accepts and the cap on bytes has room for, none of whose names is withheld from the slot or another's; invalid log and size quota are answered exactly when that is what fails first |
| `Access.NameOpMeans` | did-hosting-control/src/did_ops.rs:1278-1365 | A name verb goes through exactly for a name the slot may hold, the same callers, a log as for a publish, a document that lists the name just when it is to be activated, and a name not held by another slot, or listed to park or remove |
| `Access.RegisterMeans` | did-hosting-control/src/did_ops.rs:463-646 | A register goes through exactly on a path, the root only for an administrator, that is free with room for a slot, the caller's own, or taken by an administrator by force, with a log of that path's own DID, the gate's and the quota's consent, and names in nobody's way |
| `Access.CreateMeans` | did-hosting-control/src/did_ops.rs:272-421 | A create goes through on a path exactly when it is the one asked for or the first free one drawn, the root only for an administrator, an occupied one by force for its owner or an administrator, and one more slot only with room for it; the slot is then the caller's, empty, and in the owner index |
| `Access.NameOpRefused` | did-hosting-control/src/did_ops.rs:1278-1365 | Each refusal of a name verb is given exactly when it is the first that applies: the name reserved or malformed, the path, the slot, the right to it, the log, the bytes, the document, the registry |
| `Access.RegisterRefused` | did-hosting-control/src/did_ops.rs:483-646 | Each refusal of a register, the names apart, exactly when it is the first that applies: the root, the path, the log, its DID's slot, whose slot it is, the count, the bytes |
| `Access.CreateRefused` | did-hosting-control/src/did_ops.rs:272-372 | Each refusal of a create for its path exactly when it is the first that applies: the root, the path, an occupied one without force, one of another's, no free one drawn |
| `Access.StoringLeavesFlags` | did-hosting-control/src/did_ops.rs:648-666 | A publish or name verb leaves the disabled flag and the deletion mark as they were; a register clears them |
| `PathRules.PathMeans` | did-hosting-common/src/server/mnemonic.rs:61-94 | The path check accepts exactly what is put together, with single slashes, from segments of 2 to 63 lower-case letters, digits and inner hyphens, the first no route of the server, in at most 255 characters |
| `PathRules.SlotsHavePaths` | did-hosting-common/src/server/mnemonic.rs:96-101 | After any run from an empty store every slot is the root or has such a path |
| `Paths.ColonFree` | did-hosting-common/src/server/mnemonic.rs:38-101 | A valid mnemonic holds no colon, which is what lets keys that end in one be read back |
| `Paths.OwnerKeyIsInjective` | did-hosting-common/src/did_ops.rs:179-181 | An owner key determines its owner and its mnemonic although DIDs are full of colons |
| `Paths.NameKeyIsInjective` | did-hosting-common/src/did_ops.rs:191-193 | A name key determines domain and name, even on a domain with a port, if the name holds no colon |
| `AgentNames.BindableIsColonFree` | did-hosting-common/src/server/mnemonic.rs:295-308 | A name that may be bound holds no colon |
| `NameOwnership.NameKeysNeverCollide` | did-hosting-common/src/did_ops.rs:191-193 | So after any run from an empty store, no two names in the index share a string key |
| `Paths.PrefixCatches` | did-hosting-control/src/did_ops.rs:1735-1751 | An owner's prefix scan meets the rows of exactly those DIDs that are it or extend it by a colon |
| `SlotFrame.OffTargetStays` | did-hosting-control/src/did_ops.rs:340-2045 | A call changes the record, log and witness file of no slot but its own |
| `SlotHistory.RecordNamesItsLog` | did-hosting-control/src/did_ops.rs:648-714 | Over every run a record's DID is the one its stored log's last entry names, and none while nothing is stored |
| `SlotHistory.DidMeans` | did-hosting-common/src/did_ops.rs:964-978 | The DID of a log is the one its last entry names, if that is a did:webvh, and none otherwise |
| `SlotHistory.StoringAdvances` | did-hosting-control/src/did_ops.rs:648-722 | A log that is stored is the one submitted; a slot that keeps its owner keeps its creation time and witness file and counts one version more; one that is new or changes hands starts over, without witness file |
| `SlotHistory.RollbackKeepsFirstEntries` | did-hosting-control/src/did_ops.rs:1972-2059 | A rollback leaves exactly the first entries, as many as asked and at least one, records that number, drops the witness file exactly when it discards an entry, and leaves everything else of the record |
| `SlotHistory.UploadOnlyAdds` | did-hosting-control/src/did_ops.rs:1409-1519 | An upload changes the witness file alone, loses no proof, and never shortens what the slot's resolvers are served |
| `SlotHistory.GoesOnIff` | did-hosting-control/src/did_ops.rs:463-2059 | A call that succeeds leaves the slot's stored entries a prefix of what is stored exactly when it is no delete, force-replacing create or cutting rollback of the slot, and submits no log for it that fails to extend them |
| `SlotHistory.AppendOnlyIff` | did-hosting-control/src/did_ops.rs:463-2059 | Over every run the slot's log is append-only exactly when no call of it that succeeds is one of these |
| `SlotHistory.MirrorTakesOverIff` | did-hosting-common/src/did_ops.rs:868-901 | The comparison that servers and watchers make with the log they hold accepts what a call has stored exactly when the call neither rewrote the log nor added to a deactivated one |
| `Counterexamples.PublishRewritesHistory` | did-hosting-control/src/did_ops.rs:1084-1162 | A concrete publish that replaces the published entry by another |
| `AgentNames.ReconcileMeans` | did-hosting-control/src/did_ops.rs:988-1082 | After reconciliation the enabled names are the bindable claims, a parked entry survives untouched exactly when unclaimed, a claimed name keeps its own creation time or gets the present one if it is new, names stay distinct, and a name is released exactly when it was enabled, is no longer claimed and is still indexed to this slot |
| `AgentNames.ReconcileIsIdempotent` | did-hosting-control/src/did_ops.rs:988-1082 | Reconciling the same claims again, at any later time, changes neither registry nor index and releases nothing |
| `NameRules.BindingMeans` | did-hosting-common/src/server/mnemonic.rs:254-309 | A slot may bind exactly a name of 2 to 63 lower-case letters, digits and inner hyphens, with or without `@`, that is none of the fourteen listed words, and, if it is the root, the empty one; it is answered as reserved exactly for one of those words, or the empty one elsewhere |
| `NameRules.NoneHeldThatMayNot` | did-hosting-control/src/did_ops.rs:949-965 | After any run from an empty store no record and no index row holds one of the fourteen words or a misspelt one, and the empty name is held by the root slot alone |
| `NameRules.WithheldIsRefused` | did-hosting-control/src/did_ops.rs:1000-1011 | A publish, register or verb that asks for a name withheld from its slot is refused, and nothing changes |
| `NameRules.ReconcilesIff` | did-hosting-control/src/did_ops.rs:996-1038 | Reconciliation goes through exactly when no name the document lists on the domain is withheld from the slot, or may be held and is another slot's; a misspelt one is passed over |
| `NameRules.FirstInTheWayAnswers` | did-hosting-control/src/did_ops.rs:1000-1035 | The first such name in the document's order decides the answer: reserved if it is withheld, taken if it is another slot's |
| `NameRules.ServesWhatItMay` | did-hosting-control/src/did_ops.rs:988-1082 | After a publish or register the slot serves exactly the names the document lists on the domain and the slot may hold |
| `NameVerbs.ActivateMeans` | did-hosting-control/src/did_ops.rs:1323-1335 | After an activation, of a new, served or parked name, the slot lists it once, enabled, since it was first registered or from now, holds it, and it resolves to the DID of the submitted log unless the slot is disabled; every other entry is as it was |
| `NameVerbs.ParkMeans` | did-hosting-control/src/did_ops.rs:1336-1351 | After a park the name is listed once, disabled, since it was first registered, is still held and resolves to nothing; every other entry is as it was |
| `NameVerbs.RemoveMeans` | did-hosting-control/src/did_ops.rs:1352-1359 | After a remove, of a name that was listed, it is neither listed nor held and resolves to nothing; every other entry is as it was |
| `NameVerbs.DocumentMustAgree` | did-hosting-control/src/did_ops.rs:1307-1316 | An activation goes through only with a document that lists the name on the domain, a park or remove only with one that does not |
| `NameVerbs.ParkThenActivate` | did-hosting-control/src/did_ops.rs:1321-1351 | A park followed by an activation gives back every entry the slot had, the parked one included |
| `AgentNames.ReconcileAgentNames` | did-hosting-control/src/did_ops.rs:988-1082 | The three loops compute that plan, and report the first objection in claim order |
| `AgentNames.CreatedAtIs` | did-hosting-control/src/did_ops.rs:1065-1078 | A name that was already registered keeps its own creation time |
| `AgentNames.ClaimsAreListed` | did-hosting-common/src/did_ops.rs:1032-1051 | A document claims exactly the agent names it lists on the domain |
| `AgentNames.WithFlagAt` | did-hosting-control/src/did_ops.rs:1344-1350 | Setting the flag of a name changes that entry and no other, and never its creation time |
| `NameOwnership.NameStep` | did-hosting-control/src/did_ops.rs:948-967 | Ownership has two states: a held name is freed by a call that succeeds if and only if that call, on the slot that holds it, removes the name, or publishes or registers a document that no longer claims, bindably, a name the slot serves; a free one stays free or goes to the slot of the call |
| `NameOwnership.HeldUntilGivenUp` | did-hosting-control/src/did_ops.rs:1322-1356 | Over any run of calls by anybody, a slot holds a name throughout exactly when none of them gives it up |
| `Counterexamples.NameChangesHands` | did-hosting-control/src/did_ops.rs:966-967 | A concrete run of two publishes after which another slot holds the name, without any remove |
| `NameOwnership.HeldNameBlocks` | did-hosting-control/src/did_ops.rs:1022-1035 | A name held elsewhere, parked ones included, refuses every publish, register or activation that would bind it, and nothing changes |
| `NameOwnership.ParkedNameStays` | did-hosting-control/src/did_ops.rs:1342-1356 | A parked name stays reserved through every call but a remove of that name on its slot |
| `StrandedNames.IndexStaysExactIff` | did-hosting-common/src/did_ops.rs:189-193 | The promise that index and registry cannot diverge: where every indexed name is listed by the slot the index names, a call that succeeds keeps it so if and only if it is no delete, and no force-replacing create, of a slot that lists a name |
| `StrandedNames.IndexIsRegistryIff` | did-hosting-common/src/did_ops.rs:189-193 | From an empty store, index and registry agree throughout any run exactly when no such call succeeds in it |
| `StrandedNames.EndingStrandsNames` | did-hosting-control/src/did_ops.rs:289-419 | After a delete or force-replacing create that succeeds, every name the slot listed is still indexed to it and listed nowhere |
| `StrandedNames.StrandedUntilBound` | did-hosting-control/src/did_ops.rs:1839-1844 | Such a name stays held, and unlisted, through any run in which its own slot does not bind it, whether or not the path is created again |
| `ServedNames.PublishServesExactlyClaims` | did-hosting-control/src/did_ops.rs:948-960 | After a publish or register a name is served if and only if the new document claims it and the slot may bind it |
| `ServedNames.ServedStaysClaimedIff` | did-hosting-control/src/did_ops.rs:1196-1206 | The promise that served names never diverge from the document: every call keeps it, except that an agent-name verb does exactly when the new document claims the slot's other served names, and a rollback exactly when the stored log, cut at the target, claims them all |
| `Counterexamples.RollbackBreaksBoth` | did-hosting-control/src/did_ops.rs:1972-2059 | A concrete rollback that leaves a name served which the document no longer claims, and a DID in a slot it does not map to |
| `Counterexamples.ActivationLeavesAnotherBehind` | did-hosting-control/src/did_ops.rs:1278-1382 | A concrete activation that succeeds and leaves another name served which the document no longer claims |
| `Quota.WriteIsCharged` | did-hosting-control/src/did_ops.rs:235-263 | A non-admin register, publish or name verb that succeeds leaves its owner's true total at total - old + new and within the cap, and the count likewise, where old and new are the lengths of the stored logs |
| `Quota.WriteChargesNobodyElse` | did-hosting-control/src/did_ops.rs:207-263 | And nobody else's slots or total move |
| `Quota.QuotaHoldsOverRuns` | did-hosting-control/src/did_ops.rs:172-263 | However ordinary accounts call, one call after the other, an account within its quotas stays within them, as long as nobody transfers a slot to it |
| `Quota.TransferKeepsQuotaIff` | did-hosting-control/src/did_ops.rs:1857-1931 | A transfer asks no quota of the new owner: its quotas survive exactly when the slot happens to fit |
| `Counterexamples.TransferOverruns` | did-hosting-control/src/did_ops.rs:1857-1931 | A concrete transfer that succeeds and leaves the new owner past its cap |
| `Quota.Accounting` | did-hosting-control/src/did_ops.rs:186-203 | Changing one slot moves an owner's count and total by that slot's own change, whatever the order of the sum |
| `Quota.RollBackShrinks` | did-hosting-control/src/did_ops.rs:2018-2036 | A rollback never grows the recorded size |
| `Rollback.TruncationKeepsEntries` | did-hosting-control/src/did_ops.rs:1994-2023 | The cut log reads back as the first entries of the old one, despite blank lines, indentation and line endings, and is no longer |
| `Listing.OwnerUsage` | did-hosting-control/src/did_ops.rs:186-203 | The scan with its owner re-check counts and sums exactly the records with that owner |
| `Listing.ScanIsFilter` | did-hosting-control/src/did_ops.rs:1735-1751 | Scan and re-check select what a brute-force filter of all records selects, even when other DIDs extend this one |
| `Listing.RowsAreDistinct` | did-hosting-control/src/did_ops.rs:1735-1751 | And each slot comes up once |
| `Listing.ListDidsPage` | did-hosting-control/src/did_ops.rs:1710-1782 | A page is the slice, at most 1000 long, of what the caller may see on the domain, in mnemonic order; the total is the size of the whole |
| `Listing.ListingIsUnique` | did-hosting-control/src/did_ops.rs:1766-1771 | That order leaves no choice, so paging is stable |
| `Listing.PagesCoverAll` | did-hosting-control/src/did_ops.rs:1766-1782 | Walking the pages returns everything visible, each once |
| `Listing.SeesMeans` | did-hosting-control/src/did_ops.rs:1725-1762 | Who sees a slot: an administrator, if it is the owner's asked for, or none is; a replica, if none is; anybody else only as its owner, whoever is asked for; and only on the domain asked for |
| `Listing.PageMeans` | did-hosting-control/src/did_ops.rs:1719-1782 | A page holds at most a thousand slots and no more than asked for, in their places in the whole, is short only at the end, and holds none that is not the caller's if the caller is neither administrator nor replica |
| `Lookup.DirectionsAgreeIff` | did-hosting-control/src/did_ops.rs:2241-2371 | For a live slot whose DID maps back to it, a name is listed for the DID if and only if it resolves to the DID, exactly when no other live slot of the domain holds the same DID and serves the name |
| `Lookup.ListedResolves` | did-hosting-control/src/did_ops.rs:2241-2371 | A listed name always resolves to the DID |
| `Lookup.InPlaceAgrees` | did-hosting-control/src/did_ops.rs:2345-2356 | Where every slot holds its own DID, the directions agree on every name |
| `Lookup.StaysInPlaceIff` | did-hosting-control/src/did_ops.rs:573-581 | Only a register checks the DID's path: a publish or name verb keeps slots in place exactly when the submitted log names the slot's own DID, and a rollback exactly when the stored log, cut at the target, does |
| `Lookup.ResolveAgentNames` | did-hosting-control/src/did_ops.rs:2311-2371 | The batch answers for each DID asked, once, leaves out those without names, and refuses more than 64 |
| `Lookup.ResolvesMeans` | did-hosting-control/src/did_ops.rs:2241-2273 | A name resolves to a DID exactly when the slot the index gives is there, neither disabled nor deleted, lists the name enabled, and holds the DID |
| `Lookup.NamesOfMeans` | did-hosting-control/src/did_ops.rs:2311-2371 | A reader is told a name of a DID exactly when the slot the DID maps to holds it, is neither disabled nor deleted, lists the name enabled, and is the reader's or the reader an administrator |
| `Lookup.DisabledIsSilent` | did-hosting-control/src/did_ops.rs:2264-2266 | While a slot is disabled no name it holds resolves, and none is told for its DID |
| `Counterexamples.DirectionsDisagree` | did-hosting-control/src/did_ops.rs:1084-1162 | A concrete publish after which a name resolves to a DID that does not list it |
| `DidStore.DidStore.CreateDid` | did-hosting-control/src/did_ops.rs:340-433 | The store after the call, and the error, are those of the specified create; the invariant holds |
| `DidStore.DidStore.ResolvePathForCreate` | did-hosting-control/src/did_ops.rs:272-323 | A free path is left alone; an occupied one is cleared for its owner or an admin, with force; else refused unchanged, for the first reason in the source's order |
| `DidStore.DidStore.GenerateUniqueMnemonic` | did-hosting-control/src/did_ops.rs:126-137 | The first path drawn that is free |
| `DidStore.DidStore.RegisterDidAtomic` | did-hosting-control/src/did_ops.rs:463-762 | The same for register: one batch with record, log, owner key and names, clearing witness file and old owner key on takeover |
| `DidStore.DidStore.PublishDid` | did-hosting-control/src/did_ops.rs:1084-1162 | The same for publish |
| `DidStore.DidStore.ApplyAgentNameOp` | did-hosting-control/src/did_ops.rs:1278-1393 | The same for activate, park and remove, in the source's order of refusals |
| `DidStore.UpdateRegistry` | did-hosting-control/src/did_ops.rs:1321-1365 | The in-place edits of the three verbs and their index side-effect |
| `DidStore.SetFlag` | did-hosting-control/src/did_ops.rs:1396-1406 | Find-and-set changes the named entry, and reports whether there was one |
| `DidStore.DidStore.PrepareRepublish` | did-hosting-control/src/did_ops.rs:775-921 | Authorise, judge, check the size quota, advance the record, in that order |
| `DidStore.DidStore.CheckRegister` | did-hosting-control/src/did_ops.rs:483-646 | The refusals of a register, in order |
| `DidStore.DidStore.UploadWitness` | did-hosting-control/src/did_ops.rs:1409-1519 | A proof is merged only if the caller may write and the stored log vouches for it |
| `DidStore.DidStore.DeleteDid` | did-hosting-control/src/did_ops.rs:1818-1850 | Record, log, witness file and owner key go; names stay indexed |
| `DidStore.DidStore.ChangeDidOwner` | did-hosting-control/src/did_ops.rs:1857-1931 | The owner key moves with the record; the same owner changes nothing; a new owner must be in the ACL |
| `DidStore.DidStore.SetDidDisabled` | did-hosting-control/src/did_ops.rs:1934-1956 | Only the flag changes |
| `DidStore.DidStore.RollbackDidTo` | did-hosting-control/src/did_ops.rs:1972-2059 | The log is cut to the target, the witness file removed, and the number of discarded entries reported |
| `DidStore.DidStore.CheckDidCountLimit` | did-hosting-control/src/did_ops.rs:207-229 | Refuses exactly a capped non-admin whose true count has reached its cap |
| `DidStore.DidStore.CheckTotalSizeLimit` | did-hosting-control/src/did_ops.rs:235-263 | Refuses exactly a capped non-admin whose true total less old plus new exceeds its cap |
| `PathLock.NothingExemptSlipsIn` | did-hosting-control/src/did_ops.rs:504-544 | For every schedule in which no lockless operation touches the path while it is held (`KeepsClear`), when a log commits the gate accepts it against the log and witness file stored at that moment |
| `PathLock.CommittedLogIsServed` | did-hosting-control/src/did_ops.rs:504-544 | So, on those schedules, of the new log at least as many entries are served as had been published when it commits, or all it has if fewer, unless the slot changes hands |
| `PathLock.PathsAreExclusive` | did-hosting-common/src/server/path_locks.rs:46-70 | Through every schedule, lockless operations included, one caller at a time is beyond waiting on a path |
| `PathLock.PlayStaysStanding` | did-hosting-control/src/did_ops.rs:504-544 | On a path that lockless operations keep off while it is held, what has been read is what is stored |
| `LockLimits.AgreementHoldsIff` | did-hosting-control/src/did_ops.rs:975-977 | For every schedule whatsoever, records, logs, witness files and indexes agree throughout exactly when each plan fits its slot, and disturbs no other slot's names, at the store it commits to |
| `CommitSoundness.CommitIsSoundIff` | did-hosting-control/src/did_ops.rs:716-739 | A batch decided on in any store keeps the agreement if and only if, where it commits, its record, log and witness file fit each other, the slot's owner keys come out as its owner's alone, its listed names stay indexed, and no other slot registers a name it claims or releases |
| `LockLimits.DeleteBetween` | did-hosting-control/src/did_ops.rs:1818-1850 | A delete between the plan and the commit of a publish on its slot always breaks the owner index: the slot comes back without its key |
| `Counterexamples.LockDoesNotStopDeletes` | did-hosting-control/src/did_ops.rs:1818-1850 | A concrete schedule of that kind |
| `LockLimits.RegistrySurvivesInterleaving` | did-hosting-control/src/did_ops.rs:975-977 | In particular they agree throughout if lockless operations keep off the paths that are held (`AllClear`) and the names each commit claims are free when it commits |
| `LockLimits.StaleCommitIsSoundIff` | did-hosting-control/src/did_ops.rs:1096-1101 | A commit planned on an older store that agrees on its own slot keeps them sound exactly when no other slot has come to register a claimed name |
| `Counterexamples.LockDoesNotGuardNames` | did-hosting-control/src/did_ops.rs:975-977 | A concrete schedule of two publishes on different paths that ends with one name in two slots |
| `LockLimits.RollbackVoidsTheProofs` | did-hosting-control/src/did_ops.rs:2038-2045 | After a rollback that cut something, the gate accepts a well-formed log whose chain verifies if and only if no entry of its still-published part has a positive witness threshold |
| `LockLimits.UndisturbedIsAtomic` | did-hosting-control/src/did_ops.rs:1096-1133 | A call whose plan still matches the store does exactly what it would have done at once |
| `StaleCommits.StoringCommitIsSoundIff` | did-hosting-control/src/did_ops.rs:716-739 | For a register, publish or name verb decided on in any store, that can be told before the commit: exactly when the slot's owner is as planned, the names to be listed are claimed or still held, and no other slot registers a name it claims or releases |
| `StaleCommits.FinishIsSerialIff` | did-hosting-control/src/did_ops.rs:504-739 | On a path that lockless operations keep off while it is held, a log that commits leaves the store as the whole call done at that moment would if and only if the quotas and the names other slots hold would still let it through |
| `StaleCommits.SchedulesSerialize` | did-hosting-control/src/did_ops.rs:463-1393 | Serialisability: on every schedule with `AllClear` whose logs would still be let through when they commit, the store ends up as if the calls that commit had been done one at a time in the order of their commits |
| `StaleCommits.CarriesBackIff` | did-hosting-control/src/did_ops.rs:1084-1162 | Where a publish or name verb still goes through after its slot's record has changed, names apart, its commit leaves what the whole call would exactly when owner, creation time, versions, disabled flag and deletion mark are as it read them |
| `StaleCommits.FlagIsLost` | did-hosting-control/src/did_ops.rs:1934-1956 | A disable or enable between the plan and the commit of a publish or name verb on its slot is always undone, although the indexes still agree and neither order of the two calls undoes it |
| `Counterexamples.DisableIsUndone` | did-hosting-control/src/did_ops.rs:1934-1956 | A concrete schedule of that kind |
| `ConcurrentQuotas.StaleCommitKeepsQuotaIff` | did-hosting-control/src/did_ops.rs:186-263 | A commit planned on an older store that agrees on its slot keeps the account within its quotas exactly when the store it commits to would still allow the call |
| `ConcurrentQuotas.QuotaHoldsOverSchedules` | did-hosting-control/src/did_ops.rs:186-263 | On the schedules of `SchedulesSerialize` an account within its quotas stays within them |
| `ConcurrentQuotas.TwoRegistersAddUp` | did-hosting-control/src/did_ops.rs:621-646 | Two registers of one account on two free paths, each judged before the other commits, both commit: the account is within its quotas afterwards exactly when there was room for both together |
| `Counterexamples.TwoRegistersOverrun` | did-hosting-control/src/did_ops.rs:621-646 | A concrete schedule on which an account with a cap of one slot gets two |
| `LogGates.VerifyDidLogForPublish` | did-hosting-common/src/did_ops.rs:456-516 | Accepts exactly the well-formed logs whose whole chain verifies and whose published part, if any of it is witnessed, meets every threshold from the parsed witness file |
| `LogGates.PublishImpliesServed` | did-hosting-common/src/did_ops.rs:456-636 | A log the gate accepts is served at least up to its published part, also by the shortcut that never parses the witness file |
| `LogGates.ServableDidLog` | did-hosting-common/src/did_ops.rs:551-636 | Serves the longest entry prefix that verifies and meets its thresholds, or leaves the content as it is when it is no did:webvh log or its chain breaks first |
| `LogGates.ServesLongestPrefix` | did-hosting-common/src/did_ops.rs:595-635 | A prefix can be served if and only if it is no longer than what is; nothing is served exactly when the first entry fails |
| `LogGates.ServedIsUnique` | did-hosting-common/src/did_ops.rs:595-635 | There is one answer |
| `LogGates.MoreProofsServeMore` | did-hosting-common/src/did_ops.rs:595-635 | More proofs never serve less |
| `LogGates.UploadNeverShortens` | did-hosting-control/src/did_ops.rs:1489-1513 | Uploading a proof into whatever witness file is stored, well-formed or not, never shortens what is served |
| `LogGates.QuorumUnlocks` | did-hosting-control/src/did_ops.rs:1489-1513 | Once a threshold of an entry's witnesses have uploaded, that entry is served |
| `LogGates.VerifyWitnessProof` | did-hosting-common/src/did_ops.rs:380-427 | Accepts exactly a proof by a witness in force for that version of a verified log |
| `LogGates.VerifyLogForWitnessing` | did-hosting-common/src/did_ops.rs:744-849 | Accepts exactly the logs whose every entry verifies, whose last is the requested version, with no earlier deactivation, that list the witness and carry an SCID, despite verifying only up to the first deactivation. Each refusal is given exactly when it is due: bad log for what is malformed, does not verify up to the first deactivation, or lacks only the SCID; then another last version; then a verified earlier deactivation; then a witness not listed |
| `LogGates.ChainOfPrefix` | did-hosting-common/src/did_ops.rs:783-800 | Verifying a prefix establishes what verifying the whole would about it |
| `GateMeaning.ChainMeans` | did-hosting-common/src/did_ops.rs:315-353 | Verification yields the longest run of first entries each of which has the next number and is accepted by the crate after the one before |
| `GateMeaning.PublishGateMeans` | did-hosting-common/src/did_ops.rs:456-516 | The publish gate accepts exactly a log of 1 to 10,000 entries that parse and all so verify, the last of a did:webvh, whose entries published so far name no witnesses, or have a readable file in which enough distinct witnesses of each signed a version from its own to the last published |
| `GateMeaning.ServedMeans` | did-hosting-common/src/did_ops.rs:595-635 | Of such a log as many first entries are served as have enough distinct witnesses each, for versions from its own to the last |
| `GateMeaning.BrokenIsServed` | did-hosting-common/src/did_ops.rs:595-635 | A log whose chain breaks is served as it is if all entries before the break have witnesses enough, and otherwise as many of them as have |
| `GateMeaning.ForeignIsServed` | did-hosting-common/src/did_ops.rs:551-570 | Content that is no did:webvh log is served as it is |
| `GateMeaning.UploadGateMeans` | did-hosting-common/src/did_ops.rs:380-427 | A proof is accepted exactly for a version of such a log, from a witness in force for it, with a signature the crate accepts on that entry |
| `GateMeaning.WitnessGateMeans` | did-hosting-common/src/did_ops.rs:744-849 | A witness signs exactly for the last version of such a log, no earlier entry of which deactivates, and which has an SCID and lists the witness by its key or that key's `did:key:` |
| `GateMeaning.HeldMeans` | did-hosting-control/src/did_ops.rs:1489-1513 | By a stored file a witness holds a proof for a version number exactly when every row is well-typed and a row of that number has a proof it signed |
| `EntryText.OneLineMeans` | did-hosting-common/src/did_ops.rs:318-325 | A line is one entry, itself without the blanks at both ends, or none if it is all blank |
| `EntryText.LinesMean` | did-hosting-common/src/did_ops.rs:318-325 | Entries are read line by line |
| `WitnessFile.MergeKeepsProofs` | did-hosting-control/src/did_ops.rs:1489-1513 | The merge keeps every proof the file was read to hold and adds the one uploaded |
| `WitnessFile.MergeMeans` | did-hosting-control/src/did_ops.rs:1489-1513 | Row by row: the proof goes at the end of the first row for that very version, hash included, or into a new last row; all other rows stay; a file that is no list of rows is replaced |
| `WitnessFile.MergeInPlace` | did-hosting-control/src/did_ops.rs:1489-1513 | The find-and-edit computes the merge |
| `LogHistory.LaterExtendsEarlier` | did-hosting-common/src/did_ops.rs:868-901 | Along any sequence of syncs every earlier held log is an entry prefix of every later one, and a deactivated log never changes again |
| `LogHistory.AcceptsExactlyExtensions` | did-hosting-common/src/did_ops.rs:868-901 | An offer is accepted if and only if it appends entries to a live log or re-sends the same entries |
| `LogHistory.DeactivationIsFinal` | did-hosting-common/src/did_ops.rs:887-899 | Once a held entry deactivates the DID, exactly the same entries are accepted |
| `LogHistory.LiveLogGoesOn` | did-hosting-common/src/did_ops.rs:868-886 | Until then, exactly what goes on from the held entries |
| `OutboxProtocol.NeverResurrected` | did-hosting-control/src/outbox.rs:271-295 | Under every interleaving of worker, acknowledgers and superseders, a row that has left the queue is never there again |
| `OutboxProtocol.LeavesForCause` | did-hosting-control/src/outbox.rs:339-373 | A row leaves only by its own target's acknowledgement of a document recorded as sent for it, by a supersession that names its target and type and matches its body, or by the retry or age budget |
| `OutboxProtocol.AckIsCurrentIff` | did-hosting-control/src/outbox.rs:365-373 | The acknowledged document is still the one the row awaits exactly when the row was not written between the acknowledger's read and its removal |
| `OutboxHistory.AwaitedIsLastIff` | did-hosting-control/src/outbox.rs:324-337 | In every reachable state, the document a row awaits is the last one handed over for it exactly when that last one has been recorded |
| `OutboxHistory.AckIsLastIff` | did-hosting-control/src/outbox.rs:359-373 | The acknowledged document is the last one handed over for its row exactly when it was at the acknowledger's read and the row has not been handed over again since, whatever else was written to it |
| `OutboxHistory.UnrecordedResendIsRetired` | did-hosting-control/src/outbox.rs:359-373 | A concrete run in which the row is unwritten and awaits the acknowledged document, another is the last handed over but not yet recorded, and the row is removed |
| `OutboxProtocol.StaleAckRetiresResentRow` | did-hosting-control/src/outbox.rs:365-373 | A concrete run in which it is not: the acknowledgement of its first document removes a row that has been sent again |
| `OutboxProtocol.BudgetOverRuns` | did-hosting-control/src/outbox.rs:479-510 | In every reachable state, restarts included, a row has been sent at most fifty times and once more for each attempt that a restart cut short before it was recorded; every other attempt but the one in flight is on the row's books |
| `OutboxHistory.RestartsExceedBudget` | did-hosting-control/src/outbox.rs:479-594 | For every n a concrete run with restarts in which a row has been sent n times and still has its whole budget |
| `OutboxOrder.InsertIsSafeIff` | did-hosting-control/src/outbox.rs:178-199 | An insert leaves it safe, in whatever follows, that nothing queued stands ahead of an attempted row, if and only if its key is not ahead of one that was attempted, in flight included, or that the worker's snapshot is about to send |
| `OutboxOrder.OrderHoldsIff` | did-hosting-control/src/outbox.rs:178-199 | For every run from an empty outbox, that order is safe throughout exactly when no insert cuts in so; both for rows still queued and for all rows ever attempted |
| `OutboxOrder.OneInFlight` | did-hosting-control/src/outbox.rs:472-594 | Then only the first row of a queue has attempts or awaits an ack, and at most one is in flight |
| `OutboxOrder.SendsFollowKeys` | did-hosting-control/src/outbox.rs:472-594 | And attempts on a target follow its keys |
| `OutboxOrder.InsertsInKeyOrder` | did-hosting-control/src/outbox.rs:143-155 | Rows of a target inserted in the order of their keys never cut in |
| `OutboxOrder.TwoInFlight` | did-hosting-control/src/outbox.rs:196-197 | A concrete run of two enqueues whose inserts land in the other order: two rows of one target end up in flight, the later sent first |
| `OutboxProtocol.PayloadIsFixed` | did-hosting-control/src/outbox.rs:284-337 | No step changes a row's payload or gives an attempt back |
| `OutboxProtocol.RunKeepsInv` | did-hosting-control/src/outbox.rs:178-594 | The protocol invariant holds over every run, in whatever order inserts land |
| `OutboxQueue.Outbox.RunTick` | did-hosting-control/src/outbox.rs:436-596 | An undisturbed tick leaves the rows that the per-queue rule gives, and hands over exactly the due first rows: drop the spent rows in front, attempt the next one if due |
| `OutboxQueue.Outbox.TickTarget` | did-hosting-control/src/outbox.rs:472-594 | The same for one target |
| `OutboxBudget.TickMeans` | did-hosting-control/src/outbox.rs:472-594 | In numbers: a row leaves a tick exactly when it and all ahead of it have fifty attempts or are 604,800 seconds old, or when it is the first that does not and is not, is due, and is answered; only such a one is handed over; a failure puts it off by 2, 4, ..., 256, then 300 seconds, a hand-over by 60; nothing else changes |
| `OutboxBudget.FreshRowGoesOut` | did-hosting-control/src/outbox.rs:178-199 | A row put in an empty queue is handed over by every undisturbed tick within its seven days |
| `OutboxBudget.BudgetsOverRuns` | did-hosting-control/src/outbox.rs:479-503 | In every run a row is handed over only in a tick that began less than 604,800 seconds after its enqueue and with fewer than fifty attempts made, and dropped by the worker only in one that began later or with fifty made |
| `OutboxBudget.SlowTickSendsLate` | did-hosting-control/src/outbox.rs:470-503 | A concrete run in which a tick that began in time hands a row over when it is seven days old by the clock |
| `OutboxBudget.WaitsOverRuns` | did-hosting-control/src/outbox.rs:297-337 | Over any run, restarts included, a row is not handed over before the time last written for it |
| `OutboxBudget.AttemptPutsOff` | did-hosting-control/src/outbox.rs:297-337 | What is written after a hand-over at a time is due 60 seconds later, after the n-th attempt has failed 2, 4, ..., 256, then 300 seconds later; message, body and enqueue time stay |
| `OutboxDrain.QueueDrains` | did-hosting-control/src/outbox.rs:479-594 | However deliveries go, a queue of n rows to which none is added is empty after at most 51 n due ticks |
| `OutboxQueue.HeadIsDoomedOrLeads` | did-hosting-control/src/outbox.rs:479-510 | In a nonempty queue the first row is dropped or leads |
| `OutboxQueue.RetrySpan` | did-hosting-control/src/outbox.rs:167-172 | The waits before the fiftieth failed attempt add up to 12,810 seconds |
| `OutboxQueue.FailuresAddUp` | did-hosting-control/src/outbox.rs:305-319 | A run of failures, each retried when due, schedules exactly those waits |
| `OutboxQueue.Outbox.RewriteIfPresent` | did-hosting-control/src/outbox.rs:284-295 | A row is rewritten only if still queued |
| `OutboxQueue.Outbox.RecordFailure` | did-hosting-control/src/outbox.rs:305-319 | One more attempt, the backoff it earns, no awaited document |
| `OutboxQueue.Outbox.RecordSent` | did-hosting-control/src/outbox.rs:324-337 | One more attempt, the document awaited, due again after the ack timeout |
| `OutboxQueue.Outbox.DropQueued` | did-hosting-control/src/outbox.rs:343-357 | Exactly the target's rows of the type and body are dropped, and counted |
| `OutboxQueue.Outbox.Acknowledge` | did-hosting-control/src/outbox.rs:365-373 | Removes one row of the signer that awaits the document, if there is one, and nothing else |
| `OutboxQueue.Outbox.ListPendingForTarget` | did-hosting-control/src/outbox.rs:242-268 | Exactly the target's rows, in key order |
| `OutboxQueue.Outbox.Enqueue` | did-hosting-control/src/outbox.rs:178-199 | A fresh row without attempts, due at once, under its key; every other row as it was |
| `OutboxKey.TargetRoundTrip` | did-hosting-control/src/outbox.rs:143-145 | The target read back from a key is the one it was built from, whatever colons it holds |
| `OutboxKey.ListTargetsIsExact` | did-hosting-control/src/outbox.rs:214-238 | The targets listed are exactly those with queued rows |
| `OutboxKey.StorageOrderIsEnqueueOrder` | did-hosting-control/src/outbox.rs:143-145 | Below 10^20 microseconds, one target's keys sort as strings exactly as by time and uuid |
| `OutboxKey.ScanIsExact` | did-hosting-control/src/outbox.rs:242-268 | The prefix scan returns exactly one target's rows if and only if no queued row of another target has a target that begins with this one and a colon, or one that this one is followed by a colon and the row's own time |
| `OutboxKey.ApartScansAreExact` | did-hosting-control/src/outbox.rs:242-268 | So it does whenever no other queued target is this one followed by a colon, or the reverse |
| `OutboxKey.ScanLeaks` | did-hosting-control/src/outbox.rs:242-248 | A row whose target goes on from the scanned one after a colon is returned |
| `ChallengeSet.TrackerMeansSet` | did-hosting-control/src/pending_challenges.rs:300-450 | Over any run the tracker answers every call as the never-pruned set of (did, expiry, session) filtered by the clock does |
| `ChallengeSet.SeededTrackerMeansSet` | did-hosting-control/src/pending_challenges.rs:392-450 | Also from boot on, after sessions have been reloaded |
| `ChallengeSet.SoundOverRuns` | did-hosting-control/src/pending_challenges.rs:300-384 | Over every run, seeded or not, a session holds one member at most, if sessions are bound fresh |
| `PendingChallenges.AgreeingIsSound` | did-hosting-control/src/pending_challenges.rs:134-148 | As it does whenever the four structures agree |
| `ChallengeSet.ReleaseFreesOne` | did-hosting-control/src/pending_challenges.rs:376-384 | A release frees exactly the one slot its session holds, if live, and no other |
| `ChallengeSet.ReleaseIsIdempotent` | did-hosting-control/src/pending_challenges.rs:376-384 | Releasing again, at any later time, frees nothing |
| `ChallengeSet.NeverAboveCap` | did-hosting-control/src/pending_challenges.rs:300-349 | No run lifts the members above the global cap, or above what seeding left if that was more |
| `ChallengeSet.NeverAboveOwnCap` | did-hosting-control/src/pending_challenges.rs:327-345 | No run lifts one DID's members above the cap it is asked with (one, where that is zero), or above what seeding left if that was more |
| `ChallengeSet.IssueIff` | did-hosting-control/src/pending_challenges.rs:300-349 | A challenge is issued exactly when fewer than the global cap count, and of the DID none or fewer than its cap; the global cap is named exactly when reached; what is issued counts for one TTL, and what else counted goes on counting |
| `ChallengeSet.BoundIsReleased` | did-hosting-control/src/pending_challenges.rs:353-384 | A reservation that is bound is freed by its session's release, while it counts, and nothing else is |
| `ChallengeSet.CancelUndoesIssue` | did-hosting-control/src/pending_challenges.rs:353-370 | A cancelled reservation leaves counting what counted before it was made |
| `ChallengeSet.CountsMean` | did-hosting-control/src/pending_challenges.rs:437-450 | The counts asked for are those of the members that have not run out, of the DID or altogether |
| `ChallengeSet.SeedMeans` | did-hosting-control/src/pending_challenges.rs:392-419 | Seeding gives each session whose challenge was sent and is still redeemable one member, until its last second is over, and no member to any other |
| `ChallengeSet.RetryAfterIsExact` | did-hosting-control/src/pending_challenges.rs:318-345 | A retry one whole second before the hint is refused at the same cap; the retry at the hint is refused exactly when as many as the cap survive, so it passes when the refusing count equals the cap |
| `ChallengeSet.OverfullHintFallsShort` | did-hosting-control/src/pending_challenges.rs:318-345 | Above the cap, which seeding can reach, a concrete hint falls short |
| `ChallengeSet.ZeroCapNeverOpens` | did-hosting-control/src/pending_challenges.rs:318-345 | At a cap of zero no retry passes |
| `PendingChallenges.PendingChallengeTracker.TryIssue` | did-hosting-control/src/pending_challenges.rs:300-349 | Reply and new set are the specified ones, while the four structures stay mutually consistent and sorted; an admission leaves the expiry queue within the global cap exactly when live members and waiting ids together number fewer than it |
| `PendingChallenges.PendingChallengeTracker.Prune` | did-hosting-control/src/pending_challenges.rs:168-179 | Exactly the members whose time has passed go, and the expiry queue loses its front up to the first live one |
| `PendingChallenges.PendingChallengeTracker.Insert` | did-hosting-control/src/pending_challenges.rs:181-201 | The new member is in all four structures |
| `PendingChallenges.PendingChallengeTracker.Remove` | did-hosting-control/src/pending_challenges.rs:150-164 | The member leaves three of them; its expiry row stays behind |
| `PendingChallenges.PendingChallengeTracker.Bind` | did-hosting-control/src/pending_challenges.rs:353-365 | The reservation takes its session; nothing else changes |
| `PendingChallenges.PendingChallengeTracker.CancelReservation` | did-hosting-control/src/pending_challenges.rs:368-370 | The reservation is handed back |
| `PendingChallenges.PendingChallengeTracker.ReleaseSession` | did-hosting-control/src/pending_challenges.rs:376-384 | Reply and new set are the specified ones; one slot is freed if the session held a live one, and none otherwise |
| `PendingChallenges.PendingChallengeTracker.SeedFromSessions` | did-hosting-control/src/pending_challenges.rs:392-419 | Exactly the redeemable sessions not yet tracked are added, whatever the caps |
| `PendingChallenges.PendingChallengeTracker.CountLive` | did-hosting-control/src/pending_challenges.rs:437-442 | The per-DID count is the number of live members of the DID |
| `PendingChallenges.PendingChallengeTracker.GlobalLive` | did-hosting-control/src/pending_challenges.rs:445-450 | The global count is the number of live members |
| `PendingChallenges.ExpiryQueueOutgrowsTheCap` | did-hosting-control/src/pending_challenges.rs:24-26 | The expiry queue is not capped: with a cap of two it grows as long as one likes |
| `PendingChallenges.LengthOfQueue` | did-hosting-control/src/pending_challenges.rs:144-146 | It is as long as the live members and the ids that only wait to be popped, together |
| `ExpiryQueue.QueueFollowsTtl` | did-hosting-control/src/pending_challenges.rs:168-179 | Over any run, a pruned queue is no longer than what was queued at the start and has not run out, plus the challenges issued within the last TTL |
| `ExpiryQueue.SlowIssuingKeepsTheCap` | did-hosting-control/src/pending_challenges.rs:24-26 | So an unseeded tracker keeps within the promised cap while no more challenges than that are issued in one TTL |
| `PendingChallenges.FrontIsOldest` | did-hosting-control/src/pending_challenges.rs:318-325 | The front of the pruned expiry queue is the oldest live member |
| `DueQueue.InsertLists` | did-hosting-control/src/pending_challenges.rs:207-210 | Sorted insertion keeps the queue an exact, ordered listing |
| `RateLimit.Limiter.TryConsume` | did-hosting-control/src/rate_limit.rs:92-129 | Verdict and buckets are the specified ones, and the map never exceeds its cap |
| `RateLimit.WindowBound` | did-hosting-control/src/rate_limit.rs:92-129 | No interval of one window admits more than 2 * max - 1 attempts of a source, one fewer than the stated twice |
| `RateLimit.WindowBoundIsTight` | did-hosting-control/src/rate_limit.rs:92-129 | A concrete run reaches it |
| `RateLimit.RetryHintIsExact` | did-hosting-control/src/rate_limit.rs:178-205 | Whatever is tried next by anyone, each attempt of the source before the hinted moment is refused and the first from it on is admitted |
| `RateLimit.FewSourcesNoEviction` | did-hosting-control/src/rate_limit.rs:98-102 | Fewer distinct sources than the cap keep the eviction from firing |
| `RateLimit.BothLimits` | did-hosting-control/src/rate_limit.rs:53-141 | So from a fresh start, with fewer sources than the cap, no interval of one window admits more than 59 challenges, or 19 redemptions, of one source |

## Left out

- did:web and did:webs slots, with their own verifiers and path grammar: every slot is did:webvh.
- Host and domain safety checks, ACL domain scopes and the caller's explicit `?domain=`: they only refuse more calls.
- Service badges, statistics, cache invalidation, identity rotation, logging and telemetry.
- Malformed stored rows and storage failures in the middle of an operation.
- Saturation of u64 and u32 counters, sizes and times: numbers are unbounded.
- JSON: entries, documents, proofs and witness rows are datatypes; a claim is an entry of `alsoKnownAs` already split by the agent-name parser.
- The random draw of mnemonics: the paths drawn are an input, and the bound of a hundred attempts is the length of that input.
- Transport of messages and their signing: a send is a nondeterministic success, failure or immediate answer, and the report a tick returns is not modelled.
- Truncation of recorded errors at a character boundary: errors are cut by characters.
- Resolving an agent name typed as the new owner of a slot: the new owner is given as a DID.
- `list_dids` and `list_all_dids`, the older unordered listings: they select as `ListDidsPage` does.
- Case-insensitive comparison of host names.
- The order in which a prefix scan yields keys is left open where the result does not depend on it.
- Listing.ListDidsPage: returns mnemonics, without the records' resolve counts.
- LockLimits.RegistrySurvivesInterleaving: holds for schedules in which no claim is overtaken and lockless operations keep off held paths; the lock enforces neither, and `LockLimits.AgreementHoldsIff` is the exact statement for all schedules.
- StaleCommits.SchedulesSerialize: covers schedules with the same two conditions, quotas included in the first; the exact statement for one commit is `StaleCommits.FinishIsSerialIff`.
- PathLock.NothingExemptSlipsIn: covers schedules in which create, rollback, delete and disable, which take no lock, keep off the path while it is held.
- PathLock.CommittedLogIsServed: the same schedules, and a count: whether the new log continues the old one is `SlotHistory.GoesOnIff`.
- PathLock: a caller plans in one step after the log and witness file were read; the reads of record, quotas and names within it are not interleaved.
- RateLimit.WindowBound: assumes that no eviction fires in between, which `RateLimit.FewSourcesNoEviction` gives for fewer sources than the cap.
- Quota.QuotaHoldsOverRuns: calls come one after the other, none by an administrator, who is exempt; `ConcurrentQuotas` has what interleaving does.
- The seeding of the tracker is one step, at boot, over the rows it is given; reading them from the session store is not modelled.
