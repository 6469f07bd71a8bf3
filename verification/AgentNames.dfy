/** Agent names: which may be bound, and how a published document's claims are
    reconciled with the registry (did-hosting-common/src/server/mnemonic.rs:187-309,
    did-hosting-common/src/did_ops.rs:1032-1050, did-hosting-control/src/did_ops.rs:988-1082). */
module AgentNames {
  import opened Common
  import opened Paths

  // ---------------------------------------------------------------------
  // Which names may be bound
  // ---------------------------------------------------------------------

  const RESERVED_COUNT: nat := 14

  /** The names nobody may bind. */
  function ReservedName(i: nat): string
    requires i < RESERVED_COUNT
  {
    if i == 0 then "abuse" else if i == 1 then "admin" else if i == 2 then "administrator" else if i == 3 then "api"
    else if i == 4 then "help" else if i == 5 then "hostmaster" else if i == 6 then "info"
    else if i == 7 then "postmaster"
    else if i == 8 then "root" else if i == 9 then "security" else if i == 10 then "support"
    else if i == 11 then "sysadmin"
    else if i == 12 then "webmaster" else "well-known"
  }

  predicate IsReserved(bare: string) {
    exists i: nat :: i < RESERVED_COUNT && ReservedName(i) == bare
  }

  function Bare(name: string): string {
    if name != [] && name[0] == '@' then name[1..] else name
  }

  /** May `mnemonic` bind `name`? Only the root slot may bind the empty name. */
  function ValidateBinding(name: string, mnemonic: string): Option<Error> {
    var bare := Bare(name);
    if bare == [] then (if mnemonic == ROOT then None else Some(NameReserved))
    else if !SegmentOk(bare) then Some(NameMalformed)
    else if IsReserved(bare) then Some(NameReserved)
    else None
  }

  /** A name that may be bound holds no colon. */
  lemma BindableIsColonFree(name: string, mnemonic: string)
    requires ValidateBinding(name, mnemonic) == None
    ensures ':' !in name && ':' !in Bare(name)
  {
    assert name == Bare(name) || name == ['@'] + Bare(name);
  }

  // ---------------------------------------------------------------------
  // What a document claims
  // ---------------------------------------------------------------------

  /** An `alsoKnownAs` entry that parses as an agent name. */
  datatype Alias = Alias(authority: string, local: string)

  predicate NoRepeats(names: seq<string>) {
    forall i, j :: 0 <= i < j < |names| ==> names[i] != names[j]
  }

  function Claims(aliases: seq<Alias>, domain: string): (names: seq<string>)
    ensures NoRepeats(names)
  {
    if aliases == [] then []
    else
      var before := Claims(aliases[..|aliases| - 1], domain);
      var a := aliases[|aliases| - 1];
      if a.authority == domain && a.local !in before then before + [a.local] else before
  }

  /** A document claims exactly the names it lists on the domain. */
  lemma {:induction false} ClaimsAreListed(aliases: seq<Alias>, domain: string, name: string)
    ensures name in Claims(aliases, domain) <==> Alias(domain, name) in aliases
  {
    if aliases != [] {
      ClaimsAreListed(aliases[..|aliases| - 1], domain, name);
      assert aliases == aliases[..|aliases| - 1] + [aliases[|aliases| - 1]];
    }
  }

  // ---------------------------------------------------------------------
  // Reconciliation
  // ---------------------------------------------------------------------

  datatype NameEntry = NameEntry(name: string, enabled: bool, createdAt: nat)

  /** `name:{domain}:{name}` to the mnemonic that holds it. */
  type Index = map<(string, string), string>

  predicate Held(index: Index, domain: string, name: string, mnemonic: string) {
    (domain, name) in index && index[(domain, name)] == mnemonic
  }

  predicate HeldByOther(index: Index, domain: string, name: string, mnemonic: string) {
    (domain, name) in index && index[(domain, name)] != mnemonic
  }

  /** The registry entries to keep, and the index entries to write and to retire. */
  datatype Plan = Plan(names: seq<NameEntry>, claimed: seq<string>, released: seq<string>)

  predicate Unique(names: seq<NameEntry>) {
    forall i, j :: 0 <= i < j < |names| ==> names[i].name != names[j].name
  }

  function NamesIn(names: seq<NameEntry>): set<string> {
    set e | e in names :: e.name
  }

  /** Why a claim refuses the whole publish, if it does. */
  function Objection(index: Index, domain: string, mnemonic: string, claim: string): Option<Error> {
    match ValidateBinding(claim, mnemonic)
    case Some(NameReserved) => Some(NameReserved)
    case Some(_) => None
    case None => if HeldByOther(index, domain, claim, mnemonic) then Some(NameTaken) else None
  }

  predicate Bindable(claim: string, mnemonic: string) {
    ValidateBinding(claim, mnemonic).None?
  }

  /** The first objection, in claim order. */
  function FirstObjection(index: Index, domain: string, mnemonic: string, claims: seq<string>): Option<Error> {
    if claims == [] then None
    else
      var o := Objection(index, domain, mnemonic, claims[0]);
      if o.Some? then o else FirstObjection(index, domain, mnemonic, claims[1..])
  }

  function Bindables(claims: seq<string>, mnemonic: string): seq<string> {
    if claims == [] then []
    else (if Bindable(claims[0], mnemonic) then [claims[0]] else []) + Bindables(claims[1..], mnemonic)
  }

  function Released(names: seq<NameEntry>, claimed: seq<string>, index: Index, domain: string,
                    mnemonic: string): seq<string> {
    if names == [] then []
    else
      var e := names[0];
      (if e.enabled && e.name !in claimed && Held(index, domain, e.name, mnemonic) then [e.name] else [])
      + Released(names[1..], claimed, index, domain, mnemonic)
  }

  function StillParked(names: seq<NameEntry>, claimed: seq<string>): seq<NameEntry> {
    if names == [] then []
    else (if !names[0].enabled && names[0].name !in claimed then [names[0]] else []) + StillParked(names[1..], claimed)
  }

  function CreatedAt(names: seq<NameEntry>, name: string, now: nat): nat {
    if names == [] then now
    else if names[0].name == name then names[0].createdAt
    else CreatedAt(names[1..], name, now)
  }

  function Asserted(names: seq<NameEntry>, claimed: seq<string>, now: nat): (r: seq<NameEntry>)
    ensures |r| == |claimed|
    ensures forall i :: 0 <= i < |r| ==> r[i] == NameEntry(claimed[i], true, CreatedAt(names, claimed[i], now))
  {
    seq(|claimed|, i requires 0 <= i < |claimed| => NameEntry(claimed[i], true, CreatedAt(names, claimed[i], now)))
  }

  function Reconcile(names: seq<NameEntry>, index: Index, domain: string, mnemonic: string, claims: seq<string>,
                     now: nat)
    : Result<Plan, Error>
  {
    match FirstObjection(index, domain, mnemonic, claims)
    case Some(e) => Err(e)
    case None =>
      var claimed := Bindables(claims, mnemonic);
      Ok(Plan(StillParked(names, claimed) + Asserted(names, claimed, now), claimed,
              Released(names, claimed, index, domain, mnemonic)))
  }

  /** The loops of the publish path: check the claims, retire what is no longer claimed,
      rebuild the registry. */
  method ReconcileAgentNames(names: seq<NameEntry>, index: Index, domain: string, mnemonic: string,
                             claims: seq<string>, now: nat)
    returns (r: Result<Plan, Error>)
    ensures r == Reconcile(names, index, domain, mnemonic, claims, now)
  {
    var checked := CheckClaims(index, domain, mnemonic, claims);
    match checked {
      case Err(e) => return Err(e);
      case Ok(claimed) =>
        var released := Retire(names, claimed, index, domain, mnemonic);
        var next := Rebuild(names, claimed, now);
        return Ok(Plan(next, claimed, released));
    }
  }

  lemma ClaimStep(index: Index, domain: string, mnemonic: string, claims: seq<string>)
    requires claims != []
    ensures
      var o := Objection(index, domain, mnemonic, claims[0]);
      FirstObjection(index, domain, mnemonic, claims) ==
        if o.Some? then o else FirstObjection(index, domain, mnemonic, claims[1..])
    ensures Bindables(claims, mnemonic)
         == (if Bindable(claims[0], mnemonic) then [claims[0]] else []) + Bindables(claims[1..], mnemonic)
  {
  }

  method CheckClaims(index: Index, domain: string, mnemonic: string, claims: seq<string>)
    returns (r: Result<seq<string>, Error>)
    ensures match FirstObjection(index, domain, mnemonic, claims)
            case Some(e) => r == Err(e)
            case None => r == Ok(Bindables(claims, mnemonic))
  {
    ghost var objection, bindables := FirstObjection(index, domain, mnemonic, claims), Bindables(claims, mnemonic);
    var claimed := [];
    var left := claims;
    while left != []
      invariant objection == FirstObjection(index, domain, mnemonic, left)
      invariant bindables == claimed + Bindables(left, mnemonic)
      decreases |left|
    {
      ClaimStep(index, domain, mnemonic, left);
      var name := left[0];
      left := left[1..];
      var refusal := ValidateBinding(name, mnemonic);
      if refusal == Some(NameReserved) {
        return Err(NameReserved);
      }
      if refusal.None? {
        if HeldByOther(index, domain, name, mnemonic) {
          return Err(NameTaken);
        }
        Regroup(claimed, [name], Bindables(left, mnemonic));
        claimed := claimed + [name];
      } else {
        assert [] + Bindables(left, mnemonic) == Bindables(left, mnemonic);
      }
    }
    assert claimed + [] == claimed;
    return Ok(claimed);
  }

  lemma Regroup<T>(a: seq<T>, b: seq<T>, c: seq<T>)
    ensures a + (b + c) == (a + b) + c
  {
  }

  method Retire(names: seq<NameEntry>, claimed: seq<string>, index: Index, domain: string, mnemonic: string)
    returns (released: seq<string>)
    ensures released == Released(names, claimed, index, domain, mnemonic)
  {
    released := [];
    var entries := names;
    while entries != []
      invariant Released(names, claimed, index, domain, mnemonic) ==
          released + Released(entries, claimed, index, domain, mnemonic)
    {
      var e := entries[0];
      if e.enabled && e.name !in claimed && Held(index, domain, e.name, mnemonic) {
        released := released + [e.name];
      }
      entries := entries[1..];
    }
  }

  method Rebuild(names: seq<NameEntry>, claimed: seq<string>, now: nat) returns (next: seq<NameEntry>)
    ensures next == StillParked(names, claimed) + Asserted(names, claimed, now)
  {
    next := KeepParked(names, claimed);
    ghost var parked := next;
    for i := 0 to |claimed|
      invariant next == parked + Asserted(names, claimed, now)[..i]
    {
      next := next + [NameEntry(claimed[i], true, CreatedAt(names, claimed[i], now))];
    }
  }

  method KeepParked(names: seq<NameEntry>, claimed: seq<string>) returns (parked: seq<NameEntry>)
    ensures parked == StillParked(names, claimed)
  {
    parked := [];
    var entries := names;
    while entries != []
      invariant StillParked(names, claimed) == parked + StillParked(entries, claimed)
    {
      if !entries[0].enabled && entries[0].name !in claimed {
        parked := parked + [entries[0]];
      }
      entries := entries[1..];
    }
  }

  // ---------------------------------------------------------------------
  // The edits of the agent-name verbs
  // ---------------------------------------------------------------------

  /** The first entry for `name`, enabled or parked. */
  function WithFlag(names: seq<NameEntry>, name: string, enabled: bool): seq<NameEntry> {
    if names == [] then []
    else if names[0].name == name then [names[0].(enabled := enabled)] + names[1..]
    else [names[0]] + WithFlag(names[1..], name, enabled)
  }

  function WithoutName(names: seq<NameEntry>, name: string): seq<NameEntry> {
    if names == [] then []
    else (if names[0].name != name then [names[0]] else []) + WithoutName(names[1..], name)
  }

  /** Entry by entry: every name and creation time stays, one flag changes. */
  lemma {:induction false} WithFlagAt(names: seq<NameEntry>, name: string, enabled: bool, i: nat)
    requires Unique(names) && i < |names|
    ensures |WithFlag(names, name, enabled)| == |names|
    ensures WithFlag(names, name, enabled)[i] ==
        if names[i].name == name then names[i].(enabled := enabled) else names[i]
  {
    if names[0].name != name && |names| > 1 {
      WithFlagAt(names[1..], name, enabled, if i > 0 then i - 1 else 0);
    }
  }

  lemma WithFlagKeepsNames(names: seq<NameEntry>, name: string, enabled: bool)
    requires Unique(names)
    ensures Unique(WithFlag(names, name, enabled))
    ensures forall e :: e in WithFlag(names, name, enabled) ==> e.name in NamesIn(names)
  {
    var after := WithFlag(names, name, enabled);
    forall i | 0 <= i < |names| ensures |after| == |names| && after[i].name == names[i].name {
      WithFlagAt(names, name, enabled, i);
    }
    forall e | e in after ensures e.name in NamesIn(names) {
      var i :| 0 <= i < |after| && after[i] == e;
      assert names[i] in names;
    }
  }

  lemma {:induction false} WithoutNameIs(names: seq<NameEntry>, name: string, e: NameEntry)
    ensures e in WithoutName(names, name) <==> e in names && e.name != name
  {
    if names != [] {
      WithoutNameIs(names[1..], name, e);
      assert e in names <==> e == names[0] || e in names[1..];
    }
  }

  lemma {:induction false} WithoutNameUnique(names: seq<NameEntry>, name: string)
    requires Unique(names)
    ensures Unique(WithoutName(names, name))
  {
    if names != [] {
      WithoutNameUnique(names[1..], name);
      var rest := WithoutName(names[1..], name);
      forall i | 0 <= i < |rest| ensures rest[i].name != names[0].name {
        WithoutNameIs(names[1..], name, rest[i]);
        var k :| 0 <= k < |names[1..]| && names[1..][k] == rest[i];
        assert names[k + 1] == rest[i];
      }
    }
  }

  // ---------------------------------------------------------------------
  // What reconciliation means
  // ---------------------------------------------------------------------

  lemma {:induction false} BindablesAre(claims: seq<string>, mnemonic: string, n: string)
    ensures n in Bindables(claims, mnemonic) <==> n in claims && Bindable(n, mnemonic)
  {
    if claims != [] {
      BindablesAre(claims[1..], mnemonic, n);
      assert n in claims <==> n == claims[0] || n in claims[1..];
    }
  }

  lemma {:induction false} ParkedAre(names: seq<NameEntry>, claimed: seq<string>, e: NameEntry)
    ensures e in StillParked(names, claimed) <==> e in names && !e.enabled && e.name !in claimed
  {
    if names != [] {
      ParkedAre(names[1..], claimed, e);
      assert e in names <==> e == names[0] || e in names[1..];
    }
  }

  /** Served until now, no longer claimed, and indexed to this slot. */
  ghost predicate Retirable(e: NameEntry, claimed: seq<string>, index: Index, domain: string, mnemonic: string) {
    e.enabled && e.name !in claimed && Held(index, domain, e.name, mnemonic)
  }

  lemma {:induction false} ReleasedAre(names: seq<NameEntry>, claimed: seq<string>, index: Index, domain: string,
                                       mnemonic: string, n: string)
    ensures n in Released(names, claimed, index, domain, mnemonic)
       <==> exists e :: e in names && e.name == n && Retirable(e, claimed, index, domain, mnemonic)
  {
    if names != [] {
      var rest := names[1..];
      ReleasedAre(rest, claimed, index, domain, mnemonic, n);
      assert forall e :: e in names <==> e == names[0] || e in rest;
    }
  }

  lemma {:induction false} RefusedIff(index: Index, domain: string, mnemonic: string, claims: seq<string>)
    ensures FirstObjection(index, domain, mnemonic, claims).Some?
       <==> exists n :: n in claims && Objection(index, domain, mnemonic, n).Some?
  {
    if claims != [] {
      var rest := claims[1..];
      RefusedIff(index, domain, mnemonic, rest);
      assert forall n :: n in claims <==> n == claims[0] || n in rest;
    }
  }

  lemma {:induction false} CreatedAtIs(names: seq<NameEntry>, e: NameEntry, now: nat)
    requires Unique(names) && e in names
    ensures CreatedAt(names, e.name, now) == e.createdAt
  {
    if names[0] != e {
      assert e in names[1..];
      assert names[0].name != e.name by { var j :| 0 <= j < |names| && names[j] == e; }
      CreatedAtIs(names[1..], e, now);
    }
  }

  lemma {:induction false} CreatedAtNew(names: seq<NameEntry>, name: string, now: nat)
    requires name !in NamesIn(names)
    ensures CreatedAt(names, name, now) == now
  {
    if names != [] {
      assert names[0] in names;
      CreatedAtNew(names[1..], name, now);
    }
  }

  lemma {:induction false} BindablesUnique(claims: seq<string>, mnemonic: string)
    requires NoRepeats(claims)
    ensures NoRepeats(Bindables(claims, mnemonic))
  {
    if claims != [] {
      BindablesUnique(claims[1..], mnemonic);
      var rest := Bindables(claims[1..], mnemonic);
      forall i | 0 <= i < |rest| ensures rest[i] != claims[0] {
        BindablesAre(claims[1..], mnemonic, rest[i]);
        var k :| 0 <= k < |claims[1..]| && claims[1..][k] == rest[i];
        assert claims[k + 1] == rest[i];
      }
    }
  }

  lemma {:induction false} ParkedUnique(names: seq<NameEntry>, claimed: seq<string>)
    requires Unique(names)
    ensures Unique(StillParked(names, claimed))
  {
    if names != [] {
      ParkedUnique(names[1..], claimed);
      var rest := StillParked(names[1..], claimed);
      forall i | 0 <= i < |rest| ensures rest[i].name != names[0].name {
        ParkedAre(names[1..], claimed, rest[i]);
        var k :| 0 <= k < |names[1..]| && names[1..][k] == rest[i];
        assert names[k + 1] == rest[i];
      }
    }
  }

  /** Reconciliation keeps names distinct within the record. */
  lemma PlanIsUnique(names: seq<NameEntry>, claimed: seq<string>, now: nat)
    requires Unique(names) && NoRepeats(claimed)
    ensures Unique(StillParked(names, claimed) + Asserted(names, claimed, now))
  {
    var parked, asserted := StillParked(names, claimed), Asserted(names, claimed, now);
    ParkedUnique(names, claimed);
    forall i, j | 0 <= i < |parked| && 0 <= j < |asserted| ensures parked[i].name != asserted[j].name {
      ParkedAre(names, claimed, parked[i]);
      assert asserted[j].name == claimed[j] && claimed[j] in claimed;
    }
  }

  /** The characterisation: afterwards the served names are exactly the bindable claims;
      a parked name survives, untouched, exactly when it is not claimed; creation times
      are kept; and only served, unclaimed names still indexed to this slot are
      released. */
  lemma ReconcileMeans(names: seq<NameEntry>, index: Index, domain: string, mnemonic: string, claims: seq<string>,
                       now: nat)
    requires Unique(names) && NoRepeats(claims)
    requires Reconcile(names, index, domain, mnemonic, claims, now).Ok?
    ensures
      var p := Reconcile(names, index, domain, mnemonic, claims, now).value;
      && Unique(p.names) && NoRepeats(p.claimed)
      && (forall n :: n in p.claimed <==> n in claims && Bindable(n, mnemonic))
      && (forall e :: e in p.names && e.enabled ==> e.name in p.claimed)
      && (forall e :: e in names && e.name in p.claimed ==> NameEntry(e.name, true, e.createdAt) in p.names)
      && (forall n :: n in p.claimed && n !in NamesIn(names) ==> NameEntry(n, true, now) in p.names)
      && (forall e :: e in p.names && !e.enabled <==> e in names && !e.enabled && e.name !in p.claimed)
      && (forall n :: n in p.released <==>
            exists e :: e in names && e.name == n && Retirable(e, p.claimed, index, domain, mnemonic))
      && (forall n :: n in p.claimed ==> !HeldByOther(index, domain, n, mnemonic))
  {
    var p := Reconcile(names, index, domain, mnemonic, claims, now).value;
    RefusedIff(index, domain, mnemonic, claims);
    BindablesUnique(claims, mnemonic);
    PlanIsUnique(names, p.claimed, now);
    forall n ensures n in p.claimed <==> n in claims && Bindable(n, mnemonic) { BindablesAre(claims, mnemonic, n); }
    forall e ensures e in StillParked(names, p.claimed) <==> e in names && !e.enabled && e.name !in p.claimed {
      ParkedAre(names, p.claimed, e);
    }
    forall n ensures n in p.released <==>
        exists e :: e in names && e.name == n && Retirable(e, p.claimed, index, domain, mnemonic) {
      ReleasedAre(names, p.claimed, index, domain, mnemonic, n);
    }
    forall n | n in p.claimed ensures !HeldByOther(index, domain, n, mnemonic) {
      assert Objection(index, domain, mnemonic, n).None?;
    }
    AssertedAre(names, p.claimed, now);
    forall e | e in names && e.name in p.claimed ensures NameEntry(e.name, true, e.createdAt) in p.names {
      CreatedAtIs(names, e, now);
    }
    forall n | n in p.claimed && n !in NamesIn(names) ensures NameEntry(n, true, now) in p.names {
      CreatedAtNew(names, n, now);
    }
  }

  lemma AssertedAre(names: seq<NameEntry>, claimed: seq<string>, now: nat)
    ensures forall n :: n in claimed ==> NameEntry(n, true, CreatedAt(names, n, now)) in Asserted(names, claimed, now)
    ensures forall e :: e in Asserted(names, claimed, now) ==> e.enabled && e.name in claimed
  {
    var asserted := Asserted(names, claimed, now);
    forall n | n in claimed ensures NameEntry(n, true, CreatedAt(names, n, now)) in asserted {
      var i :| 0 <= i < |claimed| && claimed[i] == n;
      assert asserted[i] in asserted;
    }
    forall e | e in asserted ensures e.enabled && e.name in claimed {
      var i :| 0 <= i < |asserted| && asserted[i] == e;
    }
  }

  /** The index after a plan: claims point here, releases are gone. */
  function Reindexed(index: Index, domain: string, mnemonic: string, claimed: seq<string>,
                     released: seq<string>): Index {
    map k | k in index.Keys + (set n | n in claimed :: (domain, n)) && !(k.0 == domain && k.1 in released) ::
      if k.0 == domain && k.1 in claimed then mnemonic else index[k]
  }

  lemma {:induction false} SameCreation(names: seq<NameEntry>, now: nat, claimed: seq<string>, later: nat, n: string)
    requires n in claimed && Unique(StillParked(names, claimed) + Asserted(names, claimed, now))
    ensures CreatedAt(StillParked(names, claimed) + Asserted(names, claimed, now), n, later) == CreatedAt(names, n, now)
  {
    var next := StillParked(names, claimed) + Asserted(names, claimed, now);
    var i :| 0 <= i < |claimed| && claimed[i] == n;
    assert next[|StillParked(names, claimed)| + i] == NameEntry(n, true, CreatedAt(names, n, now));
    CreatedAtIs(next, NameEntry(n, true, CreatedAt(names, n, now)), later);
  }

  lemma {:induction false} ParkedOfConcat(a: seq<NameEntry>, b: seq<NameEntry>, claimed: seq<string>)
    ensures StillParked(a + b, claimed) == StillParked(a, claimed) + StillParked(b, claimed)
  {
    if a == [] {
      assert a + b == b;
    } else {
      assert (a + b)[1..] == a[1..] + b;
      ParkedOfConcat(a[1..], b, claimed);
    }
  }

  lemma {:induction false} ParkedTwice(names: seq<NameEntry>, claimed: seq<string>)
    ensures StillParked(StillParked(names, claimed), claimed) == StillParked(names, claimed)
  {
    if names != [] {
      ParkedTwice(names[1..], claimed);
      var rest := StillParked(names[1..], claimed);
      if !names[0].enabled && names[0].name !in claimed {
        assert StillParked(names, claimed) == [names[0]] + rest && ([names[0]] + rest)[1..] == rest;
      } else {
        assert StillParked(names, claimed) == rest;
      }
    }
  }

  lemma {:induction false} NoneParked(b: seq<NameEntry>, claimed: seq<string>)
    requires forall i :: 0 <= i < |b| ==> b[i].enabled
    ensures StillParked(b, claimed) == []
  {
    if b != [] {
      NoneParked(b[1..], claimed);
    }
  }

  lemma RegistryStays(names: seq<NameEntry>, claimed: seq<string>, now: nat, later: nat)
    requires Unique(names) && NoRepeats(claimed)
    ensures
      var next := StillParked(names, claimed) + Asserted(names, claimed, now);
      StillParked(next, claimed) + Asserted(next, claimed, later) == next
  {
    var parked, asserted := StillParked(names, claimed), Asserted(names, claimed, now);
    var next := parked + asserted;
    PlanIsUnique(names, claimed, now);
    ParkedOfConcat(parked, asserted, claimed);
    ParkedTwice(names, claimed);
    NoneParked(asserted, claimed);
    forall i | 0 <= i < |claimed| ensures Asserted(next, claimed, later)[i] == asserted[i] {
      SameCreation(names, now, claimed, later, claimed[i]);
    }
    assert Asserted(next, claimed, later) == asserted;
  }

  lemma NoObjectionAfter(index: Index, domain: string, mnemonic: string, claims: seq<string>, p: Plan)
    requires FirstObjection(index, domain, mnemonic, claims).None?
    requires forall n :: n in p.released ==> n !in p.claimed
    ensures FirstObjection(Reindexed(index, domain, mnemonic, p.claimed, p.released), domain, mnemonic, claims).None?
  {
    var after := Reindexed(index, domain, mnemonic, p.claimed, p.released);
    RefusedIff(index, domain, mnemonic, claims);
    RefusedIff(after, domain, mnemonic, claims);
    forall n | n in claims ensures Objection(after, domain, mnemonic, n).None? {
      assert Objection(index, domain, mnemonic, n).None?;
    }
  }

  /** Reconciling the same claims again, at any later time, changes nothing and releases
      nothing. */
  lemma ReconcileIsIdempotent(names: seq<NameEntry>, index: Index, domain: string, mnemonic: string,
                              claims: seq<string>, now: nat, later: nat)
    requires Unique(names) && NoRepeats(claims)
    requires Reconcile(names, index, domain, mnemonic, claims, now).Ok?
    ensures
      var p := Reconcile(names, index, domain, mnemonic, claims, now).value;
      var after := Reindexed(index, domain, mnemonic, p.claimed, p.released);
      && Reconcile(p.names, after, domain, mnemonic, claims, later) == Ok(Plan(p.names, p.claimed, []))
      && Reindexed(after, domain, mnemonic, p.claimed, []) == after
  {
    var p := Reconcile(names, index, domain, mnemonic, claims, now).value;
    var after := Reindexed(index, domain, mnemonic, p.claimed, p.released);
    forall n | n in p.released ensures n !in p.claimed { ReleasedAre(names, p.claimed, index, domain, mnemonic, n); }
    NoObjectionAfter(index, domain, mnemonic, claims, p);
    BindablesUnique(claims, mnemonic);
    RegistryStays(names, p.claimed, now, later);
    NothingReleased(names, p.claimed, now, after, domain, mnemonic);
    ReindexedTwice(index, domain, mnemonic, p);
  }

  lemma ReindexedTwice(index: Index, domain: string, mnemonic: string, p: Plan)
    requires forall n :: n in p.released ==> n !in p.claimed
    ensures
      var after := Reindexed(index, domain, mnemonic, p.claimed, p.released);
      Reindexed(after, domain, mnemonic, p.claimed, []) == after
  {
    var after := Reindexed(index, domain, mnemonic, p.claimed, p.released);
    var again := Reindexed(after, domain, mnemonic, p.claimed, []);
    forall k ensures k in again <==> k in after {}
  }

  lemma NothingReleased(names: seq<NameEntry>, claimed: seq<string>, now: nat, index: Index, domain: string,
                        mnemonic: string)
    ensures Released(StillParked(names, claimed) + Asserted(names, claimed, now), claimed, index, domain, mnemonic)
         == []
  {
    var next := StillParked(names, claimed) + Asserted(names, claimed, now);
    AssertedAre(names, claimed, now);
    forall e | e in next ensures !Retirable(e, claimed, index, domain, mnemonic) { ParkedAre(names, claimed, e); }
    NoDropsNoneReleased(next, claimed, index, domain, mnemonic);
  }

  lemma {:induction false} NoDropsNoneReleased(names: seq<NameEntry>, claimed: seq<string>, index: Index,
                                               domain: string, mnemonic: string)
    requires forall e :: e in names ==> !Retirable(e, claimed, index, domain, mnemonic)
    ensures Released(names, claimed, index, domain, mnemonic) == []
  {
    if names != [] {
      assert names[0] in names;
      NoDropsNoneReleased(names[1..], claimed, index, domain, mnemonic);
    }
  }
}
