/** Usage and listings, read through the owner index
    (did-hosting-control/src/did_ops.rs:186-203, 1710-1782). */
module Listing {
  import opened Common
  import opened Paths
  import opened Lexicographic
  import opened SlotStore
  import opened SlotInvariant
  import opened Quota

  // ---------------------------------------------------------------------
  // The prefix scan
  // ---------------------------------------------------------------------

  /** Each key under the prefix once, with its value, in some order. */
  ghost predicate Scans(owners: Owners, prefix: string, rows: seq<(string, string)>) {
    && (forall i, j :: 0 <= i < j < |rows| ==> rows[i].0 != rows[j].0)
    && (forall i :: 0 <= i < |rows| ==> prefix <= rows[i].0 && Find(owners, rows[i].0) == Some(rows[i].1))
    && (forall key :: key in owners && prefix <= key ==> (key, owners[key]) in rows)
  }

  method PrefixIter(owners: Owners, prefix: string) returns (rows: seq<(string, string)>)
    ensures Scans(owners, prefix, rows)
  {
    rows := [];
    var left := owners.Keys;
    while left != {}
      invariant left <= owners.Keys
      invariant forall i :: 0 <= i < |rows| ==> rows[i].0 !in left
      invariant Scans(map key | key in owners && key !in left :: owners[key], prefix, rows)
    {
      var key :| key in left;
      left := left - {key};
      if prefix <= key {
        rows := rows + [(key, owners[key])];
      }
    }
    assert owners == map key | key in owners && key !in left :: owners[key];
  }

  /** The rows so far that survive the re-check of the record. */
  function Rechecked(records: Records, owner: string, rows: seq<(string, string)>): set<string> {
    set i | 0 <= i < |rows| && rows[i].1 in records && records[rows[i].1].owner == owner :: rows[i].1
  }

  lemma OneMoreRow(records: Records, owner: string, rows: seq<(string, string)>, i: nat)
    requires i < |rows|
    ensures Rechecked(records, owner, rows[..i + 1])
         == Rechecked(records, owner, rows[..i])
            + (if rows[i].1 in records && records[rows[i].1].owner == owner then {rows[i].1} else {})
  {
    var more, fewer := rows[..i + 1], rows[..i];
    forall m | m in Rechecked(records, owner, fewer) ensures m in Rechecked(records, owner, more) {
      var j :| 0 <= j < |fewer| && fewer[j].1 == m;
      assert more[j] == fewer[j];
    }
    if rows[i].1 in records && records[rows[i].1].owner == owner {
      assert more[i] == rows[i];
    }
    forall m | m in Rechecked(records, owner, more) && m != rows[i].1 ensures m in Rechecked(records, owner, fewer) {
      var j :| 0 <= j < |more| && more[j].1 == m;
      assert fewer[j] == more[j];
    }
  }

  /** No mnemonic comes up twice. */
  lemma RowsAreDistinct(s: Store, prefix: string, rows: seq<(string, string)>, i: nat, j: nat)
    requires OwnersExact(s) && Scans(s.owners, prefix, rows) && i < j < |rows|
    ensures rows[i].1 != rows[j].1
  {
    assert Find(s.owners, rows[i].0) == Some(rows[i].1);
    assert Find(s.owners, rows[j].0) == Some(rows[j].1);
  }

  lemma NotYetSeen(s: Store, owner: string, prefix: string, rows: seq<(string, string)>, i: nat)
    requires OwnersExact(s) && Scans(s.owners, prefix, rows) && i < |rows|
    ensures rows[i].1 !in Rechecked(s.records, owner, rows[..i])
  {
    forall j | 0 <= j < i ensures rows[..i][j].1 != rows[i].1 { RowsAreDistinct(s, prefix, rows, j, i); }
  }

  /** The scan with its re-check finds exactly the slots a brute-force filter of all
      records by owner finds, even when other DIDs extend this one. */
  lemma ScanIsFilter(s: Store, owner: string, rows: seq<(string, string)>)
    requires OwnersExact(s) && Scans(s.owners, OwnerPrefix(owner), rows)
    ensures Rechecked(s.records, owner, rows) == OwnedBy(s.records, owner)
  {
    forall m | m in OwnedBy(s.records, owner) ensures m in Rechecked(s.records, owner, rows) {
      var key := OwnerKey(owner, m);
      assert Find(s.owners, key) == Some(m);
      assert OwnerPrefix(owner) <= key;
      assert (key, m) in rows;
    }
  }

  /** Count and summed size of an owner's slots. */
  method OwnerUsage(s: Store, owner: string) returns (count: nat, total: nat)
    requires OwnersExact(s)
    ensures count == |OwnedBy(s.records, owner)|
    ensures total == Total(s.records, owner)
  {
    var rows := PrefixIter(s.owners, OwnerPrefix(owner));
    count, total := 0, 0;
    for i := 0 to |rows|
      invariant count == |Rechecked(s.records, owner, rows[..i])|
      invariant total == TotalSize(s.records, Rechecked(s.records, owner, rows[..i]))
    {
      OneMoreRow(s.records, owner, rows, i);
      NotYetSeen(s, owner, OwnerPrefix(owner), rows, i);
      var m := rows[i].1;
      if m in s.records && s.records[m].owner == owner {
        TakeOut(s.records, Rechecked(s.records, owner, rows[..i + 1]), m);
        assert Rechecked(s.records, owner, rows[..i + 1]) - {m} == Rechecked(s.records, owner, rows[..i]);
        count := count + 1;
        total := total + s.records[m].size;
      }
    }
    assert rows[..|rows|] == rows;
    ScanIsFilter(s, owner, rows);
  }

  // ---------------------------------------------------------------------
  // Listings
  // ---------------------------------------------------------------------

  /** Who asks, and what for. A `replica` is a hosting server this plane drives. */
  datatype View = View(auth: Auth, replica: bool, owner: Option<string>, domain: Option<string>)

  predicate SeesAll(v: View) {
    (v.auth.admin || v.replica) && v.owner.None?
  }

  function OwnerSeen(v: View): string {
    if v.auth.admin && v.owner.Some? then v.owner.value else v.auth.did
  }

  predicate OnDomain(h: Host, v: View, m: string) {
    v.domain.Some? ==> h.domainOf(m) == v.domain.value
  }

  function Visible(h: Host, records: Records, v: View): set<string> {
    set m | m in records && (SeesAll(v) || records[m].owner == OwnerSeen(v)) && OnDomain(h, v, m)
  }

  predicate Ascending(ms: seq<string>) {
    forall i, j :: 0 <= i < j < |ms| ==> LexLess(ms[i], ms[j])
  }

  /** All of a set, in order. */
  ghost predicate ListsAll(all: seq<string>, ms: set<string>) {
    Ascending(all) && forall m :: m in all <==> m in ms
  }

  lemma AscendingHead(ms: seq<string>, m: string)
    requires Ascending(ms) && m in ms
    ensures m == ms[0] || LexLess(ms[0], m)
  {
    var i :| 0 <= i < |ms| && ms[i] == m;
  }

  lemma HeadIsIn(ms: seq<string>)
    ensures ms != [] ==> ms[0] in ms
  {
  }

  /** The order leaves no choice. */
  lemma {:induction false} ListingIsUnique(a: seq<string>, b: seq<string>, ms: set<string>)
    requires ListsAll(a, ms) && ListsAll(b, ms)
    ensures a == b
  {
    if a == [] {
      HeadIsIn(b);
    } else {
      assert a[0] in ms && a[0] in b && b[0] in ms && b[0] in a;
      AscendingHead(a, b[0]);
      AscendingHead(b, a[0]);
      LexOrder(a[0], b[0], a[0]);
      TailLists(a, ms);
      TailLists(b, ms);
      ListingIsUnique(a[1..], b[1..], ms - {a[0]});
    }
  }

  lemma TailLists(a: seq<string>, ms: set<string>)
    requires ListsAll(a, ms) && a != []
    ensures ListsAll(a[1..], ms - {a[0]})
  {
    LexOrder(a[0], a[0], a[0]);
    forall m ensures m in a[1..] <==> m in ms - {a[0]} {
      if m in a[1..] {
        var i :| 0 <= i < |a[1..]| && a[1..][i] == m;
        assert LexLess(a[0], a[i + 1]);
      }
      assert a == [a[0]] + a[1..];
    }
  }

  /** Put a mnemonic in its place. */
  method SortIn(all: seq<string>, m: string) returns (r: seq<string>)
    requires Ascending(all) && m !in all
    ensures Ascending(r) && forall x :: x in r <==> x in all || x == m
  {
    var i := 0;
    while i < |all| && LexLess(all[i], m)
      invariant i <= |all| && forall j :: 0 <= j < i ==> LexLess(all[j], m)
    {
      i := i + 1;
    }
    forall j | i <= j < |all| ensures LexLess(m, all[j]) {
      LexOrder(all[i], m, all[i]);
      LexOrder(m, all[i], all[j]);
    }
    r := all[..i] + [m] + all[i..];
    assert all == all[..i] + all[i..];
  }

  method SortAll(ms: set<string>) returns (all: seq<string>)
    ensures ListsAll(all, ms)
  {
    all := [];
    var left := ms;
    while left != {}
      invariant left <= ms && ListsAll(all, ms - left)
    {
      var m :| m in left;
      left := left - {m};
      all := SortIn(all, m);
    }
  }

  /** The slots of one owner, by scan and re-check. */
  method OwnedSlots(s: Store, owner: string) returns (ms: set<string>)
    requires OwnersExact(s)
    ensures ms == OwnedBy(s.records, owner)
  {
    var rows := PrefixIter(s.owners, OwnerPrefix(owner));
    ms := {};
    for i := 0 to |rows|
      invariant ms == Rechecked(s.records, owner, rows[..i])
    {
      OneMoreRow(s.records, owner, rows, i);
      var m := rows[i].1;
      if m in s.records && s.records[m].owner == owner {
        ms := ms + {m};
      }
    }
    assert rows[..|rows|] == rows;
    ScanIsFilter(s, owner, rows);
  }

  const MAX_LIST_LIMIT: nat := 1000

  function Cap(limit: Option<nat>): nat {
    if limit.Some? then Min(limit.value, MAX_LIST_LIMIT) else MAX_LIST_LIMIT
  }

  /** Skip, then take. */
  function Page(all: seq<string>, offset: nat, limit: nat): seq<string> {
    all[Min(offset, |all|)..Min(offset + limit, |all|)]
  }

  /** One page of what the caller may see, and the size of the whole. The whole is the
      brute-force selection in mnemonic order. */
  method ListDidsPage(h: Host, s: Store, v: View, limit: Option<nat>, offset: Option<nat>)
    returns (page: seq<string>, total: nat)
    requires OwnersExact(s)
    ensures exists all ::
      && ListsAll(all, Visible(h, s.records, v)) && total == |all|
      && page == Page(all, if offset.Some? then offset.value else 0, Cap(limit))
  {
    var ms: set<string>;
    if SeesAll(v) {
      ms := s.records.Keys;
    } else {
      ms := OwnedSlots(s, OwnerSeen(v));
    }
    ms := set m | m in ms && OnDomain(h, v, m);
    assert ms == Visible(h, s.records, v);
    var sorted := SortAll(ms);
    total := |sorted|;
    page := Page(sorted, if offset.Some? then offset.value else 0, Cap(limit));
  }

  /** Pages read one after the other. */
  function Walk(all: seq<string>, offset: nat, limit: nat): seq<string>
    requires limit > 0
    decreases |all| - offset
  {
    if offset >= |all| then [] else Page(all, offset, limit) + Walk(all, offset + limit, limit)
  }

  /** Paging is stable: walking the pages returns everything visible, each once, in
      order. */
  lemma {:induction false} PagesCoverAll(all: seq<string>, offset: nat, limit: nat)
    requires limit > 0 && offset <= |all|
    ensures Walk(all, offset, limit) == all[offset..]
    decreases |all| - offset
  {
    if offset < |all| {
      if offset + limit <= |all| {
        PagesCoverAll(all, offset + limit, limit);
        assert all[offset..] == all[offset..offset + limit] + all[offset + limit..];
      }
    }
  }

  /** Who sees which slots, whatever owner is asked for: an administrator the owner's, or with none
      asked for every one; a replica with none asked for every one; and everybody else their own;
      in each case on the domain asked for alone. */
  lemma SeesMeans(h: Host, records: Records, v: View, m: string)
    ensures m in Visible(h, records, v) <==>
      && m in records && (v.domain.Some? ==> h.domainOf(m) == v.domain.value)
      && if v.auth.admin then v.owner.Some? ==> records[m].owner == v.owner.value
         else (v.replica && v.owner.None?) || records[m].owner == v.auth.did
  {
  }

  /** A page holds at most a thousand slots, and no more than asked for, all of them the caller's to
      see; it is short only at the end. */
  lemma PageMeans(h: Host, s: Store, v: View, all: seq<string>, offset: nat, limit: Option<nat>)
    requires ListsAll(all, Visible(h, s.records, v))
    ensures
      var page := Page(all, offset, Cap(limit));
      && |page| <= 1000 && (limit.Some? ==> |page| <= limit.value)
      && (|page| < 1000 && (limit.Some? ==> |page| < limit.value) ==> offset + |page| >= |all|)
      && (forall i :: 0 <= i < |page| ==> offset + i < |all| && page[i] == all[offset + i])
      && (forall i :: 0 <= i < |page| ==> page[i] in s.records)
      && (!v.auth.admin && !v.replica ==> forall i :: 0 <= i < |page| ==> OwnedIn(s, v.auth, page[i]))
  {
    var page := Page(all, offset, Cap(limit));
    forall i | 0 <= i < |page| ensures page[i] in Visible(h, s.records, v) { assert page[i] in all; }
    forall i | 0 <= i < |page| && !v.auth.admin && !v.replica ensures OwnedIn(s, v.auth, page[i]) {
      SeesMeans(h, s.records, v, page[i]);
    }
  }

  predicate OwnedIn(s: Store, caller: Auth, m: string) {
    m in s.records && s.records[m].owner == caller.did
  }
}
