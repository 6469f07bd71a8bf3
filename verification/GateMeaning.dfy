/** What the gates decide, in terms of the entries, the proofs and the crate's own answers alone
    (did-hosting-common/src/did_ops.rs:302-353, 380-427, 456-636, 744-849). */
module GateMeaning {
  import opened Common
  import opened WitnessFile
  import opened LogGates

  // ---------------------------------------------------------------------
  // Verification
  // ---------------------------------------------------------------------

  /** Each of these first entries has the next number, and the crate accepts it after the one
      before, establishing these parameters. */
  predicate Verified(lib: Library, es: seq<Entry>, ps: seq<Params>) {
    && |ps| <= |es|
    && forall i :: 0 <= i < |ps| ==> VerifiedAt(lib, es, ps, i)
  }

  predicate VerifiedAt(lib: Library, es: seq<Entry>, ps: seq<Params>, i: int)
    requires 0 <= i < |ps| <= |es|
  {
    && es[i].versionId.number == i + 1
    && lib.check(if i == 0 then None else Some(Checked(es[i - 1], ps[i - 1])), es[i]) == Some(ps[i])
  }

  /** The same from an entry on. */
  predicate VerifiedFrom(lib: Library, prev: Option<Checked>, es: seq<Entry>, ps: seq<Params>)
    decreases ps
  {
    ps == [] ||
      (&& es != []
       && es[0].versionId.number == (if prev.Some? then prev.value.entry.versionId.number + 1 else 1)
       && lib.check(prev, es[0]) == Some(ps[0])
       && VerifiedFrom(lib, Some(Checked(es[0], ps[0])), es[1..], ps[1..]))
  }

  lemma {:induction false} ChainIsVerified(lib: Library, prev: Option<Checked>, es: seq<Entry>)
    ensures VerifiedFrom(lib, prev, es, ChainFrom(lib, prev, es))
    decreases es
  {
    if es != [] && VerifyEntry(lib, prev, es[0]).Some? {
      var p := VerifyEntry(lib, prev, es[0]).value;
      ChainIsVerified(lib, Some(Checked(es[0], p)), es[1..]);
      assert ChainFrom(lib, prev, es)[1..] == ChainFrom(lib, Some(Checked(es[0], p)), es[1..]);
    }
  }

  lemma {:induction false} ChainIsLongest(lib: Library, prev: Option<Checked>, es: seq<Entry>, ps: seq<Params>)
    requires VerifiedFrom(lib, prev, es, ps)
    ensures ps <= ChainFrom(lib, prev, es)
    decreases es
  {
    if ps != [] {
      ChainIsLongest(lib, Some(Checked(es[0], ps[0])), es[1..], ps[1..]);
      assert ps == [ps[0]] + ps[1..];
    }
  }

  /** Entries verified in their places are verified one after the other. */
  lemma {:induction false} OneAfterTheOther(lib: Library, es: seq<Entry>, ps: seq<Params>, k: nat)
    requires k <= |ps| <= |es|
    ensures
      var prev := if k == 0 then None else Some(Checked(es[k - 1], ps[k - 1]));
      (k == 0 || es[k - 1].versionId.number == k) ==>
        (VerifiedFrom(lib, prev, es[k..], ps[k..]) <==> forall i :: k <= i < |ps| ==> VerifiedAt(lib, es, ps, i))
    decreases |ps| - k
  {
    if k < |ps| {
      OneAfterTheOther(lib, es, ps, k + 1);
      assert es[k..][0] == es[k] && ps[k..][0] == ps[k];
      assert es[k..][1..] == es[k + 1..] && ps[k..][1..] == ps[k + 1..];
      if forall i :: k <= i < |ps| ==> VerifiedAt(lib, es, ps, i) {
        assert VerifiedAt(lib, es, ps, k);
      }
    }
  }

  lemma VerifiedInOrder(lib: Library, es: seq<Entry>, ps: seq<Params>)
    requires |ps| <= |es|
    ensures Verified(lib, es, ps) <==> VerifiedFrom(lib, None, es, ps)
  {
    OneAfterTheOther(lib, es, ps, 0);
    assert es[0..] == es && ps[0..] == ps;
  }

  /** Verification goes as far as it can: its result is verified, and whatever is, is a part of
      it. */
  lemma ChainMeans(lib: Library, es: seq<Entry>, ps: seq<Params>)
    ensures Verified(lib, es, Chain(lib, es))
    ensures Verified(lib, es, ps) ==> ps <= Chain(lib, es)
  {
    ChainIsVerified(lib, None, es);
    VerifiedInOrder(lib, es, Chain(lib, es));
    if Verified(lib, es, ps) {
      VerifiedInOrder(lib, es, ps);
      ChainIsLongest(lib, None, es, ps);
    }
  }

  lemma WholeChainIff(lib: Library, es: seq<Entry>, ps: seq<Params>)
    requires |ps| == |es|
    ensures Verified(lib, es, ps) <==> Chain(lib, es) == ps
  {
    ChainMeans(lib, es, ps);
  }

  // ---------------------------------------------------------------------
  // Thresholds
  // ---------------------------------------------------------------------

  /** Enough of the entry's witnesses, each counted once, hold a proof for a version from `lo` to
      `hi`; an entry without witnesses needs none. */
  predicate Enough(p: Params, held: Held, lo: nat, hi: nat) {
    p.active.Some? ==>
      |(set w | w in p.active.value.members && exists v: nat :: (lo <= v <= hi && (w, v) in held))|
      >= p.active.value.threshold
  }

  lemma MeetsMeans(p: Params, held: Held, lo: nat, hi: nat)
    ensures Meets(p, held, lo, hi) <==> Enough(p, held, lo, hi)
  {
    if p.active.Some? {
      var w := p.active.value;
      var enough := set m | m in w.members && exists v: nat :: lo <= v <= hi && (m, v) in held;
      forall m | m in w.members ensures m in Backers(held, w, lo, hi) <==> m in enough {
        if v: nat :| lo <= v <= hi && (m, v) in held { assert (m, v).0 == m; }
        if Holds(held, m, lo, hi) {
          var x :| x in held && x.0 == m && lo <= x.1 <= hi;
          assert (m, x.1) == x;
        }
      }
      assert Backers(held, w, lo, hi) == enough;
    }
  }

  /** Who holds a proof for what, by a stored file: whoever signed one in a row for that version,
      if every row is as it should be, and nobody otherwise. */
  lemma HeldMeans(file: Option<Stored>, signer: string, n: nat)
    ensures (signer, n) in HeldBy(file) <==>
      && file.Some? && file.value.Rows?
      && (forall row :: row in file.value.rows ==> row.versionId.Some? && row.proofs.Some?)
      && exists row :: row in file.value.rows && SignedIn(row, signer, n)
  {
    if file.Some? && file.value.Rows? { HeldInRows(file.value.rows, signer, n); }
  }

  predicate SignedIn(row: FileRow, signer: string, n: nat) {
    && row.versionId.Some? && row.versionId.value.number == n && row.proofs.Some?
    && exists p :: p in row.proofs.value && p.signer == signer
  }

  lemma {:induction false} HeldInRows(rows: seq<FileRow>, signer: string, n: nat)
    ensures (signer, n) in HeldByRows(rows) <==> exists row :: row in rows && SignedIn(row, signer, n)
  {
    if rows != [] {
      HeldInRows(rows[1..], signer, n);
      if (signer, n) in HeldByRow(rows[0]) {
        var p :| p in rows[0].proofs.value && p.signer == signer;
        assert SignedIn(rows[0], signer, n);
      }
      forall row | row in rows && SignedIn(row, signer, n) ensures (signer, n) in HeldByRows(rows) {
        if row == rows[0] {
          var p :| p in row.proofs.value && p.signer == signer;
          assert (p.signer, row.versionId.value.number) in HeldByRow(row);
        } else {
          assert row in rows[1..];
        }
      }
    }
  }

  // ---------------------------------------------------------------------
  // The gates
  // ---------------------------------------------------------------------

  /** One to ten thousand entries, each read by the crate's parser, the last of a DID that begins
      `did:webvh:`. */
  ghost predicate Reads(lib: Library, lines: seq<string>, es: seq<Entry>) {
    && 1 <= |lines| <= 10_000 && |es| == |lines|
    && (forall i :: 0 <= i < |lines| ==> lib.parse(lines[i]) == Some(es[i]))
    && es[|es| - 1].didId.Some? && "did:webvh:" <= es[|es| - 1].didId.value
  }

  lemma ReadsMeans(lib: Library, lines: seq<string>)
    ensures WellFormed(lib, lines) ==> Reads(lib, lines, Entries(lib, lines))
    ensures (exists es :: Reads(lib, lines, es)) ==> WellFormed(lib, lines)
    ensures forall es :: Reads(lib, lines, es) ==> WellFormed(lib, lines) && es == Entries(lib, lines)
  {
    forall es | Reads(lib, lines, es) ensures WellFormed(lib, lines) && es == Entries(lib, lines) {
      assert Parses(lib, lines);
    }
  }

  /** The log is read as these entries, all of which verify with these parameters. */
  ghost predicate Sound(lib: Library, lines: seq<string>, es: seq<Entry>, ps: seq<Params>) {
    Reads(lib, lines, es) && |ps| == |es| && Verified(lib, es, ps)
  }

  lemma SoundMeans(lib: Library, lines: seq<string>, es: seq<Entry>, ps: seq<Params>)
    ensures Sound(lib, lines, es, ps) <==>
      WellFormed(lib, lines) && es == Entries(lib, lines) && ps == Chain(lib, es) && |ps| == |es|
  {
    ReadsMeans(lib, lines);
    if |ps| == |es| { WholeChainIff(lib, es, ps); }
  }

  /** None of the first `k` entries names witnesses; or the file is one that reads, and each of
      them has proofs enough for versions up to the `k`-th. */
  ghost predicate Cleared(ps: seq<Params>, file: Option<Stored>, k: nat)
    requires k <= |ps|
  {
    || (forall i :: 0 <= i < k ==> ps[i].active.None?)
    || (ReadableFile(file) && forall i :: 0 <= i < k ==> Enough(ps[i], HeldBy(file), i + 1, k))
  }

  predicate ReadableFile(file: Option<Stored>) {
    match file
    case None => true
    case Some(Blank) => true
    case Some(Unreadable) => false
    case Some(Rows(rows)) => forall row :: row in rows ==> row.versionId.Some? && row.proofs.Some?
  }

  /** The publish gate accepts exactly a sound log whose entries published so far are cleared. */
  lemma PublishGateMeans(lib: Library, lines: seq<string>, file: Option<Stored>, published: nat)
    ensures PublishAccepts(lib, lines, file, published) <==>
      exists es, ps :: Sound(lib, lines, es, ps) && Cleared(ps, file, Min(published, |ps|))
  {
    if PublishAccepts(lib, lines, file, published) {
      var es := Entries(lib, lines);
      var ps := Chain(lib, es);
      SoundMeans(lib, lines, es, ps);
      ClearedMeans(ps, file, Min(published, |ps|));
      assert Sound(lib, lines, es, ps) && Cleared(ps, file, Min(published, |ps|));
    }
    if es, ps :| Sound(lib, lines, es, ps) && Cleared(ps, file, Min(published, |ps|)) {
      SoundMeans(lib, lines, es, ps);
      ClearedMeans(ps, file, Min(published, |ps|));
    }
  }

  lemma ClearedMeans(ps: seq<Params>, file: Option<Stored>, k: nat)
    requires k <= |ps|
    ensures Cleared(ps, file, k) <==>
      (AnyWitnessed(ps[..k]) ==> Parse(file).Some? && PublishedMeet(ps, Parse(file).value, k))
  {
    forall i | 0 <= i < k ensures Meets(ps[i], HeldBy(file), i + 1, k) <==> Enough(ps[i], HeldBy(file), i + 1, k) {
      MeetsMeans(ps[i], HeldBy(file), i + 1, k);
    }
    assert AnyWitnessed(ps[..k]) <==> exists i :: 0 <= i < k && ps[i].active.Some? by {
      if i :| 0 <= i < k && ps[i].active.Some? { assert ps[..k][i].active.Some?; }
    }
  }

  /** What is served of a sound log is as many first entries as have proofs enough, each for
      versions from its own to the last. */
  lemma ServedMeans(lib: Library, lines: seq<string>, es: seq<Entry>, ps: seq<Params>, held: Held, r: Served, k: nat)
    requires Sound(lib, lines, es, ps) && IsServed(lib, lines, held, r) && k <= |ps|
    ensures k <= ServedCount(r, |lines|) <==> forall i :: 0 <= i < k ==> Enough(ps[i], held, i + 1, |ps|)
  {
    SoundMeans(lib, lines, es, ps);
    ServesLongestPrefix(lib, lines, held, r, k);
    forall i | 0 <= i < k ensures Meets(ps[i], held, es[i].versionId.number, es[|es| - 1].versionId.number)
                            <==> Enough(ps[i], held, i + 1, |ps|) {
      Numbered(lib, es, i);
      Numbered(lib, es, |es| - 1);
      MeetsMeans(ps[i], held, i + 1, |ps|);
    }
  }

  /** Content that is no did:webvh log is served as it is. */
  lemma ForeignIsServed(lib: Library, lines: seq<string>, held: Held, r: Served)
    requires IsServed(lib, lines, held, r) && forall es :: !Reads(lib, lines, es)
    ensures r == Verbatim
  {
    ReadsMeans(lib, lines);
  }

  /** A log whose chain breaks is served as it is, if all entries before the break have proofs enough,
      for versions up to the number the last one bears; otherwise as many of them as have. */
  lemma BrokenIsServed(lib: Library, lines: seq<string>, es: seq<Entry>, ps: seq<Params>, held: Held, r: Served)
    requires Broken(lib, lines, es, ps) && IsServed(lib, lines, held, r)
    ensures
      var hi, k := es[|es| - 1].versionId.number, ServedCount(r, |lines|);
      if EnoughUpTo(es, ps, held, hi, |ps|) then r == Verbatim
      else r != Verbatim && k < |ps| && EnoughUpTo(es, ps, held, hi, k) && !Enough(ps[k], held, k + 1, hi)
  {
    var hi := es[|es| - 1].versionId.number;
    ReadsMeans(lib, lines);
    BreaksAtChain(lib, es, ps);
    forall i | 0 <= i < |ps|
      ensures Meets(ps[i], held, es[i].versionId.number, hi) <==> Enough(ps[i], held, i + 1, hi) {
      Numbered(lib, es, i);
      MeetsMeans(ps[i], held, i + 1, hi);
    }
  }

  lemma BreaksAtChain(lib: Library, es: seq<Entry>, ps: seq<Params>)
    requires |ps| < |es| && Verified(lib, es, ps) && forall p :: !Verified(lib, es, ps + [p])
    ensures ps == Chain(lib, es)
  {
    var chain := Chain(lib, es);
    ChainMeans(lib, es, ps);
    if |ps| < |chain| {
      var longer := ps + [chain[|ps|]];
      assert longer == chain[..|ps| + 1];
      forall i | 0 <= i < |longer| ensures VerifiedAt(lib, es, longer, i) { assert VerifiedAt(lib, es, chain, i); }
      assert Verified(lib, es, longer);
    }
  }

  predicate EnoughUpTo(es: seq<Entry>, ps: seq<Params>, held: Held, hi: nat, k: nat)
    requires k <= |ps|
  {
    forall i :: 0 <= i < k ==> Enough(ps[i], held, i + 1, hi)
  }

  /** The entries read; the first of them verify, and the next one does not. */
  ghost predicate Broken(lib: Library, lines: seq<string>, es: seq<Entry>, ps: seq<Params>) {
    && Reads(lib, lines, es) && |ps| < |es| && Verified(lib, es, ps)
    && forall p :: !Verified(lib, es, ps + [p])
  }

  /** A proof is accepted for exactly a version of a sound log, from one of the witnesses in force
      for it, whose signature the crate accepts on that entry. */
  lemma UploadGateMeans(lib: Library, lines: seq<string>, version: VersionId, proof: Proof)
    ensures ProofAccepted(lib, lines, version, proof) <==>
      exists es, ps, i: nat :: Sound(lib, lines, es, ps) && SignedBy(lib, es, ps, version, proof, i)
  {
    if ProofAccepted(lib, lines, version, proof) {
      var es := Entries(lib, lines);
      SoundMeans(lib, lines, es, Chain(lib, es));
      var i: nat :| Vouches(lib, es, version, proof, i);
      assert SignedBy(lib, es, Chain(lib, es), version, proof, i);
    }
    if es, ps, i: nat :| Sound(lib, lines, es, ps) && SignedBy(lib, es, ps, version, proof, i) {
      SoundMeans(lib, lines, es, ps);
      assert Vouches(lib, es, version, proof, i);
    }
  }

  predicate SignedBy(lib: Library, es: seq<Entry>, ps: seq<Params>, version: VersionId, proof: Proof, i: nat) {
    && i < |ps| && i < |es| && es[i].versionId == version && lib.signed(es[i], proof)
    && ps[i].active.Some? && proof.signer in ps[i].active.value.members
  }

  /** A witness is to sign for exactly the last version of a sound log, none of whose earlier entries
      deactivates, and which lists it there, by its key or by that key's `did:key:`. */
  lemma WitnessGateMeans(lib: Library, lines: seq<string>, version: VersionId, did: string)
    ensures Witnessable(lib, lines, version, did) <==>
      exists es, ps :: Sound(lib, lines, es, ps) && ToSign(es, ps, version, did)
  {
    if Witnessable(lib, lines, version, did) {
      var es := Entries(lib, lines);
      SoundMeans(lib, lines, es, Chain(lib, es));
      assert ToSign(es, Chain(lib, es), version, did);
    }
    if es, ps :| Sound(lib, lines, es, ps) && ToSign(es, ps, version, did) {
      SoundMeans(lib, lines, es, ps);
    }
  }

  ghost predicate ToSign(es: seq<Entry>, ps: seq<Params>, version: VersionId, did: string) {
    var last := |es| - 1;
    && 0 <= last == |ps| - 1 && es[last].versionId == version && ps[last].scid.Some?
    && (forall i :: 0 <= i < last ==> !es[i].deactivates)
    && ps[last].active.Some?
    && exists w :: w in ps[last].active.value.members && (did == w || did == "did:key:" + w)
  }
}
