/** The gates over a did:webvh log: what may be published, what may be served, what may
    be witnessed (did-hosting-common/src/did_ops.rs:302-353, 456-636, 744-849).

    What the `didwebvh-rs` crate decides is a parameter. Two of its rules are spelled
    out as assumptions: verification numbers versions 1, 2, 3, ..., and an entry meets its
    threshold when enough distinct active witnesses hold a proof for a version between
    the entry's own and the highest one in scope (did:webvh, "DID Witnesses", "Witness
    Lists"). */
module LogGates {
  import opened Common
  import opened LogText
  import opened WitnessFile

  const MAX_LOG_ENTRIES: nat := 10_000

  /** A witness set in force. */
  datatype Witnesses = Witnesses(members: set<string>, threshold: nat)

  /** What verification establishes about an entry. */
  datatype Params = Params(active: Option<Witnesses>, scid: Option<string>)

  datatype Entry = Entry(versionId: VersionId, deactivates: bool, didId: Option<string>)

  datatype Checked = Checked(entry: Entry, params: Params)

  /** The crate's parser, its check of an entry against the one before it, and its
      check of a witness's signature. */
  datatype Library = Library(
    parse: string -> Option<Entry>,
    check: (Option<Checked>, Entry) -> Option<Params>,
    signed: (Entry, Proof) -> bool)

  function VerifyEntry(lib: Library, prev: Option<Checked>, e: Entry): Option<Params> {
    var due := if prev.Some? then prev.value.entry.versionId.number + 1 else 1;
    if e.versionId.number != due then None else lib.check(prev, e)
  }

  /** What is established about each entry, up to the first that fails. */
  function ChainFrom(lib: Library, prev: Option<Checked>, es: seq<Entry>): (ps: seq<Params>)
    ensures |ps| <= |es|
    decreases es
  {
    if es == [] then []
    else
      match VerifyEntry(lib, prev, es[0])
      case None => []
      case Some(p) => [p] + ChainFrom(lib, Some(Checked(es[0], p)), es[1..])
  }

  function Chain(lib: Library, es: seq<Entry>): (ps: seq<Params>)
    ensures |ps| <= |es|
  {
    ChainFrom(lib, None, es)
  }

  /** Verified entries are numbered on from the one before. */
  lemma {:induction false} NumberedFrom(lib: Library, prev: Option<Checked>, es: seq<Entry>, i: nat)
    requires i < |ChainFrom(lib, prev, es)|
    ensures es[i].versionId.number == (if prev.Some? then prev.value.entry.versionId.number + 1 else 1) + i
    decreases es
  {
    if i > 0 {
      var p := VerifyEntry(lib, prev, es[0]).value;
      NumberedFrom(lib, Some(Checked(es[0], p)), es[1..], i - 1);
    }
  }

  lemma Numbered(lib: Library, es: seq<Entry>, i: nat)
    requires i < |Chain(lib, es)|
    ensures es[i].versionId.number == i + 1
  {
    NumberedFrom(lib, None, es, i);
  }

  /** Verifying a prefix establishes the prefix of what verifying all would. */
  lemma {:induction false} ChainOfPrefix(lib: Library, prev: Option<Checked>, es: seq<Entry>, n: nat)
    requires n <= |es|
    ensures ChainFrom(lib, prev, es[..n]) == ChainFrom(lib, prev, es)[..Min(n, |ChainFrom(lib, prev, es)|)]
    decreases es
  {
    if n > 0 && VerifyEntry(lib, prev, es[0]).Some? {
      var p := VerifyEntry(lib, prev, es[0]).value;
      ChainOfPrefix(lib, Some(Checked(es[0], p)), es[1..], n - 1);
      assert es[..n][1..] == es[1..][..n - 1];
    }
  }

  const WEBVH := "did:webvh:"

  ghost predicate Parses(lib: Library, lines: seq<string>) {
    forall i :: 0 <= i < |lines| ==> lib.parse(lines[i]).Some?
  }

  function Entries(lib: Library, lines: seq<string>): (es: seq<Entry>)
    requires Parses(lib, lines)
    ensures |es| == |lines|
    ensures forall i :: 0 <= i < |lines| ==> es[i] == lib.parse(lines[i]).value
  {
    seq(|lines|, i requires 0 <= i < |lines| => lib.parse(lines[i]).value)
  }

  /** `validate_did_jsonl`: between one entry and the ceiling, each parsing, the last
      naming a did:webvh identifier. */
  ghost predicate WellFormed(lib: Library, lines: seq<string>) {
    && 1 <= |lines| <= MAX_LOG_ENTRIES && Parses(lib, lines)
    && var last := lib.parse(lines[|lines| - 1]).value;
       last.didId.Some? && WEBVH <= last.didId.value
  }

  predicate Holds(held: Held, m: string, lo: nat, hi: nat) {
    exists h :: h in held && h.0 == m && lo <= h.1 <= hi
  }

  /** The active witnesses holding a proof for a version in `[lo, hi]`. */
  function Backers(held: Held, w: Witnesses, lo: nat, hi: nat): set<string> {
    set m | m in w.members && Holds(held, m, lo, hi)
  }

  /** An entry without witnesses, or one whose threshold is met. */
  predicate Meets(p: Params, held: Held, lo: nat, hi: nat) {
    p.active.Some? ==> |Backers(held, p.active.value, lo, hi)| >= p.active.value.threshold
  }

  // ---------------------------------------------------------------------
  // Verifying a log
  // ---------------------------------------------------------------------

  method ValidateDidJsonl(lib: Library, lines: seq<string>) returns (ok: bool)
    ensures ok <==> WellFormed(lib, lines)
  {
    if |lines| == 0 || |lines| > MAX_LOG_ENTRIES {
      return false;
    }
    for i := 0 to |lines|
      invariant forall j :: 0 <= j < i ==> lib.parse(lines[j]).Some?
    {
      if lib.parse(lines[i]).None? {
        return false;
      }
    }
    var last := lib.parse(lines[|lines| - 1]).value;
    ok := last.didId.Some? && WEBVH <= last.didId.value;
  }

  method CollectEntries(lib: Library, lines: seq<string>) returns (es: seq<Entry>)
    requires Parses(lib, lines)
    ensures es == Entries(lib, lines)
  {
    es := [];
    for i := 0 to |lines|
      invariant es == Entries(lib, lines)[..i]
    {
      es := es + [lib.parse(lines[i]).value];
    }
  }

  /** Verify entries in order, up to the first that fails. */
  method VerifyChain(lib: Library, es: seq<Entry>) returns (ps: seq<Params>)
    ensures ps == Chain(lib, es)
  {
    ps := [];
    var prev: Option<Checked> := None;
    var rest := es;
    while rest != []
      invariant Chain(lib, es) == ps + ChainFrom(lib, prev, rest)
    {
      match VerifyEntry(lib, prev, rest[0]) {
        case None =>
          return;
        case Some(p) =>
          ps := ps + [p];
          prev := Some(Checked(rest[0], p));
      }
      rest := rest[1..];
    }
  }

  // ---------------------------------------------------------------------
  // The publish gate
  // ---------------------------------------------------------------------

  predicate AnyWitnessed(ps: seq<Params>) {
    exists i :: 0 <= i < |ps| && ps[i].active.Some?
  }

  /** The first `k` entries all meet their threshold from the proofs of versions up to
      the `k`-th. */
  ghost predicate PublishedMeet(ps: seq<Params>, held: Held, k: nat)
    requires k <= |ps|
  {
    forall i :: 0 <= i < k ==> Meets(ps[i], held, i + 1, k)
  }

  /** The whole chain verifies, and the entries already published, if any of them is
      witnessed, all meet their threshold. */
  ghost predicate PublishAccepts(lib: Library, lines: seq<string>, file: Option<Stored>, published: nat) {
    && WellFormed(lib, lines)
    && var ps := Chain(lib, Entries(lib, lines));
       var k := Min(published, |lines|);
       && |ps| == |lines|
       && (AnyWitnessed(ps[..k]) ==> Parse(file).Some? && PublishedMeet(ps, Parse(file).value, k))
  }

  method VerifyDidLogForPublish(lib: Library, content: string, file: Option<Stored>, previouslyPublished: nat)
    returns (ok: bool)
    ensures ok <==> PublishAccepts(lib, EntryLines(content), file, previouslyPublished)
  {
    var lines := EntryLines(content);
    var valid := ValidateDidJsonl(lib, lines);
    if !valid {
      return false;
    }
    var es := CollectEntries(lib, lines);
    var ps := VerifyChain(lib, es);
    if |ps| < |es| {
      return false;
    }
    var published := Min(previouslyPublished, |es|);
    if published == 0 {
      return true;
    }
    var needsWitness := AnyWitnessed(ps[..published]);
    if !needsWitness {
      return true;
    }
    var proofs := Parse(file);
    if proofs.None? {
      return false;
    }
    ok := ThresholdsMet(lib, es, ps, published, proofs.value);
  }

  method ThresholdsMet(lib: Library, es: seq<Entry>, ps: seq<Params>, published: nat, held: Held) returns (ok: bool)
    requires ps == Chain(lib, es) && |ps| == |es| && 0 < published <= |es|
    ensures ok <==> PublishedMeet(ps, held, published)
  {
    var highest := es[published - 1].versionId.number;
    Numbered(lib, es, published - 1);
    for i := 0 to published
      invariant forall j :: 0 <= j < i ==> Meets(ps[j], held, j + 1, published)
    {
      Numbered(lib, es, i);
      var met := Meets(ps[i], held, es[i].versionId.number, highest);
      if !met {
        return false;
      }
    }
    return true;
  }

  // ---------------------------------------------------------------------
  // Serving
  // ---------------------------------------------------------------------

  /** Nothing, the stored content as it is, or its first `k` entries. */
  datatype Served = Nothing | Verbatim | FirstEntries(k: nat)

  /** The first `k` entries verify and meet their thresholds. */
  ghost predicate Servable(es: seq<Entry>, ps: seq<Params>, held: Held, k: nat)
    requires 0 < |es| && |ps| <= |es|
  {
    k <= |ps| && forall i :: 0 <= i < k ==> Meets(ps[i], held, es[i].versionId.number, es[|es| - 1].versionId.number)
  }

  /** Entry `k` verifies but is short of proofs: serving ends before it. */
  ghost predicate EndsAt(es: seq<Entry>, ps: seq<Params>, held: Held, k: nat)
    requires 0 < |es| && |ps| <= |es|
  {
    && Servable(es, ps, held, k) && k < |ps|
    && !Meets(ps[k], held, es[k].versionId.number, es[|es| - 1].versionId.number)
  }

  /** What a resolver may serve. Content that is no did:webvh log, or whose chain breaks
      before any threshold fails, is not this gate's to judge. */
  ghost predicate IsServed(lib: Library, lines: seq<string>, held: Held, r: Served) {
    if !WellFormed(lib, lines) then r == Verbatim
    else
      var es := Entries(lib, lines);
      var ps := Chain(lib, es);
      match r
      case Nothing => EndsAt(es, ps, held, 0)
      case FirstEntries(k) => 0 < k && EndsAt(es, ps, held, k)
      case Verbatim => Servable(es, ps, held, |ps|)
  }

  method ServableDidLog(lib: Library, content: string, file: Option<Stored>) returns (r: Served)
    ensures IsServed(lib, EntryLines(content), HeldBy(file), r)
  {
    var lines := EntryLines(content);
    var valid := ValidateDidJsonl(lib, lines);
    if !valid {
      return Verbatim;
    }
    var es := CollectEntries(lib, lines);
    var servable, broken := ServablePrefix(lib, es, HeldBy(file));
    if broken || servable == |es| {
      return Verbatim;
    }
    if servable == 0 {
      return Nothing;
    }
    return FirstEntries(servable);
  }

  /** Walk the chain to the first entry that is short of proofs, or that is broken. */
  method ServablePrefix(lib: Library, es: seq<Entry>, proofs: Held) returns (servable: nat, broken: bool)
    requires 0 < |es|
    ensures servable <= |es| && Servable(es, Chain(lib, es), proofs, servable)
    ensures broken || servable == |es| ==> servable == |Chain(lib, es)|
    ensures !broken && servable < |es| ==> EndsAt(es, Chain(lib, es), proofs, servable)
  {
    var highest := es[|es| - 1].versionId.number;
    servable, broken := 0, false;
    var prev: Option<Checked> := None;
    ghost var ps := Chain(lib, es);
    while servable < |es|
      invariant servable <= |es| && servable <= |ps|
      invariant ps[servable..] == ChainFrom(lib, prev, es[servable..])
      invariant forall i :: 0 <= i < servable ==> Meets(ps[i], proofs, es[i].versionId.number, highest)
    {
      var params := VerifyEntry(lib, prev, es[servable]);
      ChainStep(lib, prev, es, servable);
      if params.None? {
        broken := true;
        return;
      }
      TailStep(ps, servable, params.value,
               ChainFrom(lib, Some(Checked(es[servable], params.value)), es[servable + 1..]));
      if !Meets(params.value, proofs, es[servable].versionId.number, highest) {
        return;
      }
      prev := Some(Checked(es[servable], params.value));
      servable := servable + 1;
    }
  }

  lemma ChainStep(lib: Library, prev: Option<Checked>, es: seq<Entry>, i: nat)
    requires i < |es|
    ensures ChainFrom(lib, prev, es[i..])
         == match VerifyEntry(lib, prev, es[i])
            case None => []
            case Some(p) => [p] + ChainFrom(lib, Some(Checked(es[i], p)), es[i + 1..])
  {
    assert es[i..][1..] == es[i + 1..];
  }

  lemma TailStep<T>(s: seq<T>, i: nat, x: T, tail: seq<T>)
    requires i <= |s| && s[i..] == [x] + tail
    ensures i < |s| && s[i] == x && s[i + 1..] == tail
  {
    assert s[i..][0] == x && s[i..][1..] == tail;
  }

  function ServedCount(r: Served, total: nat): nat {
    match r
    case Nothing => 0
    case Verbatim => total
    case FirstEntries(k) => k
  }

  /** There is exactly one answer. */
  lemma ServedIsUnique(lib: Library, lines: seq<string>, held: Held, r: Served, q: Served)
    requires IsServed(lib, lines, held, r) && IsServed(lib, lines, held, q)
    ensures r == q
  {
  }

  /** For a log whose chain holds, what is served is the longest prefix of entries that
      all meet their thresholds, and nothing exactly when the first does not. */
  lemma ServesLongestPrefix(lib: Library, lines: seq<string>, held: Held, r: Served, k: nat)
    requires WellFormed(lib, lines) && IsServed(lib, lines, held, r)
    requires |Chain(lib, Entries(lib, lines))| == |lines| && k <= |lines|
    ensures Servable(Entries(lib, lines), Chain(lib, Entries(lib, lines)), held, k) <==> k <= ServedCount(r, |lines|)
    ensures r == Nothing <==> !Servable(Entries(lib, lines), Chain(lib, Entries(lib, lines)), held, 1)
  {
  }

  /** More proofs never serve less. */
  lemma MoreProofsServeMore(lib: Library, lines: seq<string>, held: Held, more: Held, r: Served, q: Served)
    requires held <= more
    requires IsServed(lib, lines, held, r) && IsServed(lib, lines, more, q)
    ensures ServedCount(r, |lines|) <= ServedCount(q, |lines|)
  {
    if WellFormed(lib, lines) && !q.Verbatim? {
      var es := Entries(lib, lines);
      var ps := Chain(lib, es);
      var k := if q.Nothing? then 0 else q.k;
      var hi := es[|es| - 1].versionId.number;
      MeetsMonotone(ps[k], held, more, es[k].versionId.number, hi, hi);
      assert !Servable(es, ps, held, k + 1);
    }
  }

  lemma MeetsMonotone(p: Params, held: Held, more: Held, lo: nat, hi: nat, higher: nat)
    requires held <= more && hi <= higher
    ensures Meets(p, held, lo, hi) ==> Meets(p, more, lo, higher)
  {
    if p.active.Some? {
      SubsetSize(Backers(held, p.active.value, lo, hi), Backers(more, p.active.value, lo, higher));
    }
  }

  /** The publish gate implies resolvability: once a log passes it against the proofs
      stored, at least the entries that were already published are served, also when
      the stored file was never looked at. */
  lemma PublishImpliesServed(lib: Library, lines: seq<string>, file: Option<Stored>, published: nat, r: Served)
    requires PublishAccepts(lib, lines, file, published)
    requires IsServed(lib, lines, HeldBy(file), r)
    ensures ServedCount(r, |lines|) >= Min(published, |lines|)
  {
    var es := Entries(lib, lines);
    var ps := Chain(lib, es);
    var k := Min(published, |es|);
    forall i | 0 <= i < k ensures Meets(ps[i], HeldBy(file), es[i].versionId.number, es[|es| - 1].versionId.number) {
      Numbered(lib, es, i);
      Numbered(lib, es, |es| - 1);
      assert ps[..k][i] == ps[i];
      MeetsMonotone(ps[i], HeldBy(file), HeldBy(file), i + 1, k, |es|);
    }
    ServesLongestPrefix(lib, lines, HeldBy(file), r, k);
  }

  // ---------------------------------------------------------------------
  // Uploading proofs
  // ---------------------------------------------------------------------

  /** The version stands at `i`, and the proof is by one of the witnesses in force for
      it. */
  ghost predicate Vouches(lib: Library, es: seq<Entry>, version: VersionId, proof: Proof, i: nat) {
    && i < |Chain(lib, es)| && es[i].versionId == version
    && Chain(lib, es)[i].active.Some? && proof.signer in Chain(lib, es)[i].active.value.members
    && lib.signed(es[i], proof)
  }

  /** `verify_witness_proof_for_version`: the log verifies, and holds a version the
      proof vouches for. */
  ghost predicate ProofAccepted(lib: Library, lines: seq<string>, version: VersionId, proof: Proof) {
    && WellFormed(lib, lines) && |Chain(lib, Entries(lib, lines))| == |lines|
    && exists i :: Vouches(lib, Entries(lib, lines), version, proof, i)
  }

  method VerifyWitnessProof(lib: Library, content: string, version: VersionId, proof: Proof) returns (ok: bool)
    ensures ok <==> ProofAccepted(lib, EntryLines(content), version, proof)
  {
    var lines := EntryLines(content);
    var valid := ValidateDidJsonl(lib, lines);
    if !valid {
      return false;
    }
    var es := CollectEntries(lib, lines);
    var ps := VerifyChain(lib, es);
    if |ps| < |es| {
      return false;
    }
    var i := 0;
    while i < |es| && es[i].versionId != version
      invariant 0 <= i <= |es| && forall j :: 0 <= j < i ==> es[j].versionId != version
    {
      i := i + 1;
    }
    if i == |es| {
      return false;
    }
    Numbered(lib, es, i);
    forall j | Vouches(lib, es, version, proof, j) ensures j == i {
      Numbered(lib, es, j);
    }
    ok := ps[i].active.Some? && proof.signer in ps[i].active.value.members && lib.signed(es[i], proof);
    assert ok <==> Vouches(lib, es, version, proof, i);
  }

  /** Uploading a proof, into whatever file is stored, never shortens what is served. */
  lemma UploadNeverShortens(lib: Library, lines: seq<string>, file: Option<Stored>, version: VersionId, proof: Proof,
                            r: Served, q: Served)
    requires IsServed(lib, lines, HeldBy(file), r)
    requires IsServed(lib, lines, HeldBy(Some(Merge(file, version, proof))), q)
    ensures ServedCount(r, |lines|) <= ServedCount(q, |lines|)
  {
    MergeKeepsProofs(file, version, proof);
    MoreProofsServeMore(lib, lines, HeldBy(file), HeldBy(Some(Merge(file, version, proof))), r, q);
  }

  /** Several uploads, one after the other. */
  function MergeAll(file: Option<Stored>, version: VersionId, proofs: seq<Proof>): Option<Stored> {
    if proofs == [] then file
    else Some(Merge(MergeAll(file, version, proofs[..|proofs| - 1]), version, proofs[|proofs| - 1]))
  }

  function Signers(proofs: seq<Proof>): set<string> {
    set p | p in proofs :: p.signer
  }

  function HeldFor(signers: set<string>, version: VersionId): Held {
    set s | s in signers :: (s, version.number)
  }

  lemma OneMoreSigner(signers: set<string>, signer: string, version: VersionId)
    ensures HeldFor(signers + {signer}, version) == HeldFor(signers, version) + {(signer, version.number)}
  {
  }

  lemma {:induction false} MergeAllAdds(file: Option<Stored>, version: VersionId, proofs: seq<Proof>)
    requires Parse(file).Some?
    ensures Parse(MergeAll(file, version, proofs)) == Some(HeldBy(file) + HeldFor(Signers(proofs), version))
  {
    if proofs == [] {
      assert HeldBy(file) + HeldFor(Signers(proofs), version) == HeldBy(file);
    } else {
      var before, last := proofs[..|proofs| - 1], proofs[|proofs| - 1];
      MergeAllAdds(file, version, before);
      MergeKeepsProofs(MergeAll(file, version, before), version, last);
      assert proofs == before + [last];
      assert Signers(proofs) == Signers(before) + {last.signer};
      OneMoreSigner(Signers(before), last.signer, version);
      assert (HeldBy(file) + HeldFor(Signers(before), version)) + {(last.signer, version.number)}
          == HeldBy(file) + HeldFor(Signers(proofs), version);
    }
  }

  lemma NextUnlocked(lib: Library, es: seq<Entry>, file: Option<Stored>, k: nat, proofs: seq<Proof>)
    requires 0 < |es| == |Chain(lib, es)| && Parse(file).Some? && EndsAt(es, Chain(lib, es), HeldBy(file), k)
    requires
      var w := Chain(lib, es)[k].active.value;
      Signers(proofs) <= w.members && |Signers(proofs)| >= w.threshold
    ensures Servable(es, Chain(lib, es), HeldBy(MergeAll(file, es[k].versionId, proofs)), k + 1)
  {
    var ps, after := Chain(lib, es), HeldBy(MergeAll(file, es[k].versionId, proofs));
    MergeAllAdds(file, es[k].versionId, proofs);
    Numbered(lib, es, k);
    Numbered(lib, es, |es| - 1);
    QuorumMeets(ps[k], after, Signers(proofs), es[k].versionId, |es|);
    NextServable(es, ps, HeldBy(file), after, k);
  }

  /** Serving ends at an entry short of proofs; once a threshold of its witnesses have
      each uploaded one for it, it is served too. */
  lemma QuorumUnlocks(lib: Library, lines: seq<string>, file: Option<Stored>, k: nat, proofs: seq<Proof>, q: Served)
    requires WellFormed(lib, lines) && |Chain(lib, Entries(lib, lines))| == |lines|
    requires Parse(file).Some? && EndsAt(Entries(lib, lines), Chain(lib, Entries(lib, lines)), HeldBy(file), k)
    requires
      var w := Chain(lib, Entries(lib, lines))[k].active.value;
      Signers(proofs) <= w.members && |Signers(proofs)| >= w.threshold
    requires IsServed(lib, lines, HeldBy(MergeAll(file, Entries(lib, lines)[k].versionId, proofs)), q)
    ensures ServedCount(q, |lines|) >= k + 1
  {
    var es := Entries(lib, lines);
    NextUnlocked(lib, es, file, k, proofs);
    ServesLongestPrefix(lib, lines, HeldBy(MergeAll(file, es[k].versionId, proofs)), q, k + 1);
  }

  lemma QuorumMeets(p: Params, held: Held, signers: set<string>, version: VersionId, hi: nat)
    requires p.active.Some? && signers <= p.active.value.members && |signers| >= p.active.value.threshold
    requires HeldFor(signers, version) <= held && version.number <= hi
    ensures Meets(p, held, version.number, hi)
  {
    forall s | s in signers ensures s in Backers(held, p.active.value, version.number, hi) {
      assert (s, version.number) in HeldFor(signers, version);
    }
    SubsetSize(signers, Backers(held, p.active.value, version.number, hi));
  }

  lemma NextServable(es: seq<Entry>, ps: seq<Params>, held: Held, more: Held, k: nat)
    requires k < |ps| <= |es| && held <= more && Servable(es, ps, held, k)
    requires Meets(ps[k], more, es[k].versionId.number, es[|es| - 1].versionId.number)
    ensures Servable(es, ps, more, k + 1)
  {
    var hi := es[|es| - 1].versionId.number;
    forall i | 0 <= i < k ensures Meets(ps[i], more, es[i].versionId.number, hi) {
      MeetsMonotone(ps[i], held, more, es[i].versionId.number, hi, hi);
    }
  }

  // ---------------------------------------------------------------------
  // The witness's own gate
  // ---------------------------------------------------------------------

  datatype Refusal = BadLog | VersionNotLast(last: VersionId) | Deactivated | NotListed

  datatype WitnessedLog = WitnessedLog(scid: string, versionIds: seq<VersionId>)

  const DID_KEY := "did:key:"

  predicate Names(w: Witnesses, did: string) {
    did in w.members || exists m :: m in w.members && DID_KEY + m == did
  }

  ghost predicate ListedFor(p: Params, did: string) {
    p.active.Some? && Names(p.active.value, did)
  }

  /** No entry before the last deactivates. */
  ghost predicate AliveBeforeLast(es: seq<Entry>) {
    forall i :: 0 <= i < |es| - 1 ==> !es[i].deactivates
  }

  /** Every entry verifies, `version` is the last one, nothing before it deactivates, it
      names the witness, and it carries an identity. */
  ghost predicate Witnessable(lib: Library, lines: seq<string>, version: VersionId, did: string) {
    && WellFormed(lib, lines)
    && var es := Entries(lib, lines);
       var ps := Chain(lib, es);
       && |ps| == |es| && es[|es| - 1].versionId == version && AliveBeforeLast(es)
       && ListedFor(ps[|es| - 1], did) && ps[|es| - 1].scid.Some?
  }

  /** The first entry that deactivates. */
  ghost predicate FirstDeactivation(es: seq<Entry>, d: nat) {
    d < |es| && es[d].deactivates && forall i :: 0 <= i < d ==> !es[i].deactivates
  }

  /** Every entry verifies, or at least all up to and including the first that deactivates. */
  ghost predicate ChecksOut(lib: Library, es: seq<Entry>) {
    |Chain(lib, es)| == |es| || exists d: nat :: FirstDeactivation(es, d) && d < |Chain(lib, es)|
  }

  /** What is asked of the entries has been established, and `version` is the last. */
  ghost predicate UpToVersion(lib: Library, lines: seq<string>, version: VersionId) {
    && WellFormed(lib, lines)
    && var es := Entries(lib, lines);
       ChecksOut(lib, es) && es[|es| - 1].versionId == version
  }

  /** The last entry, nothing before it deactivating, lists the witness. */
  ghost predicate ListedAtLast(lib: Library, lines: seq<string>, did: string)
    requires WellFormed(lib, lines)
  {
    var es := Entries(lib, lines);
    |Chain(lib, es)| == |es| && AliveBeforeLast(es) && ListedFor(Chain(lib, es)[|es| - 1], did)
  }

  /** Nothing of this kind can be told of the log: it is malformed, or does not verify as far as
      it must; or all is as asked and it has no identity. */
  ghost predicate IsBadLog(lib: Library, lines: seq<string>, version: VersionId, did: string) {
    || !WellFormed(lib, lines)
    || !ChecksOut(lib, Entries(lib, lines))
    || (&& UpToVersion(lib, lines, version) && ListedAtLast(lib, lines, did)
        && Chain(lib, Entries(lib, lines))[|lines| - 1].scid.None?)
  }

  /** It verifies as far as it must, and its last version is another. */
  ghost predicate IsNotLast(lib: Library, lines: seq<string>, version: VersionId, last: VersionId) {
    && WellFormed(lib, lines) && ChecksOut(lib, Entries(lib, lines))
    && last == Entries(lib, lines)[|lines| - 1].versionId && last != version
  }

  /** The version is the last, and a verified entry before it is the first to deactivate. */
  ghost predicate IsDeactivated(lib: Library, lines: seq<string>, version: VersionId) {
    && UpToVersion(lib, lines, version)
    && exists d: nat :: FirstDeactivation(Entries(lib, lines), d) && d < |lines| - 1
                        && d < |Chain(lib, Entries(lib, lines))|
  }

  /** The version is the last, nothing before it deactivates, and it does not list the witness. */
  ghost predicate IsNotListed(lib: Library, lines: seq<string>, version: VersionId, did: string) {
    && UpToVersion(lib, lines, version) && AliveBeforeLast(Entries(lib, lines)) && !ListedAtLast(lib, lines, did)
  }

  /** The first entry to deactivate is the only one. */
  lemma FirstIsUnique(es: seq<Entry>, d: nat, e: nat)
    requires FirstDeactivation(es, d) && FirstDeactivation(es, e)
    ensures d == e
  {
  }

  /** As far as the entries are verified, they check out exactly when all of those verify. */
  lemma ChecksOutIff(lib: Library, es: seq<Entry>, d: nat)
    requires d <= |es| && (forall i :: 0 <= i < d ==> !es[i].deactivates) && (d < |es| ==> FirstDeactivation(es, d))
    ensures
      var through := if d < |es| then d + 1 else |es|;
      ChecksOut(lib, es) <==> |Chain(lib, es)| >= through
  {
    forall e: nat | FirstDeactivation(es, e) && d < |es| ensures e == d { FirstIsUnique(es, d, e); }
    forall e: nat | FirstDeactivation(es, e) ensures d < |es| { assert es[e].deactivates; }
  }

  /** Decide whether to witness. Only the entries up to the first deactivation are verified, yet
      nothing is accepted with an entry left unverified; and each refusal is given exactly when it
      is the one to give. */
  method VerifyLogForWitnessing(lib: Library, content: string, version: VersionId, did: string)
    returns (r: Result<WitnessedLog, Refusal>)
    ensures r.Ok? <==> Witnessable(lib, EntryLines(content), version, did)
    ensures r.Ok? ==> Describes(r.value, lib, EntryLines(content))
    ensures r == Err(BadLog) <==> IsBadLog(lib, EntryLines(content), version, did)
    ensures forall last :: r == Err(VersionNotLast(last)) <==> IsNotLast(lib, EntryLines(content), version, last)
    ensures r == Err(Deactivated) <==> IsDeactivated(lib, EntryLines(content), version)
    ensures r == Err(NotListed) <==> IsNotListed(lib, EntryLines(content), version, did)
  {
    var lines := EntryLines(content);
    var valid := ValidateDidJsonl(lib, lines);
    if !valid {
      return Err(BadLog);
    }
    var es := CollectEntries(lib, lines);
    var d := DeactivatingIndex(es);
    var pastDeactivation := d < |es| - 1;
    var verifyThrough := if d < |es| then d + 1 else |es|;
    var ps := VerifyChain(lib, es[..verifyThrough]);
    ChainOfPrefix(lib, None, es, verifyThrough);
    ChecksOutIff(lib, es, d);
    if |ps| < verifyThrough {
      return Err(BadLog);
    }
    var last := es[|es| - 1];
    if last.versionId != version {
      return Err(VersionNotLast(last.versionId));
    }
    if pastDeactivation {
      return Err(Deactivated);
    }
    var params := ps[|es| - 1];
    if params.active.None? || !Names(params.active.value, did) {
      return Err(NotListed);
    }
    if params.scid.None? {
      return Err(BadLog);
    }
    return Ok(WitnessedLog(params.scid.value, seq(|es|, i requires 0 <= i < |es| => es[i].versionId)));
  }

  /** The identity and the versions of an accepted log. */
  ghost predicate Describes(w: WitnessedLog, lib: Library, lines: seq<string>) {
    && WellFormed(lib, lines)
    && var es := Entries(lib, lines);
       && |Chain(lib, es)| == |es| && Chain(lib, es)[|es| - 1].scid == Some(w.scid)
       && |w.versionIds| == |es| && forall i :: 0 <= i < |es| ==> w.versionIds[i] == es[i].versionId
  }

  /** The first deactivating entry, or the number of entries if there is none. */
  method DeactivatingIndex(es: seq<Entry>) returns (d: nat)
    ensures d <= |es| && forall i :: 0 <= i < d ==> !es[i].deactivates
    ensures d < |es| ==> FirstDeactivation(es, d)
  {
    d := 0;
    while d < |es| && !es[d].deactivates
      invariant 0 <= d <= |es| && forall i :: 0 <= i < d ==> !es[i].deactivates
    {
      d := d + 1;
    }
  }
}
