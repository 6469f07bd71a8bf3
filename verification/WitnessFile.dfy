/** The stored `did-witness.json`: one row per version, each holding the proofs
    uploaded for it (did-hosting-control/src/did_ops.rs:1480-1513). */
module WitnessFile {
  import opened Common

  datatype VersionId = VersionId(number: nat, hash: string)

  /** A witness's proof; the signer travels inside it. */
  datatype Proof = Proof(signer: string, value: string)

  /** A row as stored JSON; a missing or ill-typed member reads as None. */
  datatype FileRow = FileRow(versionId: Option<VersionId>, proofs: Option<seq<Proof>>)

  /** `Blank` is whitespace; `Unreadable` is anything that is no JSON array. */
  datatype Stored = Blank | Unreadable | Rows(rows: seq<FileRow>)

  /** Who holds a proof for which version. */
  type Held = set<(string, nat)>

  predicate WellTyped(row: FileRow) {
    row.versionId.Some? && row.proofs.Some?
  }

  function HeldByRow(row: FileRow): Held {
    if !WellTyped(row) then {}
    else set p | p in row.proofs.value :: (p.signer, row.versionId.value.number)
  }

  function HeldByRows(rows: seq<FileRow>): Held {
    if rows == [] then {} else HeldByRow(rows[0]) + HeldByRows(rows[1..])
  }

  /** Strict reading: one ill-typed row spoils the file. No file holds no proofs. */
  function Parse(file: Option<Stored>): Option<Held> {
    match file
    case None => Some({})
    case Some(Blank) => Some({})
    case Some(Unreadable) => None
    case Some(Rows(rows)) => if forall row :: row in rows ==> WellTyped(row) then Some(HeldByRows(rows)) else None
  }

  /** Lenient reading: a file that does not parse holds no proofs. */
  function HeldBy(file: Option<Stored>): Held {
    match Parse(file)
    case None => {}
    case Some(held) => held
  }

  /** The upload's merge: into the first row for the version, or into a new one. */
  function MergeRows(rows: seq<FileRow>, version: VersionId, proof: Proof): seq<FileRow> {
    if rows == [] then [FileRow(Some(version), Some([proof]))]
    else if rows[0].versionId == Some(version) then
      [rows[0].(proofs := Some(if rows[0].proofs.Some? then rows[0].proofs.value + [proof] else [proof]))] + rows[1..]
    else [rows[0]] + MergeRows(rows[1..], version, proof)
  }

  function Existing(file: Option<Stored>): seq<FileRow> {
    if file.Some? && file.value.Rows? then file.value.rows else []
  }

  function Merge(file: Option<Stored>, version: VersionId, proof: Proof): Stored {
    Rows(MergeRows(Existing(file), version, proof))
  }

  /** Rows for other versions are stepped over. */
  lemma {:induction false} MergeSkips(rows: seq<FileRow>, version: VersionId, proof: Proof, i: nat)
    requires i <= |rows| && forall j :: 0 <= j < i ==> rows[j].versionId != Some(version)
    ensures MergeRows(rows, version, proof) == rows[..i] + MergeRows(rows[i..], version, proof)
  {
    if i > 0 {
      MergeSkips(rows[1..], version, proof, i - 1);
      assert rows[1..][i - 1..] == rows[i..];
      assert rows[..i] == [rows[0]] + rows[1..][..i - 1];
    }
  }

  lemma UpdateSplits<T>(s: seq<T>, i: nat, x: T)
    requires i < |s|
    ensures s[i := x] == s[..i] + ([x] + s[i..][1..])
  {
  }

  /** The merge as the upload performs it: find the row, then edit in place. */
  method MergeInPlace(file: Option<Stored>, version: VersionId, proof: Proof) returns (merged: Stored)
    ensures merged == Merge(file, version, proof)
  {
    var entries := Existing(file);
    var i := 0;
    while i < |entries| && entries[i].versionId != Some(version)
      invariant 0 <= i <= |entries| && forall j :: 0 <= j < i ==> entries[j].versionId != Some(version)
    {
      i := i + 1;
    }
    MergeSkips(entries, version, proof, i);
    if i < |entries| {
      var proofs := if entries[i].proofs.Some? then entries[i].proofs.value + [proof] else [proof];
      merged := Rows(entries[i := entries[i].(proofs := Some(proofs))]);
      UpdateSplits(entries, i, entries[i].(proofs := Some(proofs)));
    } else {
      merged := Rows(entries + [FileRow(Some(version), Some([proof]))]);
      assert entries[i..] == [] && entries[..i] == entries;
    }
  }

  lemma {:induction false} MergeRowsAddsOne(rows: seq<FileRow>, version: VersionId, proof: Proof)
    requires forall row :: row in rows ==> WellTyped(row)
    ensures forall row :: row in MergeRows(rows, version, proof) ==> WellTyped(row)
    ensures HeldByRows(MergeRows(rows, version, proof)) == HeldByRows(rows) + {(proof.signer, version.number)}
  {
    var merged := MergeRows(rows, version, proof);
    if rows == [] {
      assert proof in [proof];
      assert HeldByRow(merged[0]) == {(proof.signer, version.number)};
    } else if rows[0].versionId == Some(version) {
      assert merged[1..] == rows[1..];
      assert rows[0] in rows;
      var was := rows[0].proofs.value;
      assert proof in was + [proof];
      assert HeldByRow(merged[0]) == HeldByRow(rows[0]) + {(proof.signer, version.number)};
    } else {
      MergeRowsAddsOne(rows[1..], version, proof);
      assert merged[1..] == MergeRows(rows[1..], version, proof);
    }
  }

  /** Merging keeps every proof the file could be read to hold and adds the one
      uploaded, unless some other row spoils the file; it never loses one. */
  lemma MergeKeepsProofs(file: Option<Stored>, version: VersionId, proof: Proof)
    ensures HeldBy(file) <= HeldBy(Some(Merge(file, version, proof)))
    ensures Parse(file).Some? ==>
      Parse(Some(Merge(file, version, proof))) == Some(HeldBy(file) + {(proof.signer, version.number)})
    ensures file == Some(Unreadable) ==> HeldBy(Some(Merge(file, version, proof))) == {(proof.signer, version.number)}
  {
    if forall row :: row in Existing(file) ==> WellTyped(row) {
      MergeRowsAddsOne(Existing(file), version, proof);
    }
  }

  /** The first row for that very version, hash included. */
  predicate FirstFor(rows: seq<FileRow>, version: VersionId, i: nat) {
    && i < |rows| && rows[i].versionId == Some(version)
    && forall j :: 0 <= j < i ==> rows[j].versionId != Some(version)
  }

  /** The row with one proof more. */
  function WithProof(row: FileRow, proof: Proof): FileRow {
    FileRow(row.versionId, Some((if row.proofs.Some? then row.proofs.value else []) + [proof]))
  }

  /** Row by row: the proof goes at the end of the first row for the version, or into a new row at the
      end if there is none, and every other row stays as it is. A file that is no list of rows is
      replaced by one. */
  lemma MergeMeans(file: Option<Stored>, version: VersionId, proof: Proof, i: nat)
    ensures
      var rows := if file.Some? && file.value.Rows? then file.value.rows else [];
      var merged := Merge(file, version, proof);
      && merged.Rows?
      && ((forall j :: 0 <= j < |rows| ==> rows[j].versionId != Some(version)) ==>
            merged.rows == rows + [FileRow(Some(version), Some([proof]))])
      && (FirstFor(rows, version, i) ==> merged.rows == rows[i := WithProof(rows[i], proof)])
  {
    var rows := if file.Some? && file.value.Rows? then file.value.rows else [];
    if forall j :: 0 <= j < |rows| ==> rows[j].versionId != Some(version) {
      MergeSkips(rows, version, proof, |rows|);
      assert rows[..|rows|] == rows && rows[|rows|..] == [];
    } else if FirstFor(rows, version, i) {
      MergeSkips(rows, version, proof, i);
      assert [] + [proof] == [proof];
      UpdateSplits(rows, i, WithProof(rows[i], proof));
      assert rows[i..][0] == rows[i];
    }
  }
}
