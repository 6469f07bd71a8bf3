/** Slot paths and the string keys built from them
    (did-hosting-common/src/server/mnemonic.rs:5-96, did-hosting-common/src/did_ops.rs:179-193). */
module Paths {

  /** The slot of the domain's own DID. */
  const ROOT := ".well-known"

  predicate AlphaNumeric(c: char) {
    'a' <= c <= 'z' || 'A' <= c <= 'Z' || '0' <= c <= '9'
  }

  predicate SegmentOk(s: string) {
    && 2 <= |s| <= 63
    && (forall c :: c in s ==> 'a' <= c <= 'z' || '0' <= c <= '9' || c == '-')
    && AlphaNumeric(s[0]) && AlphaNumeric(s[|s| - 1])
  }

  function Segments(path: string): (r: seq<string>)
    ensures r != []
  {
    if path == [] then [[]]
    else if path[0] == '/' then [[]] + Segments(path[1..])
    else var r := Segments(path[1..]); [[path[0]] + r[0]] + r[1..]
  }

  predicate RouteName(segment: string) {
    segment in {"api", "auth", "dids", "stats", "acl", "health"} || segment == ROOT
  }

  /** A custom path: non-empty segments, the first of them no route of the server. */
  predicate PathOk(path: string) {
    && 0 < |path| <= 255
    && (forall segment :: segment in Segments(path) ==> SegmentOk(segment))
    && !RouteName(Segments(path)[0])
  }

  predicate MnemonicOk(mnemonic: string) {
    mnemonic == ROOT || PathOk(mnemonic)
  }

  lemma {:induction false} CharsAreInSegments(path: string, c: char)
    requires c in path && c != '/'
    ensures exists segment :: segment in Segments(path) && c in segment
  {
    var rest := Segments(path[1..]);
    if path[0] == c {
      assert Segments(path)[0] == [c] + rest[0];
      assert c in Segments(path)[0] && Segments(path)[0] in Segments(path);
    } else {
      CharsAreInSegments(path[1..], c);
      var i :| 0 <= i < |rest| && c in rest[i];
      if path[0] == '/' {
        assert Segments(path)[i + 1] == rest[i];
      } else if i > 0 {
        assert Segments(path)[i] == rest[i];
      } else {
        assert Segments(path)[0] == [path[0]] + rest[0];
        assert rest[0] == Segments(path)[0][1..];
        assert c in Segments(path)[0];
      }
    }
  }

  /** No mnemonic holds a colon, so keys that end in one can be taken apart. */
  lemma ColonFree(mnemonic: string)
    requires MnemonicOk(mnemonic)
    ensures ':' !in mnemonic
  {
    if ':' in mnemonic && mnemonic != ROOT {
      CharsAreInSegments(mnemonic, ':');
    }
  }

  function OwnerPrefix(did: string): string {
    "owner:" + did + ":"
  }

  function OwnerKey(did: string, mnemonic: string): string {
    OwnerPrefix(did) + mnemonic
  }

  function NameKey(domain: string, name: string): string {
    "name:" + domain + ":" + name
  }

  /** What follows the last colon is read back. */
  lemma LastColon(a: string, m: string, b: string, n: string)
    requires a + ":" + m == b + ":" + n && ':' !in m && ':' !in n
    ensures a == b && m == n
  {
    var s := a + ":" + m;
    assert s[|a|] == ':' && s[|b|] == ':';
    assert |a| == |b|;
    assert a == s[..|a|] == b && m == s[|a| + 1..] == n;
  }

  /** Owner and mnemonic can both be read back from the key. */
  lemma OwnerKeyIsInjective(did: string, mnemonic: string, other: string, another: string)
    requires ':' !in mnemonic && ':' !in another
    requires OwnerKey(did, mnemonic) == OwnerKey(other, another)
    ensures did == other && mnemonic == another
  {
    LastColon("owner:" + did, mnemonic, "owner:" + other, another);
    assert did == ("owner:" + did)[6..] && other == ("owner:" + other)[6..];
  }

  /** Domain and name can be read back from the key of a name without a colon, whatever
      colons the domain holds. */
  lemma NameKeyIsInjective(domain: string, name: string, other: string, another: string)
    requires ':' !in name && ':' !in another
    requires NameKey(domain, name) == NameKey(other, another)
    ensures domain == other && name == another
  {
    LastColon("name:" + domain, name, "name:" + other, another);
    assert domain == ("name:" + domain)[5..] && other == ("name:" + other)[5..];
  }

  lemma UnderPrefix(p: string, a: string, b: string)
    ensures p + a <= p + b <==> a <= b
  {
    assert (p + a)[|p|..] == a && (p + b)[|p|..] == b;
    if p + a <= p + b {
      assert (p + b)[..|p + a|][|p|..] == b[..|a|];
    }
    if a <= b {
      assert b == a + b[|a|..];
      assert p + b == (p + a) + b[|a|..];
    }
  }

  lemma ColonOnlyInOwner(did: string, other: string, mnemonic: string)
    requires ':' !in mnemonic
    ensures did + ":" <= other + ":" + mnemonic <==> did == other || did + ":" <= other
  {
    var tail := other + ":" + mnemonic;
    assert tail[..|other|] == other;
    if did + ":" <= tail {
      assert tail[|did|] == ':';
      assert |did| <= |other|;
      if |did| == |other| {
        assert did == tail[..|did|] == other;
      } else {
        assert did + ":" == tail[..|did| + 1] == other[..|did| + 1];
      }
    }
    if did + ":" <= other {
      assert tail[..|did| + 1] == other[..|did| + 1];
    }
    if did == other {
      assert tail == did + ":" + mnemonic;
    }
  }

  /** The prefix scan for an owner also returns the rows of every DID that extends it by
      a colon, and of no other: why the scan re-checks the record. */
  lemma PrefixCatches(did: string, other: string, mnemonic: string)
    requires ':' !in mnemonic
    ensures OwnerPrefix(did) <= OwnerKey(other, mnemonic) <==> did == other || did + ":" <= other
  {
    assert OwnerKey(other, mnemonic) == "owner:" + (other + ":" + mnemonic);
    assert OwnerPrefix(did) == "owner:" + (did + ":");
    UnderPrefix("owner:", did + ":", other + ":" + mnemonic);
    ColonOnlyInOwner(did, other, mnemonic);
  }
}
