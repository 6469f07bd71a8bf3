/** Which paths a slot may have, written out, and that over every run no slot has another
    (did-hosting-common/src/server/mnemonic.rs:3-101, did-hosting-control/src/did_ops.rs:347-372,
    483-502). */
module PathRules {
  import opened Paths
  import opened NameRules
  import opened SlotStore
  import opened SlotInvariant

  /** Segments put together, slashes between. */
  function Slashed(segments: seq<string>): string
    requires segments != []
  {
    if |segments| == 1 then segments[0] else segments[0] + "/" + Slashed(segments[1..])
  }

  /** No more than 255 characters, well-spelt segments with single slashes between, the first
      none of the server's own routes. */
  ghost predicate IsPath(path: string) {
    && |path| <= 255
    && exists segments :: Spells(segments, path)
  }

  predicate Spells(segments: seq<string>, path: string) {
    && segments != [] && path == Slashed(segments)
    && (forall i :: 0 <= i < |segments| ==> WellSpelt(segments[i]))
    && segments[0] !in {"api", "auth", "dids", "stats", "acl", "health", ".well-known"}
  }

  lemma {:induction false} SlashedBack(path: string)
    ensures Slashed(Segments(path)) == path
  {
    if path != [] {
      var rest := Segments(path[1..]);
      SlashedBack(path[1..]);
      if path[0] == '/' {
        assert Segments(path)[1..] == rest;
      } else {
        assert Segments(path)[1..] == rest[1..];
        if |rest| > 1 {
          assert Slashed(Segments(path)) == ([path[0]] + rest[0]) + "/" + Slashed(rest[1..]);
        }
      }
      assert path == [path[0]] + path[1..];
    }
  }

  lemma {:induction false} SegmentThen(segment: string, rest: string)
    requires '/' !in segment
    ensures Segments(segment) == [segment]
    ensures Segments(segment + "/" + rest) == [segment] + Segments(rest)
  {
    if segment == [] {
      assert segment + "/" + rest == "/" + rest;
      assert ("/" + rest)[1..] == rest;
    } else {
      SegmentThen(segment[1..], rest);
      assert (segment + "/" + rest)[1..] == segment[1..] + "/" + rest;
      assert segment == [segment[0]] + segment[1..];
    }
  }

  lemma {:induction false} SegmentsBack(segments: seq<string>)
    requires segments != [] && forall i :: 0 <= i < |segments| ==> '/' !in segments[i]
    ensures Segments(Slashed(segments)) == segments
  {
    if |segments| == 1 {
      SegmentThen(segments[0], []);
    } else {
      SegmentsBack(segments[1..]);
      SegmentThen(segments[0], Slashed(segments[1..]));
      assert segments == [segments[0]] + segments[1..];
    }
  }

  /** The checks accept exactly the paths. */
  lemma PathMeans(path: string)
    ensures PathOk(path) <==> IsPath(path)
  {
    if PathOk(path) {
      var segments := Segments(path);
      SlashedBack(path);
      forall i | 0 <= i < |segments| ensures WellSpelt(segments[i]) {
        assert segments[i] in segments;
        WellSpeltIsSegment(segments[i]);
      }
      assert Spells(segments, path);
    }
    if IsPath(path) {
      var segments :| Spells(segments, path);
      SpelledIsOk(segments, path);
    }
  }

  lemma SpelledIsOk(segments: seq<string>, path: string)
    requires |path| <= 255 && Spells(segments, path)
    ensures PathOk(path)
  {
    forall i | 0 <= i < |segments| ensures '/' !in segments[i] && SegmentOk(segments[i]) {
      WellSpeltIsSegment(segments[i]);
    }
    SegmentsBack(segments);
    assert |segments[0]| >= 2;
  }

  /** After any run from an empty store every slot is the domain's own or has a path. */
  lemma SlotsHavePaths(h: Host, calls: seq<Call>, m: string)
    requires AllPlausible(calls) && m in Run(h, EMPTY, calls).records
    ensures m == ".well-known" || IsPath(m)
  {
    EmptyIsGood(h);
    RunKeepsInv(h, EMPTY, calls);
    assert SlotOk(Run(h, EMPTY, calls), m);
    PathMeans(m);
  }
}
