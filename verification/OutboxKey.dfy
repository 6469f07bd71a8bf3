/** Storage keys of the durable outbox: `outbox:{target}:{micros:020}:{uuid}`
    (did-hosting-control/src/outbox.rs:44-52, 143-149, 214-268). */
module OutboxKey {
  import opened Common
  import opened Lexicographic

  /** A queued row's key: its target, the enqueue time in microseconds and the first
      twelve hex digits of a fresh uuid. */
  datatype Key = Key(target: string, micros: nat, uuid: string)

  const WIDTH: nat := 20

  const PREFIX := "outbox:"

  predicate ColonFree(s: string) {
    ':' !in s
  }

  function Digit(d: nat): char
    requires d < 10
  {
    ('0' as int + d) as char
  }

  /** Decimal digits, as integer formatting writes them. */
  function Decimal(n: nat): (s: string)
    ensures s != []
    ensures forall i :: 0 <= i < |s| ==> '0' <= s[i] <= '9'
  {
    (if n < 10 then [] else Decimal(n / 10)) + [Digit(n % 10)]
  }

  function Zeros(n: nat): (s: string)
    ensures |s| == n && forall i :: 0 <= i < n ==> s[i] == '0'
  {
    if n == 0 then [] else ['0'] + Zeros(n - 1)
  }

  /** Zero-padded to a minimum width, as `{:020}` writes it. */
  function Pad(n: nat, width: nat): (s: string)
    ensures ColonFree(s)
  {
    var s := Decimal(n);
    if |s| >= width then s else Zeros(width - |s|) + s
  }

  function Encode(k: Key): string {
    PREFIX + k.target + ":" + Pad(k.micros, WIDTH) + ":" + k.uuid
  }

  /** The index of the last colon. */
  function LastColon(s: string): (r: Option<nat>)
    ensures r.Some? ==> r.value < |s| && s[r.value] == ':'
  {
    if s == [] then None
    else if s[|s| - 1] == ':' then Some(|s| - 1)
    else LastColon(s[..|s| - 1])
  }

  /** The target a storage key names: what stands between the prefix and the last two
      colons. */
  function TargetOf(raw: string): Option<string> {
    if !(PREFIX <= raw) then None
    else
      var rest := raw[|PREFIX|..];
      match LastColon(rest)
      case None => None
      case Some(last) =>
        match LastColon(rest[..last])
        case None => None
        case Some(second) => Some(rest[..second])
  }

  lemma {:induction false} LastColonOf(a: string, b: string)
    requires ColonFree(b)
    ensures LastColon(a + ":" + b) == Some(|a|)
    decreases |b|
  {
    var s := a + ":" + b;
    if b != [] {
      assert s[..|s| - 1] == a + ":" + b[..|b| - 1];
      LastColonOf(a, b[..|b| - 1]);
    }
  }

  lemma AfterPrefix(p: string, rest: string)
    ensures p <= p + rest && (p + rest)[|p|..] == rest
  {
  }

  lemma TargetBeforeTwoColons(target: string, pad: string, uuid: string)
    requires ColonFree(pad) && ColonFree(uuid)
    ensures TargetOf(PREFIX + (target + ":" + pad + ":" + uuid)) == Some(target)
  {
    var front := target + ":" + pad;
    var rest := front + ":" + uuid;
    AfterPrefix(PREFIX, rest);
    assert PREFIX + (target + ":" + pad + ":" + uuid) == PREFIX + rest;
    LastColonOf(front, uuid);
    assert LastColon(rest) == Some(|front|) && rest[..|front|] == front;
    LastColonOf(target, pad);
    assert rest[..|target|] == target;
  }

  /** Round trip: the target comes back whatever colons it contains. */
  lemma TargetRoundTrip(k: Key)
    requires ColonFree(k.uuid)
    ensures TargetOf(Encode(k)) == Some(k.target)
  {
    var pad := Pad(k.micros, WIDTH);
    assert Encode(k) == PREFIX + (k.target + ":" + pad + ":" + k.uuid);
    TargetBeforeTwoColons(k.target, pad, k.uuid);
  }

  /** `list_targets`: the distinct targets named by the stored keys. */
  function ListTargets(raws: set<string>): set<string> {
    set raw | raw in raws && TargetOf(raw).Some? :: TargetOf(raw).value
  }

  /** It finds exactly the targets with queued rows. */
  lemma ListTargetsIsExact(keys: set<Key>)
    requires forall k :: k in keys ==> ColonFree(k.uuid)
    ensures ListTargets(set k | k in keys :: Encode(k)) == (set k | k in keys :: k.target)
  {
    var raws := set k | k in keys :: Encode(k);
    forall t | t in ListTargets(raws) ensures t in (set k | k in keys :: k.target) {
      var raw :| raw in raws && TargetOf(raw) == Some(t);
      var k :| k in keys && Encode(k) == raw;
      TargetRoundTrip(k);
    }
    forall k | k in keys ensures k.target in ListTargets(raws) {
      TargetRoundTrip(k);
      assert Encode(k) in raws;
    }
  }

  // ---------------------------------------------------------------------
  // The prefix scan
  // ---------------------------------------------------------------------

  function TargetPrefix(target: string): string {
    PREFIX + target + ":"
  }

  /** What `list_pending_for_target` scans. */
  function Scan(keys: set<Key>, target: string): set<Key> {
    set k | k in keys && TargetPrefix(target) <= Encode(k)
  }

  lemma Cancel(p: string, a: string, b: string)
    ensures p + a <= p + b <==> a <= b
  {
    if p + a <= p + b {
      assert a == (p + a)[|p|..] && b == (p + b)[|p|..];
      assert (p + b)[..|p + a|] == p + a;
      assert b[..|a|] == (p + b)[|p|..|p + a|];
    }
    if a <= b {
      assert (p + b)[..|p + a|] == p + b[..|a|];
    }
  }

  /** Which foreign rows a scan drags in: those of a target that continues this one
      after a colon, and those this target spells the enqueue time of. */
  lemma ScanMatches(target: string, k: Key)
    requires ColonFree(k.uuid)
    ensures TargetPrefix(target) <= Encode(k)
       <==> target == k.target || target + ":" <= k.target || target == k.target + ":" + Pad(k.micros, WIDTH)
  {
    var pad := Pad(k.micros, WIDTH);
    var t := target + ":";
    var rest := k.target + ":" + pad + ":" + k.uuid;
    assert Encode(k) == PREFIX + rest && TargetPrefix(target) == PREFIX + t;
    Cancel(PREFIX, t, rest);
    if t <= rest {
      assert rest[|target|] == ':' && rest[..|target|] == target;
      if |target| < |k.target| {
        assert t == rest[..|t|] == k.target[..|t|];
      } else if |target| > |k.target| {
        var i := |target| - |k.target| - 1;
        assert rest == k.target + ":" + (pad + ":" + k.uuid);
        assert (pad + ":" + k.uuid)[i] == ':';
        assert i == |pad|;
        assert target == rest[..|target|] == k.target + ":" + pad;
      }
    }
    if target + ":" <= k.target {
      assert rest[..|t|] == k.target[..|t|];
    }
    if target == k.target || target == k.target + ":" + pad {
      assert rest[..|t|] == t;
    }
  }

  /** A foreign row that the scan for the target drags in. */
  predicate Intrudes(target: string, k: Key) {
    k.target != target && (target + ":" <= k.target || target == k.target + ":" + Pad(k.micros, WIDTH))
  }

  /** The scan returns exactly the target's rows if and only if none intrudes. */
  lemma ScanIsExact(keys: set<Key>, target: string)
    requires forall k :: k in keys ==> ColonFree(k.uuid)
    ensures Scan(keys, target) == (set k | k in keys && k.target == target)
       <==> !exists k :: k in keys && Intrudes(target, k)
  {
    forall k | k in keys ensures k in Scan(keys, target) <==> k.target == target || Intrudes(target, k) {
      ScanMatches(target, k);
    }
    if k :| k in keys && Intrudes(target, k) {
      assert k in Scan(keys, target) && k !in (set j | j in keys && j.target == target);
    }
  }

  /** Two targets neither of which is the other followed by a colon. */
  predicate Apart(a: string, b: string) {
    !(a + ":" <= b) && !(b + ":" <= a)
  }

  lemma SpellsNoTime(target: string, k: Key)
    ensures target == k.target + ":" + Pad(k.micros, WIDTH) ==> k.target + ":" <= target
  {
  }

  /** So every scan is exact when the queued targets stand apart. */
  lemma ApartScansAreExact(keys: set<Key>, target: string)
    requires forall k :: k in keys ==> ColonFree(k.uuid)
    requires forall k :: k in keys ==> k.target == target || Apart(target, k.target)
    ensures Scan(keys, target) == (set k | k in keys && k.target == target)
  {
    ScanIsExact(keys, target);
    forall k | k in keys ensures !Intrudes(target, k) { SpellsNoTime(target, k); }
  }

  /** For instance, the row of a target that continues this one after a colon intrudes. */
  lemma ScanLeaks(target: string, tail: string, micros: nat, uuid: string)
    requires ColonFree(uuid)
    ensures
      var k := Key(target + ":" + tail, micros, uuid);
      k in Scan({k}, target) && k.target != target
  {
    var k := Key(target + ":" + tail, micros, uuid);
    ScanMatches(target, k);
    assert k.target[..|target + ":"|] == target + ":";
  }

  // ---------------------------------------------------------------------
  // Order
  // ---------------------------------------------------------------------

  /** Enqueue order of one target's rows: by time, the uuid breaking ties. */
  predicate Before(a: Key, b: Key) {
    a.micros < b.micros || (a.micros == b.micros && LexLess(a.uuid, b.uuid))
  }

  /** `Before` is a strict total order on the keys of one target. */
  lemma BeforeOrder(a: Key, b: Key, c: Key)
    ensures !Before(a, a)
    ensures a.target == b.target ==> Before(a, b) || Before(b, a) || a == b
    ensures Before(a, b) ==> !Before(b, a)
    ensures Before(a, b) && Before(b, c) ==> Before(a, c)
  {
    LexOrder(a.uuid, b.uuid, c.uuid);
  }

  /** Exactly `width` digits. */
  function Fixed(n: nat, width: nat): (s: string)
    ensures |s| == width
  {
    if width == 0 then [] else Fixed(n / 10, width - 1) + [Digit(n % 10)]
  }

  function Pow10(e: nat): (p: nat)
    ensures p >= 1
  {
    if e == 0 then 1 else 10 * Pow10(e - 1)
  }

  lemma {:induction false} ZerosThen(n: nat)
    ensures Zeros(n) + ['0'] == Zeros(n + 1)
  {
    if n > 0 { ZerosThen(n - 1); }
  }

  lemma {:induction false} FixedZero(width: nat)
    ensures Fixed(0, width) == Zeros(width)
  {
    if width > 0 {
      FixedZero(width - 1);
      ZerosThen(width - 1);
    }
  }

  /** Below 10^width the padded form has exactly `width` digits. */
  lemma {:induction false} PadIsFixed(n: nat, width: nat)
    requires width > 0 && n < Pow10(width)
    ensures Pad(n, width) == Fixed(n, width)
  {
    if n < 10 {
      FixedZero(width - 1);
      assert Decimal(n) == [Digit(n % 10)];
    } else {
      assert Pow10(1) == 10 * Pow10(0);
      PadIsFixed(n / 10, width - 1);
      PadStep(n, width);
    }
  }

  /** One more digit, one place further right. */
  lemma PadStep(n: nat, width: nat)
    requires n >= 10 && width > 1 && |Pad(n / 10, width - 1)| == width - 1
    ensures Pad(n, width) == Pad(n / 10, width - 1) + [Digit(n % 10)]
  {
    var s := Decimal(n / 10);
    assert Decimal(n) == s + [Digit(n % 10)];
    if |s| < width - 1 {
      assert Zeros(width - 1 - |s|) + (s + [Digit(n % 10)]) == (Zeros(width - 1 - |s|) + s) + [Digit(n % 10)];
    }
  }

  lemma {:induction false} FixedOrder(a: nat, b: nat, width: nat)
    requires a < b < Pow10(width)
    ensures LexLess(Fixed(a, width), Fixed(b, width))
  {
    if a / 10 < b / 10 {
      FixedOrder(a / 10, b / 10, width - 1);
      LexDecided(Fixed(a / 10, width - 1), Fixed(b / 10, width - 1), [Digit(a % 10)], [Digit(b % 10)]);
    } else {
      LexSamePrefix(Fixed(a / 10, width - 1), [Digit(a % 10)], [Digit(b % 10)]);
    }
  }

  /** Storage order is enqueue order: below 10^20 microseconds, one target's keys sort
      as strings exactly as they sort by time and uuid. */
  lemma StorageOrderIsEnqueueOrder(a: Key, b: Key)
    requires a.target == b.target && a.micros < Pow10(WIDTH) && b.micros < Pow10(WIDTH)
    ensures LexLess(Encode(a), Encode(b)) <==> Before(a, b)
  {
    EncodesInOrder(a, b);
    EncodesInOrder(b, a);
    BeforeOrder(a, b, a);
    LexOrder(Encode(a), Encode(b), Encode(a));
  }

  lemma EncodesInOrder(a: Key, b: Key)
    requires a.target == b.target && a.micros < Pow10(WIDTH) && b.micros < Pow10(WIDTH)
    ensures Before(a, b) ==> LexLess(Encode(a), Encode(b))
  {
    PadIsFixed(a.micros, WIDTH);
    PadIsFixed(b.micros, WIDTH);
    var p := PREFIX + a.target + ":";
    var x, y := Pad(a.micros, WIDTH), Pad(b.micros, WIDTH);
    assert Encode(a) == p + (x + (":" + a.uuid)) && Encode(b) == p + (y + (":" + b.uuid));
    LexSamePrefix(p, x + (":" + a.uuid), y + (":" + b.uuid));
    if a.micros < b.micros {
      FixedOrder(a.micros, b.micros, WIDTH);
      LexDecided(x, y, ":" + a.uuid, ":" + b.uuid);
    } else if Before(a, b) {
      LexSamePrefix(x, ":" + a.uuid, ":" + b.uuid);
      LexSamePrefix(":", a.uuid, b.uuid);
    }
  }
}
