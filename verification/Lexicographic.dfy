/** The order in which the key-value store iterates keys. */
module Lexicographic {

  predicate LexLess(a: string, b: string) {
    b != [] && (a == [] || a[0] < b[0] || (a[0] == b[0] && LexLess(a[1..], b[1..])))
  }

  lemma {:induction false} LexOrder(a: string, b: string, c: string)
    ensures !LexLess(a, a)
    ensures LexLess(a, b) || LexLess(b, a) || a == b
    ensures LexLess(a, b) ==> !LexLess(b, a)
    ensures LexLess(a, b) && LexLess(b, c) ==> LexLess(a, c)
  {
    if a != [] && b != [] && c != [] {
      LexOrder(a[1..], b[1..], c[1..]);
      if a[0] == b[0] && a[1..] == b[1..] { assert a == [a[0]] + a[1..] && b == [b[0]] + b[1..]; }
    } else if a != [] && b != [] {
      LexOrder(a[1..], b[1..], []);
      if a[0] == b[0] && a[1..] == b[1..] { assert a == [a[0]] + a[1..] && b == [b[0]] + b[1..]; }
    } else if a != [] {
      LexOrder(a[1..], [], []);
    }
  }

  lemma {:induction false} LexSamePrefix(p: string, a: string, b: string)
    ensures LexLess(p + a, p + b) <==> LexLess(a, b)
  {
    if p == [] {
      assert p + a == a && p + b == b;
    } else {
      assert (p + a)[1..] == p[1..] + a && (p + b)[1..] == p[1..] + b;
      LexSamePrefix(p[1..], a, b);
    }
  }

  lemma {:induction false} LexDecided(a: string, b: string, c: string, d: string)
    requires |a| == |b| && LexLess(a, b)
    ensures LexLess(a + c, b + d)
  {
    assert (a + c)[0] == a[0] && (b + d)[0] == b[0];
    if !(a[0] < b[0]) {
      assert (a + c)[1..] == a[1..] + c && (b + d)[1..] == b[1..] + d;
      LexDecided(a[1..], b[1..], c, d);
    }
  }
}
