/** The number after `subgraph method`, `subgraph class`, `subgraph test` and
    `subgraph suite`: the node's `hashCode()` when it is not negative, the
    wall clock otherwise. Every node kind hashes as `31 * 1 + name.hashCode()`
    in 32-bit arithmetic. The renderers take this number as a parameter
    (`Dot.Namer`); this module gives Java's `String.hashCode` and the
    hash-or-clock subgraph suffix built from it. */
module Hashing {

  const TwoTo31: int := 0x8000_0000
  const TwoTo32: int := 0x1_0000_0000

  /** Java `int` arithmetic: `x` wrapped into [-2^31, 2^31). */
  function WrapInt32(x: int): (r: int)
    ensures -TwoTo31 <= r < TwoTo31
    ensures (x - r) % TwoTo32 == 0
  {
    var m := x % TwoTo32;
    if m >= TwoTo31 then m - TwoTo32 else m
  }

  lemma WrapCongruent(x: int, y: int, k: int)
    requires x == y + k * TwoTo32
    ensures WrapInt32(x) == WrapInt32(y)
  {
    assert x % TwoTo32 == y % TwoTo32;
  }

  /** `String.hashCode()`: `h = 31 * h + c` over the characters, wrapping at every step. */
  function StringHash(s: string): int
  {
    if |s| == 0 then 0 else WrapInt32(31 * StringHash(s[..|s| - 1]) + s[|s| - 1] as int)
  }

  /** The same polynomial in unbounded arithmetic: the sum of `s[i] * 31^(n-1-i)`. */
  function HashPolynomial(s: string): int
  {
    if |s| == 0 then 0 else 31 * HashPolynomial(s[..|s| - 1]) + s[|s| - 1] as int
  }

  /** Wrapping at every step is the same as wrapping once at the end. */
  lemma {:induction false} StringHashIsWrappedPolynomial(s: string)
    ensures StringHash(s) == WrapInt32(HashPolynomial(s))
  {
    if |s| > 0 {
      var p := s[..|s| - 1];
      var c := s[|s| - 1] as int;
      StringHashIsWrappedPolynomial(p);
      var h := HashPolynomial(p);
      var w := WrapInt32(h);
      var k := (h - w) / TwoTo32;
      assert h == w + k * TwoTo32;
      WrapCongruent(31 * h + c, 31 * w + c, 31 * k);
    }
  }

  /** `hashCode()` of a method, class, test or suite node named `name`. */
  function NodeHashCode(name: string): (r: int)
    ensures -TwoTo31 <= r < TwoTo31
    ensures r == WrapInt32(31 + HashPolynomial(name))
  {
    NodeHashIsWrappedPolynomial(name);
    WrapInt32(31 * 1 + StringHash(name))
  }

  /** Adding 31 to the wrapped hash and wrapping again is wrapping once. */
  lemma NodeHashIsWrappedPolynomial(name: string)
    ensures WrapInt32(31 * 1 + StringHash(name)) == WrapInt32(31 + HashPolynomial(name))
  {
    StringHashIsWrappedPolynomial(name);
    var h := HashPolynomial(name);
    var w := WrapInt32(h);
    var k := (h - w) / TwoTo32;
    assert h == w + k * TwoTo32;
    WrapCongruent(31 + h, 31 + w, k);
  }

  /** The subgraph number of a node: its hash code, or the clock reading when
      the hash code is negative. */
  function SubgraphNumber(name: string, clockMillis: nat): (r: nat)
    ensures NodeHashCode(name) >= 0 ==> r == NodeHashCode(name)
    ensures NodeHashCode(name) < 0 ==> r == clockMillis
  {
    var h := NodeHashCode(name);
    if h < 0 then clockMillis else h
  }
}
