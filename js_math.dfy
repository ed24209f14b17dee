/** The few JavaScript `Math` operations the background generator relies on,
    stated over Dafny's unbounded integers and exact reals. */
module JsMath {

  /** A value `Math.random()` can return: uniform in [0, 1). */
  predicate IsRandom(r: real) {
    0.0 <= r < 1.0
  }

  /** `Math.floor` on a real. */
  function Floor(x: real): (n: int)
    ensures n as real <= x < n as real + 1.0
  {
    x.Floor
  }

  /** `Math.round`: the nearest integer, halves rounded towards +infinity. */
  function Round(x: real): (n: int)
    ensures n as real - 0.5 <= x < n as real + 0.5
  {
    Floor(x + 0.5)
  }

  /** `Math.abs` on an integer. */
  function Abs(x: int): (a: nat)
    ensures a == x || a == -x
  {
    if x < 0 then -x else x
  }

  /** The JS idiom `Math.floor(Math.random() * len)`: an index into a
      collection of `len` elements. */
  function RandomIndex(r: real, len: nat): (i: nat)
    requires IsRandom(r) && len > 0
    ensures i < len
  {
    ScaledBelow(r, len as real);
    Floor(r * len as real)
  }

  /** `r * c` stays in [0, c) for a random `r` and a positive `c`. */
  lemma ScaledBelow(r: real, c: real)
    requires IsRandom(r) && c > 0.0
    ensures 0.0 <= r * c < c
  {
    assert (1.0 - r) * c > 0.0;
  }

  /** The search behind `CeilSqrt`: the least `r >= g` with `r * r >= n`,
      started from a `g` whose predecessor is known to be too small. */
  function CeilSqrtFrom(n: nat, g: nat): (r: nat)
    requires g == 0 || (g - 1) * (g - 1) < n
    ensures r * r >= n
    ensures r == 0 || (r - 1) * (r - 1) < n
    decreases n - g
  {
    if g * g >= n then g
    else
      assert g <= g * g;
      CeilSqrtFrom(n, g + 1)
  }

  /** `Math.ceil(Math.sqrt(n))`, stated without square roots: the least
      `g` whose square reaches `n`. */
  function CeilSqrt(n: nat): (g: nat)
    ensures g * g >= n
    ensures g == 0 || (g - 1) * (g - 1) < n
  {
    CeilSqrtFrom(n, 0)
  }

  /** The least such `g` is unique: any `g` with `(g-1)^2 < n <= g^2` is
      `CeilSqrt(n)`. */
  lemma {:induction false} CeilSqrtUnique(n: nat, g: nat)
    requires g * g >= n
    requires g == 0 || (g - 1) * (g - 1) < n
    ensures CeilSqrt(n) == g
  {
    var c := CeilSqrt(n);
    if c < g {
      assert g - 1 >= c;
      MulMono(c, g - 1);
      assert false;
    } else if c > g {
      assert c - 1 >= g;
      MulMono(g, c - 1);
      assert false;
    }
  }

  /** Squaring is monotone on naturals. */
  lemma MulMono(a: nat, b: nat)
    requires a <= b
    ensures a * a <= b * b
  {
    assert a * a <= a * b <= b * b;
  }
}
