/** Facts about Euclidean remainder used to follow the slideshow index around the list. */
module Arith {

  lemma MulAtLeast(d: int, n: int)
    requires 0 < n && 1 <= d
    ensures n <= d * n
  {
    assert d * n == (d - 1) * n + n;
  }
  /** Euclidean division has one quotient and remainder. */
  lemma ModUnique(x: int, q: int, r: int, n: int)
    requires 0 < n && 0 <= r < n
    requires x == q * n + r
    ensures x % n == r
  {
    var d := q - x / n;
    assert x == (x / n) * n + x % n;
    assert d * n == x % n - r;
    if 1 <= d { MulAtLeast(d, n); }
    if d <= -1 { assert (-d) * n == -(d * n); MulAtLeast(-d, n); }
  }
  /** Reducing the left summand first does not change the remainder. */
  lemma ModAddLeft(a: nat, b: nat, n: nat)
    requires 0 < n
    ensures (a % n + b) % n == (a + b) % n
  {
    var y := a % n + b;
    assert a == (a / n) * n + a % n;
    assert y == (y / n) * n + y % n;
    ModUnique(a + b, a / n + y / n, y % n, n);
    assert (a / n + y / n) * n == (a / n) * n + (y / n) * n;
  }

  /** The index reached from `i` by `k` wrapping increments on a list of length `n`. */
  function Walk(i: int, k: nat, n: int): (r: int)
    requires 0 < n
    ensures 0 <= i < n || 0 < k ==> 0 <= r < n
    decreases k
  {
    if k == 0 then i else Walk((i + 1) % n, k - 1, n)
  }

  /** Wrapping increments add up to one remainder. */
  lemma {:induction false} WalkIsMod(i: nat, k: nat, n: nat)
    requires 0 < n && i < n
    ensures Walk(i, k, n) == (i + k) % n
    decreases k
  {
    if k == 0 {
      ModUnique(i, 0, i, n);
    } else {
      WalkIsMod((i + 1) % n, k - 1, n);
      ModAddLeft(i + 1, k - 1, n);
    }
  }

  /** Walking from 1 (mod n) lands where walking from 0 one step further does. */
  lemma WalkFromOne(k: nat, n: nat)
    requires 0 < n
    ensures Walk(1 % n, k, n) == (k + 1) % n
    ensures 0 < k ==> Walk(1 % n, k - 1, n) == k % n
  {
    WalkIsMod(1 % n, k, n);
    ModAddLeft(1, k, n);
    if 0 < k {
      WalkIsMod(1 % n, k - 1, n);
      ModAddLeft(1, k - 1, n);
    }
  }
}
