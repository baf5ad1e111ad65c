/**
 * `BaseEventItem.getViewType` and its Szudzik pairing function, from
 * features/home/room/detail/timeline/item: an Epoxy view type derived from the
 * item's layout id and view-stub id.
 */
module BaseEventItem {

  const IntMin: int := -0x8000_0000
  const IntMax: int := 0x7FFF_FFFF
  const LongMin: int := -0x8000_0000_0000_0000
  const LongMax: int := 0x7FFF_FFFF_FFFF_FFFF
  const TwoTo32: int := 0x1_0000_0000

  predicate IsInt(x: int) { IntMin <= x <= IntMax }

  predicate IsLong(x: int) { LongMin <= x <= LongMax }

  /** `Long.toInt()`: keep the low 32 bits, read as two's complement. */
  function ToInt(x: int): (r: int)
    ensures IsInt(r)
    ensures (x - r) % TwoTo32 == 0
    ensures IsInt(x) ==> r == x
  {
    (x - IntMin) % TwoTo32 + IntMin
  }

  /** The Szudzik pairing function, on unbounded integers. On non-negative arguments it
      lays the pairs with larger component `m` out in the shell `[m * m, (m + 1) * (m + 1))`. */
  function Pairing(a: int, b: int): (r: int)
    ensures 0 <= b <= a ==> a * a <= r < (a + 1) * (a + 1)
    ensures 0 <= a < b ==> b * b <= r < (b + 1) * (b + 1)
  {
    if a >= b then a * a + a + b else a + b * b
  }

  /** `getViewType`: the pairing of the two ids, shifted by `Int.MAX_VALUE` and truncated. */
  function ViewType(layout: int, viewStubId: int): (r: int)
    requires IsInt(layout) && IsInt(viewStubId)
    ensures IsInt(r)
    ensures (r - (Pairing(layout, viewStubId) - IntMax)) % TwoTo32 == 0
  {
    PairingFitsLong(layout, viewStubId);
    ToInt(Pairing(layout, viewStubId) - IntMax)
  }

  lemma SquareMonotone(x: int, y: int)
    requires 0 <= x <= y
    ensures x * x <= y * y
  {
    assert x * x <= x * y by { MulLeft(x, x, y); }
    assert x * y <= y * y by { MulLeft(y, x, y); }
  }

  lemma MulLeft(k: int, x: int, y: int)
    requires 0 <= k && x <= y
    ensures k * x <= k * y
  {
    assert k * y - k * x == k * (y - x);
  }

  /** The integer square root of a pairing value is the larger argument. */
  lemma PairingBetweenSquares(a: int, b: int)
    requires 0 <= a && 0 <= b
    ensures a >= b ==> a * a <= Pairing(a, b) < (a + 1) * (a + 1)
    ensures a < b ==> b * b <= Pairing(a, b) < (b + 1) * (b + 1)
  {
    assert (a + 1) * (a + 1) == a * a + 2 * a + 1;
    assert (b + 1) * (b + 1) == b * b + 2 * b + 1;
  }

  /** An integer lies between consecutive squares of at most one non-negative root. */
  lemma RootUnique(z: int, m: int, n: int)
    requires 0 <= m && 0 <= n
    requires m * m <= z < (m + 1) * (m + 1)
    requires n * n <= z < (n + 1) * (n + 1)
    ensures m == n
  {
    if m < n {
      SquareMonotone(m + 1, n);
    } else if n < m {
      SquareMonotone(n + 1, m);
    }
  }

  /** Distinct pairs of non-negative numbers have distinct pairing values. */
  lemma PairingInjective(a: int, b: int, c: int, d: int)
    requires 0 <= a && 0 <= b && 0 <= c && 0 <= d
    requires Pairing(a, b) == Pairing(c, d)
    ensures a == c && b == d
  {
    var z := Pairing(a, b);
    var m := if a >= b then a else b;
    var n := if c >= d then c else d;
    PairingBetweenSquares(a, b);
    PairingBetweenSquares(c, d);
    RootUnique(z, m, n);
    // z - m*m is a + b >= m when a >= b, and a < m otherwise
  }

  /** The pairing value is at least the larger argument. */
  lemma PairingAtLeastMax(a: int, b: int)
    requires 0 <= a && 0 <= b
    ensures Pairing(a, b) >= a && Pairing(a, b) >= b
  {
    if a >= b {
      MulLeft(a, 0, a);
    } else {
      MulLeft(b, 1, b);
    }
  }

  /** For non-negative `Int` arguments the pairing value is at most 2^62 - 1. */
  lemma PairingBoundNonNegative(a: int, b: int)
    requires 0 <= a <= IntMax && 0 <= b <= IntMax
    ensures 0 <= Pairing(a, b) <= 0x3FFF_FFFF_FFFF_FFFF
  {
    PairingBetweenSquares(a, b);
    var m := if a >= b then a else b;
    SquareMonotone(m + 1, IntMax + 1);
  }

  /** For any `Int` arguments the `Long` arithmetic of the pairing cannot overflow. */
  lemma PairingFitsLong(a: int, b: int)
    requires IsInt(a) && IsInt(b)
    ensures IsLong(a * a) && IsLong(b * b)
    ensures IntMin <= Pairing(a, b) <= 0x3FFF_FFFF_FFFF_FFFF
    ensures IsLong(Pairing(a, b) - IntMax)
  {
    SquareBound(a);
    SquareBound(b);
    assert a * a + a >= 0 by { assert a * a + a == a * (a + 1); ProductOfNeighbours(a); }
    if a >= b {
      assert (a + 1) * (a + 1) == a * a + 2 * a + 1;
      SquareBound(a + 1);
    } else {
      assert (b + 1) * (b + 1) == b * b + 2 * b + 1;
      assert (b - 1) * (b - 1) == b * b - 2 * b + 1;
      if b > 0 { SquareBound(a + 1); } else { SquareBound(b - 1); }
      SquareBound(b + 1);
    }
  }

  lemma ProductOfNeighbours(a: int)
    ensures a * (a + 1) >= 0
  {
    if a >= 0 { MulLeft(a, 0, a + 1); } else { assert a * (a + 1) == (-a) * (-a - 1); MulLeft(-a, 0, -a - 1); }
  }

  lemma SquareBound(x: int)
    requires IntMin <= x <= IntMax + 1
    ensures 0 <= x * x <= 0x4000_0000_0000_0000
  {
    var y := if x >= 0 then x else -x;
    assert x * x == y * y;
    SquareMonotone(y, 0x8000_0000);
    MulLeft(y, 0, y);
  }

  /** Two items share a view type exactly when their pairing values agree modulo 2^32. */
  lemma ViewTypeEqualIff(a: int, b: int, c: int, d: int)
    requires IsInt(a) && IsInt(b) && IsInt(c) && IsInt(d)
    ensures ViewType(a, b) == ViewType(c, d) <==> (Pairing(a, b) - Pairing(c, d)) % TwoTo32 == 0
  {
    var p, q := Pairing(a, b) - IntMax, Pairing(c, d) - IntMax;
    PairingFitsLong(a, b);
    PairingFitsLong(c, d);
    var r, s := ViewType(a, b), ViewType(c, d);
    ModDifference(p, r, q, s);
  }

  lemma ModDifference(p: int, r: int, q: int, s: int)
    requires (r - p) % TwoTo32 == 0 && (s - q) % TwoTo32 == 0
    requires IsInt(r) && IsInt(s)
    ensures r == s <==> (p - q) % TwoTo32 == 0
  {
    var k1 := (r - p) / TwoTo32;
    var k2 := (s - q) / TwoTo32;
    assert r - p == k1 * TwoTo32;
    assert s - q == k2 * TwoTo32;
    assert p - q == (r - s) + (k2 - k1) * TwoTo32;
    MultipleMod(k2 - k1);
    if (p - q) % TwoTo32 == 0 {
      var k3 := (p - q) / TwoTo32;
      assert p - q == k3 * TwoTo32;
      var k := k1 - k2 + k3;
      assert r - s == k * TwoTo32;
      if k >= 1 { MulLeft(TwoTo32, 1, k); } else if k <= -1 { MulLeft(TwoTo32, k, -1); }
    }
  }

  lemma MultipleMod(k: int)
    ensures (k * TwoTo32) % TwoTo32 == 0
  {
  }

  /** The 32-bit view type is not unique: these two distinct pairs collide. */
  lemma ViewTypeCollision()
    ensures Pairing(0, 0) != Pairing(0, 0x1_0000)
    ensures ViewType(0, 0) == ViewType(0, 0x1_0000)
  {
    assert Pairing(0, 0x1_0000) == TwoTo32;
    ViewTypeEqualIff(0, 0, 0, 0x1_0000);
  }
}
