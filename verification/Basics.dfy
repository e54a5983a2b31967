/** Small definitions that several components share. */
module Basics {

  datatype Option<+T> = None | Some(value: T)

  type Byte = x: nat | x < 0x100
  type Bytes = seq<Byte>

  function Pow2(n: nat): (p: nat)
    ensures p > 0
  {
    if n == 0 then 1 else 2 * Pow2(n - 1)
  }

  /** Dividing by d what has a low part below d only drops that part. */
  lemma Drop(high: nat, low: nat, d: nat)
    requires low < d
    ensures (high * d + low) / d == high && (high * d + low) % d == low
  {
    var n := high * d + low;
    Unique(n / d, n % d, high, low, d);
  }

  lemma Unique(q: nat, r: nat, high: nat, low: nat, d: nat)
    requires r < d && low < d && q * d + r == high * d + low
    ensures q == high && r == low
  {
    if q < high {
      NextMultiple(q, high, d);
      assert false;
    } else if q > high {
      NextMultiple(high, q, d);
      assert false;
    }
  }

  lemma NextMultiple(a: nat, b: nat, d: nat)
    requires a < b
    ensures a * d + d <= b * d
  {
    assert (a + 1) * d <= b * d;
  }

  /** Adding multiples of d adds to the quotient and leaves the remainder. */
  lemma AddMultiples(x: nat, y: nat, d: nat)
    requires d > 0
    ensures (x * d + y) / d == x + y / d && (x * d + y) % d == y % d
  {
    assert y == y / d * d + y % d;
    assert (x + y / d) * d == x * d + y / d * d;
    Drop(x + y / d, y % d, d);
  }

  /** Whether a place is set in a number. */
  predicate Set(v: nat, place: nat) {
    v / Pow2(place) % 2 == 1
  }

  lemma SetBelow(v: nat, place: nat)
    ensures Set(v, place + 1) <==> Set(v / 2, place)
  {
    var p := Pow2(place);
    var q, r := v / 2 / p, v / 2 % p;
    assert v / 2 == q * p + r;
    assert v == q * (2 * p) + (2 * r + v % 2);
    Drop(q, 2 * r + v % 2, 2 * p);
  }
}
