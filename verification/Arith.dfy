/** Facts about products, quotients and remainders by a variable, and about the size of sets. */
module Arith {

  lemma SubsetCount<T>(s: set<T>, t: set<T>)
    requires s <= t
    ensures |s| <= |t| && (|s| == |t| ==> s == t)
  {
    assert t == s + (t - s);
    assert |t| == |s| + |t - s|;
  }

  lemma MulMonotone(a: nat, b: nat, m: nat)
    requires a <= b
    ensures a * m <= b * m
    ensures a < b ==> a * m + m <= b * m
  {
    assert b * m == a * m + (b - a) * m;
    if a < b {
      assert (b - a) * m == m + (b - a - 1) * m;
    }
  }

  lemma QuotientUnique(x: nat, q: nat, m: nat)
    requires m > 0 && q * m <= x < q * m + m
    ensures x / m == q && x % m == x - q * m
  {
    var p := x / m;
    assert x == p * m + x % m;
    if p < q {
      MulMonotone(p, q, m);
    } else if q < p {
      MulMonotone(q, p, m);
    }
  }

  /** x written in the mixed base (a, b): its quotient and remainder by a * b. */
  lemma MixedBase(x: nat, a: nat, b: nat, w: nat, z: nat, v: nat)
    requires v < a && z < b && x == w * (a * b) + (z * a + v)
    ensures a * b > 0 && x / (a * b) == w && x % (a * b) == z * a + v
  {
    MulMonotone(z + 1, b, a);
    assert (z + 1) * a == z * a + a;
    QuotientUnique(x, w, a * b);
  }

  lemma DivDiv(x: nat, a: nat, b: nat)
    requires a > 0 && b > 0
    ensures a * b > 0
    ensures x / (a * b) == x / a / b
    ensures x % (a * b) == x / a % b * a + x % a
  {
    var u, v := x / a, x % a;
    var w, z := u / b, u % b;
    assert x == u * a + v;
    assert u == w * b + z;
    Regroup(x, a, b, u, v, w, z);
    MixedBase(x, a, b, w, z, v);
  }

  lemma Regroup(x: nat, a: nat, b: nat, u: nat, v: nat, w: nat, z: nat)
    requires x == u * a + v && u == w * b + z
    ensures x == w * (a * b) + (z * a + v)
  {
    assert u * a == w * b * a + z * a;
    assert w * b * a == w * (a * b);
  }
}
