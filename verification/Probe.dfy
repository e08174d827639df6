/**
 The probe sequence shared by all hash tables of the compiler
 (compiler/astalgo.nim): `nextTry` is a full-period generator on every
 power-of-two table size, and a table with one free slot therefore ends every
 probe loop within `length` steps.
 */
module Probe {

  function Pow2(k: nat): (r: nat)
    ensures r > 0
  {
    if k == 0 then 1 else 2 * Pow2(k - 1)
  }

  ghost predicate IsPow2(n: nat) {
    exists k: nat :: n == Pow2(k)
  }

  /** The bitwise `and` of an integer in two's complement and a non-negative mask. */
  function BitAnd(x: int, mask: nat): (r: nat)
    decreases mask
  {
    if mask == 0 then 0
    else (if x % 2 == 1 && mask % 2 == 1 then 1 else 0) + 2 * BitAnd(x / 2, mask / 2)
  }

  /** Masking with `2^k - 1` keeps the residue modulo `2^k`, also for negative hashes. */
  lemma {:induction false} MaskIsMod(x: int, k: nat)
    ensures BitAnd(x, Pow2(k) - 1) == x % Pow2(k)
    decreases k
  {
    if k == 0 {
      assert Pow2(0) == 1;
    } else {
      var p := Pow2(k - 1);
      assert Pow2(k) == 2 * p;
      assert (2 * p - 1) / 2 == p - 1 && (2 * p - 1) % 2 == 1;
      MaskIsMod(x / 2, k - 1);
      HalveResidue(x, p);
    }
  }

  lemma HalveResidue(x: int, p: nat)
    requires p > 0
    ensures x % (2 * p) == x % 2 + 2 * ((x / 2) % p)
  {
    var h := x / 2;
    var q, r := h / p, h % p;
    assert h == q * p + r;
    assert x == 2 * h + x % 2;
    var rest := x % 2 + 2 * r;
    assert x == q * (2 * p) + rest by {
      assert q * (2 * p) == 2 * (q * p);
    }
    ResidueUnique(x, 2 * p, q, rest);
  }

  lemma ResidueUnique(x: int, m: nat, q: int, r: int)
    requires m > 0
    requires x == q * m + r && 0 <= r < m
    ensures x % m == r && x / m == q
  {
    var q', r' := x / m, x % m;
    assert x == q' * m + r';
    MulDistributes(q, q', m);
    MulGrows(q - q', m);
  }

  lemma MulDistributes(a: int, b: int, m: int)
    ensures (a - b) * m == a * m - b * m
    ensures (a + b) * m == a * m + b * m
  {
  }

  lemma MulAssociates(a: int, b: int, c: int)
    ensures a * (b * c) == (a * b) * c == b * (a * c)
  {
  }

  lemma MulGrows(a: int, m: int)
    requires m > 0
    ensures a >= 1 ==> a * m >= m
    ensures a <= -1 ==> a * m <= -m
  {
  }

  /** Start slot of a hash in a table of `length` slots: `hash and high(data)`. */
  function Home(hash: int, length: nat): (r: nat)
    requires length > 0
  {
    BitAnd(hash, length - 1)
  }

  function NextTry(h: nat, maxHash: nat): (r: nat) {
    BitAnd(5 * h + 1, maxHash)
  }

  lemma HomeInRange(hash: int, length: nat)
    requires IsPow2(length)
    ensures length > 0 && Home(hash, length) < length && Home(hash, length) == hash % length
  {
    var k: nat :| length == Pow2(k);
    MaskIsMod(hash, k);
  }

  lemma NextTryInRange(h: nat, length: nat)
    requires IsPow2(length)
    ensures length > 0 && NextTry(h, length - 1) < length
    ensures NextTry(h, length - 1) == (5 * h + 1) % length
  {
    var k: nat :| length == Pow2(k);
    MaskIsMod(5 * h + 1, k);
  }

  /** The slot reached after `n` probe steps from `h`. */
  function Iter(h: nat, n: nat, length: nat): (r: nat)
    requires length > 0
  {
    if n == 0 then h else NextTry(Iter(h, n - 1, length), length - 1)
  }

  lemma IterInRange(h: nat, n: nat, length: nat)
    requires IsPow2(length) && h < length
    ensures length > 0 && Iter(h, n, length) < length
  {
    if n > 0 {
      NextTryInRange(Iter(h, n - 1, length), length);
    }
  }

  // ---------- the number theory ----------

  /** The probe sequence without reduction. */
  function Unreduced(h: nat, n: nat): nat {
    if n == 0 then h else 5 * Unreduced(h, n - 1) + 1
  }

  /** `1 + 5 + 25 + ... + 5^(n-1)`. */
  function Geo(n: nat): nat {
    Unreduced(0, n)
  }

  ghost predicate Divides(d: nat, x: int) {
    exists q: int :: x == q * d
  }

  /** Two terms of the sequence differ by an odd multiple of `Geo` of their distance. */
  lemma {:induction false} UnreducedDifference(h: nat, n: nat, j: nat) returns (t: nat)
    ensures Unreduced(h, n + j) == Unreduced(h, j) + (4 * t + 1) * Geo(n)
    decreases j
  {
    if j > 0 {
      var u := UnreducedDifference(h, n, j - 1);
      t := 5 * u + 1;
      FiveTimes(Unreduced(h, n + (j - 1)), Unreduced(h, j - 1), 4 * u + 1, Geo(n));
    } else {
      t := h;
      UnreducedFrom0(h, n);
    }
  }

  lemma FiveTimes(x: int, y: int, o: int, g: int)
    requires x == y + o * g
    ensures 5 * x + 1 == 5 * y + 1 + (5 * o) * g
  {
  }

  lemma {:induction false} UnreducedFrom0(h: nat, n: nat)
    ensures Unreduced(h, n) == h + (4 * h + 1) * Geo(n)
  {
    if n > 0 {
      UnreducedFrom0(h, n - 1);
      FromZeroStep(Unreduced(h, n - 1), h, Geo(n - 1));
    }
  }

  lemma FromZeroStep(u: int, h: int, g: int)
    requires u == h + (4 * h + 1) * g
    ensures 5 * u + 1 == h + (4 * h + 1) * (5 * g + 1)
  {
  }

  lemma {:induction false} GeoParity(n: nat)
    ensures Geo(n) % 2 == n % 2
  {
    var q := GeoEvenDistance(n);
    AddEven(n, q);
  }

  lemma {:induction false} GeoEvenDistance(n: nat) returns (q: nat)
    ensures Geo(n) == n + 2 * q
  {
    if n == 0 {
      q := 0;
    } else {
      var r := GeoEvenDistance(n - 1);
      q := 2 * (n - 1) + 5 * r;
    }
  }

  lemma AddEven(n: nat, q: nat)
    ensures (n + 2 * q) % 2 == n % 2
  {
  }

  /** `2^k` divides `Geo(n)` exactly when it divides `n`. */
  lemma {:induction false} GeoDivisible(k: nat, n: nat)
    ensures Divides(Pow2(k), Geo(n)) <==> Divides(Pow2(k), n)
  {
    hide *;
    if k == 0 {
      OneDivides(Geo(n));
      OneDivides(n);
    } else if n % 2 == 1 {
      GeoParity(n);
      OddNotDivisible(k, Geo(n));
      OddNotDivisible(k, n);
    } else {
      var m := n / 2;
      var t := GeoDouble(m);
      DoubleDivides(k, (2 * t + 1) * Geo(m));
      DoubleDivides(k, m);
      OddFactor(k - 1, 2 * t + 1, Geo(m));
      GeoDivisible(k - 1, m);
    }
  }

  lemma OneDivides(x: int)
    ensures Divides(Pow2(0), x)
  {
    assert x == x * Pow2(0);
  }

  lemma GeoDouble(m: nat) returns (t: nat)
    ensures Geo(2 * m) == 2 * ((2 * t + 1) * Geo(m))
  {
    hide Unreduced;
    t := UnreducedDifference(0, m, m);
    assert m + m == 2 * m;
    MulDistributes(4 * t + 1, 1, Geo(m));
    MulAssociates(2, 2 * t + 1, Geo(m));
  }

  lemma OddNotDivisible(k: nat, x: int)
    requires k > 0 && x % 2 == 1
    ensures !Divides(Pow2(k), x)
  {
    forall q: int ensures q * Pow2(k) != x {
      EvenMultiple(q, Pow2(k - 1), x);
    }
  }

  lemma EvenMultiple(q: int, p: int, x: int)
    requires x % 2 == 1
    ensures q * (2 * p) != x
  {
    MulAssociates(q, 2, p);
  }

  lemma DoubleDivides(k: nat, x: int)
    requires k > 0
    ensures Divides(Pow2(k), 2 * x) <==> Divides(Pow2(k - 1), x)
  {
    var p := Pow2(k - 1);
    if Divides(Pow2(k), 2 * x) {
      var q: int :| 2 * x == q * Pow2(k);
      assert q * (2 * p) == 2 * (q * p);
      assert x == q * p;
    }
    if Divides(p, x) {
      var q: int :| x == q * p;
      assert q * (2 * p) == 2 * (q * p);
      assert 2 * x == q * Pow2(k);
    }
  }

  /** An odd factor does not change divisibility by a power of two. */
  lemma {:induction false} OddFactor(k: nat, odd: int, x: int)
    requires odd % 2 == 1
    ensures Divides(Pow2(k), odd * x) <==> Divides(Pow2(k), x)
  {
    hide *;
    if k == 0 {
      OneDivides(odd * x);
      OneDivides(x);
    } else if x % 2 == 1 {
      OddTimesOdd(odd, x);
      OddNotDivisible(k, odd * x);
      OddNotDivisible(k, x);
    } else {
      var m := x / 2;
      assert x == 2 * m;
      assert odd * x == 2 * (odd * m) by {
        assert odd * (2 * m) == 2 * (odd * m);
      }
      DoubleDivides(k, odd * m);
      DoubleDivides(k, m);
      OddFactor(k - 1, odd, m);
    }
  }

  lemma OddTimesOdd(a: int, b: int)
    requires a % 2 == 1 && b % 2 == 1
    ensures (a * b) % 2 == 1
  {
    var i, j := a / 2, b / 2;
    assert a == 2 * i + 1 && b == 2 * j + 1;
    assert a * b == 2 * (2 * (i * j) + i + j) + 1 by {
      assert (2 * i + 1) * (2 * j + 1) == 4 * (i * j) + 2 * i + 2 * j + 1;
    }
  }

  lemma {:induction false} IterReduces(h: nat, n: nat, length: nat)
    requires IsPow2(length) && h < length
    ensures length > 0 && Iter(h, n, length) == Unreduced(h, n) % length
  {
    if n > 0 {
      IterReduces(h, n - 1, length);
      NextTryInRange(Iter(h, n - 1, length), length);
      StepOfResidue(Unreduced(h, n - 1), length);
    } else {
      ResidueUnique(h, length, 0, h);
    }
  }

  lemma StepOfResidue(x: int, m: nat)
    requires m > 0
    ensures (5 * (x % m) + 1) % m == (5 * x + 1) % m
  {
    var q, r := x / m, x % m;
    assert x == q * m + r;
    var q2, r2 := (5 * r + 1) / m, (5 * r + 1) % m;
    assert 5 * r + 1 == q2 * m + r2;
    assert 5 * x + 1 == (5 * q + q2) * m + r2 by {
      assert 5 * (q * m) == (5 * q) * m;
      assert (5 * q) * m + q2 * m == (5 * q + q2) * m;
    }
    ResidueUnique(5 * x + 1, m, 5 * q + q2, r2);
  }

  lemma SameResidue(x: int, y: int, m: nat)
    requires m > 0
    ensures x % m == y % m <==> Divides(m, x - y)
  {
    if x % m == y % m {
      assert x - y == (x / m - y / m) * m by {
        assert (x / m - y / m) * m == (x / m) * m - (y / m) * m;
      }
    }
    if Divides(m, x - y) {
      var q: int :| x - y == q * m;
      assert x == (q + y / m) * m + y % m by {
        assert (q + y / m) * m == q * m + (y / m) * m;
      }
      ResidueUnique(x, m, q + y / m, y % m);
    }
  }

  /**
   Two probes agree exactly when their step numbers agree modulo the length:
   the generator has full period from every start slot.
   */
  lemma FullPeriod(h: nat, i: nat, j: nat, length: nat)
    requires IsPow2(length) && h < length
    ensures length > 0
    ensures Iter(h, i, length) == Iter(h, j, length) <==> i % length == j % length
  {
    if i >= j {
      FullPeriodOrdered(h, i, j, length);
    } else {
      FullPeriodOrdered(h, j, i, length);
    }
  }

  lemma FullPeriodOrdered(h: nat, i: nat, j: nat, length: nat)
    requires IsPow2(length) && h < length && i >= j
    ensures length > 0
    ensures Iter(h, i, length) == Iter(h, j, length) <==> i % length == j % length
  {
    var k: nat :| length == Pow2(k);
    IterReduces(h, i, length);
    IterReduces(h, j, length);
    DistanceDivisible(h, i, j, k);
    SameResidue(Unreduced(h, i), Unreduced(h, j), length);
    SameResidue(i, j, length);
  }

  lemma DistanceDivisible(h: nat, i: nat, j: nat, k: nat)
    requires i >= j
    ensures Divides(Pow2(k), Unreduced(h, i) - Unreduced(h, j)) <==> Divides(Pow2(k), i - j)
  {
    hide *;
    var t := UnreducedDifference(h, i - j, j);
    OddFactor(k, 4 * t + 1, Geo(i - j));
    GeoDivisible(k, i - j);
  }

  // ---------- every slot is visited ----------

  function Range(n: nat): (r: set<nat>)
    ensures |r| == n && forall i :: i in r <==> 0 <= i < n
  {
    if n == 0 then {} else Range(n - 1) + {n - 1}
  }

  ghost function Visited(h: nat, n: nat, length: nat): set<nat>
    requires length > 0
  {
    set i: nat | i < n :: Iter(h, i, length)
  }

  lemma {:induction false} VisitedCount(h: nat, n: nat, length: nat)
    requires IsPow2(length) && h < length && n <= length
    ensures length > 0 && |Visited(h, n, length)| == n
  {
    hide Iter;
    if n > 0 {
      VisitedCount(h, n - 1, length);
      var last := Iter(h, n - 1, length);
      if last in Visited(h, n - 1, length) {
        var i: nat :| i < n - 1 && Iter(h, i, length) == last;
        FullPeriod(h, i, n - 1, length);
        ResidueUnique(i, length, 0, i);
        ResidueUnique(n - 1, length, 0, n - 1);
        assert false;
      }
      assert Visited(h, n, length) == Visited(h, n - 1, length) + {last};
    }
  }

  lemma SubsetOfSameSize<T>(a: set<T>, b: set<T>)
    requires a <= b && |a| == |b|
    ensures a == b
  {
    assert b == a + (b - a);
  }

  /** From any start, `length` probes visit every slot. */
  lemma VisitsEverySlot(h: nat, slot: nat, length: nat) returns (n: nat)
    requires IsPow2(length) && h < length && slot < length
    ensures n < length && Iter(h, n, length) == slot
  {
    VisitedCount(h, length, length);
    forall i: nat | i < length ensures Iter(h, i, length) in Range(length) {
      IterInRange(h, i, length);
    }
    SubsetOfSameSize(Visited(h, length, length), Range(length));
    assert slot in Visited(h, length, length);
    n :| n < length && Iter(h, n, length) == slot;
  }

  /** ... and visits it only once. */
  lemma VisitsOnce(h: nat, i: nat, j: nat, length: nat)
    requires IsPow2(length) && h < length && i < length && j < length
    requires Iter(h, i, length) == Iter(h, j, length)
    ensures i == j
  {
    FullPeriod(h, i, j, length);
    ResidueUnique(i, length, 0, i);
    ResidueUnique(j, length, 0, j);
  }
}
