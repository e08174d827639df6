/**
 The representations of Nim sets: byte bit sets of the compiler
 (compiler/bitsets.nim), the packed words and the C code for set operations
 (compiler/ccgexprs.nim). Each one is shown to compute with the mathematical set
 of its members. Machine words are natural numbers, their bits are recursive.
 */
module BitSets {
  import opened Probe

  type Byte = b: nat | b < 256

  // ---------- bits ----------

  function Bit(n: nat, k: nat): bool
    decreases k
  {
    if k == 0 then n % 2 == 1 else Bit(n / 2, k - 1)
  }

  function B(b: bool): nat {
    if b then 1 else 0
  }

  function And(x: nat, y: nat): (r: nat)
    ensures r <= x && r <= y
  {
    if x == 0 || y == 0 then 0 else B(x % 2 == 1 && y % 2 == 1) + 2 * And(x / 2, y / 2)
  }

  function Or(x: nat, y: nat): (r: nat)
    ensures r <= x + y
    decreases x + y
  {
    if x == 0 then y else if y == 0 then x else B(x % 2 == 1 || y % 2 == 1) + 2 * Or(x / 2, y / 2)
  }

  function Xor(x: nat, y: nat): nat
    decreases x + y
  {
    if x == 0 then y else if y == 0 then x else B(x % 2 != y % 2) + 2 * Xor(x / 2, y / 2)
  }

  /** `x and not y` */
  function AndNot(x: nat, y: nat): (r: nat)
    ensures r <= x
  {
    if x == 0 || y == 0 then x else B(x % 2 == 1 && y % 2 == 0) + 2 * AndNot(x / 2, y / 2)
  }

  function Shl(x: nat, k: nat): nat {
    x * Pow2(k)
  }

  lemma {:induction false} ZeroBits(k: nat)
    ensures !Bit(0, k)
  {
    if k > 0 {
      ZeroBits(k - 1);
    }
  }

  lemma {:induction false} AndBit(x: nat, y: nat, k: nat)
    ensures Bit(And(x, y), k) <==> Bit(x, k) && Bit(y, k)
    decreases k
  {
    if x == 0 || y == 0 {
      ZeroBits(k);
    } else if k > 0 {
      AndBit(x / 2, y / 2, k - 1);
    }
  }

  lemma {:induction false} OrBit(x: nat, y: nat, k: nat)
    ensures Bit(Or(x, y), k) <==> Bit(x, k) || Bit(y, k)
    decreases k
  {
    if x == 0 || y == 0 {
      ZeroBits(k);
    } else if k > 0 {
      OrBit(x / 2, y / 2, k - 1);
    }
  }

  lemma {:induction false} XorBit(x: nat, y: nat, k: nat)
    ensures Bit(Xor(x, y), k) <==> (Bit(x, k) != Bit(y, k))
    decreases k
  {
    if x == 0 || y == 0 {
      ZeroBits(k);
    } else if k > 0 {
      XorBit(x / 2, y / 2, k - 1);
    }
  }

  lemma {:induction false} AndNotBit(x: nat, y: nat, k: nat)
    ensures Bit(AndNot(x, y), k) <==> Bit(x, k) && !Bit(y, k)
    decreases k
  {
    if x == 0 || y == 0 {
      ZeroBits(k);
    } else if k > 0 {
      AndNotBit(x / 2, y / 2, k - 1);
    }
  }

  lemma {:induction false} ShlBit(x: nat, s: nat, k: nat)
    ensures Bit(Shl(x, s), k) <==> k >= s && Bit(x, k - s)
    decreases s
  {
    if s == 0 {
      assert Shl(x, 0) == x;
    } else {
      DoubleShl(x, s);
      if k > 0 {
        ShlBit(x, s - 1, k - 1);
      }
    }
  }

  lemma DoubleShl(x: nat, s: nat)
    requires s > 0
    ensures Shl(x, s) == 2 * Shl(x, s - 1) && Shl(x, s) / 2 == Shl(x, s - 1) && Shl(x, s) % 2 == 0
  {
    MulAssociates(x, 2, Pow2(s - 1));
    MulAssociates(2, x, Pow2(s - 1));
  }

  lemma OneBit(k: nat)
    ensures Bit(1, k) <==> k == 0
  {
    if k > 0 {
      ZeroBits(k - 1);
    }
  }

  /** The bit that `1 shl s` sets. */
  lemma MaskBit(s: nat, k: nat)
    ensures Bit(Shl(1, s), k) <==> k == s
  {
    ShlBit(1, s, k);
    if k >= s {
      OneBit(k - s);
    }
  }

  /** A number is zero exactly when it has no bit. */
  lemma {:induction false} NonZero(n: nat) returns (k: nat)
    requires n > 0
    ensures Bit(n, k)
  {
    if n % 2 == 1 {
      k := 0;
    } else {
      var k' := NonZero(n / 2);
      k := k' + 1;
    }
  }

  lemma {:induction false} SameBits(x: nat, y: nat)
    requires forall k: nat :: Bit(x, k) == Bit(y, k)
    ensures x == y
    decreases x + y
  {
    assert Bit(x, 0) == Bit(y, 0);
    if x == 0 || y == 0 {
      SomeBit(x);
      SomeBit(y);
    } else {
      forall k: nat ensures Bit(x / 2, k) == Bit(y / 2, k) {
        assert Bit(x, k + 1) == Bit(y, k + 1);
      }
      SameBits(x / 2, y / 2);
    }
  }

  lemma SomeBit(n: nat)
    ensures n > 0 ==> exists k: nat :: Bit(n, k)
    ensures forall k: nat :: !Bit(0, k)
  {
    forall k: nat ensures !Bit(0, k) {
      ZeroBits(k);
    }
    if n > 0 {
      var k := NonZero(n);
    }
  }

  /** `(n and (1 shl k)) != 0` */
  lemma TestBit(n: nat, k: nat)
    ensures And(n, Shl(1, k)) != 0 <==> Bit(n, k)
  {
    var a := And(n, Shl(1, k));
    if a != 0 {
      var j := NonZero(a);
      AndBit(n, Shl(1, k), j);
      MaskBit(k, j);
    } else {
      ZeroBits(k);
      AndBit(n, Shl(1, k), k);
      MaskBit(k, k);
    }
  }

  lemma {:induction false} HighBits(n: nat, m: nat, k: nat)
    requires n < Pow2(m) && k >= m
    ensures !Bit(n, k)
    decreases k
  {
    if n == 0 {
      ZeroBits(k);
    } else if k > 0 {
      assert m > 0;
      HighBits(n / 2, m - 1, k - 1);
    }
  }

  lemma {:induction false} FewBits(n: nat, m: nat)
    requires forall k: nat | k >= m :: !Bit(n, k)
    ensures n < Pow2(m)
    decreases m, n
  {
    if m == 0 {
      SomeBit(n);
    } else {
      forall k: nat | k >= m - 1 ensures !Bit(n / 2, k) {
        assert !Bit(n, k + 1);
      }
      FewBits(n / 2, m - 1);
    }
  }

  /** The byte operations stay within a byte. */
  lemma BytesStay(x: Byte, y: Byte)
    ensures And(x, y) < 256 && Or(x, y) < 256 && Xor(x, y) < 256 && AndNot(x, y) < 256
  {
    assert Pow2(8) == 256 by {
      assert Pow2(4) == 16;
    }
    forall k: nat | k >= 8 ensures !Bit(Or(x, y), k) && !Bit(Xor(x, y), k) {
      HighBits(x, 8, k);
      HighBits(y, 8, k);
      OrBit(x, y, k);
      XorBit(x, y, k);
    }
    FewBits(Or(x, y), 8);
    FewBits(Xor(x, y), 8);
  }

  lemma MaskByte(k: nat)
    requires k < 8
    ensures Shl(1, k) < 256
  {
    assert Pow2(8) == 256 by {
      assert Pow2(4) == 16;
    }
    forall j: nat | j >= 8 ensures !Bit(Shl(1, k), j) {
      MaskBit(k, j);
    }
    FewBits(Shl(1, k), 8);
  }

  // ---------- byte bit sets ----------

  type ByteSet = seq<Byte>

  predicate In(x: ByteSet, e: nat) {
    e / 8 < |x| && Bit(x[e / 8], e % 8)
  }

  function Members(x: ByteSet): set<nat> {
    set e | 0 <= e < 8 * |x| && In(x, e)
  }

  lemma MemberIs(x: ByteSet, e: nat)
    ensures e in Members(x) <==> In(x, e)
  {
  }

  lemma InitEmpty(n: nat)
    ensures Members(seq(n, _ => 0)) == {}
  {
    var z: ByteSet := seq(n, _ => 0);
    forall e: nat ensures !In(z, e) {
      ZeroBits(e % 8);
    }
    assert Members(z) == {};
  }

  method BitSetIn(x: ByteSet, e: nat) returns (r: bool)
    requires e / 8 < |x|
    ensures r <==> e in Members(x)
  {
    TestBit(x[e / 8], e % 8);
    r := And(x[e / 8], Shl(1, e % 8)) != 0;
  }

  method BitSetIncl(x: array<Byte>, elem: nat)
    requires elem / 8 < x.Length
    modifies x
    ensures Members(x[..]) == old(Members(x[..])) + {elem}
  {
    var j, k := elem / 8, elem % 8;
    ghost var before := x[..];
    MaskByte(k);
    BytesStay(x[j], Shl(1, k));
    x[j] := Or(x[j], Shl(1, k));
    forall e: nat ensures In(x[..], e) <==> In(before, e) || e == elem {
      if e / 8 == j {
        OrBit(before[j], Shl(1, k), e % 8);
        MaskBit(k, e % 8);
      }
    }
  }

  method BitSetExcl(x: array<Byte>, elem: nat)
    requires elem / 8 < x.Length
    modifies x
    ensures Members(x[..]) == old(Members(x[..])) - {elem}
  {
    var j, k := elem / 8, elem % 8;
    ghost var before := x[..];
    MaskByte(k);
    BytesStay(x[j], Shl(1, k));
    x[j] := AndNot(x[j], Shl(1, k));
    forall e: nat ensures In(x[..], e) <==> In(before, e) && e != elem {
      if e / 8 == j {
        AndNotBit(before[j], Shl(1, k), e % 8);
        MaskBit(k, e % 8);
      }
    }
  }

  // the four operations that change their first operand byte by byte

  method BitSetUnion(x: array<Byte>, y: ByteSet)
    requires x.Length <= |y|
    modifies x
    ensures forall e: nat | e < 8 * x.Length :: e in Members(x[..]) <==> e in old(Members(x[..])) || e in Members(y)
  {
    ghost var before := x[..];
    for i := 0 to x.Length
      invariant forall j | 0 <= j < i :: x[j] == Or(before[j], y[j])
      invariant forall j | i <= j < x.Length :: x[j] == before[j]
    {
      BytesStay(x[i], y[i]);
      x[i] := Or(x[i], y[i]);
    }
    forall e: nat | e < 8 * x.Length ensures In(x[..], e) <==> In(before, e) || In(y, e) {
      OrBit(before[e / 8], y[e / 8], e % 8);
    }
  }

  method BitSetDiff(x: array<Byte>, y: ByteSet)
    requires x.Length <= |y|
    modifies x
    ensures Members(x[..]) == old(Members(x[..])) - Members(y)
  {
    ghost var before := x[..];
    for i := 0 to x.Length
      invariant forall j | 0 <= j < i :: x[j] == AndNot(before[j], y[j])
      invariant forall j | i <= j < x.Length :: x[j] == before[j]
    {
      x[i] := AndNot(x[i], y[i]);
    }
    forall e: nat | e < 8 * x.Length ensures In(x[..], e) <==> In(before, e) && !In(y, e) {
      AndNotBit(before[e / 8], y[e / 8], e % 8);
    }
  }

  method BitSetSymDiff(x: array<Byte>, y: ByteSet)
    requires x.Length <= |y|
    modifies x
    ensures forall e: nat | e < 8 * x.Length :: e in Members(x[..]) <==> (e in old(Members(x[..]))) != (e in Members(y))
  {
    ghost var before := x[..];
    for i := 0 to x.Length
      invariant forall j | 0 <= j < i :: x[j] == Xor(before[j], y[j])
      invariant forall j | i <= j < x.Length :: x[j] == before[j]
    {
      BytesStay(x[i], y[i]);
      x[i] := Xor(x[i], y[i]);
    }
    forall e: nat | e < 8 * x.Length ensures In(x[..], e) <==> (In(before, e) != In(y, e)) {
      XorBit(before[e / 8], y[e / 8], e % 8);
    }
  }

  method BitSetIntersect(x: array<Byte>, y: ByteSet)
    requires x.Length <= |y|
    modifies x
    ensures Members(x[..]) == old(Members(x[..])) * Members(y)
  {
    ghost var before := x[..];
    for i := 0 to x.Length
      invariant forall j | 0 <= j < i :: x[j] == And(before[j], y[j])
      invariant forall j | i <= j < x.Length :: x[j] == before[j]
    {
      x[i] := And(x[i], y[i]);
    }
    forall e: nat | e < 8 * x.Length ensures In(x[..], e) <==> In(before, e) && In(y, e) {
      AndBit(before[e / 8], y[e / 8], e % 8);
    }
  }

  lemma SameByte(x: Byte, y: Byte)
    requires forall k: nat | k < 8 :: Bit(x, k) == Bit(y, k)
    ensures x == y
  {
    assert Pow2(8) == 256 by {
      assert Pow2(4) == 16;
    }
    forall k: nat ensures Bit(x, k) == Bit(y, k) {
      if k >= 8 {
        HighBits(x, 8, k);
        HighBits(y, 8, k);
      }
    }
    SameBits(x, y);
  }

  lemma SameMembers(x: ByteSet, y: ByteSet)
    requires |x| == |y|
    ensures Members(x) == Members(y) <==> x == y
  {
    if Members(x) == Members(y) {
      forall i | 0 <= i < |x| ensures x[i] == y[i] {
        forall k: nat | k < 8 ensures Bit(x[i], k) == Bit(y[i], k) {
          var e := 8 * i + k;
          assert e / 8 == i && e % 8 == k;
          MemberIs(x, e);
          MemberIs(y, e);
        }
        SameByte(x[i], y[i]);
      }
    }
  }

  method BitSetEquals(x: ByteSet, y: ByteSet) returns (r: bool)
    requires |x| == |y|
    ensures r <==> Members(x) == Members(y)
  {
    SameMembers(x, y);
    for i := 0 to |x|
      invariant forall j | 0 <= j < i :: x[j] == y[j]
    {
      if x[i] != y[i] {
        return false;
      }
    }
    return true;
  }

  lemma SubsetBit(x: nat, y: nat, k: nat)
    requires AndNot(x, y) == 0 && Bit(x, k)
    ensures Bit(y, k)
  {
    ZeroBits(k);
    AndNotBit(x, y, k);
  }

  lemma NotSubset(x: Byte, y: Byte) returns (k: nat)
    requires AndNot(x, y) != 0
    ensures k < 8 && Bit(x, k) && !Bit(y, k)
  {
    assert Pow2(8) == 256 by {
      assert Pow2(4) == 16;
    }
    k := NonZero(AndNot(x, y));
    AndNotBit(x, y, k);
    if k >= 8 {
      HighBits(x, 8, k);
    }
  }

  lemma SubsetMembers(x: ByteSet, y: ByteSet)
    requires |x| <= |y|
    ensures Members(x) <= Members(y) <==> forall i | 0 <= i < |x| :: AndNot(x[i], y[i]) == 0
  {
    if Members(x) <= Members(y) {
      forall i | 0 <= i < |x| ensures AndNot(x[i], y[i]) == 0 {
        if AndNot(x[i], y[i]) != 0 {
          var k := NotSubset(x[i], y[i]);
          var e := 8 * i + k;
          assert e / 8 == i && e % 8 == k;
          MemberIs(x, e);
          MemberIs(y, e);
        }
      }
    }
    if forall i | 0 <= i < |x| :: AndNot(x[i], y[i]) == 0 {
      forall e | e in Members(x) ensures e in Members(y) {
        SubsetBit(x[e / 8], y[e / 8], e % 8);
        MemberIs(y, e);
      }
    }
  }

  /** `bitSetContains`: despite its name it asks whether `x` is a subset of `y`. */
  method BitSetContains(x: ByteSet, y: ByteSet) returns (r: bool)
    requires |x| <= |y|
    ensures r <==> Members(x) <= Members(y)
  {
    SubsetMembers(x, y);
    for i := 0 to |x|
      invariant forall j | 0 <= j < i :: AndNot(x[j], y[j]) == 0
    {
      if AndNot(x[i], y[i]) != 0 {
        return false;
      }
    }
    return true;
  }

  // ---------- cardinality ----------

  /** The bits of `x` below `n`. */
  function CountBits(x: nat, n: nat): nat {
    if n == 0 then 0 else CountBits(x, n - 1) + B(Bit(x, n - 1))
  }

  /** `(x and mask) shr k` */
  function Masked(x: nat, k: nat): nat {
    Shr(And(x, Shl(1, k)), Pow2(k))
  }

  /** Shifting right by the logarithm of `p`. */
  function Shr(x: nat, p: nat): (r: nat)
    requires p > 0
  {
    x / p
  }

  lemma MaskedIs(x: nat, k: nat)
    ensures Masked(x, k) == B(Bit(x, k))
  {
    forall j: nat ensures Bit(And(x, Shl(1, k)), j) == Bit(if Bit(x, k) then Shl(1, k) else 0, j) {
      AndBit(x, Shl(1, k), j);
      MaskBit(k, j);
      ZeroBits(j);
    }
    SameBits(And(x, Shl(1, k)), if Bit(x, k) then Shl(1, k) else 0);
    ResidueUnique(Pow2(k), Pow2(k), 1, 0);
  }

  /** An entry of the table `populationCount`. */
  function CountSetBits(x: Byte): nat {
    Masked(x, 0) + Masked(x, 1) + Masked(x, 2) + Masked(x, 3) + Masked(x, 4) + Masked(x, 5) + Masked(x, 6) +
      Masked(x, 7)
  }

  lemma TableIsRight(x: Byte)
    ensures CountSetBits(x) == CountBits(x, 8)
  {
    MaskedIs(x, 0);
    MaskedIs(x, 1);
    MaskedIs(x, 2);
    MaskedIs(x, 3);
    MaskedIs(x, 4);
    MaskedIs(x, 5);
    MaskedIs(x, 6);
    MaskedIs(x, 7);
    hide Masked, Bit;
    CountUnfolds(x);
  }

  lemma CountUnfolds(x: nat)
    ensures CountBits(x, 8) ==
      B(Bit(x, 0)) + B(Bit(x, 1)) + B(Bit(x, 2)) + B(Bit(x, 3)) + B(Bit(x, 4)) + B(Bit(x, 5)) + B(Bit(x, 6)) +
        B(Bit(x, 7))
  {
    hide Bit;
    assert CountBits(x, 0) == 0;
    assert CountBits(x, 1) == B(Bit(x, 0));
    assert CountBits(x, 2) == CountBits(x, 1) + B(Bit(x, 1));
    assert CountBits(x, 3) == CountBits(x, 2) + B(Bit(x, 2));
    assert CountBits(x, 4) == CountBits(x, 3) + B(Bit(x, 3));
    assert CountBits(x, 5) == CountBits(x, 4) + B(Bit(x, 4));
    assert CountBits(x, 6) == CountBits(x, 5) + B(Bit(x, 5));
    assert CountBits(x, 7) == CountBits(x, 6) + B(Bit(x, 6));
    assert CountBits(x, 8) == CountBits(x, 7) + B(Bit(x, 7));
  }

  /** The members that the bits of `b` below `n` stand for when `b` is byte number `i`. */
  function ByteMembers(b: nat, i: nat, n: nat): set<nat> {
    set k | 0 <= k < n && Bit(b, k) :: 8 * i + k
  }

  lemma {:induction false} ByteMembersCount(b: nat, i: nat, n: nat)
    ensures |ByteMembers(b, i, n)| == CountBits(b, n)
  {
    if n > 0 {
      ByteMembersCount(b, i, n - 1);
      var top := 8 * i + (n - 1);
      if Bit(b, n - 1) {
        assert ByteMembers(b, i, n) == ByteMembers(b, i, n - 1) + {top};
      } else {
        assert ByteMembers(b, i, n) == ByteMembers(b, i, n - 1);
      }
    } else {
      assert ByteMembers(b, i, 0) == {};
    }
  }

  lemma MembersSnoc(x: ByteSet, b: Byte)
    ensures |Members(x + [b])| == |Members(x)| + CountBits(b, 8)
  {
    var n := |x|;
    var more := ByteMembers(b, n, 8);
    forall e: nat ensures e in Members(x + [b]) <==> e in Members(x) || e in more {
      if e / 8 < n {
        assert (x + [b])[e / 8] == x[e / 8];
      } else if e / 8 == n {
        assert e == 8 * n + e % 8;
      }
    }
    assert Members(x + [b]) == Members(x) + more;
    ByteMembersCount(b, n, 8);
  }

  /** The table lookup, byte by byte, counts the members. */
  method BitSetCard(x: ByteSet) returns (result: nat)
    ensures result == |Members(x)|
  {
    result := 0;
    assert Members(x[..0]) == {};
    for i := 0 to |x|
      invariant result == |Members(x[..i])|
    {
      assert x[..i + 1] == x[..i] + [x[i]];
      MembersSnoc(x[..i], x[i]);
      TableIsRight(x[i]);
      result := result + CountSetBits(x[i]);
    }
    assert x[..|x|] == x;
  }
}
