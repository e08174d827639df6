/**
 Sets in the generated C code (compiler/ccgexprs.nim): small sets are machine
 words of 1, 2, 4 or 8 bytes, bigger ones are byte arrays handled in loops.
 Elements are counted from the first one of the base type.
 */
module SetCode {
  import opened Probe
  import opened BitSets

  // ---------- words ----------

  function WordSet(w: nat, bits: nat): set<nat> {
    set k | 0 <= k < bits && Bit(w, k)
  }

  /** The sizes in bits that are packed into a word. */
  predicate WordSize(bits: nat) {
    bits == 8 || bits == 16 || bits == 32 || bits == 64
  }

  predicate Word(w: nat, bits: nat) {
    w < Pow2(bits)
  }

  /** `bitSetToWord`: the word has the members of the first `size` bytes. */
  method BitSetToWord(s: ByteSet, size: nat) returns (result: nat)
    ensures WordSet(result, 8 * size) == set e | 0 <= e < 8 * size && In(s, e)
    ensures Word(result, 8 * size)
  {
    result := 0;
    SomeBit(0);
    for j := 0 to size
      invariant forall k: nat :: Bit(result, k) <==> k / 8 < j && In(s, k)
    {
      if j < |s| {
        ghost var before := result;
        result := Or(result, Shl(s[j], j * 8));
        forall k: nat ensures Bit(result, k) <==> k / 8 < j + 1 && In(s, k) {
          ByteOfWord(before, s, j, k);
        }
      }
    }
    forall k: nat | k >= 8 * size ensures !Bit(result, k) {
      assert k / 8 >= size;
    }
    FewBits(result, 8 * size);
  }

  lemma ByteOfWord(w: nat, s: ByteSet, j: nat, k: nat)
    requires j < |s| && (Bit(w, k) <==> k / 8 < j && In(s, k))
    ensures Bit(Or(w, Shl(s[j], j * 8)), k) <==> k / 8 < j + 1 && In(s, k)
  {
    OrBit(w, Shl(s[j], j * 8), k);
    ShlBit(s[j], j * 8, k);
    if k >= j * 8 + 8 {
      assert Pow2(8) == 256 by {
        assert Pow2(4) == 16;
      }
      HighBits(s[j], 8, k - j * 8);
    } else if k >= j * 8 {
      assert k / 8 == j && k % 8 == k - j * 8;
    }
  }

  /** `(NU)x & (bits - 1)` */
  function Masking(x: nat, bits: nat): nat
    requires bits > 0
  {
    BitAnd(x, bits - 1)
  }

  lemma MaskingIs(x: nat, bits: nat)
    requires WordSize(bits) && x < bits
    ensures Masking(x, bits) == x
  {
    hide BitAnd, Pow2;
    var k: nat := if bits == 8 then 3 else if bits == 16 then 4 else if bits == 32 then 5 else 6;
    Powers();
    MaskIsMod(x, k);
    SmallMod(x, bits);
  }

  lemma Powers()
    ensures Pow2(3) == 8 && Pow2(4) == 16 && Pow2(5) == 32 && Pow2(6) == 64
  {
    assert Pow2(3) == 8;
    assert Pow2(5) == 2 * Pow2(4);
  }

  lemma SmallMod(x: nat, m: nat)
    requires x < m
    ensures x % m == x
  {
  }

  // the C expressions for words

  function WordIn(w: nat, x: nat, bits: nat): bool
    requires bits > 0
  {
    And(w, Shl(1, Masking(x, bits))) != 0
  }

  function WordIncl(w: nat, x: nat, bits: nat): nat
    requires bits > 0
  {
    Or(w, Shl(1, Masking(x, bits)))
  }

  function WordExcl(w: nat, x: nat, bits: nat): nat
    requires bits > 0
  {
    AndNot(w, Shl(1, Masking(x, bits)))
  }

  function WordLe(a: nat, b: nat): bool {
    AndNot(a, b) == 0
  }

  function WordLt(a: nat, b: nat): bool {
    AndNot(a, b) == 0 && a != b
  }

  lemma WordElement(w: nat, x: nat, bits: nat)
    requires WordSize(bits) && x < bits
    ensures WordIn(w, x, bits) <==> x in WordSet(w, bits)
    ensures WordSet(WordIncl(w, x, bits), bits) == WordSet(w, bits) + {x}
    ensures WordSet(WordExcl(w, x, bits), bits) == WordSet(w, bits) - {x}
  {
    MaskingIs(x, bits);
    TestBit(w, x);
    forall k: nat
      ensures Bit(WordIncl(w, x, bits), k) <==> Bit(w, k) || k == x
      ensures Bit(WordExcl(w, x, bits), k) <==> Bit(w, k) && k != x
    {
      OrBit(w, Shl(1, x), k);
      AndNotBit(w, Shl(1, x), k);
      MaskBit(x, k);
    }
  }

  lemma WordOperations(a: nat, b: nat, bits: nat)
    ensures WordSet(And(a, b), bits) == WordSet(a, bits) * WordSet(b, bits)
    ensures WordSet(Or(a, b), bits) == WordSet(a, bits) + WordSet(b, bits)
    ensures WordSet(AndNot(a, b), bits) == WordSet(a, bits) - WordSet(b, bits)
  {
    forall k: nat
      ensures Bit(And(a, b), k) <==> Bit(a, k) && Bit(b, k)
      ensures Bit(Or(a, b), k) <==> Bit(a, k) || Bit(b, k)
      ensures Bit(AndNot(a, b), k) <==> Bit(a, k) && !Bit(b, k)
    {
      AndBit(a, b, k);
      OrBit(a, b, k);
      AndNotBit(a, b, k);
    }
  }

  lemma WordEqual(a: nat, b: nat, bits: nat)
    requires Word(a, bits) && Word(b, bits)
    ensures a == b <==> WordSet(a, bits) == WordSet(b, bits)
  {
    if WordSet(a, bits) == WordSet(b, bits) {
      forall k: nat ensures Bit(a, k) == Bit(b, k) {
        if k < bits {
          assert k in WordSet(a, bits) <==> Bit(a, k);
          assert k in WordSet(b, bits) <==> Bit(b, k);
        } else {
          HighBits(a, bits, k);
          HighBits(b, bits, k);
        }
      }
      SameBits(a, b);
    }
  }

  lemma WordComparisons(a: nat, b: nat, bits: nat)
    requires Word(a, bits) && Word(b, bits)
    ensures WordLe(a, b) <==> WordSet(a, bits) <= WordSet(b, bits)
    ensures WordLt(a, b) <==> WordSet(a, bits) < WordSet(b, bits)
  {
    WordEqual(a, b, bits);
    if WordLe(a, b) {
      forall k | k in WordSet(a, bits) ensures k in WordSet(b, bits) {
        SubsetBit(a, b, k);
      }
    } else {
      var k := NonZero(AndNot(a, b));
      AndNotBit(a, b, k);
      if k >= bits {
        HighBits(a, bits, k);
      }
      assert k in WordSet(a, bits) && k !in WordSet(b, bits);
    }
  }

  // ---------- byte arrays ----------

  /** `for (i..) { d = ((a[i] & ~b[i]) == 0); if (!d) break; }` */
  method BigLe(a: ByteSet, b: ByteSet, size: nat) returns (d: bool)
    requires size == |a| == |b| && size > 0
    ensures d <==> Members(a) <= Members(b)
  {
    SubsetMembers(a, b);
    d := true;
    var i := 0;
    while i < size
      invariant i <= size && d && forall j | 0 <= j < i :: AndNot(a[j], b[j]) == 0
    {
      d := AndNot(a[i], b[i]) == 0;
      if !d {
        break;
      }
      i := i + 1;
    }
  }

  /** The same loop, then `if (d) d = nimCmpMem(a, b, size) != 0`. */
  method BigLt(a: ByteSet, b: ByteSet, size: nat) returns (d: bool)
    requires size == |a| == |b| && size > 0
    ensures d <==> Members(a) < Members(b)
  {
    d := BigLe(a, b, size);
    SameMembers(a, b);
    if d {
      d := a != b;
    }
  }

  datatype SetOp = Mul | Plus | Minus

  function ByteOp(op: SetOp, x: Byte, y: Byte): Byte {
    BytesStay(x, y);
    match op case Mul => And(x, y) case Plus => Or(x, y) case Minus => AndNot(x, y)
  }

  function SetOpOf(op: SetOp, x: set<nat>, y: set<nat>): set<nat> {
    match op case Mul => x * y case Plus => x + y case Minus => x - y
  }

  /** `for (i..) d[i] = a[i] op b[i];` */
  method BigOp(op: SetOp, a: ByteSet, b: ByteSet, d: array<Byte>)
    requires |a| == |b| == d.Length
    modifies d
    ensures Members(d[..]) == SetOpOf(op, Members(a), Members(b))
  {
    for i := 0 to d.Length
      invariant forall j | 0 <= j < i :: d[j] == ByteOp(op, a[j], b[j])
    {
      d[i] := ByteOp(op, a[i], b[i]);
    }
    BigOpMembers(op, a, b, d[..]);
  }

  lemma BigOpMembers(op: SetOp, a: ByteSet, b: ByteSet, d: ByteSet)
    requires |a| == |b| == |d| && forall j | 0 <= j < |d| :: d[j] == ByteOp(op, a[j], b[j])
    ensures Members(d) == SetOpOf(op, Members(a), Members(b))
  {
    forall e: nat ensures e in Members(d) <==> e in SetOpOf(op, Members(a), Members(b)) {
      if e / 8 < |d| {
        AndBit(a[e / 8], b[e / 8], e % 8);
        OrBit(a[e / 8], b[e / 8], e % 8);
        AndNotBit(a[e / 8], b[e / 8], e % 8);
      }
    }
  }

  // ---------- set constructors ----------

  datatype Elem = One(e: nat) | Range(lo: nat, hi: nat)

  predicate ElemIn(x: int, e: Elem) {
    match e case One(v) => x == v case Range(lo, hi) => lo <= x <= hi
  }

  predicate Listed(x: int, es: seq<Elem>) {
    exists i :: 0 <= i < |es| && ElemIn(x, es[i])
  }

  /** All elements fit into `n` bits. */
  predicate Fits(es: seq<Elem>, n: nat) {
    forall i | 0 <= i < |es| :: match es[i] case One(v) => v < n case Range(lo, hi) => lo < n && hi < n
  }

  /** `memset`, then one `incl` or one loop of them for every element. */
  method BigConstr(es: seq<Elem>, d: array<Byte>)
    requires Fits(es, 8 * d.Length)
    modifies d
    ensures forall x: nat :: x in Members(d[..]) <==> Listed(x, es)
  {
    for i := 0 to d.Length
      invariant forall j | 0 <= j < i :: d[j] == 0
    {
      d[i] := 0;
    }
    assert d[..] == seq(d.Length, _ => 0);
    InitEmpty(d.Length);
    for k := 0 to |es|
      invariant forall x: nat :: x in Members(d[..]) <==> Listed(x, es[..k])
    {
      ghost var before := Members(d[..]);
      match es[k] {
        case Range(lo, hi) =>
          var idx := lo;
          while idx <= hi
            invariant idx <= hi + 1 || idx == lo
            invariant forall x: nat :: x in Members(d[..]) <==> x in before || lo <= x < idx
          {
            BitSetIncl(d, idx);
            idx := idx + 1;
          }
        case One(v) => BitSetIncl(d, v);
      }
      ListedSnoc(es, k);
    }
    assert es[..|es|] == es;
  }

  lemma ListedSnoc(es: seq<Elem>, k: nat)
    requires k < |es|
    ensures forall x: int :: Listed(x, es[..k + 1]) <==> Listed(x, es[..k]) || ElemIn(x, es[k])
  {
    forall x: int ensures Listed(x, es[..k + 1]) <==> Listed(x, es[..k]) || ElemIn(x, es[k]) {
      if ElemIn(x, es[k]) {
        assert ElemIn(x, es[..k + 1][k]);
      }
      if i :| 0 <= i < k && ElemIn(x, es[..k][i]) {
        assert ElemIn(x, es[..k + 1][i]);
      }
    }
  }

  /** A small set: `w = 0`, then `w |= 1 << (i % bits)` for every element. */
  method SmallConstr(es: seq<Elem>, bits: nat) returns (w: nat)
    requires WordSize(bits) && Fits(es, bits)
    ensures forall x: nat :: x in WordSet(w, bits) <==> Listed(x, es)
  {
    w := 0;
    SomeBit(0);
    for k := 0 to |es|
      invariant forall x: nat :: x in WordSet(w, bits) <==> Listed(x, es[..k])
    {
      ghost var before := WordSet(w, bits);
      match es[k] {
        case Range(lo, hi) =>
          var idx := lo;
          while idx <= hi
            invariant idx <= hi + 1 || idx == lo
            invariant forall x: nat :: x in WordSet(w, bits) <==> x in before || lo <= x < idx
          {
            w := InclModulo(w, idx, bits);
            idx := idx + 1;
          }
        case One(v) => w := InclModulo(w, v, bits);
      }
      ListedSnoc(es, k);
    }
    assert es[..|es|] == es;
  }

  method InclModulo(w: nat, x: nat, bits: nat) returns (r: nat)
    requires WordSize(bits) && x < bits
    ensures WordSet(r, bits) == WordSet(w, bits) + {x}
  {
    hide BitAnd, Pow2, Or, WordSet;
    WordElement(w, x, bits);
    MaskingIs(x, bits);
    SmallMod(x, bits);
    r := Or(w, Shl(1, x % bits));
  }

  // ---------- membership without a set ----------

  /** A comparison of the emitted chain. */
  datatype Cmp = Between(lo: nat, hi: nat) | Equal(v: nat)

  /** The chain joined by `||`, or `0`. */
  function Holds(c: Cmp, x: int): bool {
    match c case Between(lo, hi) => x >= lo && x <= hi case Equal(v) => x == v
  }

  function AnyHolds(cs: seq<Cmp>, x: int): bool {
    if cs == [] then false else Holds(cs[0], x) || AnyHolds(cs[1..], x)
  }

  lemma {:induction false} AnyConcat(a: seq<Cmp>, b: seq<Cmp>, x: int)
    ensures AnyHolds(a + b, x) <==> AnyHolds(a, x) || AnyHolds(b, x)
  {
    if a == [] {
      assert a + b == b;
    } else {
      assert (a + b)[0] == a[0] && (a + b)[1..] == a[1..] + b;
      AnyConcat(a[1..], b, x);
    }
  }

  /** `genInOp` for a constructor of few elements: comparisons that say just what the set would. */
  method GenInOp(es: seq<Elem>) returns (cs: seq<Cmp>)
    ensures |cs| == |es| && forall x: int :: AnyHolds(cs, x) <==> Listed(x, es)
  {
    cs := [];
    for i := 0 to |es|
      invariant |cs| == i && forall x: int :: AnyHolds(cs, x) <==> Listed(x, es[..i])
    {
      var c := if es[i].Range? then Between(es[i].lo, es[i].hi) else Equal(es[i].e);
      forall x: int ensures AnyHolds(cs + [c], x) <==> AnyHolds(cs, x) || ElemIn(x, es[i]) {
        AnyConcat(cs, [c], x);
        assert [c][1..] == [];
      }
      ListedSnoc(es, i);
      cs := cs + [c];
    }
    assert es[..|es|] == es;
  }
}
