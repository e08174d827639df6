/**
 What the open-addressing tables of compiler/astalgo.nim have in common: a
 power-of-two sequence of slots searched along the probe sequence. The source
 repeats this code for every element type; here it is generic in the element
 and in its hash.
 */
module OpenTable {
  import opened Basics
  import opened Probe

  const GROWTH_FACTOR := 2
  const START_SIZE := 8

  predicate MustRehash(length: int, counter: int)
    requires length > counter
  {
    length * 2 < counter * 3 || length - counter < 4
  }

  /** Before an insertion a table is doubled if it is more than two thirds full or has less than four free slots. */
  ghost predicate Grown(length: nat, counter: nat, length': nat) {
    length' == if 3 * counter > 2 * length || counter + 4 > length then 2 * length else length
  }

  /** The elements of a table in slot order. */
  function Elems<T>(data: seq<Option<T>>): (r: seq<T>)
    ensures |r| <= |data|
  {
    if data == [] then [] else One(data[0]) + Elems(data[1..])
  }

  function One<T>(slot: Option<T>): (r: seq<T>)
    ensures |r| <= 1
  {
    if slot.Some? then [slot.value] else []
  }

  /** The first `n` probes from `h` all meet occupied slots. */
  ghost predicate Run<T>(data: seq<Option<T>>, h: nat, n: nat)
    requires |data| > 0
  {
    forall m: nat | m < n ::
      Iter(h, m, |data|) < |data| && data[Iter(h, m, |data|)].Some?
  }

  /** The occupied slot `i` is found by probing for its element. */
  ghost predicate OnChain<T>(data: seq<Option<T>>, hash: T -> int, i: nat)
    requires i < |data| && data[i].Some?
  {
    exists n: nat :: n < |data|
      && Iter(Home(hash(data[i].value), |data|), n, |data|) == i
      && Run(data, Home(hash(data[i].value), |data|), n)
  }

  /** The probe-chain invariant. */
  ghost predicate Chained<T>(data: seq<Option<T>>, hash: T -> int) {
    && IsPow2(|data|)
    && forall i: nat | i < |data| && data[i].Some? :: OnChain(data, hash, i)
  }

  ghost predicate HasFree<T>(data: seq<Option<T>>) {
    exists i: nat :: i < |data| && data[i].None?
  }

  lemma {:induction false} ElemsSplit<T>(a: seq<Option<T>>, b: seq<Option<T>>)
    ensures Elems(a + b) == Elems(a) + Elems(b)
  {
    if a == [] {
      assert a + b == b;
    } else {
      ElemsSplit(a[1..], b);
      assert (a + b)[1..] == a[1..] + b;
      Assoc(One(a[0]), Elems(a[1..]), Elems(b));
    }
  }

  lemma Assoc<T>(a: seq<T>, b: seq<T>, c: seq<T>)
    ensures (a + b) + c == a + (b + c)
  {
  }

  lemma ElemsOfOne<T>(slot: Option<T>)
    ensures Elems([slot]) == One(slot)
  {
    assert Elems([slot]) == One(slot) + Elems([slot][1..]);
  }

  lemma ElemsAround<T>(a: seq<Option<T>>, slot: Option<T>, c: seq<Option<T>>)
    ensures Elems(a + [slot] + c) == Elems(a) + One(slot) + Elems(c)
  {
    ElemsSplit(a + [slot], c);
    ElemsSplit(a, [slot]);
    ElemsOfOne(slot);
  }

  lemma ElemsAt<T>(data: seq<Option<T>>, i: nat)
    requires i < |data|
    ensures Elems(data) == Elems(data[..i]) + One(data[i]) + Elems(data[i + 1..])
  {
    CutAt(data, i);
    ElemsAround(data[..i], data[i], data[i + 1..]);
  }

  lemma CutAt<T>(s: seq<T>, i: nat)
    requires i < |s|
    ensures s == s[..i] + [s[i]] + s[i + 1..]
  {
  }

  lemma ElemsPrefix<T>(data: seq<Option<T>>, i: nat)
    requires i < |data|
    ensures Elems(data[..i + 1]) == Elems(data[..i]) + One(data[i])
  {
    var a, slot := data[..i], data[i];
    assert data[..i + 1] == a + [slot];
    ElemsSplit(a, [slot]);
    ElemsOfOne(slot);
  }

  /** Writing a slot removes its old element, if any, and adds the new one. */
  lemma ElemsUpdate<T>(data: seq<Option<T>>, i: nat, e: T)
    requires i < |data|
    ensures data[i].None? ==> multiset(Elems(data[i := Some(e)])) == multiset(Elems(data)) + multiset{e}
    ensures data[i].None? ==> |Elems(data[i := Some(e)])| == |Elems(data)| + 1
    ensures data[i].Some? ==> data[i].value in Elems(data)
    ensures data[i].Some? ==>
      multiset(Elems(data[i := Some(e)])) == multiset(Elems(data)) - multiset{data[i].value} + multiset{e}
    ensures data[i].Some? ==> |Elems(data[i := Some(e)])| == |Elems(data)|
  {
    hide Elems;
    var new' := data[i := Some(e)];
    ElemsAt(data, i);
    ElemsAt(new', i);
    assert new'[..i] == data[..i] && new'[i + 1..] == data[i + 1..];
  }

  lemma {:induction false} ElemsMember<T>(data: seq<Option<T>>, e: T)
    ensures e in Elems(data) <==> exists i: nat :: i < |data| && data[i] == Some(e)
  {
    if data != [] {
      ElemsMember(data[1..], e);
      if i: nat :| i < |data[1..]| && data[1..][i] == Some(e) {
        assert data[i + 1] == Some(e);
      }
      if i: nat :| i < |data| && data[i] == Some(e) {
        assert i == 0 || data[1..][i - 1] == Some(e);
      }
    }
  }

  lemma {:induction false} FreeSlot<T>(data: seq<Option<T>>)
    requires |Elems(data)| < |data|
    ensures HasFree(data)
  {
    if data[0].Some? {
      FreeSlot(data[1..]);
      var i: nat :| i < |data[1..]| && data[1..][i].None?;
      assert data[i + 1].None?;
    }
  }

  /** No search runs longer than the table: a run of occupied slots ends before `length` steps. */
  lemma RunEnds<T>(data: seq<Option<T>>, h: nat, n: nat)
    requires IsPow2(|data|) && h < |data| && HasFree(data)
    requires Run(data, h, n)
    ensures n < |data| && Iter(h, n, |data|) < |data|
  {
    var i: nat :| i < |data| && data[i].None?;
    var m := VisitsEverySlot(h, i, |data|);
    IterInRange(h, n, |data|);
  }

  /** Facts that hold when a search starts at the home slot of `hash`. */
  lemma SearchStarts<T>(data: seq<Option<T>>, hash: int)
    requires IsPow2(|data|) && |Elems(data)| < |data|
    ensures |data| > 0 && HasFree(data)
    ensures Home(hash, |data|) == Iter(Home(hash, |data|), 0, |data|) < |data|
    ensures Run(data, Home(hash, |data|), 0)
  {
    FreeSlot(data);
    HomeInRange(hash, |data|);
  }

  /** One more step past an occupied slot. */
  lemma SearchSteps<T>(data: seq<Option<T>>, h: nat, n: nat)
    requires IsPow2(|data|) && h < |data| && HasFree(data)
    requires Run(data, h, n) && Iter(h, n, |data|) < |data| && data[Iter(h, n, |data|)].Some?
    ensures Run(data, h, n + 1) && n + 1 < |data|
    ensures Iter(h, n + 1, |data|) == NextTry(Iter(h, n, |data|), |data| - 1) < |data|
  {
    RunEnds(data, h, n + 1);
  }

  /** An element is met before the first free slot of its probe sequence, if it is in the table. */
  lemma FoundBeforeFree<T>(data: seq<Option<T>>, hash: T -> int, i: nat, h: nat, n: nat) returns (m: nat)
    requires Chained(data, hash) && i < |data| && data[i].Some?
    requires h == Home(hash(data[i].value), |data|)
    requires h < |data| && n < |data|
    requires Iter(h, n, |data|) < |data| && data[Iter(h, n, |data|)].None?
    ensures m < n && Iter(h, m, |data|) == i
  {
    assert OnChain(data, hash, i);
    m :| m < |data| && Iter(h, m, |data|) == i && Run(data, h, m);
  }

  /** A search that ends in a free slot without meeting `e` proves its absence. */
  lemma SearchFails<T>(data: seq<Option<T>>, hash: T -> int, e: T, h: nat, n: nat)
    requires Chained(data, hash) && |data| > 0 && h == Home(hash(e), |data|) < |data|
    requires n < |data| && Run(data, h, n)
    requires forall m: nat | m < n :: data[Iter(h, m, |data|)].value != e
    requires Iter(h, n, |data|) < |data| && data[Iter(h, n, |data|)].None?
    ensures e !in Elems(data)
  {
    ElemsMember(data, e);
    if e in Elems(data) {
      var i: nat :| i < |data| && data[i] == Some(e);
      var m := FoundBeforeFree(data, hash, i, h, n);
      assert false;
    }
  }

  lemma SlotIsElem<T>(data: seq<Option<T>>, i: nat)
    requires i < |data| && data[i].Some?
    ensures data[i].value in Elems(data)
  {
    ElemsMember(data, data[i].value);
  }

  lemma InsertKeepsChained<T>(data: seq<Option<T>>, hash: T -> int, e: T, n: nat)
    requires Chained(data, hash)
    requires |data| > 0 && n < |data|
    requires var h := Home(hash(e), |data|);
             Run(data, h, n) && Iter(h, n, |data|) < |data| && data[Iter(h, n, |data|)].None?
    ensures Chained(data[Iter(Home(hash(e), |data|), n, |data|) := Some(e)], hash)
  {
    var h := Home(hash(e), |data|);
    var s := Iter(h, n, |data|);
    var new' := data[s := Some(e)];
    forall i: nat | i < |new'| && new'[i].Some? ensures OnChain(new', hash, i) {
      if i == s {
        assert Run(new', h, n);
      } else {
        assert OnChain(data, hash, i);
        var hi := Home(hash(data[i].value), |data|);
        var m: nat :| m < |data| && Iter(hi, m, |data|) == i && Run(data, hi, m);
        assert Run(new', hi, m);
      }
    }
  }

  /** Overwriting an element by one with the same hash keeps every chain. */
  lemma ReplaceKeepsChained<T>(data: seq<Option<T>>, hash: T -> int, i: nat, e: T)
    requires Chained(data, hash) && i < |data| && data[i].Some?
    requires hash(data[i].value) == hash(e)
    ensures Chained(data[i := Some(e)], hash)
  {
    var new' := data[i := Some(e)];
    forall j: nat | j < |new'| && new'[j].Some? ensures OnChain(new', hash, j) {
      assert OnChain(data, hash, j);
      var h := Home(hash(data[j].value), |data|);
      var m: nat :| m < |data| && Iter(h, m, |data|) == j && Run(data, h, m);
      assert Run(new', h, m);
    }
  }

  lemma AddedElem<T>(a: seq<T>, b: seq<T>, x: T)
    requires multiset(b) == multiset(a) + multiset{x}
    ensures forall e :: e in b <==> e in a || e == x
  {
    assert forall e :: e in b <==> e in multiset(b);
    assert forall e :: e in a <==> e in multiset(a);
  }

  lemma DoublePow2(n: nat)
    requires IsPow2(n)
    ensures n > 0 && IsPow2(n * GROWTH_FACTOR)
  {
    var k: nat :| n == Pow2(k);
    assert n * GROWTH_FACTOR == Pow2(k + 1);
  }

  lemma StartIsPow2()
    ensures IsPow2(START_SIZE)
  {
    assert Pow2(3) == START_SIZE;
  }

  lemma {:induction false} EmptyTable<T>(n: nat, hash: T -> int)
    requires IsPow2(n)
    ensures var d: seq<Option<T>> := seq(n, _ => None); Chained(d, hash) && Elems(d) == []
  {
    var d: seq<Option<T>> := seq(n, _ => None);
    NoElems(d);
  }

  lemma {:induction false} NoElems<T>(d: seq<Option<T>>)
    requires forall i | 0 <= i < |d| :: d[i].None?
    ensures Elems(d) == []
  {
    if d != [] {
      NoElems(d[1..]);
    }
  }

  /** `rawInsert`: store `e` in the first free slot of its probe sequence. */
  method RawInsert<T>(data: seq<Option<T>>, hash: T -> int, e: T) returns (r: seq<Option<T>>)
    requires Chained(data, hash) && |Elems(data)| < |data|
    ensures |r| == |data| && Chained(r, hash)
    ensures multiset(Elems(r)) == multiset(Elems(data)) + multiset{e}
    ensures |Elems(r)| == |Elems(data)| + 1
    ensures exists i: nat :: i < |data| && data[i].None? && r == data[i := Some(e)]
  {
    hide NextTry, BitAnd, Iter, Home;
    SearchStarts(data, hash(e));
    ghost var h0 := Home(hash(e), |data|);
    ghost var n: nat := 0;
    var h := Home(hash(e), |data|);
    while data[h].Some?
      invariant n < |data| && h == Iter(h0, n, |data|) < |data|
      invariant Run(data, h0, n)
      decreases |data| - n
    {
      SearchSteps(data, h0, n);
      h := NextTry(h, |data| - 1);
      n := n + 1;
    }
    InsertKeepsChained(data, hash, e, n);
    ElemsUpdate(data, h, e);
    r := data[h := Some(e)];
  }

  /** `enlarge`: insert every element into a table of twice the size. */
  method Enlarge<T>(data: seq<Option<T>>, hash: T -> int) returns (r: seq<Option<T>>)
    requires Chained(data, hash)
    ensures |r| == |data| * GROWTH_FACTOR && Chained(r, hash)
    ensures multiset(Elems(r)) == multiset(Elems(data)) && |Elems(r)| == |Elems(data)|
  {
    DoublePow2(|data|);
    EmptyTable<T>(|data| * GROWTH_FACTOR, hash);
    r := seq(|data| * GROWTH_FACTOR, _ => None);
    for i := 0 to |data|
      invariant |r| == |data| * GROWTH_FACTOR && Chained(r, hash)
      invariant multiset(Elems(r)) == multiset(Elems(data[..i]))
      invariant |Elems(r)| == |Elems(data[..i])|
    {
      ElemsPrefix(data, i);
      if data[i].Some? {
        r := RawInsert(r, hash, data[i].value);
      }
    }
    assert data[..|data|] == data;
  }
}
