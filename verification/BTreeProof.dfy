/** What insertion keeps, and what a tree means, for any even node size above two. */
module BTreeProof {
  import opened Basics
  import opened BTreeSpec

  // ---------- a tree in search order lists its keys in order ----------

  ghost predicate AllWithin<V>(s: seq<Item<V>>, lo: Limit, hi: Limit) {
    forall i | 0 <= i < |s| :: Within(lo, s[i].key, hi)
  }

  lemma {:induction false} OrderedFlat<V>(t: Tree<V>, lo: Limit, hi: Limit)
    requires Ordered(t, lo, hi)
    ensures Ascending(Flat(t)) && AllWithin(Flat(t), lo, hi)
    decreases t, if t.Inner? then |t.links| + 1 else 0
  {
    if t.Inner? {
      OrderedFrom(t, lo, hi, 0);
      assert t.links[0..] == t.links;
    }
  }

  /** The children from `i` on. */
  lemma {:induction false} OrderedFrom<V>(t: Tree<V>, lo: Limit, hi: Limit, i: nat)
    requires t.Inner? && Ordered(t, lo, hi) && i <= |t.links|
    ensures Ascending(FlatAll(t.links[i..]))
    ensures i < |t.links| ==> AllWithin(FlatAll(t.links[i..]), Low(t.keys, lo, i), hi)
    decreases t, |t.links| - i
  {
    if i < |t.links| {
      assert t.links[i..][0] == t.links[i] && t.links[i..][1..] == t.links[i + 1..];
      OrderedFlat(t.links[i], Low(t.keys, lo, i), High(t.keys, hi, i));
      OrderedFrom(t, lo, hi, i + 1);
      if i + 1 < |t.links| {
        Join(Flat(t.links[i]), FlatAll(t.links[i + 1..]), Low(t.keys, lo, i), t.keys[i + 1], hi);
      } else {
        assert FlatAll(t.links[i..]) == Flat(t.links[i]);
      }
    }
  }

  lemma Join<V>(a: seq<Item<V>>, b: seq<Item<V>>, lo: Limit, mid: int, hi: Limit)
    requires Ascending(a) && AllWithin(a, lo, Some(mid)) && Ascending(b) && AllWithin(b, Some(mid), hi)
      && Inside(lo, mid, hi)
    ensures Ascending(a + b) && AllWithin(a + b, lo, hi)
  {
  }

  /** The children before `j` hold smaller keys than separator `j`. */
  lemma {:induction false} FlatBefore<V>(t: Tree<V>, lo: Limit, hi: Limit, j: nat)
    requires t.Inner? && Ordered(t, lo, hi) && 1 <= j < |t.links|
    ensures AllBelow(FlatAll(t.links[..j]), t.keys[j])
    decreases j
  {
    assert t.links[..j] == t.links[..j - 1] + [t.links[j - 1]];
    FlatConcat(t.links[..j - 1], [t.links[j - 1]]);
    assert FlatAll([t.links[j - 1]]) == Flat(t.links[j - 1]);
    OrderedFlat(t.links[j - 1], Low(t.keys, lo, j - 1), High(t.keys, hi, j - 1));
    if j > 1 {
      FlatBefore(t, lo, hi, j - 1);
    }
  }

  lemma FlatParts<V>(t: Tree<V>, j: nat)
    requires t.Inner? && j < |t.links|
    ensures Flat(t) == FlatAll(t.links[..j]) + (Flat(t.links[j]) + FlatAll(t.links[j + 1..]))
  {
    assert t.links == t.links[..j] + t.links[j..];
    FlatConcat(t.links[..j], t.links[j..]);
    assert t.links[j..][0] == t.links[j] && t.links[j..][1..] == t.links[j + 1..];
  }

  /** Around the child that `key` is routed to, all keys are on the right side of it. */
  lemma RouteSplits<V>(t: Tree<V>, lo: Limit, hi: Limit, key: int)
    requires t.Inner? && Ordered(t, lo, hi) && Within(lo, key, hi)
    ensures var j := Route(t.keys, key, 0);
      && AllBelow(FlatAll(t.links[..j]), key) && AllAbove(FlatAll(t.links[j + 1..]), key)
      && Within(Low(t.keys, lo, j), key, High(t.keys, hi, j))
  {
    var j := Route(t.keys, key, 0);
    if j > 0 {
      FlatBefore(t, lo, hi, j);
    }
    if j + 1 < |t.links| {
      OrderedFrom(t, lo, hi, j + 1);
    } else {
      assert t.links[j + 1..] == [];
    }
  }

  // ---------- lookup ----------

  /** `getOrDefault` and `contains` walk down to one leaf. */
  function Search<V>(t: Tree<V>, key: int): Option<V>
    requires Shaped(t)
  {
    if t.Leaf? then Lookup(t.items, key) else Search(t.links[Route(t.keys, key, 0)], key)
  }

  lemma {:induction false} SearchIsLookup<V>(t: Tree<V>, lo: Limit, hi: Limit, key: int)
    requires Shaped(t) && Ordered(t, lo, hi) && Within(lo, key, hi)
    ensures Search(t, key) == Lookup(Flat(t), key)
    decreases t
  {
    if t.Inner? {
      var j := Route(t.keys, key, 0);
      RouteSplits(t, lo, hi, key);
      SearchIsLookup(t.links[j], Low(t.keys, lo, j), High(t.keys, hi, j), key);
      FlatParts(t, j);
      var a, s, b := FlatAll(t.links[..j]), Flat(t.links[j]), FlatAll(t.links[j + 1..]);
      LookupAfter(a, s + b, key);
      LookupBefore(s, b, key);
    }
  }

  // ---------- insertion puts the value into the list ----------

  function FlatSplit<V>(r: Split<V>): seq<Item<V>> {
    Flat(r.left) + if r.right.Some? then Flat(r.right.value) else []
  }

  lemma SplitFlat<V>(t: Tree<V>, half: nat)
    requires Shaped(t)
    ensures FlatSplit(SplitFull(t, half)) == Flat(t)
  {
    if Entries(t) >= 2 * half {
      if t.Leaf? {
        assert t.items == t.items[..half] + t.items[half..];
      } else {
        assert t.links == t.links[..half] + t.links[half..];
        FlatConcat(t.links[..half], t.links[half..]);
      }
    }
  }

  lemma ReplaceFlat<V>(t: Tree<V>, j: nat, r: Split<V>)
    requires t.Inner? && |t.keys| == |t.links| && j < |t.links|
    requires r.right.Some? ==> Entries(r.right.value) > 0
    ensures Flat(Replace(t, j, r)) == FlatAll(t.links[..j]) + (FlatSplit(r) + FlatAll(t.links[j + 1..]))
  {
    var mid := if r.right.Some? then [r.left, r.right.value] else [r.left];
    assert Replace(t, j, r).links == t.links[..j] + (mid + t.links[j + 1..]);
    FlatConcat(t.links[..j], mid + t.links[j + 1..]);
    FlatConcat(mid, t.links[j + 1..]);
    if r.right.Some? {
      FlatConcat([r.left], [r.right.value]);
      assert mid == [r.left] + [r.right.value];
      assert FlatAll([r.right.value]) == Flat(r.right.value);
    }
    assert FlatAll([r.left]) == Flat(r.left);
  }

  lemma {:induction false} InsertFlat<V>(t: Tree<V>, lo: Limit, hi: Limit, k: int, v: V, half: nat)
    requires Shaped(t) && Ordered(t, lo, hi) && Within(lo, k, hi) && half > 0
    ensures FlatSplit(Insert(t, k, v, half)) == Put(Flat(t), k, v)
    decreases t
  {
    if t.Leaf? {
      SplitFlat(Leaf(Put(t.items, k, v)), half);
    } else {
      var j := Route(t.keys, k, 0);
      RouteSplits(t, lo, hi, k);
      var r := Insert(t.links[j], k, v, half);
      InsertFlat(t.links[j], Low(t.keys, lo, j), High(t.keys, hi, j), k, v, half);
      ReplaceShaped(t, j, r);
      SplitFlat(Replace(t, j, r), half);
      ReplaceFlat(t, j, r);
      FlatParts(t, j);
      var a, s, b := FlatAll(t.links[..j]), Flat(t.links[j]), FlatAll(t.links[j + 1..]);
      PutAfter(a, s + b, k, v);
      PutBefore(s, b, k, v);
    }
  }

  // ---------- insertion keeps the search order ----------

  ghost predicate SplitOrdered<V>(r: Split<V>, lo: Limit, hi: Limit) {
    if r.right.None? then Ordered(r.left, lo, hi)
    else
      && Entries(r.right.value) > 0
      && Ordered(r.left, lo, Some(FirstKey(r.right.value)))
      && Ordered(r.right.value, Some(FirstKey(r.right.value)), hi)
      && Inside(lo, FirstKey(r.right.value), hi)
  }

  lemma HalvesOrdered<V>(t: Tree<V>, lo: Limit, hi: Limit, half: nat)
    requires Ordered(t, lo, hi) && 0 < half && Entries(t) <= 2 * half
    ensures SplitOrdered(SplitFull(t, half), lo, hi)
  {
    if Entries(t) == 2 * half {
      if t.Leaf? {
        LeafHalves(t, lo, hi, half);
      } else {
        InnerHalves(t, lo, hi, half);
      }
    }
  }

  lemma LeafHalves<V>(t: Tree<V>, lo: Limit, hi: Limit, half: nat)
    requires t.Leaf? && Ordered(t, lo, hi) && 0 < half && Entries(t) == 2 * half
    ensures SplitOrdered(SplitFull(t, half), lo, hi)
  {
    assert t.items[0].key < t.items[half].key;
    assert t.items[half..][0] == t.items[half];
  }

  lemma InnerHalves<V>(t: Tree<V>, lo: Limit, hi: Limit, half: nat)
    requires t.Inner? && Ordered(t, lo, hi) && 0 < half && Entries(t) == 2 * half
    ensures SplitOrdered(SplitFull(t, half), lo, hi)
  {
    var mid := Some(t.keys[half]);
    var a, b := Inner(t.keys[..half], t.links[..half]), Inner(t.keys[half..], t.links[half..]);
    assert FirstKey(b) == t.keys[half];
    forall j: nat | j < |a.links| ensures Ordered(a.links[j], Low(a.keys, lo, j), High(a.keys, mid, j)) {
      assert Ordered(t.links[j], Low(t.keys, lo, j), High(t.keys, hi, j));
      assert High(a.keys, mid, j) == High(t.keys, hi, j);
    }
    forall j: nat | j < |b.links| ensures Ordered(b.links[j], Low(b.keys, mid, j), High(b.keys, hi, j)) {
      assert Ordered(t.links[j + half], Low(t.keys, lo, j + half), High(t.keys, hi, j + half));
      assert Low(b.keys, mid, j) == Low(t.keys, lo, j + half);
    }
    assert Ordered(a, lo, mid) && Ordered(b, mid, hi);
  }

  lemma ReplaceOrdered<V>(t: Tree<V>, lo: Limit, hi: Limit, j: nat, r: Split<V>)
    requires t.Inner? && Ordered(t, lo, hi) && j < |t.links|
    requires SplitOrdered(r, Low(t.keys, lo, j), High(t.keys, hi, j))
    ensures Ordered(Replace(t, j, r), lo, hi)
  {
    var t' := Replace(t, j, r);
    if r.right.Some? {
      SeparatorsInsert(t.keys, lo, hi, j, FirstKey(r.right.value));
      forall i: nat | i < |t'.links| ensures Ordered(t'.links[i], Low(t'.keys, lo, i), High(t'.keys, hi, i)) {
        if i < j {
          assert Ordered(t.links[i], Low(t.keys, lo, i), High(t.keys, hi, i));
        } else if i > j + 1 {
          assert Ordered(t.links[i - 1], Low(t.keys, lo, i - 1), High(t.keys, hi, i - 1));
          assert t'.links[i] == t.links[i - 1];
        }
      }
    }
  }

  lemma SeparatorsInsert(keys: seq<int>, lo: Limit, hi: Limit, j: nat, k: int)
    requires Separators(keys, lo, hi) && j < |keys| && Inside(Low(keys, lo, j), k, High(keys, hi, j))
    ensures Separators(keys[..j + 1] + [k] + keys[j + 1..], lo, hi)
  {
    var ks := keys[..j + 1] + [k] + keys[j + 1..];
    forall i: nat | i < |ks| ensures ks[i] == if i <= j then keys[i] else if i == j + 1 then k else keys[i - 1] {
    }
  }

  lemma {:induction false} InsertOrdered<V>(t: Tree<V>, lo: Limit, hi: Limit, k: int, v: V, half: nat, min: nat, h: nat)
    requires Shaped(t) && Ordered(t, lo, hi) && Within(lo, k, hi) && half > 0 && Balanced(t, half, min, h)
    ensures SplitOrdered(Insert(t, k, v, half), lo, hi)
    decreases t
  {
    if t.Leaf? {
      LeafPut(t.items, lo, hi, k, v);
      HalvesOrdered(Leaf(Put(t.items, k, v)), lo, hi, half);
    } else {
      var j := Route(t.keys, k, 0);
      RouteSplits(t, lo, hi, k);
      var r := Insert(t.links[j], k, v, half);
      InsertOrdered(t.links[j], Low(t.keys, lo, j), High(t.keys, hi, j), k, v, half, half, h - 1);
      ReplaceOrdered(t, lo, hi, j, r);
      HalvesOrdered(Replace(t, j, r), lo, hi, half);
    }
  }

  lemma LeafPut<V>(s: seq<Item<V>>, lo: Limit, hi: Limit, k: int, v: V)
    requires Ascending(s) && AllWithin(s, lo, hi) && Within(lo, k, hi)
    ensures Ordered(Leaf(Put(s, k, v)), lo, hi) && |s| <= |Put(s, k, v)| <= |s| + 1
  {
    PutMeans(s, k, v);
    PutAscending(s, k, v);
    if lo.Some? {
      PutAbove(s, k, v, lo.value - 1);
    }
    if hi.Some? {
      PutBelow(s, k, v, hi.value);
    }
  }

  // ---------- insertion keeps the balance ----------

  ghost predicate SplitBalanced<V>(r: Split<V>, half: nat, min: nat, h: nat) {
    if r.right.None? then Balanced(r.left, half, min, h)
    else Balanced(r.left, half, half, h) && Balanced(r.right.value, half, half, h)
  }

  /** `Balanced` but for one entry too many. */
  ghost predicate Overfull<V>(t: Tree<V>, half: nat, min: nat, h: nat) {
    && min <= Entries(t) <= 2 * half
    && if t.Leaf? then h == 0
       else h > 0 && |t.keys| == |t.links| && forall j | 0 <= j < |t.links| :: Balanced(t.links[j], half, half, h - 1)
  }

  lemma HalvesBalanced<V>(t: Tree<V>, half: nat, min: nat, h: nat)
    requires half > 0 && Overfull(t, half, min, h)
    ensures SplitBalanced(SplitFull(t, half), half, min, h)
  {
  }

  lemma {:induction false} InsertBalanced<V>(t: Tree<V>, k: int, v: V, half: nat, min: nat, h: nat)
    requires Shaped(t) && half > 0 && Balanced(t, half, min, h)
    ensures SplitBalanced(Insert(t, k, v, half), half, min, h)
    decreases t
  {
    if t.Leaf? {
      PutLength(t.items, k, v);
      HalvesBalanced(Leaf(Put(t.items, k, v)), half, min, h);
    } else {
      var j := Route(t.keys, k, 0);
      var r := Insert(t.links[j], k, v, half);
      InsertBalanced(t.links[j], k, v, half, half, h - 1);
      var t' := Replace(t, j, r);
      forall i | 0 <= i < |t'.links| ensures Balanced(t'.links[i], half, half, h - 1) {
        if r.right.Some? && i > j + 1 {
          assert t'.links[i] == t.links[i - 1];
        }
      }
      HalvesBalanced(t', half, min, h);
    }
  }

  lemma {:induction false} PutLength<V>(s: seq<Item<V>>, k: int, v: V)
    ensures |s| <= |Put(s, k, v)| <= |s| + 1
  {
    if s != [] && k > s[0].key {
      PutLength(s[1..], k, v);
    }
  }

  // ---------- whole trees ----------

  /** What holds of the root at all times: the node bounds apply below it only. */
  ghost predicate Root<V>(t: Tree<V>, half: nat, h: nat) {
    Shaped(t) && Ordered(t, None, None) && Balanced(t, half, if h == 0 then 0 else 2, h)
  }

  /** `add` keeps order and balance, and changes the map at the one key. */
  lemma AddKeeps<V>(t: Tree<V>, k: int, v: V, half: nat, h: nat) returns (h': nat)
    requires half >= 2 && Root(t, half, h)
    ensures Root(Add(t, k, v, half), half, h') && h <= h' <= h + 1
    ensures Flat(Add(t, k, v, half)) == Put(Flat(t), k, v)
    ensures MapOf(Flat(Add(t, k, v, half))) == MapOf(Flat(t))[k := v]
  {
    var min := if h == 0 then 0 else 2;
    var s := Insert(t, k, v, half);
    InsertFlat(t, None, None, k, v, half);
    InsertOrdered(t, None, None, k, v, half, min, h);
    InsertBalanced(t, k, v, half, min, h);
    OrderedFlat(t, None, None);
    PutMeans(Flat(t), k, v);
    if s.right.None? {
      h' := h;
      assert FlatSplit(s) == Flat(s.left);
    } else {
      h' := h + 1;
      NewRoot(s, half, h, Add(t, k, v, half));
    }
  }

  lemma NewRoot<V>(s: Split<V>, half: nat, h: nat, t: Tree<V>)
    requires half >= 2 && s.right.Some? && Shaped(s.left) && Shaped(s.right.value)
    requires SplitOrdered(s, None, None) && SplitBalanced(s, half, 0, h)
    requires t == Inner([FirstOr(s.left), FirstKey(s.right.value)], [s.left, s.right.value])
    ensures Root(t, half, h + 1) && Flat(t) == FlatSplit(s)
  {
    assert t.links[1..][0] == s.right.value && t.links[1..][1..] == [];
    assert FlatAll(t.links[1..]) == Flat(s.right.value);
  }

  function Power(b: nat, e: nat): nat {
    if e == 0 then 1 else b * Power(b, e - 1)
  }

  /** A tree of height `h >= 1` holds at least `2 * half^h` keys. */
  lemma MinimumSize<V>(t: Tree<V>, half: nat, h: nat)
    requires h >= 1 && Root(t, half, h)
    ensures |Flat(t)| >= 2 * Power(half, h)
  {
    var n := Power(half, h);
    forall j | 0 <= j < |t.links| ensures |Flat(t.links[j])| >= n {
      MinimumNode(t.links[j], half, h - 1);
    }
    MinimumAll(t.links, n);
    Scale(2, |t.links|, n);
  }

  lemma Scale(a: nat, b: nat, n: nat)
    requires a <= b
    ensures a * n <= b * n
  {
  }

  lemma {:induction false} MinimumNode<V>(t: Tree<V>, half: nat, h: nat)
    requires Balanced(t, half, half, h)
    ensures |Flat(t)| >= Power(half, h + 1)
    decreases h
  {
    if h > 0 {
      var n := Power(half, h);
      forall j | 0 <= j < |t.links| ensures |Flat(t.links[j])| >= n {
        MinimumNode(t.links[j], half, h - 1);
      }
      MinimumAll(t.links, n);
      Scale(half, |t.links|, n);
    } else {
      assert Power(half, 1) == half * Power(half, 0) == half;
    }
  }

  lemma {:induction false} MinimumAll<V>(ts: seq<Tree<V>>, n: nat)
    requires forall j | 0 <= j < |ts| :: |Flat(ts[j])| >= n
    ensures |FlatAll(ts)| >= |ts| * n
  {
    if ts != [] {
      MinimumAll(ts[1..], n);
      assert |ts| * n == n + (|ts| - 1) * n;
    }
  }

  // ---------- runs ----------

  /** All the adds so far. */
  function Built<V>(adds: seq<Item<V>>, half: nat): (t: Tree<V>)
    requires half > 0
    ensures Shaped(t)
  {
    if adds == [] then Leaf([])
    else
      var last := |adds| - 1;
      Add(Built(adds[..last], half), adds[last].key, adds[last].val, half)
  }

  /** The last value added for each key. */
  function Latest<V>(adds: seq<Item<V>>): map<int, V> {
    if adds == [] then map[]
    else
      var last := |adds| - 1;
      Latest(adds[..last])[adds[last].key := adds[last].val]
  }

  ghost predicate Distinct<V>(adds: seq<Item<V>>) {
    forall i, j | 0 <= i < j < |adds| :: adds[i].key != adds[j].key
  }

  /**
   After any run of adds the tree is in order and balanced, lookups see the last
   value added for each key, and there are as many keys as adds (which is what
   `entries` counts) exactly when no key was added twice.
   */
  lemma {:induction false} AfterAdds<V>(adds: seq<Item<V>>, half: nat) returns (h: nat)
    requires half >= 2
    ensures Root(Built(adds, half), half, h)
    ensures MapOf(Flat(Built(adds, half))) == Latest(adds)
    ensures forall key ::
      Search(Built(adds, half), key) == if key in Latest(adds) then Some(Latest(adds)[key]) else None
    ensures |Flat(Built(adds, half))| <= |adds|
    ensures |Flat(Built(adds, half))| == |adds| <==> Distinct(adds)
  {
    var t := Built(adds, half);
    if adds == [] {
      h := 0;
    } else {
      var last := |adds| - 1;
      var h0 := AfterAdds(adds[..last], half);
      h := AddKeeps(Built(adds[..last], half), adds[last].key, adds[last].val, half, h0);
      OrderedFlat(Built(adds[..last], half), None, None);
      OneMore(adds, Flat(Built(adds[..last], half)));
    }
    forall key ensures Search(t, key) == if key in Latest(adds) then Some(Latest(adds)[key]) else None {
      SearchIsLookup(t, None, None, key);
      LookupIsMap(Flat(t), key);
    }
  }

  /** A put adds an item exactly when the key is new. */
  lemma OneMore<V>(adds: seq<Item<V>>, s: seq<Item<V>>)
    requires |adds| > 0
    requires Ascending(s) && MapOf(s) == Latest(adds[..|adds| - 1])
    requires |s| <= |adds| - 1 && (|s| == |adds| - 1 <==> Distinct(adds[..|adds| - 1]))
    ensures var r := Put(s, adds[|adds| - 1].key, adds[|adds| - 1].val);
      |r| <= |adds| && (|r| == |adds| <==> Distinct(adds))
  {
    hide Put, Lookup, MapOf, Latest, Ascending;
    var last := |adds| - 1;
    var k := adds[last].key;
    PutMeans(s, k, adds[last].val);
    LookupIsMap(s, k);
    LatestKeys(adds[..last], k);
    DistinctSnoc(adds);
    assert (forall i | 0 <= i < last :: adds[i].key != k) <==> (forall i | 0 <= i < last :: adds[..last][i].key != k);
  }

  lemma DistinctSnoc<V>(adds: seq<Item<V>>)
    requires |adds| > 0
    ensures var last := |adds| - 1;
      Distinct(adds) <==> Distinct(adds[..last]) && forall i | 0 <= i < last :: adds[i].key != adds[last].key
  {
    var last := |adds| - 1;
    assert forall i | 0 <= i < last :: adds[..last][i] == adds[i];
  }

  lemma {:induction false} LatestKeys<V>(adds: seq<Item<V>>, key: int)
    ensures key in Latest(adds) <==> exists i :: 0 <= i < |adds| && adds[i].key == key
  {
    if adds != [] {
      var last := |adds| - 1;
      LatestKeys(adds[..last], key);
      if key in Latest(adds[..last]) {
        var i :| 0 <= i < last && adds[..last][i].key == key;
        assert adds[i].key == key;
      }
      if i :| 0 <= i < |adds| && adds[i].key == key {
        assert i < last ==> adds[..last][i].key == key;
      }
    }
  }

  // ---------- enumeration ----------

  /** The child that `next` moves to: the first one at which the running sum exceeds `i`. */
  function Step<V>(ts: seq<Tree<V>>, i: nat): Option<(nat, nat)> {
    if ts == [] then None
    else if i < |Flat(ts[0])| then Some((0, i))
    else
      var r := Step(ts[1..], i - |Flat(ts[0])|);
      if r.None? then None else Some((r.value.0 + 1, r.value.1))
  }

  /** It finds the child holding item `i`; past the end it finds none, and `next` would not end. */
  lemma {:induction false} StepMeans<V>(ts: seq<Tree<V>>, i: nat)
    ensures Step(ts, i).Some? <==> i < |FlatAll(ts)|
    ensures Step(ts, i).Some? ==>
      var (k, r) := Step(ts, i).value;
      k < |ts| && r < |Flat(ts[k])| && FlatAll(ts)[i] == Flat(ts[k])[r] && i == |FlatAll(ts[..k])| + r
  {
    if ts != [] && i >= |Flat(ts[0])| {
      StepMeans(ts[1..], i - |Flat(ts[0])|);
      var s := Step(ts[1..], i - |Flat(ts[0])|);
      if s.Some? {
        var k := s.value.0;
        assert ts[..k + 1][0] == ts[0] && ts[..k + 1][1..] == ts[1..][..k];
      }
    }
  }

  /** The running sum stops at the first child that reaches beyond `i`. */
  lemma {:induction false} StepAt<V>(ts: seq<Tree<V>>, i: nat, k: nat)
    requires k < |ts| && |FlatAll(ts[..k])| <= i < |FlatAll(ts[..k])| + |Flat(ts[k])|
    ensures Step(ts, i) == Some((k, i - |FlatAll(ts[..k])|))
  {
    if k > 0 {
      assert ts[..k][0] == ts[0] && ts[..k][1..] == ts[1..][..k - 1];
      StepAt(ts[1..], i - |Flat(ts[0])|, k - 1);
    }
  }

  lemma FlatTake<V>(ts: seq<Tree<V>>, k: nat)
    requires k < |ts|
    ensures FlatAll(ts[..k + 1]) == FlatAll(ts[..k]) + Flat(ts[k])
  {
    assert ts[..k + 1] == ts[..k] + [ts[k]];
    FlatConcat(ts[..k], [ts[k]]);
    assert FlatAll([ts[k]]) == Flat(ts[k]);
  }

  predicate HasItem<V>(t: Tree<V>, i: nat) {
    i < |Flat(t)|
  }

  /**
   `hasNext` counts adds, `next` finds keys: every index below `entries` has an
   item exactly when no key was added twice. Otherwise `next` is asked for an item
   past the last one, and in a tree with inner nodes it finds no child to go to.
   */
  lemma EnumerationFits<V>(adds: seq<Item<V>>, half: nat)
    requires half >= 2
    ensures var t := Built(adds, half);
      && (Distinct(adds) <==> forall i: nat | i < |adds| :: HasItem(t, i))
      && (!Distinct(adds) ==> |Flat(t)| < |adds| && (t.Inner? ==> Step(t.links, |Flat(t)|).None?))
  {
    hide Built, Distinct, Root, Flat, MapOf, Latest, Search, Step;
    var t := Built(adds, half);
    var h := AfterAdds(adds, half);
    NoStepPastEnd(t);
    if !Distinct(adds) {
      assert !HasItem(t, |Flat(t)|);
    }
  }

  lemma NoStepPastEnd<V>(t: Tree<V>)
    ensures t.Inner? ==> Step(t.links, |Flat(t)|).None?
  {
    if t.Inner? {
      StepMeans(t.links, |Flat(t)|);
    }
  }
}
