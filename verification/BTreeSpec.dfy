/**
 B-trees as values (compiler/btrees.nim): insertion with splits, the order and
 balance it keeps, and what the tree says as a sorted list and as a map.
 `half` is `Mhalf`; nodes hold fewer than `2 * half` entries.
 */
module BTreeSpec {
  import opened Basics

  datatype Item<+V> = Item(key: int, val: V)

  /** `keys[0]` of an inner node is never looked at, and may be out of date. */
  datatype Tree<+V> = Leaf(items: seq<Item<V>>) | Inner(keys: seq<int>, links: seq<Tree<V>>)

  // ---------- sorted lists ----------

  ghost predicate Ascending<V>(s: seq<Item<V>>) {
    forall i, j | 0 <= i < j < |s| :: s[i].key < s[j].key
  }

  ghost predicate AllBelow<V>(s: seq<Item<V>>, k: int) {
    forall i | 0 <= i < |s| :: s[i].key < k
  }

  ghost predicate AllAbove<V>(s: seq<Item<V>>, k: int) {
    forall i | 0 <= i < |s| :: s[i].key > k
  }

  /** The value for `k` is set: overwritten, or inserted in order. */
  function Put<V>(s: seq<Item<V>>, k: int, v: V): (r: seq<Item<V>>) {
    if s == [] then [Item(k, v)]
    else if k == s[0].key then [Item(k, v)] + s[1..]
    else if k < s[0].key then [Item(k, v)] + s
    else [s[0]] + Put(s[1..], k, v)
  }

  function Lookup<V>(s: seq<Item<V>>, k: int): Option<V> {
    if s == [] then None
    else if s[0].key == k then Some(s[0].val)
    else Lookup(s[1..], k)
  }

  ghost function MapOf<V>(s: seq<Item<V>>): map<int, V> {
    if s == [] then map[] else MapOf(s[1..])[s[0].key := s[0].val]
  }

  lemma {:induction false} PutAfter<V>(a: seq<Item<V>>, s: seq<Item<V>>, k: int, v: V)
    requires AllBelow(a, k)
    ensures Put(a + s, k, v) == a + Put(s, k, v)
  {
    if a == [] {
      assert a + s == s;
    } else {
      assert (a + s)[1..] == a[1..] + s;
      assert (a + s)[0] == a[0];
      PutAfter(a[1..], s, k, v);
      assert a == [a[0]] + a[1..];
    }
  }

  lemma {:induction false} PutBefore<V>(s: seq<Item<V>>, b: seq<Item<V>>, k: int, v: V)
    requires AllAbove(b, k)
    ensures Put(s + b, k, v) == Put(s, k, v) + b
  {
    if s == [] {
      assert s + b == b;
    } else {
      assert (s + b)[0] == s[0] && (s + b)[1..] == s[1..] + b;
      PutBefore(s[1..], b, k, v);
    }
  }

  lemma {:induction false} LookupAfter<V>(a: seq<Item<V>>, s: seq<Item<V>>, k: int)
    requires AllBelow(a, k)
    ensures Lookup(a + s, k) == Lookup(s, k)
  {
    if a == [] {
      assert a + s == s;
    } else {
      assert (a + s)[0] == a[0] && (a + s)[1..] == a[1..] + s;
      LookupAfter(a[1..], s, k);
    }
  }

  lemma {:induction false} LookupBefore<V>(s: seq<Item<V>>, b: seq<Item<V>>, k: int)
    requires AllAbove(b, k)
    ensures Lookup(s + b, k) == Lookup(s, k)
  {
    if s == [] {
      assert s + b == b;
      LookupAbove(b, k);
    } else {
      assert (s + b)[0] == s[0] && (s + b)[1..] == s[1..] + b;
      LookupBefore(s[1..], b, k);
    }
  }

  lemma {:induction false} LookupAbove<V>(b: seq<Item<V>>, k: int)
    requires AllAbove(b, k)
    ensures Lookup(b, k) == None
  {
    if b != [] {
      LookupAbove(b[1..], k);
    }
  }

  lemma {:induction false} PutAbove<V>(s: seq<Item<V>>, k: int, v: V, lo: int)
    requires AllAbove(s, lo) && k > lo
    ensures AllAbove(Put(s, k, v), lo)
  {
    if s != [] && k > s[0].key {
      PutAbove(s[1..], k, v, lo);
    }
  }

  lemma {:induction false} PutBelow<V>(s: seq<Item<V>>, k: int, v: V, hi: int)
    requires AllBelow(s, hi) && k < hi
    ensures AllBelow(Put(s, k, v), hi)
  {
    if s != [] && k > s[0].key {
      PutBelow(s[1..], k, v, hi);
    }
  }

  lemma {:induction false} PutAscending<V>(s: seq<Item<V>>, k: int, v: V)
    requires Ascending(s)
    ensures Ascending(Put(s, k, v))
  {
    if s != [] && k > s[0].key {
      PutAscending(s[1..], k, v);
      PutAbove(s[1..], k, v, s[0].key);
    }
  }

  /** What a put changes. */
  lemma {:induction false} PutMeans<V>(s: seq<Item<V>>, k: int, v: V)
    requires Ascending(s)
    ensures MapOf(Put(s, k, v)) == MapOf(s)[k := v]
    ensures |Put(s, k, v)| == |s| + (if Lookup(s, k).Some? then 0 else 1)
  {
    if s == [] {
    } else if k == s[0].key {
    } else if k < s[0].key {
      LookupAbove(s, k);
    } else {
      PutMeans(s[1..], k, v);
      assert Put(s, k, v)[0] == s[0] && Put(s, k, v)[1..] == Put(s[1..], k, v);
    }
  }

  lemma {:induction false} LookupIsMap<V>(s: seq<Item<V>>, k: int)
    ensures Lookup(s, k) == if k in MapOf(s) then Some(MapOf(s)[k]) else None
  {
    if s != [] {
      LookupIsMap(s[1..], k);
    }
  }

  // ---------- trees ----------

  function Flat<V>(t: Tree<V>): seq<Item<V>> {
    if t.Leaf? then t.items else FlatAll(t.links)
  }

  function FlatAll<V>(ts: seq<Tree<V>>): seq<Item<V>> {
    if ts == [] then [] else Flat(ts[0]) + FlatAll(ts[1..])
  }

  lemma {:induction false} FlatConcat<V>(a: seq<Tree<V>>, b: seq<Tree<V>>)
    ensures FlatAll(a + b) == FlatAll(a) + FlatAll(b)
  {
    if a == [] {
      assert a + b == b;
    } else {
      assert (a + b)[0] == a[0] && (a + b)[1..] == a[1..] + b;
      FlatConcat(a[1..], b);
    }
  }

  /** The child for `key`: the first one whose right neighbour starts above it. */
  function Route(keys: seq<int>, key: int, j: nat): (r: nat)
    requires j < |keys|
    ensures j <= r < |keys|
    ensures r + 1 < |keys| ==> key < keys[r + 1]
    ensures forall i | j < i <= r :: keys[i] <= key
    decreases |keys| - j
  {
    if j + 1 == |keys| || key < keys[j + 1] then j else Route(keys, key, j + 1)
  }

  function FirstKey<V>(t: Tree<V>): int
    requires Entries(t) > 0
  {
    if t.Leaf? then t.items[0].key else t.keys[0]
  }

  function Entries<V>(t: Tree<V>): nat {
    if t.Leaf? then |t.items| else |t.keys|
  }

  /** Lower and upper limit of the keys in a subtree; `None` where there is none. */
  type Limit = Option<int>

  predicate Within(lo: Limit, k: int, hi: Limit) {
    (lo.Some? ==> lo.value <= k) && (hi.Some? ==> k < hi.value)
  }

  /** A separator is strictly inside. */
  predicate Inside(lo: Limit, k: int, hi: Limit) {
    (lo.Some? ==> lo.value < k) && (hi.Some? ==> k < hi.value)
  }

  function Low(keys: seq<int>, lo: Limit, j: nat): Limit
    requires j < |keys|
  {
    if j == 0 then lo else Some(keys[j])
  }

  function High(keys: seq<int>, hi: Limit, j: nat): Limit
    requires j < |keys|
  {
    if j + 1 == |keys| then hi else Some(keys[j + 1])
  }

  /** Search order. Nothing is said about `keys[0]`. */
  ghost predicate Ordered<V>(t: Tree<V>, lo: Limit, hi: Limit) {
    if t.Leaf? then
      Ascending(t.items) && forall i | 0 <= i < |t.items| :: Within(lo, t.items[i].key, hi)
    else
      && |t.keys| == |t.links| > 0
      && Separators(t.keys, lo, hi)
      && forall j | 0 <= j < |t.links| :: Ordered(t.links[j], Low(t.keys, lo, j), High(t.keys, hi, j))
  }

  ghost predicate Separators(keys: seq<int>, lo: Limit, hi: Limit) {
    && (forall j | 1 <= j < |keys| :: Inside(lo, keys[j], hi))
    && forall i, j | 1 <= i < j < |keys| :: keys[i] < keys[j]
  }

  /**
   Balance: all leaves at depth `h`, at least `min` and fewer than `2 * half`
   entries in the node, at least `half` in every node below it.
   */
  ghost predicate Balanced<V>(t: Tree<V>, half: nat, min: nat, h: nat)
    decreases h
  {
    && min <= Entries(t) < 2 * half
    && if t.Leaf? then h == 0
       else h > 0 && |t.keys| == |t.links| && forall j | 0 <= j < |t.links| :: Balanced(t.links[j], half, half, h - 1)
  }

  // ---------- insertion ----------

  /** The node itself and, after a split, the new right half. */
  datatype Split<+V> = Split(left: Tree<V>, right: Option<Tree<V>>)

  function SplitFull<V>(t: Tree<V>, half: nat): Split<V>
    requires t.Inner? ==> |t.keys| == |t.links|
  {
    if Entries(t) < 2 * half then Split(t, None)
    else if t.Leaf? then Split(Leaf(t.items[..half]), Some(Leaf(t.items[half..])))
    else Split(Inner(t.keys[..half], t.links[..half]), Some(Inner(t.keys[half..], t.links[half..])))
  }

  /** Child `j` became `r`. */
  function Replace<V>(t: Tree<V>, j: nat, r: Split<V>): (t': Tree<V>)
    requires t.Inner? && |t.keys| == |t.links| && j < |t.links|
    requires r.right.Some? ==> Entries(r.right.value) > 0
    ensures t'.Inner? && |t'.keys| == |t'.links|
  {
    if r.right.None? then Inner(t.keys, t.links[j := r.left])
    else
      Inner(t.keys[..j + 1] + [FirstKey(r.right.value)] + t.keys[j + 1..],
            t.links[..j] + [r.left, r.right.value] + t.links[j + 1..])
  }

  /** Inner nodes have as many keys as links, and at least one. */
  predicate Shaped<V>(t: Tree<V>) {
    t.Inner? ==> |t.keys| == |t.links| > 0 && forall j | 0 <= j < |t.links| :: Shaped(t.links[j])
  }

  lemma ReplaceShaped<V>(t: Tree<V>, j: nat, r: Split<V>)
    requires t.Inner? && Shaped(t) && j < |t.links|
    requires Shaped(r.left) && (r.right.Some? ==> Shaped(r.right.value) && Entries(r.right.value) > 0)
    ensures Shaped(Replace(t, j, r))
  {
  }

  lemma SplitShaped<V>(t: Tree<V>, half: nat)
    requires Shaped(t) && half > 0
    ensures var r := SplitFull(t, half);
      Shaped(r.left) && (r.right.Some? ==> Shaped(r.right.value) && Entries(r.right.value) > 0)
  {
  }

  function Insert<V>(t: Tree<V>, k: int, v: V, half: nat): (r: Split<V>)
    requires Shaped(t) && half > 0
    ensures Shaped(r.left) && (r.right.Some? ==> Shaped(r.right.value) && Entries(r.right.value) > 0)
    decreases t
  {
    if t.Leaf? then SplitFull(Leaf(Put(t.items, k, v)), half)
    else
      var j := Route(t.keys, k, 0);
      var r := Insert(t.links[j], k, v, half);
      ReplaceShaped(t, j, r);
      SplitShaped(Replace(t, j, r), half);
      SplitFull(Replace(t, j, r), half)
  }

  /** `add`: insert at the root; a split root gets a new root above it. */
  function Add<V>(t: Tree<V>, k: int, v: V, half: nat): (r: Tree<V>)
    requires Shaped(t) && half > 0
    ensures Shaped(r)
  {
    var s := Insert(t, k, v, half);
    if s.right.None? then s.left
    else Inner([FirstOr(s.left), FirstKey(s.right.value)], [s.left, s.right.value])
  }

  /** The stale first key of a new root. */
  function FirstOr<V>(t: Tree<V>): int {
    if Entries(t) > 0 then FirstKey(t) else 0
  }
}
