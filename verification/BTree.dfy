/**
 The B-tree of compiler/btrees.nim as it is built: nodes with fixed-size arrays
 that are shifted and split in place. A node's arrays are part of the node, so
 they are sequences of length `2 * half` held in its fields.
 */
module BTree {
  import opened Basics
  import opened BTreeSpec
  import opened BTreeProof

  /** `for i in countdown(n, j+1): s[i] = s[i-1]`, then `s[j] = x`. */
  method ShiftIn<T>(s: seq<T>, n: nat, j: nat, x: T) returns (r: seq<T>)
    requires j <= n < |s|
    ensures |r| == |s| && r[..n + 1] == s[..j] + [x] + s[j..n]
  {
    r := s;
    var i := n;
    while i > j
      invariant j <= i <= n && |r| == |s|
      invariant r[..i] == s[..i] && r[i + 1..n + 1] == s[i..n]
    {
      ghost var before := r;
      r := r[i := r[i - 1]];
      assert r[i..n + 1] == [before[i - 1]] + before[i + 1..n + 1];
      assert s[i - 1..n] == [s[i - 1]] + s[i..n];
      assert before[i - 1] == before[..i][i - 1] == s[i - 1];
      assert r[..i - 1] == before[..i][..i - 1];
      i := i - 1;
    }
    ghost var before := r;
    r := r[j := x];
    assert r[..n + 1] == before[..j] + [x] + before[j + 1..n + 1];
  }

  /** `cs` are the roots of separate subtrees that represent `ts`, within the nodes `R`. */
  ghost predicate Forest<V(0)>(cs: seq<Node?<V>>, ts: seq<Tree<V>>, half: nat, R: set<Node<V>>)
    reads R
    decreases R, 1
  {
    && |cs| == |ts|
    && (forall j | 0 <= j < |cs| ::
         && cs[j] != null && cs[j] in R && cs[j].Repr <= R
         && cs[j].half == half && cs[j].entries < 2 * half && cs[j].tree == ts[j])
    && (forall j | 0 <= j < |cs| :: cs[j].Rep())
    && (forall i, j | 0 <= i < j < |cs| :: cs[i].Repr !! cs[j].Repr)
  }

  /** The nodes of the subtrees. */
  ghost function Footprint<V(0)>(cs: seq<Node?<V>>): set<Node<V>>
    reads set c: Node<V> | c in cs :: c
  {
    set c: Node<V>, n | c in cs && n in c.Repr :: n
  }

  lemma ForestConcat<V(0)>(a: seq<Node?<V>>, ta: seq<Tree<V>>, A: set<Node<V>>,
                           b: seq<Node?<V>>, tb: seq<Tree<V>>, B: set<Node<V>>, half: nat)
    requires Forest(a, ta, half, A) && Forest(b, tb, half, B) && A !! B
    ensures Forest(a + b, ta + tb, half, A + B)
  {
  }

  lemma SubForest<V(0)>(cs: seq<Node?<V>>, ts: seq<Tree<V>>, half: nat, R: set<Node<V>>, lo: nat, hi: nat)
    requires Forest(cs, ts, half, R) && lo <= hi <= |cs|
    ensures Forest(cs[lo..hi], ts[lo..hi], half, Footprint(cs[lo..hi])) && Footprint(cs[lo..hi]) <= R
  {
    FootprintHas(cs, ts, half, R, lo, hi);
    hide Footprint, Node.Rep;
    var p := cs[lo..hi];
    forall j | 0 <= j < |p| ensures p[j] == cs[lo + j] {
    }
  }

  lemma FootprintHas<V(0)>(cs: seq<Node?<V>>, ts: seq<Tree<V>>, half: nat, R: set<Node<V>>, lo: nat, hi: nat)
    requires Forest(cs, ts, half, R) && lo <= hi <= |cs|
    ensures forall j | lo <= j < hi :: cs[j] in Footprint(cs[lo..hi]) && cs[j].Repr <= Footprint(cs[lo..hi])
    ensures Footprint(cs[lo..hi]) <= R
  {
    var p := cs[lo..hi];
    forall j | lo <= j < hi ensures cs[j] in p && cs[j] in cs[j].Repr {
      assert p[j - lo] == cs[j] && cs[j].Rep();
    }
  }

  lemma ForestApart<V(0)>(cs: seq<Node?<V>>, ts: seq<Tree<V>>, half: nat, R: set<Node<V>>, lo: nat, mid: nat, hi: nat)
    requires Forest(cs, ts, half, R) && lo <= mid <= hi <= |cs|
    ensures Footprint(cs[lo..mid]) !! Footprint(cs[mid..hi])
  {
  }

  lemma HalvesShaped<V>(t: Tree<V>, half: nat)
    requires Shaped(t) && t.Inner? && 0 < half < |t.links|
    ensures Shaped(Inner(t.keys[..half], t.links[..half])) && Shaped(Inner(t.keys[half..], t.links[half..]))
  {
  }

  /** One step of copying the upper half of `s`. */
  lemma SnocSlices<T>(before: seq<T>, after: seq<T>, s: seq<T>, half: nat, j: nat)
    requires j < half && |before| == |s| == 2 * half && after == before[j := s[half + j]]
    requires before[..j] == s[half..half + j]
    ensures after[..j + 1] == s[half..half + j + 1]
  {
    assert after[..j + 1] == before[..j] + [s[half + j]];
    assert s[half..half + j + 1] == s[half..half + j] + [s[half + j]];
  }

  lemma OverwriteIs<V>(items: seq<Item<V>>, j: nat, key: int, val: V)
    requires j < |items| && items[j].key == key
    requires Put(items, key, val) == items[..j] + Put(items[j..], key, val)
    ensures Put(items, key, val) == items[j := Item(key, val)]
  {
  }

  lemma InsertIs<V>(items: seq<Item<V>>, j: nat, key: int, val: V)
    requires j <= |items| && (j < |items| ==> key < items[j].key)
    requires Put(items, key, val) == items[..j] + Put(items[j..], key, val)
    ensures Put(items, key, val) == items[..j] + [Item(key, val)] + items[j..]
  {
  }

  lemma LeafShifted<V>(items: seq<Item<V>>, keys: seq<int>, vals: seq<V>, keys': seq<int>, vals': seq<V>, j: nat,
                       key: int, val: V)
    requires j <= |items| < |keys| == |vals| == |keys'| == |vals'|
    requires forall i | 0 <= i < |items| :: items[i] == Item(keys[i], vals[i])
    requires keys'[..|items| + 1] == keys[..j] + [key] + keys[j..|items|]
    requires vals'[..|items| + 1] == vals[..j] + [val] + vals[j..|items|]
    ensures var r := items[..j] + [Item(key, val)] + items[j..];
      forall i | 0 <= i < |r| :: r[i] == Item(keys'[i], vals'[i])
  {
    var n := |items|;
    var r := items[..j] + [Item(key, val)] + items[j..];
    forall i | 0 <= i < |r| ensures r[i] == Item(keys'[i], vals'[i]) {
      assert keys'[i] == keys'[..n + 1][i] && vals'[i] == vals'[..n + 1][i];
    }
  }

  lemma InnerShifted<V(0)>(keys: seq<int>, links: seq<Node?<V>>, keys': seq<int>, links': seq<Node?<V>>, j: nat,
                       n: nat, u: Node<V>, k: int)
    requires j < n < |keys| == |links| == |keys'| == |links'|
    requires links'[..n + 1] == links[..j + 1] + [u] + links[j + 1..n]
    requires keys'[..n + 1] == keys[..j + 1] + [k] + keys[j + 1..n]
    ensures links'[..n + 1] == links[..j] + [links[j]] + [u] + links[j + 1..n]
    ensures keys'[..n + 1] == keys[..n][..j + 1] + [k] + keys[..n][j + 1..]
  {
    assert links[..j + 1] == links[..j] + [links[j]];
    assert keys[..n][..j + 1] == keys[..j + 1] && keys[..n][j + 1..] == keys[j + 1..n];
  }

  lemma InsertUnfold<V>(t: Tree<V>, j: nat, k: int, v: V, half: nat)
    requires Shaped(t) && t.Inner? && half > 0 && j == Route(t.keys, k, 0)
    ensures var r := Insert(t.links[j], k, v, half);
      var t' := Replace(t, j, r);
      && Insert(t, k, v, half) == SplitFull(t', half) && Shaped(t')
      && (r.right.Some? ==> t'.links == t.links[..j] + [r.left] + [r.right.value] + t.links[j + 1..])
  {
    ReplaceShaped(t, j, Insert(t.links[j], k, v, half));
  }

  lemma InsertLeafUnfold<V>(t: Tree<V>, k: int, v: V, half: nat)
    requires t.Leaf? && half > 0
    ensures Insert(t, k, v, half) == SplitFull(Leaf(Put(t.items, k, v)), half)
  {
  }

  lemma SplitSmall<V>(t: Tree<V>, half: nat)
    requires Shaped(t)
    ensures Entries(t) < 2 * half ==> SplitFull(t, half) == BTreeSpec.Split(t, None)
  {
  }

  class Node<V(0)> {
    const half: nat
    const isInternal: bool
    var entries: nat
    var keys: seq<int>
    var vals: seq<V>
    var links: seq<Node?<V>>
    ghost var Repr: set<Node<V>>
    ghost var tree: Tree<V>

    /**
     The node and all below it represent `tree`. One entry more than allowed is
     possible while it is being updated.
     */
    ghost predicate Rep()
      reads this, Repr
      decreases Repr, 0
    {
      && this in Repr && half > 0 && Shaped(tree)
      && |keys| == |vals| == |links| == 2 * half && entries == Entries(tree) <= 2 * half
      && if isInternal then
           tree.Inner? && tree.keys == keys[..entries] && Forest(links[..entries], tree.links, half, Repr - {this})
         else
           tree.Leaf? && forall j | 0 <= j < entries :: tree.items[j] == Item(keys[j], vals[j])
    }

    ghost predicate Valid()
      reads this, Repr
    {
      Rep() && entries < 2 * half
    }

    lemma ChildIs(j: nat)
      requires Rep() && isInternal && j < entries
      ensures entries <= |links| && links[j] != null && links[j].Valid() && links[j].half == half
      ensures links[j].tree == tree.links[j]
      ensures links[j] in Repr && links[j].Repr <= Repr - {this}
    {
      assert links[..entries][j] == links[j];
    }

    /** An empty leaf. */
    constructor Leaf(half: nat)
      requires half > 0
      ensures Valid() && fresh(Repr) && this.half == half && tree == BTreeSpec.Leaf([])
    {
      this.half := half;
      isInternal := false;
      entries := 0;
      keys := seq(2 * half, _ => 0);
      var v: V := *;
      vals := seq(2 * half, _ => v);
      links := seq(2 * half, _ => null);
      Repr := {this};
      tree := BTreeSpec.Leaf([]);
    }

    /** `getOrDefault`, where `None` stands for the default value. */
    method GetOrDefault(key: int) returns (r: Option<V>)
      requires Valid()
      ensures r == Search(tree, key)
    {
      var x: Node<V> := this;
      while x.isInternal
        invariant x.Valid() && Search(x.tree, key) == Search(tree, key)
        decreases x.tree
      {
        var j := x.ChildFor(key);
        x.ChildIs(j);
        x := x.links[j];
      }
      for j := 0 to x.entries
        invariant Lookup(x.tree.items, key) == Lookup(x.tree.items[j..], key)
      {
        if key == x.keys[j] {
          return Some(x.vals[j]);
        }
        assert x.tree.items[j..][1..] == x.tree.items[j + 1..];
      }
      return None;
    }

    method Contains(key: int) returns (r: bool)
      requires Valid()
      ensures r <==> Search(tree, key).Some?
    {
      var x: Node<V> := this;
      while x.isInternal
        invariant x.Valid() && Search(x.tree, key) == Search(tree, key)
        decreases x.tree
      {
        var j := x.ChildFor(key);
        x.ChildIs(j);
        x := x.links[j];
      }
      for j := 0 to x.entries
        invariant Lookup(x.tree.items, key) == Lookup(x.tree.items[j..], key)
      {
        if key == x.keys[j] {
          return true;
        }
        assert x.tree.items[j..][1..] == x.tree.items[j + 1..];
      }
      return false;
    }

    /** The inner loop of every walk down. */
    method ChildFor(key: int) returns (j: nat)
      requires Rep() && isInternal
      ensures j == Route(tree.keys, key, 0) && j < entries
    {
      j := 0;
      while !(j + 1 == entries || key < keys[j + 1])
        invariant j < entries && Route(tree.keys, key, j) == Route(tree.keys, key, 0)
        decreases entries - j
      {
        j := j + 1;
      }
    }

    method CountSubTree() returns (n: nat)
      requires Valid()
      ensures n == |Flat(tree)|
      decreases tree
    {
      if isInternal {
        n := 0;
        for k := 0 to entries
          invariant n == |FlatAll(tree.links[..k])|
        {
          ChildIs(k);
          var c := links[k].CountSubTree();
          n := n + c;
          FlatTake(tree.links, k);
        }
        assert tree.links[..entries] == tree.links;
      } else {
        n := entries;
      }
    }

    /** One step of `next` down the tree; there is none past the last item. */
    method NextChild(i: nat) returns (r: Option<(nat, nat)>)
      requires Valid() && isInternal
      ensures r == Step(tree.links, i)
    {
      var sum := 0;
      for k := 0 to entries
        invariant sum == |FlatAll(tree.links[..k])| <= i
      {
        ChildIs(k);
        var c := links[k].CountSubTree();
        FlatTake(tree.links, k);
        sum := sum + c;
        if sum > i {
          StepAt(tree.links, i, k);
          return Some((k, i - (sum - c)));
        }
      }
      StepMeans(tree.links, i);
      assert tree.links[..entries] == tree.links;
      return None;
    }

    /** A node to be filled in. */
    constructor Blank(half: nat, isInternal: bool)
      ensures this.half == half && this.isInternal == isInternal && Repr == {this} && fresh(this)
      ensures entries == half && |keys| == |vals| == |links| == 2 * half
    {
      this.half := half;
      this.isInternal := isInternal;
      entries := half;
      keys := seq(2 * half, _ => 0);
      var v: V := *;
      vals := seq(2 * half, _ => v);
      links := seq(2 * half, _ => null);
      Repr := {this};
      tree := BTreeSpec.Leaf([]);
    }

    method CopyHalf(result: Node<V>)
      requires result != this && result.half == half && half > 0
      requires |keys| == |vals| == |links| == 2 * half == |result.keys| == |result.vals| == |result.links|
      modifies result`keys, result`vals, result`links
      ensures |result.keys| == |result.vals| == |result.links| == 2 * half
      ensures result.keys[..half] == keys[half..]
      ensures if isInternal then result.links[..half] == links[half..] else result.vals[..half] == vals[half..]
    {
      for j := 0 to half
        invariant |result.keys| == 2 * half && result.keys[..j] == keys[half..half + j]
        modifies result`keys
      {
        ghost var before := result.keys;
        result.keys := result.keys[j := keys[half + j]];
        SnocSlices(before, result.keys, keys, half, j);
      }
      if isInternal {
        for j := 0 to half
          invariant |result.links| == 2 * half && result.links[..j] == links[half..half + j]
          modifies result`links
        {
          ghost var before := result.links;
          result.links := result.links[j := links[half + j]];
          SnocSlices(before, result.links, links, half, j);
        }
      } else {
        for j := 0 to half
          invariant |result.vals| == 2 * half && result.vals[..j] == vals[half..half + j]
          modifies result`vals
        {
          ghost var before := result.vals;
          result.vals := result.vals[j := vals[half + j]];
          SnocSlices(before, result.vals, vals, half, j);
        }
      }
    }

    /** What makes an inner node a representation of its tree. */
    ghost predicate Assembled(F: set<Node<V>>)
      reads this, F
    {
      && isInternal && half > 0 && |keys| == |vals| == |links| == 2 * half && entries <= 2 * half
      && tree.Inner? && Shaped(tree) && |tree.keys| == entries && tree.keys == keys[..entries]
      && Forest(links[..entries], tree.links, half, F)
      && this !in F && Repr == {this} + F
    }

    lemma InnerRep(F: set<Node<V>>)
      requires Assembled(F)
      ensures Rep()
    {
      hide Forest, Shaped;
      assert Repr - {this} == F;
    }

    method Split() returns (r: Node<V>)
      requires Rep() && entries == 2 * half
      modifies `entries, `Repr, `tree
      ensures Valid() && r.Valid() && fresh(r) && r.half == half
      ensures Repr !! r.Repr && Repr + r.Repr <= old(Repr) + {r}
      ensures BTreeSpec.Split(tree, Some(r.tree)) == SplitFull(old(tree), half)
    {
      hide Forest, Footprint;
      r := new Node.Blank(half, isInternal);
      CopyHalf(r);
      if isInternal {
        HalveInner(r);
      } else {
        r.tree := BTreeSpec.Leaf(tree.items[half..]);
        tree := BTreeSpec.Leaf(tree.items[..half]);
        entries := half;
      }
    }

    /** The children divided between the two nodes. */
    method HalveInner(r: Node<V>)
      requires Rep() && isInternal && entries == 2 * half
      requires r !in Repr && r.isInternal && r.half == half == r.entries
      requires |r.keys| == |r.vals| == |r.links| == 2 * half
      requires r.keys[..half] == keys[half..] && r.links[..half] == links[half..]
      modifies `entries, `Repr, `tree, r`Repr, r`tree
      ensures Valid() && r.Valid()
      ensures Repr !! r.Repr && Repr + r.Repr <= old(Repr) + {r}
      ensures BTreeSpec.Split(tree, Some(r.tree)) == SplitFull(old(tree), half)
    {
      hide Rep, Forest, Footprint, Shaped;
      HalfForests();
      HalvesShaped(tree, half);
      ghost var below, above := Footprint(links[..half]), Footprint(links[half..]);
      r.Repr := {r} + above;
      r.tree := Inner(tree.keys[half..], tree.links[half..]);
      Repr := {this} + below;
      tree := Inner(tree.keys[..half], tree.links[..half]);
      entries := half;
      InnerRep(below);
      r.InnerRep(above);
    }

    lemma HalfForests()
      requires Rep() && isInternal && entries == 2 * half
      ensures var below, above := Footprint(links[..half]), Footprint(links[half..]);
        && Forest(links[..half], tree.links[..half], half, below)
          && Forest(links[half..], tree.links[half..], half, above)
        && below !! above && below + above <= Repr - {this}
        && tree.keys[..half] == keys[..half] && tree.keys[half..] == keys[half..]
        && this in Repr && half > 0 && Shaped(tree) && tree.Inner? && |tree.keys| == |tree.links| == 2 * half
        && |keys| == |vals| == |links| == 2 * half
    {
      assert links[..entries] == links && keys[..entries] == keys;
      assert links[0..half] == links[..half] && links[half..2 * half] == links[half..];
      assert tree.links[0..half] == tree.links[..half] && tree.links[half..2 * half] == tree.links[half..];
      SubForest(links, tree.links, half, Repr - {this}, 0, half);
      SubForest(links, tree.links, half, Repr - {this}, half, 2 * half);
      ForestApart(links, tree.links, half, Repr - {this}, 0, half, 2 * half);
    }

    /** Sets the value for `key`; the result is the new right half if the node had to be split. */
    method Insert(key: int, val: V) returns (u: Node?<V>)
      requires Valid()
      modifies Repr
      ensures Valid()
      ensures u != null ==> u.Valid() && u.half == half && Repr !! u.Repr
      ensures fresh(Repr - old(Repr)) && (u != null ==> fresh(u.Repr - old(Repr)))
      ensures BTreeSpec.Split(tree, if u == null then None else Some(u.tree)) ==
        BTreeSpec.Insert(old(tree), key, val, half)
      decreases tree
    {
      if !isInternal {
        u := InsertLeaf(key, val);
      } else {
        u := InsertInner(key, val);
      }
    }

    method InsertLeaf(key: int, val: V) returns (u: Node?<V>)
      requires Valid() && !isInternal
      modifies this
      ensures Valid()
      ensures u != null ==> u.Valid() && u.half == half && Repr !! u.Repr
      ensures fresh(Repr - old(Repr)) && (u != null ==> fresh(u.Repr - old(Repr)))
      ensures BTreeSpec.Split(tree, if u == null then None else Some(u.tree)) ==
        BTreeSpec.Insert(old(tree), key, val, half)
    {
      hide Forest, Footprint, Rep, Put, BTreeSpec.Insert;
      LeafUnfold();
      InsertLeafUnfold(tree, key, val, half);
      var j, found := Slot(key, val);
      if found {
        Overwrite(j, val);
        SplitSmall(tree, half);
        return null;
      }
      InsertAt(j, key, val);
      SplitSmall(tree, half);
      u := null;
      if entries >= 2 * half {
        u := Split();
      }
    }

    /** Where `key` is, or where it goes. */
    method Slot(key: int, ghost val: V) returns (j: nat, found: bool)
      requires Valid() && !isInternal
      ensures j <= entries && (found ==> j < entries && keys[j] == key)
      ensures var items := tree.items;
        Put(items, key, val) == if found then items[j := Item(key, val)] else items[..j] + [Item(key, val)] + items[j..]
    {
      hide Forest, Footprint;
      ghost var items := tree.items;
      j := 0;
      while j < entries
        invariant j <= entries
        invariant Put(items, key, val) == items[..j] + Put(items[j..], key, val)
      {
        if key == keys[j] {
          OverwriteIs(items, j, key, val);
          return j, true;
        }
        if key < keys[j] {
          break;
        }
        assert items[j..][1..] == items[j + 1..];
        j := j + 1;
      }
      InsertIs(items, j, key, val);
      found := false;
    }

    method Overwrite(j: nat, val: V)
      requires Valid() && !isInternal && j < entries
      modifies `vals, `tree
      ensures Valid() && entries == Entries(tree) && tree == BTreeSpec.Leaf(old(tree).items[j := Item(keys[j], val)])
    {
      hide Forest, Footprint;
      vals := vals[j := val];
      tree := BTreeSpec.Leaf(tree.items[j := Item(keys[j], val)]);
    }

    lemma LeafUnfold()
      requires Rep() && !isInternal
      ensures tree.Leaf? && entries == |tree.items| && half > 0 && this in Repr
    {
    }

    method InsertAt(j: nat, key: int, val: V)
      requires Valid() && !isInternal && j <= entries
      modifies `keys, `vals, `entries, `tree
      ensures Rep() && tree == BTreeSpec.Leaf(old(tree).items[..j] + [Item(key, val)] + old(tree).items[j..])
      ensures entries == old(entries) + 1 == Entries(tree)
    {
      hide Forest, Footprint;
      ghost var items, oldKeys, oldVals := tree.items, keys, vals;
      vals := ShiftIn(vals, entries, j, val);
      keys := ShiftIn(keys, entries, j, key);
      LeafShifted(items, oldKeys, oldVals, keys, vals, j, key, val);
      tree := BTreeSpec.Leaf(items[..j] + [Item(key, val)] + items[j..]);
      entries := entries + 1;
    }

    method InsertInner(key: int, val: V) returns (u: Node?<V>)
      requires Valid() && isInternal
      modifies Repr
      ensures Valid()
      ensures u != null ==> u.Valid() && u.half == half && Repr !! u.Repr
      ensures fresh(Repr - old(Repr)) && (u != null ==> fresh(u.Repr - old(Repr)))
      ensures BTreeSpec.Split(tree, if u == null then None else Some(u.tree)) ==
        BTreeSpec.Insert(old(tree), key, val, half)
      decreases tree, 0
    {
      hide Rep, Forest, Footprint, Shaped, BTreeSpec.Insert, SplitFull;
      var j := ChildFor(key);
      ChildIs(j);
      var c := links[j];
      ghost var before, after := links[..j], links[j + 1..entries];
      ghost var B, A := Footprint(before), Footprint(after);
      Around(j);
      InsertUnfold(tree, j, key, val, half);
      u := c.Insert(key, val);
      ghost var r := BTreeSpec.Split(c.tree, if u == null then None else Some(u.tree));
      ghost var ts := tree.links;
      if u == null {
        PlugOne(before, ts[..j], B, c, after, ts[j + 1..], A, half);
        assert ts[j := c.tree] == ts[..j] + [c.tree] + ts[j + 1..];
        KeepLink(j, B + c.Repr + A, Replace(tree, j, r));
        SplitSmall(tree, half);
        return;
      }
      PlugTwo(before, ts[..j], B, c, u, after, ts[j + 1..], A, half);
      u.FirstKeyIs();
      AddLink(j, u, B + c.Repr + u.Repr + A, Replace(tree, j, r));
      SplitSmall(tree, half);
      u := null;
      if entries >= 2 * half {
        u := Split();
      }
    }

    /** Child `j` took the key without being split. */
    ghost method KeepLink(j: nat, F: set<Node<V>>, t: Tree<V>)
      requires isInternal && half > 0 && |keys| == |vals| == |links| == 2 * half && j < entries < 2 * half
      requires tree.Inner? && tree.keys == keys[..entries] && links[j] != null
      requires t.Inner? && Shaped(t) && t.keys == tree.keys
      requires Forest(links[..j] + [links[j]] + links[j + 1..entries], t.links, half, F)
      requires this !in F
      modifies `Repr, `tree
      ensures Rep() && tree == t && Repr == {this} + F && entries == Entries(tree)
    {
      hide Rep, Forest, Footprint, Shaped;
      assert links[..entries] == links[..j] + [links[j]] + links[j + 1..entries];
      Repr := {this} + F;
      tree := t;
      InnerRep(F);
    }

    /** The new sibling `u` of child `j` is put beside it; `F` are all nodes below, `t` is the tree they make up. */
    method AddLink(j: nat, u: Node<V>, ghost F: set<Node<V>>, ghost t: Tree<V>)
      requires isInternal && half > 0 && |keys| == |vals| == |links| == 2 * half && j < entries < 2 * half
      requires tree.Inner? && tree.keys == keys[..entries] && links[j] != null && |u.keys| > 0
      requires t.Inner? && Shaped(t) && t.keys == tree.keys[..j + 1] + [u.keys[0]] + tree.keys[j + 1..]
      requires Forest(links[..j] + [links[j]] + [u] + links[j + 1..entries], t.links, half, F)
      requires this !in F && u != this
      modifies `keys, `links, `entries, `Repr, `tree
      ensures Rep() && tree == t && Repr == {this} + F && entries == old(entries) + 1 == Entries(tree)
    {
      hide Rep, Forest, Footprint, Shaped;
      ghost var oldKeys, oldLinks, first := keys, links, u.keys[0];
      links := ShiftIn(links, entries, j + 1, u);
      keys := ShiftIn(keys, entries, j + 1, u.keys[0]);
      InnerShifted(oldKeys, oldLinks, keys, links, j, entries, u, first);
      Repr := {this} + F;
      tree := t;
      entries := entries + 1;
      InnerRep(F);
    }

    lemma FirstKeyIs()
      requires Valid() && Entries(tree) > 0
      ensures |keys| > 0 && keys[0] == FirstKey(tree)
    {
      if isInternal {
        assert keys[0] == keys[..entries][0];
      }
    }

    lemma Around(j: nat)
      requires Rep() && isInternal && j < entries
      ensures var before, after := links[..j], links[j + 1..entries];
        var B, A := Footprint(before), Footprint(after);
        && Forest(before, tree.links[..j], half, B) && Forest(after, tree.links[j + 1..], half, A)
        && this in Repr && half > 0 && Shaped(tree) && tree.Inner? && tree.keys == keys[..entries]
        && |tree.keys| == |tree.links| == entries && |keys| == |vals| == |links| == 2 * half
        && B !! A && links[j] != null && B !! links[j].Repr && A !! links[j].Repr && B + A <= Repr - {this}
    {
      hide Forest, Shaped, Footprint, Rep;
      Opened();
      var cs, ts := links[..entries], tree.links;
      AroundForest(cs, ts, j);
      Slices(links, cs, j, entries);
      Slices(ts, ts, j, entries);
    }

    lemma Opened()
      requires Rep() && isInternal
      ensures this in Repr && half > 0 && Shaped(tree) && tree.Inner? && |tree.keys| == |tree.links| == entries
      ensures |keys| == |vals| == |links| == 2 * half && entries <= 2 * half && tree.keys == keys[..entries]
      ensures Forest(links[..entries], tree.links, half, Repr - {this})
    {
    }

    lemma AroundForest(cs: seq<Node?<V>>, ts: seq<Tree<V>>, j: nat)
      requires Forest(cs, ts, half, Repr - {this}) && j < |cs|
      ensures var B, A := Footprint(cs[0..j]), Footprint(cs[j + 1..|cs|]);
        && Forest(cs[0..j], ts[0..j], half, B) && Forest(cs[j + 1..|cs|], ts[j + 1..|cs|], half, A)
        && B !! A && cs[j] != null && B !! cs[j].Repr && A !! cs[j].Repr && B + A <= Repr - {this}
    {
      hide Footprint;
      var R := Repr - {this};
      SubForest(cs, ts, half, R, 0, j);
      SubForest(cs, ts, half, R, j + 1, |cs|);
      ForestApart(cs, ts, half, R, 0, j, |cs|);
      ForestApart(cs, ts, half, R, 0, j + 1, |cs|);
      FootprintHas(cs, ts, half, R, j, |cs|);
      FootprintHas(cs, ts, half, R, 0, j + 1);
      FootprintMore(cs, ts, half, R, j);
    }

    lemma FootprintMore(cs: seq<Node?<V>>, ts: seq<Tree<V>>, half: nat, R: set<Node<V>>, j: nat)
      requires Forest(cs, ts, half, R) && j < |cs|
      ensures Footprint(cs[j + 1..|cs|]) <= Footprint(cs[j..|cs|])
    {
      forall c: Node<V> | c in cs[j + 1..|cs|] ensures c in cs[j..|cs|] {
      }
    }
  }

  lemma PlugOne<V(0)>(a: seq<Node?<V>>, ta: seq<Tree<V>>, A: set<Node<V>>, c: Node<V>,
                      b: seq<Node?<V>>, tb: seq<Tree<V>>, B: set<Node<V>>, half: nat)
    requires Forest(a, ta, half, A) && Forest(b, tb, half, B) && A !! B
    requires c.Valid() && c.half == half && A !! c.Repr && B !! c.Repr
    ensures Forest(a + [c] + b, ta + [c.tree] + tb, half, A + c.Repr + B)
  {
    assert Forest([c], [c.tree], half, c.Repr);
    ForestConcat(a, ta, A, [c], [c.tree], c.Repr, half);
    ForestConcat(a + [c], ta + [c.tree], A + c.Repr, b, tb, B, half);
  }

  lemma PlugTwo<V(0)>(a: seq<Node?<V>>, ta: seq<Tree<V>>, A: set<Node<V>>, c: Node<V>, u: Node<V>,
                      b: seq<Node?<V>>, tb: seq<Tree<V>>, B: set<Node<V>>, half: nat)
    requires Forest(a, ta, half, A) && Forest(b, tb, half, B) && A !! B
    requires c.Valid() && c.half == half && A !! c.Repr && B !! c.Repr
    requires u.Valid() && u.half == half && A !! u.Repr && B !! u.Repr && c.Repr !! u.Repr
    ensures Forest(a + [c] + [u] + b, ta + [c.tree] + [u.tree] + tb, half, A + c.Repr + u.Repr + B)
  {
    assert Forest([c], [c.tree], half, c.Repr);
    assert Forest([u], [u.tree], half, u.Repr);
    ForestConcat(a, ta, A, [c], [c.tree], c.Repr, half);
    ForestConcat(a + [c], ta + [c.tree], A + c.Repr, [u], [u.tree], u.Repr, half);
    ForestConcat(a + [c] + [u], ta + [c.tree] + [u.tree], A + c.Repr + u.Repr, b, tb, B, half);
  }

  class BTree<V(0)> {
    const half: nat
    var root: Node<V>
    var entries: nat
    ghost var adds: seq<Item<V>>   // every `add` so far

    ghost predicate Valid()
      reads this, root, root.Repr
    {
      && half >= 2 && root.Valid() && root.half == half
      && root.tree == Built(adds, half) && entries == |adds|
    }

    constructor (half: nat)
      requires half >= 2
      ensures Valid() && fresh(root) && fresh(root.Repr) && adds == [] && this.half == half
    {
      this.half := half;
      root := new Node.Leaf(half);
      entries := 0;
      adds := [];
    }

    method GetOrDefault(key: int) returns (r: Option<V>)
      requires Valid()
      ensures r == if key in Latest(adds) then Some(Latest(adds)[key]) else None
    {
      ghost var h := AfterAdds(adds, half);
      r := root.GetOrDefault(key);
    }

    method Contains(key: int) returns (r: bool)
      requires Valid()
      ensures r <==> key in Latest(adds)
    {
      ghost var h := AfterAdds(adds, half);
      r := root.Contains(key);
    }

    method Add(key: int, val: V)
      requires Valid()
      modifies this, root.Repr
      ensures Valid() && adds == old(adds) + [Item(key, val)]
      ensures fresh(root.Repr - old(root.Repr))
    {
      hide Node.Rep, Forest, Footprint, Shaped, BTreeSpec.Insert, BTreeSpec.Add, Built, FirstKey, FirstOr;
      AddUnfold(adds, key, val, half);
      var u := root.Insert(key, val);
      entries := entries + 1;
      adds := adds + [Item(key, val)];
      if u != null {
        root := GrowRoot(root, u, half);
      }
    }

    method HasNext(index: nat) returns (r: bool)
      requires Valid()
      ensures r <==> index < |adds|
    {
      r := index < entries;
    }

    /** The item with rank `index`. Past the number of keys the walk down would not end. */
    method Next(index: nat) returns (key: int, val: V, next: nat)
      requires Valid() && index < |Flat(root.tree)|
      ensures Item(key, val) == Flat(root.tree)[index] && next == index + 1
    {
      var it: Node<V> := root;
      var i: nat := index;
      while it.isInternal
        invariant it.Valid() && i < |Flat(it.tree)| && Flat(it.tree)[i] == Flat(root.tree)[index]
        decreases it.tree
      {
        var step := it.NextChild(i);
        StepMeans(it.tree.links, i);
        it.ChildIs(step.value.0);
        it, i := it.links[step.value.0], step.value.1;
      }
      key, val, next := it.keys[i], it.vals[i], index + 1;
    }

    lemma Complete()
      requires Valid() && Distinct(adds)
      ensures |Flat(root.tree)| == |adds| && Ascending(Flat(root.tree)) && MapOf(Flat(root.tree)) == Latest(adds)
    {
      var h := AfterAdds(adds, half);
      OrderedFlat(root.tree, None, None);
    }

    /** All pairs; complete and in order when no key was added twice. */
    method Pairs() returns (r: seq<Item<V>>)
      requires Valid() && Distinct(adds)
      ensures r == Flat(root.tree) && Ascending(r) && MapOf(r) == Latest(adds)
    {
      hide MapOf, Flat, Built, BTreeSpec.Ordered, Ascending, Shaped, Node.Rep, Search, BTreeProof.Root,
        BTreeSpec.Balanced;
      Complete();
      r := [];
      var i := 0;
      var more := HasNext(i);
      while more
        invariant i == |r| <= |adds| == |Flat(root.tree)| && r == Flat(root.tree)[..i]
        invariant more <==> i < |adds|
        decreases |adds| - i
      {
        var k, v, i2 := Next(i);
        i := i2;
        r := r + [Item(k, v)];
        more := HasNext(i);
      }
    }
  }

  /** A new root above the halves of the old one. */
  method GrowRoot<V(0)>(a: Node<V>, u: Node<V>, half: nat) returns (t: Node<V>)
    requires half >= 2 && a.Valid() && u.Valid() && a.half == half == u.half && a.Repr !! u.Repr
    requires Entries(u.tree) > 0 && Entries(a.tree) > 0
    ensures t.Valid() && t.half == half && fresh(t.Repr - a.Repr - u.Repr)
    ensures t.tree == Inner([FirstKey(a.tree), FirstKey(u.tree)], [a.tree, u.tree])
  {
    hide Forest, Shaped, Footprint, Node.Rep;
    RootForest(a, u, half);
    t := new Node.Blank(half, true);
    t.entries := 2;
    a.FirstKeyIs();
    u.FirstKeyIs();
    t.keys := t.keys[0 := a.keys[0]];
    t.links := t.links[0 := a];
    t.keys := t.keys[1 := u.keys[0]];
    t.links := t.links[1 := u];
    t.tree := Inner([FirstKey(a.tree), FirstKey(u.tree)], [a.tree, u.tree]);
    t.Repr := {t} + (a.Repr + u.Repr);
    PairShaped(a.tree, u.tree);
    assert t.links[..2] == [a] + [u] && t.keys[..2] == t.tree.keys && t.tree.links == [a.tree] + [u.tree];
    t.InnerRep(a.Repr + u.Repr);
  }

  lemma Slices<T>(s: seq<T>, cs: seq<T>, j: nat, n: nat)
    requires j < n <= |s| && cs == s[..n]
    ensures cs[0..j] == s[..j] && cs[j + 1..n] == s[j + 1..n] && cs[j] == s[j]
    ensures n == |s| ==> cs[j + 1..n] == s[j + 1..]
  {
  }

  lemma PairShaped<V>(a: Tree<V>, b: Tree<V>)
    requires Shaped(a) && Shaped(b) && Entries(a) > 0 && Entries(b) > 0
    ensures Shaped(Inner([FirstKey(a), FirstKey(b)], [a, b]))
  {
  }

  lemma RootForest<V(0)>(a: Node<V>, u: Node<V>, half: nat)
    requires a.Valid() && u.Valid() && a.half == half == u.half && a.Repr !! u.Repr
    ensures Forest([a] + [u], [a.tree] + [u.tree], half, a.Repr + u.Repr)
    ensures Shaped(a.tree) && Shaped(u.tree)
  {
    assert Forest([a], [a.tree], half, a.Repr);
    assert Forest([u], [u.tree], half, u.Repr);
    ForestConcat([a], [a.tree], a.Repr, [u], [u.tree], u.Repr, half);
  }

  lemma AddUnfold<V>(adds: seq<Item<V>>, key: int, val: V, half: nat)
    requires half > 0
    ensures var t := Built(adds, half);
      var s := Insert(t, key, val, half);
      && Built(adds + [Item(key, val)], half) == Add(t, key, val, half)
      && (s.right.Some? ==>
            && Entries(s.left) > 0 && Entries(s.right.value) > 0
            && Add(t, key, val, half) == Inner([FirstKey(s.left), FirstKey(s.right.value)], [s.left, s.right.value]))
      && (s.right.None? ==> Add(t, key, val, half) == s.left)
  {
    var more := adds + [Item(key, val)];
    assert more[..|more| - 1] == adds;
  }
}
