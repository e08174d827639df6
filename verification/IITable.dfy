/**
 `TIITable` (compiler/astalgo.nim): a map from int to int in which a reserved
 key marks free slots.
 */
module IITable {
  import opened Basics
  import opened Probe
  import opened OpenTable

  const INVALID_KEY := -0x8000_0000_0000_0000

  datatype IIPair = IIPair(key: int, val: int)

  function Hash(p: IIPair): int { p.key }

  function Slot(p: IIPair): Option<IIPair> {
    if p.key == INVALID_KEY then None else Some(p)
  }

  /** The slots of a table: a pair whose key is reserved is a free slot, whatever its value. */
  function Slots(data: seq<IIPair>): (r: seq<Option<IIPair>>)
    ensures |r| == |data| && forall i | 0 <= i < |r| :: r[i] == Slot(data[i])
  {
    seq(|data|, i requires 0 <= i < |data| => Slot(data[i]))
  }

  ghost predicate Holds(elems: multiset<IIPair>, m: map<int, int>) {
    && (forall p | p in elems :: p.key in m && m[p.key] == p.val && elems[p] == 1)
    && (forall k | k in m :: k != INVALID_KEY && IIPair(k, m[k]) in elems)
  }

  class IITable {
    var counter: nat
    var data: seq<IIPair>
    ghost var bindings: map<int, int>

    /** Putting the reserved key counts without occupying a slot, so `counter` is an upper bound. */
    ghost predicate Valid()
      reads this
    {
      && Chained(Slots(data), Hash)
      && |Elems(Slots(data))| <= counter < |data|
      && Holds(multiset(Elems(Slots(data))), bindings)
    }

    constructor ()
      ensures Valid() && bindings == map[] && |data| == 8 && counter == 0
    {
      counter := 0;
      data := seq(START_SIZE, _ => IIPair(INVALID_KEY, 0));
      bindings := map[];
      new;
      StartIsPow2();
      EmptyTable<IIPair>(START_SIZE, Hash);
      assert Slots(data) == seq(START_SIZE, _ => None);
    }

    /** The probe loop of `iiTableRawGet`. */
    static method Search(data: seq<IIPair>, key: int) returns (slot: int)
      requires Chained(Slots(data), Hash) && |Elems(Slots(data))| < |data|
      ensures slot == -1 || 0 <= slot < |data|
      ensures slot >= 0 ==> key != INVALID_KEY && data[slot].key == key && data[slot] in Elems(Slots(data))
      ensures slot == -1 ==> forall p | p in Elems(Slots(data)) :: p.key != key
    {
      ghost var view := Slots(data);
      hide NextTry, BitAnd, Iter, Home;
      SearchStarts(view, key);
      ghost var h0 := Home(key, |data|);
      ghost var n: nat := 0;
      var h := Home(key, |data|);
      while data[h].key != INVALID_KEY
        invariant n < |data| && h == Iter(h0, n, |data|) < |data|
        invariant Run(view, h0, n)
        invariant forall m: nat | m < n :: view[Iter(h0, m, |data|)].value.key != key
        decreases |data| - n
      {
        if data[h].key == key {
          SlotIsElem(view, h);
          return h;
        }
        SearchSteps(view, h0, n);
        h := NextTry(h, |data| - 1);
        n := n + 1;
      }
      forall p | p in Elems(view) ensures p.key != key {
        if p.key == key {
          SearchFails(view, Hash, p, h0, n);
        }
      }
      return -1;
    }

    method RawGet(key: int) returns (slot: int)
      requires Valid()
      ensures key in bindings ==> 0 <= slot < |data| && data[slot] == IIPair(key, bindings[key]) && key != INVALID_KEY
      ensures key !in bindings ==> slot == -1
    {
      slot := Search(data, key);
    }

    method Get(key: int) returns (r: int)
      requires Valid()
      ensures r == if key in bindings then bindings[key] else INVALID_KEY
    {
      var index := RawGet(key);
      if index >= 0 {
        r := data[index].val;
      } else {
        r := INVALID_KEY;
      }
    }

    static method RawInsert(data: seq<IIPair>, key: int, val: int) returns (r: seq<IIPair>)
      requires Chained(Slots(data), Hash) && |Elems(Slots(data))| < |data|
      ensures |r| == |data| && Chained(Slots(r), Hash)
      ensures key != INVALID_KEY ==>
        && multiset(Elems(Slots(r))) == multiset(Elems(Slots(data))) + multiset{IIPair(key, val)}
        && |Elems(Slots(r))| == |Elems(Slots(data))| + 1
      ensures key == INVALID_KEY ==> Slots(r) == Slots(data)
    {
      hide Elems;
      ghost var view := Slots(data);
      hide NextTry, BitAnd, Iter, Home;
      SearchStarts(view, key);
      ghost var h0 := Home(key, |data|);
      ghost var n: nat := 0;
      var h := Home(key, |data|);
      while data[h].key != INVALID_KEY
        invariant n < |data| && h == Iter(h0, n, |data|) < |data|
        invariant Run(view, h0, n)
        decreases |data| - n
      {
        SearchSteps(view, h0, n);
        h := NextTry(h, |data| - 1);
        n := n + 1;
      }
      r := data[h := IIPair(key, val)];
      if key != INVALID_KEY {
        InsertKeepsChained(view, Hash, IIPair(key, val), n);
        ElemsUpdate(view, h, IIPair(key, val));
        assert Slots(r) == view[h := Some(IIPair(key, val))];
      } else {
        assert Slots(r) == view;
      }
    }

    static method Rehash(data: seq<IIPair>) returns (r: seq<IIPair>)
      requires Chained(Slots(data), Hash)
      ensures |r| == |data| * GROWTH_FACTOR && Chained(Slots(r), Hash)
      ensures multiset(Elems(Slots(r))) == multiset(Elems(Slots(data)))
      ensures |Elems(Slots(r))| == |Elems(Slots(data))|
    {
      hide Elems, Chained, Slot, One;
      ghost var view := Slots(data);
      r := EmptyPairs(data, |data|);
      for i := 0 to |data|
        invariant |r| == |data| * GROWTH_FACTOR && Chained(Slots(r), Hash)
        invariant multiset(Elems(Slots(r))) == multiset(Elems(view[..i]))
        invariant |Elems(Slots(r))| == |Elems(view[..i])|
      {
        r := Reinsert(r, data, i);
      }
      assert view[..|data|] == view;
    }

    static method EmptyPairs(ghost data: seq<IIPair>, length: nat) returns (r: seq<IIPair>)
      requires Chained(Slots(data), Hash) && length == |data|
      ensures |r| == length * GROWTH_FACTOR && Chained(Slots(r), Hash)
      ensures Elems(Slots(r)) == [] == Elems(Slots(data)[..0])
    {
      DoublePow2(length);
      EmptyTable<IIPair>(length * GROWTH_FACTOR, Hash);
      r := seq(length * GROWTH_FACTOR, _ => IIPair(INVALID_KEY, 0));
      assert Slots(r) == seq(length * GROWTH_FACTOR, _ => None);
    }

    /** One iteration of the copying loop. */
    static method Reinsert(t: seq<IIPair>, data: seq<IIPair>, i: nat) returns (r: seq<IIPair>)
      requires i < |data| && |t| > |data| && Chained(Slots(t), Hash)
      requires multiset(Elems(Slots(t))) == multiset(Elems(Slots(data)[..i]))
      requires |Elems(Slots(t))| == |Elems(Slots(data)[..i])|
      ensures |r| == |t| && Chained(Slots(r), Hash)
      ensures multiset(Elems(Slots(r))) == multiset(Elems(Slots(data)[..i + 1]))
      ensures |Elems(Slots(r))| == |Elems(Slots(data)[..i + 1])|
    {
      hide Elems, Chained;
      ElemsPrefix(Slots(data), i);
      r := t;
      if data[i].key != INVALID_KEY {
        r := RawInsert(r, data[i].key, data[i].val);
      } else {
        assert Elems(Slots(data)[..i]) + [] == Elems(Slots(data)[..i]);
      }
    }

    /** The reserved key cannot be bound; putting it changes no lookup. */
    method Put(key: int, val: int)
      requires Valid()
      modifies this
      ensures Valid()
      ensures bindings == if key == INVALID_KEY then old(bindings) else old(bindings)[key := val]
      ensures if key in old(bindings) then |data| == |old(data)| && counter == old(counter)
        else counter == old(counter) + 1 && Grown(|old(data)|, old(counter), |data|)
    {
      hide Elems, Chained, Holds, Slots;
      var index := RawGet(key);
      if index >= 0 {
        Overwrite(data, index, IIPair(key, val), bindings);
        data, bindings := data[index := IIPair(key, val)], bindings[key := val];
      } else {
        var n;
        n, bindings := InsertNew(data, counter, key, val, bindings);
        data, counter := n, counter + 1;
      }
    }

    static method InsertNew(data: seq<IIPair>, counter: nat, key: int, val: int, ghost m: map<int, int>)
        returns (r: seq<IIPair>, ghost m': map<int, int>)
      requires Chained(Slots(data), Hash) && |Elems(Slots(data))| <= counter < |data|
      requires Holds(multiset(Elems(Slots(data))), m) && key !in m
      ensures Chained(Slots(r), Hash) && |Elems(Slots(r))| <= counter + 1 < |r| && Grown(|data|, counter, |r|)
      ensures m' == if key == INVALID_KEY then m else m[key := val]
      ensures Holds(multiset(Elems(Slots(r))), m')
    {
      r := data;
      if MustRehash(|data|, counter) {
        r := Rehash(data);
      }
      ghost var before := multiset(Elems(Slots(r)));
      r := RawInsert(r, key, val);
      m' := m;
      if key != INVALID_KEY {
        AddBinding(before, m, IIPair(key, val));
        m' := m[key := val];
      }
    }

    static lemma Overwrite(data: seq<IIPair>, i: nat, now: IIPair, m: map<int, int>)
      requires Chained(Slots(data), Hash) && Holds(multiset(Elems(Slots(data))), m)
      requires i < |data| && data[i].key == now.key != INVALID_KEY
      ensures var after := Slots(data[i := now]);
        Chained(after, Hash) && |Elems(after)| == |Elems(Slots(data))|
        && Holds(multiset(Elems(after)), m[now.key := now.val])
    {
      hide Elems, Chained, Holds;
      var view := Slots(data);
      ReplaceKeepsChained(view, Hash, i, now);
      ElemsUpdate(view, i, now);
      ReplaceBinding(multiset(Elems(view)), m, data[i], now);
      assert Slots(data[i := now]) == view[i := Some(now)];
    }

    static lemma ReplaceBinding(elems: multiset<IIPair>, m: map<int, int>, was: IIPair, now: IIPair)
      requires Holds(elems, m) && was in elems && was.key == now.key
      ensures Holds(elems - multiset{was} + multiset{now}, m[now.key := now.val])
    {
      var after := elems - multiset{was} + multiset{now};
      var m' := m[now.key := now.val];
      forall p | p in after ensures p.key in m' && m'[p.key] == p.val && after[p] == 1 {
        if p != now {
          assert p in elems;
        }
      }
      forall k | k in m' ensures k != INVALID_KEY && IIPair(k, m'[k]) in after {
        if k != now.key {
          assert IIPair(k, m[k]) in elems;
        }
      }
    }

    static lemma AddBinding(elems: multiset<IIPair>, m: map<int, int>, now: IIPair)
      requires Holds(elems, m) && now.key !in m && now.key != INVALID_KEY
      ensures Holds(elems + multiset{now}, m[now.key := now.val])
    {
      forall p | p in elems ensures p.key != now.key {
      }
    }
  }
}
