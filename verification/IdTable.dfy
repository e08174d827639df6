/**
 `TIdTable` and `TIdNodeTable` (compiler/astalgo.nim): maps from the id of a
 key object to the key object and a value. The two tables have the same code
 and differ in the value type only.
 */
module IdTable {
  import opened Basics
  import opened Probe
  import opened OpenTable

  /** `PIdObj`: an id and the object that carries it. */
  datatype IdObj = IdObj(id: int, obj: nat)
  datatype IdPair<V> = IdPair(key: IdObj, val: V)

  /** The table holds exactly the pairs of `m`, each in one slot. */
  ghost predicate Holds<V>(elems: multiset<IdPair<V>>, m: map<int, IdPair<V>>) {
    && (forall p | p in elems :: p.key.id in m && m[p.key.id] == p && elems[p] == 1)
    && (forall id | id in m :: m[id].key.id == id && m[id] in elems)
  }

  class IdTable<V> {
    var counter: nat
    var data: seq<Option<IdPair<V>>>
    ghost var bindings: map<int, IdPair<V>>

    static function Hash(p: IdPair<V>): int { p.key.id }

    ghost predicate Valid()
      reads this
    {
      && Chained(data, Hash)
      && |Elems(data)| == counter < |data|
      && Holds(multiset(Elems(data)), bindings)
    }

    constructor ()
      ensures Valid() && bindings == map[] && |data| == 8 && counter == 0
    {
      counter := 0;
      data := seq(START_SIZE, _ => None);
      bindings := map[];
      new;
      StartIsPow2();
      EmptyTable<IdPair<V>>(START_SIZE, Hash);
    }

    /** The probe loop of `idTableRawGet`. */
    static method Search(data: seq<Option<IdPair<V>>>, key: int) returns (slot: int)
      requires Chained(data, Hash) && |Elems(data)| < |data|
      ensures slot == -1 || 0 <= slot < |data|
      ensures slot >= 0 ==> data[slot].Some? && data[slot].value in Elems(data) && data[slot].value.key.id == key
      ensures slot == -1 ==> forall p | p in Elems(data) :: p.key.id != key
    {
      hide NextTry, BitAnd, Iter, Home;
      SearchStarts(data, key);
      ghost var h0 := Home(key, |data|);
      ghost var n: nat := 0;
      var h := Home(key, |data|);
      while data[h].Some?
        invariant n < |data| && h == Iter(h0, n, |data|) < |data|
        invariant Run(data, h0, n)
        invariant forall m: nat | m < n :: data[Iter(h0, m, |data|)].value.key.id != key
        decreases |data| - n
      {
        if data[h].value.key.id == key {
          SlotIsElem(data, h);
          return h;
        }
        SearchSteps(data, h0, n);
        h := NextTry(h, |data| - 1);
        n := n + 1;
      }
      forall p | p in Elems(data) ensures p.key.id != key {
        if p.key.id == key {
          SearchFails(data, Hash, p, h0, n);
        }
      }
      return -1;
    }

    /** Slot of a key, or -1. */
    method RawGet(key: int) returns (slot: int)
      requires Valid()
      ensures key in bindings ==>
        0 <= slot < |data| && data[slot] == Some(bindings[key]) && bindings[key].key.id == key
      ensures key !in bindings ==> slot == -1
    {
      slot := Search(data, key);
    }

    method HasObjectAsKey(key: IdObj) returns (r: bool)
      requires Valid()
      ensures r <==> key.id in bindings && bindings[key.id].key == key
    {
      var index := RawGet(key.id);
      if index >= 0 {
        r := data[index].value.key == key;
      } else {
        r := false;
      }
    }

    method Get(key: int) returns (r: Option<V>)
      requires Valid()
      ensures r == if key in bindings then Some(bindings[key].val) else None
    {
      var index := RawGet(key);
      if index >= 0 {
        r := Some(data[index].value.val);
      } else {
        r := None;
      }
    }

    /** The first key object of an id stays, its value is replaced. */
    method Put(key: IdObj, val: V)
      requires Valid()
      modifies this
      ensures Valid()
      ensures key.id in old(bindings) ==>
        bindings == old(bindings)[key.id := IdPair(old(bindings)[key.id].key, val)]
      ensures key.id in old(bindings) ==> |data| == |old(data)| && counter == old(counter)
      ensures key.id !in old(bindings) ==> bindings == old(bindings)[key.id := IdPair(key, val)]
      ensures key.id !in old(bindings) ==>
        counter == old(counter) + 1 && Grown(|old(data)|, old(counter), |data|)
    {
      hide Elems, Chained, Holds;
      var index := RawGet(key.id);
      if index >= 0 {
        var now := IdPair(data[index].value.key, val);
        Overwrite(data, index, now, bindings);
        data := data[index := Some(now)];
        bindings := bindings[key.id := now];
      } else {
        if MustRehash(|data|, counter) {
          data := Enlarge(data, Hash);
        }
        AddBinding(multiset(Elems(data)), bindings, IdPair(key, val));
        data := RawInsert(data, Hash, IdPair(key, val));
        counter := counter + 1;
        bindings := bindings[key.id := IdPair(key, val)];
      }
    }

    static lemma Overwrite(data: seq<Option<IdPair<V>>>, i: nat, now: IdPair<V>, m: map<int, IdPair<V>>)
      requires Chained(data, Hash) && Holds(multiset(Elems(data)), m)
      requires i < |data| && data[i].Some? && data[i].value.key.id == now.key.id
      ensures Chained(data[i := Some(now)], Hash) && |Elems(data[i := Some(now)])| == |Elems(data)|
      ensures Holds(multiset(Elems(data[i := Some(now)])), m[now.key.id := now])
    {
      ReplaceKeepsChained(data, Hash, i, now);
      ElemsUpdate(data, i, now);
      ReplaceBinding(multiset(Elems(data)), m, data[i].value, now);
    }

    static lemma ReplaceBinding(elems: multiset<IdPair<V>>, m: map<int, IdPair<V>>, was: IdPair<V>, now: IdPair<V>)
      requires Holds(elems, m) && was in elems && was.key.id == now.key.id
      ensures Holds(elems - multiset{was} + multiset{now}, m[now.key.id := now])
    {
      var after := elems - multiset{was} + multiset{now};
      var m' := m[now.key.id := now];
      forall p | p in after ensures p.key.id in m' && m'[p.key.id] == p && after[p] == 1 {
        if p != now {
          assert p in elems;
        }
      }
    }

    static lemma AddBinding(elems: multiset<IdPair<V>>, m: map<int, IdPair<V>>, now: IdPair<V>)
      requires Holds(elems, m) && now.key.id !in m
      ensures Holds(elems + multiset{now}, m[now.key.id := now])
    {
      forall p | p in elems ensures p.key.id != now.key.id {
      }
    }

    /** Everything the `pairs` iterators yield, in order. */
    method Pairs() returns (yielded: seq<IdPair<V>>)
      requires Valid()
      ensures forall i, j | 0 <= i < j < |yielded| :: yielded[i].key.id != yielded[j].key.id
      ensures forall i | 0 <= i < |yielded| ::
        yielded[i].key.id in bindings && bindings[yielded[i].key.id] == yielded[i]
      ensures forall id | id in bindings :: bindings[id] in yielded
    {
      yielded := [];
      for i := 0 to |data|
        invariant yielded == Elems(data[..i])
      {
        ElemsPrefix(data, i);
        if data[i].Some? {
          yielded := yielded + [data[i].value];
        }
      }
      assert data[..|data|] == data;
      forall i, j | 0 <= i < j < |yielded| ensures yielded[i] != yielded[j] {
        if yielded[i] == yielded[j] {
          TwiceInMultiset(yielded, i, j);
        }
      }
    }
  }

  lemma TwiceInMultiset<T>(s: seq<T>, i: nat, j: nat)
    requires i < j < |s| && s[i] == s[j]
    ensures multiset(s)[s[i]] >= 2
  {
    assert s == s[..j] + s[j..];
    assert s[i] in s[..j] && s[j] in s[j..];
  }
}
