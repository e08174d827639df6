/** `TObjectSet` (compiler/astalgo.nim): a set of objects, hashed by address. */
module ObjectSet {
  import opened Basics
  import opened Probe
  import opened OpenTable

  /** An object and its hash, which is a function of its address. */
  datatype Obj = Obj(address: int, hash: int)

  function Hash(o: Obj): int { o.hash }

  ghost predicate NoneTwice(m: multiset<Obj>) {
    forall o | o in m :: m[o] == 1
  }

  class ObjectSet {
    var counter: nat
    var data: seq<Option<Obj>>

    ghost predicate Valid()
      reads this
    {
      && Chained(data, Hash)
      && |Elems(data)| == counter < |data|
      && NoneTwice(multiset(Elems(data)))
    }

    ghost function Members(): set<Obj>
      reads this
    {
      set o | o in Elems(data)
    }

    constructor ()
      ensures Valid() && Members() == {} && |data| == 8
    {
      counter := 0;
      data := seq(START_SIZE, _ => None);
      new;
      StartIsPow2();
      EmptyTable<Obj>(START_SIZE, Hash);
    }

    method Contains(obj: Obj) returns (r: bool)
      requires Valid()
      ensures r <==> obj in Members()
    {
      var h := Search(data, obj);
      r := data[h].Some?;
    }

    /** The probe loop of the search: ends at `obj` or at the free slot where it belongs. */
    static method Search(data: seq<Option<Obj>>, obj: Obj) returns (h: nat)
      requires Chained(data, Hash) && |Elems(data)| < |data|
      ensures h < |data|
      ensures data[h].Some? ==> data[h].value == obj && obj in Elems(data)
      ensures data[h].None? ==> obj !in Elems(data) && Chained(data[h := Some(obj)], Hash)
    {
      hide NextTry, BitAnd, Iter, Home;
      SearchStarts(data, obj.hash);
      ghost var h0 := Home(obj.hash, |data|);
      ghost var n: nat := 0;
      h := Home(obj.hash, |data|);
      while data[h].Some?
        invariant n < |data| && h == Iter(h0, n, |data|) < |data|
        invariant Run(data, h0, n)
        invariant forall m: nat | m < n :: data[Iter(h0, m, |data|)].value != obj
        decreases |data| - n
      {
        if data[h].value == obj {
          SlotIsElem(data, h);
          return;
        }
        SearchSteps(data, h0, n);
        h := NextTry(h, |data| - 1);
        n := n + 1;
      }
      SearchFails(data, Hash, obj, h0, n);
      InsertKeepsChained(data, Hash, obj, n);
    }

    /** `obj` must not be in the set yet: the insertion loop asserts that. */
    method Incl(obj: Obj)
      requires Valid() && obj !in Members()
      modifies this
      ensures Valid() && Members() == old(Members()) + {obj} && counter == old(counter) + 1
      ensures Grown(|old(data)|, old(counter), |data|)
    {
      hide Elems, Chained;
      var n := InclNew(data, counter, obj);
      AddedElem(Elems(data), Elems(n), obj);
      data, counter := n, counter + 1;
    }

    static method InclNew(data: seq<Option<Obj>>, counter: nat, obj: Obj) returns (n: seq<Option<Obj>>)
      requires Chained(data, Hash) && |Elems(data)| == counter < |data|
      ensures Chained(n, Hash) && |Elems(n)| == counter + 1 < |n| && Grown(|data|, counter, |n|)
      ensures multiset(Elems(n)) == multiset(Elems(data)) + multiset{obj}
    {
      n := data;
      if MustRehash(|data|, counter) {
        n := Enlarge(data, Hash);
      }
      n := RawInsert(n, Hash, obj);
    }

    method ContainsOrIncl(obj: Obj) returns (r: bool)
      requires Valid()
      modifies this
      ensures Valid()
      ensures r == (obj in old(Members()))
      ensures Members() == old(Members()) + {obj}
      ensures r ==> data == old(data) && counter == old(counter)
      ensures !r ==> counter == old(counter) + 1 && Grown(|old(data)|, old(counter), |data|)
    {
      hide Elems, Chained;
      var h := Search(data, obj);
      if data[h].Some? {
        return true;
      }
      var n := InclAt(data, counter, obj, h);
      AddedElem(Elems(data), Elems(n), obj);
      data, counter := n, counter + 1;
      r := false;
    }

    static method InclAt(data: seq<Option<Obj>>, counter: nat, obj: Obj, h: nat) returns (n: seq<Option<Obj>>)
      requires Chained(data, Hash) && |Elems(data)| == counter < |data|
      requires h < |data| && data[h].None? && Chained(data[h := Some(obj)], Hash)
      ensures Chained(n, Hash) && |Elems(n)| == counter + 1 < |n| && Grown(|data|, counter, |n|)
      ensures multiset(Elems(n)) == multiset(Elems(data)) + multiset{obj}
    {
      if MustRehash(|data|, counter) {
        n := InclNew(data, counter, obj);
      } else {
        ElemsUpdate(data, h, obj);
        n := data[h := Some(obj)];
      }
    }
  }
}
