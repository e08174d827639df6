/**
 `TStrTable` (compiler/astalgo.nim): symbols hashed by their identifier. Several
 symbols may share an identifier; the identifier iterators visit all of them.
 */
module StrTable {
  import opened Basics
  import opened Probe
  import opened OpenTable

  /** Identifiers are interned: the hash is a function of the id. */
  datatype Ident = Ident(id: int, h: int)
  datatype Sym = Sym(id: int, name: Ident)

  function Hash(s: Sym): int { s.name.h }

  ghost predicate Interned(data: seq<Option<Sym>>, hashOf: int -> int) {
    forall s | s in Elems(data) :: s.name.h == hashOf(s.name.id)
  }

  /** `TIdentIter`. */
  datatype IdentIter = IdentIter(h: int, name: Ident)

  predicate Wanted(s: Sym, name: Ident, excluding: set<int>) {
    s.name.id == name.id && s.id !in excluding
  }

  /** The iterator stands before probe step `n` of its identifier. */
  ghost predicate AtStep(ti: IdentIter, data: seq<Option<Sym>>, n: nat) {
    && |data| > 0
    && Home(ti.h, |data|) == Iter(Home(ti.name.h, |data|), n, |data|)
    && Run(data, Home(ti.name.h, |data|), n)
  }

  /** Steps `from .. to` of the probe sequence meet no wanted symbol. */
  ghost predicate NoneBetween(data: seq<Option<Sym>>, name: Ident, excluding: set<int>, from: nat, to: nat)
    requires |data| > 0 && Run(data, Home(name.h, |data|), to)
  {
    forall m: nat | from <= m < to ::
      !Wanted(data[Iter(Home(name.h, |data|), m, |data|)].value, name, excluding)
  }

  /** Probe step `m` meets the identifier. */
  ghost predicate Meets(data: seq<Option<Sym>>, name: Ident, m: nat)
    requires |data| > 0
  {
    var i := Iter(Home(name.h, |data|), m, |data|);
    i < |data| && data[i].Some? && data[i].value.name.id == name.id
  }

  /** The probe chain of the identifier ends at step `k`, at its first free slot. */
  ghost predicate ChainEnds(data: seq<Option<Sym>>, name: Ident, k: nat) {
    && |data| > 0 && Run(data, Home(name.h, |data|), k)
    && Iter(Home(name.h, |data|), k, |data|) < |data| && data[Iter(Home(name.h, |data|), k, |data|)].None?
  }

  /** `slot` is the first on the probe chain that holds the identifier. */
  ghost predicate FirstOf(data: seq<Option<Sym>>, name: Ident, slot: nat) {
    |data| > 0 && exists m: nat ::
      Meets(data, name, m) && slot == Iter(Home(name.h, |data|), m, |data|)
      && Run(data, Home(name.h, |data|), m) && forall j: nat | j < m :: !Meets(data, name, j)
  }

  /** `slot` is the last one before the free slot that ends the chain. */
  ghost predicate LastOf(data: seq<Option<Sym>>, name: Ident, slot: nat) {
    exists m: nat, k: nat ::
      ChainEnds(data, name, k) && m < k && Meets(data, name, m) && slot == Iter(Home(name.h, |data|), m, |data|)
      && forall j: nat | m < j < k :: !Meets(data, name, j)
  }

  class StrTable {
    var counter: nat
    var data: seq<Option<Sym>>
    ghost const hashOf: int -> int

    /** `Add` counts a symbol that was there already, so `counter` is an upper bound. */
    ghost predicate Valid()
      reads this
    {
      && Chained(data, Hash)
      && |Elems(data)| <= counter < |data|
      && Interned(data, hashOf)
    }

    ghost function Symbols(): multiset<Sym>
      reads this
    {
      multiset(Elems(data))
    }

    /** No symbol is in two slots. */
    ghost predicate Single()
      reads this
    {
      NoTwin(Elems(data))
    }

    constructor (ghost hashOf: int -> int)
      ensures Valid() && Symbols() == multiset{} && |data| == 8 && counter == 0
      ensures this.hashOf == hashOf
    {
      this.hashOf := hashOf;
      counter := 0;
      data := seq(START_SIZE, _ => None);
      new;
      StartIsPow2();
      EmptyTable<Sym>(START_SIZE, Hash);
    }

    /** The probe loop shared by `contains`, `rawInsert` and `replaceRaw`. */
    static method Search(data: seq<Option<Sym>>, n: Sym) returns (h: nat)
      requires Chained(data, Hash) && |Elems(data)| < |data|
      ensures h < |data|
      ensures data[h].Some? ==> data[h].value == n && n in Elems(data)
      ensures data[h].None? ==> n !in Elems(data) && Chained(data[h := Some(n)], Hash)
    {
      hide NextTry, BitAnd, Iter, Home;
      SearchStarts(data, n.name.h);
      ghost var h0 := Home(n.name.h, |data|);
      ghost var k: nat := 0;
      h := Home(n.name.h, |data|);
      while data[h].Some?
        invariant k < |data| && h == Iter(h0, k, |data|) < |data|
        invariant Run(data, h0, k)
        invariant forall m: nat | m < k :: data[Iter(h0, m, |data|)].value != n
        decreases |data| - k
      {
        if data[h].value == n {
          SlotIsElem(data, h);
          return;
        }
        SearchSteps(data, h0, k);
        h := NextTry(h, |data| - 1);
        k := k + 1;
      }
      SearchFails(data, Hash, n, h0, k);
      InsertKeepsChained(data, Hash, n, k);
    }

    method Contains(n: Sym) returns (r: bool)
      requires Valid()
      ensures r <==> n in Symbols()
    {
      var h := Search(data, n);
      r := data[h].Some?;
    }

    /** A symbol that is there already is not inserted again. */
    static method RawInsert(data: seq<Option<Sym>>, n: Sym) returns (r: seq<Option<Sym>>)
      requires Chained(data, Hash) && |Elems(data)| < |data|
      ensures |r| == |data| && Chained(r, Hash)
      ensures |Elems(r)| <= |Elems(data)| + 1
      ensures n in Elems(data) ==> r == data
      ensures n !in Elems(data) ==> multiset(Elems(r)) == multiset(Elems(data)) + multiset{n}
    {
      var h := Search(data, n);
      if data[h].Some? {
        return data;
      }
      ElemsUpdate(data, h, n);
      r := data[h := Some(n)];
    }

    /** Doubling keeps every symbol; a symbol stored twice is merged. */
    static method EnlargeSyms(data: seq<Option<Sym>>) returns (r: seq<Option<Sym>>)
      requires Chained(data, Hash)
      ensures |r| == |data| * GROWTH_FACTOR && Chained(r, Hash)
      ensures Merged(Elems(r), Elems(data))
    {
      hide Chained, Elems, Merged, One;
      r := EmptySyms(data, |data|);
      for i := 0 to |data|
        invariant |r| == |data| * GROWTH_FACTOR && Chained(r, Hash) && |Elems(r)| <= i
        invariant Merged(Elems(r), Elems(data[..i]))
      {
        ElemsPrefix(data, i);
        r := Reinsert(r, data[i], Elems(data[..i]));
      }
      assert data[..|data|] == data;
    }

    static method EmptySyms(ghost data: seq<Option<Sym>>, length: nat) returns (r: seq<Option<Sym>>)
      requires Chained(data, Hash) && length == |data|
      ensures |r| == length * GROWTH_FACTOR && Chained(r, Hash) && Elems(r) == []
      ensures Merged(Elems(r), Elems(data[..0]))
    {
      DoublePow2(length);
      EmptyTable<Sym>(length * GROWTH_FACTOR, Hash);
      r := seq(length * GROWTH_FACTOR, _ => None);
    }

    /** One iteration of the copying loop: a free slot adds nothing. */
    static method Reinsert(t: seq<Option<Sym>>, slot: Option<Sym>, ghost xs: seq<Sym>) returns (r: seq<Option<Sym>>)
      requires Chained(t, Hash) && |Elems(t)| < |t| && Merged(Elems(t), xs)
      ensures |r| == |t| && Chained(r, Hash) && Merged(Elems(r), xs + One(slot))
      ensures |Elems(r)| <= |Elems(t)| + 1
    {
      r := t;
      if slot.Some? {
        r := RawInsert(t, slot.value);
        MergedStep(Elems(t), xs, Elems(r), slot.value);
      } else {
        assert xs + One(slot) == xs;
      }
    }

    /** Inserting a symbol that is there already only counts it. */
    method Add(n: Sym)
      requires Valid() && n.name.h == hashOf(n.name.id)
      modifies this
      ensures Valid() && counter == old(counter) + 1 && Grown(|old(data)|, old(counter), |data|)
      ensures n in old(Symbols()) ==> Merged(Elems(data), old(Elems(data)))
      ensures n !in old(Symbols()) ==> Merged(Elems(data), old(Elems(data)) + [n])
      ensures old(Single()) ==> Single()
    {
      ghost var before := Elems(data);
      var t := data;
      if MustRehash(|data|, counter) {
        t := EnlargeSyms(data);
      }
      var r := RawInsert(t, n);
      if n !in Elems(t) {
        MergedStep(Elems(t), Elems(data), Elems(r), n);
      }
      data, counter := r, counter + 1;
      MergedSingle(before, Elems(r), n);
    }

    /** The slot found for `prev` now holds `new'`; nothing else changes. */
    method Replace(prev: Sym, new': Sym)
      requires Valid() && prev in Symbols() && prev.name.h == new'.name.h == hashOf(new'.name.id)
      modifies this`data
      ensures Valid() && |data| == |old(data)|
      ensures Symbols() == old(Symbols()) - multiset{prev} + multiset{new'}
      ensures exists i: nat :: i < |data| && old(data)[i] == Some(prev) && data == old(data)[i := Some(new')]
      ensures old(Single()) ==> (Single() <==> new' == prev || new' !in old(Symbols()))
    {
      hide Elems, Chained, NoTwin, Interned;
      var h := Search(data, prev);
      Overwritten(data, h, new');
      OverwrittenSingle(Elems(data), prev, new', Elems(data[h := Some(new')]));
      data := data[h := Some(new')];
    }

    /** The scan of `strTableInclReportConflict` up to the free slot. */
    static method Scan(data: seq<Option<Sym>>, n: Sym) returns (present: bool, h: nat, replaceSlot: int)
      requires Chained(data, Hash) && |Elems(data)| < |data|
      ensures present <==> n in Elems(data)
      ensures !present ==> h < |data| && data[h].None? && Chained(data[h := Some(n)], Hash)
      ensures -1 <= replaceSlot < |data|
      ensures replaceSlot >= 0 ==>
        data[replaceSlot].Some? && data[replaceSlot].value.name.id == n.name.id
      ensures !present && replaceSlot >= 0 ==> LastOf(data, n.name, replaceSlot)
      ensures !present && replaceSlot == -1 ==>
        forall s | s in Elems(data) && s.name.h == n.name.h :: s.name.id != n.name.id
    {
      hide NextTry, BitAnd, Iter, Home;
      SearchStarts(data, n.name.h);
      ghost var h0 := Home(n.name.h, |data|);
      ghost var k: nat := 0;
      h := Home(n.name.h, |data|);
      replaceSlot := -1;
      ghost var last: nat := 0;
      while data[h].Some?
        invariant k < |data| && h == Iter(h0, k, |data|) < |data|
        invariant Run(data, h0, k)
        invariant -1 <= replaceSlot < |data|
        invariant replaceSlot >= 0 ==>
          data[replaceSlot].Some? && data[replaceSlot].value.name.id == n.name.id
        invariant replaceSlot >= 0 ==> last < k && replaceSlot == Iter(h0, last, |data|)
        invariant forall j: nat | j < k && (replaceSlot >= 0 ==> last < j) :: !Meets(data, n.name, j)
        invariant forall m: nat | m < k :: data[Iter(h0, m, |data|)].value != n
        invariant replaceSlot == -1 ==>
          forall m: nat | m < k :: data[Iter(h0, m, |data|)].value.name.id != n.name.id
        decreases |data| - k
      {
        if data[h].value.name.id == n.name.id {
          if data[h].value == n {
            SlotIsElem(data, h);
            return true, h, replaceSlot;
          }
          replaceSlot, last := h, k;
        }
        SearchSteps(data, h0, k);
        h := NextTry(h, |data| - 1);
        k := k + 1;
      }
      SearchFails(data, Hash, n, h0, k);
      InsertKeepsChained(data, Hash, n, k);
      assert ChainEnds(data, n.name, k);
      assert replaceSlot >= 0 ==> Meets(data, n.name, last);
      if replaceSlot == -1 {
        forall s | s in Elems(data) && s.name.h == n.name.h ensures s.name.id != n.name.id {
          if s.name.id == n.name.id {
            SearchFails(data, Hash, s, h0, k);
          }
        }
      }
      return false, h, replaceSlot;
    }

    /**
     No conflict: add `n`, return None. Meeting `n` itself: change nothing, return
     None. Otherwise return the last old symbol with the same identifier on its probe
     chain, and overwrite its slot unless the old one is to be kept.
     */
    method InclReportConflict(n: Sym, onConflictKeepOld: bool) returns (conflict: Option<Sym>)
      requires Valid() && n.name.h == hashOf(n.name.id)
      modifies this
      ensures Valid()
      ensures n in old(Symbols()) ==> conflict == None && data == old(data) && counter == old(counter)
      ensures conflict.Some? ==>
        && counter == old(counter) && conflict.value != n
        && exists i: nat :: Resolved(old(data), data, n, onConflictKeepOld, conflict, i)
      ensures conflict.None? && n !in old(Symbols()) ==>
        && (forall s | s in old(Symbols()) :: s.name.id != n.name.id)
        && Merged(Elems(data), old(Elems(data)) + [n])
        && counter == old(counter) + 1 && Grown(|old(data)|, old(counter), |data|)
      ensures old(Single()) ==> Single()
    {
      hide Elems, Chained, NoTwin, Merged;
      var present, h, replaceSlot := Scan(data, n);
      if present {
        return None;
      }
      var r;
      if replaceSlot >= 0 {
        conflict, r := Resolve(replaceSlot, n, onConflictKeepOld);
        data := r;
      } else {
        r := AddAt(data, counter, n, h);
        MergedSingle(Elems(data), Elems(r), n);
        data, counter, conflict := r, counter + 1, None;
      }
    }

    /** The conflicting symbol is the last one on the probe chain; the tables differ in at most its slot `i`. */
    ghost static predicate Resolved(before: seq<Option<Sym>>, after: seq<Option<Sym>>, n: Sym, keepOld: bool,
                                    conflict: Option<Sym>, i: nat) {
      && conflict.Some? && conflict.value.name.id == n.name.id
      && i < |before| && before[i] == conflict && LastOf(before, n.name, i)
      && after == if keepOld then before else before[i := Some(n)]
    }

    method Resolve(slot: nat, n: Sym, onConflictKeepOld: bool) returns (conflict: Option<Sym>, r: seq<Option<Sym>>)
      requires Valid() && n.name.h == hashOf(n.name.id) && n !in Elems(data)
      requires slot < |data| && data[slot].Some? && data[slot].value.name.id == n.name.id
      requires LastOf(data, n.name, slot)
      ensures conflict.Some? && conflict.value != n
      ensures Resolved(data, r, n, onConflictKeepOld, conflict, slot)
      ensures |r| == |data| && Chained(r, Hash) && Interned(r, hashOf) && |Elems(r)| == |Elems(data)|
      ensures NoTwin(Elems(data)) ==> NoTwin(Elems(r))
    {
      SlotIsElem(data, slot);
      conflict, r := data[slot], data;
      if !onConflictKeepOld {
        Overwritten(data, slot, n);
        OverwrittenSingle(Elems(data), data[slot].value, n, Elems(data[slot := Some(n)]));
        r := data[slot := Some(n)];
      }
    }

    lemma Overwritten(t: seq<Option<Sym>>, i: nat, n: Sym)
      requires Chained(t, Hash) && Interned(t, hashOf) && n.name.h == hashOf(n.name.id)
      requires i < |t| && t[i].Some? && t[i].value.name.h == n.name.h
      ensures var r := t[i := Some(n)];
        && Chained(r, Hash) && Interned(r, hashOf) && |Elems(r)| == |Elems(t)|
        && multiset(Elems(r)) == multiset(Elems(t)) - multiset{t[i].value} + multiset{n}
    {
      ReplaceKeepsChained(t, Hash, i, n);
      ElemsUpdate(t, i, n);
      var r := t[i := Some(n)];
      forall s: Sym | s in Elems(r) ensures s.name.h == hashOf(s.name.id) {
        assert s in multiset(Elems(r));
        assert s == n || s in multiset(Elems(t));
      }
    }

    static method AddAt(data: seq<Option<Sym>>, counter: nat, n: Sym, h: nat) returns (r: seq<Option<Sym>>)
      requires Chained(data, Hash) && |Elems(data)| <= counter < |data| && n !in Elems(data)
      requires h < |data| && data[h].None? && Chained(data[h := Some(n)], Hash)
      ensures Chained(r, Hash) && |Elems(r)| <= counter + 1 < |r| && Grown(|data|, counter, |r|)
      ensures Merged(Elems(r), Elems(data) + [n])
    {
      if MustRehash(|data|, counter) {
        var t := EnlargeSyms(data);
        r := RawInsert(t, n);
        MergedStep(Elems(t), Elems(data), Elems(r), n);
      } else {
        r := data[h := Some(n)];
        ElemsUpdate(data, h, n);
        MergedStep(Elems(data), Elems(data), Elems(r), n);
      }
    }

    /** The first symbol of that identifier on the probe chain. */
    method Get(name: Ident) returns (r: Option<Sym>)
      requires Valid() && name.h == hashOf(name.id)
      ensures r.Some? ==> r.value in Symbols() && r.value.name.id == name.id
      ensures r.Some? ==> exists slot: nat :: slot < |data| && data[slot] == r && FirstOf(data, name, slot)
      ensures r.None? ==> forall s | s in Symbols() :: s.name.id != name.id
    {
      hide Elems;
      hide NextTry, BitAnd, Iter, Home;
      SearchStarts(data, name.h);
      ghost var h0 := Home(name.h, |data|);
      ghost var k: nat := 0;
      var h := Home(name.h, |data|);
      while data[h].Some?
        invariant k < |data| && h == Iter(h0, k, |data|) < |data|
        invariant Run(data, h0, k)
        invariant forall m: nat | m < k :: data[Iter(h0, m, |data|)].value.name.id != name.id
        decreases |data| - k
      {
        if data[h].value.name.id == name.id {
          SlotIsElem(data, h);
          assert Meets(data, name, k);
          assert FirstOf(data, name, h);
          return data[h];
        }
        SearchSteps(data, h0, k);
        h := NextTry(h, |data| - 1);
        k := k + 1;
      }
      forall s | s in Elems(data) ensures s.name.id != name.id {
        if s.name.id == name.id {
          SearchFails(data, Hash, s, h0, k);
        }
      }
      return None;
    }

    /**
     `nextIdentIter`: from probe step `n` to the next wanted symbol, or to the
     free slot that ends the chain. Coming round to the start cannot happen
     while the table has a free slot.
     */
    static method NextIdentIter(ti: IdentIter, data: seq<Option<Sym>>, excluding: set<int>, ghost n: nat)
        returns (r: Option<Sym>, ti': IdentIter, ghost stop: nat)
      requires IsPow2(|data|) && |Elems(data)| < |data| && AtStep(ti, data, n)
      ensures n <= stop < |data| && Run(data, Home(ti.name.h, |data|), stop)
      ensures Iter(Home(ti.name.h, |data|), stop, |data|) < |data|
      ensures NoneBetween(data, ti.name, excluding, n, stop)
      ensures r == data[Iter(Home(ti.name.h, |data|), stop, |data|)]
      ensures r.Some? ==> Wanted(r.value, ti.name, excluding)
      ensures r.Some? ==> ti'.name == ti.name && AtStep(ti', data, stop + 1)
    {
      hide NextTry, BitAnd, Iter, Home;
      SearchStarts(data, ti.name.h);
      ghost var h0 := Home(ti.name.h, |data|);
      RunEnds(data, h0, n);
      var h := Home(ti.h, |data|);
      var start := h;
      stop := n;
      r := data[h];
      while r.Some?
        invariant n <= stop < |data| && h == Iter(h0, stop, |data|) < |data|
        invariant Run(data, h0, stop) && r == data[h]
        invariant NoneBetween(data, ti.name, excluding, n, stop)
        decreases |data| - stop
      {
        if r.value.name.id == ti.name.id && r.value.id !in excluding {
          break;
        }
        SearchSteps(data, h0, stop);
        h := NextTry(h, |data| - 1);
        stop := stop + 1;
        if h == start {
          VisitsOnce(h0, n, stop, |data|);
          assert false;
        }
        r := data[h];
      }
      ti' := ti.(h := NextTry(h, |data| - 1));
      if r.Some? {
        SearchSteps(data, h0, stop);
        HomeInRange(ti'.h, |data|);
        ResidueUnique(ti'.h, |data|, 0, ti'.h);
      }
      if r.Some? && r.value.id in excluding {
        r := None;
      }
    }

    /**
     `initIdentIter` and `nextIdentIter` until nil, or the excluding forms: the
     symbols yielded are those of the slots in `slots`, which are exactly the
     slots holding a wanted symbol, each once, in the order of the probe chain.
     */
    method IterateIdent(name: Ident, excluding: set<int>)
        returns (yielded: seq<Sym>, ghost slots: seq<nat>, ghost steps: seq<nat>)
      requires Valid() && name.h == hashOf(name.id)
      ensures |slots| == |yielded| && InProbeOrder(data, name, slots, steps)
      ensures forall k | 0 <= k < |slots| :: slots[k] < |data| && data[slots[k]] == Some(yielded[k])
      ensures forall k, l | 0 <= k < l < |slots| :: slots[k] != slots[l]
      ensures forall k | 0 <= k < |yielded| :: Wanted(yielded[k], name, excluding)
      ensures forall i: nat | i < |data| && data[i].Some? && Wanted(data[i].value, name, excluding) :: i in slots
      ensures (forall k, l | 0 <= k < l < |yielded| :: yielded[k] != yielded[l]) <==>
        forall s | Wanted(s, name, excluding) :: Symbols()[s] <= 1
    {
      hide NextTry, BitAnd, Iter, Home, OnChain, NoTwin, Elems;
      yielded, slots, steps := [], [], [];
      if counter == 0 {
        forall i: nat | i < |data| && data[i].Some? ensures false {
          SlotIsElem(data, i);
        }
        return;
      }
      yielded, slots, steps := IterateFrom(data, name, excluding);
      YieldedOnce(data, name, excluding, slots, yielded);
    }

    static method IterateFrom(data: seq<Option<Sym>>, name: Ident, excluding: set<int>)
        returns (yielded: seq<Sym>, ghost slots: seq<nat>, ghost steps: seq<nat>)
      requires Chained(data, Hash) && |Elems(data)| < |data|
      requires forall s | s in Elems(data) && s.name.id == name.id :: s.name.h == name.h
      ensures |slots| == |yielded| && InProbeOrder(data, name, slots, steps)
      ensures forall k | 0 <= k < |slots| :: slots[k] < |data| && data[slots[k]] == Some(yielded[k])
      ensures forall k, l | 0 <= k < l < |slots| :: slots[k] != slots[l]
      ensures forall k | 0 <= k < |yielded| :: Wanted(yielded[k], name, excluding)
      ensures forall i: nat | i < |data| && data[i].Some? && Wanted(data[i].value, name, excluding) :: i in slots
    {
      hide *;
      yielded, slots, steps := [], [], [];
      var ti := IdentIter(name.h, name);
      IterStarts(data, name, excluding);
      ghost var stop: nat;
      var s;
      s, ti, stop := NextIdentIter(ti, data, excluding, 0);
      VisitSkips(data, name, excluding, 0, stop, steps, slots, yielded);
      while s.Some?
        invariant stop < |data| && Run(data, Home(name.h, |data|), stop)
        invariant Iter(Home(name.h, |data|), stop, |data|) < |data|
        invariant s == data[Iter(Home(name.h, |data|), stop, |data|)]
        invariant s.Some? ==> Wanted(s.value, name, excluding)
        invariant s.Some? ==> ti.name == name && AtStep(ti, data, stop + 1)
        invariant VisitedSlots(data, name, excluding, stop, steps, slots, yielded)
        decreases |data| - stop
      {
        StopWanted(data, name, excluding, stop);
        VisitStep(data, name, excluding, stop, steps, slots, yielded);
        yielded, slots, steps := yielded + [s.value], slots + [Iter(Home(name.h, |data|), stop, |data|)],
          steps + [stop];
        ghost var n := stop + 1;
        s, ti, stop := NextIdentIter(ti, data, excluding, n);
        VisitSkips(data, name, excluding, n, stop, steps, slots, yielded);
      }
      VisitedAll(data, name, excluding, stop, steps, slots, yielded);
      VisitedMeans(data, name, excluding, stop, steps, slots, yielded);
    }
  }

  /** `slots` are the wanted slots among the first `stop` probe steps, in probe order. */
  ghost predicate VisitedSlots(data: seq<Option<Sym>>, name: Ident, excluding: set<int>, stop: nat,
                          steps: seq<nat>, slots: seq<nat>, yielded: seq<Sym>)
  {
    && |data| > 0 && |steps| == |slots| == |yielded|
    && (forall k | 0 <= k < |slots| ::
          && steps[k] < stop && slots[k] == Iter(Home(name.h, |data|), steps[k], |data|) < |data|
          && data[slots[k]] == Some(yielded[k]) && Wanted(yielded[k], name, excluding))
    && (forall k, l | 0 <= k < l < |slots| :: slots[k] != slots[l])
    && (forall k, l | 0 <= k < l < |steps| :: steps[k] < steps[l])
    && (forall m: nat | m < stop :: WantedAt(data, name, excluding, m) ==>
      Iter(Home(name.h, |data|), m, |data|) in slots)
  }

  /** The slots are those of ascending probe steps. */
  ghost predicate InProbeOrder(data: seq<Option<Sym>>, name: Ident, slots: seq<nat>, steps: seq<nat>) {
    && |steps| == |slots|
    && (forall k | 0 <= k < |slots| :: |data| > 0 && slots[k] == Iter(Home(name.h, |data|), steps[k], |data|))
    && forall k, l | 0 <= k < l < |steps| :: steps[k] < steps[l]
  }

  ghost predicate WantedAt(data: seq<Option<Sym>>, name: Ident, excluding: set<int>, m: nat)
    requires |data| > 0
  {
    var i := Iter(Home(name.h, |data|), m, |data|);
    i < |data| && data[i].Some? && Wanted(data[i].value, name, excluding)
  }

  lemma VisitStep(data: seq<Option<Sym>>, name: Ident, excluding: set<int>, stop: nat,
                  steps: seq<nat>, slots: seq<nat>, yielded: seq<Sym>)
    requires IsPow2(|data|) && stop < |data| && VisitedSlots(data, name, excluding, stop, steps, slots, yielded)
    requires WantedAt(data, name, excluding, stop)
    ensures var i := Iter(Home(name.h, |data|), stop, |data|);
      VisitedSlots(data, name, excluding, stop + 1, steps + [stop], slots + [i], yielded + [data[i].value])
  {
    var h0 := Home(name.h, |data|);
    var i := Iter(h0, stop, |data|);
    HomeInRange(name.h, |data|);
    forall k | 0 <= k < |slots| ensures slots[k] != i {
      if slots[k] == i {
        VisitsOnce(h0, steps[k], stop, |data|);
        assert false;
      }
    }
    var slots' := slots + [i];
    assert slots'[|slots|] == i;
    forall m: nat | m < stop + 1 && WantedAt(data, name, excluding, m) ensures Iter(h0, m, |data|) in slots' {
      if m < stop {
        var k :| 0 <= k < |slots| && slots[k] == Iter(h0, m, |data|);
        assert slots'[k] == slots[k];
      }
    }
  }

  /** At the free slot that ends the chain all wanted slots have been visited. */
  lemma VisitedAll(data: seq<Option<Sym>>, name: Ident, excluding: set<int>, stop: nat,
                   steps: seq<nat>, slots: seq<nat>, yielded: seq<Sym>)
    requires Chained(data, Hash) && stop < |data| && VisitedSlots(data, name, excluding, stop, steps, slots, yielded)
    requires forall s | s in Elems(data) && s.name.id == name.id :: s.name.h == name.h
    requires Iter(Home(name.h, |data|), stop, |data|) < |data|
    requires data[Iter(Home(name.h, |data|), stop, |data|)].None?
    ensures forall i: nat | i < |data| && data[i].Some? && Wanted(data[i].value, name, excluding) :: i in slots
  {
    HomeInRange(name.h, |data|);
    forall i: nat | i < |data| && data[i].Some? && Wanted(data[i].value, name, excluding) ensures i in slots {
      SlotIsElem(data, i);
      var m := FoundBeforeFree(data, Hash, i, Home(name.h, |data|), stop);
      assert WantedAt(data, name, excluding, m);
    }
  }

  lemma IterStarts(data: seq<Option<Sym>>, name: Ident, excluding: set<int>)
    requires Chained(data, Hash) && |Elems(data)| < |data|
    ensures IsPow2(|data|) && |data| > 0
    ensures AtStep(IdentIter(name.h, name), data, 0)
    ensures VisitedSlots(data, name, excluding, 0, [], [], [])
  {
    SearchStarts(data, name.h);
  }

  lemma StopWanted(data: seq<Option<Sym>>, name: Ident, excluding: set<int>, stop: nat)
    requires |data| > 0 && Iter(Home(name.h, |data|), stop, |data|) < |data|
    requires var s := data[Iter(Home(name.h, |data|), stop, |data|)]; s.Some? && Wanted(s.value, name, excluding)
    ensures WantedAt(data, name, excluding, stop)
  {
  }

  lemma VisitedMeans(data: seq<Option<Sym>>, name: Ident, excluding: set<int>, stop: nat,
                     steps: seq<nat>, slots: seq<nat>, yielded: seq<Sym>)
    requires VisitedSlots(data, name, excluding, stop, steps, slots, yielded)
    ensures |slots| == |yielded| && InProbeOrder(data, name, slots, steps)
    ensures forall k | 0 <= k < |slots| :: slots[k] < |data| && data[slots[k]] == Some(yielded[k])
    ensures forall k, l | 0 <= k < l < |slots| :: slots[k] != slots[l]
    ensures forall k | 0 <= k < |yielded| :: Wanted(yielded[k], name, excluding)
  {
  }

  lemma VisitSkips(data: seq<Option<Sym>>, name: Ident, excluding: set<int>, n: nat, stop: nat,
                   steps: seq<nat>, slots: seq<nat>, yielded: seq<Sym>)
    requires VisitedSlots(data, name, excluding, n, steps, slots, yielded) && n <= stop
    requires Run(data, Home(name.h, |data|), stop) && NoneBetween(data, name, excluding, n, stop)
    ensures VisitedSlots(data, name, excluding, stop, steps, slots, yielded)
  {
  }

  ghost predicate NoTwin(xs: seq<Sym>) {
    forall i, j | 0 <= i < j < |xs| :: xs[i] != xs[j]
  }

  /** `r` has the symbols of `xs`, and as often, unless `xs` repeats one. */
  ghost predicate Merged(r: seq<Sym>, xs: seq<Sym>) {
    && (forall s :: s in r <==> s in xs)
    && |r| <= |xs|
    && (NoTwin(xs) ==> multiset(r) == multiset(xs))
  }

  lemma MergedStep(r: seq<Sym>, xs: seq<Sym>, r': seq<Sym>, x: Sym)
    requires Merged(r, xs) && |r'| <= |r| + 1
    requires x in r ==> r' == r
    requires x !in r ==> multiset(r') == multiset(r) + multiset{x}
    ensures Merged(r', xs + [x])
  {
    var ys := xs + [x];
    assert ys[|xs|] == x;
    if x !in r {
      AddedElem(r, r', x);
    }
    if NoTwin(ys) {
      TwinAtEnd(xs, x);
      assert forall i, j | 0 <= i < j < |xs| :: xs[i] == ys[i] && xs[j] == ys[j];
    }
  }

  lemma TwinAtEnd(xs: seq<Sym>, x: Sym)
    requires NoTwin(xs + [x])
    ensures x !in xs
  {
    var ys := xs + [x];
    assert forall i | 0 <= i < |xs| :: ys[i] == xs[i] && ys[i] != ys[|xs|];
  }

  // ---------- symbols in more than one slot ----------

  lemma {:induction false} NoTwinIs(xs: seq<Sym>)
    ensures NoTwin(xs) <==> forall s :: multiset(xs)[s] <= 1
  {
    if xs != [] {
      var init, last := xs[..|xs| - 1], xs[|xs| - 1];
      assert xs == init + [last];
      NoTwinIs(init);
      NoTwinSnoc(init, last);
      assert last in init <==> last in multiset(init);
      if last in init {
        assert multiset(xs)[last] >= 2;
      } else if !NoTwin(init) {
        var s :| multiset(init)[s] > 1;
        assert multiset(xs)[s] > 1;
      }
    }
  }

  lemma NoTwinSnoc(init: seq<Sym>, last: Sym)
    ensures NoTwin(init + [last]) <==> NoTwin(init) && last !in init
  {
    var xs := init + [last];
    assert forall i | 0 <= i < |init| :: xs[i] == init[i];
    if NoTwin(xs) {
      TwinAtEnd(init, last);
    }
  }

  /** A symbol in two slots, counted in the multiset. */
  lemma {:induction false} TwoSlots(data: seq<Option<Sym>>, s: Sym)
    ensures multiset(Elems(data))[s] >= 2 <==>
      exists i: nat, j: nat :: i < j < |data| && data[i] == Some(s) && data[j] == Some(s)
  {
    if data != [] {
      var rest := data[1..];
      TwoSlots(rest, s);
      ElemsMember(rest, s);
      assert s in Elems(rest) <==> s in multiset(Elems(rest));
      if i: nat, j: nat :| i < j < |rest| && rest[i] == Some(s) && rest[j] == Some(s) {
        assert data[i + 1] == Some(s) && data[j + 1] == Some(s);
      } else if data[0] == Some(s) && s in Elems(rest) {
        var j: nat :| j < |rest| && rest[j] == Some(s);
        assert data[0] == Some(s) && data[j + 1] == Some(s);
      }
      if i: nat, j: nat :| i < j < |data| && data[i] == Some(s) && data[j] == Some(s) {
        assert rest[j - 1] == Some(s) && (i > 0 ==> rest[i - 1] == Some(s));
      }
    }
  }

  lemma MergedSingle(before: seq<Sym>, after: seq<Sym>, n: Sym)
    requires n in before ==> Merged(after, before)
    requires n !in before ==> Merged(after, before + [n])
    ensures NoTwin(before) ==> NoTwin(after)
  {
    if NoTwin(before) {
      NoTwinIs(before);
      NoTwinIs(before + [n]);
      NoTwinIs(after);
    }
  }

  lemma OverwrittenSingle(before: seq<Sym>, was: Sym, now: Sym, after: seq<Sym>)
    requires was in before && multiset(after) == multiset(before) - multiset{was} + multiset{now}
    ensures NoTwin(before) ==> (NoTwin(after) <==> now == was || now !in before)
  {
    NoTwinIs(before);
    NoTwinIs(after);
    assert now in before <==> now in multiset(before);
    if NoTwin(before) && now != was && now in before {
      assert multiset(after)[now] >= 2;
    }
  }

  /** Iteration goes by slots, so it repeats exactly the symbols that are in several. */
  lemma YieldedOnce(data: seq<Option<Sym>>, name: Ident, excluding: set<int>, slots: seq<nat>, yielded: seq<Sym>)
    requires |slots| == |yielded|
    requires forall k | 0 <= k < |slots| :: slots[k] < |data| && data[slots[k]] == Some(yielded[k])
    requires forall k, l | 0 <= k < l < |slots| :: slots[k] != slots[l]
    requires forall k | 0 <= k < |yielded| :: Wanted(yielded[k], name, excluding)
    requires forall i: nat | i < |data| && data[i].Some? && Wanted(data[i].value, name, excluding) :: i in slots
    ensures (forall k, l | 0 <= k < l < |yielded| :: yielded[k] != yielded[l]) <==>
      forall s | Wanted(s, name, excluding) :: multiset(Elems(data))[s] <= 1
  {
    hide Wanted, Elems;
    if k, l :| 0 <= k < l < |yielded| && yielded[k] == yielded[l] {
      TwoSlots(data, yielded[k]);
      TwoAt(data, slots[k], slots[l], yielded[k]);
    } else {
      forall s | Wanted(s, name, excluding) ensures multiset(Elems(data))[s] <= 1 {
        TwoSlots(data, s);
        if i: nat, j: nat :| i < j < |data| && data[i] == Some(s) && data[j] == Some(s) {
          YieldedTwice(data, slots, yielded, i, j);
          assert false;
        }
      }
    }
  }

  lemma YieldedTwice(data: seq<Option<Sym>>, slots: seq<nat>, yielded: seq<Sym>, i: nat, j: nat)
    requires |slots| == |yielded| && i < j < |data| && data[i] == data[j] && i in slots && j in slots
    requires forall k | 0 <= k < |slots| :: slots[k] < |data| && data[slots[k]] == Some(yielded[k])
    ensures exists k, l :: 0 <= k < l < |yielded| && yielded[k] == yielded[l]
  {
    var k :| 0 <= k < |slots| && slots[k] == i;
    var l :| 0 <= l < |slots| && slots[l] == j;
    assert data[slots[k]] == Some(yielded[k]) && data[slots[l]] == Some(yielded[l]);
    assert k < l || l < k;
  }

  lemma TwoAt(data: seq<Option<Sym>>, i: nat, j: nat, s: Sym)
    requires i != j && i < |data| && j < |data| && data[i] == Some(s) && data[j] == Some(s)
    ensures exists i: nat, j: nat :: i < j < |data| && data[i] == Some(s) && data[j] == Some(s)
  {
    var lo, hi := if i < j then i else j, if i < j then j else i;
    assert lo < hi && data[lo] == Some(s) && data[hi] == Some(s);
  }
}
