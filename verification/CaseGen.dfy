/** The generator of `case` code as the compiler runs it, writing line by line. */
module CaseGen {
  import opened Basics
  import opened Probe
  import opened CaseCode
  import opened CaseProof

  const STRING_CASE_THRESHOLD := 8

  function CountStrings(bs: seq<Branch>): nat {
    if bs == [] then 0
    else CountStrings(bs[..|bs| - 1]) + if bs[|bs| - 1].Of? then |bs[|bs| - 1].lits| else 0
  }

  lemma {:induction false} CountIsPairs(bs: seq<Branch>)
    ensures CountStrings(bs) == |Pairs(bs, 0)|
  {
    if bs != [] {
      CountIsPairs(bs[..|bs| - 1]);
    }
  }

  /** `nextPowerOfTwo`: the smallest power of two that is large enough. */
  method NextPowerOfTwo(n: nat) returns (r: nat)
    ensures IsPow2(r) && r >= n && r >= 1
    ensures r > 1 ==> r < 2 * n
  {
    r := 1;
    ghost var k: nat := 0;
    assert Pow2(0) == 1;
    while r < n
      invariant r == Pow2(k) && r >= 1 && (r > 1 ==> r < 2 * n)
    {
      r := 2 * r;
      k := k + 1;
    }
  }

  /** The number of buckets: room for all strings, and less than twice as many. */
  ghost predicate HashSize(size: nat, strings: nat) {
    size > 0 && IsPow2(size) && size >= strings && (size > 1 ==> size < 2 * strings)
  }

  class BProc {
    var labels: nat
    var code: Code

    constructor ()
      ensures labels == 0 && code == []
    {
      labels := 0;
      code := [];
    }

    method GenCaseGenericBranch(lits: seq<Lit>, labl: nat)
      modifies `code
      ensures code == old(code) + TestsOf(lits, labl)
    {
      for i := 0 to |lits|
        invariant code == old(code) + TestsOf(lits[..i], labl)
      {
        assert lits[..i + 1][..i] == lits[..i];
        code := code + [IfGoto(lits[i], labl)];
      }
      assert lits[..|lits|] == lits;
    }

    method GenCaseSecondPass(bs: seq<Branch>, labId: nat, until: nat) returns (lend: nat)
      requires until <= |bs|
      modifies this
      ensures labels == old(labels) + 1 == lend
      ensures code == old(code) + Bodies(bs[..until], labId, lend)
    {
      labels := labels + 1;
      lend := labels;
      for i := 0 to until
        invariant labels == lend && code == old(code) + Bodies(bs[..i], labId, lend)
      {
        assert bs[..i + 1][..i] == bs[..i];
        code := code + [Label(labId + i + 1)];
        code := code + [Body(i)];
        if bs[i].Of? {
          code := code + [Goto(lend)];
        }
      }
    }

    /** The first pass. */
    method GenTests(bs: seq<Branch>, until: nat)
      requires until <= |bs|
      modifies this
      ensures labels == old(labels) + until && code == old(code) + Tests(bs[..until], old(labels))
    {
      hide TestsOf;
      var labId := labels;
      for i := 0 to until
        invariant labels == labId + i && code == old(code) + Tests(bs[..i], labId)
      {
        assert bs[..i + 1][..i] == bs[..i];
        labels := labels + 1;
        if bs[i].Of? {
          GenCaseGenericBranch(bs[i].lits, labels);
        } else {
          code := code + [Goto(labels)];
        }
      }
    }

    method GenIfForCaseUntil(bs: seq<Branch>, until: nat) returns (lend: nat)
      requires until <= |bs|
      modifies this
      ensures code == old(code) + IfPart(bs, until, old(labels))
      ensures lend == EndLabel(bs, until, old(labels)) == labels
    {
      hide Bodies, Tests;
      var labId := labels;
      GenTests(bs, until);
      if until < |bs| {
        labels := labels + 1;
        var gotoTarget := labels;
        code := code + [Goto(gotoTarget)];
        lend := GenCaseSecondPass(bs, labId, until);
        code := code + [Label(gotoTarget)];
      } else {
        assert bs[..until] == bs;
        lend := GenCaseSecondPass(bs, labId, until);
      }
    }

    method GenCaseGeneric(bs: seq<Branch>)
      modifies this
      ensures code == old(code) + GenericCode(bs, old(labels))
    {
      var lend := GenIfForCaseUntil(bs, |bs|);
      code := code + [Label(lend)];
    }

    /** Each string of the branch is tested under the switch label of its hash. */
    method GenCaseStringBranch(b: Branch, labl: nat, hash: string -> int, branches: seq<seq<(Lit, nat)>>,
                               ghost before: seq<(Lit, nat)>)
      returns (r: seq<seq<(Lit, nat)>>)
      requires b.Of? && |branches| > 0 && IsPow2(|branches|)
      requires forall i | 0 <= i < |b.lits| :: StringLit(b.lits[i])
      requires forall j | 0 <= j < |branches| :: branches[j] == Bucket(before, hash, |branches| - 1, j)
      ensures |r| == |branches|
      ensures forall j | 0 <= j < |r| :: r[j] == Bucket(before + PairsOf(b.lits, labl), hash, |r| - 1, j)
    {
      hide BitAnd;
      r := branches;
      assert before + PairsOf(b.lits[..0], labl) == before;
      for i := 0 to |b.lits|
        invariant |r| == |branches|
        invariant forall j | 0 <= j < |r| :: r[j] == Bucket(before + PairsOf(b.lits[..i], labl), hash, |r| - 1, j)
      {
        var h := hash(b.lits[i].v.s);
        MaskInRange(h, |r|);
        var j := BitAnd(h, |r| - 1);
        ghost var done := before + PairsOf(b.lits[..i], labl);
        assert before + PairsOf(b.lits[..i + 1], labl) == done + [(b.lits[i], labl)];
        var mask := |r| - 1;
        forall j' | 0 <= j' < |r|
          ensures Bucket(done + [(b.lits[i], labl)], hash, mask, j') ==
            Bucket(done, hash, mask, j') + OneIn((b.lits[i], labl), hash, mask, j')
        {
          BucketSnoc(done, (b.lits[i], labl), hash, mask, j');
        }
        r := r[j := r[j] + [(b.lits[i], labl)]];
      }
      assert b.lits[..|b.lits|] == b.lits;
    }

    method GenStringCase(bs: seq<Branch>, hash: string -> int)
      requires StringCase(bs)
      modifies this
      ensures var strings := |Pairs(bs, 0)|;
        if strings > 8 then
          exists size :: HashSize(size, strings) && code == old(code) + StringCode(bs, size, old(labels), hash)
        else code == old(code) + GenericCode(bs, old(labels))
    {
      CountIsPairs(bs);
      var strings := 0;
      for i := 0 to |bs|
        invariant strings == CountStrings(bs[..i])
      {
        assert bs[..i + 1][..i] == bs[..i];
        if bs[i].Of? {
          strings := strings + |bs[i].lits|;
        }
      }
      assert bs[..|bs|] == bs;
      if strings > STRING_CASE_THRESHOLD {
        GenHashCase(bs, hash, strings);
      } else {
        GenCaseGeneric(bs);
      }
    }

    method GenHashCase(bs: seq<Branch>, hash: string -> int, strings: nat)
      requires StringCase(bs)
      modifies this
      ensures exists size :: HashSize(size, strings) && code == old(code) + StringCode(bs, size, old(labels), hash)
    {
      hide Bodies, Bucket, IsPow2;
      var size := NextPowerOfTwo(strings);
      var branches: seq<seq<(Lit, nat)>> := seq(size, _ => []);
      var labId := labels;
      EmptyBuckets(hash, size - 1);
      for i := 0 to |bs|
        invariant labels == labId + i && |branches| == size && code == old(code)
        invariant forall j | 0 <= j < size :: branches[j] == Bucket(Pairs(bs[..i], labId), hash, size - 1, j)
      {
        assert bs[..i + 1][..i] == bs[..i];
        labels := labels + 1;
        if bs[i].Of? {
          branches := GenCaseStringBranch(bs[i], labels, hash, branches, Pairs(bs[..i], labId));
        } else {
          assert Pairs(bs[..i + 1], labId) == Pairs(bs[..i], labId);
        }
      }
      hide Pairs;
      assert bs[..|bs|] == bs;
      code := code + [HashSwitch(branches)];
      assert branches == seq(size, j requires 0 <= j < size => Bucket(Pairs(bs, labId), hash, size - 1, j));
      if bs != [] && bs[|bs| - 1].Else? {
        code := code + [Goto(labels)];
      }
      var lend := GenCaseSecondPass(bs, labId, |bs|);
      code := code + [Label(lend)];
      assert HashSize(size, strings) && code == old(code) + StringCode(bs, size, labId, hash);
    }

    method BranchHasTooBigRange(b: Branch) returns (r: bool)
      requires b.Of?
      ensures r <==> HasTooBig(b)
      ensures r <==> exists l :: l in b.lits && Wide(l)
    {
      assert forall l :: TooBig(l) <==> Wide(l);
      for i := 0 to |b.lits|
        invariant forall j | 0 <= j < i :: !TooBig(b.lits[j])
      {
        var it := b.lits[i];
        if it.Range? && it.lo.Ord? && it.hi.Ord? && it.hi.n - it.lo.n > RANGE_EXPAND_LIMIT {
          assert TooBig(b.lits[i]);
          return true;
        }
      }
      return false;
    }

    method IfSwitchSplitPoint(bs: seq<Branch>, ranges: bool) returns (result: nat)
      ensures result == SplitPoint(bs, ranges)
      ensures SplitsAt(bs, ranges, result)
    {
      result := 0;
      for i := 0 to |bs|
        invariant result == SplitPoint(bs[..i], ranges)
      {
        assert bs[..i + 1][..i] == bs[..i];
        if bs[i].linear {
          result := i + 1;
        } else if !ranges && bs[i].Of? {
          var big := BranchHasTooBigRange(bs[i]);
          if big {
            result := i + 1;
          }
        }
      }
      assert bs[..|bs|] == bs;
      SplitPointMeans(bs, ranges);
    }

    /** One label for every value of a range. */
    method GenRange(lo: int, hi: int) returns (r: seq<Lit>)
      ensures r == Ones(lo, hi)
    {
      r := [];
      var v := lo;
      while v <= hi
        invariant v <= hi + 1 || v == lo
        invariant r == Ones(lo, v - 1)
      {
        r := r + [One(Ord(v))];
        v := v + 1;
      }
    }

    /** The `case` labels of one branch. */
    method GenCaseRange(lits: seq<Lit>, ranges: bool) returns (r: seq<Lit>)
      ensures r == Expand(lits, ranges)
      ensures ranges ==> r == lits
      ensures !ranges ==> forall l | l in r :: !(l.Range? && l.lo.Ord? && l.hi.Ord?)
    {
      if ranges {
        LabelsAsWritten(lits);
      }
      hide Ones;
      r := [];
      for j := 0 to |lits|
        invariant r == Expand(lits[..j], ranges)
      {
        assert lits[..j + 1][..j] == lits[..j];
        var l := lits[j];
        if l.Range? && !ranges && l.lo.Ord? && l.hi.Ord? {
          var ones := GenRange(l.lo.n, l.hi.n);
          r := r + ones;
        } else {
          r := r + [l];
        }
      }
      assert lits[..|lits|] == lits;
      forall l | l in r && !ranges ensures !(l.Range? && l.lo.Ord? && l.hi.Ord?) {
        NoRangeLeft(lits, l);
      }
    }

    method GenOrdinalCase(bs: seq<Branch>, ranges: bool)
      modifies this
      ensures code == old(code) + OrdinalCode(bs, SplitPoint(bs, ranges), old(labels), ranges)
    {
      hide IfPart, Expand, SplitPoint;
      var splitPoint := IfSwitchSplitPoint(bs, ranges);
      var lend := 0;
      if splitPoint > 0 {
        lend := GenIfForCaseUntil(bs, splitPoint);
      }
      ghost var a := if splitPoint > 0 then IfPart(bs, splitPoint, old(labels)) else [];
      ghost var b := if splitPoint < |bs| then [Switch(Arms(bs, splitPoint, |bs|, ranges))] else [];
      assert code == old(code) + a;
      if splitPoint < |bs| {
        var arms: seq<Arm> := [];
        for i := splitPoint to |bs|
          invariant arms == Arms(bs, splitPoint, i, ranges) && code == old(code) + a
        {
          if bs[i].Of? {
            var labs := GenCaseRange(bs[i].lits, ranges);
            arms := arms + [Arm(labs, i)];
          } else {
            arms := arms + [Default(i)];
          }
        }
        code := code + [Switch(arms)];
      }
      assert code == old(code) + a + b;
      if splitPoint > 0 {
        code := code + [Label(lend)];
      }
      ghost var c := if splitPoint > 0 then [Label(lend)] else [];
      assert code == old(code) + a + b + c;
      assert old(code) + a + b + c == old(code) + (a + b + c);
    }
  }

  function OneIn(q: (Lit, nat), hash: string -> int, mask: nat, j: nat): seq<(Lit, nat)> {
    if BucketFor(hash, q.0, mask) == j then [q] else []
  }

  lemma BucketUnfold(ps: seq<(Lit, nat)>, hash: string -> int, mask: nat, j: nat)
    ensures Bucket(ps, hash, mask, j) ==
      if ps == [] then [] else OneIn(ps[0], hash, mask, j) + Bucket(ps[1..], hash, mask, j)
  {
  }

  lemma {:induction false} BucketSnoc(ps: seq<(Lit, nat)>, q: (Lit, nat), hash: string -> int, mask: nat, j: nat)
    ensures Bucket(ps + [q], hash, mask, j) == Bucket(ps, hash, mask, j) + OneIn(q, hash, mask, j)
  {
    hide Bucket, OneIn;
    BucketUnfold(ps, hash, mask, j);
    BucketUnfold(ps + [q], hash, mask, j);
    if ps == [] {
      assert ps + [q] == [q] && [q][1..] == [];
      BucketUnfold([], hash, mask, j);
      assert OneIn(q, hash, mask, j) + [] == [] + OneIn(q, hash, mask, j);
    } else {
      assert (ps + [q])[0] == ps[0] && (ps + [q])[1..] == ps[1..] + [q];
      BucketSnoc(ps[1..], q, hash, mask, j);
      var a, b, c := OneIn(ps[0], hash, mask, j), Bucket(ps[1..], hash, mask, j), OneIn(q, hash, mask, j);
      assert a + (b + c) == (a + b) + c;
    }
  }

  lemma EmptyBuckets(hash: string -> int, mask: nat)
    ensures forall j: nat :: Bucket([], hash, mask, j) == []
  {
  }
}
