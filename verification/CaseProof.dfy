/** The generated `case` code runs the body of the first matching branch, once, and nothing else. */
module CaseProof {
  import opened Basics
  import opened Probe
  import opened CaseCode

  lemma {:induction false} FindIs(p: Code, l: nat, i: nat)
    requires i < |p| && p[i] == Label(l) && forall j | 0 <= j < i :: p[j] != Label(l)
    ensures Find(p, l) == i
  {
    if i > 0 {
      assert p[0] != Label(l);
      assert forall j | 0 <= j < i - 1 :: p[1..][j] == p[j + 1];
      FindIs(p[1..], l, i - 1);
    }
  }

  lemma SelectSnoc(bs: seq<Branch>, x: Value)
    requires bs != []
    ensures var last := |bs| - 1;
      Select(bs, x) ==
        if Select(bs[..last], x).Some? then Select(bs[..last], x)
        else if Chosen(bs[last], x) then Some(last) else None
  {
    hide Select, Chosen;
    var last := |bs| - 1;
    var r := Select(bs[..last], x);
    SelectIs(bs[..last], x);
    SelectIs(bs, x);
    assert forall j | 0 <= j < last :: bs[..last][j] == bs[j];
    if r.Some? {
      SelectUnique(bs, x, r.value);
    } else if Chosen(bs[last], x) {
      SelectUnique(bs, x, last);
    }
  }

  // ---------- first pass ----------

  lemma ChosenSnoc(lits: seq<Lit>, x: Value)
    requires lits != []
    ensures var last := |lits| - 1;
      Chosen(Of(lits, false), x) <==> Chosen(Of(lits[..last], false), x) || Matches(lits[last], x)
  {
    var last := |lits| - 1;
    if i :| 0 <= i < last && Matches(lits[..last][i], x) {
      assert Matches(lits[i], x);
    }
    assert forall i | 0 <= i < last :: lits[..last][i] == lits[i];
  }

  lemma TestsOfSnoc(lits: seq<Lit>, lab: nat)
    requires lits != []
    ensures TestsOf(lits, lab) == TestsOf(lits[..|lits| - 1], lab) + [IfGoto(lits[|lits| - 1], lab)]
  {
  }

  /** The next line is a test. */
  lemma RunTest(p: Code, hash: string -> int, x: Value, s: State, pc: nat, l: Lit, lab: nat, ran: seq<nat>, k: nat)
    requires At(p, pc, [IfGoto(l, lab)]) && Run(p, hash, x, s, k) == State(pc, ran)
    ensures Run(p, hash, x, s, k + 1) == if Matches(l, x) then State(Find(p, lab), ran) else State(pc + 1, ran)
  {
    hide Find, Run, Matches, At, Holds;
    HoldsIsMatches(l, x);
    AtLine(p, pc, [IfGoto(l, lab)], 0);
    RunOne(p, hash, x, State(pc, ran));
    RunAdd(p, hash, x, s, k, 1);
  }

  lemma {:induction false} RunLits(p: Code, hash: string -> int, x: Value, pc: nat, lits: seq<Lit>, lab: nat,
                                   ran: seq<nat>) returns (k: nat)
    requires At(p, pc, TestsOf(lits, lab))
    ensures Run(p, hash, x, State(pc, ran), k) ==
      if Chosen(Of(lits, false), x) then State(Find(p, lab), ran) else State(pc + |lits|, ran)
  {
    if lits == [] {
      k := 0;
    } else {
      hide Find, Run, Chosen, Matches, At;
      var last := |lits| - 1;
      TestsOfSnoc(lits, lab);
      hide TestsOf;
      AtSplit(p, pc, TestsOf(lits[..last], lab), [IfGoto(lits[last], lab)]);
      var k0 := RunLits(p, hash, x, pc, lits[..last], lab, ran);
      ChosenSnoc(lits, x);
      if Chosen(Of(lits[..last], false), x) {
        k := k0;
      } else {
        RunTest(p, hash, x, State(pc, ran), pc + last, lits[last], lab, ran, k0);
        k := k0 + 1;
      }
    }
  }

  function TestsFor(b: Branch, lab: nat): Code {
    if b.Of? then TestsOf(b.lits, lab) else [Goto(lab)]
  }

  lemma TestsSnoc(bs: seq<Branch>, lab0: nat)
    requires bs != []
    ensures var last := |bs| - 1; Tests(bs, lab0) == Tests(bs[..last], lab0) + TestsFor(bs[last], lab0 + last + 1)
  {
  }

  lemma RunTestsFor(p: Code, hash: string -> int, x: Value, pc: nat, b: Branch, lab: nat, ran: seq<nat>)
    returns (k: nat)
    requires At(p, pc, TestsFor(b, lab))
    ensures Run(p, hash, x, State(pc, ran), k) ==
      if Chosen(b, x) then State(Find(p, lab), ran) else State(pc + |TestsFor(b, lab)|, ran)
  {
    hide Find, Run;
    if b.Of? {
      k := RunLits(p, hash, x, pc, b.lits, lab, ran);
    } else {
      AtLine(p, pc, [Goto(lab)], 0);
      RunOne(p, hash, x, State(pc, ran));
      k := 1;
    }
  }

  lemma {:induction false} RunTests(p: Code, hash: string -> int, x: Value, bs: seq<Branch>, lab0: nat) returns (k: nat)
    requires At(p, 0, Tests(bs, lab0))
    ensures Run(p, hash, x, State(0, []), k) ==
      if Select(bs, x).Some? then State(Find(p, lab0 + Select(bs, x).value + 1), []) else State(|Tests(bs, lab0)|, [])
    decreases bs
  {
    if bs == [] {
      k := 0;
      assert Run(p, hash, x, State(0, []), 0) == State(0, []);
    } else {
      k := MoreTests(p, hash, x, bs, lab0);
    }
  }

  lemma {:induction false} MoreTests(p: Code, hash: string -> int, x: Value, bs: seq<Branch>, lab0: nat)
    returns (k: nat)
    requires bs != [] && At(p, 0, Tests(bs, lab0))
    ensures Run(p, hash, x, State(0, []), k) ==
      if Select(bs, x).Some? then State(Find(p, lab0 + Select(bs, x).value + 1), []) else State(|Tests(bs, lab0)|, [])
    decreases bs, 0
  {
    hide Find, Run, Select, Tests, TestsFor, Chosen, At;
    var last := |bs| - 1;
    var ts := TestsFor(bs[last], lab0 + last + 1);
    TestsSnoc(bs, lab0);
    AtSplit(p, 0, Tests(bs[..last], lab0), ts);
    var k0 := RunTests(p, hash, x, bs[..last], lab0);
    SelectSnoc(bs, x);
    if Select(bs[..last], x).Some? {
      k := k0;
    } else {
      var k1 := RunTestsFor(p, hash, x, |Tests(bs[..last], lab0)|, bs[last], lab0 + last + 1, []);
      RunAdd(p, hash, x, State(0, []), k0, k1);
      k := k0 + k1;
    }
  }

  // ---------- second pass ----------

  /** What the lines of the second pass are. */
  lemma {:induction false} BodiesAre(bs: seq<Branch>, lab0: nat, lend: nat)
    requires WellFormed(bs)
    ensures var c := Bodies(bs, lab0, lend);
      && |c| == 3 * |bs| - (if bs != [] && bs[|bs| - 1].Else? then 1 else 0)
      && (forall j | 0 <= j < |bs| :: BodyAt(c, bs, lab0, lend, j))
      && forall i | 0 <= i < |c| && c[i].Label? :: exists j: nat :: j < |bs| && i == 3 * j && c[i].id == lab0 + j + 1
  {
    if bs != [] {
      var last := |bs| - 1;
      var c, c0 := Bodies(bs, lab0, lend), Bodies(bs[..last], lab0, lend);
      BodiesAre(bs[..last], lab0, lend);
      forall j | 0 <= j < |bs| ensures BodyAt(c, bs, lab0, lend, j) {
        if j < last {
          assert BodyAt(c0, bs[..last], lab0, lend, j);
          assert c[3 * j] == c0[3 * j] && c[3 * j + 1] == c0[3 * j + 1] && c[3 * j + 2] == c0[3 * j + 2];
        }
      }
      forall i | 0 <= i < |c| && c[i].Label? ensures exists j: nat ::
        j < |bs| && i == 3 * j && c[i].id == lab0 + j + 1 {
        if i < |c0| {
          assert c0[i] == c[i];
          var j: nat :| j < last && i == 3 * j && c0[i].id == lab0 + j + 1;
          assert j < |bs|;
        } else {
          assert i == 3 * last;
        }
      }
    }
  }

  ghost predicate BodyAt(c: Code, bs: seq<Branch>, lab0: nat, lend: nat, j: int)
    requires 0 <= j < |bs|
  {
    && 3 * j + 1 < |c| && c[3 * j] == Label(lab0 + j + 1) && c[3 * j + 1] == Body(j)
    && (bs[j].Of? ==> 3 * j + 2 < |c| && c[3 * j + 2] == Goto(lend))
  }

  ghost predicate NoLabels(c: Code) {
    forall i | 0 <= i < |c| :: !c[i].Label?
  }

  lemma {:induction false} TestsNoLabels(bs: seq<Branch>, lab0: nat)
    ensures NoLabels(Tests(bs, lab0))
  {
    if bs != [] {
      TestsNoLabels(bs[..|bs| - 1], lab0);
    }
  }

  /** The program around the second pass: nothing before it has a label, the labels after it are new. */
  ghost predicate Around(p: Code, pre: Code, bs: seq<Branch>, lab0: nat, lend: nat, post: Code) {
    && WellFormed(bs) && NoLabels(pre) && lend > lab0 + |bs|
    && p == pre + Bodies(bs, lab0, lend) + post
  }

  lemma FindBody(p: Code, pre: Code, bs: seq<Branch>, lab0: nat, lend: nat, post: Code, j: nat)
    requires Around(p, pre, bs, lab0, lend, post) && j < |bs|
    ensures Find(p, lab0 + j + 1) == |pre| + 3 * j
    ensures At(p, |pre|, Bodies(bs, lab0, lend)) && BodyAt(Bodies(bs, lab0, lend), bs, lab0, lend, j)
  {
    var c := Bodies(bs, lab0, lend);
    BodiesAre(bs, lab0, lend);
    assert BodyAt(c, bs, lab0, lend, j);
    var at := |pre| + 3 * j;
    assert p[at] == c[3 * j];
    forall i | 0 <= i < at ensures p[i] != Label(lab0 + j + 1) {
      if i >= |pre| {
        assert p[i] == c[i - |pre|];
      } else {
        assert p[i] == pre[i];
      }
    }
    FindIs(p, lab0 + j + 1, at);
  }

  /** A label behind the second pass. */
  lemma FindBehind(p: Code, pre: Code, bs: seq<Branch>, lab0: nat, lend: nat, post: Code, l: nat, i: nat)
    requires Around(p, pre, bs, lab0, lend, post) && l > lab0 + |bs|
    requires i < |post| && post[i] == Label(l) && forall j | 0 <= j < i :: post[j] != Label(l)
    ensures Find(p, l) == |pre| + |Bodies(bs, lab0, lend)| + i
  {
    var c := Bodies(bs, lab0, lend);
    BodiesAre(bs, lab0, lend);
    var at := |pre| + |c| + i;
    forall j | 0 <= j < at ensures p[j] != Label(l) {
      if j >= |pre| + |c| {
        assert p[j] == post[j - |pre| - |c|];
      } else if j >= |pre| {
        assert p[j] == c[j - |pre|];
      } else {
        assert p[j] == pre[j];
      }
    }
    FindIs(p, l, at);
  }

  /** From its label a body runs and control goes to the end label; an `else` body falls out of the second pass. */
  lemma RunBody(p: Code, hash: string -> int, x: Value, pre: Code, bs: seq<Branch>, lab0: nat, lend: nat, post: Code,
                j: nat) returns (k: nat)
    requires Around(p, pre, bs, lab0, lend, post) && j < |bs|
    ensures Run(p, hash, x, State(Find(p, lab0 + j + 1), []), k) ==
      State(if bs[j].Of? then Find(p, lend) else |pre| + |Bodies(bs, lab0, lend)|, [j])
  {
    hide Find, Run, Bodies;
    var c := Bodies(bs, lab0, lend);
    FindBody(p, pre, bs, lab0, lend, post, j);
    BodiesAre(bs, lab0, lend);
    hide Around;
    var s := State(|pre| + 3 * j, []);
    AtLine(p, |pre|, c, 3 * j);
    AtLine(p, |pre|, c, 3 * j + 1);
    RunOne(p, hash, x, s);
    RunOne(p, hash, x, State(s.pc + 1, []));
    RunAdd(p, hash, x, s, 1, 1);
    assert [] + [j] == [j];
    if bs[j].Of? {
      AtLine(p, |pre|, c, 3 * j + 2);
      RunOne(p, hash, x, State(s.pc + 2, [j]));
      RunAdd(p, hash, x, s, 2, 1);
      k := 3;
    } else {
      k := 2;
    }
  }

  // ---------- the chain ----------

  /** The plain chain of tests, for floats, few strings and marked ordinals. */
  lemma GenericRuns(bs: seq<Branch>, lab0: nat, hash: string -> int, x: Value)
    requires WellFormed(bs) && Select(bs, x).Some?
    ensures RunsOnly(GenericCode(bs, lab0), hash, x, Select(bs, x).value)
  {
    hide Find, Run, Bodies, Tests, Select, NoLabels;
    var p := GenericCode(bs, lab0);
    var lend := EndLabel(bs, |bs|, lab0);
    var pre, post := Tests(bs, lab0), [Label(lend)];
    SelectIs(bs, x);
    var j := Select(bs, x).value;
    TestsNoLabels(bs, lab0);
    assert Around(p, pre, bs, lab0, lend, post);
    assert At(p, 0, pre);
    FindBehind(p, pre, bs, lab0, lend, post, lend, 0);
    var k1 := RunTests(p, hash, x, bs, lab0);
    var k2 := RunBody(p, hash, x, pre, bs, lab0, lend, post, j);
    RunAdd(p, hash, x, State(0, []), k1, k2);
    LastLabel(p, hash, x, [j]);
    RunAdd(p, hash, x, State(0, []), k1 + k2, 1);
  }

  lemma LastLabel(p: Code, hash: string -> int, x: Value, ran: seq<nat>)
    requires p != [] && p[|p| - 1].Label?
    ensures Run(p, hash, x, State(|p| - 1, ran), 1) == State(|p|, ran)
  {
    RunOne(p, hash, x, State(|p| - 1, ran));
  }

  // ---------- strings by hash ----------

  lemma {:induction false} FirstTestConcat(a: seq<(Lit, nat)>, b: seq<(Lit, nat)>, x: Value)
    ensures FirstTest(a + b, x) == if FirstTest(a, x).Some? then FirstTest(a, x) else FirstTest(b, x)
  {
    if a == [] {
      assert a + b == b;
    } else {
      assert (a + b)[0] == a[0] && (a + b)[1..] == a[1..] + b;
      FirstTestConcat(a[1..], b, x);
    }
  }

  /** Nothing is lost by looking into one bucket only: equal strings have equal hashes. */
  lemma {:induction false} BucketSuffices(ps: seq<(Lit, nat)>, hash: string -> int, mask: nat, x: Value)
    requires x.Str? && forall i | 0 <= i < |ps| :: StringLit(ps[i].0)
    ensures FirstTest(Bucket(ps, hash, mask, BitAnd(hash(x.s), mask)), x) == FirstTest(ps, x)
  {
    if ps != [] {
      BucketSuffices(ps[1..], hash, mask, x);
      var j := BitAnd(hash(x.s), mask);
      var rest := Bucket(ps[1..], hash, mask, j);
      if BucketFor(hash, ps[0].0, mask) == j {
        assert ([ps[0]] + rest)[0] == ps[0] && ([ps[0]] + rest)[1..] == rest;
      } else {
        assert !Matches(ps[0].0, x);
        assert [] + rest == rest;
      }
    }
  }

  lemma {:induction false} FirstPair(lits: seq<Lit>, lab: nat, x: Value)
    ensures FirstTest(PairsOf(lits, lab), x) == if Chosen(Of(lits, false), x) then Some(lab) else None
  {
    if lits == [] {
    } else {
      var last := |lits| - 1;
      FirstPair(lits[..last], lab, x);
      assert PairsOf(lits, lab) == PairsOf(lits[..last], lab) + [(lits[last], lab)];
      FirstTestConcat(PairsOf(lits[..last], lab), [(lits[last], lab)], x);
      ChosenSnoc(lits, x);
      assert [(lits[last], lab)][1..] == [];
    }
  }

  lemma {:induction false} PairsSelect(bs: seq<Branch>, lab0: nat, x: Value)
    requires WellFormed(bs)
    ensures FirstTest(Pairs(bs, lab0), x) ==
      if Select(bs, x).Some? && Select(bs, x).value < |bs|
        && bs[Select(bs, x).value].Of? then Some(lab0 + Select(bs, x).value + 1) else None
  {
    if bs != [] {
      PairsSelect(bs[..|bs| - 1], lab0, x);
      PairsStep(bs, lab0, x);
    } else {
      assert Pairs(bs, lab0) == [];
    }
  }

  lemma PairsSnoc(bs: seq<Branch>, lab0: nat)
    requires bs != []
    ensures var last := |bs| - 1;
      Pairs(bs, lab0) == Pairs(bs[..last], lab0) +
        (if bs[last].Of? then PairsOf(bs[last].lits, lab0 + last + 1) else [])
  {
  }

  lemma PairsStep(bs: seq<Branch>, lab0: nat, x: Value)
    requires WellFormed(bs) && bs != []
    requires var init := bs[..|bs| - 1];
      FirstTest(Pairs(init, lab0), x) ==
        if Select(init, x).Some? && Select(init, x).value < |init|
          && init[Select(init, x).value].Of? then Some(lab0 + Select(init, x).value + 1) else None
    ensures FirstTest(Pairs(bs, lab0), x) ==
      if Select(bs, x).Some? && Select(bs, x).value < |bs|
        && bs[Select(bs, x).value].Of? then Some(lab0 + Select(bs, x).value + 1) else None
  {
    hide Select, Chosen, FirstTest, Pairs;
    var last := |bs| - 1;
    PairsSnoc(bs, lab0);
    SelectSnoc(bs, x);
    SelectIs(bs[..last], x);
    ChosenSame(bs[last], x);
    if bs[last].Of? {
      FirstPair(bs[last].lits, lab0 + last + 1, x);
      FirstTestConcat(Pairs(bs[..last], lab0), PairsOf(bs[last].lits, lab0 + last + 1), x);
    } else {
      assert Pairs(bs[..last], lab0) + [] == Pairs(bs[..last], lab0);
    }
  }

  lemma ChosenSame(b: Branch, x: Value)
    ensures b.Of? ==> (Chosen(b, x) <==> Chosen(Of(b.lits, false), x))
    ensures b.Else? ==> Chosen(b, x)
  {
  }

  lemma {:induction false} PairsAreStrings(bs: seq<Branch>, lab0: nat)
    requires StringCase(bs)
    ensures forall i | 0 <= i < |Pairs(bs, lab0)| :: StringLit(Pairs(bs, lab0)[i].0)
  {
    if bs != [] {
      PairsAreStrings(bs[..|bs| - 1], lab0);
    }
  }

  lemma MaskInRange(h: int, size: nat)
    requires IsPow2(size) && size > 0
    ensures BitAnd(h, size - 1) < size
  {
    var k: nat :| size == Pow2(k);
    MaskIsMod(h, k);
  }

  /** The hash switch chooses like the linear scan. */
  lemma StringRuns(bs: seq<Branch>, size: nat, lab0: nat, hash: string -> int, x: Value)
    requires WellFormed(bs) && StringCase(bs) && IsPow2(size) && size > 0 && x.Str? && Select(bs, x).Some?
    ensures RunsOnly(StringCode(bs, size, lab0, hash), hash, x, Select(bs, x).value)
  {
    hide Find, Run, Bodies, Select, Pairs, Bucket, FirstTest, NoLabels;
    var p := StringCode(bs, size, lab0, hash);
    var lend := lab0 + |bs| + 1;
    var buckets := seq(size, j requires 0 <= j < size => Bucket(Pairs(bs, lab0), hash, size - 1, j));
    var pre := [HashSwitch(buckets)] + (if bs != [] && bs[|bs| - 1].Else? then [Goto(lab0 + |bs|)] else []);
    var post := [Label(lend)];
    SelectIs(bs, x);
    var i := Select(bs, x).value;
    NoLabelsFew(pre);
    assert Around(p, pre, bs, lab0, lend, post);
    FindBehind(p, pre, bs, lab0, lend, post, lend, 0);
    PairsAreStrings(bs, lab0);
    MaskInRange(hash(x.s), size);
    BucketSuffices(Pairs(bs, lab0), hash, size - 1, x);
    PairsSelect(bs, lab0, x);
    var k1 := HashStep(p, hash, x, buckets, bs, lab0, i);
    var k2 := RunBody(p, hash, x, pre, bs, lab0, lend, post, i);
    RunAdd(p, hash, x, State(0, []), k1, k2);
    LastLabel(p, hash, x, [i]);
    RunAdd(p, hash, x, State(0, []), k1 + k2, 1);
  }

  lemma NoLabelsFew(c: Code)
    requires forall i | 0 <= i < |c| :: !c[i].Label?
    ensures NoLabels(c)
  {
  }

  /** From the switch to the label of the branch. */
  lemma HashStep(p: Code, hash: string -> int, x: Value, buckets: seq<seq<(Lit, nat)>>, bs: seq<Branch>, lab0: nat,
                 i: nat) returns (k: nat)
    requires |p| > 1 && p[0] == HashSwitch(buckets) && x.Str? && |buckets| > 0 && i < |bs|
    requires bs[i].Else? ==> i == |bs| - 1 && p[1] == Goto(lab0 + |bs|)
    requires var j := BitAnd(hash(x.s), |buckets| - 1);
      j < |buckets| && FirstTest(buckets[j], x) == if bs[i].Of? then Some(lab0 + i + 1) else None
    ensures Run(p, hash, x, State(0, []), k) == State(Find(p, lab0 + i + 1), [])
  {
    hide Find, Run, FirstTest;
    RunOne(p, hash, x, State(0, []));
    if bs[i].Of? {
      k := 1;
    } else {
      RunOne(p, hash, x, State(1, []));
      RunAdd(p, hash, x, State(0, []), 1, 1);
      k := 2;
    }
  }

  // ---------- ordinals ----------

  lemma ExpandLitMeans(l: Lit, ranges: bool, x: Value)
    ensures Chosen(Of(ExpandLit(l, ranges), false), x) <==> Matches(l, x)
  {
    var ls := ExpandLit(l, ranges);
    if l.Range? && !ranges && l.lo.Ord? && l.hi.Ord? {
      if Matches(l, x) {
        assert Matches(ls[x.n - l.lo.n], x);
      }
    } else {
      assert ls[0] == l;
    }
  }

  lemma ChosenConcat(a: seq<Lit>, b: seq<Lit>, x: Value)
    ensures Chosen(Of(a + b, false), x) <==> Chosen(Of(a, false), x) || Chosen(Of(b, false), x)
  {
    if i :| 0 <= i < |a| && Matches(a[i], x) {
      assert Matches((a + b)[i], x);
    }
    if i :| 0 <= i < |b| && Matches(b[i], x) {
      assert Matches((a + b)[|a| + i], x);
    }
  }

  /** Writing a range out label by label does not change what it matches. */
  lemma {:induction false} ExpandMeans(lits: seq<Lit>, ranges: bool, x: Value)
    ensures Chosen(Of(Expand(lits, ranges), false), x) <==> Chosen(Of(lits, false), x)
  {
    if lits != [] {
      var last := |lits| - 1;
      ExpandMeans(lits[..last], ranges, x);
      ExpandLitMeans(lits[last], ranges, x);
      ChosenConcat(Expand(lits[..last], ranges), ExpandLit(lits[last], ranges), x);
      ChosenSnoc(lits, x);
    }
  }

  lemma {:induction false} LabelledConcat(a: seq<Arm>, b: seq<Arm>, x: Value)
    ensures LabelledArm(a + b, x) == if LabelledArm(a, x).Some? then LabelledArm(a, x) else LabelledArm(b, x)
    ensures DefaultArm(a + b) == if DefaultArm(a).Some? then DefaultArm(a) else DefaultArm(b)
  {
    if a == [] {
      assert a + b == b;
    } else {
      assert (a + b)[0] == a[0] && (a + b)[1..] == a[1..] + b;
      LabelledConcat(a[1..], b, x);
    }
  }

  /** The switch on the branches from `n` on: a labelled arm if one matches, else the `else` branch. */
  lemma {:induction false} ArmsMean(bs: seq<Branch>, n: nat, m: nat, ranges: bool, x: Value)
    requires n <= m <= |bs| && WellFormed(bs)
    ensures SwitchTo(Arms(bs, n, m, ranges), x) == Shift(Select(bs[n..m], x), n)
    ensures m < |bs| || n == m ==> DefaultArm(Arms(bs, n, m, ranges)).None?
    decreases m
  {
    if n < m {
      ArmsMean(bs, n, m - 1, ranges, x);
      ArmsStep(bs, n, m, ranges, x);
    } else {
      assert bs[n..m] == [];
      assert Arms(bs, n, m, ranges) == [];
    }
  }

  function ArmFor(b: Branch, i: nat, ranges: bool): Arm {
    if b.Of? then Arm(Expand(b.lits, ranges), i) else Default(i)
  }

  lemma ArmsSnoc(bs: seq<Branch>, n: nat, m: nat, ranges: bool)
    requires n < m <= |bs|
    ensures Arms(bs, n, m, ranges) == Arms(bs, n, m - 1, ranges) + [ArmFor(bs[m - 1], m - 1, ranges)]
  {
  }

  lemma OneArm(b: Branch, i: nat, ranges: bool, x: Value)
    ensures LabelledArm([ArmFor(b, i, ranges)], x) == if b.Of? && Chosen(b, x) then Some(i) else None
    ensures DefaultArm([ArmFor(b, i, ranges)]) == if b.Else? then Some(i) else None
  {
    var arm := ArmFor(b, i, ranges);
    assert [arm][0] == arm && [arm][1..] == [];
    ChosenSame(b, x);
    ArmChosen(arm, x);
    if b.Of? {
      ExpandMeans(b.lits, ranges, x);
    }
  }

  lemma ArmsStep(bs: seq<Branch>, n: nat, m: nat, ranges: bool, x: Value)
    requires n < m <= |bs| && WellFormed(bs)
    requires SwitchTo(Arms(bs, n, m - 1, ranges), x) == Shift(Select(bs[n..m - 1], x), n)
    requires DefaultArm(Arms(bs, n, m - 1, ranges)).None?
    ensures SwitchTo(Arms(bs, n, m, ranges), x) == Shift(Select(bs[n..m], x), n)
    ensures m < |bs| ==> DefaultArm(Arms(bs, n, m, ranges)).None?
  {
    hide Select, Chosen, Expand, Arms, LabelledArm, DefaultArm, ArmFor;
    var b := bs[m - 1];
    ArmsSnoc(bs, n, m, ranges);
    OneArm(b, m - 1, ranges, x);
    LabelledConcat(Arms(bs, n, m - 1, ranges), [ArmFor(b, m - 1, ranges)], x);
    assert bs[n..m][..m - n - 1] == bs[n..m - 1] && bs[n..m][m - n - 1] == b;
    SelectSnoc(bs[n..m], x);
    ChosenSame(b, x);
  }

  function Shift(o: Option<nat>, n: nat): Option<nat> {
    if o.Some? then Some(o.value + n) else None
  }

  lemma ArmChosen(a: Arm, x: Value)
    ensures a.Arm? ==> (Labelled(a, x) <==> Chosen(Of(a.labels, false), x))
  {
  }

  lemma {:induction false} SelectSplit(bs: seq<Branch>, n: nat, x: Value)
    requires n <= |bs|
    ensures Select(bs, x) == if Select(bs[..n], x).Some? then Select(bs[..n], x) else Shift(Select(bs[n..], x), n)
    decreases |bs|
  {
    if n > 0 {
      SelectSplit(bs[1..], n - 1, x);
      assert bs[..n][0] == bs[0] && bs[..n][1..] == bs[1..][..n - 1] && bs[1..][n - 1..] == bs[n..];
    } else {
      assert bs[n..] == bs;
    }
  }

  /** Wherever the branches are divided, the `if` part and the switch together choose like the linear scan. */
  lemma OrdinalRuns(bs: seq<Branch>, n: nat, lab0: nat, ranges: bool, hash: string -> int, x: Value)
    requires WellFormed(bs) && n <= |bs| && Select(bs, x).Some?
    ensures RunsOnly(OrdinalCode(bs, n, lab0, ranges), hash, x, Select(bs, x).value)
  {
    hide Find, Run, Bodies, Tests, Select, Arms, RunsOnly, SwitchTo;
    var p := OrdinalCode(bs, n, lab0, ranges);
    SelectIs(bs, x);
    if n == |bs| {
      assert IfPart(bs, n, lab0) + [] == IfPart(bs, n, lab0);
      GenericRuns(bs, lab0, hash, x);
    } else {
      assert bs[n..|bs|] == bs[n..];
      ArmsMean(bs, n, |bs|, ranges, x);
      SelectSplit(bs, n, x);
      if n == 0 {
        assert bs[..0] == [] && bs[0..] == bs;
        SwitchAlone(Arms(bs, 0, |bs|, ranges), hash, x, Select(bs, x).value);
      } else {
        BothParts(bs, n, lab0, ranges, hash, x);
      }
    }
  }

  lemma SwitchAlone(arms: seq<Arm>, hash: string -> int, x: Value, b: nat)
    requires SwitchTo(arms, x) == Some(b)
    ensures RunsOnly([] + [Switch(arms)] + [], hash, x, b)
  {
    hide SwitchTo, Run;
    var p := [] + [Switch(arms)] + [];
    assert p == [Switch(arms)];
    RunOne(p, hash, x, State(0, []));
    assert [] + [b] == [b];
  }

  lemma BothParts(bs: seq<Branch>, n: nat, lab0: nat, ranges: bool, hash: string -> int, x: Value)
    requires WellFormed(bs) && 0 < n < |bs| && Select(bs, x).Some?
    requires Select(bs, x) == if Select(bs[..n], x).Some? then Select(bs[..n], x)
      else SwitchTo(Arms(bs, n, |bs|, ranges), x)
    ensures RunsOnly(OrdinalCode(bs, n, lab0, ranges), hash, x, Select(bs, x).value)
  {
    hide Find, Run, Bodies, Tests, Select, Arms, NoLabels, SwitchTo, IfPart, EndLabel;
    var p := OrdinalCode(bs, n, lab0, ranges);
    var first, arms := bs[..n], Arms(bs, n, |bs|, ranges);
    var target, lend := lab0 + n + 1, lab0 + n + 2;
    var pre, post := Tests(first, lab0) + [Goto(target)], [Label(target), Switch(arms), Label(lend)];
    PartsAre(bs, n, lab0, ranges);
    PreNoLabels(first, lab0, target);
    assert WellFormed(first);
    assert Around(p, pre, first, lab0, lend, post);
    FindBehind(p, pre, first, lab0, lend, post, target, 0);
    FindBehind(p, pre, first, lab0, lend, post, lend, 2);
    TestsFirst(p, Tests(first, lab0), [Goto(target)] + Bodies(first, lab0, lend) + post);
    var k1 := RunTests(p, hash, x, first, lab0);
    SelectIs(first, x);
    var b := Select(bs, x).value;
    var k2;
    if Select(first, x).Some? {
      k2 := RunBody(p, hash, x, pre, first, lab0, lend, post, b);
    } else {
      k2 := ToSwitch(p, hash, x, |Tests(first, lab0)|, target, arms, lend, b);
    }
    RunAdd(p, hash, x, State(0, []), k1, k2);
    LastLabel(p, hash, x, [b]);
    RunAdd(p, hash, x, State(0, []), k1 + k2, 1);
  }

  lemma PartsAre(bs: seq<Branch>, n: nat, lab0: nat, ranges: bool)
    requires 0 < n < |bs|
    ensures var post := [Label(lab0 + n + 1), Switch(Arms(bs, n, |bs|, ranges)), Label(lab0 + n + 2)];
      var p := OrdinalCode(bs, n, lab0, ranges);
      && p == (Tests(bs[..n], lab0) + [Goto(lab0 + n + 1)]) + Bodies(bs[..n], lab0, lab0 + n + 2) + post
      && p == Tests(bs[..n], lab0) + ([Goto(lab0 + n + 1)] + Bodies(bs[..n], lab0, lab0 + n + 2) + post)
  {
    hide Tests, Bodies, Arms;
  }

  lemma PreNoLabels(bs: seq<Branch>, lab0: nat, target: nat)
    ensures NoLabels(Tests(bs, lab0) + [Goto(target)])
  {
    TestsNoLabels(bs, lab0);
  }

  lemma TestsFirst(p: Code, a: Code, b: Code)
    requires p == a + b
    ensures At(p, 0, a)
  {
  }

  /** No test held: past the bodies to the switch. */
  lemma ToSwitch(p: Code, hash: string -> int, x: Value, pc: nat, target: nat, arms: seq<Arm>, lend: nat, b: nat)
    returns (k: nat)
    requires |p| >= 3 && pc < |p| && p[pc] == Goto(target) && Find(p, target) == |p| - 3
    requires p[|p| - 3] == Label(target) && p[|p| - 2] == Switch(arms) && p[|p| - 1] == Label(lend)
    requires SwitchTo(arms, x) == Some(b)
    ensures Run(p, hash, x, State(pc, []), k) == State(|p| - 1, [b])
  {
    hide Find, Run, SwitchTo;
    RunOne(p, hash, x, State(pc, []));
    RunOne(p, hash, x, State(|p| - 3, []));
    RunOne(p, hash, x, State(|p| - 2, []));
    RunAdd(p, hash, x, State(pc, []), 1, 1);
    RunAdd(p, hash, x, State(pc, []), 2, 1);
    assert [] + [b] == [b];
    k := 3;
  }

  /** With case ranges all labels are as written. */
  lemma {:induction false} LabelsAsWritten(lits: seq<Lit>)
    ensures Expand(lits, true) == lits
  {
    if lits != [] {
      LabelsAsWritten(lits[..|lits| - 1]);
      assert lits == lits[..|lits| - 1] + [lits[|lits| - 1]];
    }
  }

  /** Without them no range of ordinals is left. */
  lemma {:induction false} NoRangeLeft(lits: seq<Lit>, l: Lit)
    requires l in Expand(lits, false)
    ensures !(l.Range? && l.lo.Ord? && l.hi.Ord?)
  {
    var init, last := lits[..|lits| - 1], lits[|lits| - 1];
    if l in Expand(init, false) {
      NoRangeLeft(init, l);
    } else {
      assert l in ExpandLit(last, false);
    }
  }

  // ---------- the split point ----------

  /** A range of more than 257 values. */
  predicate Wide(l: Lit) {
    l.Range? && l.lo.Ord? && l.hi.Ord? && l.hi.n - l.lo.n > 256
  }

  /**
   From the split point on no branch is marked and, without case ranges, no range is too big;
   the last branch before it is marked or has such a range.
   */
  ghost predicate SplitsAt(bs: seq<Branch>, ranges: bool, n: nat) {
    && n <= |bs|
    && (forall i | n <= i < |bs| ::
          !bs[i].linear && (!ranges && bs[i].Of? ==> forall l | l in bs[i].lits :: !Wide(l)))
    && (n > 0 ==> bs[n - 1].linear || (!ranges && bs[n - 1].Of? && exists l :: l in bs[n - 1].lits && Wide(l)))
  }

  lemma {:induction false} SplitPointMeans(bs: seq<Branch>, ranges: bool)
    ensures SplitsAt(bs, ranges, SplitPoint(bs, ranges))
  {
    if bs != [] {
      SplitsMeans(bs[|bs| - 1], ranges);
      if !Splits(bs[|bs| - 1], ranges) {
        var init := bs[..|bs| - 1];
        SplitPointMeans(init, ranges);
        assert forall i | 0 <= i < |init| :: init[i] == bs[i];
      }
    }
  }

  lemma SplitsMeans(b: Branch, ranges: bool)
    ensures Splits(b, ranges) <==>
      b.linear || (!ranges && b.Of? && exists l :: l in b.lits && Wide(l))
  {
    assert forall l :: TooBig(l) <==> Wide(l);
  }

  /** So no range in the switch is written out as more than 257 labels. */
  lemma FewLabels(bs: seq<Branch>, i: nat, j: nat)
    requires SplitPoint(bs, false) <= i < |bs| && bs[i].Of? && j < |bs[i].lits|
    ensures |ExpandLit(bs[i].lits[j], false)| <= 257
  {
    SplitPointMeans(bs, false);
    assert bs[i].lits[j] in bs[i].lits;
  }
}
