/**
 Single dispatch (compiler/cgmeth.nim): methods are collected in buckets, each
 bucket is sorted by class descent, and the dispatcher calls the first method
 whose class the runtime class derives from.
 */
module Dispatch {
  import opened Basics

  // ---------- classes ----------

  /** An object type with its chain of base types, as far as `x[0]` leads. */
  datatype Class = Root(id: nat) | Sub(id: nat, base: Class)

  function Depth(c: Class): nat {
    if c.Root? then 0 else 1 + Depth(c.base)
  }

  predicate Derives(c: Class, b: Class) {
    c == b || (c.Sub? && Derives(c.base, b))
  }

  predicate StrictlyDerives(c: Class, b: Class) {
    c.Sub? && Derives(c.base, b)
  }

  lemma {:induction false} DerivesTrans(a: Class, b: Class, c: Class)
    requires Derives(a, b) && Derives(b, c)
    ensures Derives(a, c)
  {
    if a != b {
      DerivesTrans(a.base, b, c);
    }
  }

  /** The ancestors of a class form a chain. */
  lemma {:induction false} AncestorsLinear(c: Class, a: Class, b: Class)
    requires Derives(c, a) && Derives(c, b)
    ensures Derives(a, b) || Derives(b, a)
  {
    if c != a && c != b {
      AncestorsLinear(c.base, a, b);
    }
  }

  lemma {:induction false} DerivesDepth(c: Class, b: Class)
    requires Derives(c, b)
    ensures Depth(b) <= Depth(c) && (Depth(b) == Depth(c) ==> c == b)
  {
    if c != b {
      DerivesDepth(c.base, b);
    }
  }

  lemma StrictlyMeans(c: Class, b: Class)
    ensures StrictlyDerives(c, b) <==> Derives(c, b) && c != b
  {
    if StrictlyDerives(c, b) {
      DerivesDepth(c.base, b);
    }
  }

  lemma StrictlyTrans(a: Class, b: Class, c: Class)
    requires StrictlyDerives(a, b) && Derives(b, c)
    ensures StrictlyDerives(a, c)
  {
    DerivesTrans(a.base, b, c);
  }

  /** `high(int)` */
  const HIGH: int := 0x7FFF_FFFF_FFFF_FFFF

  /**
   Signed difference in depth: negative when `a` derives from `b`, positive when
   `b` derives from `a`, `HIGH` when the two are unrelated.
   */
  function Diff(a: Class, b: Class): int {
    if Derives(a, b) then Depth(b) - Depth(a)
    else if Derives(b, a) then Depth(b) - Depth(a)
    else HIGH
  }

  /** The type links of the compiler, nil above a root. */
  datatype Link = Nil | At(cls: Class)

  method InheritanceDiff(a: Class, b: Class) returns (result: int)
    ensures result == Diff(a, b)
  {
    if a == b {
      return 0;
    }
    var x := At(a);
    result := 0;
    while x.At?
      invariant x.At? ==> Depth(x.cls) == Depth(a) + result && (Derives(x.cls, b) <==> Derives(a, b))
      invariant x.Nil? ==> !Derives(a, b)
      decreases if x.At? then Depth(x.cls) + 1 else 0
    {
      if x.cls == b {
        return;
      }
      x := if x.cls.Sub? then At(x.cls.base) else Nil;
      result := result - 1;
    }
    var y := At(b);
    result := 0;
    while y.At?
      invariant y.At? ==> Depth(y.cls) == Depth(b) - result && (Derives(y.cls, a) <==> Derives(b, a))
      invariant y.Nil? ==> !Derives(b, a)
      decreases if y.At? then Depth(y.cls) + 1 else 0
    {
      if y.cls == a {
        return;
      }
      y := if y.cls.Sub? then At(y.cls.base) else Nil;
      result := result + 1;
    }
    result := HIGH;
  }

  /** What callers read off the sign. */
  lemma DiffMeans(a: Class, b: Class)
    requires Depth(a) < HIGH && Depth(b) < HIGH
    ensures Diff(a, b) < 0 <==> StrictlyDerives(a, b)
    ensures 0 < Diff(a, b) < HIGH <==> StrictlyDerives(b, a)
    ensures Diff(a, b) == 0 <==> a == b
    ensures Diff(a, b) == HIGH <==> !Derives(a, b) && !Derives(b, a)
  {
    StrictlyMeans(a, b);
    StrictlyMeans(b, a);
    if Derives(a, b) {
      DerivesDepth(a, b);
    }
    if Derives(b, a) {
      DerivesDepth(b, a);
    }
  }

  // ---------- methods ----------

  /** A parameter: an object type behind `wrap` (`ref`, `ptr`, `var`, ...), or any other type. */
  datatype Param = Obj(wrap: nat, cls: Class) | Other(id: nat)
  datatype Ret = Void | Untyped | Typed(id: nat)
  datatype Method = Method(id: nat, name: nat, params: seq<Param>, ret: Ret, base: bool, generic: bool)

  ghost predicate Bounded(m: Method) {
    forall i | 0 <= i < |m.params| && m.params[i].Obj? :: Depth(m.params[i].cls) < HIGH
  }

  /** The class dispatched on. */
  function ClassOf(m: Method): Class
    requires |m.params| > 0 && m.params[0].Obj?
  {
    m.params[0].cls
  }

  ghost predicate Dispatchable(m: Method) {
    |m.params| > 0 && m.params[0].Obj? && Bounded(m)
  }

  /** `cmpSignatures` for the first column. */
  function CmpSignatures(a: Method, b: Method, relevant: bool): (d: int)
    requires relevant ==> Dispatchable(a) && Dispatchable(b)
    ensures d < 0 <==> relevant && StrictlyDerives(ClassOf(a), ClassOf(b))
    ensures d > 0 <==> relevant && StrictlyDerives(ClassOf(b), ClassOf(a))
  {
    if !relevant then 0
    else
      DiffMeans(ClassOf(a), ClassOf(b));
      var d := Diff(ClassOf(a), ClassOf(b));
      if d != HIGH && d != 0 then d else 0
  }

  // ---------- the sort ----------

  ghost predicate AllDispatchable(s: seq<Method>) {
    forall i | 0 <= i < |s| :: Dispatchable(s[i])
  }

  /** Classes are looked at only if the first column is relevant. */
  ghost predicate Sortable(s: seq<Method>, relevant: bool) {
    relevant ==> AllDispatchable(s)
  }

  /** No method stands before one of a class derived from its own. */
  ghost predicate Ordered(s: seq<Method>)
    requires AllDispatchable(s)
  {
    forall i, j | 0 <= i < j < |s| :: !StrictlyDerives(ClassOf(s[j]), ClassOf(s[i]))
  }

  /** 1, 4, 13, 40, ... */
  function Gap(k: nat): (h: nat)
    ensures h >= 1 && 2 * h + 1 == Power3(k + 1)
  {
    if k == 0 then 1 else 3 * Gap(k - 1) + 1
  }

  function Power3(k: nat): nat {
    if k == 0 then 1 else 3 * Power3(k - 1)
  }

  /** `p` with its element `i` moved to place `j`. */
  function Moved<T>(p: seq<T>, i: nat, j: nat): (r: seq<T>)
    requires j <= i < |p|
    ensures |r| == |p|
  {
    p[..j] + [p[i]] + p[j..i] + p[i + 1..]
  }

  lemma MovedAt<T>(p: seq<T>, i: nat, j: nat, k: nat)
    requires j <= i < |p| && k < |p|
    ensures Moved(p, i, j)[k] == if k < j then p[k] else if k == j then p[i] else if k <= i then p[k - 1] else p[k]
  {
  }

  lemma SwapMultiset<T>(s: seq<T>, i: nat, j: nat)
    requires i < |s| && j < |s|
    ensures multiset(s[i := s[j]][j := s[i]]) == multiset(s)
  {
  }

  /** One shift: the hole moves from `j` to `j - h`. */
  lemma ShiftKeeps(r: seq<Method>, j: nat, h: nat, v: Method, relevant: bool)
    requires h <= j < |r| && 1 <= h && Sortable(r, relevant)
    ensures var s := r[j := r[j - h]];
      Sortable(s, relevant) && multiset(s[j - h := v]) == multiset(r[j := v])
  {
    hide Bounded;
    var w := r[j := v];
    SwapMultiset(w, j, j - h);
    assert r[j := r[j - h]][j - h := v] == w[j := w[j - h]][j - h := w[j]];
  }

  lemma ShiftMoves(a: seq<Method>, r: seq<Method>, i: nat, j: nat)
    requires 1 <= j <= i < |a| && |r| == |a|
    requires r[j := a[i]] == Moved(a, i, j) && r[..j] == a[..j]
    ensures r[j := r[j - 1]][j - 1 := a[i]] == Moved(a, i, j - 1)
    ensures r[j := r[j - 1]][..j - 1] == a[..j - 1]
    ensures r[j - 1] == a[j - 1]
  {
    var m, s := Moved(a, i, j), r[j := r[j - 1]][j - 1 := a[i]];
    assert r[j - 1] == r[..j][j - 1] == a[..j][j - 1];
    forall k: nat | k < |a| ensures s[k] == Moved(a, i, j - 1)[k] {
      MovedAt(a, i, j, k);
      MovedAt(a, i, j - 1, k);
      assert r[j := a[i]][k] == m[k];
    }
    assert r[j := r[j - 1]][..j - 1] == r[..j][..j - 1];
  }

  /** `cmpSignatures(a, b) >= 0`, on which the element is shifted. */
  predicate Shifts(a: Method, b: Method, relevant: bool)
    requires relevant ==> Dispatchable(a) && Dispatchable(b)
  {
    CmpSignatures(a, b, relevant) >= 0
  }

  /** Element `j` has been taken out, and `v` goes to the place that the shifts with gap `h` leave. */
  ghost function Sifted(a: seq<Method>, j: nat, v: Method, h: nat, relevant: bool): (r: seq<Method>)
    requires Sortable(a, relevant) && (relevant ==> Dispatchable(v)) && 1 <= h <= j < |a|
    ensures |r| == |a| && Sortable(r, relevant)
    decreases j
  {
    if !Shifts(a[j - h], v, relevant) then a[j := v]
    else
      var b := a[j := a[j - h]];
      if j - h < h then b[j - h := v] else Sifted(b, j - h, v, h, relevant)
  }

  lemma SiftedStep(a: seq<Method>, j: nat, v: Method, h: nat, relevant: bool)
    requires Sortable(a, relevant) && (relevant ==> Dispatchable(v)) && 1 <= h <= j < |a|
    requires Shifts(a[j - h], v, relevant)
    ensures Sortable(a[j := a[j - h]], relevant)
    ensures var b := a[j := a[j - h]];
      Sifted(a, j, v, h, relevant) == if j - h < h then b[j - h := v] else Sifted(b, j - h, v, h, relevant)
  {
    hide Dispatchable, Shifts;
  }

  lemma SiftedEnd(a: seq<Method>, j: nat, v: Method, h: nat, relevant: bool)
    requires Sortable(a, relevant) && (relevant ==> Dispatchable(v)) && 1 <= h <= j < |a|
    requires !Shifts(a[j - h], v, relevant)
    ensures Sifted(a, j, v, h, relevant) == a[j := v]
  {
    hide Dispatchable, Shifts;
  }

  /** The elements from `i` on, one after the other. */
  ghost function Passed(a: seq<Method>, i: nat, h: nat, relevant: bool): (r: seq<Method>)
    requires Sortable(a, relevant) && 1 <= h <= i
    ensures |r| == |a| && Sortable(r, relevant)
    decreases |a| - i
  {
    if i >= |a| then a else Passed(Sifted(a, i, a[i], h, relevant), i + 1, h, relevant)
  }

  /** One pass for each gap, the largest first. */
  ghost function ShellSorted(a: seq<Method>, k: nat, relevant: bool): (r: seq<Method>)
    requires Sortable(a, relevant)
    ensures |r| == |a| && Sortable(r, relevant)
    decreases k
  {
    var r := Passed(a, Gap(k), Gap(k), relevant);
    if k == 0 then r else ShellSorted(r, k - 1, relevant)
  }

  /** `r` is `a` while element `i` is being moved: it will be put at `j`. */
  ghost predicate Hole(a: seq<Method>, r: seq<Method>, i: nat, j: nat, h: nat, relevant: bool)
    requires Sortable(a, relevant) && j <= i < |a|
  {
    && |r| == |a| && Sortable(r, relevant)
    && multiset(r[j := a[i]]) == multiset(a)
    && (h == 1 ==> r[j := a[i]] == Moved(a, i, j) && r[..j] == a[..j])
    && (h == 1 ==> forall q | j <= q < i :: Shifts(a[q], a[i], relevant))
  }

  lemma HoleStart(a: seq<Method>, i: nat, h: nat, relevant: bool)
    requires Sortable(a, relevant) && i < |a|
    ensures Hole(a, a, i, i, h, relevant)
  {
    MovedSelf(a, i);
    assert a[i := a[i]] == a;
  }

  lemma HoleStep(a: seq<Method>, r: seq<Method>, i: nat, j: nat, h: nat, relevant: bool)
    requires Sortable(a, relevant) && 1 <= h <= j <= i < |a| && Hole(a, r, i, j, h, relevant)
    requires Shifts(r[j - h], a[i], relevant)
    ensures Hole(a, r[j := r[j - h]], i, j - h, h, relevant)
  {
    hide Dispatchable, CmpSignatures, Moved, Shifts;
    ShiftKeeps(r, j, h, a[i], relevant);
    if h == 1 {
      ShiftMoves(a, r, i, j);
    }
  }

  lemma HoleSize(a: seq<Method>, r: seq<Method>, i: nat, j: nat, h: nat, relevant: bool)
    requires Sortable(a, relevant) && j <= i < |a| && Hole(a, r, i, j, h, relevant)
    ensures |r| == |a| && Sortable(r, relevant)
  {
  }

  lemma HoleEnd(a: seq<Method>, r: seq<Method>, i: nat, j: nat, h: nat, relevant: bool)
    requires Sortable(a, relevant) && j <= i < |a| && Hole(a, r, i, j, h, relevant)
    ensures var s := r[j := a[i]];
      && Sortable(s, relevant) && multiset(s) == multiset(a)
      && (h == 1 ==> s == Moved(a, i, j) && (forall q | j <= q < i :: Shifts(a[q], a[i], relevant)))
      && (h == 1 && j > 0 ==> a[j - 1] == r[j - 1])
  {
    hide Dispatchable, CmpSignatures, Moved, Shifts;
    if h == 1 && j > 0 {
      assert r[j - 1] == r[..j][j - 1];
    }
  }

  /** One insertion with gap `h`; `j` is where the element ends up. */
  method Insert(a: seq<Method>, i: nat, h: nat, relevant: bool) returns (r: seq<Method>, j: nat)
    requires Sortable(a, relevant) && 1 <= h <= i < |a|
    ensures |r| == |a| && Sortable(r, relevant) && multiset(r) == multiset(a)
    ensures r == Sifted(a, i, a[i], h, relevant)
    ensures j <= i
    ensures h == 1 ==> r == Moved(a, i, j)
    ensures h == 1 ==> forall q | j <= q < i :: Shifts(a[q], a[i], relevant)
    ensures h == 1 && j > 0 ==> !Shifts(a[j - 1], a[i], relevant)
  {
    hide Dispatchable, CmpSignatures, Moved, Shifts, Hole, Sifted;
    r := a;
    var v := r[i];
    j := i;
    HoleStart(a, i, h, relevant);
    HoleSize(a, r, i, j, h, relevant);
    while Shifts(r[j - h], v, relevant)
      invariant h <= j <= i && Hole(a, r, i, j, h, relevant) && |r| == |a| && Sortable(r, relevant)
      invariant Sifted(r, j, v, h, relevant) == Sifted(a, i, v, h, relevant)
      decreases j
    {
      HoleStep(a, r, i, j, h, relevant);
      SiftedStep(r, j, v, h, relevant);
      r := r[j := r[j - h]];
      j := j - h;
      HoleSize(a, r, i, j, h, relevant);
      if j < h {
        break;
      }
    }
    if j >= h {
      SiftedEnd(r, j, v, h, relevant);
    }
    HoleEnd(a, r, i, j, h, relevant);
    r := r[j := v];
  }

  lemma MovedSelf<T>(p: seq<T>, i: nat)
    requires i < |p|
    ensures Moved(p, i, i) == p
  {
  }

  /** The element is moved past all that its class does not derive from or into; the order holds again. */
  lemma MovedOrdered(a: seq<Method>, i: nat, j: nat)
    requires AllDispatchable(a) && j <= i < |a| && Ordered(a[..i])
    requires forall q | j <= q < i :: Shifts(a[q], a[i], true)
    requires j > 0 ==> !Shifts(a[j - 1], a[i], true)
    ensures AllDispatchable(Moved(a, i, j)) && Ordered(Moved(a, i, j)[..i + 1])
  {
    hide Bounded, Moved, StrictlyDerives;
    var m := Moved(a, i, j);
    forall k | 0 <= k < |m| ensures Dispatchable(m[k]) {
      MovedAt(a, i, j, k);
    }
    forall x, y | 0 <= x < y < i + 1 ensures !StrictlyDerives(ClassOf(m[y]), ClassOf(m[x])) {
      MovedAt(a, i, j, x);
      MovedAt(a, i, j, y);
      if y == j {
        DescendantBetween(a, i, j, x);
      } else if x == j {
        assert Shifts(a[y - 1], a[i], true);
      } else {
        var x', y' := if x < j then x else x - 1, if y < j then y else y - 1;
        assert a[..i][x'] == a[x'] && a[..i][y'] == a[y'];
      }
    }
  }

  /** A class derived from `a[i]` follows every ancestor of `a[i]`. */
  lemma DescendantBetween(a: seq<Method>, i: nat, j: nat, x: nat)
    requires AllDispatchable(a) && x < j <= i < |a| && Ordered(a[..i])
    requires !Shifts(a[j - 1], a[i], true)
    ensures !StrictlyDerives(ClassOf(a[i]), ClassOf(a[x]))
  {
    hide Bounded;
    var d, v, b := ClassOf(a[j - 1]), ClassOf(a[i]), ClassOf(a[x]);
    assert a[..i][x] == a[x] && a[..i][j - 1] == a[j - 1];
    StrictlyMeans(v, b);
    StrictlyMeans(d, b);
    if StrictlyDerives(v, b) {
      StrictlyTrans(d, v, b);
    }
  }

  function UpTo(s: seq<Method>, i: nat): seq<Method> {
    if i <= |s| then s[..i] else s
  }

  method GapPass(a: seq<Method>, h: nat, relevant: bool) returns (r: seq<Method>)
    requires Sortable(a, relevant) && h >= 1
    ensures Sortable(r, relevant) && multiset(r) == multiset(a)
    ensures r == Passed(a, h, h, relevant)
    ensures h == 1 && relevant ==> Ordered(r)
  {
    r := a;
    var i := h;
    while i < |r|
      invariant h <= i && |r| == |a| && Sortable(r, relevant) && multiset(r) == multiset(a)
      invariant Passed(r, i, h, relevant) == Passed(a, h, h, relevant)
      invariant h == 1 && relevant ==> Ordered(UpTo(r, i))
    {
      var j;
      ghost var p := r;
      r, j := Insert(r, i, h, relevant);
      if h == 1 && relevant {
        MovedOrdered(p, i, j);
      }
      i := i + 1;
    }
  }

  lemma GapDown(k: nat)
    requires k > 0
    ensures Gap(k) / 3 == Gap(k - 1)
  {
  }

  /**
   Shellsort with a comparison that is only a partial order. The gaps are 1, 4,
   13, ..., up to the last one that is not larger than the bucket. The last pass has
   gap 1; it alone puts every method after the methods of derived classes, whatever
   order the passes before it left.
   */
  method SortBucket(a: seq<Method>, relevant: bool) returns (r: seq<Method>, ghost most: nat)
    requires Sortable(a, relevant)
    ensures multiset(r) == multiset(a)
    ensures Gap(most + 1) > |a| && (most > 0 ==> Gap(most) <= |a|) && r == ShellSorted(a, most, relevant)
    ensures relevant ==> AllDispatchable(r) && Ordered(r)
  {
    hide Dispatchable, Ordered, Passed, Power3;
    r := a;
    var n := |a|;
    var h := 1;
    ghost var k := 0;
    while true
      invariant k >= 0 && h == Gap(k)
      invariant h <= n || k == 0
      decreases n - h
    {
      h := 3 * h + 1;
      k := k + 1;
      if h > n {
        break;
      }
    }
    most := k - 1;
    while true
      invariant 0 < k <= most + 1 && h == Gap(k)
      invariant Sortable(r, relevant) && multiset(r) == multiset(a)
      invariant ShellSorted(r, k - 1, relevant) == ShellSorted(a, most, relevant)
      decreases k
    {
      GapDown(k);
      h := h / 3;
      k := k - 1;
      r := GapPass(r, h, relevant);
      if h == 1 {
        break;
      }
    }
  }

  // ---------- the dispatcher ----------

  /** `if x of cls: return target(x)`, or an unconditional call. */
  datatype Branch = Branch(cls: Class, target: Method)
  datatype Dispatcher = Call(target: Method) | Chain(branches: seq<Branch>)

  function FirstMatch(bs: seq<Branch>, c: Class): Option<Method> {
    if bs == [] then None
    else if Derives(c, bs[0].cls) then Some(bs[0].target)
    else FirstMatch(bs[1..], c)
  }

  /** What the dispatcher calls for an object of the runtime class `c`. */
  function Target(d: Dispatcher, c: Class): Option<Method> {
    if d.Call? then Some(d.target) else FirstMatch(d.branches, c)
  }

  method GenDispatcher(methods: seq<Method>, relevant: bool) returns (disp: Dispatcher)
    requires |methods| > 0 && Sortable(methods, relevant)
    ensures relevant ==> disp.Chain? && |disp.branches| == |methods|
    ensures relevant ==> forall k | 0 <= k < |methods| :: disp.branches[k] == Branch(ClassOf(methods[k]), methods[k])
    ensures !relevant ==> disp == Call(methods[|methods| - 1])
  {
    disp := Chain([]);
    for i := 0 to |methods|
      invariant relevant ==> disp.Chain? && |disp.branches| == i
      invariant relevant ==> forall k | 0 <= k < i :: disp.branches[k] == Branch(ClassOf(methods[k]), methods[k])
      invariant !relevant && i > 0 ==> disp == Call(methods[i - 1])
    {
      var curr := methods[i];
      if relevant {
        disp := Chain(disp.branches + [Branch(ClassOf(curr), curr)]);
      } else {
        disp := Call(curr);
      }
    }
  }

  /** `m` is the method of the nearest ancestor of `c`: the other candidates belong to its ancestors. */
  ghost predicate Nearest(m: Method, ms: seq<Method>, c: Class)
    requires AllDispatchable(ms)
  {
    && m in ms && Derives(c, ClassOf(m))
    && forall k | 0 <= k < |ms| && Derives(c, ClassOf(ms[k])) :: Derives(ClassOf(m), ClassOf(ms[k]))
  }

  lemma {:induction false} FirstMatchIs(bs: seq<Branch>, c: Class) returns (k: nat)
    ensures FirstMatch(bs, c).None? ==> k == |bs|
    ensures FirstMatch(bs, c).Some? ==> k < |bs| && Derives(c, bs[k].cls) && FirstMatch(bs, c) == Some(bs[k].target)
    ensures forall i | 0 <= i < k :: !Derives(c, bs[i].cls)
  {
    if bs == [] || Derives(c, bs[0].cls) {
      k := 0;
    } else {
      var k' := FirstMatchIs(bs[1..], c);
      k := k' + 1;
      forall i | 0 <= i < k ensures !Derives(c, bs[i].cls) {
        assert i > 0 ==> bs[i] == bs[1..][i - 1];
      }
    }
  }

  /** The first match in an ordered bucket is the nearest; there is one if any method applies. */
  lemma ChainPicksNearest(ms: seq<Method>, bs: seq<Branch>, c: Class)
    requires AllDispatchable(ms) && Ordered(ms) && |bs| == |ms|
    requires forall k | 0 <= k < |ms| :: bs[k] == Branch(ClassOf(ms[k]), ms[k])
    ensures FirstMatch(bs, c).Some? <==> exists k :: 0 <= k < |ms| && Derives(c, ClassOf(ms[k]))
    ensures FirstMatch(bs, c).Some? ==> Nearest(FirstMatch(bs, c).value, ms, c)
  {
    hide Bounded, Derives;
    var k := FirstMatchIs(bs, c);
    if FirstMatch(bs, c).None? {
      forall i | 0 <= i < |ms| ensures !Derives(c, ClassOf(ms[i])) {
        assert bs[i].cls == ClassOf(ms[i]);
      }
    } else {
      assert bs[k] == Branch(ClassOf(ms[k]), ms[k]);
      forall i | 0 <= i < |ms| && Derives(c, ClassOf(ms[i])) ensures Derives(ClassOf(ms[k]), ClassOf(ms[i])) {
        assert bs[i].cls == ClassOf(ms[i]);
        AncestorsLinear(c, ClassOf(ms[k]), ClassOf(ms[i]));
        StrictlyMeans(ClassOf(ms[i]), ClassOf(ms[k]));
      }
    }
  }

  // ---------- buckets ----------

  datatype Verdict = No | Invalid | Yes

  predicate SameRest(a: Method, b: Method) {
    a.name == b.name && |a.params| == |b.params| > 0 && a.params[1..] == b.params[1..]
  }

  /** The first parameters are the same object type, or the one of `b` derives from the one of `a`. */
  predicate Specializes(a: Method, b: Method)
    requires |a.params| > 0 && |b.params| > 0
  {
    var x, y := a.params[0], b.params[0];
    x.Obj? && y.Obj? && x.wrap == y.wrap && StrictlyDerives(y.cls, x.cls)
  }

  predicate HasObject(m: Method) {
    exists i :: 0 <= i < |m.params| && m.params[i].Obj?
  }

  predicate ReturnsFit(a: Method, b: Method) {
    a.ret == b.ret || b.ret.Untyped?
  }

  /** May `b` join the bucket of the dispatcher `a`? */
  function SameBucket(a: Method, b: Method): Verdict {
    if !SameRest(a, b) then No
    else if Specializes(b, a) && !a.generic && !b.generic then Invalid
    else if ((a.params[0] == b.params[0] && HasObject(a)) || Specializes(a, b)) && ReturnsFit(a, b) then Yes
    else No
  }

  /**
   `s` belongs to the dispatcher `d`: the same name, parameters and return type, one of the
   parameters an object, or a first parameter of a class derived from the dispatcher's.
   A return type `auto` fits any.
   */
  ghost predicate Joins(d: Method, s: Method) {
    && d.name == s.name && |d.params| == |s.params| > 0
    && (forall i | 1 <= i < |d.params| :: d.params[i] == s.params[i])
    && (d.ret == s.ret || s.ret.Untyped?)
    && var x, y := d.params[0], s.params[0];
       || (x == y && exists i :: 0 <= i < |d.params| && d.params[i].Obj?)
       || (x.Obj? && y.Obj? && x.wrap == y.wrap && StrictlyDerives(y.cls, x.cls))
  }

  /** `s` is for an ancestor of the class of `d`, and neither comes from a generic method. */
  ghost predicate OutOfOrder(d: Method, s: Method) {
    && d.name == s.name && |d.params| == |s.params| > 0 && !d.generic && !s.generic
    && (forall i | 1 <= i < |d.params| :: d.params[i] == s.params[i])
    && var x, y := d.params[0], s.params[0];
       x.Obj? && y.Obj? && x.wrap == y.wrap && StrictlyDerives(x.cls, y.cls)
  }

  lemma SameBucketMeans(a: Method, b: Method)
    requires Bounded(a) && Bounded(b)
    ensures SameBucket(a, b) == Yes <==> Joins(a, b)
    ensures SameBucket(a, b) == Invalid <==> OutOfOrder(a, b)
  {
    if a.name == b.name && |a.params| == |b.params| > 0 {
      assert a.params[1..] == b.params[1..] <==> forall i | 1 <= i < |a.params| :: a.params[i] == b.params[i] by {
        if a.params[1..] == b.params[1..] {
          forall i | 1 <= i < |a.params| ensures a.params[i] == b.params[i] {
            assert a.params[1..][i - 1] == b.params[1..][i - 1];
          }
        }
      }
      var x, y := a.params[0], b.params[0];
      if x.Obj? && y.Obj? {
        StrictlyMeans(x.cls, y.cls);
        StrictlyMeans(y.cls, x.cls);
        if Derives(x.cls, y.cls) && Derives(y.cls, x.cls) {
          DerivesDepth(x.cls, y.cls);
          DerivesDepth(y.cls, x.cls);
        }
      }
    }
  }

  method SameMethodBucket(a: Method, b: Method) returns (result: Verdict)
    requires Bounded(a) && Bounded(b)
    ensures result == SameBucket(a, b)
    ensures result.Yes? <==> Joins(a, b)
    ensures result.Invalid? <==> OutOfOrder(a, b)
  {
    SameBucketMeans(a, b);
    result := No;
    if a.name != b.name || |a.params| != |b.params| {
      return;
    }
    if |a.params| == 0 {
      return;
    }
    for i := 0 to |a.params|
      invariant forall k | 1 <= k < i :: a.params[k] == b.params[k]
      invariant i > 0 ==>
        a.params[0] == b.params[0] || Specializes(a, b) || (Specializes(b, a) && !a.generic && !b.generic)
      invariant result.Invalid? <==> i > 0 && Specializes(b, a) && !a.generic && !b.generic
      invariant result.Yes? <==>
        i > 0 && !result.Invalid? && (Specializes(a, b) || exists k :: 0 <= k < i && a.params[k].Obj?)
    {
      var aa, bb := a.params[i], b.params[i];
      if aa == bb {
        if aa.Obj? {
          StrictlyMeans(aa.cls, aa.cls);
        }
        if aa.Obj? && result != Invalid {
          result := Yes;
        }
      } else if aa.Obj? && bb.Obj? && aa.wrap == bb.wrap && i == 0 {
        var diff := InheritanceDiff(bb.cls, aa.cls);
        DiffMeans(bb.cls, aa.cls);
        if diff < 0 {
          result := Yes;
        } else if diff != HIGH && !a.generic && !b.generic {
          result := Invalid;
        } else {
          return No;
        }
      } else {
        return No;
      }
    }
    if result == Yes && !ReturnsFit(a, b) {
      result := No;
    }
  }

  datatype Bucket = Bucket(methods: seq<Method>, dispatcher: Method)

  /** What `methodDef` reports. */
  datatype Report = Joined | NotABase | Created | InvalidOrder(other: Method) | UseBase

  /**
   One method has the dispatcher's own parameters, every other one a derived class in front;
   all return what the dispatcher returns.
   */
  ghost predicate BucketOk(b: Bucket) {
    && Bounded(b.dispatcher) && |b.dispatcher.params| > 0
    && (forall k | 0 <= k < |b.methods| :: Bounded(b.methods[k]) && Member(b.dispatcher, b.methods[k]))
    && (forall k | 0 <= k < |b.methods| :: b.methods[k].ret == b.dispatcher.ret)
    && exists k :: 0 <= k < |b.methods| && b.methods[k].params == b.dispatcher.params
  }

  predicate Member(disp: Method, m: Method) {
    SameRest(disp, m) && (m.params[0] == disp.params[0] || Specializes(disp, m))
  }

  lemma MemberClass(disp: Method, m: Method)
    requires Member(disp, m)
    ensures disp.params[0].Obj? <==> m.params[0].Obj?
    ensures disp.params[0].Obj? ==> Derives(ClassOf(m), ClassOf(disp))
  {
  }

  /** The dispatcher `d` of the bucket `b` calls the method of the nearest ancestor, whatever the runtime class. */
  ghost predicate Dispatches(d: Dispatcher, b: Bucket)
    requires BucketOk(b)
  {
    if b.dispatcher.params[0].Obj? then
      MembersDispatchable(b);
      forall c | Derives(c, ClassOf(b.dispatcher)) :: Target(d, c).Some? && Nearest(Target(d, c).value, b.methods, c)
    else d.Call? && d.target in b.methods
  }

  lemma MembersDispatchable(b: Bucket)
    requires BucketOk(b) && b.dispatcher.params[0].Obj?
    ensures AllDispatchable(b.methods)
  {
    forall k | 0 <= k < |b.methods| ensures Dispatchable(b.methods[k]) {
      MemberClass(b.dispatcher, b.methods[k]);
    }
  }

  /** `relevantCol` for the first column. */
  method RelevantCol(methods: seq<Method>) returns (r: bool)
    requires |methods| > 0 && forall k | 0 <= k < |methods| :: |methods[k].params| > 0
    ensures r <==>
      methods[0].params[0].Obj?
      && exists k :: 1 <= k < |methods| && !(methods[k].params[0].Obj? && ClassOf(methods[k]) == ClassOf(methods[0]))
  {
    var t := methods[0].params[0];
    if t.Obj? {
      for i := 1 to |methods|
        invariant forall k | 1 <= k < i :: methods[k].params[0].Obj? && ClassOf(methods[k]) == t.cls
      {
        var t2 := methods[i].params[0];
        if !(t2.Obj? && t2.cls == t.cls) {
          return true;
        }
      }
    }
    return false;
  }

  /** A reordered bucket is the same bucket. */
  lemma Reordered(b: Bucket, ms: seq<Method>)
    requires BucketOk(b) && multiset(ms) == multiset(b.methods)
    ensures BucketOk(Bucket(ms, b.dispatcher)) && |ms| == |b.methods| > 0
  {
    hide Bounded, Member;
    assert |multiset(ms)| == |ms| && |multiset(b.methods)| == |b.methods|;
    forall k | 0 <= k < |ms|
      ensures Bounded(ms[k]) && Member(b.dispatcher, ms[k]) && ms[k].ret == b.dispatcher.ret
    {
      assert ms[k] in multiset(b.methods);
      var i :| 0 <= i < |b.methods| && b.methods[i] == ms[k];
    }
    var k :| 0 <= k < |b.methods| && b.methods[k].params == b.dispatcher.params;
    assert b.methods[k] in multiset(ms);
    var i :| 0 <= i < |ms| && ms[i] == b.methods[k];
  }

  lemma SortedDispatches(b: Bucket, relevant: bool, d: Dispatcher)
    requires BucketOk(b)
    requires relevant ==> b.dispatcher.params[0].Obj? && AllDispatchable(b.methods) && Ordered(b.methods)
    requires relevant ==>
      d.Chain? && |d.branches| == |b.methods|
      && forall k | 0 <= k < |b.methods| :: d.branches[k] == Branch(ClassOf(b.methods[k]), b.methods[k])
    requires !relevant ==> d.Call? && d.target in b.methods
    requires !relevant && b.dispatcher.params[0].Obj? ==>
      forall k | 0 <= k < |b.methods| :: b.methods[k].params[0].Obj? && ClassOf(b.methods[k]) == ClassOf(b.dispatcher)
    ensures Dispatches(d, b)
  {
    hide Bounded, Specializes, SameRest;
    if b.dispatcher.params[0].Obj? {
      MembersDispatchable(b);
      forall c | Derives(c, ClassOf(b.dispatcher)) ensures Target(d, c).Some?
        && Nearest(Target(d, c).value, b.methods, c) {
        var k :| 0 <= k < |b.methods| && b.methods[k].params == b.dispatcher.params;
        if relevant {
          ChainPicksNearest(b.methods, d.branches, c);
        }
      }
    }
  }

  class ModuleGraph {
    var methods: seq<Bucket>

    ghost predicate Valid()
      reads this
    {
      forall i | 0 <= i < |methods| :: BucketOk(methods[i])
    }

    constructor ()
      ensures Valid() && methods == []
    {
      methods := [];
    }

    /** `s` joins the first bucket that takes it, or starts a new one. */
    method MethodDef(s: Method) returns (report: Report)
      requires Valid() && Bounded(s) && |s.params| > 0
      modifies this
      ensures Valid()
      ensures report.Joined? || report.NotABase? ==>
        exists i :: 0 <= i < |old(methods)| && JoinsFirst(old(methods), i, s)
          && methods == old(methods)[i := Bucket(old(methods)[i].methods + [Fitted(old(methods)[i], s)],
            old(methods)[i].dispatcher)]
      ensures !(report.Joined? || report.NotABase?) ==>
        methods == old(methods) + [Bucket([s], s)]
        && forall i | 0 <= i < |old(methods)| :: !Joins(old(methods)[i].dispatcher, s)
      ensures report.InvalidOrder? <==>
        (forall i | 0 <= i < |old(methods)| :: !Joins(old(methods)[i].dispatcher, s))
        && exists i :: 0 <= i < |old(methods)| && OutOfOrder(old(methods)[i].dispatcher, s)
      ensures report.InvalidOrder? ==>
        exists i :: 0 <= i < |old(methods)| && OutOfOrder(old(methods)[i].dispatcher, s)
          && old(methods)[i].methods[0] == report.other
          && forall k | 0 <= k < i :: !OutOfOrder(old(methods)[k].dispatcher, s)
      ensures forall i | 0 <= i < |old(methods)| && JoinsFirst(old(methods), i, s) ::
        report.NotABase? <==> s.base && !s.generic && old(methods)[i].methods[0] != Fitted(old(methods)[i], s)
      ensures report.UseBase? ==> !s.base
      ensures report.Created? ==> s.base
    {
      hide Joins, OutOfOrder, Bounded, Member, Fitted;
      var clash: Option<Method> := None;
      ghost var first: nat := 0;
      for i := 0 to |methods|
        invariant methods == old(methods) && Valid()
        invariant forall k | 0 <= k < i :: !Joins(methods[k].dispatcher, s)
        invariant clash.None? ==> forall k | 0 <= k < i :: !OutOfOrder(methods[k].dispatcher, s)
        invariant clash.Some? ==>
          first < i && OutOfOrder(methods[first].dispatcher, s) && methods[first].methods[0] == clash.value
          && forall k | 0 <= k < first :: !OutOfOrder(methods[k].dispatcher, s)
      {
        var disp := methods[i].dispatcher;
        assert BucketOk(methods[i]);
        var verdict := SameMethodBucket(disp, s);
        if verdict == Yes {
          var m := Fitted(methods[i], s);
          JoinKeeps(methods[i], s);
          assert JoinsFirst(methods, i, s);
          methods := methods[i := Bucket(methods[i].methods + [m], disp)];
          assert old(methods)[i].methods[0] == methods[i].methods[0];
          report := if s.base && !s.generic && methods[i].methods[0] != m then NotABase else Joined;
          return;
        } else if verdict == Invalid {
          if clash.None? {
            clash, first := Some(methods[i].methods[0]), i;
          }
        }
      }
      methods := methods + [Bucket([s], s)];
      NewBucketOk(s);
      report := if clash.Some? then InvalidOrder(clash.value) else if s.base then Created else UseBase;
    }

    /** Sorts every bucket and makes its dispatcher. */
    method GenerateMethodDispatchers() returns (ds: seq<Dispatcher>)
      requires Valid()
      modifies this
      ensures Valid() && |methods| == |old(methods)| == |ds|
      ensures forall i | 0 <= i < |ds| ::
        && methods[i].dispatcher == old(methods)[i].dispatcher
        && multiset(methods[i].methods) == multiset(old(methods)[i].methods)
        && Dispatches(ds[i], methods[i])
    {
      ds := [];
      for bucket := 0 to |methods|
        invariant |methods| == |old(methods)| && |ds| == bucket && Valid()
        invariant forall i | bucket <= i < |methods| :: methods[i] == old(methods)[i]
        invariant forall i | 0 <= i < bucket ::
          && methods[i].dispatcher == old(methods)[i].dispatcher
          && multiset(methods[i].methods) == multiset(old(methods)[i].methods)
          && Dispatches(ds[i], methods[i])
      {
        var b, d := SortAndDispatch(methods[bucket]);
        methods := methods[bucket := b];
        ds := ds + [d];
      }
    }
  }

  lemma NewBucketOk(s: Method)
    requires Bounded(s) && |s.params| > 0
    ensures BucketOk(Bucket([s], s))
  {
    assert [s][0].params == s.params;
  }

  /** The first bucket that takes `s`. */
  ghost predicate JoinsFirst(buckets: seq<Bucket>, i: nat, s: Method)
    requires i < |buckets|
  {
    Joins(buckets[i].dispatcher, s) && forall k | 0 <= k < i :: !Joins(buckets[k].dispatcher, s)
  }

  /** An `auto` return type is inferred from the base. */
  function Fitted(b: Bucket, s: Method): Method {
    if s.ret.Untyped? && s.ret != b.dispatcher.ret then s.(ret := b.dispatcher.ret) else s
  }

  lemma JoinKeeps(b: Bucket, s: Method)
    requires BucketOk(b) && Bounded(s) && Joins(b.dispatcher, s)
    ensures BucketOk(Bucket(b.methods + [Fitted(b, s)], b.dispatcher))
  {
    var m := Fitted(b, s);
    SameBucketMeans(b.dispatcher, s);
    assert Member(b.dispatcher, m) && Bounded(m);
    var k :| 0 <= k < |b.methods| && b.methods[k].params == b.dispatcher.params;
    assert (b.methods + [m])[k] == b.methods[k];
  }

  method SortAndDispatch(b: Bucket) returns (r: Bucket, d: Dispatcher)
    requires BucketOk(b)
    ensures BucketOk(r) && r.dispatcher == b.dispatcher && multiset(r.methods) == multiset(b.methods)
    ensures Dispatches(d, r)
  {
    hide Bounded, Dispatches;
    var relevant := RelevantCol(b.methods);
    if relevant {
      MemberClass(b.dispatcher, b.methods[0]);
      MembersDispatchable(b);
    }
    ghost var most;
    var ms;
    ms, most := SortBucket(b.methods, relevant);
    Reordered(b, ms);
    r := Bucket(ms, b.dispatcher);
    d := GenDispatcher(ms, relevant);
    if !relevant && b.dispatcher.params[0].Obj? {
      SameClasses(b, ms);
    }
    SortedDispatches(r, relevant, d);
  }

  lemma SameClasses(b: Bucket, ms: seq<Method>)
    requires BucketOk(b) && multiset(ms) == multiset(b.methods) && b.dispatcher.params[0].Obj?
    requires forall k | 1 <= k < |b.methods| ::
      b.methods[k].params[0].Obj? && ClassOf(b.methods[k]) == ClassOf(b.methods[0])
    ensures forall k | 0 <= k < |ms| ::
      |ms[k].params| > 0 && ms[k].params[0].Obj? && ClassOf(ms[k]) == ClassOf(b.dispatcher)
  {
    MembersDispatchable(b);
    var i :| 0 <= i < |b.methods| && b.methods[i].params == b.dispatcher.params;
    forall k | 0 <= k < |ms| ensures |ms[k].params| > 0 && ms[k].params[0].Obj?
      && ClassOf(ms[k]) == ClassOf(b.dispatcher) {
      assert ms[k] in multiset(b.methods);
      var j :| 0 <= j < |b.methods| && b.methods[j] == ms[k];
      assert ClassOf(b.methods[j]) == ClassOf(b.methods[0]) == ClassOf(b.methods[i]);
    }
  }
}
